/** The environment defines (handle_env.go): dotenv files are loaded into the process
    environment, in order of precedence, and the variables a React-style bundle may see
    (NODE_ENV and every REACT_APP_ variable) are collected into `process.env`.

    The process environment is a sequence of "KEY=VALUE" entries, as os.Environ returns
    it. godotenv.Load is a parameter: given a file name and the environment, it yields
    the environment after loading that file, or nothing when the file cannot be read or
    parsed (the environment is then left as it was). */
module Env {
  import opened Common

  type Environ = seq<string>

  const ReactPrefix := "REACT_APP_"

  /** Reading a REACT_APP_ entry without "=" indexes past the end of strings.SplitN's
      result: the handler panics on that entry. */
  datatype EnvPanic = IndexOutOfRange(pair: string)

  /** The text before the first "=", or the whole entry when it has none. */
  function Key(pair: string): (k: string)
    ensures k <= pair
    ensures '=' !in k
    ensures '=' !in pair ==> k == pair
    ensures '=' in pair ==> |k| < |pair| && pair[|k|] == '='
  {
    match IndexOf(pair, '=')
    case None => pair
    case Some(i) => pair[..i]
  }

  /** The text after the first "=", which may itself contain "=". */
  function Value(pair: string): (v: string)
    requires '=' in pair
    ensures Key(pair) + "=" + v == pair
  {
    var i := IndexOf(pair, '=').value;
    assert pair[..i] + "=" + pair[i + 1..] == pair;
    pair[i + 1..]
  }

  /** os.Getenv: the value of the first well-formed entry for `key`, or "". */
  function Getenv(environ: Environ, key: string): (v: string)
    ensures v != "" ==> exists i :: 0 <= i < |environ| && '=' in environ[i] && Key(environ[i]) == key && Value(environ[i]) == v
    decreases |environ|
  {
    if environ == [] then ""
    else if '=' in environ[0] && Key(environ[0]) == key then Value(environ[0])
    else Getenv(environ[1..], key)
  }

  /** `pair` is a well-formed entry for `key`. */
  predicate Defines(pair: string, key: string) {
    '=' in pair && Key(pair) == key
  }

  /** Entry i is the first well-formed entry for `key`. */
  predicate IsFirstEntry(environ: Environ, key: string, i: int) {
    0 <= i < |environ| && Defines(environ[i], key) && forall j :: 0 <= j < i ==> !Defines(environ[j], key)
  }

  /** os.Getenv returns the value of the first well-formed entry for the key ... */
  lemma {:induction false} GetenvFindsFirst(environ: Environ, key: string, i: nat)
    requires IsFirstEntry(environ, key, i)
    ensures Getenv(environ, key) == Value(environ[i])
    decreases |environ|
  {
    if i > 0 {
      assert !Defines(environ[0], key);
      assert IsFirstEntry(environ[1..], key, i - 1);
      GetenvFindsFirst(environ[1..], key, i - 1);
    }
  }

  /** ... which exists whenever some entry is well formed for it ... */
  lemma {:induction false} FirstEntryExists(environ: Environ, key: string, i: nat)
    requires i < |environ| && Defines(environ[i], key)
    ensures exists k :: IsFirstEntry(environ, key, k)
    decreases i
  {
    if forall j :: 0 <= j < i ==> !Defines(environ[j], key) {
      assert IsFirstEntry(environ, key, i);
    } else {
      var j :| 0 <= j < i && Defines(environ[j], key);
      FirstEntryExists(environ, key, j);
    }
  }

  /** ... and "" when no entry is. */
  lemma {:induction false} GetenvWithoutEntry(environ: Environ, key: string)
    requires forall i :: 0 <= i < |environ| ==> !Defines(environ[i], key)
    ensures Getenv(environ, key) == ""
    decreases |environ|
  {
    if environ != [] {
      var rest := environ[1..];
      assert !Defines(environ[0], key);
      forall i | 0 <= i < |rest| ensures !Defines(rest[i], key) {
        assert rest[i] == environ[i + 1];
      }
      GetenvWithoutEntry(rest, key);
    }
  }

  /** The dotenv files, most specific first; NODE_ENV defaults to "development". */
  function DotenvFiles(nodeEnv: string): (files: seq<string>)
    ensures |files| == 4 && files[1] == ".env.local" && files[3] == ".env"
    ensures var current := if nodeEnv == "" then "development" else nodeEnv;
            files[0] == ".env." + current + ".local" && files[2] == ".env." + current
  {
    var currentEnv := if nodeEnv == "" then "development" else nodeEnv;
    [".env." + currentEnv + ".local", ".env.local", ".env." + currentEnv, ".env"]
  }

  lemma DotenvFilesDefault()
    ensures DotenvFiles("") == [".env.development.local", ".env.local", ".env.development", ".env"]
    ensures DotenvFiles("production") == [".env.production.local", ".env.local", ".env.production", ".env"]
  {
    assert ".env." + "development" + ".local" == ".env.development.local";
    assert ".env." + "development" == ".env.development";
    assert ".env." + "production" + ".local" == ".env.production.local";
    assert ".env." + "production" == ".env.production";
  }

  /** One godotenv.Load whose error is ignored. */
  function LoadIgnoringError(load: (string, Environ) -> Option<Environ>, file: string, environ: Environ): Environ {
    match load(file, environ)
    case None => environ
    case Some(loaded) => loaded
  }

  /** The four loads: the environment afterwards, and whether loading ".env" failed. */
  function LoadDotenv(environ: Environ, load: (string, Environ) -> Option<Environ>): (r: (Environ, bool))
    ensures var files := DotenvFiles(Getenv(environ, "NODE_ENV"));
            var e := LoadIgnoringError(load, files[2], LoadIgnoringError(load, files[1], LoadIgnoringError(load, files[0], environ)));
            && r.1 == load(".env", e).None?
            && r.0 == LoadIgnoringError(load, ".env", e)
  {
    var files := DotenvFiles(Getenv(environ, "NODE_ENV"));
    var e := LoadIgnoringError(load, files[0], environ);
    var e := LoadIgnoringError(load, files[1], e);
    var e := LoadIgnoringError(load, files[2], e);
    (LoadIgnoringError(load, ".env", e), load(".env", e).None?)
  }

  /** An entry the filter keeps: well formed, with a REACT_APP_ key. */
  predicate Exposed(pair: string) {
    '=' in pair && HasPrefix(Key(pair), ReactPrefix)
  }

  /** An entry the filter cannot split: a REACT_APP_ name with no "=". */
  predicate Malformed(pair: string) {
    '=' !in pair && HasPrefix(pair, ReactPrefix)
  }

  /** The filter loop from `acc`: every exposed entry is stored under its key, later
      entries overwriting earlier ones; the first malformed entry panics. */
  function FilterPairs(acc: map<string, string>, pairs: Environ): (r: Result<map<string, string>, EnvPanic>)
    ensures r.Err? <==> exists i :: 0 <= i < |pairs| && Malformed(pairs[i])
    ensures r.Err? ==> Malformed(r.error.pair) && r.error.pair in pairs
    ensures r.Ok? ==> acc.Keys <= r.value.Keys
    ensures r.Ok? ==> forall i :: 0 <= i < |pairs| && Exposed(pairs[i]) ==> Key(pairs[i]) in r.value
    ensures r.Ok? ==> forall k :: k in r.value && k !in acc ==> HasPrefix(k, ReactPrefix)
    ensures r.Ok? ==> forall k :: k in acc && !HasPrefix(k, ReactPrefix) ==> r.value[k] == acc[k]
    decreases |pairs|
  {
    if pairs == [] then Ok(acc)
    else
      var pair := pairs[0];
      var rest := FilterPairs(if Exposed(pair) then acc[Key(pair) := Value(pair)] else acc, pairs[1..]);
      assert forall i :: 0 < i < |pairs| ==> pairs[i] == pairs[1..][i - 1];
      if Malformed(pair) then Err(IndexOutOfRange(pair)) else rest
  }

  /** The stored value of an exposed entry that no later entry overrides is the text
      after its first "=". */
  lemma {:induction false} FilterPairsValueAt(acc: map<string, string>, pairs: Environ, i: nat)
    requires i < |pairs| && Exposed(pairs[i])
    requires forall j :: i < j < |pairs| ==> !Exposed(pairs[j]) || Key(pairs[j]) != Key(pairs[i])
    requires FilterPairs(acc, pairs).Ok?
    ensures FilterPairs(acc, pairs).value[Key(pairs[i])] == Value(pairs[i])
    decreases |pairs|
  {
    var pair := pairs[0];
    var next := if Exposed(pair) then acc[Key(pair) := Value(pair)] else acc;
    var rest := pairs[1..];
    assert FilterPairs(acc, pairs) == FilterPairs(next, rest);
    if i == 0 {
      forall j | 0 <= j < |rest| ensures !Exposed(rest[j]) || Key(rest[j]) != Key(pair) {
        assert rest[j] == pairs[j + 1];
      }
      FilterPairsKeeps(next, rest, Key(pair));
    } else {
      assert rest[i - 1] == pairs[i];
      forall j | i - 1 < j < |rest| ensures !Exposed(rest[j]) || Key(rest[j]) != Key(rest[i - 1]) {
        assert rest[j] == pairs[j + 1];
      }
      FilterPairsValueAt(next, rest, i - 1);
    }
  }

  /** A key no later exposed entry has keeps its value. */
  lemma {:induction false} FilterPairsKeeps(acc: map<string, string>, pairs: Environ, key: string)
    requires key in acc
    requires forall j :: 0 <= j < |pairs| ==> !Exposed(pairs[j]) || Key(pairs[j]) != key
    requires FilterPairs(acc, pairs).Ok?
    ensures FilterPairs(acc, pairs).value[key] == acc[key]
    decreases |pairs|
  {
    if pairs != [] {
      var pair := pairs[0];
      var next := if Exposed(pair) then acc[Key(pair) := Value(pair)] else acc;
      assert FilterPairs(acc, pairs) == FilterPairs(next, pairs[1..]);
      FilterPairsKeeps(next, pairs[1..], key);
    }
  }

  /** What handleEnv collects from the environment after loading: NODE_ENV as it now
      reads, and, unless loading ".env" failed, the REACT_APP_ entries. */
  function ProcessEnv(after: Environ, loadFailed: bool): Result<map<string, string>, EnvPanic> {
    var env := map["NODE_ENV" := Getenv(after, "NODE_ENV")];
    if loadFailed then Ok(env) else FilterPairs(env, after)
  }

  /** handleEnv, returning process.env (before it is JSON-encoded) and the process
      environment the loads leave behind. */
  method HandleEnv(environ: Environ, load: (string, Environ) -> Option<Environ>)
    returns (r: Result<map<string, string>, EnvPanic>, after: Environ)
    ensures after == LoadDotenv(environ, load).0
    ensures r == ProcessEnv(after, LoadDotenv(environ, load).1)
  {
    var currentEnv := Getenv(environ, "NODE_ENV");
    if currentEnv == "" {
      currentEnv := "development";
    }
    after := LoadIgnoringError(load, ".env." + currentEnv + ".local", environ);
    after := LoadIgnoringError(load, ".env.local", after);
    after := LoadIgnoringError(load, ".env." + currentEnv, after);
    var err := load(".env", after).None?;
    after := LoadIgnoringError(load, ".env", after);

    var env := map["NODE_ENV" := Getenv(after, "NODE_ENV")];
    if err {
      return Ok(env), after;
    }
    r := CollectReactApp(env, after);
  }

  /** The loop over os.Environ(): every REACT_APP_ entry is stored under its key. */
  method CollectReactApp(initial: map<string, string>, pairs: Environ) returns (r: Result<map<string, string>, EnvPanic>)
    ensures r == FilterPairs(initial, pairs)
  {
    var env := initial;
    for i := 0 to |pairs|
      invariant FilterPairs(env, pairs[i..]) == FilterPairs(initial, pairs)
    {
      assert pairs[i..][1..] == pairs[i + 1..];
      var pair := pairs[i];
      var eq := IndexOf(pair, '=');
      var key := if eq.Some? then pair[..eq.value] else pair;
      if HasPrefix(key, ReactPrefix) {
        if eq.None? {
          return Err(IndexOutOfRange(pair));
        }
        env := env[key := pair[eq.value + 1..]];
      }
    }
    assert pairs[|pairs|..] == [];
    return Ok(env);
  }

  /** NODE_ENV is always defined, as it reads after loading (possibly ""; the
      "development" default only picks the files). */
  lemma NodeEnvAlwaysDefined(after: Environ, loadFailed: bool)
    requires ProcessEnv(after, loadFailed).Ok?
    ensures "NODE_ENV" in ProcessEnv(after, loadFailed).value
    ensures ProcessEnv(after, loadFailed).value["NODE_ENV"] == Getenv(after, "NODE_ENV")
  {
    assert !HasPrefix("NODE_ENV", ReactPrefix);
  }

  /** Nothing but NODE_ENV and REACT_APP_ variables reaches the bundle. */
  lemma OnlyExposedKeys(after: Environ, loadFailed: bool, k: string)
    requires ProcessEnv(after, loadFailed).Ok? && k in ProcessEnv(after, loadFailed).value
    ensures k == "NODE_ENV" || HasPrefix(k, ReactPrefix)
  {
  }

  /** When ".env" cannot be loaded, NODE_ENV is the only variable. */
  lemma LoadFailureDefinesOnlyNodeEnv(after: Environ)
    ensures ProcessEnv(after, true) == Ok(map["NODE_ENV" := Getenv(after, "NODE_ENV")])
    ensures ProcessEnv(after, true).value.Keys == {"NODE_ENV"}
  {
  }

  /** Every REACT_APP_ variable is defined, with the text after its first "=" (the last
      entry for a key wins); a REACT_APP_ entry without "=" makes the handler panic. */
  lemma ReactAppVariablesDefined(after: Environ, i: nat)
    requires i < |after| && Exposed(after[i])
    requires forall j :: i < j < |after| ==> !Exposed(after[j]) || Key(after[j]) != Key(after[i])
    requires ProcessEnv(after, false).Ok?
    ensures ProcessEnv(after, false).value[Key(after[i])] == Value(after[i])
  {
    FilterPairsValueAt(map["NODE_ENV" := Getenv(after, "NODE_ENV")], after, i);
  }

  /** Worked example: the value keeps its own "=", other variables are dropped and an
      unset NODE_ENV is recorded as "". */
  lemma ProcessEnvExample()
    ensures ProcessEnv(["PATH=/bin", "REACT_APP_URL=a=b"], false) == Ok(map["NODE_ENV" := "", "REACT_APP_URL" := "a=b"])
  {
    ExampleNodeEnvUnset();
    ExampleFilter();
  }

  lemma ExampleNodeEnvUnset()
    ensures Getenv(["PATH=/bin", "REACT_APP_URL=a=b"], "NODE_ENV") == ""
  {
    ExamplePath();
    ExampleUrlKey();
    ExampleUrlValue();
    ExampleUrlExposed();
    GetenvSkip(["PATH=/bin", "REACT_APP_URL=a=b"], "NODE_ENV");
    GetenvSkip(["REACT_APP_URL=a=b"], "NODE_ENV");
  }

  /** An entry for another key is passed over. */
  lemma GetenvSkip(environ: Environ, key: string)
    requires environ != [] && '=' in environ[0] && Key(environ[0]) != key
    ensures Getenv(environ, key) == Getenv(environ[1..], key)
  {
  }

  lemma ExampleFilter()
    ensures FilterPairs(map["NODE_ENV" := ""], ["PATH=/bin", "REACT_APP_URL=a=b"]) == Ok(map["NODE_ENV" := "", "REACT_APP_URL" := "a=b"])
  {
    ExamplePath();
    ExampleUrlKey();
    ExampleUrlValue();
    ExampleUrlExposed();
    var path := "PATH=/bin";
    var url := "REACT_APP_URL=a=b";
    var env := map["NODE_ENV" := ""];
    assert [path, url][1..] == [url];
    assert FilterPairs(env, [path, url]) == FilterPairs(env, [url]);
    assert FilterPairs(env, [url]) == FilterPairs(env["REACT_APP_URL" := "a=b"], []);
  }

  lemma ExamplePath()
    ensures Key("PATH=/bin") == "PATH" && '=' in "PATH=/bin" && !Exposed("PATH=/bin") && !Malformed("PATH=/bin")
  {
    var path := "PATH=/bin";
    assert path[..4] == "PATH" && '=' !in path[..4];
    KeyAt(path, 4);
  }

  lemma ExampleUrlExposed()
    ensures Exposed("REACT_APP_URL=a=b") && !Malformed("REACT_APP_URL=a=b")
  {
    ExampleUrlKey();
    ExampleKeyHasPrefix();
  }

  lemma ExampleKeyHasPrefix()
    ensures HasPrefix("REACT_APP_URL", ReactPrefix)
  {
    assert "REACT_APP_URL"[..10] == ReactPrefix;
  }

  lemma ExampleUrlKey()
    ensures '=' in "REACT_APP_URL=a=b" && Key("REACT_APP_URL=a=b") == "REACT_APP_URL"
  {
    var url := "REACT_APP_URL=a=b";
    assert url[..13] == "REACT_APP_URL" && '=' !in url[..13];
    KeyAt(url, 13);
  }

  lemma ExampleUrlValue()
    ensures '=' in "REACT_APP_URL=a=b" && Value("REACT_APP_URL=a=b") == "a=b"
  {
    var url := "REACT_APP_URL=a=b";
    assert url[..13] == "REACT_APP_URL" && '=' !in url[..13];
    SplitAt(url, 13);
    assert url[14..] == "a=b";
  }

  /** An entry whose first "=" is at index i has the text before it as its key. */
  lemma KeyAt(pair: string, i: nat)
    requires i < |pair| && pair[i] == '=' && '=' !in pair[..i]
    ensures '=' in pair && Key(pair) == pair[..i]
  {
    IndexOfAt(pair, '=', i);
  }

  /** An entry whose first "=" is at index i splits there. */
  lemma SplitAt(pair: string, i: nat)
    requires i < |pair| && pair[i] == '=' && '=' !in pair[..i]
    ensures '=' in pair && Key(pair) == pair[..i] && Value(pair) == pair[i + 1..]
  {
    IndexOfAt(pair, '=', i);
  }

  /** The first occurrence is the one with no earlier occurrence. */
  lemma IndexOfAt(s: string, c: char, i: nat)
    requires i < |s| && s[i] == c && c !in s[..i]
    ensures IndexOf(s, c) == Some(i)
  {
    assert s[i] in s;
  }

  /** A REACT_APP_ entry without "=" makes the handler panic. */
  lemma MalformedEntryPanics()
    ensures ProcessEnv(["REACT_APP_FLAG"], false) == Err(IndexOutOfRange("REACT_APP_FLAG"))
  {
    assert Malformed("REACT_APP_FLAG") by {
      assert "REACT_APP_FLAG"[..10] == ReactPrefix;
    }
  }
}
