/** The SCSS loader plugin (handle_scss.go): esbuild hands it every path its filter
    matches; it compiles the file with libsass and caches the CSS per path, together
    with the files the compilation read and the latest modification time among them. A
    later load of the same path reuses the CSS as long as that latest time is unchanged.

    Opening the file, libsass and os.Stat are outside the model: whether the open
    succeeds is a parameter, what libsass does with the file is a `Compilation`, and
    modification times come from a function of the path. */
module Scss {
  import opened Common
  import opened Api

  /** A modification time, counted from Go's zero time.Time. */
  type Time = nat

  const ZeroTime: Time := 0

  /** A cached compilation: the files it read (its imports, then the file itself), the
      latest modification time among them when it was stored, and the CSS. */
  datatype CacheEntry = CacheEntry(sources: seq<string>, mtime: Time, content: string)

  /** The outcome of libsass on one file: a failure at one of its three steps, or the CSS
      with the imports it followed. */
  datatype Compilation =
    | NewFailed
    | OptionFailed
    | RunFailed
    | Compiled(css: string, imports: seq<string>)

  datatype LoadError =
    | OpenFailed          // "sass: unable to open file"
    | LibsassUnavailable  // "sass: unable to load libsass"
    | IncludePathFailed   // "sass: unable to set include path"
    | CompileFailed       // "sass: unable to compile"

  /** api.OnLoadResult: the contents handed back to esbuild and how to load them. */
  datatype LoadResult = LoadResult(contents: string, loader: Loader)

  /** The latest modification time among `files`, or the zero time when there are none. */
  function LatestMtime(files: seq<string>, mtimeOf: string -> Time): (t: Time)
    ensures forall f :: f in files ==> mtimeOf(f) <= t
    ensures files == [] ==> t == ZeroTime
    ensures files != [] ==> exists f :: f in files && mtimeOf(f) == t
    decreases |files|
  {
    if files == [] then ZeroTime
    else
      var latest := LatestMtime(files[..|files| - 1], mtimeOf);
      var last := files[|files| - 1];
      assert files == files[..|files| - 1] + [last];
      if mtimeOf(last) > latest then mtimeOf(last) else latest
  }

  /** getLatestMtime: a running maximum over the files, starting from the zero time. */
  method GetLatestMtime(files: seq<string>, mtimeOf: string -> Time) returns (latestMTime: Time)
    ensures latestMTime == LatestMtime(files, mtimeOf)
  {
    latestMTime := ZeroTime;
    for i := 0 to |files|
      invariant latestMTime == LatestMtime(files[..i], mtimeOf)
    {
      var modTime := mtimeOf(files[i]);
      assert files[..i + 1][..i] == files[..i];
      if modTime > latestMTime {
        latestMTime := modTime;
      }
    }
    assert files[..|files|] == files;
  }

  /** The latest time depends only on the times of the listed files. */
  lemma {:induction false} LatestMtimeOnlyReadsSources(files: seq<string>, before: string -> Time, after: string -> Time)
    requires forall f :: f in files ==> before(f) == after(f)
    ensures LatestMtime(files, before) == LatestMtime(files, after)
    decreases |files|
  {
    if files != [] {
      var prefix := files[..|files| - 1];
      assert forall f :: f in prefix ==> f in files;
      LatestMtimeOnlyReadsSources(prefix, before, after);
    }
  }

  /** The cache answers for `path`: an entry exists and its sources' latest time still
      equals the stored one. */
  predicate CacheHit(cache: map<string, CacheEntry>, path: string, mtimeOf: string -> Time) {
    path in cache && LatestMtime(cache[path].sources, mtimeOf) == cache[path].mtime
  }

  /** The entry stored after compiling `path` to `css` with the given imports. */
  function Stored(path: string, css: string, imports: seq<string>, mtimeOf: string -> Time): (e: CacheEntry)
    ensures e.sources == imports + [path] && e.content == css
    ensures e.mtime == LatestMtime(e.sources, mtimeOf)
    ensures forall f :: f in e.sources ==> mtimeOf(f) <= e.mtime
    ensures exists f :: f in e.sources && mtimeOf(f) == e.mtime
  {
    CacheEntry(imports + [path], LatestMtime(imports + [path], mtimeOf), css)
  }

  /** A freshly stored entry answers the next load, as long as no file it read changes. */
  lemma StoredEntryHits(cache: map<string, CacheEntry>, path: string, css: string, imports: seq<string>,
                        before: string -> Time, after: string -> Time)
    requires forall f :: f in imports + [path] ==> before(f) == after(f)
    ensures CacheHit(cache[path := Stored(path, css, imports, before)], path, after)
  {
    LatestMtimeOnlyReadsSources(imports + [path], before, after);
  }

  /** A source modified later than the stored time makes the entry stale, so the file is
      compiled again. */
  lemma EditedSourceMisses(cache: map<string, CacheEntry>, path: string, mtimeOf: string -> Time, f: string)
    requires path in cache && f in cache[path].sources && mtimeOf(f) > cache[path].mtime
    ensures !CacheHit(cache, path, mtimeOf)
  {
  }

  /** The plugin's OnLoad filter as written, `\.scss|sass$`: the path contains ".scss"
      anywhere, or ends with "sass". */
  predicate FilterAsWritten(path: string) {
    Contains(path, ".scss") || HasSuffix(path, "sass")
  }

  /** `sub` occurs somewhere in `s`. */
  predicate Contains(s: string, sub: string)
    decreases |s|
  {
    HasPrefix(s, sub) || (s != [] && Contains(s[1..], sub))
  }

  lemma {:induction false} SuffixIsContained(s: string, sub: string)
    requires HasSuffix(s, sub)
    ensures Contains(s, sub)
    decreases |s|
  {
    if |s| > |sub| {
      assert s[1..][|s[1..]| - |sub|..] == s[|s| - |sub|..];
      SuffixIsContained(s[1..], sub);
    } else {
      assert s == sub;
      assert HasPrefix(s, sub);
    }
  }

  /** The filter as evidently intended, `\.(scss|sass)$`: a ".scss" or ".sass" file. */
  predicate Filter(path: string) {
    HasSuffix(path, ".scss") || HasSuffix(path, ".sass")
  }

  /** The alternation binds looser than the anchor and the dot: a JavaScript file with
      ".scss" inside its name, or a file named like "mysass", is handed to libsass. */
  lemma FilterAsWrittenTakesOtherFiles()
    ensures FilterAsWritten("app.scss.js") && !Filter("app.scss.js")
    ensures FilterAsWritten("mysass") && !Filter("mysass")
  {
    assert HasPrefix(".scss.js", ".scss");
    assert "app.scss.js"[1..] == "pp.scss.js" && "pp.scss.js"[1..] == "p.scss.js" && "p.scss.js"[1..] == ".scss.js";
    assert Contains("app.scss.js", ".scss");
    assert "mysass"[2..] == "sass";
  }

  /** A dot-led suffix with no further dot or separator is the path's extension. */
  lemma {:induction false} ExtOfSuffix(path: string, x: string)
    requires |x| > 0 && x[0] == '.'
    requires forall k :: 0 < k < |x| ==> x[k] != '.' && x[k] != '/'
    requires HasSuffix(path, x)
    ensures Ext(path) == x
  {
    var ext := Ext(path);
    var p := |path| - |x|;
    assert path[p] == '.';
    assert forall j :: p < j < |path| ==> path[j] == x[j - p];
    if ext == [] || |ext| != |x| {
      assert false;
    } else {
      assert ext == path[p..] == x;
    }
  }

  /** The intended filter selects exactly the files whose extension is ".scss" or ".sass". */
  lemma FilterIsStyleExtension(path: string)
    ensures Filter(path) <==> Ext(path) == ".scss" || Ext(path) == ".sass"
  {
    if HasSuffix(path, ".scss") {
      ExtOfSuffix(path, ".scss");
    } else if HasSuffix(path, ".sass") {
      ExtOfSuffix(path, ".sass");
    }
  }

  /** Everything the intended filter selects, the written one selects too. */
  lemma FilterWithinAsWritten(path: string)
    requires Filter(path)
    ensures FilterAsWritten(path)
  {
    if HasSuffix(path, ".scss") {
      SuffixIsContained(path, ".scss");
    } else {
      assert path[|path| - 4..] == "sass";
    }
  }

  /** The plugin's state: the cache its Setup closure owns. */
  class SassPlugin {
    var cache: map<string, CacheEntry>

    constructor ()
      ensures cache == map[]
    {
      cache := map[];
    }

    /** The OnLoad callback. The file is opened before the cache is consulted; a hit
        returns the cached CSS without compiling; any libsass failure leaves the cache as
        it was; a compilation replaces this path's entry and no other. */
    method OnLoad(path: string, openOk: bool, compilation: Compilation, mtimeOf: string -> Time)
      returns (r: Result<LoadResult, LoadError>)
      modifies this
      ensures r.Ok? ==> r.value.loader == LoaderCSS
      ensures !openOk ==> r == Err(OpenFailed) && cache == old(cache)
      ensures openOk && CacheHit(old(cache), path, mtimeOf) ==>
                r == Ok(LoadResult(old(cache)[path].content, LoaderCSS)) && cache == old(cache)
      ensures openOk && !CacheHit(old(cache), path, mtimeOf) && !compilation.Compiled? ==>
                && cache == old(cache)
                && r == Err(if compilation.NewFailed? then LibsassUnavailable
                            else if compilation.OptionFailed? then IncludePathFailed
                            else CompileFailed)
      ensures openOk && !CacheHit(old(cache), path, mtimeOf) && compilation.Compiled? ==>
                && r == Ok(LoadResult(compilation.css, LoaderCSS))
                && cache == old(cache)[path := Stored(path, compilation.css, compilation.imports, mtimeOf)]
    {
      if !openOk {
        return Err(OpenFailed);
      }
      if path in cache {
        var val := cache[path];
        var latestMTime := GetLatestMtime(val.sources, mtimeOf);
        if latestMTime == val.mtime {
          return Ok(LoadResult(val.content, LoaderCSS));
        }
      }
      match compilation
      case NewFailed =>
        return Err(LibsassUnavailable);
      case OptionFailed =>
        return Err(IncludePathFailed);
      case RunFailed =>
        return Err(CompileFailed);
      case Compiled(contents, imports) =>
        var files := imports + [path];
        var latestMTime := GetLatestMtime(files, mtimeOf);
        cache := cache[path := CacheEntry(files, latestMTime, contents)];
        return Ok(LoadResult(contents, LoaderCSS));
    }
  }
}
