/** The earlier, single-entry version of the plugin: one source and one target file,
    a value copy of the last build result, and one SHA-1 hasher created at provisioning
    and shared by every digest computed afterwards. It is self-contained: none of the
    other modules build on it. */
module Legacy {
  import opened Common
  import opened Api

  datatype ConfigError = NoSourceFile | NoTargetFile

  /** The index of the first output, in result order, whose path is a prefix of the
      request URI (so a query string or a longer path still matches). */
  function FirstPrefixMatch(files: seq<OutputFile>, uri: string): (k: Option<nat>)
    ensures k.Some? ==> k.value < |files| && HasPrefix(uri, files[k.value].path)
    ensures k.Some? ==> forall j :: 0 <= j < k.value ==> !HasPrefix(uri, files[j].path)
    ensures k.None? ==> forall j :: 0 <= j < |files| ==> !HasPrefix(uri, files[j].path)
    decreases |files|
  {
    if files == [] then None
    else if HasPrefix(uri, files[0].path) then Some(0)
    else
      match FirstPrefixMatch(files[1..], uri)
      case None => None
      case Some(k) => Some(k + 1)
  }

  /** A prefix match preceded by none is the first one. */
  lemma {:induction false} FirstPrefixMatchAt(files: seq<OutputFile>, uri: string, i: nat)
    requires i < |files| && HasPrefix(uri, files[i].path)
    requires forall j :: 0 <= j < i ==> !HasPrefix(uri, files[j].path)
    ensures FirstPrefixMatch(files, uri) == Some(i)
    decreases i
  {
    if i > 0 {
      FirstPrefixMatchAt(files[1..], uri, i - 1);
    }
  }

  /** The digest table and the hasher's accumulated input after one build. The hasher is
      never reset: each output's digest covers everything written to it so far. */
  function StreamDigests(written: string, hashes: map<string, string>, files: seq<OutputFile>, sha1Hex: string -> string)
    : (r: (string, map<string, string>))
    ensures r.0 == written + Concat(files)
    ensures hashes.Keys <= r.1.Keys
    ensures forall k :: 0 <= k < |files| ==> files[k].path in r.1
    ensures forall p :: p in r.1 && p !in hashes ==> exists k :: 0 <= k < |files| && files[k].path == p
    decreases |files|
  {
    if files == [] then (written, hashes)
    else
      var stream := written + files[0].contents;
      assert stream + Concat(files[1..]) == written + Concat(files);
      StreamDigests(stream, hashes[files[0].path := sha1Hex(stream)], files[1..], sha1Hex)
  }

  /** All contents of `files`, concatenated in order. */
  function Concat(files: seq<OutputFile>): string
    decreases |files|
  {
    if files == [] then "" else files[0].contents + Concat(files[1..])
  }

  lemma ConcatTake(files: seq<OutputFile>, i: nat)
    requires i < |files|
    ensures Concat(files[..i + 1]) == files[0].contents + Concat(files[1..][..i])
  {
    assert files[..i + 1][1..] == files[1..][..i];
  }

  lemma NotInTail(files: seq<OutputFile>)
    requires files != []
    requires forall j :: 0 < j < |files| ==> files[j].path != files[0].path
    ensures forall f :: f in files[1..] ==> f.path != files[0].path
  {
    forall f | f in files[1..] ensures f.path != files[0].path {
      var j :| 0 <= j < |files[1..]| && files[1..][j] == f;
      assert files[j + 1] == f;
    }
  }

  /** A path that no output of the build has keeps its previous digest. */
  lemma {:induction false} StreamDigestsKeeps(written: string, hashes: map<string, string>, files: seq<OutputFile>, sha1Hex: string -> string, p: string)
    requires forall f :: f in files ==> f.path != p
    ensures p in hashes ==> StreamDigests(written, hashes, files, sha1Hex).1[p] == hashes[p]
    decreases |files|
  {
    if files != [] {
      var stream := written + files[0].contents;
      StreamDigestsKeeps(stream, hashes[files[0].path := sha1Hex(stream)], files[1..], sha1Hex, p);
    }
  }

  /** The first output's digest, when no later output shares its path. */
  lemma StreamDigestAtHead(written: string, hashes: map<string, string>, files: seq<OutputFile>, sha1Hex: string -> string)
    requires files != []
    requires forall j :: 0 < j < |files| ==> files[j].path != files[0].path
    ensures StreamDigests(written, hashes, files, sha1Hex).1[files[0].path] == sha1Hex(written + files[0].contents)
  {
    var stream := written + files[0].contents;
    var next := hashes[files[0].path := sha1Hex(stream)];
    assert StreamDigests(written, hashes, files, sha1Hex) == StreamDigests(stream, next, files[1..], sha1Hex);
    NotInTail(files);
    StreamDigestsKeeps(stream, next, files[1..], sha1Hex, files[0].path);
  }

  /** The digest stored for output i (the last output with its path) is the SHA-1 of
      everything written to the hasher up to and including that file. */
  lemma {:induction false} StreamDigestAt(written: string, hashes: map<string, string>, files: seq<OutputFile>, sha1Hex: string -> string, i: nat)
    requires i < |files|
    requires forall j :: i < j < |files| ==> files[j].path != files[i].path
    ensures StreamDigests(written, hashes, files, sha1Hex).1[files[i].path] == sha1Hex(written + Concat(files[..i + 1]))
    decreases |files|, 1
  {
    if i == 0 {
      StreamDigestAtHead(written, hashes, files, sha1Hex);
      ConcatTake(files, 0);
      assert written + Concat(files[..1]) == written + files[0].contents;
    } else {
      StreamDigestAtLater(written, hashes, files, sha1Hex, i);
    }
  }

  lemma {:induction false} StreamDigestAtLater(written: string, hashes: map<string, string>, files: seq<OutputFile>, sha1Hex: string -> string, i: nat)
    requires 0 < i < |files|
    requires forall j :: i < j < |files| ==> files[j].path != files[i].path
    ensures StreamDigests(written, hashes, files, sha1Hex).1[files[i].path] == sha1Hex(written + Concat(files[..i + 1]))
    decreases |files|, 0
  {
    var stream := written + files[0].contents;
    var next := hashes[files[0].path := sha1Hex(stream)];
    var rest := files[1..];
    assert StreamDigests(written, hashes, files, sha1Hex) == StreamDigests(stream, next, rest, sha1Hex);
    DistinctInTail(files, i);
    StreamDigestAt(stream, next, rest, sha1Hex, i - 1);
    ConcatTake(files, i);
    Associative(written, files[0].contents, Concat(rest[..i]));
  }

  /** Output i keeps its distinct path when the head is dropped. */
  lemma DistinctInTail(files: seq<OutputFile>, i: nat)
    requires 0 < i < |files|
    requires forall j :: i < j < |files| ==> files[j].path != files[i].path
    ensures forall j :: i - 1 < j < |files[1..]| ==> files[1..][j].path != files[1..][i - 1].path
  {
    forall j | i - 1 < j < |files[1..]| ensures files[1..][j].path != files[1..][i - 1].path {
      assert files[1..][j] == files[j + 1];
    }
  }

  lemma Associative(a: string, b: string, c: string)
    ensures (a + b) + c == a + (b + c)
  {
  }

  /** No two different inputs share a digest (SHA-1 collisions taken as negligible). */
  ghost predicate CollisionFree(sha1Hex: string -> string) {
    forall a, b :: sha1Hex(a) == sha1Hex(b) ==> a == b
  }

  /** The shared hasher makes the ETag of unchanged content change: building the same
      non-empty file again after it was built once gives it a different digest. */
  lemma RebuiltContentGetsNewDigest(hashes: map<string, string>, f: OutputFile, sha1Hex: string -> string)
    requires f.contents != ""
    requires CollisionFree(sha1Hex)
    ensures var (written, first) := StreamDigests("", hashes, [f], sha1Hex);
            StreamDigests(written, first, [f], sha1Hex).1[f.path] != first[f.path]
  {
    assert "" + f.contents == f.contents;
    var first := hashes[f.path := sha1Hex(f.contents)];
    assert StreamDigests("", hashes, [f], sha1Hex) == StreamDigests(f.contents, first, [], sha1Hex) == (f.contents, first);
    var second := first[f.path := sha1Hex(f.contents + f.contents)];
    assert StreamDigests(f.contents, first, [f], sha1Hex) == StreamDigests(f.contents + f.contents, second, [], sha1Hex);
    assert |f.contents + f.contents| != |f.contents|;
  }

  class Esbuild {
    var source: string
    var target: string
    /** the last build result (a zero result, with no outputs, before the first build) */
    var esbuild: BuildResult
    /** everything written to the shared hasher since provisioning */
    var hasher: string
    var hashes: map<string, string>

    constructor (source: string, target: string)
      ensures this.source == source && this.target == target
      ensures esbuild == BuildResult([], [], [], "") && hasher == "" && hashes == map[]
    {
      this.source := source;
      this.target := target;
      esbuild := BuildResult([], [], [], "");
      hasher := "";
      hashes := map[];
    }

    /** Validate: a source is required first, then a target. */
    function Validate(): (err: Option<ConfigError>)
      reads this
      ensures err.None? <==> source != "" && target != ""
      ensures err == Some(NoSourceFile) <==> source == ""
      ensures err == Some(NoTargetFile) <==> source != "" && target == ""
    {
      if source == "" then Some(NoSourceFile)
      else if target == "" then Some(NoTargetFile)
      else None
    }

    /** onBuild: feed every output to the shared hasher and store the running digest under
        its path; the result is stored whether or not it has errors. */
    method OnBuild(result: BuildResult, sha1Hex: string -> string)
      modifies this
      ensures esbuild == result
      ensures (hasher, hashes) == StreamDigests(old(hasher), old(hashes), result.outputFiles, sha1Hex)
      ensures hasher == old(hasher) + Concat(result.outputFiles)
      ensures source == old(source) && target == old(target)
    {
      var files := result.outputFiles;
      var i := 0;
      while i < |files|
        invariant 0 <= i <= |files|
        invariant source == old(source) && target == old(target)
        invariant StreamDigests(hasher, hashes, files[i..], sha1Hex) == StreamDigests(old(hasher), old(hashes), files, sha1Hex)
      {
        assert files[i..][1..] == files[i + 1..];
        hasher := hasher + files[i].contents;
        hashes := hashes[files[i].path := sha1Hex(hasher)];
        i := i + 1;
      }
      esbuild := result;
    }

    /** Provision: a new hasher and an empty table, then the first build. */
    method Provision(bundle: (string, string) -> BuildResult, sha1Hex: string -> string)
      modifies this
      ensures esbuild == bundle(source, target)
      ensures (hasher, hashes) == StreamDigests("", map[], esbuild.outputFiles, sha1Hex)
      ensures source == old(source) && target == old(target)
    {
      hasher := "";
      hashes := map[];
      var result := bundle(source, target);
      OnBuild(result, sha1Hex);
    }

    /** ServeHTTP: only GET requests are served, from the first output whose path
        prefixes the request URI; a matching If-None-Match gives 304, otherwise 200 with
        the stored digest as ETag and the file as body. Everything else is delegated. */
    method ServeHTTP(r: Request, typeByExtension: string -> string) returns (reply: Reply)
      ensures r.verb != "GET" ==> reply == Delegate
      ensures r.verb == "GET" && FirstPrefixMatch(esbuild.outputFiles, r.requestURI).None? ==> reply == Delegate
      ensures r.verb == "GET" && FirstPrefixMatch(esbuild.outputFiles, r.requestURI).Some? ==>
                var f := esbuild.outputFiles[FirstPrefixMatch(esbuild.outputFiles, r.requestURI).value];
                var etag := Lookup(hashes, f.path);
                reply == if r.ifNoneMatch == etag then Respond(NotModified)
                         else Respond(Response(200, map["Etag" := etag, "Content-Type" := GuessContentType(f.path, typeByExtension)], f.contents))
    {
      if r.verb != "GET" {
        return Delegate;
      }
      var files := esbuild.outputFiles;
      var i := 0;
      while i < |files|
        invariant 0 <= i <= |files|
        invariant forall j :: 0 <= j < i ==> !HasPrefix(r.requestURI, files[j].path)
      {
        var f := files[i];
        if HasPrefix(r.requestURI, f.path) {
          FirstPrefixMatchAt(files, r.requestURI, i);
          var cachedETag := r.ifNoneMatch;
          if cachedETag == Lookup(hashes, f.path) {
            return Respond(NotModified);
          }
          var headers := map["Etag" := Lookup(hashes, f.path)];
          headers := headers["Content-Type" := GuessContentType(f.path, typeByExtension)];
          return Respond(Response(200, headers, f.contents));
        }
        i := i + 1;
      }
      return Delegate;
    }
  }
}
