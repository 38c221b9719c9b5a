/** The build coordinator of the current plugin version: loader-name parsing, the
    build options derived from the configuration, and the bookkeeping one build result
    performs on the plugin's state (result pointer, per-path digests, parsed report).
    esbuild itself, SHA-1 and JSON decoding are parameters. */
module Plugin {
  import opened Common
  import opened Api

  datatype LoaderError = InvalidLoaderValue(text: string)

  /** The loader names accepted in the configuration, exactly as spelled there. */
  const LoaderNames: set<string> :=
    {"js", "jsx", "ts", "tsx", "css", "json", "text", "base64", "dataurl", "file", "binary", "default"}

  /** The configuration spelling of each loader; LoaderNone has none. */
  function LoaderName(l: Loader): string {
    match l
    case LoaderNone => ""
    case LoaderJS => "js"
    case LoaderJSX => "jsx"
    case LoaderTS => "ts"
    case LoaderTSX => "tsx"
    case LoaderCSS => "css"
    case LoaderJSON => "json"
    case LoaderText => "text"
    case LoaderBase64 => "base64"
    case LoaderDataURL => "dataurl"
    case LoaderFile => "file"
    case LoaderBinary => "binary"
    case LoaderDefault => "default"
  }

  /** Parses a loader name. Matching is exact (no case folding); anything else yields
      LoaderNone together with an error. */
  function ParseLoader(text: string): (r: (Loader, Option<LoaderError>))
    ensures r.1.None? <==> text in LoaderNames
    ensures r.1.None? ==> r.0 != LoaderNone && LoaderName(r.0) == text
    ensures r.1.Some? ==> r.0 == LoaderNone && r.1.value == InvalidLoaderValue(text)
  {
    match text
    case "js" => (LoaderJS, None)
    case "jsx" => (LoaderJSX, None)
    case "ts" => (LoaderTS, None)
    case "tsx" => (LoaderTSX, None)
    case "css" => (LoaderCSS, None)
    case "json" => (LoaderJSON, None)
    case "text" => (LoaderText, None)
    case "base64" => (LoaderBase64, None)
    case "dataurl" => (LoaderDataURL, None)
    case "file" => (LoaderFile, None)
    case "binary" => (LoaderBinary, None)
    case "default" => (LoaderDefault, None)
    case _ => (LoaderNone, Some(InvalidLoaderValue(text)))
  }

  /** Every real loader is recovered from its own name: ParseLoader inverts LoaderName. */
  lemma ParseLoaderInvertsName(l: Loader)
    requires l != LoaderNone
    ensures ParseLoader(LoaderName(l)) == (l, None)
  {
  }

  /** Names differing only in case are rejected. */
  lemma ParseLoaderIsCaseSensitive()
    ensures ParseLoader("JS") == (LoaderNone, Some(InvalidLoaderValue("JS")))
    ensures ParseLoader("Css").1.Some?
  {
  }

  /** The plugins handed to esbuild. */
  datatype EsbuildPlugin = TimingPlugin | SassPlugin

  /** The plugin's configuration, as decoded from JSON or a Caddyfile. */
  datatype Config = Config(
    sources: seq<EntryPoint>,
    target: string,
    fileHash: bool,
    liveReload: bool,
    scss: bool,
    env: bool,
    loader: map<string, string>,
    defines: map<string, string>,
    nodePaths: seq<string>)

  /** The api.BuildOptions fields that depend on the configuration. The others are
      fixed: linked source maps, a metafile, no writing to disk, bundling, JSX
      transform, incremental and watch mode. */
  datatype BuildOptions = BuildOptions(
    entryPoints: seq<EntryPoint>,
    nodePaths: seq<string>,
    outdir: string,
    entryNames: string,
    publicPath: string,
    define: map<string, string>,
    inject: seq<string>,
    plugins: seq<EsbuildPlugin>,
    loader: map<string, Loader>)

  const DefaultOutdir := "/_build"

  /** What the options derived from `config` must be, given whether the sass plugin
      could be created and what creating the live-reload shim file gave. */
  ghost predicate IsDerivedFrom(opts: BuildOptions, config: Config, sassPluginAvailable: bool, shim: Result<string, string>) {
    // entry points, node paths and defines are passed through
    && opts.entryPoints == config.sources
    && opts.nodePaths == config.nodePaths
    && opts.define == config.defines
    // output file names carry the content hash iff file hashing is on
    && opts.entryNames == (if config.fileHash then "[name]-[hash]" else "[name]")
    // the output directory defaults when no target is configured, and is the public path
    && opts.outdir == (if config.target == "" then DefaultOutdir else config.target)
    && opts.outdir != ""
    && opts.publicPath == opts.outdir
    // the timing plugin always comes first; the sass plugin only when wanted and available
    && |opts.plugins| >= 1 && opts.plugins[0] == TimingPlugin
    && (SassPlugin in opts.plugins <==> config.scss && sassPluginAvailable)
    && opts.plugins[1..] == (if config.scss && sassPluginAvailable then [SassPlugin] else [])
    // the shim is injected only when live reload is on and its file was created
    && opts.inject == (if config.liveReload && shim.Ok? then [shim.value] else [])
    // one loader per configured extension; an invalid name is kept as LoaderNone
    && opts.loader.Keys == config.loader.Keys
    && (forall ext :: ext in config.loader ==> opts.loader[ext] == ParseLoader(config.loader[ext]).0)
  }

  /** The loader table: every configured extension, its name parsed, the parse error
      discarded. */
  method ParseLoaders(names: map<string, string>) returns (loaders: map<string, Loader>)
    ensures loaders.Keys == names.Keys
    ensures forall ext :: ext in names ==> loaders[ext] == ParseLoader(names[ext]).0
    ensures forall ext :: ext in names && names[ext] !in LoaderNames ==> loaders[ext] == LoaderNone
  {
    loaders := map[];
    var todo := names.Keys;
    while todo != {}
      invariant todo <= names.Keys
      invariant loaders.Keys == names.Keys - todo
      invariant forall ext :: ext in loaders ==> loaders[ext] == ParseLoader(names[ext]).0
      decreases todo
    {
      var ext :| ext in todo;
      var (l, _) := ParseLoader(names[ext]);
      loaders := loaders[ext := l];
      todo := todo - {ext};
    }
  }

  /** The option-building part of initEsbuild. */
  method DeriveBuildOptions(config: Config, sassPluginAvailable: bool, shim: Result<string, string>) returns (opts: BuildOptions)
    ensures IsDerivedFrom(opts, config, sassPluginAvailable, shim)
  {
    var inject: seq<string> := [];
    var plugins := [TimingPlugin];
    if config.liveReload {
      if shim.Ok? {
        inject := inject + [shim.value];
      }
    }
    if config.scss {
      if sassPluginAvailable {
        plugins := plugins + [SassPlugin];
      }
    }
    var loader := ParseLoaders(config.loader);
    var entryName := "[name]";
    if config.fileHash {
      entryName := "[name]-[hash]";
    }
    var outdir := config.target;
    if outdir == "" {
      outdir := DefaultOutdir;
    }
    opts := BuildOptions(config.sources, config.nodePaths, outdir, entryName, outdir,
                         config.defines, inject, plugins, loader);
  }

  /** The paths of a build's output files. */
  function PathsOf(files: seq<OutputFile>): set<string> {
    set f | f in files :: f.path
  }

  /** The digest table after one build: each output file, in order, stores the digest of
      its own contents under its path; entries for other paths are kept. */
  function RecordDigests(hashes: map<string, string>, files: seq<OutputFile>, sha1Hex: string -> string): (r: map<string, string>)
    ensures r.Keys == hashes.Keys + PathsOf(files)
    decreases |files|
  {
    if files == [] then hashes
    else
      assert PathsOf(files) == {files[0].path} + PathsOf(files[1..]);
      RecordDigests(hashes[files[0].path := sha1Hex(files[0].contents)], files[1..], sha1Hex)
  }

  /** A path that no output of the build has keeps its previous digest. */
  lemma {:induction false} RecordDigestsKeeps(hashes: map<string, string>, files: seq<OutputFile>, sha1Hex: string -> string, p: string)
    requires forall f :: f in files ==> f.path != p
    ensures p in RecordDigests(hashes, files, sha1Hex) <==> p in hashes
    ensures p in hashes ==> RecordDigests(hashes, files, sha1Hex)[p] == hashes[p]
    decreases |files|
  {
    if files != [] {
      RecordDigestsKeeps(hashes[files[0].path := sha1Hex(files[0].contents)], files[1..], sha1Hex, p);
    }
  }

  /** An output's path maps to the digest of that file's own contents (the last output
      of the build with that path wins). */
  lemma {:induction false} RecordDigestsOwnContents(hashes: map<string, string>, files: seq<OutputFile>, sha1Hex: string -> string, i: nat)
    requires i < |files|
    requires forall j :: i < j < |files| ==> files[j].path != files[i].path
    ensures files[i].path in RecordDigests(hashes, files, sha1Hex)
    ensures RecordDigests(hashes, files, sha1Hex)[files[i].path] == sha1Hex(files[i].contents)
    decreases |files|
  {
    var next := hashes[files[0].path := sha1Hex(files[0].contents)];
    var rest := files[1..];
    assert RecordDigests(hashes, files, sha1Hex) == RecordDigests(next, rest, sha1Hex);
    if i == 0 {
      forall f | f in rest ensures f.path != files[0].path {
        var j :| 0 <= j < |rest| && rest[j] == f;
        assert files[j + 1] == f;
      }
      RecordDigestsKeeps(next, rest, sha1Hex, files[0].path);
    } else {
      assert rest[i - 1] == files[i];
      forall j | i - 1 < j < |rest| ensures rest[j].path != rest[i - 1].path {
        assert rest[j] == files[j + 1];
      }
      RecordDigestsOwnContents(next, rest, sha1Hex, i - 1);
    }
  }

  /** Digests depend on content only: whatever the earlier history of the table, a
      rebuilt output gets the same digest when its contents are the same. */
  lemma DigestIndependentOfHistory(h1: map<string, string>, h2: map<string, string>, files: seq<OutputFile>, sha1Hex: string -> string, i: nat)
    requires i < |files|
    requires forall j :: i < j < |files| ==> files[j].path != files[i].path
    ensures RecordDigests(h1, files, sha1Hex)[files[i].path] == RecordDigests(h2, files, sha1Hex)[files[i].path]
  {
    RecordDigestsOwnContents(h1, files, sha1Hex, i);
    RecordDigestsOwnContents(h2, files, sha1Hex, i);
  }

  /** The parsed build report after one build: replaced only when the build has no
      errors and its report decodes; otherwise the previous one stays. */
  function NextMetafile(current: Option<Metafile>, result: BuildResult, decodeMetafile: string -> Option<Metafile>): (next: Option<Metafile>)
    ensures |result.errors| > 0 ==> next == current
    ensures decodeMetafile(result.metafile).None? ==> next == current
    ensures |result.errors| == 0 && decodeMetafile(result.metafile).Some? ==> next == decodeMetafile(result.metafile)
  {
    if |result.errors| > 0 then current
    else
      match decodeMetafile(result.metafile)
      case None => current
      case Some(mf) => Some(mf)
  }

  /** A boxed build result. The plugin stores a pointer to each result, and live-reload
      sessions compare these pointers to notice a new build. */
  class BuildHandle {
    const result: BuildResult

    constructor (result: BuildResult)
      ensures this.result == result
    {
      this.result := result;
    }
  }

  /** The plugin instance: its configuration and the state builds update in place. */
  class Esbuild {
    const config: Config
    /** the latest build result, null before the first build */
    var esbuild: BuildHandle?
    /** hex SHA-1 digest per output path, used as ETag */
    var hashes: map<string, string>
    /** the latest successfully decoded build report */
    var metafile: Option<Metafile>

    constructor (config: Config)
      ensures this.config == config
      ensures esbuild == null && hashes == map[] && metafile == None
    {
      this.config := config;
      esbuild := null;
      hashes := map[];
      metafile := None;
    }

    /** The state after publishing `result` on top of the given previous table and report. */
    ghost predicate Published(result: BuildResult, prevHashes: map<string, string>, prevMetafile: Option<Metafile>,
                              sha1Hex: string -> string, decodeMetafile: string -> Option<Metafile>)
      reads this
    {
      && esbuild != null && esbuild.result == result
      && hashes == RecordDigests(prevHashes, result.outputFiles, sha1Hex)
      && metafile == NextMetafile(prevMetafile, result, decodeMetafile)
    }

    /** onBuild: always points at a fresh copy of the result, errors or not; records the
        digest of every output; replaces the report only after an error-free build whose
        report decodes. */
    method OnBuild(result: BuildResult, sha1Hex: string -> string, decodeMetafile: string -> Option<Metafile>)
      modifies this
      ensures fresh(esbuild)
      ensures Published(result, old(hashes), old(metafile), sha1Hex, decodeMetafile)
    {
      esbuild := new BuildHandle(result);
      var files := result.outputFiles;
      var i := 0;
      while i < |files|
        invariant 0 <= i <= |files|
        invariant fresh(esbuild) && esbuild.result == result && metafile == old(metafile)
        invariant RecordDigests(hashes, files[i..], sha1Hex) == RecordDigests(old(hashes), files, sha1Hex)
      {
        assert files[i..][1..] == files[i + 1..];
        hashes := hashes[files[i].path := sha1Hex(files[i].contents)];
        i := i + 1;
      }
      if |result.errors| > 0 {
        return;
      }
      var decoded := decodeMetafile(esbuild.result.metafile);
      if decoded.Some? {
        metafile := Some(decoded.value);
      }
    }

    /** Rebuild: nothing happens before a first build exists; otherwise the incremental
        rebuild of the current result is published like any build. */
    method Rebuild(rebuild: BuildResult -> BuildResult, sha1Hex: string -> string, decodeMetafile: string -> Option<Metafile>)
      modifies this
      ensures old(esbuild) == null ==> esbuild == null && hashes == old(hashes) && metafile == old(metafile)
      ensures old(esbuild) != null ==> fresh(esbuild)
      ensures old(esbuild) != null ==> Published(rebuild(old(esbuild).result), old(hashes), old(metafile), sha1Hex, decodeMetafile)
    {
      if esbuild != null {
        var result := rebuild(esbuild.result);
        OnBuild(result, sha1Hex, decodeMetafile);
      }
    }

    /** initEsbuild: derive the options, run the first build with them, publish it. */
    method InitEsbuild(sassPluginAvailable: bool, shim: Result<string, string>, bundle: BuildOptions -> BuildResult,
                       sha1Hex: string -> string, decodeMetafile: string -> Option<Metafile>)
      returns (opts: BuildOptions)
      modifies this
      ensures IsDerivedFrom(opts, config, sassPluginAvailable, shim)
      ensures fresh(esbuild)
      ensures Published(bundle(opts), old(hashes), old(metafile), sha1Hex, decodeMetafile)
    {
      opts := DeriveBuildOptions(config, sassPluginAvailable, shim);
      var result := bundle(opts);
      OnBuild(result, sha1Hex, decodeMetafile);
    }
  }
}
