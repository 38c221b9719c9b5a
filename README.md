# caddy-esbuild-plugin, modelled in Dafny

caddy-esbuild-plugin is a Caddy HTTP middleware that runs esbuild in watch mode and
serves the bundles from memory. It tags every output with a SHA-1 ETag and answers
conditional GETs. It also serves a `manifest.json` that maps entry points to (possibly
content-hashed) output paths, and pushes `data: reload` server-sent events to browsers
after each rebuild. An optional SCSS loader compiles stylesheets with libsass, and
handle_env.go computes a `process.env` JSON object from dotenv files and `REACT_APP_`
variables, which the build itself does not use.

This project models the decision procedures that sit between the foreign calls and
proves properties of them. The foreign parts are parameters of the model:

- the esbuild bundler and its rebuild callback;
- SHA-1 with hex encoding;
- JSON decoding and encoding;
- `mime.TypeByExtension`, `filepath.Abs` and `os.Stat` times;
- libsass's outcome on a file;
- `godotenv.Load`;
- whether the response writer can flush;
- whether the binary has sass support.

One module per source file:

| module | file | form |
|---|---|---|
| `Common` | shared helpers (`strings.HasPrefix`, `filepath.Ext`, `guessContentType`) | functions |
| `Api` | the esbuild API and HTTP values the plugin touches | datatypes |
| `Plugin` | esbuild.go: loader parsing, option derivation, the build bookkeeping of `class Esbuild` | mixed |
| `Legacy` | main.go, the older self-contained version with a shared hasher | mixed |
| `Assets` | handle_assets.go | function |
| `Manifest` | handle_manifest.go | method with a loop |
| `Caddyfile` | caddyfile.go | methods with loops, specified by functions |
| `Scss` | handle_scss.go | `class SassPlugin` owning the cache |
| `Env` | handle_env.go | method with a loop |
| `LiveReload` | handle_live_reload.go | `class Session` stepped per event |

Go strings and byte slices are both `string` here. One `char` stands for one byte.

A build result is boxed in `class BuildHandle`. Live-reload sessions compare those boxes
by reference, as the Go code compares `*api.BuildResult` pointers.

The live-reload `for`/`select` loop becomes a sequence of events, one per iteration.
`Session.Step` consumes one event and `Run` consumes a whole sequence. The timers that
decide which event an iteration sees are modelled separately, in discrete milliseconds.

A few behaviours of the code are easy to miss:

- main.go serves the first output whose path is a *prefix* of the request URI.
- The manifest ETag is the SHA-1 of esbuild's raw metafile string.
- Write errors on the live-reload stream are ignored and do not end the session.
- `onBuild` publishes a result that has errors. It replaces the result pointer and the
  digests, but it keeps the previous metafile.
- main.go's digests change for identical content, and the live-reload ping never fires.
  See Findings.

## Model

| member | source | states |
|---|---|---|
| Plugin.ParseLoader | esbuild.go:126-155 | no error iff the text is one of the 12 loader names, spelled exactly; then the loader is not `LoaderNone` and its name is the text; otherwise `LoaderNone` with `InvalidLoaderValue(text)` |
| Plugin.ParseLoaderInvertsName | esbuild.go:126-155 | every loader other than `LoaderNone` parses back from its own name without error, so the 12 names give 12 distinct loaders |
| Plugin.ParseLoaderIsCaseSensitive | esbuild.go:126-155 | case variants such as "JS" and "Css" are rejected |
| Plugin.ParseLoaders | esbuild.go:46-50 | the loader table has exactly the configured extensions; each maps to its parsed loader; an invalid name is stored as `LoaderNone`, its error dropped |
| Plugin.DeriveBuildOptions | esbuild.go:17-68 | entry names are "[name]-[hash]" iff file hashing is on; outdir is "/_build" for an empty target, else the target; public path equals outdir; timing plugin first; sass plugin iff scss is on and the plugin exists; shim injected iff live reload is on and the shim file was created; entry points, node paths and defines pass through |
| Plugin.RecordDigests | esbuild.go:96-101 | the digest table afterwards has the old paths plus every output path |
| Plugin.RecordDigestsOwnContents | esbuild.go:96-101 | each output path (its last occurrence) maps to the SHA-1 of that file's own contents |
| Plugin.RecordDigestsKeeps | esbuild.go:96-101 | a path absent from this build keeps its previous entry, or stays absent |
| Plugin.DigestIndependentOfHistory | esbuild.go:96-101 | an output's digest does not depend on the table it was recorded into, i.e. on earlier builds |
| Plugin.NextMetafile | esbuild.go:102-114 | the report is kept when the build has errors or the metafile does not decode; otherwise it becomes the decoded metafile |
| Plugin.Esbuild.OnBuild | esbuild.go:89-115 | the result pointer is a fresh box holding this result, errors or not; digests as `RecordDigests`; report as `NextMetafile` |
| Plugin.Esbuild.Rebuild | esbuild.go:117-124 | before any build nothing changes; otherwise the incremental rebuild of the current result is published as by `OnBuild` |
| Plugin.Esbuild.InitEsbuild | esbuild.go:17-87 | the options are derived as in `DeriveBuildOptions`, and the first build made with them is published |
| Common.GuessContentType | handle_assets.go:32-41 | never ""; the type registered for the path's extension when there is one, else "application/javascript" (main.go:123-132 is the same function) |
| Legacy.Esbuild.Validate | main.go:87-95 | no error iff source and target are both set; a missing source is reported first |
| Legacy.FirstPrefixMatch | main.go:103-104 | the index of the first output, in result order, whose path is a prefix of the request URI; none when no path is |
| Legacy.FirstPrefixMatchAt | main.go:103-104 | an output whose path prefixes the URI, with none before it, is the one served |
| Legacy.StreamDigests | main.go:67-72 | the hasher's input grows by every output's contents in order; every output path gets an entry; old entries stay; new keys are output paths |
| Legacy.StreamDigestsKeeps | main.go:67-72 | a path not in this build keeps its previous digest |
| Legacy.StreamDigestAt | main.go:67-72 | output i's digest is the SHA-1 of everything written since `Provision` up to and including output i, not of output i alone |
| Legacy.StreamDigestAtLater | main.go:67-72 | for an output after the first, the digest covers everything written before this build plus this build's outputs up to it |
| Legacy.RebuiltContentGetsNewDigest | main.go:43-71 | rebuilding the same non-empty file gives it a different digest, assuming SHA-1 has no collisions |
| Legacy.Esbuild.OnBuild | main.go:67-84 | the result is stored even with errors; hasher and digest table advance as `StreamDigests`; source and target unchanged |
| Legacy.Esbuild.Provision | main.go:41-65 | a fresh hasher and empty table, then the first build's result and digests; source and target unchanged |
| Legacy.Esbuild.ServeHTTP | main.go:97-121 | non-GET and unmatched requests are delegated; for the first prefix match, a matching If-None-Match gives a bare 304, else 200 with the stored digest as ETag, the guessed content type and the contents |
| Assets.HandleAsset | handle_assets.go:12-30 | 304 iff If-None-Match equals the stored digest (absent reads as ""), with no headers or body; otherwise 200 with that ETag, the guessed content type, the contents, and Cache-Control "public,max-age=31536000" iff file hashing is on |
| Assets.RevalidationIsNotModified | handle_assets.go:12-30 | a client that sends back the ETag it received gets 304 |
| Assets.MissingDigestWithoutTagIsNotModified | handle_assets.go:13-17 | with no digest for the path and no If-None-Match, the answer is 304 with no body |
| Assets.ServedTagIsContentDigest | handle_assets.go:12-30 | after a build is recorded, the ETag served for an output is the SHA-1 of its own contents, and a client holding that digest gets 304 |
| Manifest.BuildManifest | handle_manifest.go:64-75 | every key is an output's entry point, or its absolute path when it has none; every output's key is present; every value is the absolute path of an output whose key it is; no more keys than outputs |
| Manifest.UnsharedKeyResolves | handle_manifest.go:66-75 | an output whose key no output with a different absolute path shares resolves to its own absolute path |
| Manifest.OutputWithoutEntryPointMapsToItself | handle_manifest.go:67-74 | an output without an entry point maps its absolute path to itself |
| Manifest.ManifestValuesAreOutputs | handle_manifest.go:66-75 | every manifest value is the absolute path of some output |
| Manifest.ManifestUniqueWhenKeysDistinct | handle_manifest.go:66-75 | when outputs have distinct keys, the manifest is uniquely determined and iteration order does not matter |
| Manifest.HandleManifest | handle_manifest.go:37-91 | before any build: 200, application/json, "{}"; an If-None-Match equal to the SHA-1 of the raw metafile gives 304 with nothing decoded; otherwise ETag and content type are set, a metafile that does not decode gives 500, and a decoded one gives 200 with the encoded manifest |
| Caddyfile.NormalizeTarget | caddyfile.go:79-85 | the result is empty or starts with "/"; it is the rooted target with exactly one trailing "/" removed when the rooted target ends in "/", and the rooted target itself otherwise; it can end in "/" only if the target ended in "//" |
| Caddyfile.NormalizeTargetExamples | caddyfile.go:79-85 | "build/" gives "/build", "/_build" is kept, "/" gives "", "a//" gives "/a/" and that gives "/a" |
| Caddyfile.NormalizeTargetIdempotent | caddyfile.go:79-85 | normalising twice equals normalising once for a target not ending in "//" |
| Caddyfile.ApplyArg | caddyfile.go:40-53 | an inline argument fails iff it is "sass" without sass support; "live_reload", "sass" and "env" set their flags; any other word is appended to the sources |
| Caddyfile.ApplyDirective | caddyfile.go:57-88 | the effect of each block directive: source and target need an argument; target is normalised and replaces the previous one; sass fails without support; unknown directives change nothing |
| Caddyfile.RewriteTarget | caddyfile.go:79-85 | the in-place rewrite of the target argument computes `NormalizeTarget` |
| Caddyfile.HandleDirective | caddyfile.go:57-88 | one iteration of the block loop, proved equal to its specification `DirectiveStep` |
| Caddyfile.ParseInlineArgs | caddyfile.go:33-54 | the inline loop from the defaults computes `InlinePhase`: the flags, the sources, or the sass error |
| Caddyfile.ParseBlock | caddyfile.go:56-89 | the block loop, one directive per iteration, computes `DirectiveAt` from the first directive at depth 1; what that gives is stated by `DirectiveAtApplies` and the `ApplyDirectives` lemmas |
| Caddyfile.DirectiveAtApplies | caddyfile.go:56-89 | the block loop from any directive is the directives it visits (`Directives`, a function of the tokens alone) applied in turn |
| Caddyfile.BlockPhaseApplies | caddyfile.go:56-89 | the same from the token before the next directive, where NextBlock tracks the brace depth |
| Caddyfile.ApplyDirectivesFails | caddyfile.go:60-77 | applying directives fails iff one of them fails on its own: "source" or "target" without an argument, or "sass" without support |
| Caddyfile.ApplyDirectivesSources | caddyfile.go:67-73 | otherwise the sources gain the "source" arguments, in order |
| Caddyfile.ApplyDirectivesFlags | caddyfile.go:58-66 | otherwise each flag is its old value or the presence of its directive |
| Caddyfile.ApplyDirectivesKeepTarget | caddyfile.go:74-87 | otherwise, with no "target" directive, the target is unchanged |
| Caddyfile.ApplyDirectivesTarget | caddyfile.go:74-87 | otherwise the target is the normalised argument of the last "target" directive, which has one |
| Caddyfile.InlinePhaseEnd | caddyfile.go:39-54 | a successful inline loop stops at the last argument on the directive's line |
| Caddyfile.ParseIsInlineThenBlock | caddyfile.go:27-92 | a parse is the inline phase followed by the block's directives, applied in turn |
| Caddyfile.ParseFails | caddyfile.go:29-89 | parsing fails iff there is no token, or "sass" is an inline argument without support, or a block directive fails |
| Caddyfile.ParseSources | caddyfile.go:39-89 | the sources are the inline sources followed by the block's "source" arguments, in token order |
| Caddyfile.ParseFlags | caddyfile.go:39-89 | each flag is on iff its inline keyword or its block directive occurs |
| Caddyfile.ParseTarget | caddyfile.go:35-87 | the target is the normalised argument of the block's last "target" directive, or "/_build" without one |
| Caddyfile.ParseCaddyfileEsbuild | caddyfile.go:27-92 | both loops together compute `Parse`: no token is an argument error, defaults are target "/_build" with all flags off, then the inline arguments, then the block |
| Caddyfile.InlinePhaseFails | caddyfile.go:39-54 | the inline phase fails iff "sass" is among the arguments and sass is not supported |
| Caddyfile.InlinePhaseSources | caddyfile.go:39-54 | the inline phase appends exactly the non-keyword arguments, in order |
| Caddyfile.InlinePhaseFlags | caddyfile.go:39-54 | each flag after the inline phase is its old value or the presence of its keyword; the target is unchanged |
| Caddyfile.DirectiveKeepsSources | caddyfile.go:56-89 | block directives only append to the sources |
| Caddyfile.BlockPhaseKeepsSources | caddyfile.go:56-89 | block tokens between directives only append to the sources |
| Caddyfile.ParseSourcesStartInline | caddyfile.go:39-89 | inline sources come first, before any block source |
| Caddyfile.ParseDefaults | caddyfile.go:29-37 | no token gives an argument error; a bare `esbuild` gives the defaults |
| Caddyfile.ParseExample | caddyfile.go:27-92 | `esbuild a.js live_reload {` followed by `source b.js`, `target x/`, `target /y/` and `}` gives sources [a.js, b.js], target "/y" and auto reload on: inline sources first, and the last target wins |
| Caddyfile.SourceOnItsOwnLineFails | caddyfile.go:67-70 | a `source` whose file name is on the next line is missing its argument |
| Scss.LatestMtime | handle_scss.go:92-102 | at least every file's time; the zero time for no files; attained by some file otherwise |
| Scss.GetLatestMtime | handle_scss.go:92-102 | the running maximum computes `LatestMtime` |
| Scss.LatestMtimeOnlyReadsSources | handle_scss.go:92-102 | the latest time depends only on the listed files' times |
| Scss.Stored | handle_scss.go:74-81 | the stored sources are the imports then the file itself, with the compiled CSS, and the stored time is the latest among the sources (`LatestMtime`), attained by one of them |
| Scss.StoredEntryHits | handle_scss.go:39-81 | a freshly stored entry answers the next load while none of its sources changes |
| Scss.EditedSourceMisses | handle_scss.go:39-47 | a source newer than the stored time makes the entry miss |
| Scss.SassPlugin.constructor | handle_scss.go:30 | the cache starts empty |
| Scss.SassPlugin.OnLoad | handle_scss.go:33-87 | an open failure is an error even when the cache would hit; a hit returns the cached CSS; each libsass failure gives its own error and leaves the cache alone; a compile returns the CSS and replaces only this path's entry with imports plus the path, their latest time and the CSS; every success uses the CSS loader |
| Scss.FilterAsWrittenTakesOtherFiles | handle_scss.go:32 | the filter as written accepts "app.scss.js" and "mysass" |
| Scss.FilterIsStyleExtension | handle_scss.go:32 | the corrected filter accepts a path iff its extension is ".scss" or ".sass" |
| Scss.FilterWithinAsWritten | handle_scss.go:32 | everything the corrected filter accepts, the written one accepts too |
| Env.Key | handle_env.go:28-29 | the key is the text before the entry's first "=", or the whole entry when it has no "=" |
| Env.Value | handle_env.go:28-30 | the key, "=" and the value reassemble the pair, so a value may contain "=" |
| Env.Getenv | handle_env.go:23 | a non-empty value comes from a well-formed entry with that key |
| Env.GetenvFindsFirst | handle_env.go:13-23 | the value returned is that of the first well-formed entry for the key |
| Env.FirstEntryExists | handle_env.go:13-23 | a key with some well-formed entry has a first one |
| Env.GetenvWithoutEntry | handle_env.go:13-23 | a key with no well-formed entry reads as "" |
| Env.DotenvFiles | handle_env.go:13-21 | four files in order: `.env.<env>.local`, `.env.local`, `.env.<env>`, `.env`, where `<env>` defaults to "development" |
| Env.DotenvFilesDefault | handle_env.go:13-21 | the concrete lists for an unset NODE_ENV and for "production" |
| Env.FilterPairs | handle_env.go:27-32 | fails iff some REACT_APP_ entry has no "="; otherwise every REACT_APP_ key is present, only REACT_APP_ keys are added, and other keys keep their values |
| Env.FilterPairsValueAt | handle_env.go:27-32 | the last REACT_APP_ entry for a key gives that key's value |
| Env.FilterPairsKeeps | handle_env.go:27-32 | a key no later entry exposes keeps its value |
| Env.CollectReactApp | handle_env.go:27-32 | the loop over the environment computes `FilterPairs`: the panic on a malformed REACT_APP_ entry, or the map with every REACT_APP_ entry stored |
| Env.LoadDotenv | handle_env.go:13-21 | the four loads in order, errors ignored except the last; reports whether loading ".env" failed |
| Env.HandleEnv | handle_env.go:11-36 | the loop computes `ProcessEnv` on the environment the four loads leave |
| Env.NodeEnvAlwaysDefined | handle_env.go:23 | NODE_ENV is always a key, with the environment's actual value, possibly "" |
| Env.OnlyExposedKeys | handle_env.go:23-32 | every key is NODE_ENV or starts with REACT_APP_ |
| Env.LoadFailureDefinesOnlyNodeEnv | handle_env.go:24-25 | when loading ".env" fails, NODE_ENV is the only key |
| Env.ReactAppVariablesDefined | handle_env.go:27-32 | every REACT_APP_ entry of the environment is defined with its value after the first "=" |
| Env.ProcessEnvExample | handle_env.go:23-32 | PATH=/bin and REACT_APP_URL=a=b give NODE_ENV "" and REACT_APP_URL "a=b" |
| Env.MalformedEntryPanics | handle_env.go:28-30 | a REACT_APP_ entry without "=" is the out-of-range index |
| LiveReload.Next | handle_live_reload.go:30-51 | a cancellation ends the session and writes nothing; a ping writes "data: p" and keeps last-seen; a compare tick writes "data: reload" iff the current build differs from last-seen, then adopts the build; a closed session ignores everything |
| LiveReload.Session.constructor | handle_live_reload.go:26 | last-seen is the build at connection time, and nothing is written yet |
| LiveReload.Session.Step | handle_live_reload.go:33-50 | one iteration moves the session as `Next` |
| LiveReload.HandleLiveReload | handle_live_reload.go:13-52 | SSE headers are always set; without a flusher nothing is written; otherwise the stream is `Run` from the build at connection time |
| LiveReload.ClosedSessionIgnoresEvents | handle_live_reload.go:34-39 | after a cancellation no event changes anything |
| LiveReload.WrittenOnlyGrows | handle_live_reload.go:30-51 | the stream is only ever appended to |
| LiveReload.OneReloadPerChange | handle_live_reload.go:40-46 | any number of compare ticks against one build writes one reload if it is new, none otherwise |
| LiveReload.PingOnlyFromPingTick | handle_live_reload.go:47-49 | without a ping timeout no ping is written |
| LiveReload.PingTickWritesPing | handle_live_reload.go:47-49 | an open session that sees a ping timeout writes a ping |
| LiveReload.PingNeverFiresAsWritten | handle_live_reload.go:31-32 | with both timers recreated each iteration and the compare delay no longer than the ping delay, the ping timer never fires |
| LiveReload.IdleStreamNeverPingsAsWritten | handle_live_reload.go:30-51 | hence an idle stream with the 20 ms and 10 s delays never carries a ping |
| LiveReload.PingFiresByDeadline | handle_live_reload.go:31-32 | with the ping deadline kept across iterations, the ping fires once enough compare ticks have elapsed |
| LiveReload.PingFiresWithin500 | handle_live_reload.go:31-32 | with the real delays the ping fires within 500 idle iterations |
| LiveReload.IdleStreamPings | handle_live_reload.go:30-51 | and then an idle stream carries a ping |

## Left out

- Plugin.Esbuild.InitEsbuild: the fixed build options are not modelled. These are linked source maps, metafile on, no write, bundling, JSX transform, incremental and watch mode.
- Plugin.Esbuild.InitEsbuild: the `handleEnv()` call at esbuild.go:41-43 is left out, because its result is discarded. `Env` models handleEnv itself.
- Plugin.Esbuild.InitEsbuild: the start time and timing log are left out.
- Plugin.Esbuild.InitEsbuild: creating the live-reload shim file is temp-file I/O. Its outcome is a `Result` parameter.
- Plugin.Esbuild.OnBuild: logging and the build-duration argument are left out.
- Plugin.Esbuild.OnBuild: the fields are updated together. Concurrent readers between the field updates are not modelled.
- Legacy.RebuiltContentGetsNewDigest: SHA-1 is taken to be collision free, a premise of the lemma.
- Manifest.HandleManifest: when two outputs share a key, Go's map order decides which one wins. The contract only says some manifest with the stated properties is encoded.
- Manifest.HandleManifest: the `json.Marshal` and `w.Write` failure branches (handle_manifest.go:77-87) are not modelled. Encoding is a total parameter.
- Manifest.HandleManifest: the order of writer calls is not modelled.
- Caddyfile.ParseCaddyfileEsbuild: Caddy's dispenser is reduced to tokens with line numbers. An argument must be on the same line, and a block opens with "{" on the directive's line. Tokens inside a nested block are visited and dispatched like the others, as NextBlock returns them; a brace changes the depth by its text alone. Quoting, environment placeholders and imports are not modelled.
- Caddyfile.ParseCaddyfileEsbuild: the debug `fmt.Print` is left out.
- Caddyfile.ParseCaddyfileEsbuild: this version names its fields `AutoReload`/`Sass`, while esbuild.go reads `LiveReload`/`Scss`. The model keeps caddyfile.go's names.
- Scss.SassPlugin.OnLoad: the `go m.watchFiles(files)` goroutine is not modelled.
- Scss.SassPlugin.OnLoad: the include-path search (working directory, `node_modules` glob) is not modelled.
- Scss.SassPlugin.OnLoad: the SCSS syntax option is not modelled. ".sass" files are compiled as SCSS too.
- Scss.SassPlugin.OnLoad: esbuild applies the filter before calling OnLoad, so OnLoad itself does not check it. The filter is modelled separately.
- Scss.GetLatestMtime: an `os.Stat` failure leaves a nil FileInfo that Go would dereference. The model takes modification times as a total function.
- Env.HandleEnv: the JSON encoding of `process` and the error log are left out. The result is the map before encoding.
- Env.HandleEnv: `godotenv.Load` is a parameter from file name and environment to the new environment, or a failure.
- LiveReload.HandleLiveReload: real timers, `Flush`, signal registration and logging become the event sequence.
- LiveReload.HandleLiveReload: write errors are ignored, as in the source. The `CompareTick` event carries both the pointer compared and the pointer re-read at line 45.
- LiveReload.PingFiresByDeadline: time is discrete milliseconds.
- LiveReload.IdleTimersAsWritten: when both timers are due at the same instant, Go's `select` picks one at random. The model picks the compare timer. With 20 ms and 10 s, timers created together never tie.
- LiveReload.IdleTimers: when the kept ping deadline and the compare timer are due at the same instant, Go's `select` picks one at random. The model picks the ping. `PingFiresWithin500` relies on that choice: at iteration 500 both are due at 10 s, and with the compare timer chosen the ping fires at iteration 501.
- util.go (`watchFiles`, `isChanClosed`) is goroutine, fsnotify and `unsafe` channel plumbing. It is not part of this model.
- sass.go and handle_sass.go are older libsass variants without the cache. They are not part of this model.
- plugin_timing.go measures wall-clock time and is not part of this model.
- handle_scss_unavailable.go is not part of this model. Sass support is a boolean parameter.

## Findings

| source | as written | input that shows it | evidently intended | confidence | as-written member | corrected member |
|---|---|---|---|---|---|---|
| main.go:43-71 | one SHA-1 hasher is created in `Provision` and written on every build without reset, so each ETag hashes everything built so far | the same file with non-empty contents built twice | the ETag is the digest of that file's contents (as esbuild.go:98-100 later does) | high, not executed | Legacy.RebuiltContentGetsNewDigest | Plugin.DigestIndependentOfHistory |
| handle_live_reload.go:31-32 | both timeouts are created anew in every loop iteration, and the 20 ms one always fires first | an idle connection with no rebuild: 500 iterations (10 s) write no ping | a keep-alive "data: p" about every 10 s | high, not executed | LiveReload.IdleStreamNeverPingsAsWritten | LiveReload.IdleStreamPings |
| handle_scss.go:32 | the filter `\.scss\|sass$` means "contains .scss" or "ends with sass" | "app.scss.js" and "mysass" are handed to libsass | `\.(scss\|sass)$`: files with a .scss or .sass extension | medium, not executed | Scss.FilterAsWrittenTakesOtherFiles | Scss.FilterIsStyleExtension |
