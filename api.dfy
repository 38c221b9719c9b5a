/** The values the plugin exchanges with esbuild and with net/http: build results,
    output files, the build report ("metafile") and requests/responses. Only the
    fields the plugin reads are kept. */
module Api {

  /** esbuild's api.Loader, restricted to the kinds the plugin can name. */
  datatype Loader =
    | LoaderNone
    | LoaderJS
    | LoaderJSX
    | LoaderTS
    | LoaderTSX
    | LoaderCSS
    | LoaderJSON
    | LoaderText
    | LoaderBase64
    | LoaderDataURL
    | LoaderFile
    | LoaderBinary
    | LoaderDefault

  /** api.EntryPoint: an input file and the output name it is bundled under. */
  datatype EntryPoint = EntryPoint(inputPath: string, outputPath: string)

  /** api.Message: one compile diagnostic. */
  datatype Message = Message(text: string)

  /** api.OutputFile: one bundled file, kept in memory (the build runs with Write: false). */
  datatype OutputFile = OutputFile(path: string, contents: string)

  /** api.BuildResult: diagnostics, output files in the order esbuild reports them,
      and the build report as raw JSON text. */
  datatype BuildResult = BuildResult(
    errors: seq<Message>,
    warnings: seq<Message>,
    outputFiles: seq<OutputFile>,
    metafile: string)

  /** The decoded build report; only the output table is read by the plugin. */
  datatype ImportFile = ImportFile(path: string, kind: string)
  datatype Import = Import(bytes: int, imports: seq<ImportFile>)
  datatype Input = Input(bytesInOutput: int)
  datatype Output = Output(entryPoint: string, inputs: map<string, Input>, bytes: int)
  datatype Metafile = Metafile(inputs: map<string, Import>, outputs: map<string, Output>)

  /** The parts of an http.Request the handlers read. `ifNoneMatch` is what
      r.Header.Get("If-None-Match") returns: "" when the header is absent. */
  datatype Request = Request(verb: string, requestURI: string, ifNoneMatch: string)

  /** What a handler writes: status, headers and body. Header names are stored the way
      net/http's Header.Set canonicalises them ("ETag" is sent as "Etag",
      "Content-type" as "Content-Type"). */
  datatype Response = Response(status: int, headers: map<string, string>, body: string)

  /** A middleware either answers the request itself or passes it on unchanged to the
      next handler of the chain. */
  datatype Reply = Delegate | Respond(response: Response)

  const NotModified: Response := Response(304, map[], "")
}
