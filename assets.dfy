/** Serving one built output file with conditional GET (handle_assets.go). */
module Assets {
  import opened Common
  import opened Api
  import opened Plugin

  /** The header value sent when output names carry a content hash. */
  const CacheForever := "public,max-age=31536000"

  /** handleAsset: the response to a request already routed to output file `f`. The
      If-None-Match value is compared verbatim with the stored digest (a missing digest
      reads as ""): equal gives a bare 304, anything else the file with its ETag, its
      content type and, when names are hashed, a one-year Cache-Control. */
  function HandleAsset(m: Esbuild, r: Request, f: OutputFile, typeByExtension: string -> string): (resp: Response)
    reads m
    ensures resp.status == 304 <==> r.ifNoneMatch == Lookup(m.hashes, f.path)
    ensures resp.status == 304 ==> resp == NotModified
    ensures resp.status != 304 ==>
              && resp.status == 200
              && resp.body == f.contents
              && resp.headers.Keys == {"Etag", "Content-Type"} + (if m.config.fileHash then {"Cache-Control"} else {})
              && resp.headers["Etag"] == Lookup(m.hashes, f.path)
              && resp.headers["Content-Type"] == GuessContentType(f.path, typeByExtension)
              && (m.config.fileHash ==> resp.headers["Cache-Control"] == CacheForever)
  {
    var cachedETag := r.ifNoneMatch;
    if cachedETag == Lookup(m.hashes, f.path) then NotModified
    else
      var headers := map["Etag" := Lookup(m.hashes, f.path), "Content-Type" := GuessContentType(f.path, typeByExtension)];
      var headers := if m.config.fileHash then headers["Cache-Control" := CacheForever] else headers;
      Response(200, headers, f.contents)
  }

  /** Two requests in a row: a client that sends back the ETag it was given gets 304. */
  lemma RevalidationIsNotModified(m: Esbuild, r: Request, f: OutputFile, typeByExtension: string -> string)
    requires HandleAsset(m, r, f, typeByExtension).status == 200
    ensures HandleAsset(m, r.(ifNoneMatch := HandleAsset(m, r, f, typeByExtension).headers["Etag"]), f, typeByExtension) == NotModified
  {
  }

  /** With no digest recorded for the path, a client that sends no If-None-Match also gets
      304 and no body, since both sides read as "". */
  lemma MissingDigestWithoutTagIsNotModified(m: Esbuild, r: Request, f: OutputFile, typeByExtension: string -> string)
    requires f.path !in m.hashes && r.ifNoneMatch == ""
    ensures HandleAsset(m, r, f, typeByExtension) == NotModified
  {
  }

  /** After a build has been published, the ETag served for an output is the digest of
      that file's own contents, so a client holding the digest of unchanged content keeps
      getting 304 across rebuilds. */
  lemma ServedTagIsContentDigest(m: Esbuild, prev: map<string, string>, files: seq<OutputFile>, sha1Hex: string -> string,
                                 i: nat, r: Request, typeByExtension: string -> string)
    requires m.hashes == RecordDigests(prev, files, sha1Hex)
    requires i < |files|
    requires forall j :: i < j < |files| ==> files[j].path != files[i].path
    ensures r.ifNoneMatch == sha1Hex(files[i].contents) ==> HandleAsset(m, r, files[i], typeByExtension) == NotModified
    ensures r.ifNoneMatch != sha1Hex(files[i].contents) ==>
              && HandleAsset(m, r, files[i], typeByExtension).status == 200
              && Lookup(HandleAsset(m, r, files[i], typeByExtension).headers, "Etag") == sha1Hex(files[i].contents)
  {
    RecordDigestsOwnContents(prev, files, sha1Hex, i);
  }
}
