/** The manifest endpoint (handle_manifest.go): the build report's output table
    inverted into {entry point, or absolute output path -> absolute output path}. */
module Manifest {
  import opened Common
  import opened Api
  import opened Plugin

  const JsonContentType := "application/json"

  /** The key an output is listed under: its entry point, or its own absolute path when
      it has none (a shared chunk, a source map). */
  function ManifestKey(outputPath: string, output: Output, abs: string -> string): string {
    if output.entryPoint == "" then abs(outputPath) else output.entryPoint
  }

  /** `manifest` lists every output under its key, and every entry is the absolute path
      of some output listed under that key. Which output wins a shared key is left open,
      as Go's map iteration order is. */
  ghost predicate IsManifestOf(manifest: map<string, string>, outputs: map<string, Output>, abs: string -> string) {
    && (forall t :: t in outputs ==> ManifestKey(t, outputs[t], abs) in manifest)
    && (forall k :: k in manifest ==>
          exists t :: t in outputs && ManifestKey(t, outputs[t], abs) == k && manifest[k] == abs(t))
  }

  /** The inversion loop of handleManifest, over the outputs in an unspecified order. */
  method BuildManifest(outputs: map<string, Output>, abs: string -> string) returns (manifest: map<string, string>)
    ensures IsManifestOf(manifest, outputs, abs)
    ensures |manifest| <= |outputs|
  {
    manifest := map[];
    var todo := outputs.Keys;
    while todo != {}
      invariant todo <= outputs.Keys
      invariant forall t :: t in outputs && t !in todo ==> ManifestKey(t, outputs[t], abs) in manifest
      invariant forall k :: k in manifest ==>
                  exists t :: t in outputs && t !in todo && ManifestKey(t, outputs[t], abs) == k && manifest[k] == abs(t)
      invariant |manifest| + |todo| <= |outputs|
      decreases todo
    {
      var target :| target in todo;
      var source := outputs[target].entryPoint;
      if source == "" {
        source := abs(target);
      }
      var absTarget := abs(target);
      assert source == ManifestKey(target, outputs[target], abs);
      assert |manifest[source := absTarget]| <= |manifest| + 1 by {
        assert manifest[source := absTarget].Keys == manifest.Keys + {source};
      }
      manifest := manifest[source := absTarget];
      todo := todo - {target};
    }
  }

  /** An output whose key no other output shares (up to having the same absolute path)
      resolves to its own absolute path. */
  lemma UnsharedKeyResolves(manifest: map<string, string>, outputs: map<string, Output>, abs: string -> string, t: string)
    requires IsManifestOf(manifest, outputs, abs)
    requires t in outputs
    requires forall u :: u in outputs && ManifestKey(u, outputs[u], abs) == ManifestKey(t, outputs[t], abs) ==> abs(u) == abs(t)
    ensures manifest[ManifestKey(t, outputs[t], abs)] == abs(t)
  {
    var k := ManifestKey(t, outputs[t], abs);
    var u :| u in outputs && ManifestKey(u, outputs[u], abs) == k && manifest[k] == abs(u);
  }

  /** An output without an entry point maps to itself (key equals value), unless another
      output claims the same key with a different path. */
  lemma OutputWithoutEntryPointMapsToItself(manifest: map<string, string>, outputs: map<string, Output>, abs: string -> string, t: string)
    requires IsManifestOf(manifest, outputs, abs)
    requires t in outputs && outputs[t].entryPoint == ""
    requires forall u :: u in outputs && ManifestKey(u, outputs[u], abs) == abs(t) ==> abs(u) == abs(t)
    ensures abs(t) in manifest && manifest[abs(t)] == abs(t)
  {
    UnsharedKeyResolves(manifest, outputs, abs, t);
  }

  /** Every value of the manifest is the absolute path of some output. */
  lemma ManifestValuesAreOutputs(manifest: map<string, string>, outputs: map<string, Output>, abs: string -> string, v: string)
    requires IsManifestOf(manifest, outputs, abs)
    requires v in manifest.Values
    ensures exists t :: t in outputs && abs(t) == v
  {
    var k :| k in manifest && manifest[k] == v;
    var t :| t in outputs && ManifestKey(t, outputs[t], abs) == k && manifest[k] == abs(t);
  }

  /** When no two outputs share a key, the iteration order does not matter: there is
      exactly one manifest. */
  lemma ManifestUniqueWhenKeysDistinct(m1: map<string, string>, m2: map<string, string>, outputs: map<string, Output>, abs: string -> string)
    requires IsManifestOf(m1, outputs, abs) && IsManifestOf(m2, outputs, abs)
    requires forall t, u :: t in outputs && u in outputs && t != u ==> ManifestKey(t, outputs[t], abs) != ManifestKey(u, outputs[u], abs)
    ensures m1 == m2
  {
    forall k | k in m1 ensures k in m2 && m1[k] == m2[k] {
      var t :| t in outputs && ManifestKey(t, outputs[t], abs) == k && m1[k] == abs(t);
      KeyOwner(m2, outputs, abs, t);
    }
    forall k | k in m2 ensures k in m1 {
      var u :| u in outputs && ManifestKey(u, outputs[u], abs) == k && m2[k] == abs(u);
      KeyOwner(m1, outputs, abs, u);
    }
  }

  /** With distinct keys, each output's key holds that output's absolute path. */
  lemma KeyOwner(manifest: map<string, string>, outputs: map<string, Output>, abs: string -> string, t: string)
    requires IsManifestOf(manifest, outputs, abs)
    requires forall t, u :: t in outputs && u in outputs && t != u ==> ManifestKey(t, outputs[t], abs) != ManifestKey(u, outputs[u], abs)
    requires t in outputs
    ensures ManifestKey(t, outputs[t], abs) in manifest && manifest[ManifestKey(t, outputs[t], abs)] == abs(t)
  {
    var k := ManifestKey(t, outputs[t], abs);
    var u :| u in outputs && ManifestKey(u, outputs[u], abs) == k && manifest[k] == abs(u);
  }

  /** handleManifest. Before any build: 200 with "{}". Otherwise the ETag is the hex
      SHA-1 of the raw report; a verbatim If-None-Match match gives 304 before anything
      is decoded; a report that does not decode gives 500; else 200 with the encoded
      manifest. */
  method HandleManifest(m: Esbuild, r: Request, sha1Hex: string -> string, decodeMetafile: string -> Option<Metafile>,
                        abs: string -> string, marshal: map<string, string> -> string)
    returns (resp: Response)
    ensures m.esbuild == null ==> resp == Response(200, map["Content-Type" := JsonContentType], "{}")
    ensures m.esbuild != null && r.ifNoneMatch == sha1Hex(m.esbuild.result.metafile) ==> resp == NotModified
    ensures m.esbuild != null && r.ifNoneMatch != sha1Hex(m.esbuild.result.metafile) ==>
              resp.headers == map["Etag" := sha1Hex(m.esbuild.result.metafile), "Content-Type" := JsonContentType]
    ensures m.esbuild != null && r.ifNoneMatch != sha1Hex(m.esbuild.result.metafile) && decodeMetafile(m.esbuild.result.metafile).None? ==>
              resp.status == 500 && resp.body == ""
    ensures m.esbuild != null && r.ifNoneMatch != sha1Hex(m.esbuild.result.metafile) && decodeMetafile(m.esbuild.result.metafile).Some? ==>
              && resp.status == 200
              && exists manifest :: IsManifestOf(manifest, decodeMetafile(m.esbuild.result.metafile).value.outputs, abs)
                                    && |manifest| <= |decodeMetafile(m.esbuild.result.metafile).value.outputs|
                                    && resp.body == marshal(manifest)
  {
    if m.esbuild == null {
      return Response(200, map["Content-Type" := JsonContentType], "{}");
    }
    var raw := m.esbuild.result.metafile;
    var etag := sha1Hex(raw);
    var cachedETag := r.ifNoneMatch;
    if cachedETag == etag {
      return NotModified;
    }
    var headers := map["Etag" := etag, "Content-Type" := JsonContentType];
    var decoded := decodeMetafile(raw);
    if decoded.None? {
      return Response(500, headers, "");
    }
    var manifest := BuildManifest(decoded.value.outputs, abs);
    resp := Response(200, headers, marshal(manifest));
  }
}
