/** Small value types and string helpers shared by every module of the plugin model.
    Go strings and byte slices are both modelled as Dafny strings: a character stands
    for one byte, as a Go string indexes bytes. */
module Common {

  datatype Option<T> = None | Some(value: T)

  datatype Result<T, E> = Ok(value: T) | Err(error: E)

  /** strings.HasPrefix */
  predicate HasPrefix(s: string, prefix: string) {
    |prefix| <= |s| && s[..|prefix|] == prefix
  }

  /** strings.HasSuffix */
  predicate HasSuffix(s: string, suffix: string) {
    |suffix| <= |s| && s[|s| - |suffix|..] == suffix
  }

  /** Indexing a Go map[string]string: a missing key reads as the zero value "". */
  function Lookup(m: map<string, string>, key: string): string {
    if key in m then m[key] else ""
  }

  /** True when some character at an index above `i` is a path separator. */
  ghost predicate SlashAfter(path: string, i: nat) {
    exists j :: i < j < |path| && path[j] == '/'
  }

  /** filepath.Ext on a slash-separated path: the suffix that starts at the last dot
      of the last path element, or "" when that element has no dot. */
  function Ext(path: string): (ext: string)
    ensures HasSuffix(path, ext)
    ensures ext != [] ==> ext[0] == '.' && forall k :: 0 < k < |ext| ==> ext[k] != '.' && ext[k] != '/'
    ensures ext == [] ==> forall i :: 0 <= i < |path| && path[i] == '.' ==> SlashAfter(path, i)
    decreases |path|
  {
    if |path| == 0 || path[|path| - 1] == '/' then ""
    else if path[|path| - 1] == '.' then path[|path| - 1..]
    else
      var rest := Ext(path[..|path| - 1]);
      if rest == "" then "" else rest + [path[|path| - 1]]
  }

  /** mime.TypeByExtension of the path's extension when it knows one, else JavaScript
      (mime.TypeByExtension is a parameter). */
  function GuessContentType(path: string, typeByExtension: string -> string): (contentType: string)
    ensures contentType != ""
    ensures typeByExtension(Ext(path)) != "" ==> contentType == typeByExtension(Ext(path))
    ensures typeByExtension(Ext(path)) == "" ==> contentType == "application/javascript"
  {
    var known := typeByExtension(Ext(path));
    if known != "" then known else "application/javascript"
  }

  /** The index of the first occurrence of `c` in `s`, if any. */
  function IndexOf(s: string, c: char): (k: Option<nat>)
    ensures k.Some? ==> k.value < |s| && s[k.value] == c && c !in s[..k.value]
    ensures k.None? ==> c !in s
    decreases |s|
  {
    if s == [] then None
    else if s[0] == c then Some(0)
    else
      match IndexOf(s[1..], c)
      case None => None
      case Some(k) => Some(k + 1)
  }
}
