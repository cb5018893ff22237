/** REST URL building (`api.js`): the configured base with trailing slashes removed, and
    `apiUrl(path)` joining it to a path that always starts with one `/`. */
module Api {
  import opened Js

  /** `(process.env.REACT_APP_API_BASE_URL || "").trim()`. */
  function RawBase(env: Option<string>): (raw: string)
    ensures !Truthy(env) ==> raw == ""
    ensures Truthy(env) ==> raw == Trim(env.value)
  {
    Trim(env.GetOr(""))
  }

  /** `RAW_BASE.replace(/\/+$/, "")`: the longest run of trailing slashes is removed. */
  function ApiBase(raw: string): (base: string)
    ensures |base| <= |raw| && base == raw[..|base|]
    ensures forall i :: |base| <= i < |raw| ==> raw[i] == '/'
    ensures base == [] || base[|base| - 1] != '/'
  {
    if raw != [] && raw[|raw| - 1] == '/' then ApiBase(raw[..|raw| - 1]) else raw
  }

  /** `path.startsWith("/") ? path : "/" + path`. */
  function LeadingSlash(path: string): (p: string)
    ensures StartsWith(p, "/")
    ensures p == path || p == "/" + path
  {
    if StartsWith(path, "/") then path else "/" + path
  }

  /** `apiUrl(path)` for a normalised base. */
  function ApiUrl(base: string, path: string): (url: string)
    ensures |base| < |url| && url[..|base|] == base && url[|base|..] == LeadingSlash(path)
  {
    if base != "" then base + LeadingSlash(path) else LeadingSlash(path)
  }

  /** The URL is the base followed by the path, with one `/` put in front of a path that lacks it. */
  lemma ApiUrlShape(base: string, path: string)
    ensures StartsWith(path, "/") ==> ApiUrl(base, path) == base + path
    ensures !StartsWith(path, "/") ==> ApiUrl(base, path) == base + "/" + path
  {
    assert base == "" ==> base + LeadingSlash(path) == LeadingSlash(path);
  }

  /** `apiUrl("x")` and `apiUrl("/x")` are the same URL. */
  lemma SlashOptional(base: string, x: string)
    requires !StartsWith(x, "/")
    ensures ApiUrl(base, x) == ApiUrl(base, "/" + x)
  {
    assert StartsWith("/" + x, "/");
  }

  /** With no base configured, the URL is the normalised path alone. */
  lemma EmptyBase(path: string)
    ensures ApiUrl("", path) == LeadingSlash(path)
  {
  }

  /** `apiUrl()` with its default argument is the base followed by `/`. */
  lemma DefaultPath(base: string)
    ensures ApiUrl(base, "") == base + "/"
  {
    assert !StartsWith("", "/");
  }

  /** Extra trailing slashes in the configured base do not change any URL. */
  lemma TrailingSlashesIgnored(raw: string, path: string)
    ensures ApiUrl(ApiBase(raw + "/"), path) == ApiUrl(ApiBase(raw), path)
  {
    assert (raw + "/")[..|raw + "/"| - 1] == raw;
  }

  /** The base never ends with `/`, so a configured base and the path are joined by exactly one
      slash whenever the path does not itself begin with two. */
  lemma {:induction false} SingleSlashJoin(raw: string, path: string)
    requires ApiBase(raw) != ""
    requires !StartsWith(path, "//")
    ensures var url := ApiUrl(ApiBase(raw), path);
      var n := |ApiBase(raw)|;
      |url| > n && url[n] == '/' && url[n - 1] != '/' && (|url| == n + 1 || url[n + 1] != '/')
  {
    var base := ApiBase(raw);
    var p := LeadingSlash(path);
    assert ApiUrl(base, path) == base + p;
  }
}
