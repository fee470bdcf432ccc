/** URLs of the backend API (frontend/src/api/config.ts). The constructor's base URL,
    which depends on the page's origin and the build, is a parameter. */
module ApiConfig {
  import opened Base
  import opened Strings

  /** `pathPart.replace(/(^\/|\/$)/g, "")`: one leading and one trailing slash go; a
      lone "/" is both and leaves nothing. */
  function StripBoundarySlashes(part: string): (r: string)
    ensures |part| - 2 <= |r| <= |part|
    ensures var lead := |part| > 0 && part[0] == '/';
      var trail := |part| > 1 && part[|part| - 1] == '/';
      part == (if lead then "/" else "") + r + (if trail then "/" else "")
  {
    if |part| == 0 then ""
    else
      var start := if part[0] == '/' then 1 else 0;
      if start == |part| then ""
      else if part[|part| - 1] == '/' then part[start..|part| - 1]
      else part[start..]
  }

  /** `urlJoin`: the parts, stripped, joined with single slashes. */
  function UrlJoin(parts: seq<string>): (r: string)
    ensures |parts| == 0 ==> r == ""
    ensures |parts| == 1 ==> r == StripBoundarySlashes(parts[0])
    ensures |parts| == 2 ==> r == StripBoundarySlashes(parts[0]) + "/" + StripBoundarySlashes(parts[1])
  {
    var stripped := Map(parts, StripBoundarySlashes);
    if |parts| == 2 then
      assert stripped[1..] == [StripBoundarySlashes(parts[1])];
      assert Join(stripped[1..], "/") == StripBoundarySlashes(parts[1]);
      Join(stripped, "/")
    else Join(stripped, "/")
  }

  /** `API_BASE_URL`: the stripped base followed by "/api", never ending in a slash; an
      absolute base URL (one not starting with a slash) gives one that does not start
      with a slash either. */
  function ApiBaseUrl(constructorBaseUrl: string): (r: string)
    ensures r == StripBoundarySlashes(constructorBaseUrl) + "/api"
    ensures |r| > 0 && r[|r| - 1] != '/'
    ensures |constructorBaseUrl| > 0 && constructorBaseUrl[0] != '/' ==> r[0] != '/'
  {
    assert StripBoundarySlashes("/api") == "api";
    UrlJoin([constructorBaseUrl, "/api"])
  }

  /** `apiUrl`: the API base and the stripped route around one slash; for an absolute
      base URL, the stripped base, "/api/" and the stripped route. */
  function ApiUrl(constructorBaseUrl: string, route: string): (r: string)
    ensures r == StripBoundarySlashes(ApiBaseUrl(constructorBaseUrl)) + "/" + StripBoundarySlashes(route)
    ensures |constructorBaseUrl| > 0 && constructorBaseUrl[0] != '/' ==>
      r == StripBoundarySlashes(constructorBaseUrl) + "/api/" + StripBoundarySlashes(route)
  {
    var base := ApiBaseUrl(constructorBaseUrl);
    if |constructorBaseUrl| > 0 && constructorBaseUrl[0] != '/' then
      var stripped := StripBoundarySlashes(constructorBaseUrl);
      StripSlashesExactlyOne(base);
      assert stripped + "/api" + "/" + StripBoundarySlashes(route) == stripped + "/api/" + StripBoundarySlashes(route);
      UrlJoin([base, route])
    else UrlJoin([base, route])
  }

  /** A part without boundary slashes is kept verbatim, inner slashes included; one
      slash on either side, or both, is removed. */
  lemma StripSlashesExactlyOne(s: string)
    requires |s| > 0 && s[0] != '/' && s[|s| - 1] != '/'
    ensures StripBoundarySlashes(s) == s
    ensures StripBoundarySlashes("/" + s) == s
    ensures StripBoundarySlashes(s + "/") == s
    ensures StripBoundarySlashes("/" + s + "/") == s
  {
    assert ("/" + s)[1..] == s;
    assert (s + "/")[..|s|] == s;
    assert ("/" + s + "/")[1..|s| + 1] == s;
  }

  /** Only one slash is removed on each side, so doubled slashes leave one behind. */
  lemma StripSlashesOnlyOnce(s: string)
    requires |s| > 0 && s[0] != '/' && s[|s| - 1] != '/'
    ensures StripBoundarySlashes("//" + s + "//") == "/" + s + "/"
  {
    assert ("//" + s + "//")[1..|s| + 3] == "/" + s + "/";
  }
}
