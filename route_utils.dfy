/** Paths of the frontend's pages (frontend/src/routeUtils.ts). The deployment base
    path and `encodeURIComponent` are parameters. */
module RouteUtils {
  import opened Base
  import opened Strings

  /** A value interpolated into a path: a string or a number. */
  datatype PathPart = StrPart(s: string) | NumPart(n: int)

  /** `withBasePath`: the root base path adds nothing. */
  function WithBasePath(basePath: string, path: string): (r: string)
    ensures basePath == "/" ==> r == path
    ensures basePath != "/" ==> r == basePath + path
  {
    (if basePath == "/" then "" else basePath) + path
  }

  /** `encodePathPart`: numbers and route placeholders such as ":botId" are kept, any
      other string is URI-encoded. */
  function EncodePathPart(part: PathPart, encode: string -> string): (r: PathPart)
    ensures part.NumPart? ==> r == part
    ensures part.StrPart? && |part.s| > 0 && part.s[0] == ':' ==> r == part
    ensures part.StrPart? && !(|part.s| > 0 && part.s[0] == ':') ==> r == StrPart(encode(part.s))
  {
    match part
    case NumPart(_) => part
    case StrPart(s) => if |s| > 0 && s[0] == ':' then part else StrPart(encode(s))
  }

  /** How a template literal renders an interpolated value. */
  function Render(part: PathPart): string
  {
    match part
    case StrPart(s) => s
    case NumPart(n) => IntToString(n)
  }

  /** A route placeholder such as ":botId", which `encodePathPart` keeps. */
  predicate IsPlaceholder(s: string)
  {
    |s| > 0 && s[0] == ':'
  }

  /** An id as it appears in a path: placeholders as they are, anything else encoded. */
  function Id(id: string, encode: string -> string): (r: string)
    ensures IsPlaceholder(id) ==> r == id
    ensures !IsPlaceholder(id) ==> r == encode(id)
  {
    Render(EncodePathPart(StrPart(id), encode))
  }

  /** `formResultsPagePath`: built from the router's placeholders it is the route
      pattern; real ids are encoded. */
  function FormResultsPagePath(basePath: string, encode: string -> string, botId: string, formBlockId: string): (r: string)
    ensures botId == ":botId" && formBlockId == ":formBlockId" ==> r == WithBasePath(basePath, "/forms/:botId/:formBlockId")
    ensures !IsPlaceholder(botId) && !IsPlaceholder(formBlockId) ==>
      r == WithBasePath(basePath, "/forms/" + encode(botId) + "/" + encode(formBlockId))
  {
    FormsPattern();
    WithBasePath(basePath, "/forms/" + Id(botId, encode) + "/" + Id(formBlockId, encode))
  }

  lemma FormsPattern()
    ensures IsPlaceholder(":botId") && IsPlaceholder(":formBlockId")
    ensures "/forms/" + ":botId" + "/" + ":formBlockId" == "/forms/:botId/:formBlockId"
  {
  }

  /** `studioPath`: the bot's studio, with the version as a query only when there is
      one; the number is rendered as it is. */
  function StudioPath(basePath: string, encode: string -> string, botId: string, version: Option<int>): (r: string)
    ensures botId == ":botId" && version.None? ==> r == WithBasePath(basePath, "/studio/:botId")
    ensures !IsPlaceholder(botId) && version.None? ==> r == WithBasePath(basePath, "/studio/" + encode(botId))
    ensures !IsPlaceholder(botId) && version.Some? ==>
      r == WithBasePath(basePath, "/studio/" + encode(botId) + "?version=" + IntToString(version.value))
  {
    assert IsPlaceholder(":botId");
    var relpath := "/studio/" + Id(botId, encode);
    WithBasePath(basePath, if version.Some? then relpath + "?version=" + Render(EncodePathPart(NumPart(version.value), encode)) else relpath)
  }

  /** `dashboardPath`. */
  function DashboardPath(basePath: string, encode: string -> string, botId: string): (r: string)
    ensures botId == ":botId" ==> r == WithBasePath(basePath, "/dashboard/:botId")
    ensures !IsPlaceholder(botId) ==> r == WithBasePath(basePath, "/dashboard/" + encode(botId))
  {
    assert IsPlaceholder(":botId");
    WithBasePath(basePath, "/dashboard/" + Id(botId, encode))
  }

  /** `botListingPath`. */
  function BotListingPath(basePath: string): (r: string)
    ensures basePath == "/" ==> r == "/bots"
    ensures basePath != "/" ==> r == basePath + "/bots"
  {
    WithBasePath(basePath, "/bots")
  }

  /** `versionsPagePath`. */
  function VersionsPagePath(basePath: string, encode: string -> string, botId: string): (r: string)
    ensures botId == ":botId" ==> r == WithBasePath(basePath, "/versions/:botId")
    ensures !IsPlaceholder(botId) ==> r == WithBasePath(basePath, "/versions/" + encode(botId))
  {
    assert IsPlaceholder(":botId");
    WithBasePath(basePath, "/versions/" + Id(botId, encode))
  }

  /** `settingsPath`. */
  function SettingsPath(basePath: string, encode: string -> string, botId: string): (r: string)
    ensures botId == ":botId" ==> r == WithBasePath(basePath, "/settings/:botId")
    ensures !IsPlaceholder(botId) ==> r == WithBasePath(basePath, "/settings/" + encode(botId))
  {
    assert IsPlaceholder(":botId");
    WithBasePath(basePath, "/settings/" + Id(botId, encode))
  }

  /** `errorsPath`. */
  function ErrorsPath(basePath: string, encode: string -> string, botId: string): (r: string)
    ensures botId == ":botId" ==> r == WithBasePath(basePath, "/errors/:botId")
    ensures !IsPlaceholder(botId) ==> r == WithBasePath(basePath, "/errors/" + encode(botId))
  {
    assert IsPlaceholder(":botId");
    WithBasePath(basePath, "/errors/" + Id(botId, encode))
  }

  /** The studio path of a version is the path of the bot's studio followed by the
      version query, and only a non-null version adds it. */
  lemma StudioPathVersion(basePath: string, encode: string -> string, botId: string, version: int)
    ensures StudioPath(basePath, encode, botId, Some(version)) ==
      StudioPath(basePath, encode, botId, None) + "?version=" + IntToString(version)
  {
  }

  /** When the encoded ids hold no "/" (`encodeURIComponent` escapes it), the segments of
      a form-results path under the root base path are the route's name and the two
      encoded ids, so both ids can be read back. */
  lemma FormResultsPathSegments(encode: string -> string, botId: string, formBlockId: string)
    requires '/' !in Id(botId, encode) && '/' !in Id(formBlockId, encode)
    ensures Split(FormResultsPagePath("/", encode, botId, formBlockId), '/') == ["", "forms", Id(botId, encode), Id(formBlockId, encode)]
  {
    var parts := ["", "forms", Id(botId, encode), Id(formBlockId, encode)];
    assert Join(parts[3..], "/") == Id(formBlockId, encode);
    assert Join(parts[2..], "/") == Id(botId, encode) + "/" + Id(formBlockId, encode);
    assert Join(parts[1..], "/") == "forms/" + Id(botId, encode) + "/" + Id(formBlockId, encode);
    assert Join(parts, "/") == "/forms/" + Id(botId, encode) + "/" + Id(formBlockId, encode);
    SplitJoin(parts, '/');
  }
}
