/** The request (core/Request.php): pure derivations from the server
    variables and the query and form parameters of one request. */
module Requests {
  import opened Wrappers
  import opened PhpStrings

  /** `$_SERVER`, `$_GET` and `$_POST`. */
  datatype ServerRequest = ServerRequest(server: map<string, string>, query: map<string, string>, post: map<string, string>)

  /** A server variable; a missing one reads as null, which PHP's string
      functions and comparisons with strings treat as "". */
  function ServerVar(r: ServerRequest, name: string): (v: string)
    ensures name !in r.server ==> v == ""
    ensures name in r.server ==> v == r.server[name]
  {
    if name in r.server then r.server[name] else ""
  }

  /** `isPost()`. */
  predicate IsPost(r: ServerRequest)
  {
    ServerVar(r, "REQUEST_METHOD") == "POST"
  }

  lemma IsPostCases(r: ServerRequest)
    ensures IsPost(r) <==> "REQUEST_METHOD" in r.server && r.server["REQUEST_METHOD"] == "POST"
  {
  }

  /** `getGet($key, $default)`. */
  function GetGet(r: ServerRequest, key: string, default: Option<string> := None): (v: Option<string>)
    ensures key in r.query ==> v == Some(r.query[key])
    ensures key !in r.query ==> v == default
  {
    if key in r.query then Some(r.query[key]) else default
  }

  /** `getPost($key, $default)`. */
  function GetPost(r: ServerRequest, key: string, default: Option<string> := None): (v: Option<string>)
    ensures key in r.post ==> v == Some(r.post[key])
    ensures key !in r.post ==> v == default
  {
    if key in r.post then Some(r.post[key]) else default
  }

  /** `empty($s)` for a string. */
  predicate EmptyString(s: string)
  {
    s == "" || s == "0"
  }

  /** `getHost()`: `HTTP_HOST` unless it is empty, else `SERVER_NAME`. */
  function GetHost(r: ServerRequest): (h: string)
    ensures "HTTP_HOST" in r.server && !EmptyString(r.server["HTTP_HOST"]) ==> h == r.server["HTTP_HOST"]
    ensures !("HTTP_HOST" in r.server && !EmptyString(r.server["HTTP_HOST"])) ==> h == ServerVar(r, "SERVER_NAME")
  {
    var host := ServerVar(r, "HTTP_HOST");
    if !EmptyString(host) then host else ServerVar(r, "SERVER_NAME")
  }

  /** `isSel()`: the site was reached over HTTPS. */
  predicate IsSel(r: ServerRequest)
  {
    "HTTPS" in r.server && r.server["HTTPS"] == "on"
  }

  /** Only the exact text `on` counts: no `HTTPS` entry, IIS's `off`, `ON`
      or `1` all read as plain HTTP. */
  lemma IsSelCases(r: ServerRequest, v: string)
    ensures "HTTPS" !in r.server ==> !IsSel(r)
    ensures IsSel(r.(server := r.server["HTTPS" := v])) <==> v == "on"
  {
  }

  /** `getRequestUri()`. */
  function GetRequestUri(r: ServerRequest): string
  {
    ServerVar(r, "REQUEST_URI")
  }

  /** `rtrim($s, '/')`. */
  function RTrimSlash(s: string): (t: string)
    ensures |t| <= |s| && t == s[..|t|]
    ensures forall i :: |t| <= i < |s| ==> s[i] == '/'
    ensures t == [] || t[|t| - 1] != '/'
  {
    if s != [] && s[|s| - 1] == '/' then RTrimSlash(s[..|s| - 1]) else s
  }

  /** `s` without its last path component: the trailing characters up to the last '/'. */
  function DropName(s: string): (t: string)
    ensures |t| <= |s| && t == s[..|t|]
    ensures forall i :: |t| <= i < |s| ==> s[i] != '/'
    ensures t == [] || t[|t| - 1] == '/'
  {
    if s != [] && s[|s| - 1] != '/' then DropName(s[..|s| - 1]) else s
  }

  /** `dirname($path)` on a Unix system: strip trailing slashes, then the
      last component, then the slashes before it; "." when no slash is left
      and "/" when only slashes were. */
  function Dirname(path: string): (d: string)
    ensures d != "" ==> d == "." || d == "/" || (|d| <= |path| && d == path[..|d|] && d[|d| - 1] != '/')
  {
    if path == "" then ""
    else
      var stripped := RTrimSlash(path);
      if stripped == "" then "/"
      else
        var parent := DropName(stripped);
        if parent == "" then "."
        else
          var dir := RTrimSlash(parent);
          if dir == "" then "/" else dir
  }

  /** `getBaseUrl()`: the script name when the URI starts with it, else its
      directory without trailing slashes when the URI starts with that
      directory, else "". */
  function GetBaseUrl(r: ServerRequest): (base: string)
    ensures StartsWith(GetRequestUri(r), base)
  {
    var scriptName := ServerVar(r, "SCRIPT_NAME");
    var requestUri := GetRequestUri(r);
    if StartsWith(requestUri, scriptName) then scriptName
    else if StartsWith(requestUri, Dirname(scriptName)) then
      var d := RTrimSlash(Dirname(scriptName));
      assert requestUri[..|d|] == Dirname(scriptName)[..|d|];
      d
    else ""
  }

  /** The URI up to its query string. */
  function UriPath(uri: string): (p: string)
    ensures |p| <= |uri| && p == uri[..|p|] && '?' !in p
    ensures |p| < |uri| ==> uri[|p|] == '?'
  {
    uri[..FirstIndex(uri, '?')]
  }

  /** `getPathInfo()`: the URI up to its query string, without the first
      `strlen(base_url)` characters ("" when the base is at least as long). */
  function GetPathInfo(r: ServerRequest): (p: string)
    ensures |p| <= |UriPath(GetRequestUri(r))|
  {
    var base := GetBaseUrl(r);
    var path := UriPath(GetRequestUri(r));
    if |base| <= |path| then path[|base|..] else ""
  }

  /** When the base has no '?', the URI up to its query string is the base
      followed by the path info. */
  lemma PathInfoSplit(r: ServerRequest)
    requires '?' !in GetBaseUrl(r)
    ensures GetBaseUrl(r) + GetPathInfo(r) == UriPath(GetRequestUri(r))
  {
    var uri := GetRequestUri(r);
    var base := GetBaseUrl(r);
    var path := UriPath(uri);
    assert path[..|base|] == base;
  }

  /** A front controller at the site root (`SCRIPT_NAME` = "/index.php")
      reached through a URI that does not start with it has the empty base,
      so the path info is the whole URI up to its query string. */
  lemma RootScriptBase(r: ServerRequest, file: string)
    requires file != "" && '/' !in file
    requires ServerVar(r, "SCRIPT_NAME") == "/" + file
    requires !StartsWith(GetRequestUri(r), "/" + file)
    ensures GetBaseUrl(r) == ""
    ensures GetPathInfo(r) == UriPath(GetRequestUri(r))
  {
    var script := "/" + file;
    assert RTrimSlash(script) == script;
    DropNameRoot(file);
    assert Dirname(script) == "/";
  }

  lemma {:induction false} DropNameRoot(file: string)
    requires '/' !in file
    ensures DropName("/" + file) == "/"
  {
    if file != [] {
      var s := "/" + file;
      assert s[|s| - 1] == file[|file| - 1];
      assert s[..|s| - 1] == "/" + file[..|file| - 1];
      DropNameRoot(file[..|file| - 1]);
    }
  }

  /** `getRequestMethod()`: "get", "post", "delete", "patch" or `false` (None). */
  function GetRequestMethod(r: ServerRequest): (m: Option<string>)
    ensures m == Some("get") <==> ServerVar(r, "REQUEST_METHOD") == "GET"
    ensures m == Some("post") <==> IsPost(r) && "_method" !in r.post
    ensures m == Some("delete") <==> IsPost(r) && GetPost(r, "_method") == Some("DELETE")
    ensures m == Some("patch") <==> IsPost(r) && GetPost(r, "_method") == Some("PATCH")
    ensures m.Some? ==> m.value in {"get", "post", "delete", "patch"}
  {
    var requestMethod := ServerVar(r, "REQUEST_METHOD");
    if requestMethod == "GET" then Some("get")
    else if requestMethod == "POST" then
      var override := GetPost(r, "_method");
      if override == None then Some("post")
      else if override == Some("DELETE") then Some("delete")
      else if override == Some("PATCH") then Some("patch")
      else None
    else None
  }
}
