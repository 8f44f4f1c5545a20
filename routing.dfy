/** The router of `core/Router.php`: it compiles a routing definition array
    written in a small path syntax (`:name` parameters, `@verb` suffixes,
    `%rest` / `%rest[a,b]` resource shorthands) into an ordered route table, and
    resolves a path and verb against that table, first match first.

    The source matches with `preg_match('#^pattern$#', path . '/@' . verb)`.
    Every literal token of a pattern is free of `/`, and every parameter compiles
    to the group `(?P<name>[^/]+)`; so, as long as literal tokens hold no regular
    expression metacharacters (see `PlainLiteral`), a pattern matches exactly
    when the request splits on `/` into as many segments as the pattern has
    tokens, literal tokens equal their segment, and each parameter's segment is
    non-empty. That is how matching is modelled here. PCRE2 ends a group's
    name at its first `>`: the rest of a `:name` holding one becomes text the
    group's segment must start with (`HeadGroup`). A pattern whose group
    names PCRE2 refuses does not compile, and `preg_match` then fails for
    every request (`PatternCompiles`). */
module Routing {
  import opened Wrappers
  import opened PhpStrings
  import opened PhpArrays

  /** Route metadata (`'controller' => ..., 'action' => ...`). */
  type Params = map<string, string>

  /** A routing definition array: url template => metadata, in declaration order. */
  type Definitions = OMap<string, Params>

  /** One compiled route: the pattern's tokens and its `_`-prefixed metadata. */
  datatype Route = Route(tokens: seq<string>, params: Params)

  /** The router's `$routes`: pattern string => compiled route, in table order. */
  type RouteTable = OMap<string, Route>

  /** What `resolve` returns on a match: the metadata merged with the decoded
      named captures, and the decoded numbered matches (`$matches[0]` is the
      whole request key, then one entry per capture group). */
  datatype RouteParams = RouteParams(named: map<string, string>, positional: seq<string>)

  /** The seven actions of a `%rest` shorthand, in the order they are generated. */
  const RestActions: seq<string> := ["index", "show", "new", "create", "edit", "update", "destroy"]

  /** The text `%rest` is extended with, `index,show,new,create,edit,update,destroy`. */
  const RestActionText: string := Join(RestActions, ',')

  // ---------------------------------------------------------------------------
  // Tokens

  /** `explodeTokens`: split on `/` and drop the piece before the first `/`. */
  function ExplodeTokens(s: string): (tokens: seq<string>)
    ensures forall i :: 0 <= i < |tokens| ==> '/' !in tokens[i]
  {
    Split(s, '/')[1..]
  }

  /** `implodeTokens`: `'/' . implode('/', tokens)`. */
  function ImplodeTokens(tokens: seq<string>): string
  {
    "/" + Join(tokens, '/')
  }

  /** `getEndToken`: the last path segment and verb that a resource action
      generates. Any other name is kept, with `@get` added unless it already
      names a verb. */
  function EndToken(action: string): (t: string)
    ensures '@' in t
  {
    if action == "index" then "@get"
    else if action == "show" then ":id@get"
    else if action == "new" then "new@get"
    else if action == "create" then "new@post"
    else if action == "edit" then ":id/edit@get"
    else if action == "update" then ":id@patch"
    else if action == "destroy" then ":id@delete"
    else if '@' !in action then
      assert (action + "@get")[|action|] == '@';
      action + "@get"
    else action
  }

  // ---------------------------------------------------------------------------
  // Expansion of `%rest` shorthands (`explodeRestAction`)

  /** `strstr(substr(strstr(t, '['), 1), ']', true)`: the text between the first
      `[` and the first `]` after it; empty when either is missing (PHP then
      works on `false`, which converts to the empty string). */
  function BracketContents(t: string): string
  {
    var i := FirstIndex(t, '[');
    if i == |t| then ""
    else
      var after := t[i + 1..];
      var j := FirstIndex(after, ']');
      if j == |after| then "" else after[..j]
  }

  /** The shorthand token after the source's rewriting: `%rest` gets the seven
      actions in brackets and every `[` of `%rest[...` is extended by them. */
  function ExtendRestToken(token: string): string
  {
    if StartsWith(token, "%rest") then
      if token == "%rest" then token + "[" + RestActionText + "]"
      else if StartsWith(token, "%rest[") then ReplaceAll(token, '[', "[" + RestActionText + ",")
      else token
    else token
  }

  /** The untrimmed action names a shorthand token lists. */
  function RawRestActions(token: string): (names: seq<string>)
    ensures |names| >= 1
  {
    Split(BracketContents(ExtendRestToken(token)), ',')
  }

  /** The action names a shorthand token generates, each trimmed. */
  function RestActionNames(token: string): (names: seq<string>)
    ensures |names| == |RawRestActions(token)|
    ensures forall i :: 0 <= i < |names| ==> ',' !in names[i] && Trim(names[i]) == names[i]
  {
    TrimAll(RawRestActions(token))
  }

  /** Every piece trimmed, in order. */
  function TrimAll(pieces: seq<string>): (r: seq<string>)
    ensures |r| == |pieces|
    ensures forall i :: 0 <= i < |pieces| ==> r[i] == Trim(pieces[i])
    ensures forall i :: 0 <= i < |pieces| ==> Trim(r[i]) == r[i]
    ensures forall i :: 0 <= i < |pieces| && ',' !in pieces[i] ==> ',' !in r[i]
  {
    var r := seq(|pieces|, i requires 0 <= i < |pieces| => Trim(pieces[i]));
    forall i | 0 <= i < |pieces| ensures Trim(r[i]) == r[i] && (',' !in pieces[i] ==> ',' !in r[i]) {
      TrimmedPiece(pieces[i]);
    }
    r
  }

  lemma TrimmedPiece(piece: string)
    ensures Trim(Trim(piece)) == Trim(piece)
    ensures ',' !in piece ==> ',' !in Trim(piece)
  {
    TrimNoop(Trim(piece));
    if ',' !in piece {
      TrimKeepsOut(piece, ',');
    }
  }

  /** The url generated for `action` from the template's leading tokens. */
  function RestUrl(base: seq<string>, action: string): string
  {
    ImplodeTokens(base + [EndToken(action)])
  }

  /** The metadata of a generated definition. */
  function RestParams(params: Params, action: string): Params
  {
    params["action" := action]
  }

  /** `$definitions[$_url] = $params` for each of `actions`, in order. */
  function PutActions(live: Definitions, base: seq<string>, params: Params, actions: seq<string>): Definitions
    decreases |actions|
  {
    if actions == [] then live
    else
      var n := |actions| - 1;
      Put(PutActions(live, base, params, actions[..n]), RestUrl(base, actions[n]), RestParams(params, actions[n]))
  }

  /** The shorthand token of a template, if its last token starts with `%`. */
  function ShorthandToken(url: string): Option<string>
  {
    var tokens := ExplodeTokens(url);
    if |tokens| > 0 && StartsWith(tokens[|tokens| - 1], "%") then Some(tokens[|tokens| - 1]) else None
  }

  /** One iteration of `explodeRestAction`'s outer loop, on the live array. */
  function ExpandOne(live: Definitions, url: string, params: Params): Definitions
  {
    match ShorthandToken(url)
    case None => live
    case Some(token) =>
      var tokens := ExplodeTokens(url);
      Remove(PutActions(live, tokens[..|tokens| - 1], params, RestActionNames(token)), url)
  }

  /** PHP's `foreach` by value walks a snapshot of the array, so the loop visits
      the ORIGINAL definitions while it edits the live array. */
  function ExpandRestUpTo(defs: Definitions, n: nat): Definitions
    requires n <= |defs|
  {
    if n == 0 then defs else ExpandOne(ExpandRestUpTo(defs, n - 1), defs[n - 1].0, defs[n - 1].1)
  }

  function ExpandRest(defs: Definitions): Definitions
  {
    ExpandRestUpTo(defs, |defs|)
  }

  // ---------------------------------------------------------------------------
  // Verbs (`compileHTTPRequestMethod`)

  /** A template without `@` gets `@get`; every `@` then becomes `/@`. */
  function VerbKey(url: string): string
  {
    ReplaceAll(if '@' in url then url else url + "@get", '@', "/@")
  }

  function VerbKeys(defs: Definitions): (keys: seq<string>)
    ensures |keys| == |defs|
    ensures forall i :: 0 <= i < |defs| ==> keys[i] == VerbKey(defs[i].0)
  {
    seq(|defs|, i requires 0 <= i < |defs| => VerbKey(defs[i].0))
  }

  /** `array_combine` of the rewritten keys with the old values. */
  function CompileVerbs(defs: Definitions): Definitions
  {
    Combine(VerbKeys(defs), ValuesOf(defs))
  }

  // ---------------------------------------------------------------------------
  // Parameters (`compileDynamicToken`) and metadata (`setRouteParams`)

  const CapturePrefix: string := "(?P<"
  const CaptureSuffix: string := ">[^/]+)"

  /** The named group a `:name` token compiles to. */
  function CaptureGroup(name: string): string
  {
    CapturePrefix + name + CaptureSuffix
  }

  function CompileToken(token: string): string
  {
    if StartsWith(token, ":") then CaptureGroup(token[1..]) else token
  }

  function CompileTokens(tokens: seq<string>): (r: seq<string>)
    ensures |r| == |tokens|
    ensures forall i :: 0 <= i < |tokens| ==> r[i] == CompileToken(tokens[i])
  {
    seq(|tokens|, i requires 0 <= i < |tokens| => CompileToken(tokens[i]))
  }

  /** How the regular expression engine reads a compiled token: a named group
      of the `(?P<head>[^/]+)` shape, given by its head, or else a literal. */
  function ParseCapture(t: string): Option<string>
  {
    if |t| >= |CapturePrefix| + |CaptureSuffix|
       && t[..|CapturePrefix|] == CapturePrefix
       && t[|t| - |CaptureSuffix|..] == CaptureSuffix
    then Some(t[|CapturePrefix|..|t| - |CaptureSuffix|])
    else None
  }

  /** A group as PCRE2 reads it: its name, and the literal text its match
      starts with before `[^/]+`. */
  datatype Group = Group(name: string, lead: string)

  /** The position of the first `>` in a group's head, or the head's length. */
  function NameEnd(head: string): (k: nat)
    ensures k <= |head|
    ensures forall i :: 0 <= i < k ==> head[i] != '>'
    ensures k < |head| ==> head[k] == '>'
  {
    if head == [] || head[0] == '>' then 0 else 1 + NameEnd(head[1..])
  }

  /** How PCRE2 reads `(?P<head>[^/]+)`: the name ends at the first `>`; the
      text after that `>`, with the `>` that followed the head, opens the
      group's body. A head without `>` is the name itself. */
  function HeadGroup(head: string): Group
  {
    var k := NameEnd(head);
    if k < |head| then Group(head[..k], head[k + 1..] + ">") else Group(head, "")
  }

  /** The longest group name PCRE2 accepts. */
  const MaxGroupNameLength: nat := 32

  /** A character PCRE2 counts as a word character outside UTF mode. */
  predicate IsWordChar(c: char)
  {
    'a' <= c <= 'z' || 'A' <= c <= 'Z' || '0' <= c <= '9' || c == '_'
  }

  /** A name PCRE2 accepts in `(?P<name>...)`: one to 32 word characters, the
      first of them not a digit. */
  predicate ValidGroupName(name: string)
  {
    1 <= |name| <= MaxGroupNameLength && !IsDigit(name[0])
    && forall i :: 0 <= i < |name| ==> IsWordChar(name[i])
  }

  /** The name of a compiled token's group, if it is one. */
  function GroupNameOf(t: string): seq<string>
  {
    match ParseCapture(t)
    case Some(head) => [HeadGroup(head).name]
    case None => []
  }

  /** The names of a compiled pattern's groups, left to right. */
  function GroupNames(patternTokens: seq<string>): seq<string>
  {
    if patternTokens == [] then [] else GroupNameOf(patternTokens[0]) + GroupNames(patternTokens[1..])
  }

  /** PCRE2 compiles the pattern: every group name is valid and no two groups
      share a name. When it does not, `preg_match` returns `false` (with a
      warning) and `resolve` goes on to the next route. */
  predicate PatternCompiles(patternTokens: seq<string>)
  {
    var names := GroupNames(patternTokens);
    (forall i :: 0 <= i < |names| ==> ValidGroupName(names[i]))
    && forall i, j :: 0 <= i < j < |names| ==> names[i] != names[j]
  }

  /** The characters that a literal token must not hold for token matching to
      agree with the source's regular expression (`#` is its delimiter). */
  predicate PlainLiteral(t: string)
  {
    forall i :: 0 <= i < |t| ==> t[i] !in "\\^$.[]|()?*+{}#"
  }

  /** `setRouteParams`: every metadata key gets a `_` in front. */
  function PrefixKeys(params: Params): (r: Params)
    ensures forall k :: k in params ==> "_" + k in r && r["_" + k] == params[k]
    ensures forall k :: k in r ==> |k| >= 1 && k[0] == '_' && k[1..] in params && r[k] == params[k[1..]]
  {
    var keys := set k | k in params :: "_" + k;
    assert forall k :: k in params ==> ("_" + k)[1..] == k;
    map k | k in keys :: params[k[1..]]
  }

  // ---------------------------------------------------------------------------
  // The route table (`compileRoutes`)

  /** The pattern and compiled route of one (expanded, verb-pinned) definition. */
  function CompileRoute(url: string, params: Params): (string, Route)
  {
    var tokens := CompileTokens(ExplodeTokens(url));
    (ImplodeTokens(tokens), Route(tokens, PrefixKeys(params)))
  }

  /** `$routes[$pattern] = ...` for every definition, in order. */
  function BuildTable(defs: Definitions): RouteTable
    decreases |defs|
  {
    if defs == [] then []
    else
      var n := |defs| - 1;
      var entry := CompileRoute(defs[n].0, defs[n].1);
      Put(BuildTable(defs[..n]), entry.0, entry.1)
  }

  /** The route table `compileRoutes` builds from a definition array. */
  function CompiledTable(definitions: Definitions): RouteTable
  {
    BuildTable(CompileVerbs(ExpandRest(definitions)))
  }

  // ---------------------------------------------------------------------------
  // Resolution (`resolve`)

  /** A path is given a leading `/` when it has none. */
  function NormalizePath(path: string): (p: string)
    ensures StartsWith(p, "/")
  {
    if StartsWith(path, "/") then path else "/" + path
  }

  /** The string the patterns are matched against: `path . '/@' . method`. */
  function RequestKey(path: string, verb: string): string
  {
    NormalizePath(path) + "/@" + verb
  }

  /** A group matches a segment that starts with its lead and goes on for at
      least one more character; a literal matches itself. */
  predicate SegmentMatches(patternToken: string, segment: string)
  {
    match ParseCapture(patternToken)
    case Some(head) =>
      var lead := HeadGroup(head).lead;
      |segment| > |lead| && segment[..|lead|] == lead
    case None => patternToken == segment
  }

  /** The anchored pattern matches the request key. */
  predicate TokensMatch(patternTokens: seq<string>, segments: seq<string>)
  {
    |patternTokens| == |segments|
    && forall i :: 0 <= i < |segments| ==> SegmentMatches(patternTokens[i], segments[i])
  }

  /** `preg_match('#^' . $pattern . '$#', $request)` succeeds. */
  predicate RouteMatches(patternTokens: seq<string>, segments: seq<string>)
  {
    PatternCompiles(patternTokens) && TokensMatch(patternTokens, segments)
  }

  /** The (name, segment) pairs of the pattern's groups, left to right. */
  function Captures(patternTokens: seq<string>, segments: seq<string>): (caps: seq<(string, string)>)
    requires |patternTokens| == |segments|
  {
    if patternTokens == [] then []
    else
      var rest := Captures(patternTokens[1..], segments[1..]);
      match ParseCapture(patternTokens[0])
      case Some(head) => [(HeadGroup(head).name, segments[0])] + rest
      case None => rest
  }

  /** The named captures, url-decoded. */
  function NamedCaptures(caps: seq<(string, string)>, decode: string -> string): map<string, string>
    decreases |caps|
  {
    if caps == [] then map[]
    else
      var n := |caps| - 1;
      NamedCaptures(caps[..n], decode)[caps[n].0 := decode(caps[n].1)]
  }

  /** `array_merge($params, array_map('urldecode', $matches))`. */
  function MergeMatches(params: Params, caps: seq<(string, string)>, request: string, decode: string -> string): RouteParams
  {
    RouteParams(params + NamedCaptures(caps, decode),
                [decode(request)] + seq(|caps|, i requires 0 <= i < |caps| => decode(caps[i].1)))
  }

  /** The result of the scan from position `i` of the table on. */
  function ResolveFrom(routes: RouteTable, i: nat, segments: seq<string>, request: string, decode: string -> string): Option<RouteParams>
    decreases |routes| - i
  {
    if i >= |routes| then None
    else
      var route := routes[i].1;
      if RouteMatches(route.tokens, segments)
      then Some(MergeMatches(route.params, Captures(route.tokens, segments), request, decode))
      else ResolveFrom(routes, i + 1, segments, request, decode)
  }

  /** What `resolve($path_info, $request_method)` returns (`None` is `false`). */
  function ResolveIn(routes: RouteTable, path: string, verb: string, decode: string -> string): Option<RouteParams>
  {
    var request := RequestKey(path, verb);
    ResolveFrom(routes, 0, ExplodeTokens(request), request, decode)
  }

  lemma BuildTableStep(defs: Definitions, i: nat)
    requires i < |defs|
    ensures BuildTable(defs[..i + 1])
         == Put(BuildTable(defs[..i]), CompileRoute(defs[i].0, defs[i].1).0, CompileRoute(defs[i].0, defs[i].1).1)
  {
    assert defs[..i + 1][..i] == defs[..i];
  }

  lemma PutActionsStep(live: Definitions, base: seq<string>, params: Params, actions: seq<string>, j: nat)
    requires j < |actions|
    ensures PutActions(live, base, params, actions[..j + 1])
         == Put(PutActions(live, base, params, actions[..j]), RestUrl(base, actions[j]), RestParams(params, actions[j]))
  {
    assert actions[..j + 1][..j] == actions[..j];
  }

  lemma ExpandRestStep(defs: Definitions, i: nat)
    requires i < |defs|
    ensures ExpandRestUpTo(defs, i + 1) == ExpandOne(ExpandRestUpTo(defs, i), defs[i].0, defs[i].1)
  {
  }

  // ---------------------------------------------------------------------------
  // The router object

  class Router {
    /** Compiled once by the constructor and only read afterwards. */
    const routes: RouteTable

    /** `new Router($definitions)` compiles the definitions once. */
    constructor (definitions: Definitions)
      ensures routes == CompiledTable(definitions)
    {
      var table := Router.CompileRoutes(definitions);
      routes := table;
    }

    /** `compileRoutes`. */
    static method CompileRoutes(definitions: Definitions) returns (table: RouteTable)
      ensures table == CompiledTable(definitions)
    {
      var expanded := ExplodeRestAction(definitions);
      var defs := CompileHTTPRequestMethod(expanded);
      table := [];
      var i := 0;
      while i < |defs|
        invariant 0 <= i <= |defs|
        invariant table == BuildTable(defs[..i])
      {
        var url := defs[i].0;
        var params := defs[i].1;
        var tokens := ExplodeTokens(url);
        tokens := CompileDynamicToken(tokens);
        var pattern := ImplodeTokens(tokens);
        var routeParams := SetRouteParams(params);
        BuildTableStep(defs, i);
        table := Put(table, pattern, Route(tokens, routeParams));
        i := i + 1;
      }
      assert defs[..|defs|] == defs;
    }

    /** `resolve`: scan the table in order and return the first match. */
    method Resolve(pathInfo: string, requestMethod: string, decode: string -> string) returns (r: Option<RouteParams>)
      ensures r == ResolveIn(routes, pathInfo, requestMethod, decode)
    {
      var path := pathInfo;
      if !StartsWith(path, "/") {
        path := "/" + path;
      }
      var request := path + "/@" + requestMethod;
      var segments := ExplodeTokens(request);
      var i := 0;
      while i < |routes|
        invariant 0 <= i <= |routes|
        invariant ResolveIn(routes, pathInfo, requestMethod, decode) == ResolveFrom(routes, i, segments, request, decode)
      {
        var route := routes[i].1;
        if RouteMatches(route.tokens, segments) {
          return Some(MergeMatches(route.params, Captures(route.tokens, segments), request, decode));
        }
        i := i + 1;
      }
      return None;
    }

    /** `explodeRestAction`: replace each shorthand definition by one
        definition per action, appended at the end of the array. */
    static method ExplodeRestAction(definitions: Definitions) returns (defs: Definitions)
      ensures defs == ExpandRest(definitions)
    {
      defs := definitions;
      var i := 0;
      while i < |definitions|
        invariant 0 <= i <= |definitions|
        invariant defs == ExpandRestUpTo(definitions, i)
      {
        defs := ExpandDefinition(defs, definitions[i].0, definitions[i].1);
        ExpandRestStep(definitions, i);
        i := i + 1;
      }
    }

    /** One pass of `explodeRestAction`'s outer loop, on the live array. */
    static method ExpandDefinition(live: Definitions, url: string, params: Params) returns (defs: Definitions)
      ensures defs == ExpandOne(live, url, params)
    {
      defs := live;
      var tokens := ExplodeTokens(url);
      if |tokens| > 0 && StartsWith(tokens[|tokens| - 1], "%") {
        var token := tokens[|tokens| - 1];
        if StartsWith(token, "%rest") {
          if token == "%rest" {
            token := token + "[" + RestActionText + "]";
          } else if StartsWith(token, "%rest[") {
            token := ReplaceAll(token, '[', "[" + RestActionText + ",");
          }
        }
        assert token == ExtendRestToken(tokens[|tokens| - 1]);
        var actions := Split(BracketContents(token), ',');
        defs := PutRestActions(live, tokens, params, actions);
        defs := Remove(defs, url);
      }
    }

    /** `explodeRestAction`'s inner loop: for each action, rewrite the last token
        of the template and store the definition under the url it spells. */
    static method PutRestActions(live: Definitions, tokens: seq<string>, params: Params, actions: seq<string>) returns (defs: Definitions)
      requires |tokens| > 0
      ensures defs == PutActions(live, tokens[..|tokens| - 1], params, TrimAll(actions))
    {
      var base := tokens[..|tokens| - 1];
      ghost var names := TrimAll(actions);
      defs := live;
      var j := 0;
      while j < |actions|
        invariant 0 <= j <= |actions|
        invariant defs == PutActions(live, base, params, names[..j])
      {
        var action := Trim(actions[j]);
        assert action == names[j];
        // `$tokens[count($tokens)-1] = getEndToken($action)`
        var url := ImplodeTokens(base + [EndToken(action)]);
        assert url == RestUrl(base, names[j]);
        PutActionsStep(live, base, params, names, j);
        defs := Put(defs, url, params["action" := action]);
        assert defs == PutActions(live, base, params, names[..j + 1]);
        j := j + 1;
      }
      assert names[..|actions|] == names;
    }

    /** `compileDynamicToken`: each `:name` token becomes a named group. */
    static method CompileDynamicToken(tokens: seq<string>) returns (compiled: seq<string>)
      ensures compiled == CompileTokens(tokens)
    {
      compiled := tokens;
      var i := 0;
      while i < |tokens|
        invariant 0 <= i <= |tokens|
        invariant |compiled| == |tokens|
        invariant forall k :: 0 <= k < i ==> compiled[k] == CompileToken(tokens[k])
        invariant forall k :: i <= k < |tokens| ==> compiled[k] == tokens[k]
      {
        var token := tokens[i];
        if StartsWith(token, ":") {
          var name := token[1..];
          token := "(?P<" + name + ">[^/]+)";
        }
        compiled := compiled[i := token];
        i := i + 1;
      }
    }

    /** `compileHTTPRequestMethod`: pin the verb of every definition. */
    static method CompileHTTPRequestMethod(definitions: Definitions) returns (defs: Definitions)
      ensures defs == CompileVerbs(definitions)
    {
      var values := ValuesOf(definitions);
      var urls: seq<string> := [];
      var i := 0;
      while i < |definitions|
        invariant 0 <= i <= |definitions|
        invariant urls == VerbKeys(definitions[..i])
      {
        var url := definitions[i].0;
        if '@' !in url {
          url := url + "@get";
        }
        urls := urls + [ReplaceAll(url, '@', "/@")];
        i := i + 1;
      }
      assert definitions[..|definitions|] == definitions;
      defs := Combine(urls, values);
    }

    /** `setRouteParams`: copy the metadata with `_`-prefixed keys. */
    static method SetRouteParams(params: Params) returns (prefixed: Params)
      ensures prefixed == PrefixKeys(params)
    {
      prefixed := map[];
      var rest := params.Keys;
      while rest != {}
        invariant rest <= params.Keys
        invariant forall k :: k in params && k !in rest ==> "_" + k in prefixed && prefixed["_" + k] == params[k]
        invariant forall k :: k in prefixed ==> |k| >= 1 && k[0] == '_' && k[1..] in params && k[1..] !in rest && prefixed[k] == params[k[1..]]
        decreases rest
      {
        var key :| key in rest;
        assert ("_" + key)[1..] == key;
        prefixed := prefixed["_" + key := params[key]];
        rest := rest - {key};
      }
      var expected := PrefixKeys(params);
      forall k | k in prefixed ensures k in expected && expected[k] == prefixed[k] {
        assert k == "_" + k[1..];
      }
      forall k | k in expected ensures k in prefixed {
        assert k == "_" + k[1..];
      }
      assert prefixed.Keys == expected.Keys;
    }
  }
}
