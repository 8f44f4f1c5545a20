/** The controller base class (core/Controller.php): the life cycle of one
    action (flash migration, existence check, login gate, before hooks, body,
    after hooks), CSRF tokens kept per form in the session, two-tier flash
    messages and redirects.

    An application's controller is described by a `ControllerDef`: its
    `<action>Action` methods as functions of the request parameters, the
    actions that need a login, and its before and after hooks. The hooks'
    own effects are application code; a run records which hooks it called,
    in order, in `trace`. */
module Controllers {
  import opened Wrappers
  import opened PhpStrings
  import opened PhpArrays
  import opened PhpValues
  import opened Sessions
  import opened Requests
  import opened Responses
  import opened Routing

  /** `Controller::FLASH_TYPES`. */
  const FlashTypes: seq<string> := ["primary", "secondary", "success", "danger", "warning", "info", "light", "dark"]
  /** `Controller::CSRF_TOKEN_SAVE_NUM`: tokens remembered per form. */
  const CsrfTokenSaveNum: nat := 10
  /** `Controller::CSRF_TOKEN_EXPIRE`: seconds a token stays valid. */
  const CsrfTokenExpire: int := 1800
  /** `Controller::CSRF_TOKEN_LENGTH`: random bytes per token. */
  const CsrfTokenLength: nat := 32

  /** `$auth_actions`: `true`, an array of actions, or any other value. */
  datatype AuthActions = AuthAll | AuthList(actions: seq<string>) | AuthNone

  /** What an action method reads and writes besides its parameters:
      `$this->flash`, the session data and the response. */
  datatype ActionState = ActionState(flash: OMap<string, Value>, data: SessionData, response: ResponseState)

  /** How an action method ends: it returns its content (null, None, when it
      returns nothing, as a redirecting action does), or it calls `forward404`. */
  datatype ActionEnding = Returned(content: Option<string>) | Forwarded

  /** What an action method leaves behind. */
  datatype ActionEffect = ActionEffect(state: ActionState, ending: ActionEnding)

  /** An `<action>Action` method: from the request, the route parameters and
      the state it starts in, to the state it leaves and how it ends. Its
      writes through `$this->session`, `$this->response` and `$this->flash`
      (`setAuthenticated`, `setFlash`, `redirect`, ...) are in that state. */
  type ActionBody = (ServerRequest, RouteParams, ActionState) -> ActionEffect

  datatype ControllerDef = ControllerDef(
    /** The action methods, keyed by their lower-cased PHP name
        (`showAction` is found under "showaction"): PHP method names are
        case-insensitive. */
    actions: map<string, ActionBody>,
    authActions: AuthActions,
    /** `$before_actions` / `$after_actions`: hook method => actions it runs for. */
    beforeActions: OMap<string, seq<string>>,
    afterActions: OMap<string, seq<string>>)

  /** What a run did, in order. */
  datatype Event = BeforeHook(name: string) | ActionRan(action: string) | AfterHook(name: string)

  /** The outcome of `run`: the returned content (None for null), or the
      exception it threw. */
  datatype RunResult = Content(content: Option<string>) | NotFound(message: string) | Unauthorized

  /** `checkCsrfToken`'s three answers: `[true, null]`, `[false, 'expired']`
      and `[false, 'unauthorized']`. */
  datatype CsrfCheck = Accepted | Expired | Unknown

  // ---------------------------------------------------------------------------
  // Names

  /** `strtolower(substr($class, 0, -strlen('Controller')))`; PHP's substr
      gives "" when the class name is shorter than the suffix. */
  function ControllerName(className: string): (name: string)
    ensures |name| == if |className| >= 10 then |className| - 10 else 0
    ensures forall i :: 0 <= i < |name| ==> !('A' <= name[i] <= 'Z')
    ensures forall i :: 0 <= i < |name| ==> ToLowerChar(name[i]) == ToLowerChar(className[i])
  {
    if |className| >= 10 then ToLower(className[..|className| - 10]) else ""
  }

  /** The name of a class `<X>Controller` is `strtolower(X)`. */
  lemma ControllerNameOfClass(x: string)
    ensures ControllerName(x + "Controller") == ToLower(x)
  {
    assert (x + "Controller")[..|x|] == x;
  }

  /** The key `method_exists` looks the action method up by. */
  function ActionMethod(action: string): string
  {
    ToLower(action + "Action")
  }

  predicate HasAction(def: ControllerDef, action: string)
  {
    ActionMethod(action) in def.actions
  }

  /** `forward404`'s message. */
  function ForwardMessage(controllerName: string, action: string): string
  {
    "Forward 404 page from " + controllerName + "/" + action
  }

  /** The file `View::render` loads for the path `<controller>/<template>`:
      the views directory without trailing slashes, the controller's
      directory, the template and `.php`. */
  function ViewFile(viewDir: string, controllerName: string, template: string): (file: string)
    ensures |file| == |RTrimSlash(viewDir)| + |controllerName| + |template| + 6
    ensures file[..|RTrimSlash(viewDir)| + 1] == RTrimSlash(viewDir) + "/"
    ensures file[|file| - 4..] == ".php"
  {
    var f := RTrimSlash(viewDir) + "/" + controllerName + "/" + template + ".php";
    assert f[..|RTrimSlash(viewDir)| + 1] == RTrimSlash(viewDir) + "/";
    f
  }

  /** The file names the controller and the template: they are the text
      between the directory and `.php`, on either side of a `/`, so distinct
      templates of one controller, or one template of two controllers whose
      names hold no `/`, load distinct files. */
  lemma ViewFileParts(viewDir: string, controllerName: string, template: string)
    ensures var file := ViewFile(viewDir, controllerName, template);
      var d := |RTrimSlash(viewDir)| + 1;
      && file[d..d + |controllerName|] == controllerName
      && file[d + |controllerName|] == '/'
      && file[d + |controllerName| + 1..|file| - 4] == template
  {
    var file := ViewFile(viewDir, controllerName, template);
    var d := |RTrimSlash(viewDir)| + 1;
    assert file == (RTrimSlash(viewDir) + "/") + controllerName + "/" + template + ".php";
  }

  /** A `/` ends the controller part, so two files agree only when their
      controllers (with no `/`) and their templates agree. */
  lemma ViewFileInjective(viewDir: string, c1: string, t1: string, c2: string, t2: string)
    requires '/' !in c1 && '/' !in c2
    requires ViewFile(viewDir, c1, t1) == ViewFile(viewDir, c2, t2)
    ensures c1 == c2 && t1 == t2
  {
    var file := ViewFile(viewDir, c1, t1);
    var d := |RTrimSlash(viewDir)| + 1;
    ViewFileParts(viewDir, c1, t1);
    ViewFileParts(viewDir, c2, t2);
  }

  // ---------------------------------------------------------------------------
  // The action life cycle

  /** `needsAuthentication($action)`. */
  predicate NeedsAuthentication(auth: AuthActions, action: string)
  {
    auth == AuthAll || (auth.AuthList? && action in auth.actions)
  }

  lemma NeedsAuthenticationCases(auth: AuthActions, action: string)
    ensures NeedsAuthentication(auth, action) <==> auth.AuthAll? || (auth.AuthList? && action in auth.actions)
    ensures auth.AuthNone? ==> !NeedsAuthentication(auth, action)
  {
  }

  /** The hooks whose action list holds `action`, in declaration order. */
  function HookNames(hooks: OMap<string, seq<string>>, action: string): (names: seq<string>)
    ensures |names| <= |hooks|
    ensures forall n :: n in names <==> exists i :: 0 <= i < |hooks| && hooks[i].0 == n && action in hooks[i].1
  {
    if hooks == [] then []
    else
      var last := hooks[|hooks| - 1];
      HookNames(hooks[..|hooks| - 1], action) + (if action in last.1 then [last.0] else [])
  }

  /** When every hook applies, all of them run, in declaration order. */
  lemma {:induction false} HookNamesAll(hooks: OMap<string, seq<string>>, action: string)
    requires forall i :: 0 <= i < |hooks| ==> action in hooks[i].1
    ensures HookNames(hooks, action) == KeysOf(hooks)
  {
    if hooks != [] {
      var n := |hooks| - 1;
      HookNamesAll(hooks[..n], action);
      var ks := KeysOf(hooks);
      assert ks == KeysOf(hooks[..n]) + [hooks[n].0];
    }
  }

  function HookEvents(names: seq<string>, before: bool): (events: seq<Event>)
    ensures |events| == |names|
    ensures forall i :: 0 <= i < |names| ==> events[i] == if before then BeforeHook(names[i]) else AfterHook(names[i])
  {
    seq(|names|, i requires 0 <= i < |names| => if before then BeforeHook(names[i]) else AfterHook(names[i]))
  }

  /** Whether `run` gets past its checks and calls the action method: the
      method exists and the action needs no login the session lacks. */
  predicate BodyRuns(def: ControllerDef, action: string, data: SessionData)
  {
    HasAction(def, action) && !(NeedsAuthentication(def.authActions, action) && !Truthy(Authenticated(data)))
  }

  /** What `run($action, $params)` returns or throws once the flash messages
      are migrated into `st`, and the state it leaves: NotFound for a missing
      action method (checked first), Unauthorized when the action needs a
      login the session lacks, both with `st` untouched; else what the action
      method returns, or the NotFound of its `forward404`, with the state the
      method left. */
  function RunOutcome(def: ControllerDef, controllerName: string, action: string, request: ServerRequest, params: RouteParams, st: ActionState): (RunResult, ActionState)
  {
    if !HasAction(def, action) then (NotFound(ForwardMessage(controllerName, action)), st)
    else if NeedsAuthentication(def.authActions, action) && !Truthy(Authenticated(st.data)) then (Unauthorized, st)
    else
      var e := def.actions[ActionMethod(action)](request, params, st);
      match e.ending
      case Returned(c) => (Content(c), e.state)
      case Forwarded => (NotFound(ForwardMessage(controllerName, action)), e.state)
  }

  /** A refused action changes nothing and makes no calls. */
  lemma RefusedOutcome(def: ControllerDef, name: string, action: string, request: ServerRequest, params: RouteParams, st: ActionState)
    requires HasAction(def, action) && NeedsAuthentication(def.authActions, action) && !Truthy(Authenticated(st.data))
    ensures RunOutcome(def, name, action, request, params, st) == (Unauthorized, st)
    ensures RunTrace(def, action, request, params, st) == []
  {
  }

  /** When the action method runs, the outcome and the calls are those of
      its ending. */
  lemma BodyRunOutcome(def: ControllerDef, name: string, action: string, request: ServerRequest, params: RouteParams, st: ActionState)
    requires BodyRuns(def, action, st.data)
    ensures var e := def.actions[ActionMethod(action)](request, params, st);
      && RunOutcome(def, name, action, request, params, st)
         == (if e.ending.Returned? then Content(e.ending.content) else NotFound(ForwardMessage(name, action)), e.state)
      && RunTrace(def, action, request, params, st)
         == HookEvents(HookNames(def.beforeActions, action), true) + [ActionRan(action)]
            + (if e.ending.Forwarded? then [] else HookEvents(HookNames(def.afterActions, action), false))
  {
  }

  /** The calls a run makes: none unless the action method runs; otherwise
      the applicable before hooks, the method, then the applicable after
      hooks, which a `forward404` in the method skips. */
  function RunTrace(def: ControllerDef, action: string, request: ServerRequest, params: RouteParams, st: ActionState): seq<Event>
  {
    if !BodyRuns(def, action, st.data) then []
    else
      var after := if def.actions[ActionMethod(action)](request, params, st).ending.Forwarded? then []
                   else HookEvents(HookNames(def.afterActions, action), false);
      HookEvents(HookNames(def.beforeActions, action), true) + [ActionRan(action)] + after
  }

  /** The existence check comes before the login gate: a missing action is
      NotFound whether or not the session is logged in, and runs nothing. */
  lemma MissingActionFirst(def: ControllerDef, name: string, action: string, request: ServerRequest, params: RouteParams, st: ActionState)
    requires !HasAction(def, action)
    ensures RunOutcome(def, name, action, request, params, st) == (NotFound("Forward 404 page from " + name + "/" + action), st)
    ensures RunTrace(def, action, request, params, st) == []
  {
  }

  /** A protected action without a login is Unauthorized before any hook
      runs, and changes nothing; otherwise the action method runs after the
      before hooks, its ending is the run's, and the after hooks follow
      unless it forwarded to the 404 page. */
  lemma RunCases(def: ControllerDef, name: string, action: string, request: ServerRequest, params: RouteParams, st: ActionState)
    requires HasAction(def, action)
    ensures NeedsAuthentication(def.authActions, action) && !Truthy(Authenticated(st.data))
      <==> RunOutcome(def, name, action, request, params, st).0 == Unauthorized
    ensures RunOutcome(def, name, action, request, params, st).0 == Unauthorized ==>
      RunOutcome(def, name, action, request, params, st).1 == st && RunTrace(def, action, request, params, st) == []
    ensures RunOutcome(def, name, action, request, params, st).0 != Unauthorized ==>
      var e := def.actions[ActionMethod(action)](request, params, st);
      var t := RunTrace(def, action, request, params, st);
      var k := |HookNames(def.beforeActions, action)|;
      && RunOutcome(def, name, action, request, params, st).1 == e.state
      && (e.ending.Returned? ==> RunOutcome(def, name, action, request, params, st).0 == Content(e.ending.content))
      && (e.ending.Forwarded? ==> RunOutcome(def, name, action, request, params, st).0 == NotFound(ForwardMessage(name, action)))
      && k < |t| && t[k] == ActionRan(action)
      && (forall i :: 0 <= i < k ==> t[i].BeforeHook?)
      && (forall i :: k < i < |t| ==> t[i].AfterHook?)
      && (e.ending.Forwarded? ==> |t| == k + 1)
  {
  }

  /** Two session data agree on a key: both lack it, or both hold the same value. */
  predicate Agree(d1: SessionData, d2: SessionData, key: string)
  {
    (key in d1 <==> key in d2) && (key in d1 ==> d1[key] == d2[key])
  }

  /** An action method that never writes `key`, whatever it is given. */
  ghost predicate KeepsKey(body: ActionBody, key: string)
  {
    forall request: ServerRequest, params: RouteParams, st: ActionState :: Agree(st.data, body(request, params, st).state.data, key)
  }

  /** `run` writes the session only through the action method: after the
      migration, a key the method does not write reads as before. */
  lemma RunFrame(def: ControllerDef, name: string, action: string, request: ServerRequest, params: RouteParams, st: ActionState, key: string)
    requires HasAction(def, action) ==> KeepsKey(def.actions[ActionMethod(action)], key)
    ensures Agree(st.data, RunOutcome(def, name, action, request, params, st).1.data, key)
    ensures !BodyRuns(def, action, st.data) ==> RunOutcome(def, name, action, request, params, st).1 == st
  {
    if BodyRuns(def, action, st.data) {
      var body := def.actions[ActionMethod(action)];
      assert Agree(st.data, body(request, params, st).state.data, key);
    }
  }

  // ---------------------------------------------------------------------------
  // Flash messages

  function FlashKey(flashType: string): string
  {
    "flash/" + flashType
  }

  lemma FlashKeyInjective(a: string, b: string)
    ensures FlashKey(a) == FlashKey(b) ==> a == b
  {
    if FlashKey(a) == FlashKey(b) {
      assert a == FlashKey(a)[6..];
      assert b == FlashKey(b)[6..];
    }
  }

  /** The login key is not a flash key. */
  lemma AuthKeyNotFlash(t: string)
    ensures AuthKey != FlashKey(t)
  {
    assert AuthKey[0] != FlashKey(t)[0];
  }

  /** `sessionFlashData2flash` over the types `types`: each set
      `flash/<type>` entry moves into `$flash[type]` and leaves the session. */
  function MigrateFlash(flash: OMap<string, Value>, data: SessionData, types: seq<string>): (OMap<string, Value>, SessionData)
  {
    if types == [] then (flash, data)
    else
      var (f, d) := MigrateFlash(flash, data, types[..|types| - 1]);
      var t := types[|types| - 1];
      if IsSetIn(d, FlashKey(t)) then (Put(f, t, d[FlashKey(t)]), UnsetKey(d, FlashKey(t))) else (f, d)
  }

  /** Migration touches no session key but the flash keys of `types`. */
  lemma {:induction false} MigrateKeepsOthers(flash: OMap<string, Value>, data: SessionData, types: seq<string>, key: string)
    requires forall i :: 0 <= i < |types| ==> key != FlashKey(types[i])
    ensures key in MigrateFlash(flash, data, types).1 <==> key in data
    ensures key in data ==> MigrateFlash(flash, data, types).1[key] == data[key]
  {
    if types != [] {
      MigrateKeepsOthers(flash, data, types[..|types| - 1], key);
    }
  }

  /** After migration no flash key of `types` is set in the session. */
  lemma {:induction false} MigrateClears(flash: OMap<string, Value>, data: SessionData, types: seq<string>, j: nat)
    requires j < |types|
    requires forall a, b :: 0 <= a < b < |types| ==> types[a] != types[b]
    ensures !IsSetIn(MigrateFlash(flash, data, types).1, FlashKey(types[j]))
  {
    var n := |types| - 1;
    var (f, d) := MigrateFlash(flash, data, types[..n]);
    if j < n {
      MigrateClears(flash, data, types[..n], j);
      FlashKeyInjective(types[j], types[n]);
    }
  }

  /** After migration `$flash[type]` holds what the session held under
      `flash/<type>`, for every set one; the others keep their old value. */
  lemma {:induction false} MigrateMoves(flash: OMap<string, Value>, data: SessionData, types: seq<string>, j: nat)
    requires j < |types|
    requires forall a, b :: 0 <= a < b < |types| ==> types[a] != types[b]
    ensures var t := types[j];
      Get(MigrateFlash(flash, data, types).0, t) == if IsSetIn(data, FlashKey(t)) then Some(data[FlashKey(t)]) else Get(flash, t)
  {
    var n := |types| - 1;
    var t := types[j];
    var (f, d) := MigrateFlash(flash, data, types[..n]);
    if j < n {
      MigrateMoves(flash, data, types[..n], j);
      if IsSetIn(d, FlashKey(types[n])) {
        PutGetOther(f, types[n], d[FlashKey(types[n])], t);
      }
    } else {
      forall i | 0 <= i < n ensures FlashKey(t) != FlashKey(types[..n][i]) {
        FlashKeyInjective(t, types[i]);
      }
      MigrateKeepsOthers(flash, data, types[..n], FlashKey(t));
      if !IsSetIn(data, FlashKey(t)) {
        assert t !in types[..n];
        MigrateAbsent(flash, data, types[..n], t);
      } else {
        PutGetSame(f, t, d[FlashKey(t)]);
      }
    }
  }

  /** A type not migrated keeps its `$flash` entry. */
  lemma {:induction false} MigrateAbsent(flash: OMap<string, Value>, data: SessionData, types: seq<string>, t: string)
    requires t !in types
    ensures Get(MigrateFlash(flash, data, types).0, t) == Get(flash, t)
  {
    if types != [] {
      var n := |types| - 1;
      MigrateAbsent(flash, data, types[..n], t);
      var (f, d) := MigrateFlash(flash, data, types[..n]);
      if IsSetIn(d, FlashKey(types[n])) {
        PutGetOther(f, types[n], d[FlashKey(types[n])], t);
      }
    }
  }

  /** Migration keeps the login state. */
  lemma MigrateKeepsLogin(flash: OMap<string, Value>, data: SessionData)
    ensures Authenticated(MigrateFlash(flash, data, FlashTypes).1) == Authenticated(data)
  {
    forall i | 0 <= i < |FlashTypes| ensures AuthKey != FlashKey(FlashTypes[i]) {
      AuthKeyNotFlash(FlashTypes[i]);
    }
    MigrateKeepsOthers(flash, data, FlashTypes, AuthKey);
  }

  lemma FlashTypesDistinct()
    ensures forall a, b :: 0 <= a < b < |FlashTypes| ==> FlashTypes[a] != FlashTypes[b]
  {
  }

  /** A message stored by `setFlash` on one request is in `$flash` on the
      next request's migration and gone again on the one after. */
  lemma FlashLivesOneRequest(data: SessionData, j: nat, message: string)
    requires j < |FlashTypes|
    ensures var t := FlashTypes[j];
      var (f1, d1) := MigrateFlash([], data[FlashKey(t) := Str(message)], FlashTypes);
      && Get(f1, t) == Some(Str(message))
      && Get(MigrateFlash([], d1, FlashTypes).0, t) == None
  {
    var t := FlashTypes[j];
    var d0 := data[FlashKey(t) := Str(message)];
    FlashTypesDistinct();
    MigrateMoves([], d0, FlashTypes, j);
    var (f1, d1) := MigrateFlash([], d0, FlashTypes);
    MigrateClears([], d0, FlashTypes, j);
    MigrateMoves([], d1, FlashTypes, j);
  }

  /** `setFlash`/`setFlashNow`'s InvalidArgumentException message. */
  function InvalidFlashType(flashType: string): string
  {
    "ERROR: Flash message type is invalid." + flashType
  }

  // ---------------------------------------------------------------------------
  // CSRF tokens

  /** The ValueError `random_bytes` throws for a length below 1. */
  const RandomLengthError: string := "random_bytes(): Argument #1 ($length) must be greater than 0"

  function CsrfKey(formName: string): string
  {
    "csrf_tokens/" + formName
  }

  /** `session->get($key, array())` as a token list; None when the session
      holds something else there, on which `count` and `array_column` throw
      a TypeError. */
  function StoredTokens(data: SessionData, key: string): Option<seq<CsrfEntry>>
  {
    match Lookup(data, key, TokenList([]))
    case TokenList(entries) => Some(entries)
    case _ => None
  }

  /** `generateCsrfToken`'s list update: drop the oldest when ten are kept,
      then append the new one. */
  function IssueToken(tokens: seq<CsrfEntry>, token: string, now: int): (r: seq<CsrfEntry>)
    ensures |r| >= 1 && r[|r| - 1] == CsrfEntry(token, now)
    ensures |tokens| <= CsrfTokenSaveNum ==> |r| <= CsrfTokenSaveNum
    ensures |tokens| < CsrfTokenSaveNum ==> r == tokens + [CsrfEntry(token, now)]
    ensures |tokens| >= CsrfTokenSaveNum ==> r == tokens[1..] + [CsrfEntry(token, now)]
  {
    (if |tokens| >= CsrfTokenSaveNum then tokens[1..] else tokens) + [CsrfEntry(token, now)]
  }

  /** `array_search($token, array_column($tokens, 'token'), true)`: the first
      position holding the token, or `|tokens|`. */
  function TokenIndex(tokens: seq<CsrfEntry>, token: string): (i: nat)
    ensures i <= |tokens|
    ensures i < |tokens| ==> tokens[i].token == token
    ensures forall j :: 0 <= j < i ==> tokens[j].token != token
  {
    if tokens == [] then 0
    else if tokens[0].token == token then 0
    else 1 + TokenIndex(tokens[1..], token)
  }

  /** `unset($tokens[$pos])` followed by `array_values`. */
  function RemoveAt(s: seq<CsrfEntry>, i: nat): (r: seq<CsrfEntry>)
    requires i < |s|
    ensures |r| == |s| - 1
    ensures forall j :: 0 <= j < i ==> r[j] == s[j]
    ensures forall j :: i <= j < |r| ==> r[j] == s[j + 1]
  {
    s[..i] + s[i + 1..]
  }

  /** `checkCsrfToken`'s answer. */
  function CheckOutcome(tokens: seq<CsrfEntry>, token: string, now: int, expire: int): CsrfCheck
  {
    var pos := TokenIndex(tokens, token);
    if pos == |tokens| then Unknown
    else if now - tokens[pos].issuedAt < expire then Accepted
    else Expired
  }

  /** The session after `checkCsrfToken`: unchanged for an unknown token,
      the form's list gone after an accepted one, and only the matched entry
      gone after an expired one. */
  function DataAfterCheck(data: SessionData, key: string, tokens: seq<CsrfEntry>, token: string, now: int, expire: int): SessionData
  {
    var pos := TokenIndex(tokens, token);
    match CheckOutcome(tokens, token, now, expire)
    case Unknown => data
    case Accepted => data - {key}
    case Expired => data[key := TokenList(RemoveAt(tokens, pos))]
  }

  /** A token just issued is found last in the list, once the earlier
      entries hold other tokens. */
  lemma {:induction false} TokenIndexLast(tokens: seq<CsrfEntry>, e: CsrfEntry)
    requires forall j :: 0 <= j < |tokens| ==> tokens[j].token != e.token
    ensures TokenIndex(tokens + [e], e.token) == |tokens|
  {
    if tokens != [] {
      assert (tokens + [e])[1..] == tokens[1..] + [e];
      TokenIndexLast(tokens[1..], e);
    }
  }

  /** A fresh token checked after issue is accepted exactly while it has lived
      less than `expire` seconds; otherwise it is expired. */
  lemma IssueThenCheck(tokens: seq<CsrfEntry>, token: string, issued: int, now: int, expire: int)
    requires forall j :: 0 <= j < |tokens| ==> tokens[j].token != token
    ensures CheckOutcome(IssueToken(tokens, token, issued), token, now, expire) == if now - issued < expire then Accepted else Expired
  {
    var kept := if |tokens| >= CsrfTokenSaveNum then tokens[1..] else tokens;
    assert forall j :: 0 <= j < |kept| ==> kept[j].token != token;
    TokenIndexLast(kept, CsrfEntry(token, issued));
  }

  /** An accepted token cannot be used twice: the form's list is gone, so any
      second check of any token is Unknown. */
  lemma AcceptedOnce(data: SessionData, key: string, tokens: seq<CsrfEntry>, token: string, now: int, expire: int, again: string, later: int)
    requires CheckOutcome(tokens, token, now, expire) == Accepted
    ensures StoredTokens(DataAfterCheck(data, key, tokens, token, now, expire), key) == Some([])
    ensures CheckOutcome([], again, later, expire) == Unknown
  {
  }

  /** An expired token is dropped: with distinct tokens, checking it again
      gives Unknown, and the other entries stay in order. */
  lemma ExpiredDropped(data: SessionData, key: string, tokens: seq<CsrfEntry>, token: string, now: int, expire: int, later: int)
    requires forall a, b :: 0 <= a < b < |tokens| ==> tokens[a].token != tokens[b].token
    requires CheckOutcome(tokens, token, now, expire) == Expired
    ensures var rest := RemoveAt(tokens, TokenIndex(tokens, token));
      && StoredTokens(DataAfterCheck(data, key, tokens, token, now, expire), key) == Some(rest)
      && CheckOutcome(rest, token, later, expire) == Unknown
  {
    var pos := TokenIndex(tokens, token);
    var rest := RemoveAt(tokens, pos);
    forall j | 0 <= j < |rest| ensures rest[j].token != token {
      if j >= pos {
        assert rest[j] == tokens[j + 1];
      }
    }
    TokenIndexNone(rest, token);
  }

  lemma {:induction false} TokenIndexNone(tokens: seq<CsrfEntry>, token: string)
    requires forall j :: 0 <= j < |tokens| ==> tokens[j].token != token
    ensures TokenIndex(tokens, token) == |tokens|
  {
    if tokens != [] {
      TokenIndexNone(tokens[1..], token);
    }
  }

  // ---------------------------------------------------------------------------
  // Redirects

  /** `preg_match('#https?://#', $url)`: the URL holds `http://` or `https://`. */
  predicate IsAbsoluteUrl(url: string)
  {
    Contains(url, "http://") || Contains(url, "https://")
  }

  /** The `Location` `redirect($url)` sets: an absolute URL as it is, anything
      else under the current protocol, host and base URL. */
  function RedirectTarget(r: ServerRequest, url: string): (target: string)
    ensures IsAbsoluteUrl(url) ==> target == url
    ensures !IsAbsoluteUrl(url) ==> target == (if IsSel(r) then "https://" else "http://") + GetHost(r) + GetBaseUrl(r) + url
  {
    if IsAbsoluteUrl(url) then url
    else (if IsSel(r) then "https://" else "http://") + GetHost(r) + GetBaseUrl(r) + url
  }

  /** The response after `redirect($url)`: 302 Found and `Location` set to
      the target; the content stays. */
  function Redirected(r: ServerRequest, s: ResponseState, url: string): (t: ResponseState)
    ensures t.statusCode == 302 && t.statusText == "Found" && t.content == s.content
    ensures Get(t.headers, "Location") == Some(RedirectTarget(r, url))
    ensures forall h :: h != "Location" ==> Get(t.headers, h) == Get(s.headers, h)
  {
    PutGetSame(s.headers, "Location", RedirectTarget(r, url));
    PutKeepsOthers(s.headers, "Location", RedirectTarget(r, url));
    s.(statusCode := 302, statusText := "Found", headers := Put(s.headers, "Location", RedirectTarget(r, url)))
  }

  lemma PutKeepsOthers(headers: OMap<string, string>, name: string, value: string)
    ensures forall h :: h != name ==> Get(Put(headers, name, value), h) == Get(headers, h)
  {
    forall h | h != name ensures Get(Put(headers, name, value), h) == Get(headers, h) {
      PutGetOther(headers, name, value, h);
    }
  }

  /** A redirect sends `302 Found` and the line `Location: <target>`. */
  lemma RedirectSent(r: ServerRequest, s: ResponseState, url: string)
    ensures Output(Redirected(r, s, url))[0] == StatusLine(302, "Found")
    ensures "Location: " + RedirectTarget(r, url) in Output(Redirected(r, s, url))[1..]
  {
    var s' := s.(statusCode := 302, statusText := "Found");
    var target := RedirectTarget(r, url);
    assert Redirected(r, s, url) == s'.(headers := Put(s'.headers, "Location", target));
    HeaderSent(s', "Location", target);
    LocationLine();
  }

  /** The header line `HeaderSent` speaks of is built as `name + ": " +
      value`; this joins its first two pieces into the `Location: ` the
      redirect's postcondition names, a step the solver does not take on
      string literals by itself. */
  lemma LocationLine()
    ensures "Location" + ": " == "Location: "
  {
  }

  /** A sign-in handler as an action method: `setAuthenticated(true)`,
      `setFlash('success', $message)`, `redirect($url)`, and no return value. */
  function SignIn(message: string, url: string): ActionBody
  {
    (request: ServerRequest, params: RouteParams, st: ActionState) =>
      ActionEffect(st.(data := st.data[AuthKey := Bool(true)][FlashKey("success") := Str(message)],
                       response := Redirected(request, st.response, url)),
                   Returned(None))
  }

  /** Running the sign-in handler: the content is null, the user is logged
      in, the message waits for the next request and the response is the
      redirect; `$flash` is left alone. */
  lemma SignInRuns(def: ControllerDef, name: string, action: string, request: ServerRequest, params: RouteParams, st: ActionState, message: string, url: string)
    requires HasAction(def, action) && !NeedsAuthentication(def.authActions, action)
    requires def.actions[ActionMethod(action)] == SignIn(message, url)
    ensures var (r, st') := RunOutcome(def, name, action, request, params, st);
      && r == Content(None) && st'.flash == st.flash && st'.response == Redirected(request, st.response, url)
      && Truthy(Authenticated(st'.data)) && Lookup(st'.data, FlashKey("success")) == Str(message)
  {
    var data' := st.data[AuthKey := Bool(true)][FlashKey("success") := Str(message)];
    assert def.actions[ActionMethod(action)](request, params, st).state.data == data';
    AuthKeyNotFlash("success");
    assert data'[AuthKey] == Bool(true);
  }

  /** Every redirect target is absolute, so redirecting to it again keeps it. */
  lemma RedirectAbsolute(r: ServerRequest, url: string)
    ensures IsAbsoluteUrl(RedirectTarget(r, url))
    ensures RedirectTarget(r, RedirectTarget(r, url)) == RedirectTarget(r, url)
  {
    var t := RedirectTarget(r, url);
    if !IsAbsoluteUrl(url) {
      var protocol := if IsSel(r) then "https://" else "http://";
      assert t == protocol + (GetHost(r) + GetBaseUrl(r) + url);
      assert t[..|protocol|] == protocol;
      assert StartsWith(t, protocol);
    }
  }

  // ---------------------------------------------------------------------------
  // The controller object

  class Controller {
    const controllerName: string
    const def: ControllerDef
    const request: ServerRequest
    const session: Session
    const response: Response
    /** `$application->getViewDir()`. */
    const viewDir: string
    var actionName: string
    var flash: OMap<string, Value>
    var trace: seq<Event>

    /** `new <X>Controller($application)`: the name is derived from the class. */
    constructor (className: string, def: ControllerDef, request: ServerRequest, session: Session, response: Response, viewDir: string)
      ensures controllerName == ControllerName(className)
      ensures this.def == def && this.request == request && this.session == session && this.response == response
      ensures this.viewDir == viewDir
      ensures actionName == "" && flash == [] && trace == []
    {
      controllerName := ControllerName(className);
      this.def := def;
      this.request := request;
      this.session := session;
      this.response := response;
      this.viewDir := viewDir;
      actionName := "";
      flash := [];
      trace := [];
    }

    /** What an action method of this controller sees and writes. */
    function State(): ActionState
      reads this, session.state, response
    {
      ActionState(flash, session.state.data, response.State())
    }

    /** `run($action, $params)`. */
    method Run(action: string, params: RouteParams) returns (r: RunResult)
      requires session.state.Valid()
      modifies this, session.state, response
      ensures session.state.Valid() && session.state.Flags() == old(session.state.Flags())
      ensures actionName == action
      ensures var (f, d) := MigrateFlash(old(flash), old(session.state.data), FlashTypes);
        var st := ActionState(f, d, old(response.State()));
        && (r, State()) == RunOutcome(def, controllerName, action, request, params, st)
        && trace == old(trace) + RunTrace(def, action, request, params, st)
    {
      actionName := action;
      SessionFlashData2Flash();
      r := CheckAndRun(action, params);
    }

    /** The part of `run` after the flash migration: the existence check,
        then the login gate, then the hooks and the action method. */
    method CheckAndRun(action: string, params: RouteParams) returns (r: RunResult)
      requires session.state.Valid()
      modifies this`trace, this`flash, session.state, response
      ensures session.state.Valid() && session.state.Flags() == old(session.state.Flags())
      ensures (r, State()) == RunOutcome(def, controllerName, action, request, params, old(State()))
      ensures trace == old(trace) + RunTrace(def, action, request, params, old(State()))
    {
      var actionMethod := ToLower(action + "Action");
      if actionMethod !in def.actions {
        MissingActionFirst(def, controllerName, action, request, params, State());
        return NotFound(ForwardMessage(controllerName, action));
      }
      if NeedsAuthentication(def.authActions, action) && !Truthy(session.IsAuthenticated()) {
        RefusedOutcome(def, controllerName, action, request, params, State());
        return Unauthorized;
      }
      BodyRunOutcome(def, controllerName, action, request, params, State());
      r := RunAction(actionMethod, action, params);
    }

    /** The part of `run` after the checks: before hooks, the action method,
        after hooks; a `forward404` in the method ends the run there. */
    method RunAction(actionMethod: string, action: string, params: RouteParams) returns (r: RunResult)
      requires actionMethod == ActionMethod(action) && actionMethod in def.actions
      requires session.state.Valid()
      modifies this`trace, this`flash, session.state, response
      ensures session.state.Valid() && session.state.Flags() == old(session.state.Flags())
      ensures var e := def.actions[actionMethod](request, params, old(State()));
        && State() == e.state
        && r == (if e.ending.Returned? then Content(e.ending.content) else NotFound(ForwardMessage(controllerName, action)))
        && trace == old(trace) + HookEvents(HookNames(def.beforeActions, action), true) + [ActionRan(action)]
             + (if e.ending.Forwarded? then [] else HookEvents(HookNames(def.afterActions, action), false))
    {
      RunHooks(def.beforeActions, action, true);
      var e := def.actions[actionMethod](request, params, State());
      trace := trace + [ActionRan(action)];
      Perform(e.state);
      if e.ending.Forwarded? {
        return NotFound(ForwardMessage(controllerName, action));
      }
      RunHooks(def.afterActions, action, false);
      return Content(e.ending.content);
    }

    /** The action method's writes through `$this->flash`, `$this->session`
        and `$this->response`. */
    method Perform(st: ActionState)
      requires session.state.Valid()
      modifies this`flash, session.state, response
      ensures session.state.Valid() && session.state.Flags() == old(session.state.Flags())
      ensures State() == st
    {
      flash := st.flash;
      session.state.data := st.data;
      response.statusCode := st.response.statusCode;
      response.statusText := st.response.statusText;
      response.headers := st.response.headers;
      response.content := st.response.content;
    }

    /** The `foreach` over `$before_actions` or `$after_actions`: call each
        hook whose list holds the action. */
    method RunHooks(hooks: OMap<string, seq<string>>, action: string, before: bool)
      modifies this`trace
      ensures trace == old(trace) + HookEvents(HookNames(hooks, action), before)
    {
      var i := 0;
      while i < |hooks|
        invariant 0 <= i <= |hooks|
        invariant trace == old(trace) + HookEvents(HookNames(hooks[..i], action), before)
      {
        var name := hooks[i].0;
        var actions := hooks[i].1;
        assert hooks[..i + 1][..i] == hooks[..i];
        if action in actions {
          trace := trace + [if before then BeforeHook(name) else AfterHook(name)];
        }
        i := i + 1;
      }
      assert hooks[..|hooks|] == hooks;
    }

    /** `render($variables, $template)`, up to the view: the file
        `View::render` loads, the template defaulting to the action name. */
    function RenderFile(template: Option<string> := None): (file: string)
      reads this
      ensures file == ViewFile(viewDir, controllerName, template.GetOr(actionName))
    {
      ViewFile(viewDir, controllerName, if template.None? then actionName else template.value)
    }

    /** `redirect($url)`: 302 Found with the target in `Location`. */
    method Redirect(url: string)
      modifies response
      ensures response.State() == Redirected(request, old(response.State()), url)
    {
      var target := url;
      if !(Contains(target, "http://") || Contains(target, "https://")) {
        var protocol := if IsSel(request) then "https://" else "http://";
        var host := GetHost(request);
        var baseUrl := GetBaseUrl(request);
        target := protocol + host + baseUrl + target;
      }
      response.SetStatusCode(302, "Found");
      response.SetHttpHeader("Location", target);
    }

    /** `generateCsrfToken($form_name, $token_length)`; `randomBytes` are the
        bytes `random_bytes($token_length)` returned and `now` the current time.
        A length below 1 makes `random_bytes` throw before anything is stored. */
    method GenerateCsrfToken(formName: string, randomBytes: seq<byte>, now: int, tokenLength: int := CsrfTokenLength)
      returns (r: Result<string, string>)
      requires tokenLength < 1 || |randomBytes| == tokenLength
      requires session.state.Valid()
      modifies session.state
      ensures session.state.Valid() && session.state.Flags() == old(session.state.Flags())
      ensures StoredTokens(old(session.state.data), CsrfKey(formName)).None? ==>
        r.Err? && session.state.data == old(session.state.data)
      ensures StoredTokens(old(session.state.data), CsrfKey(formName)).Some? && tokenLength < 1 ==>
        r == Err(RandomLengthError) && session.state.data == old(session.state.data)
      ensures StoredTokens(old(session.state.data), CsrfKey(formName)).Some? && tokenLength >= 1 ==>
        && r == Ok(Bin2Hex(randomBytes))
        && session.state.data == old(session.state.data)[CsrfKey(formName) :=
             TokenList(IssueToken(StoredTokens(old(session.state.data), CsrfKey(formName)).value, Bin2Hex(randomBytes), now))]
      ensures r.Ok? ==> |r.value| == 2 * tokenLength
    {
      var key := "csrf_tokens/" + formName;
      var stored := session.Get(key, TokenList([]));
      if !stored.TokenList? {
        return Err("TypeError: count(): Argument #1 ($value) must be of type Countable|array");
      }
      var tokens := stored.entries;
      if |tokens| >= CsrfTokenSaveNum {
        tokens := tokens[1..];
      }
      if tokenLength < 1 {
        return Err(RandomLengthError);
      }
      var token := Bin2Hex(randomBytes);
      tokens := tokens + [CsrfEntry(token, now)];
      session.Set(key, TokenList(tokens));
      return Ok(token);
    }

    /** `checkCsrfToken($form_name, $token, $expire)` at time `now`. */
    method CheckCsrfToken(formName: string, token: string, now: int, expire: int := CsrfTokenExpire)
      returns (r: Result<CsrfCheck, string>)
      requires session.state.Valid()
      modifies session.state
      ensures session.state.Valid() && session.state.Flags() == old(session.state.Flags())
      ensures StoredTokens(old(session.state.data), CsrfKey(formName)).None? ==>
        r.Err? && session.state.data == old(session.state.data)
      ensures StoredTokens(old(session.state.data), CsrfKey(formName)).Some? ==>
        var tokens := StoredTokens(old(session.state.data), CsrfKey(formName)).value;
        && r == Ok(CheckOutcome(tokens, token, now, expire))
        && session.state.data == DataAfterCheck(old(session.state.data), CsrfKey(formName), tokens, token, now, expire)
    {
      var key := "csrf_tokens/" + formName;
      var stored := session.Get(key, TokenList([]));
      if !stored.TokenList? {
        return Err("TypeError: array_column(): Argument #1 ($array) must be of type array");
      }
      var tokens := stored.entries;
      var pos := TokenIndex(tokens, token);
      if pos < |tokens| {
        var tokenTime := tokens[pos].issuedAt;
        var rest := tokens[..pos] + tokens[pos + 1..];
        session.Set(key, TokenList(rest));
        if now - tokenTime < expire {
          session.Unset(key);
          return Ok(Accepted);
        }
        return Ok(Expired);
      }
      return Ok(Unknown);
    }

    /** `setFlashNow($type, $message)`: show the message in this response and
        drop any persisted one of that type. */
    method SetFlashNow(flashType: string, message: string) returns (r: Result<(), string>)
      requires session.state.Valid()
      modifies this`flash, session.state
      ensures session.state.Valid() && session.state.Flags() == old(session.state.Flags())
      ensures flashType in FlashTypes ==>
        r.Ok? && flash == Put(old(flash), flashType, Str(message))
        && session.state.data == UnsetKey(old(session.state.data), FlashKey(flashType))
      ensures flashType !in FlashTypes ==>
        r == Err(InvalidFlashType(flashType)) && flash == old(flash) && session.state.data == old(session.state.data)
    {
      if flashType in FlashTypes {
        flash := Put(flash, flashType, Str(message));
        session.Unset("flash/" + flashType);
        return Ok(());
      }
      return Err("ERROR: Flash message type is invalid." + flashType);
    }

    /** `setFlash($type, $message)`: persist the message for the next request. */
    method SetFlash(flashType: string, message: string) returns (r: Result<(), string>)
      requires session.state.Valid()
      modifies session.state
      ensures session.state.Valid() && session.state.Flags() == old(session.state.Flags())
      ensures flashType in FlashTypes ==>
        r.Ok? && session.state.data == old(session.state.data)[FlashKey(flashType) := Str(message)]
      ensures flashType !in FlashTypes ==>
        r == Err(InvalidFlashType(flashType)) && session.state.data == old(session.state.data)
    {
      if flashType in FlashTypes {
        session.Set("flash/" + flashType, Str(message));
        return Ok(());
      }
      return Err("ERROR: Flash message type is invalid." + flashType);
    }

    /** `sessionFlashData2flash()`. */
    method SessionFlashData2Flash()
      requires session.state.Valid()
      modifies this`flash, session.state
      ensures session.state.Valid() && session.state.Flags() == old(session.state.Flags())
      ensures (flash, session.state.data) == MigrateFlash(old(flash), old(session.state.data), FlashTypes)
    {
      var i := 0;
      while i < |FlashTypes|
        invariant 0 <= i <= |FlashTypes|
        invariant session.state.Valid() && session.state.Flags() == old(session.state.Flags())
        invariant (flash, session.state.data) == MigrateFlash(old(flash), old(session.state.data), FlashTypes[..i])
      {
        var flashType := FlashTypes[i];
        var key := "flash/" + flashType;
        assert FlashTypes[..i + 1][..i] == FlashTypes[..i];
        if session.IsSet(key) {
          flash := Put(flash, flashType, session.Get(key));
          session.Unset(key);
        }
        i := i + 1;
      }
      assert FlashTypes[..|FlashTypes|] == FlashTypes;
    }
  }
}
