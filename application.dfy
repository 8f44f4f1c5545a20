/** The application (core/Application.php): the directory layout, and the
    dispatch of one request through the router, the controller registry and
    the controller, with the 404 page for a missing route or controller and
    the re-dispatch to the login action for an unauthorized one. Exceptions
    are result values: `NotFound` for HttpNotFoundException, `Unauthorized`
    for UnauthorizedActionException. */
module Applications {
  import opened Wrappers
  import opened PhpArrays
  import opened PhpStrings
  import opened PhpValues
  import opened Sessions
  import opened Requests
  import opened Responses
  import opened Routing
  import opened Controllers
  import opened DbManagers

  /** What a concrete application supplies: the debug flag, `getRootDir()`,
      the controller classes it can load (standing for `findController`),
      `$login_action`, the URL decoder and the rendering of the 404 view
      from its message. */
  datatype AppConfig = AppConfig(
    debug: bool,
    rootDir: string,
    registry: map<string, ControllerDef>,
    loginAction: map<string, string>,
    decode: string -> string,
    renderNotFound: string -> string)

  /** How `run()` ends: the response was sent (the lines written), or an
      exception thrown by the login re-dispatch escaped and nothing was sent. */
  datatype AppResult = Sent(lines: seq<string>) | Uncaught(error: RunResult)

  // ---------------------------------------------------------------------------
  // Directories

  function ControllerDir(root: string): string { root + "/app/controllers" }
  function ViewDir(root: string): string { root + "/app/views" }
  function ModelDir(root: string): string { root + "/app/models" }
  function WebDir(root: string): string { root + "/web" }

  /** Each directory lies under the root, and the four are different. */
  lemma DirectoriesUnderRoot(root: string)
    ensures StartsWith(ControllerDir(root), root + "/app/") && StartsWith(ViewDir(root), root + "/app/")
    ensures StartsWith(ModelDir(root), root + "/app/") && StartsWith(WebDir(root), root + "/")
    ensures |{ControllerDir(root), ViewDir(root), ModelDir(root), WebDir(root)}| == 4
  {
    var c, v, m, w := ControllerDir(root), ViewDir(root), ModelDir(root), WebDir(root);
    var n := |root|;
    assert c[..n + 5] == root + "/app/" && v[..n + 5] == root + "/app/" && m[..n + 5] == root + "/app/";
    assert w[..n + 1] == root + "/";
    assert c[n + 5] == 'c' && v[n + 5] == 'v' && m[n + 5] == 'm';
    assert w[n + 1] == 'w' && c[n + 1] == 'a';
    assert c != v && c != m && v != m && w != c && w != v && w != m;
  }

  // ---------------------------------------------------------------------------
  // Dispatch as a function of the request and the session

  /** `ucfirst($controller_name) . 'Controller'`. */
  function ControllerClass(controllerName: string): string
  {
    Ucfirst(controllerName) + "Controller"
  }

  /** The controller made for a name carries that name, lower-cased, so its
      views are looked up under the name the route gave. */
  lemma ControllerClassName(controllerName: string)
    ensures ControllerName(ControllerClass(controllerName)) == ToLower(controllerName)
  {
    ControllerNameOfClass(Ucfirst(controllerName));
    LowerUcfirst(controllerName);
  }

  /** `$array[$key]` read as a string: a missing entry is null, i.e. "". */
  function ParamOr(m: map<string, string>, key: string): (v: string)
    ensures key in m ==> v == m[key]
    ensures key !in m ==> v == ""
  {
    if key in m then m[key] else ""
  }

  /** The message of the exception for a request no route matches
      (`false` concatenates as ""). */
  function NoRouteMessage(pathInfo: string, requestMethod: Option<string>): string
  {
    "No route found for " + pathInfo + ", method: " + requestMethod.GetOr("")
  }

  /** `render404Page($e)`: status 404 and the page showing the exception's
      message in debug mode and a fixed text otherwise. */
  function NotFoundPage(config: AppConfig, s: ResponseState, message: string): (t: ResponseState)
    ensures t.statusCode == 404 && t.statusText == "Not Found" && t.headers == s.headers
    ensures config.debug ==> t.content == Some(config.renderNotFound(message))
    ensures !config.debug ==> t.content == Some(config.renderNotFound("Page not found."))
  {
    s.(statusCode := 404, statusText := "Not Found",
       content := Some(config.renderNotFound(if config.debug then message else "Page not found.")))
  }

  /** The response after `runAction`: the content is set only when the
      controller returned (null included). */
  function WithOutcome(s: ResponseState, r: RunResult): (t: ResponseState)
    ensures r.Content? ==> t == s.(content := r.content)
    ensures !r.Content? ==> t == s
  {
    if r.Content? then s.(content := r.content) else s
  }

  /** What `runAction($name, $action, $params)` returns or throws, with the
      session data and the response the controller leaves: a class missing
      from the registry is NotFound with nothing touched; otherwise the
      controller's run, which migrates the flash messages into a new
      controller's empty `$flash` before its checks and its action method. */
  function ActionOutcome(config: AppConfig, request: ServerRequest, controllerName: string, action: string, params: RouteParams, data: SessionData, s: ResponseState): (RunResult, SessionData, ResponseState)
  {
    var controllerClass := ControllerClass(controllerName);
    if controllerClass !in config.registry then (NotFound(controllerClass + " controller is not found."), data, s)
    else
      var (f, d) := MigrateFlash([], data, FlashTypes);
      var (r, st) := RunOutcome(config.registry[controllerClass], ControllerName(controllerClass), action, request, params, ActionState(f, d, s));
      (r, st.data, st.response)
  }

  /** The whole of `run()`: resolve, run the action, handle the two
      exceptions, send. Returns the ending, the session data and the response. */
  function Dispatch(config: AppConfig, routes: RouteTable, request: ServerRequest, data: SessionData, s: ResponseState): (AppResult, SessionData, ResponseState)
  {
    var pathInfo := GetPathInfo(request);
    var requestMethod := GetRequestMethod(request);
    var resolved := ResolveIn(routes, pathInfo, requestMethod.GetOr(""), config.decode);
    DispatchResolved(config, request, resolved, NoRouteMessage(pathInfo, requestMethod), data, s)
  }

  /** `run()` once the route is resolved; `noRoute` is the message of the
      exception thrown when nothing matched. */
  function DispatchResolved(config: AppConfig, request: ServerRequest, resolved: Option<RouteParams>, noRoute: string, data: SessionData, s: ResponseState): (AppResult, SessionData, ResponseState)
  {
    if resolved.None? then
      var t := NotFoundPage(config, s, noRoute);
      (Sent(Output(t)), data, t)
    else
      var (r, data1, s1) := ActionOutcome(config, request, ParamOr(resolved.value.named, "_controller"), ParamOr(resolved.value.named, "_action"), resolved.value, data, s);
      Handled(config, request, r, data1, s1)
  }

  /** The `try` block's ending after the routed action, from the session data
      and the response it left: returned content is set and sent, a NotFound
      renders the 404 page, Unauthorized falls back to the login action. */
  function Handled(config: AppConfig, request: ServerRequest, r: RunResult, data1: SessionData, s1: ResponseState): (AppResult, SessionData, ResponseState)
  {
    if r.Content? then
      var t := WithOutcome(s1, r);
      (Sent(Output(t)), data1, t)
    else if r.NotFound? then
      var t := NotFoundPage(config, s1, r.message);
      (Sent(Output(t)), data1, t)
    else LoginFallback(config, request, data1, s1)
  }

  /** The `UnauthorizedActionException` handler: the login action runs with
      no parameters, outside any `try`. */
  function LoginFallback(config: AppConfig, request: ServerRequest, data1: SessionData, s1: ResponseState): (AppResult, SessionData, ResponseState)
  {
    var (r2, data2, s2) := ActionOutcome(config, request, ParamOr(config.loginAction, "controller"), ParamOr(config.loginAction, "action"), RouteParams(map[], []), data1, s1);
    if r2.Content? then
      var t := WithOutcome(s2, r2);
      (Sent(Output(t)), data2, t)
    else (Uncaught(r2), data2, s2)
  }

  /** A request no route matches gets the 404 page, with the route error in
      debug mode, and the session is not touched. */
  lemma NoRouteNotFound(config: AppConfig, routes: RouteTable, request: ServerRequest, data: SessionData, s: ResponseState)
    requires ResolveIn(routes, GetPathInfo(request), GetRequestMethod(request).GetOr(""), config.decode).None?
    ensures var (r, data', t) := Dispatch(config, routes, request, data, s);
      && r == Sent(Output(t)) && data' == data
      && t.statusCode == 404 && t.statusText == "Not Found"
      && (config.debug ==> t.content == Some(config.renderNotFound(NoRouteMessage(GetPathInfo(request), GetRequestMethod(request)))))
  {
  }

  /** A route naming a controller class the application cannot load gets the
      404 page with the class in its message. */
  lemma MissingControllerNotFound(config: AppConfig, routes: RouteTable, request: ServerRequest, data: SessionData, s: ResponseState)
    requires var resolved := ResolveIn(routes, GetPathInfo(request), GetRequestMethod(request).GetOr(""), config.decode);
      resolved.Some? && ControllerClass(ParamOr(resolved.value.named, "_controller")) !in config.registry
    ensures var resolved := ResolveIn(routes, GetPathInfo(request), GetRequestMethod(request).GetOr(""), config.decode);
      var controllerClass := ControllerClass(ParamOr(resolved.value.named, "_controller"));
      var (r, data', t) := Dispatch(config, routes, request, data, s);
      && r == Sent(Output(t)) && data' == data
      && t == NotFoundPage(config, s, controllerClass + " controller is not found.")
  {
  }

  /** When the matched action returns, what is sent is the response the
      action left (its status and headers, a redirect's included) with the
      returned content, and the session is the one the action left. */
  lemma ContentSent(config: AppConfig, routes: RouteTable, request: ServerRequest, data: SessionData, s: ResponseState)
    requires var resolved := ResolveIn(routes, GetPathInfo(request), GetRequestMethod(request).GetOr(""), config.decode);
      resolved.Some? &&
      ActionOutcome(config, request, ParamOr(resolved.value.named, "_controller"), ParamOr(resolved.value.named, "_action"), resolved.value, data, s).0.Content?
    ensures var resolved := ResolveIn(routes, GetPathInfo(request), GetRequestMethod(request).GetOr(""), config.decode);
      var (r1, data1, s1) := ActionOutcome(config, request, ParamOr(resolved.value.named, "_controller"), ParamOr(resolved.value.named, "_action"), resolved.value, data, s);
      var (r, data', t) := Dispatch(config, routes, request, data, s);
      && data' == data1 && t == s1.(content := r1.content)
      && r.Sent? && r.lines[|r.lines| - 1] == r1.content.GetOr("") && r.lines[0] == StatusLine(s1.statusCode, s1.statusText)
  {
  }

  /** An unauthorized action changes no response and is answered by the
      login action, run with no parameters on the session as the first
      controller left it, without resolving the request again. */
  lemma UnauthorizedRedispatch(config: AppConfig, routes: RouteTable, request: ServerRequest, data: SessionData, s: ResponseState)
    requires var resolved := ResolveIn(routes, GetPathInfo(request), GetRequestMethod(request).GetOr(""), config.decode);
      resolved.Some? &&
      ActionOutcome(config, request, ParamOr(resolved.value.named, "_controller"), ParamOr(resolved.value.named, "_action"), resolved.value, data, s).0 == Unauthorized
    ensures var resolved := ResolveIn(routes, GetPathInfo(request), GetRequestMethod(request).GetOr(""), config.decode);
      var (_, data1, s1) := ActionOutcome(config, request, ParamOr(resolved.value.named, "_controller"), ParamOr(resolved.value.named, "_action"), resolved.value, data, s);
      var (r2, data2, s2) := ActionOutcome(config, request, ParamOr(config.loginAction, "controller"), ParamOr(config.loginAction, "action"), RouteParams(map[], []), data1, s1);
      var (r, data', t) := Dispatch(config, routes, request, data, s);
      && s1 == s && data1 == MigrateFlash([], data, FlashTypes).1 && data' == data2
      && (r2.Content? ==> r == Sent(Output(t)) && t == s2.(content := r2.content))
      && (!r2.Content? ==> r == Uncaught(r2) && t == s2)
  {
    var pathInfo := GetPathInfo(request);
    var requestMethod := GetRequestMethod(request);
    var resolved := ResolveIn(routes, pathInfo, requestMethod.GetOr(""), config.decode);
    var controllerName, action := ParamOr(resolved.value.named, "_controller"), ParamOr(resolved.value.named, "_action");
    var (_, data1, s1) := ActionOutcome(config, request, controllerName, action, resolved.value, data, s);
    RefusedLosesFlash(config, request, controllerName, action, resolved.value, data, s, 0);
    assert Dispatch(config, routes, request, data, s) == LoginFallback(config, request, data1, s1);
  }

  /** A refused action still ran the flash migration: the stored messages
      moved into the controller that was then discarded, so the login action
      starts from a session without them. Only the response is untouched. */
  lemma RefusedLosesFlash(config: AppConfig, request: ServerRequest, controllerName: string, action: string, params: RouteParams, data: SessionData, s: ResponseState, j: nat)
    requires j < |FlashTypes|
    requires ActionOutcome(config, request, controllerName, action, params, data, s).0 == Unauthorized
    ensures ActionOutcome(config, request, controllerName, action, params, data, s).1 == MigrateFlash([], data, FlashTypes).1
    ensures !IsSetIn(ActionOutcome(config, request, controllerName, action, params, data, s).1, FlashKey(FlashTypes[j]))
    ensures ActionOutcome(config, request, controllerName, action, params, data, s).2 == s
  {
    var controllerClass := ControllerClass(controllerName);
    assert controllerClass in config.registry;
    var (f, d) := MigrateFlash([], data, FlashTypes);
    var st := ActionState(f, d, s);
    var def := config.registry[controllerClass];
    if BodyRuns(def, action, st.data) {
      BodyRunOutcome(def, ControllerName(controllerClass), action, request, params, st);
    }
    FlashTypesDistinct();
    MigrateClears([], data, FlashTypes, j);
  }

  /** Whatever happens, a sent response is exactly the output of the final
      response state, and an exception escapes only from the login action
      run after an unauthorized one. */
  lemma SentOnce(config: AppConfig, routes: RouteTable, request: ServerRequest, data: SessionData, s: ResponseState)
    ensures var resolved := ResolveIn(routes, GetPathInfo(request), GetRequestMethod(request).GetOr(""), config.decode);
      var (r, _, t) := Dispatch(config, routes, request, data, s);
      && (r.Sent? ==> r.lines == Output(t))
      && (r.Uncaught? ==>
            && !r.error.Content? && resolved.Some?
            && ActionOutcome(config, request, ParamOr(resolved.value.named, "_controller"), ParamOr(resolved.value.named, "_action"), resolved.value, data, s).0 == Unauthorized)
  {
    var pathInfo := GetPathInfo(request);
    var requestMethod := GetRequestMethod(request);
    var resolved := ResolveIn(routes, pathInfo, requestMethod.GetOr(""), config.decode);
    ResolvedSentOnce(config, request, resolved, NoRouteMessage(pathInfo, requestMethod), data, s);
  }

  lemma ResolvedSentOnce(config: AppConfig, request: ServerRequest, resolved: Option<RouteParams>, noRoute: string, data: SessionData, s: ResponseState)
    ensures var (r, _, t) := DispatchResolved(config, request, resolved, noRoute, data, s);
      && (r.Sent? ==> r.lines == Output(t))
      && (r.Uncaught? ==>
            && !r.error.Content? && resolved.Some?
            && ActionOutcome(config, request, ParamOr(resolved.value.named, "_controller"), ParamOr(resolved.value.named, "_action"), resolved.value, data, s).0 == Unauthorized)
  {
    if resolved.Some? {
      var (r1, data1, s1) := ActionOutcome(config, request, ParamOr(resolved.value.named, "_controller"), ParamOr(resolved.value.named, "_action"), resolved.value, data, s);
      if !r1.Content? && !r1.NotFound? {
        FallbackSentOnce(config, request, data1, s1);
      }
    }
  }

  lemma FallbackSentOnce(config: AppConfig, request: ServerRequest, data1: SessionData, s1: ResponseState)
    ensures var (r, _, t) := LoginFallback(config, request, data1, s1);
      && (r.Sent? ==> r.lines == Output(t))
      && (r.Uncaught? ==> !r.error.Content?)
  {
  }

  /** No key but the flash keys is a key the framework writes. */
  predicate NotFlashKey(key: string)
  {
    forall i :: 0 <= i < |FlashTypes| ==> key != FlashKey(FlashTypes[i])
  }

  /** No action method of any controller the application can load writes `key`. */
  ghost predicate ActionsKeep(config: AppConfig, key: string)
  {
    forall c, m :: c in config.registry && m in config.registry[c].actions ==> KeepsKey(config.registry[c].actions[m], key)
  }

  /** `runAction` writes the session only by migrating the flash messages
      and through the action method. */
  lemma ActionFrame(config: AppConfig, request: ServerRequest, controllerName: string, action: string, params: RouteParams, data: SessionData, s: ResponseState, key: string)
    requires NotFlashKey(key) && ActionsKeep(config, key)
    ensures Agree(data, ActionOutcome(config, request, controllerName, action, params, data, s).1, key)
  {
    var controllerClass := ControllerClass(controllerName);
    if controllerClass in config.registry {
      var def := config.registry[controllerClass];
      var (f, d) := MigrateFlash([], data, FlashTypes);
      MigrateKeepsOthers([], data, FlashTypes, key);
      RunFrame(def, ControllerName(controllerClass), action, request, params, ActionState(f, d, s), key);
    }
  }

  /** The session data a request leaves: untouched without a route, else
      what the routed action left, or what the login action then left. */
  lemma DispatchData(config: AppConfig, routes: RouteTable, request: ServerRequest, data: SessionData, s: ResponseState)
    ensures var resolved := ResolveIn(routes, GetPathInfo(request), GetRequestMethod(request).GetOr(""), config.decode);
      Dispatch(config, routes, request, data, s).1
      == if resolved.None? then data
         else
           var (r, data1, s1) := ActionOutcome(config, request, ParamOr(resolved.value.named, "_controller"), ParamOr(resolved.value.named, "_action"), resolved.value, data, s);
           if r.Content? || r.NotFound? then data1
           else ActionOutcome(config, request, ParamOr(config.loginAction, "controller"), ParamOr(config.loginAction, "action"), RouteParams(map[], []), data1, s1).1
  {
    var pathInfo := GetPathInfo(request);
    var requestMethod := GetRequestMethod(request);
    var resolved := ResolveIn(routes, pathInfo, requestMethod.GetOr(""), config.decode);
    assert Dispatch(config, routes, request, data, s) == DispatchResolved(config, request, resolved, NoRouteMessage(pathInfo, requestMethod), data, s);
    if resolved.Some? {
      var (r, data1, s1) := ActionOutcome(config, request, ParamOr(resolved.value.named, "_controller"), ParamOr(resolved.value.named, "_action"), resolved.value, data, s);
      HandledData(config, request, r, data1, s1);
    }
  }

  lemma HandledData(config: AppConfig, request: ServerRequest, r: RunResult, data1: SessionData, s1: ResponseState)
    ensures Handled(config, request, r, data1, s1).1
      == if r.Content? || r.NotFound? then data1
         else ActionOutcome(config, request, ParamOr(config.loginAction, "controller"), ParamOr(config.loginAction, "action"), RouteParams(map[], []), data1, s1).1
  {
  }

  /** The framework writes no session key but the flash keys: a key that no
      action method writes, the login state when none calls
      `setAuthenticated`, reads the same after a request as before it. */
  lemma DispatchFrame(config: AppConfig, routes: RouteTable, request: ServerRequest, data: SessionData, s: ResponseState, key: string)
    requires NotFlashKey(key) && ActionsKeep(config, key)
    ensures Agree(data, Dispatch(config, routes, request, data, s).1, key)
  {
    DispatchData(config, routes, request, data, s);
    var resolved := ResolveIn(routes, GetPathInfo(request), GetRequestMethod(request).GetOr(""), config.decode);
    if resolved.Some? {
      var controllerName, action := ParamOr(resolved.value.named, "_controller"), ParamOr(resolved.value.named, "_action");
      var (r, data1, s1) := ActionOutcome(config, request, controllerName, action, resolved.value, data, s);
      ActionFrame(config, request, controllerName, action, resolved.value, data, s, key);
      if !r.Content? && !r.NotFound? {
        ActionFrame(config, request, ParamOr(config.loginAction, "controller"), ParamOr(config.loginAction, "action"), RouteParams(map[], []), data1, s1, key);
      }
    }
  }

  /** After `runAction` on a controller the application loads, the flash
      message of type j is not stored unless the action method stored it;
      a class it cannot load leaves a cleared message cleared. */
  lemma ActionClearsFlash(config: AppConfig, request: ServerRequest, controllerName: string, action: string, params: RouteParams, data: SessionData, s: ResponseState, j: nat)
    requires j < |FlashTypes| && ActionsKeep(config, FlashKey(FlashTypes[j]))
    requires ControllerClass(controllerName) in config.registry || !IsSetIn(data, FlashKey(FlashTypes[j]))
    ensures !IsSetIn(ActionOutcome(config, request, controllerName, action, params, data, s).1, FlashKey(FlashTypes[j]))
  {
    var controllerClass := ControllerClass(controllerName);
    if controllerClass in config.registry {
      var def := config.registry[controllerClass];
      var (f, d) := MigrateFlash([], data, FlashTypes);
      FlashTypesDistinct();
      MigrateClears([], data, FlashTypes, j);
      RunFrame(def, ControllerName(controllerClass), action, request, params, ActionState(f, d, s), FlashKey(FlashTypes[j]));
    }
  }

  /** Once a controller has run, a flash message stored before the request
      has been shown and is gone, unless an action method stored it again. */
  lemma DispatchConsumesFlash(config: AppConfig, routes: RouteTable, request: ServerRequest, data: SessionData, s: ResponseState, j: nat)
    requires j < |FlashTypes| && ActionsKeep(config, FlashKey(FlashTypes[j]))
    requires var resolved := ResolveIn(routes, GetPathInfo(request), GetRequestMethod(request).GetOr(""), config.decode);
      resolved.Some? && ControllerClass(ParamOr(resolved.value.named, "_controller")) in config.registry
    ensures !IsSetIn(Dispatch(config, routes, request, data, s).1, FlashKey(FlashTypes[j]))
  {
    DispatchData(config, routes, request, data, s);
    var resolved := ResolveIn(routes, GetPathInfo(request), GetRequestMethod(request).GetOr(""), config.decode);
    var controllerName, action := ParamOr(resolved.value.named, "_controller"), ParamOr(resolved.value.named, "_action");
    var (r, data1, s1) := ActionOutcome(config, request, controllerName, action, resolved.value, data, s);
    ActionClearsFlash(config, request, controllerName, action, resolved.value, data, s, j);
    if !r.Content? && !r.NotFound? {
      ActionClearsFlash(config, request, ParamOr(config.loginAction, "controller"), ParamOr(config.loginAction, "action"), RouteParams(map[], []), data1, s1, j);
    }
  }

  /** A request routed to a sign-in handler (an unprotected action method
      that calls `setAuthenticated(true)`, `setFlash('success', $message)` and
      `redirect($url)`) ends logged in, with the message stored for the next
      request, and sends a 302 to the redirect target with no content. */
  lemma SignInDispatch(config: AppConfig, routes: RouteTable, request: ServerRequest, data: SessionData, s: ResponseState, message: string, url: string)
    requires var resolved := ResolveIn(routes, GetPathInfo(request), GetRequestMethod(request).GetOr(""), config.decode);
      && resolved.Some?
      && var controllerClass := ControllerClass(ParamOr(resolved.value.named, "_controller"));
         var action := ParamOr(resolved.value.named, "_action");
         && controllerClass in config.registry
         && HasAction(config.registry[controllerClass], action)
         && !NeedsAuthentication(config.registry[controllerClass].authActions, action)
         && config.registry[controllerClass].actions[ActionMethod(action)] == SignIn(message, url)
    ensures var (r, data', t) := Dispatch(config, routes, request, data, s);
      && Truthy(Authenticated(data'))
      && Lookup(data', FlashKey("success")) == Str(message)
      && t.statusCode == 302 && t.statusText == "Found"
      && Get(t.headers, "Location") == Some(RedirectTarget(request, url)) && t.content == None
      && r == Sent(Output(t))
  {
    var resolved := ResolveIn(routes, GetPathInfo(request), GetRequestMethod(request).GetOr(""), config.decode);
    var controllerName := ParamOr(resolved.value.named, "_controller");
    var action := ParamOr(resolved.value.named, "_action");
    var controllerClass := ControllerClass(controllerName);
    var (f, d) := MigrateFlash([], data, FlashTypes);
    var st := ActionState(f, d, s);
    SignInRuns(config.registry[controllerClass], ControllerName(controllerClass), action, request, resolved.value, st, message, url);
    var (_, st') := RunOutcome(config.registry[controllerClass], ControllerName(controllerClass), action, request, resolved.value, st);
    assert ActionOutcome(config, request, controllerName, action, resolved.value, data, s) == (Content(None), st'.data, st'.response);
    ContentSent(config, routes, request, data, s);
    SentOnce(config, routes, request, data, s);
  }
  // ---------------------------------------------------------------------------
  // The application object

  class Application {
    const config: AppConfig
    const request: ServerRequest
    const response: Response
    const session: Session
    const dbManager: DbManager
    const router: Router

    /** `new Application($debug)`: `initialize()` makes the request, a fresh
        response, the session (starting it), the database manager and the
        router over `registerRoutes()`. */
    constructor (config: AppConfig, request: ServerRequest, state: SessionState, definitions: Definitions)
      requires state.Valid()
      modifies state
      ensures this.config == config && this.request == request
      ensures fresh(response) && response.State() == Fresh
      ensures session.state == state && state.Valid() && state.sessionStarted && state.data == old(state.data)
      ensures fresh(dbManager) && dbManager.connections == [] && dbManager.repositories == map[]
      ensures fresh(router) && router.routes == CompiledTable(definitions)
    {
      this.config := config;
      this.request := request;
      response := new Response();
      session := new Session(state);
      dbManager := new DbManager();
      router := new Router(definitions);
    }

    /** `isDebugMode()`. */
    function IsDebugMode(): bool
      reads this
    {
      config.debug
    }

    function GetControllerDir(): string reads this { ControllerDir(config.rootDir) }
    function GetViewDir(): string reads this { ViewDir(config.rootDir) }
    function GetModelDir(): string reads this { ModelDir(config.rootDir) }
    function GetWebDir(): string reads this { WebDir(config.rootDir) }

    /** `findController($controller_class)`: the loaded class, or `false`. */
    function FindController(controllerClass: string): (def: Option<ControllerDef>)
      reads this
      ensures def.Some? <==> controllerClass in config.registry
      ensures def.Some? ==> def.value == config.registry[controllerClass]
    {
      if controllerClass in config.registry then Some(config.registry[controllerClass]) else None
    }

    /** `runAction($controller_name, $action, $params)`. */
    method RunAction(controllerName: string, action: string, params: RouteParams := RouteParams(map[], [])) returns (r: RunResult)
      requires session.state.Valid()
      modifies response, session.state
      ensures session.state.Valid() && session.state.Flags() == old(session.state.Flags())
      ensures var (r', data, t) := ActionOutcome(config, request, controllerName, action, params, old(session.state.data), old(response.State()));
        && r == r' && session.state.data == data && response.State() == WithOutcome(t, r)
    {
      var controllerClass := Ucfirst(controllerName) + "Controller";
      var def := FindController(controllerClass);
      if def.None? {
        return NotFound(controllerClass + " controller is not found.");
      }
      var controller := new Controller(controllerClass, def.value, request, session, response, GetViewDir());
      r := controller.Run(action, params);
      if r.Content? {
        response.SetContent(r.content);
      }
    }

    /** `render404Page($e)`, given the exception's message. */
    method Render404Page(message: string)
      modifies response
      ensures response.State() == NotFoundPage(config, old(response.State()), message)
    {
      response.SetStatusCode(404, "Not Found");
      var shown := if IsDebugMode() then message else "Page not found.";
      response.SetContent(Some(config.renderNotFound(shown)));
    }

    /** `run()`: resolve the request, dispatch it, and send the response
        unless the login fallback threw. */
    method Run() returns (r: AppResult)
      requires session.state.Valid()
      modifies response, session.state
      ensures session.state.Valid() && session.state.Flags() == old(session.state.Flags())
      ensures (r, session.state.data, response.State()) == Dispatch(config, router.routes, request, old(session.state.data), old(response.State()))
    {
      ghost var data0, s0 := session.state.data, response.State();
      var pathInfo := GetPathInfo(request);
      var requestMethod := GetRequestMethod(request);
      var params := router.Resolve(pathInfo, requestMethod.GetOr(""), config.decode);
      var noRoute := NoRouteMessage(pathInfo, requestMethod);
      ResolvedSentOnce(config, request, params, noRoute, data0, s0);
      var escaped := TryDispatch(params, noRoute);
      if escaped.Some? {
        return Uncaught(escaped.value);
      }
      var lines := response.Send(config.debug);
      return Sent(lines);
    }

    /** The `try`/`catch` part of `run()`: what escapes it, if anything. */
    method TryDispatch(resolved: Option<RouteParams>, noRoute: string) returns (escaped: Option<RunResult>)
      requires session.state.Valid()
      modifies response, session.state
      ensures session.state.Valid() && session.state.Flags() == old(session.state.Flags())
      ensures var (r, data, t) := DispatchResolved(config, request, resolved, noRoute, old(session.state.data), old(response.State()));
        && session.state.data == data && response.State() == t
        && (escaped.Some? <==> r.Uncaught?) && (r.Uncaught? ==> escaped.value == r.error)
    {
      if resolved.None? {
        Render404Page(noRoute);
        return None;
      }
      ghost var data0, s0 := session.state.data, response.State();
      var controller := ParamOr(resolved.value.named, "_controller");
      var action := ParamOr(resolved.value.named, "_action");
      ghost var (_, data1, s1) := ActionOutcome(config, request, controller, action, resolved.value, data0, s0);
      var result := RunAction(controller, action, resolved.value);
      assert DispatchResolved(config, request, resolved, noRoute, data0, s0) == Handled(config, request, result, data1, s1);
      if result.NotFound? {
        Render404Page(result.message);
      } else if result.Unauthorized? {
        escaped := RunLoginAction();
        return;
      }
      return None;
    }

    /** The `catch (UnauthorizedActionException $e)` handler, which has no
        `try` of its own: a failure of the login action escapes. */
    method RunLoginAction() returns (escaped: Option<RunResult>)
      requires session.state.Valid()
      modifies response, session.state
      ensures session.state.Valid() && session.state.Flags() == old(session.state.Flags())
      ensures var (r, data, t) := LoginFallback(config, request, old(session.state.data), old(response.State()));
        && session.state.data == data && response.State() == t
        && (escaped.Some? <==> r.Uncaught?) && (r.Uncaught? ==> escaped.value == r.error)
    {
      var again := RunAction(ParamOr(config.loginAction, "controller"), ParamOr(config.loginAction, "action"));
      if !again.Content? {
        return Some(again);
      }
      return None;
    }
  }
}
