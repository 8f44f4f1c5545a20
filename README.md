# A verified model of a small PHP MVC framework core

This project models the request pipeline of a small PHP MVC framework in Dafny and proves properties of it. The pipeline has these parts:

- the `Router`, which expands `%rest` shorthands, pins HTTP verbs, compiles `:name` placeholders and resolves a request path to route parameters;
- the `Controller` base class: action dispatch, hooks, authentication gate, CSRF tokens, flash messages and redirects;
- the `Application` front controller (`run`, `runAction`, the 404 page);
- the `Session`, `Request` and `Response` wrappers;
- the DSN building, connection registry and repository cache of `DbManager`;
- the value/type binding of `DbField`.

The model has one module per source file:

| module | file | form |
|---|---|---|
| `Routing`, `RoutingProperties` | core/Router.php | class `Router` plus the functions that specify its methods, and the properties of the route table |
| `Controllers` | core/Controller.php | class `Controller` over a shared `Session`/`Response` |
| `Applications` | core/Application.php | class `Application` and the pure `Dispatch` it is proved against |
| `Sessions` | core/Session.php | classes `SessionState` (the process-wide `$_SESSION` and static flags) and `Session` |
| `Requests` | core/Request.php | functions over a `ServerRequest` value (`$_SERVER`, `$_GET`, `$_POST`) |
| `Responses` | core/Response.php | class `Response` and the `Output` it sends |
| `DbManagers` | core/DbManager.php | class `DbManager`, the DSN functions and the repository cache |
| `DbFields` | core/DbField.php | class `DbField` and the `Bind` function it is built from |

Four helper modules stand in for the PHP runtime:

- `Wrappers`: `Option`, `Result`.
- `PhpStrings`: `explode`, `implode`, `str_replace`, `trim`, `strtolower`, `ucfirst`, integer printing and `bin2hex`.
- `PhpArrays`: PHP's ordered arrays as association sequences. Assigning an existing key overwrites it in place; a new key is appended.
- `PhpValues`: the mixed values stored in the session, with truthiness, `empty`, `strval` and loose comparison.

Behaviours of the code worth knowing, proved:

- A path with a `%rest` end token expands to seven routes. The `index` route ends in `@get`, so once the verb is pinned its pattern is `<base>//@get`. It therefore matches `/posts/` and not `/posts` (`RestIndexWithSlash`, `RestIndexWithoutSlash`).
- A `:name` parameter is pasted into the group `(?P<name>[^/]+)` unchecked. PCRE2 ends a group name at its first `>`, so `:a>b` is the group `a` whose segment must start with `b>`: `/x/b>c` matches with `a` = `b>c` (`AngleInName`). When PCRE2 refuses the pattern (an empty, digit-first or non-word name, or a name used twice), `preg_match` returns `false` and the route is skipped: `/posts/:post-id` never matches (`CompiledGroupNames`, `ResolveSkipsUncompiled`).
- `show` is compiled before `new`, so `GET <base>/new` resolves to `show` with `id` = `new` (`RestShow`).
- The driver check is `=== 'mysql' || == 'pgsql'`. With the loose `==`, a driver of boolean `true` also takes the MySQL branch (`MysqlFamilyValues`).
- When a CSRF check accepts a token, the whole token list for that form is emptied. An expired token is removed by itself and the rest stay (`AcceptedOnce`, `ExpiredDropped`).
- `Session::unset` leaves a key whose value is null in place (`UnsetKey`).
- The flash-type error message has no space before the type (`InvalidFlashType`).
- A request refused by the login gate loses its pending flash messages: `run` moves them out of the session before the check, and the refused controller is discarded (`RefusedLosesFlash`).
- When a protected action fails, `run` dispatches the login action again outside the `try`. If that second dispatch fails as well, the failure is uncaught and nothing is sent (`UnauthorizedRedispatch`).

## Model

| member | source | states |
|---|---|---|
| Routing.ExplodeTokens | core/Router.php:221-227 | no token of an exploded path contains `/` |
| Routing.EndToken | core/Router.php:179-213 | every end token carries an `@` verb marker |
| Routing.RestActionNames | core/Router.php:97-101 | one name per comma-separated piece of the bracket text; no name holds a comma, and trimming a name leaves it unchanged |
| Routing.PrefixKeys | core/Router.php:162-171 | every key `k` becomes `_k` with the same value, and there are no other keys |
| Routing.NormalizePath | core/Router.php:59-61 | the normalised path starts with `/` |
| Routing.Router.constructor | core/Router.php:17-20 | the route table is the compiled table of the definitions |
| Routing.Router.CompileRoutes | core/Router.php:28-48 | the returned table is `CompiledTable` of the definitions |
| Routing.NameEnd | core/Router.php:125-128 | the position of the first `>` in a `:name` token's text, or its length: where PCRE2 ends the group name |
| Routing.Router.Resolve | core/Router.php:57-74 | the result is that of the first route whose pattern compiles and matches, its parameters merged with the decoded captures, or none; a group name ends at its first `>` and the rest of the token must start the segment |
| Routing.Router.ExplodeRestAction | core/Router.php:82-114 | the loop over a snapshot of the definitions computes `ExpandRest` |
| Routing.Router.CompileDynamicToken | core/Router.php:122-132 | the loop computes `CompileTokens`: each `:name` token becomes `(?P<name>[^/]+)` and every other token stays |
| Routing.Router.CompileHTTPRequestMethod | core/Router.php:140-154 | the loop computes `CompileVerbs`, the keyed combination of pinned URLs and values |
| Routing.Router.SetRouteParams | core/Router.php:162-171 | the loop computes `PrefixKeys` |
| RoutingProperties.ImplodeExplode | core/Router.php:221-238 | imploding the exploded tokens of a path that starts with `/` gives the path back |
| RoutingProperties.ExplodeImplode | core/Router.php:221-238 | exploding imploded slash-free tokens gives the tokens back |
| RoutingProperties.PlainRestActions | core/Router.php:88-101 | bare `%rest` yields index, show, new, create, edit, update, destroy |
| RoutingProperties.ExtendedRestActions | core/Router.php:92-101 | `%rest[a,b]` yields the seven standard actions followed by the trimmed extras |
| RoutingProperties.BracketlessShorthand | core/Router.php:88-98 | a `%` token with no bracket yields the single empty action name |
| RoutingProperties.EndTokens | core/Router.php:179-213 | the seven standard end tokens, and for any other action the action itself when it has `@`, else `action@get` |
| RoutingProperties.PutActionsFresh | core/Router.php:100-106 | distinct fresh URLs are appended in action order |
| RoutingProperties.RestUrlsFresh | core/Router.php:100-106 | the seven `%rest` URLs are distinct from each other and from the shorthand URL |
| RoutingProperties.PlainRestExpansion | core/Router.php:84-110 | a lone `%rest` definition expands to exactly the seven generated definitions, with `action` set |
| RoutingProperties.RestUrlsDistinct | core/Router.php:100-105 | actions with distinct end tokens, none equal to the shorthand token, get distinct urls, none equal to the template |
| RoutingProperties.ExpandOneFresh | core/Router.php:84-110 | a shorthand in any array: when its urls are new, its definitions are appended after the others in action order and its own entry is removed, the others keeping their order |
| RoutingProperties.PlainRestInArray | core/Router.php:88-110 | `<base>/%rest` among other definitions: the seven resource definitions are appended and the template's entry removed |
| RoutingProperties.ExtendedEndTokens | core/Router.php:92-102 | `%rest[...]` with plain extra names (no `@` or `/`, not empty, not `:id`, not a standard action, pairwise distinct) has distinct end tokens, none equal to the shorthand token |
| RoutingProperties.ExtendedRestExpansion | core/Router.php:84-110 | `<base>/%rest[a,b]` among other definitions: the seven standard then the extra definitions are appended, and the template's entry removed |
| PhpArrays.RemoveConcat | core/Router.php:109 | `unset` on two arrays one after the other gives the two remainders one after the other, so the kept pairs keep their order |
| RoutingProperties.PlainRestVerbs | core/Router.php:140-154 | pinning the verbs of the seven definitions gives the seven `/@verb` URLs |
| RoutingProperties.BuildTableDistinct | core/Router.php:36-44 | with distinct patterns, the table lists every compiled route in order |
| RoutingProperties.RestPatternsDistinct | core/Router.php:36-44 | the seven compiled `%rest` patterns are distinct |
| RoutingProperties.PlainRestTable | core/Router.php:28-48 | compiling a `%rest` definition gives exactly the seven-route REST table |
| RoutingProperties.ResolveFirstMatch | core/Router.php:64-69 | the first matching route wins, and its parameters are merged with the captures |
| RoutingProperties.ResolveNoMatch | core/Router.php:64-73 | resolution fails if and only if no route matches |
| RoutingProperties.ResolveNormalizes | core/Router.php:59-62 | a path without a leading `/` resolves like the same path with one |
| RoutingProperties.ParseCaptureGroup | core/Router.php:125-128 | a compiled `:name` token is read back as a group named `name` (whether PCRE2 accepts the name is `CompiledGroupNames`) |
| RoutingProperties.CompiledGroupNames | core/Router.php:122-130 | the groups of a compiled template are its `:name` tokens, each cut at its first `>`, in order, and the pattern compiles exactly when those names are valid PCRE2 group names and pairwise distinct |
| RoutingProperties.HeadGroupCases | core/Router.php:125-128 | a group name never holds `>`; a token without `>` is all name; otherwise it is the name, `>`, then the literal text the segment must start with |
| RoutingProperties.AngleInName | core/Router.php:125-128 | `:a>b` compiles to the group `a`; `/x/b>c` matches it with `a` = `b>c`, and `/x/b>` does not match |
| RoutingProperties.GroupNameExamples | core/Router.php:124-128 | `id` and `post_id` are valid group names; the empty name, `1st` and `post-id` are not |
| RoutingProperties.ResolveSkipsUncompiled | core/Router.php:64-69 | a route whose pattern PCRE2 refuses is skipped: resolving against the table is resolving against the table without it |
| RoutingProperties.RestGroupNames | core/Router.php:122-130 | every `%rest` route over literal template tokens compiles; its only group is `id` |
| RoutingProperties.PlainNoCapture | core/Router.php:122-130 | a literal token is never taken for a capture |
| RoutingProperties.RestIndexWithSlash | core/Router.php:102-104 | `GET <base>/` reaches `index` with no captures |
| RoutingProperties.RestIndexWithoutSlash | core/Router.php:102-104 | `<base>` without the trailing slash matches no REST route, whatever the verb |
| RoutingProperties.RestShow | core/Router.php:181-190 | `GET <base>/<id>` reaches `show` with `id` captured, including `id` = `new` |
| RoutingProperties.RestCreate | core/Router.php:191-193 | `POST <base>/new` reaches `create` |
| RoutingProperties.RestEdit | core/Router.php:194-196 | `GET <base>/<id>/edit` reaches `edit` with `id` captured |
| RoutingProperties.RestUpdate | core/Router.php:197-199 | `PATCH <base>/<id>` reaches `update` with `id` captured |
| RoutingProperties.RestDestroy | core/Router.php:200-202 | `DELETE <base>/<id>` reaches `destroy` with `id` captured |
| RoutingProperties.RestResolve | core/Router.php:57-74 | a request under `<base>` reaches the first REST route whose tail matches |
| RoutingProperties.RestResolveNone | core/Router.php:57-74 | a request under `<base>` that no tail matches resolves to none |
| RoutingProperties.VerbKeyDefault | core/Router.php:147-149 | a URL without `@` is pinned to `/@get` |
| RoutingProperties.VerbKeyPinsVerb | core/Router.php:147-150 | every pinned URL has an `@`, and every `@` is preceded by `/` |
| RoutingProperties.VerbCollision | core/Router.php:142-153 | `a` and `a@get` collide, and the later definition's parameters win |
| Sessions.Lookup | core/Session.php:56-59 | a set, non-null key gives its value; otherwise the default |
| Sessions.UnsetKey | core/Session.php:94-99 | afterwards the key is not set, every other key is unchanged and no key is added |
| Sessions.GetAfterSet | core/Session.php:33-59 | after `set(k, v)`, `get(k, d)` is `v`, or `d` when `v` is null |
| Sessions.GetOtherAfterSet | core/Session.php:33-36 | `set` leaves the other keys' readings unchanged |
| Sessions.GetAfterUnset | core/Session.php:94-99 | after `unset(k)`, `k` reads as the default and the other keys are unchanged |
| Sessions.AuthenticatedCases | core/Session.php:124-141 | without a stored state the user is not logged in; after `setAuthenticated(b)` the state is `b` |
| Sessions.Session.IsSet | core/Session.php:44-47 | set if and only if the key is present with a non-null value |
| Sessions.Session.Get | core/Session.php:56-59 | a set, non-null key gives its value; otherwise the default |
| Sessions.Session.IsAuthenticated | core/Session.php:138-141 | the stored login state, or `false` when none is stored or it is null |
| Sessions.SessionState.constructor | core/Session.php:11-12 | a new process: no session started, no id regenerated, no data |
| Sessions.Session.constructor | core/Session.php:17-24 | the PHP session is started exactly once per process; the data is kept |
| Sessions.Session.Set | core/Session.php:33-36 | the data gains `key := value`; the flags are unchanged |
| Sessions.Session.Clear | core/Session.php:70-87 | the data is emptied; the flags are unchanged |
| Sessions.Session.Unset | core/Session.php:94-99 | the data becomes `UnsetKey` of the old data |
| Sessions.Session.Regenerate | core/Session.php:107-114 | the id is regenerated exactly once per process; the data is kept |
| Sessions.Session.SetAuthenticated | core/Session.php:124-129 | the login state is stored and the id has been regenerated exactly once |
| Requests.IsPostCases | core/Request.php:13-20 | a request is a POST if and only if `REQUEST_METHOD` is `POST` |
| Requests.GetGet | core/Request.php:29-32 | a present query key gives its value; otherwise the default |
| Requests.GetPost | core/Request.php:41-44 | a present form key gives its value; otherwise the default |
| Requests.IsSelCases | core/Request.php:65-72 | HTTPS is detected only for the exact text `on`; no `HTTPS` entry, `off`, `ON` or `1` read as plain HTTP |
| Requests.GetHost | core/Request.php:51-58 | a non-empty `HTTP_HOST` is used; otherwise `SERVER_NAME` |
| Requests.Dirname | core/Request.php:96-97 | a non-empty `dirname` is `.`, `/`, or a prefix of the path without a trailing slash |
| Requests.GetBaseUrl | core/Request.php:89-101 | the base URL is a prefix of the request URI |
| Requests.UriPath | core/Request.php:113-115 | the URI cut at the first `?`, which it does not contain |
| Requests.GetPathInfo | core/Request.php:108-120 | the path info is no longer than the URI path |
| Requests.PathInfoSplit | core/Request.php:108-120 | the base URL followed by the path info is the URI path |
| Requests.RootScriptBase | core/Request.php:89-120 | for a front controller at the root, reached by a pretty URL, the base is empty and the path info is the URI path |
| Requests.GetRequestMethod | core/Request.php:127-142 | `get` if and only if GET; `post` if and only if a POST without `_method`; `delete`/`patch` if and only if a POST override; nothing else |
| Responses.HeaderLines | core/Response.php:28-30 | one `name: value` line per header, in order |
| Responses.Output | core/Response.php:24-34 | the status line, then the header lines, then the content (empty when unset) |
| Responses.HeaderOverwrite | core/Response.php:70-73 | setting a header twice keeps one entry with the second value |
| Responses.HeaderSent | core/Response.php:28-30 | a header that was set appears among the sent lines |
| Responses.Response.constructor | core/Response.php:13-16 | a fresh response: 200 OK, no headers, no content |
| Responses.Response.SetContent | core/Response.php:45-48 | only the content changes, to the given content or none |
| Responses.Response.SetStatusCode | core/Response.php:57-61 | only the status code and text change |
| Responses.Response.SetHttpHeader | core/Response.php:70-73 | only the header map changes, by an ordered-array assignment |
| Responses.Response.Send | core/Response.php:24-38 | the lines sent are `Output` of the state |
| Controllers.ControllerName | core/Controller.php:44-45 | the name is ten characters shorter than the class name (empty for a shorter one), has no upper-case letter, and agrees with the class name up to case |
| Controllers.ControllerNameOfClass | core/Controller.php:44-45 | `XController` gives the lower-cased `x` |
| Controllers.NeedsAuthenticationCases | core/Controller.php:167-175 | authentication is needed if and only if all actions are protected or the action is listed |
| Controllers.HookNames | core/Controller.php:76-80 | exactly the hooks whose action list contains the action |
| Controllers.HookNamesAll | core/Controller.php:76-80 | when every hook lists the action, all hooks run in declaration order |
| Controllers.MissingActionFirst | core/Controller.php:66-69 | a missing action forwards a 404 before any hook or authentication check, leaving flash, session and response as they were |
| Controllers.RunCases | core/Controller.php:71-90 | unauthenticated access to a protected action is refused before any hook runs, with nothing changed; otherwise the state is what the action left, its returned content is the result, a `forward404` inside it is the 404 and skips the after hooks |
| Controllers.RunFrame | core/Controller.php:66-91 | a session key the action keeps is kept by the part of `run` after the flash migration; when the body does not run, flash, session and response are untouched |
| Controllers.ViewFile | core/View.php:54-56 | the file is the views directory without trailing slashes, `/`, and ends in `.php` |
| Controllers.ViewFileParts | core/Controller.php:116-122 | between the directory and `.php` lie the controller name, `/` and the template |
| Controllers.ViewFileInjective | core/Controller.php:116-122 | controller names without `/` and templates are recovered from the file: distinct views load distinct files |
| Controllers.FlashKeyInjective | core/Controller.php:276-279 | distinct flash types use distinct session keys |
| Controllers.AuthKeyNotFlash | core/Controller.php:277-279 | the login key is never a flash key |
| Controllers.MigrateKeepsOthers | core/Controller.php:274-282 | migration touches no session key other than the flash keys |
| Controllers.MigrateClears | core/Controller.php:274-282 | after migration no flash key is set in the session |
| Controllers.MigrateMoves | core/Controller.php:274-282 | each stored flash message moves into `$flash`; the other types keep their value |
| Controllers.MigrateAbsent | core/Controller.php:274-282 | a type outside the list keeps its `$flash` entry |
| Controllers.MigrateKeepsLogin | core/Controller.php:274-282 | migration keeps the login state |
| Controllers.FlashLivesOneRequest | core/Controller.php:260-282 | a message set by `setFlash` shows on the next migration and is gone on the one after |
| Controllers.IssueToken | core/Controller.php:189-195 | the new token is last, and the oldest is dropped once ten are stored |
| Controllers.TokenIndex | core/Controller.php:217-219 | the first position holding the token, or the length when there is none |
| Controllers.RemoveAt | core/Controller.php:221-222 | removing one position closes the gap and keeps the order |
| Controllers.IssueThenCheck | core/Controller.php:219-228 | a freshly issued token is accepted within the expiry time and reported expired after it |
| Controllers.AcceptedOnce | core/Controller.php:223-226 | an accepted check empties the stored list, so any later check fails |
| Controllers.ExpiredDropped | core/Controller.php:220-228 | an expired token is removed by itself, and checking it again says unauthorised |
| Controllers.RedirectTarget | core/Controller.php:146-155 | an absolute URL is kept; otherwise scheme, host and base URL are prefixed |
| Controllers.Redirected | core/Controller.php:146-159 | status 302 Found, the content kept, `Location` set to `RedirectTarget` and every other header unchanged |
| Controllers.RedirectSent | core/Controller.php:146-159 | the sent response starts with `302 Found` and carries the `Location: <target>` line |
| Controllers.SignInRuns | core/Controller.php:61-91 | an unprotected action that logs in, sets a `success` flash and redirects returns null content, leaves `$flash` alone, stores the login and the message, and leaves the redirect response |
| Controllers.RedirectAbsolute | core/Controller.php:148-155 | the target is absolute, and redirecting to it again changes nothing |
| Controllers.Controller.constructor | core/Controller.php:42-52 | the controller name is derived from the class name; flash and action are empty |
| Controllers.Controller.Run | core/Controller.php:61-91 | flash is migrated first; the result, the flash, the session data, the response and the hook trace are those of `RunOutcome`/`RunTrace` on the migrated state |
| Controllers.Controller.CheckAndRun | core/Controller.php:66-90 | a missing action method gives NotFound, then a protected action without a login gives Unauthorized, each with nothing changed; otherwise the hooks and the body run |
| Controllers.Controller.RunAction | core/Controller.php:76-90 | the before hooks run, then the action body on the shared flash, session and response, which keep its changes; a forwarded action is NotFound without after hooks, otherwise the after hooks run and its content is returned |
| Controllers.Controller.RenderFile | core/Controller.php:102-122 | the file loaded is `ViewFile` of the views directory, the controller name and the template, the action name by default |
| Controllers.Controller.RunHooks | core/Controller.php:76-80 | the listed hooks are appended to the trace in order |
| Controllers.Controller.Redirect | core/Controller.php:146-159 | the response becomes `Redirected` of the old one |
| Controllers.Controller.GenerateCsrfToken | core/Controller.php:184-200 | a length below 1 is `random_bytes`' error with the session unchanged; otherwise the stored list becomes `IssueToken` of the old one and the token is `2 * length` hex digits |
| Controllers.Controller.CheckCsrfToken | core/Controller.php:211-232 | the outcome is `CheckOutcome` and the session data becomes `DataAfterCheck` |
| Controllers.Controller.SetFlashNow | core/Controller.php:242-250 | a valid type sets `$flash` now and unsets the stored one; otherwise an error with nothing changed |
| Controllers.Controller.SetFlash | core/Controller.php:260-267 | a valid type stores the message for the next request; otherwise an error with nothing changed |
| Controllers.Controller.SessionFlashData2Flash | core/Controller.php:274-282 | the loop computes `MigrateFlash` over the flash types |
| Applications.DirectoriesUnderRoot | core/Application.php:158-191 | the four directories lie under the root dir and are pairwise distinct |
| Applications.ControllerClassName | core/Application.php:236-243 | the class built for a controller name maps back to the lower-cased name |
| Applications.NotFoundPage | core/Application.php:278-296 | status 404 Not Found; the content shows the message in debug mode, `Page not found.` otherwise |
| Applications.NoRouteNotFound | core/Application.php:205-216 | an unroutable request sends the 404 page with `No route found for …` |
| Applications.MissingControllerNotFound | core/Application.php:236-241 | a missing controller class gives `… controller is not found.`, with the session untouched |
| Applications.ContentSent | core/Application.php:243-244 | a routed action's session changes are kept, and the response it left is sent with its returned content as the body |
| Applications.UnauthorizedRedispatch | core/Application.php:218-220 | a refused action leaves the response unchanged; the stored flash messages are consumed and lost, and the login action re-dispatches on the migrated session; the response is sent only if that succeeds |
| Applications.RefusedLosesFlash | core/Controller.php:61-73 | after a refused action the session is the migrated one: no flash message is left stored, and the response is unchanged |
| Applications.SentOnce | core/Application.php:198-224 | every sent response is `Output` of the final response state; an uncaught failure happens only after a refused action |
| Applications.ActionFrame | core/Application.php:234-245 | a non-flash session key that every registered action keeps is kept by `runAction` |
| Applications.DispatchFrame | core/Application.php:198-224 | a non-flash session key that every registered action keeps is kept by a whole request, including the login re-dispatch |
| Applications.ActionClearsFlash | core/Application.php:234-245 | when actions do not store a flash type, none is left after `runAction` reaches a controller |
| Applications.DispatchConsumesFlash | core/Application.php:198-224 | when actions do not store a flash type, a request routed to an existing controller leaves none stored |
| Applications.SignInDispatch | core/Application.php:198-224 | a routed unprotected action that logs in, flashes and redirects: the login and message are stored and `302 Found` with the `Location` and no body is sent |
| Applications.Application.constructor | core/Application.php:63-70 | fresh request, response, session (started), database manager and compiled router |
| Applications.Application.FindController | core/Application.php:253-270 | a registered class is found, an unregistered one is not |
| Applications.Application.RunAction | core/Application.php:234-245 | the result and the new session data are `ActionOutcome`; the response is `WithOutcome` |
| Applications.Application.Render404Page | core/Application.php:278-296 | the response becomes `NotFoundPage` of the old one |
| Applications.Application.Run | core/Application.php:198-224 | the result, session data and response are those of `Dispatch` on the old state |
| DbManagers.MergeGet | core/DbManager.php:26-34 | a merged key reads from the caller's parameters when present, else from the defaults |
| DbManagers.MissingParamDefaults | core/DbManager.php:26-34 | a missing driver is null; a missing dbname, host, port, user or password is `""` |
| DbManagers.MysqlDsnShape | core/DbManager.php:77-89 | the DSN starts with `driver:`…`host=`; the `;port=` suffix is there if and only if the port is not empty |
| DbManagers.DsnIgnoresDsn | core/DbManager.php:36-40 | the preset `dsn` entry does not influence the DSN built |
| DbManagers.MysqlFamilyValues | core/DbManager.php:37 | the MySQL branch is taken if and only if the driver is `mysql`, `pgsql` or boolean `true` |
| DbManagers.ConnectDsn | core/DbManager.php:26-43 | the connection fails if and only if the driver is neither MySQL-like nor `sqlite`, with the `invalid` message |
| DbManagers.NoDriverDies | core/DbManager.php:26-43 | parameters without a driver fail with the message ending in an empty driver |
| DbManagers.CachedRepository | core/DbManager.php:156-168 | a cached repository is returned unchanged; otherwise a new one is built on the connection and cached |
| DbManagers.RepositoryMemoized | core/DbManager.php:156-168 | getting a repository twice returns the same one and does not change the cache again |
| DbManagers.DbManager.constructor | core/DbManager.php:11-13 | no connections, no mapping, no repositories |
| DbManagers.DbManager.Connect | core/DbManager.php:23-69 | on success the named connection is stored with `ConnectDsn`, user and password; on failure nothing changes |
| DbManagers.DbManager.SetMysqlDsn | core/DbManager.php:77-89 | only the `dsn` entry changes, to `MysqlDsn` |
| DbManagers.DbManager.SetSqliteDsn | core/DbManager.php:97-103 | only the `dsn` entry changes, to `driver` or `driver:dbname` |
| DbManagers.DbManager.GetConnection | core/DbManager.php:111-118 | no name gives the first connection; a name gives that connection or none |
| DbManagers.DbManager.SetRepositoryConnectionMap | core/DbManager.php:127-130 | only the mapping changes, by one entry |
| DbManagers.DbManager.GetConnectionForRepository | core/DbManager.php:138-148 | a mapped repository uses its connection; the others use the default |
| DbManagers.DbManager.Get | core/DbManager.php:156-168 | the result and the cache are `CachedRepository` on the repository's connection; the name is set afterwards |
| DbManagers.DbManager.IsSet | core/DbManager.php:202-205 | set if and only if the repository is cached |
| DbManagers.DbManager.Unset | core/DbManager.php:212-215 | the repository leaves the cache and is no longer set |
| DbFields.FormatDateRoundTrip | core/DbField.php:45-47 | `Y-m-d` is ten characters and parses back to the date |
| DbFields.FormatDateTimeRoundTrip | core/DbField.php:49-51 | `Y-m-d H:i:s` is nineteen characters and parses back to the date and time |
| DbFields.Bind | core/DbField.php:30-61 | the value and type for each type name; `date`/`datetime` on a non-object is the `Error` naming the value's type; an unknown type is the exception; never `PARAM_BOOL` |
| DbFields.IntBindings | core/DbField.php:32-38 | an integer is bound by `int` as itself and by `string` as its decimal text |
| DbFields.DbField.Init | core/DbField.php:17-20 | the key, value and type are stored |
| DbFields.DbField.New | core/DbField.php:17-21 | a field holding `Bind`'s value and type, or `Bind`'s error |
| DbFields.DbField.GetKey | core/DbField.php:68-71 | the key the field was created with |
| DbFields.DbField.GetValue | core/DbField.php:78-81 | the value `Bind` chose for the constructor's input and type name; null for `null`, a boolean for `bool` |
| DbFields.DbField.GetType | core/DbField.php:88-91 | the type `Bind` chose; `int` and `bool` give `PARAM_INT`, `string`/`date`/`datetime` give `PARAM_STR`, never `PARAM_BOOL` |

## Left out

- The regular expressions `Router::resolve` builds become token-by-token segment matching. Literal route tokens are assumed to contain no regular-expression metacharacters (`PlainLiteral`).
- Routing.Router.Resolve: the text after the first `>` of a `:name` token is matched as a literal prefix of the segment; regular-expression metacharacters in it are not modelled.
- Group names are checked against PCRE's rules with its 32-character limit, the limit of the PCRE2 releases bundled up to PHP 8.3 (word characters are ASCII only outside UTF mode). Newer PCRE2 releases may accept longer names. The warning `preg_match` emits for a refused pattern is not modelled.
- Route metadata (`Params`) is a map, not an ordered array: the key order that `setRouteParams` and `array_merge` keep is lost. No code in the core reads that order.
- DbFields.Bind: the `Error` message uses PHP 8's type names (`int`, `bool`); PHP 7 writes `integer` and `boolean`.
- `urldecode` is the parameter `decode`. `random_bytes` and the clock become parameters of `GenerateCsrfToken` and `CheckCsrfToken`.
- Action bodies are application code. An action is a function of the request, the route parameters and the controller's flash, session data and response, returning them changed and either content or a `forward404`. Exceptions other than the 404 and the session-id regeneration of `setAuthenticated` inside an action are not modelled.
- Hooks are application code too: they are recorded in order as a trace, and their own side effects are not modelled.
- `class_exists`, `is_readable` and `require_once` become a registry of controller definitions (`AppConfig.registry`). The class loader is not part of this model.
- The `View` class is modelled only as far as the file it loads (`ViewFile`). Extracting variables, the layout and the output buffering are not. `renderNotFound` is a parameter.
- `setcookie`, `session_destroy` and the cookie side of `Session::clear`, and the effects of `session_start`/`session_regenerate_id` beyond running once per process.
- `header`, `echo` and the `var_dump` of debug mode in `Response::send`: the sent lines are returned instead. `ini_set` and `error_reporting` in `setDebugMode`.
- DbManagers.DbManager.Connect: PDO itself is not modelled. The connection is recorded as its DSN, user and password; the `options`, the PDO attributes and the `Could not connect` failure are left out.
- `DbRepository` and `DbManager::__destruct` (releasing PHP references) are not part of the model. A repository is its class name and connection.
- `intval` of strings with exponents or out-of-range digits, and 64-bit overflow, are not modelled. Session values cover null, booleans, integers, strings and CSRF token lists only.
- DbFields.FormatDateRoundTrip: dates are modelled only within `ValidDateTime` (four-digit years), not PHP's full `DateTime`.
- The application getters for request, response, session, database manager and router return the fields themselves; `configure` is empty.
- A request method of `false` becomes the empty string in the resolve key.
- The `login_action` entries come from `AppConfig.loginAction`; a missing entry gives `""`, as PHP's null does once concatenated.
