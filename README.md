# DMBotNetwork server: a Dafny model

This project models the protocol engine of the DMBotNetwork game server and its
message-code enumeration. It covers:

- the registry of `net_`-prefixed network functions;
- the lenient dispatch of a remote call to one of those functions;
- the authentication handshake a new connection goes through;
- the per-connection message loop and its cleanup;
- the start/stop life cycle of the server;
- the `ResponseCode` enumeration with its four band predicates.

Asyncio, sockets and the credential store are stripped away. What remains is sequential
logic over explicit state.

Modules, one per file:

| file | module | what it holds |
|---|---|---|
| `wrappers.dfy` | `Wrappers` | `Option`, `Result`, and `Outcome` (a `RuntimeError` message or success) |
| `response_code.dfy` | `ResponseCodes` | the enumeration, its wire values, `ResponseCode(n)` and the band predicates |
| `values.dfy` | `Values` | dynamically typed received values; dictionaries as ordered key/value sequences; Python truthiness, hashability, `get` and `pop` |
| `cl_unit.dfy` | `Units` | the connection unit (`ClUnit`): its login and a trace of what the server sent it; the problems an error log reports |
| `registry.dfy` | `Registry` | registration, argument filtering, type checks and dispatch as pure functions |
| `handshake.dfy` | `Authentication` | `_auth` as a pure function from configuration, live count, reply and store verdict to a handshake record |
| `session.dfy` | `Session` | one loop iteration (`Step`) and a whole run of the loop (`Run`) |
| `server.dfy` | `Coordinator` | the `Server` class: the registry, the live set and the online flag, with the methods that change them |

The state-changing parts of `server.py` are methods of `Coordinator.Server`:

- registration loop;
- `_call_func`;
- `setup_server`;
- `start` and `stop`;
- `_auth`;
- the message loop;
- `_cl_handler`.

Each of these methods is proved against the pure functions of the other modules. Everything
a connection receives is an input sequence:

- the handshake reply (a value, a timeout or a receive failure);
- the credential store's verdict;
- the envelopes of the loop.

Everything the server does to a connection is appended to the unit's `trace`: sent envelopes,
error logs and the disconnect. Every network function the server invokes is appended to
`Server.calls`.

Python semantics the code relies on are modelled explicitly:

- truthiness of `code`, `login` and `password`;
- `bool` counts as a subclass of `int` for `isinstance`;
- lists and dicts are unhashable, so `dict.get` with them as a key and
  `_cl_units[login] = …` raise `TypeError`;
- dictionaries iterate in insertion order, so the first mismatching argument is
  reported;
- a keyword given twice in `_call_func(func_name, cl_unit=…, **receive_package)`
  raises `TypeError`.

Two lines of `server.py` evidently do not do what their authors meant (see Findings). For
each, the model has an as-written member that reproduces the code and a corrected member.
The handshake, the message loop and the `Server` methods use the corrected members. Apart
from those two lines, the model follows the code:

- Two crashes are not caught by the loop's inner handlers. They end the loop with an
  unexpected-error log, but the connection is still released:
  - a package carrying a `cl_unit`, `cls` or `func_name` key;
  - an unhashable `net_func_name`.
- A login the store accepts but that cannot be a dictionary key makes line 177 raise
  outside any `try`. The handler then ends without inserting the unit and without
  disconnecting it (`HandlerEnd.LoginUnhashable`).
- Insertion overwrites an earlier unit with the same login. Release removes the login
  whichever unit holds it. So the release of an older connection evicts a newer one, and
  `Converse` states this as `clUnits == old(clUnits) - {u.login}` without requiring that `u`
  is the unit stored there.

## Model

| member | source | states |
|---|---|---|
| ResponseCodes.FromInt | DMBotNetwork/main/utils/response_code.py:3-21 | `ResponseCode(n)` yields a member exactly when `n` is some member's value, and that member's value is `n`; otherwise no member has value `n` |
| ResponseCodes.ValuesInjective | DMBotNetwork/main/utils/response_code.py:5-21 | two members have the same wire value iff they are the same member |
| ResponseCodes.FromIntRoundTrip | DMBotNetwork/main/utils/response_code.py:3-21 | `ResponseCode(c.value)` is `c`; the conversion succeeds iff the integer is a code |
| ResponseCodes.BandMembers | DMBotNetwork/main/utils/response_code.py:24-38 | `is_auth` holds exactly for 10, 11, 12, 19; `is_net` exactly for 20; `is_file` exactly for 30, 31; `is_log` exactly for 41..44 |
| ResponseCodes.BandsDisjoint | DMBotNetwork/main/utils/response_code.py:24-38 | no integer lies in two bands |
| ResponseCodes.EveryCodeInOneBand | DMBotNetwork/main/utils/response_code.py:5-38 | every member lies in exactly one band |
| ResponseCodes.NonCodeInNoBand | DMBotNetwork/main/utils/response_code.py:24-38 | an integer that is no member's value lies in no band |
| ResponseCodes.ClientAuthInAuthBand | DMBotNetwork/main/utils/response_code.py:5-8 | the assumed `is_client_auth` holds exactly for the auth-band codes other than the request and the serve answer |
| Values.GetOr | DMBotNetwork/main/server.py:232 | `d.get(k, default)`: the default when `k` is absent, otherwise a value stored under `k` |
| Values.Remove | DMBotNetwork/main/server.py:187 | after `pop(k)` the keys are the old keys minus `k`, and the entries are exactly the old entries with another key |
| Values.RemoveConcat | DMBotNetwork/main/server.py:187 | `pop` distributes over concatenation, so the remaining entries keep their order |
| Values.RemoveAbsent | DMBotNetwork/main/server.py:187 | popping a key that is absent leaves the dictionary as it was |
| Values.CodeOf | DMBotNetwork/main/server.py:236 | `ResponseCode(v)` succeeds exactly for an integer that is a code, and gives the member with that value |
| Values.GetOrRemoveOther | DMBotNetwork/main/server.py:187-193 | popping `code` does not change the lookup of `net_func_name` |
| Registry.Registered | DMBotNetwork/main/server.py:26-36 | the registry after the loop: each `net_` member in turn stored under its stripped name; its effect is stated by the three `Registered…` lemmas below |
| Registry.NetNameStrip | DMBotNetwork/main/server.py:31-32 | a name starts with `net_` and strips to `k` iff it is `"net_" + k` |
| Registry.RegisteredKeys | DMBotNetwork/main/server.py:26-36 | after registration a key is present iff it was present before or some member is named `net_` + key |
| Registry.RegisteredLatest | DMBotNetwork/main/server.py:31-33 | a key registered by several members holds the function of the last of them |
| Registry.RegisteredElsewhereUnchanged | DMBotNetwork/main/server.py:26-36 | a key no member registers keeps its old entry, or stays absent |
| Registry.Restrict | DMBotNetwork/main/server.py:50 | the kept arguments are incoming arguments with declared names, and every incoming argument with a declared name is kept |
| Registry.RestrictConcat | DMBotNetwork/main/server.py:50 | the filter distributes over concatenation, so it keeps order |
| Registry.RestrictDropsUndeclared | DMBotNetwork/main/server.py:50 | an undeclared keyword disappears from the kept arguments wherever it stands |
| Registry.IsInstance | DMBotNetwork/main/server.py:56 | `isinstance` for the modelled class hints: `object` admits everything, `bool` values are also `int`, a unit is only a `ClUnit`; defined for every hint but `Any` |
| Registry.Binds | DMBotNetwork/main/server.py:62-67 | `func(cls, **valid_kwargs)` binds iff the function takes the receiver, no keyword names the receiver again, and every other parameter without a default is supplied |
| Registry.CheckArg | DMBotNetwork/main/server.py:55-56 | intended check: passes iff the hint admits the value; as written: raises iff the hint is missing or `Any`, otherwise passes iff `isinstance` holds |
| Registry.CheckAll | DMBotNetwork/main/server.py:54-60 | all kept arguments pass iff each one passes; a mismatch names the first failing argument, all before it passing; a raise happens only as written |
| Registry.CheckArguments | DMBotNetwork/main/server.py:54-60 | the loop returns no name iff every argument is admitted; otherwise it returns the first mismatch, whose value the hint does not admit |
| Registry.Dispatch | DMBotNetwork/main/server.py:44-70 | intended `_call_func`: raises iff the name is unhashable; nothing is found iff the name is hashable but not registered; invokes iff each kept argument is admitted and the call binds; the invoked arguments are the kwargs restricted to the declared parameters; a type mismatch iff some kept argument's hint rejects it, naming a declared incoming argument; a binding failure iff all are admitted but the call does not bind |
| Registry.DispatchAsWritten | DMBotNetwork/main/server.py:44-70 | `_call_func` as written invokes iff every kept argument carries a real (non-`Any`) hint it satisfies and the call binds, with the restricted kwargs; when the first kept argument without a real hint is reached with all before it passing, it raises the `TypeError` of `isinstance(…, Any)` |
| Registry.KeptAsWritten | DMBotNetwork/main/server.py:54-70 | after the lookup, as written: invocation iff every argument has a real hint it satisfies and the call binds; the first un-hinted argument reached raises |
| Registry.CheckAllAsWrittenPasses | DMBotNetwork/main/server.py:54-60 | as written, the check loop passes iff every kept argument has a real hint it satisfies |
| Registry.CheckAllAsWrittenRaises | DMBotNetwork/main/server.py:54-56 | as written, an un-hinted kept argument reached with every earlier one passing makes the check loop raise |
| Registry.UndeclaredArgumentIgnored | DMBotNetwork/main/server.py:49-60 | adding a keyword the target does not declare never changes the dispatch result |
| Registry.HintOfUnhinted | DMBotNetwork/main/server.py:55 | when no parameter has a real hint, `type_hints.get(name, Any)` gives no real hint for any name |
| Registry.UnhintedFunctionOnlyNeedsBinding | DMBotNetwork/main/server.py:54-67 | intended dispatch to a function without real hints never reports a type mismatch: it invokes iff the call binds, and fails to bind otherwise |
| Registry.AnyGuardOrderWitness | DMBotNetwork/main/server.py:55-56 | an un-hinted `cl_unit` parameter: the intended dispatch invokes, the as-written one raises |
| Authentication.ParseReply | DMBotNetwork/main/server.py:229-244 | the reply's shape checks: with `is_client_auth` present they succeed iff the reply is a dict with code 11 or 12 and truthy login and password, giving those fields; without it they never succeed; a non-dict gives "Receive data type expected dict." |
| Authentication.Authenticate | DMBotNetwork/main/server.py:220-259 | the request is sent iff the server is not full (never full with -1); full gives exactly "Server is full."; the store is consulted iff the reply is a well-formed login/register dict and registration is allowed when requested, with `add_user` for 12 and `login_user` for 11; accepted iff the store was consulted and said ok, with the reply's (truthy) login; when the store is consulted and refuses, a `ValueError` is relayed as its own text and any other error becomes an unexpected-error log |
| Authentication.AuthenticateAsWritten | DMBotNetwork/main/server.py:236-239 | with `is_client_auth` missing, every handshake is rejected and the store is never consulted |
| Authentication.ShapeRejections | DMBotNetwork/main/server.py:229-248 | each shape check's message, reached exactly when the earlier checks pass: not a dict, falsy code, not a code, not a client-auth code, missing login/password, registration disabled |
| Authentication.NoReplyRejected | DMBotNetwork/main/server.py:160-175 | a timeout gives "Timeout for auth.", a receive failure an unexpected error; neither consults the store |
| Authentication.VerdictIrrelevantWithoutStoreCall | DMBotNetwork/main/server.py:246-255 | when the store is not consulted its verdict changes nothing |
| Authentication.HandshakeActions | DMBotNetwork/main/server.py:224 | the handshake sends `AUTH_REQ` first iff it got past the capacity check, and ends with `AUTH_ANS_SERVE` carrying `server_name` iff it accepted |
| Authentication.ClientAuthFinding | DMBotNetwork/main/server.py:238 | a valid login reply is accepted by the intended handshake and rejected as written |
| Session.RouteOf | DMBotNetwork/main/server.py:183-193 | a non-dict, a falsy code and a `NET_REQ` code are recognised exactly; a request carries `net_func_name` and the envelope minus `code` and `net_func_name`, which is the two `pop`s in turn and so keeps the order (`Values.RemoveConcat`) |
| Session.FirstKeyIn | DMBotNetwork/main/server.py:194-198 | a key of the dictionary lying in the set, with no earlier key in the set; none exactly when the two are disjoint |
| Session.Conflict | DMBotNetwork/main/server.py:194-198 | the call raises for a duplicate keyword iff the rest of the envelope carries `cl_unit`, `cls` or `func_name` |
| Session.RequestKwargs | DMBotNetwork/main/server.py:194-198 | the call's keywords are `cl_unit` first, then the rest of the envelope in order |
| Session.Step | DMBotNetwork/main/server.py:181-212 | an iteration sends at most one error log; it ends the loop iff the receive failed or the request raised (duplicate keyword, unhashable name), and then with exactly one log and no call; a call is made iff the envelope is a `NET_REQ` request without a duplicate keyword that `Dispatch` invokes, with the registered function and the kwargs restricted to its parameters; each non-request gets its own fixed error text, a receive failure, a duplicate keyword and a raise each get their unexpected-error log; a kept-alive iteration is silent iff it is a request |
| Session.Run | DMBotNetwork/main/server.py:180-212 | the loop over the received values: each `Step` in turn until one ends the loop; its effect is stated by the `Run…` lemmas below |
| Session.RunAdvance | DMBotNetwork/main/server.py:180-212 | a run unfolds as its first iteration followed by the run of the rest, unless that iteration ends the loop |
| Session.RunProgress | DMBotNetwork/main/server.py:180-212 | one iteration keeps the loop invariant: what was done so far followed by the run of the remaining values is the whole run; an iteration that ends the loop completes it and marks it crashed |
| Session.RunOnlyLogsErrors | DMBotNetwork/main/server.py:180-212 | the loop only ever sends error logs, at most one per received value, and makes at most one call per received value |
| Session.RunStopsAtExit | DMBotNetwork/main/server.py:203-212 | nothing after the first loop-ending iteration is looked at, and such a run is marked crashed |
| Session.RunWithoutExit | DMBotNetwork/main/server.py:181-201 | if no iteration ends the loop, the run does not crash and sends exactly one log per undispatched envelope |
| Session.MissingCodeKeepsConnection | DMBotNetwork/main/server.py:187-190 | an envelope without `code` gets "Receive data must has 'code' key." and the loop goes on |
| Session.UnknownFunctionIsNoop | DMBotNetwork/main/server.py:44-47 | a request for an unregistered name is dropped silently and the loop goes on |
| Coordinator.ReplaceThenPop | DMBotNetwork/main/server.py:177 | inserting under a login and popping it leaves the live set without that login, whatever held it before |
| Coordinator.Server.constructor | DMBotNetwork/main/server.py:14-23 | the class-level defaults: empty registry and live set, offline, "Dev_Server", registration allowed, no player limit |
| Coordinator.Server.RegisterMethodsFromClass | DMBotNetwork/main/server.py:26-36 | the loop leaves the registry equal to `Registered` of the old registry and the members |
| Coordinator.Server.CallFunc | DMBotNetwork/main/server.py:39-70 | the result is `Dispatch` of the registry, name and kwargs; exactly an invocation is recorded in `calls` |
| Coordinator.Server.Setup | DMBotNetwork/main/server.py:85-94 | the server name, registration flag and player limit are set and the server is configured |
| Coordinator.Server.Start | DMBotNetwork/main/server.py:98-109 | fails with "Server is not initialized." when unconfigured, "Server already start." when online; otherwise goes online |
| Coordinator.Server.Stop | DMBotNetwork/main/server.py:123-130 | fails with "Server is not working." and no change when offline; otherwise goes offline, appends one disconnect to every live unit and empties the live set; it can change nothing but the online flag, the live set and the units' traces |
| Coordinator.Server.LiveUnitsDistinct | DMBotNetwork/main/server.py:177 | while every unit is stored under its own login, two logins never share a unit |
| Coordinator.Server.Auth | DMBotNetwork/main/server.py:220-259 | the handshake is `Authenticate` of the configuration and the live count; the unit receives its envelopes and adopts the login only on acceptance |
| Coordinator.Server.Serve | DMBotNetwork/main/server.py:182-201 | one iteration does to the unit and to `calls` exactly what `Step` says, and exits when `Step` does |
| Coordinator.Server.MessageLoop | DMBotNetwork/main/server.py:180-212 | the loop does exactly what `Run` says while online and nothing when offline |
| Coordinator.Server.Converse | DMBotNetwork/main/server.py:180-216 | the loop, then the pop of the login and one disconnect, on every exit path |
| Coordinator.Server.Admit | DMBotNetwork/main/server.py:157-178 | a fresh unit does the handshake; rejection logs the problem and disconnects without touching the live set; acceptance inserts the unit under its hashable login |
| Coordinator.Server.ClHandler | DMBotNetwork/main/server.py:154-217 | a whole connection: rejection (login stays "init", log, disconnect, live set unchanged); an unhashable login (no insert, no disconnect); or the loop, after which exactly the login is gone from the live set and the unit was disconnected once |
| Units.ClUnit.constructor | DMBotNetwork/main/server.py:157 | a new unit has the login "init" and an empty trace |

## Left out

- Asyncio scheduling, `start_server`, `serve_forever`, `wait_closed` and concurrent handlers. Handlers run one at a time, so a `stop` between two loop iterations is not modelled.
- Coordinator.Server.MessageLoop: reads `_is_online` once: concurrent handlers are left out, and invoked network functions are assumed not to change the server's state.
- An invoked network function's own effects are not modelled: what it sends, and any change it makes to the registry, the live set or the online flag (it receives the server class and could call `stop`). Only the invocation is recorded in `Server.calls`.
- Coordinator.Server.Stop: records the disconnects as done. The source only schedules them through an un-awaited `asyncio.gather`.
- The `asyncio.wait_for` timeout is an input outcome (`TimedOut`), not a time.
- Authentication.NoReplyRejected: assumes Python 3.11 or later, where `asyncio.TimeoutError` is the built-in `TimeoutError` caught at line 162. Under 3.10 a timeout falls through to line 172 and is logged as an unexpected error instead.
- Coordinator.Server.CallFunc: uses the corrected type check (`Registry.Dispatch`). As written, a kept argument without a real hint raises `TypeError` out of `_call_func`; that behaviour is `Registry.DispatchAsWritten`.
- Session.Step: uses the corrected type check too. As written, such a request would end the loop with an unexpected-error log, which is `Registry.DispatchAsWritten` returning `Raised`.
- Coordinator.Server.Auth: uses the corrected handshake (`Authentication.Authenticate`). As written, every reply that gets past line 236 raises `AttributeError` at line 238 and is rejected with an unexpected-error log; that behaviour is `Authentication.AuthenticateAsWritten`.
- Coordinator.Server.Admit: uses the corrected handshake through `Auth`, so as written no connection would be admitted.
- Coordinator.Server.ClHandler: uses the corrected handshake through `Admit`; as written every connection ends in the rejection branch.
- Coordinator.Server.Start: models the two checks and going online only. Serving itself is left out, and so is the `finally` that calls `stop()` once serving ends.
- Values.Fields: a dictionary is an ordered entry sequence, which could repeat a key. A Python dictionary cannot, so a decoded envelope never does. Only on sequences without a repeated key do `GetOr` (first match) and `Remove` (every match) agree with `get` and `pop`.
- Registry.Param: has no kind, so `*args` and `**kwargs` parameters of a network function are not modelled; a `**kwargs` parameter would keep only the keyword literally named after it.
- `ServerDB` (`add_user`, `login_user`, `start`, `stop` and its configuration) is not part of this model. It is an external store; its verdict is an input: ok, a `ValueError` text, or another error.
- `ClUnit`'s send, receive and disconnect are recorded in a trace, not performed. Its framing and codec are not part of this model.
- The end of the received sequence stands for a disconnect-class failure (reset, abort, truncated read, cancellation). These end the loop silently.
- `inspect.getmembers`, `inspect.signature` and `get_type_hints` are replaced by explicit records. A function is its qualified name plus ordered parameters, each with a name, an optional type tag and whether it has a default.
- Registry.IsInstance: covers only class hints (object, NoneType, bool, int, str, list, dict, ClUnit). Union, generic and forward-reference hints are left out, and so are errors from `get_type_hints` itself.
- Coroutine versus plain invocation does not change the outcome, so both are one `Invoked` result.
- An exception raised inside an invoked function is not modelled. The code catches and logs it, like a binding failure (`CallFailed`).
- Logging calls have no observable effect on state and are dropped.
- Received values are `None`, bool, int, str, list and string-keyed dict. Floats, bytes and non-string keys are left out, and so is `True == 1` key equality. The `TypeError` of a non-string `**` key is therefore not modelled.
- Problem.NotACode: carries the offending value, not the exact text of Python's `ValueError`.
- Units.Fault.NoClientAuthPredicate: stands for the `AttributeError` text, which varies with the Python version.
- `broadcast` is not part of this model: it is outside the protocol engine.
- `setup_server` keeps only the server name, registration flag, player limit and "configured". The host, port, timeout value and database settings go to the transport and the store, which are not part of this model.
- `DMBotNetwork/__init__.py` only re-exports names and has no logic.

## Findings

| source | as written | input that shows it | evidently intended | confidence | as-written member | corrected member |
|---|---|---|---|---|---|---|
| DMBotNetwork/main/server.py:238 | `ResponseCode.is_client_auth(code)` is called, but `response_code.py` defines no such method. The `AttributeError` is caught at line 172, so every well-formed reply is rejected with "An unexpected error occurred". | `{"code": 11, "login": "bob", "password": "pw"}` with no player limit and the store accepting (Authentication.ClientAuthFinding) | the reply is accepted when its code is `AUTH_ANS_LOGIN` or `AUTH_ANS_REGIS` | high, not executed | Authentication.AuthenticateAsWritten | Authentication.Authenticate |
| DMBotNetwork/main/server.py:56 | `not isinstance(arg_value, expected_type) and expected_type is not Any` evaluates `isinstance(…, Any)` first. `Any` is also the default for an un-hinted parameter, and `isinstance` raises `TypeError` for it outside the `try`, which ends the connection's loop. | a function `net_ping(cls, cl_unit)` without hints, called with only `cl_unit` (Registry.AnyGuardOrderWitness) | un-hinted and `Any` parameters pass the check, so the function is invoked | high, not executed | Registry.DispatchAsWritten | Registry.Dispatch |
