/**
 * The per-connection message loop: how each received envelope is classified
 * and answered, and what a whole run of the loop does to the connection.
 */
module Session {
  import opened Wrappers
  import opened ResponseCodes
  import opened Values
  import opened Units
  import opened Registry

  /**
   * One receive of the loop. The end of the sequence of receives stands for a
   * disconnect-class failure (reset, abort, truncated read, cancellation),
   * which ends the loop silently.
   */
  datatype Inbound = Package(v: Value) | ReceiveFailed(err: string)

  /** The classification of a received value. */
  datatype Route = NotADict | NoCode | UnknownCode | NetRequest(name: Value, rest: Fields)

  function RouteOf(v: Value): (r: Route)
    ensures r == NotADict <==> !v.VDict?
    ensures r == NoCode <==> v.VDict? && !Truthy(GetOr(v.fields, "code", VNone))
    ensures r.NetRequest? <==> v.VDict? && IsNetValue(GetOr(v.fields, "code", VNone))
    ensures r.NetRequest? ==> r.name == GetOr(v.fields, "net_func_name", VNone)
    ensures r.NetRequest? ==> Keys(r.rest) == Keys(v.fields) - {"code", "net_func_name"}
    ensures r.NetRequest? ==> forall e :: e in r.rest <==> e in v.fields && e.0 != "code" && e.0 != "net_func_name"
    ensures r.NetRequest? ==> r.rest == Remove(Remove(v.fields, "code"), "net_func_name")
  {
    if !v.VDict? then NotADict
    else
      var code := GetOr(v.fields, "code", VNone);
      var fields := Remove(v.fields, "code");
      if !Truthy(code) then NoCode
      else if IsNetValue(code) then
        GetOrRemoveOther(v.fields, "code", "net_func_name", VNone);
        NetRequest(GetOr(fields, "net_func_name", VNone), Remove(fields, "net_func_name"))
      else UnknownCode
  }

  /** The first key of `f` that lies in `ks`. */
  function FirstKeyIn(f: Fields, ks: set<string>): (r: Option<string>)
    ensures r.Some? ==> r.value in ks && r.value in Keys(f)
    ensures r.None? ==> Keys(f) !! ks
    ensures r.Some? ==> exists i :: 0 <= i < |f| && f[i].0 == r.value && forall j :: 0 <= j < i ==> f[j].0 !in ks
  {
    if f == [] then None
    else if f[0].0 in ks then Some(f[0].0)
    else
      var r := FirstKeyIn(f[1..], ks);
      assert forall i :: 0 < i < |f| ==> f[i] == f[1..][i - 1];
      r
  }

  /**
   * The keyword given twice in `_call_func(func_name, cl_unit=..., **rest)`:
   * `cl_unit` is caught when the keywords are merged, `cls` and `func_name`
   * when they are bound to `_call_func`'s own parameters.
   */
  function Conflict(rest: Fields): (r: Option<string>)
    ensures r.None? <==> "cl_unit" !in Keys(rest) && "cls" !in Keys(rest) && "func_name" !in Keys(rest)
    ensures r.Some? ==> r.value in Keys(rest)
  {
    if "cl_unit" in Keys(rest) then Some("cl_unit") else FirstKeyIn(rest, {"cls", "func_name"})
  }

  /** The keyword arguments of the call: the unit first, then the rest of the envelope. */
  function RequestKwargs(u: ClUnit, rest: Fields): (r: Kwargs)
    ensures |r| == |rest| + 1 && r[0] == ("cl_unit", UnitArg(u))
    ensures forall i :: 0 <= i < |rest| ==> r[i + 1] == (rest[i].0, Data(rest[i].1))
  {
    [("cl_unit", UnitArg(u))] + seq(|rest|, i requires 0 <= i < |rest| => (rest[i].0, Data(rest[i].1)))
  }

  /** The error-log replies of the loop for envelopes it does not dispatch. */
  const NotADictReply := ErrorLog(Says("Receive data type expected dict."))
  const NoCodeReply := ErrorLog(Says("Receive data must has 'code' key."))
  const UnknownCodeReply := ErrorLog(Says("Unknown 'code' for net type."))

  /** What one iteration sends, whether it invokes a function, and whether the loop ends. */
  datatype StepResult = StepResult(actions: seq<Action>, call: Option<Invocation>, exits: bool)

  function Step(funcs: map<string, NetFunc>, u: ClUnit, inbound: Inbound): (r: StepResult)
    ensures |r.actions| <= 1 && forall i :: 0 <= i < |r.actions| ==> r.actions[i].ErrorLog?
    ensures r.exits ==> |r.actions| == 1 && r.call.None?
    ensures r.exits <==>
              || inbound.ReceiveFailed?
              || (var route := RouteOf(inbound.v);
                  route.NetRequest? && (Conflict(route.rest).Some? || !Hashable(route.name)))
    ensures r.call.Some? ==>
              && var route := RouteOf(inbound.v);
              && inbound.Package? && route.NetRequest? && Found(funcs, route.name)
              && r.call.value.name == route.name.s && r.call.value.func == funcs[route.name.s]
    ensures !r.exits && inbound.Package? ==>
              (r.actions == [] <==> RouteOf(inbound.v).NetRequest?)
    ensures r.call.Some? <==>
              && inbound.Package?
              && var route := RouteOf(inbound.v);
              && route.NetRequest? && Conflict(route.rest).None?
              && Dispatch(funcs, route.name, RequestKwargs(u, route.rest)).Invoked?
    ensures r.call.Some? ==>
              r.call.value.args == Restrict(RequestKwargs(u, RouteOf(inbound.v).rest), Names(r.call.value.func.params))
    ensures inbound.ReceiveFailed? ==> r.actions == [ErrorLog(Unexpected(ReceiveError(inbound.err)))]
    ensures inbound.Package? && RouteOf(inbound.v) == NotADict ==> r.actions == [NotADictReply]
    ensures inbound.Package? && RouteOf(inbound.v) == NoCode ==> r.actions == [NoCodeReply]
    ensures inbound.Package? && RouteOf(inbound.v) == UnknownCode ==> r.actions == [UnknownCodeReply]
    ensures inbound.Package? && RouteOf(inbound.v).NetRequest? && Conflict(RouteOf(inbound.v).rest).Some? ==>
              r.actions == [ErrorLog(Unexpected(DuplicateKeyword(Conflict(RouteOf(inbound.v).rest).value)))]
    ensures inbound.Package? && RouteOf(inbound.v).NetRequest? && Conflict(RouteOf(inbound.v).rest).None? ==>
              var d := Dispatch(funcs, RouteOf(inbound.v).name, RequestKwargs(u, RouteOf(inbound.v).rest));
              d.Raised? ==> r.actions == [ErrorLog(Unexpected(d.f))]
  {
    match inbound
    case ReceiveFailed(err) => StepResult([ErrorLog(Unexpected(ReceiveError(err)))], None, true)
    case Package(v) =>
      match RouteOf(v)
      case NotADict => StepResult([NotADictReply], None, false)
      case NoCode => StepResult([NoCodeReply], None, false)
      case UnknownCode => StepResult([UnknownCodeReply], None, false)
      case NetRequest(name, rest) =>
        match Conflict(rest)
        case Some(k) => StepResult([ErrorLog(Unexpected(DuplicateKeyword(k)))], None, true)
        case None =>
          match Dispatch(funcs, name, RequestKwargs(u, rest))
          case Raised(f) => StepResult([ErrorLog(Unexpected(f))], None, true)
          case Invoked(f, args) => StepResult([], Some(Invocation(name.s, f, args)), false)
          case _ => StepResult([], None, false)
  }

  /** What a run of the loop sends and invokes, and whether it ended by an unexpected error. */
  datatype SessionLog = SessionLog(actions: seq<Action>, calls: seq<Invocation>, crashed: bool)

  function Run(funcs: map<string, NetFunc>, u: ClUnit, inbox: seq<Inbound>): SessionLog
    decreases |inbox|
  {
    if inbox == [] then SessionLog([], [], false)
    else
      var s := Step(funcs, u, inbox[0]);
      var calls := if s.call.Some? then [s.call.value] else [];
      if s.exits then SessionLog(s.actions, calls, true)
      else
        var rest := Run(funcs, u, inbox[1..]);
        SessionLog(s.actions + rest.actions, calls + rest.calls, rest.crashed)
  }

  /**
   * `Run` on a suffix of the received values, unfolded once: an iteration that
   * ends the loop is all of it; any other one prefixes its effects to the rest
   * of the run, after whatever `trace` and `called` already hold.
   */
  lemma RunAdvance(funcs: map<string, NetFunc>, u: ClUnit, inbox: seq<Inbound>, i: nat,
                   trace: seq<Action>, called: seq<Invocation>)
    requires i < |inbox|
    ensures
      var s := Step(funcs, u, inbox[i]);
      var made := if s.call.Some? then [s.call.value] else [];
      var now := Run(funcs, u, inbox[i..]);
      var later := Run(funcs, u, inbox[i + 1..]);
      && (s.exits ==> now == SessionLog(s.actions, made, true))
      && (!s.exits ==>
            && trace + now.actions == (trace + s.actions) + later.actions
            && called + now.calls == (called + made) + later.calls
            && now.crashed == later.crashed)
  {
    assert inbox[i..][0] == inbox[i] && inbox[i..][1..] == inbox[i + 1..];
    var s := Step(funcs, u, inbox[i]);
    var made := if s.call.Some? then [s.call.value] else [];
    var later := Run(funcs, u, inbox[i + 1..]);
    AppendAssoc(trace, s.actions, later.actions);
    AppendAssoc(called, made, later.calls);
  }

  /**
   * The loop's invariant across one iteration: what has been done so far
   * (`trace`, `called`) followed by the run of the remaining values is the
   * whole run, and it stays so once the iteration's effects are appended;
   * an iteration that ends the loop completes the whole run.
   */
  lemma RunProgress(funcs: map<string, NetFunc>, u: ClUnit, inbox: seq<Inbound>, i: nat,
                    trace0: seq<Action>, called0: seq<Invocation>,
                    trace: seq<Action>, called: seq<Invocation>,
                    trace': seq<Action>, called': seq<Invocation>)
    requires i < |inbox|
    requires trace0 + Run(funcs, u, inbox).actions == trace + Run(funcs, u, inbox[i..]).actions
    requires called0 + Run(funcs, u, inbox).calls == called + Run(funcs, u, inbox[i..]).calls
    requires Run(funcs, u, inbox).crashed == Run(funcs, u, inbox[i..]).crashed
    requires trace' == trace + Step(funcs, u, inbox[i]).actions
    requires called' == called + (var s := Step(funcs, u, inbox[i]); if s.call.Some? then [s.call.value] else [])
    ensures Step(funcs, u, inbox[i]).exits ==>
              && trace' == trace0 + Run(funcs, u, inbox).actions
              && called' == called0 + Run(funcs, u, inbox).calls
              && Run(funcs, u, inbox).crashed
    ensures !Step(funcs, u, inbox[i]).exits ==>
              && trace0 + Run(funcs, u, inbox).actions == trace' + Run(funcs, u, inbox[i + 1..]).actions
              && called0 + Run(funcs, u, inbox).calls == called' + Run(funcs, u, inbox[i + 1..]).calls
              && Run(funcs, u, inbox).crashed == Run(funcs, u, inbox[i + 1..]).crashed
  {
    RunAdvance(funcs, u, inbox, i, trace, called);
  }

  lemma AppendAssoc<T>(a: seq<T>, b: seq<T>, c: seq<T>)
    ensures a + (b + c) == (a + b) + c
  {
  }

  /** The loop never sends anything but error logs and never disconnects by itself. */
  lemma {:induction false} RunOnlyLogsErrors(funcs: map<string, NetFunc>, u: ClUnit, inbox: seq<Inbound>)
    ensures forall i :: 0 <= i < |Run(funcs, u, inbox).actions| ==> Run(funcs, u, inbox).actions[i].ErrorLog?
    ensures |Run(funcs, u, inbox).actions| <= |inbox|
    ensures |Run(funcs, u, inbox).calls| <= |inbox|
    decreases |inbox|
  {
    if inbox != [] && !Step(funcs, u, inbox[0]).exits {
      RunOnlyLogsErrors(funcs, u, inbox[1..]);
    }
  }

  /** Nothing received after the first iteration that ends the loop is ever looked at. */
  lemma {:induction false} RunStopsAtExit(funcs: map<string, NetFunc>, u: ClUnit, inbox: seq<Inbound>, k: nat)
    requires k < |inbox| && Step(funcs, u, inbox[k]).exits
    requires forall j :: 0 <= j < k ==> !Step(funcs, u, inbox[j]).exits
    ensures Run(funcs, u, inbox) == Run(funcs, u, inbox[..k + 1])
    ensures Run(funcs, u, inbox).crashed
    decreases k
  {
    if k > 0 {
      assert inbox[1..][..k] == inbox[..k + 1][1..];
      assert forall j :: 0 <= j < k - 1 ==> inbox[1..][j] == inbox[j + 1];
      RunStopsAtExit(funcs, u, inbox[1..], k - 1);
    }
  }

  /** How many of the received values the loop does not route to the registry. */
  function Undispatched(inbox: seq<Inbound>): nat
    decreases |inbox|
  {
    if inbox == [] then 0
    else (if inbox[0].Package? && !RouteOf(inbox[0].v).NetRequest? then 1 else 0) + Undispatched(inbox[1..])
  }

  /**
   * A run in which no iteration ends the loop keeps the connection through
   * every envelope and answers exactly the undispatched ones, one error log each.
   */
  lemma {:induction false} RunWithoutExit(funcs: map<string, NetFunc>, u: ClUnit, inbox: seq<Inbound>)
    requires forall j :: 0 <= j < |inbox| ==> !Step(funcs, u, inbox[j]).exits
    ensures !Run(funcs, u, inbox).crashed
    ensures |Run(funcs, u, inbox).actions| == Undispatched(inbox)
    decreases |inbox|
  {
    if inbox != [] {
      assert forall j :: 0 <= j < |inbox[1..]| ==> inbox[1..][j] == inbox[j + 1];
      RunWithoutExit(funcs, u, inbox[1..]);
    }
  }

  /** An envelope without a truthy code is answered with one error log and the loop goes on. */
  lemma MissingCodeKeepsConnection(funcs: map<string, NetFunc>, u: ClUnit, fields: Fields)
    requires "code" !in Keys(fields)
    ensures Step(funcs, u, Package(VDict(fields))) == StepResult([NoCodeReply], None, false)
  {
  }

  /** A request naming a function that is not registered is dropped without reply. */
  lemma UnknownFunctionIsNoop(funcs: map<string, NetFunc>, u: ClUnit, v: Value)
    requires RouteOf(v).NetRequest? && Conflict(RouteOf(v).rest).None?
    requires Hashable(RouteOf(v).name) && !Found(funcs, RouteOf(v).name)
    ensures Step(funcs, u, Package(v)) == StepResult([], None, false)
  {
  }
}
