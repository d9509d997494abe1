/**
 * The server coordinator: the registry of network functions, the set of live
 * connections keyed by login, the online flag and the configuration, with
 * the operations that change them.
 */
module Coordinator {
  import opened Wrappers
  import opened ResponseCodes
  import opened Values
  import opened Units
  import opened Registry
  import opened Authentication
  import opened Session

  /** How a connection handler ended. */
  datatype HandlerEnd =
    | AuthFailed(problem: Problem)   // the handshake failed; the peer was told and disconnected
    | LoginUnhashable                // inserting the unit raised; the exception leaves the handler
    | LoopEnded(crashed: bool)       // the message loop ran; `crashed` if it ended on an unexpected error

  /**
   * Admitting a unit under a login and releasing it leaves the live set
   * without that login, whether or not another unit held it before.
   */
  lemma ReplaceThenPop(m: map<Value, ClUnit>, k: Value, u: ClUnit)
    ensures m[k := u] - {k} == m - {k}
  {
  }

  class Server {
    var networkFuncs: map<string, NetFunc>
    var clUnits: map<Value, ClUnit>
    var configured: bool          // the listening socket exists
    var isOnline: bool
    var serverName: string
    var allowRegistration: bool
    var maxPlayers: int           // -1: no limit
    var calls: seq<Invocation>    // the network functions invoked so far

    /** Every live unit is stored under its own login, which is hashable. */
    predicate Valid()
      reads this, clUnits.Values
    {
      forall k :: k in clUnits ==> Hashable(k) && clUnits[k].login == k
    }

    /** Under `Valid`, two different logins never share a unit: the map is a one-to-one index. */
    lemma LiveUnitsDistinct(k1: Value, k2: Value)
      requires Valid() && k1 in clUnits && k2 in clUnits && k1 != k2
      ensures clUnits[k1] != clUnits[k2]
    {
    }

    /** The class-level defaults. */
    constructor ()
      ensures Valid()
      ensures networkFuncs == map[] && clUnits == map[] && calls == []
      ensures !configured && !isOnline
      ensures serverName == "Dev_Server" && allowRegistration && maxPlayers == -1
    {
      networkFuncs := map[];
      clUnits := map[];
      configured := false;
      isOnline := false;
      serverName := "Dev_Server";
      allowRegistration := true;
      maxPlayers := -1;
      calls := [];
    }

    /** `register_methods_from_class`, given the class's functions as `inspect.getmembers` lists them. */
    method RegisterMethodsFromClass(members: seq<(string, NetFunc)>)
      modifies this`networkFuncs
      ensures networkFuncs == Registered(old(networkFuncs), members)
    {
      var i := 0;
      while i < |members|
        invariant 0 <= i <= |members|
        invariant networkFuncs == Registered(old(networkFuncs), members[..i])
      {
        var (name, func) := members[i];
        if IsNetName(name) {
          networkFuncs := networkFuncs[name[4..] := func];
        }
        assert members[..i + 1][..i] == members[..i];
        i := i + 1;
      }
      assert members[..|members|] == members;
    }

    /** `_call_func`: look the name up, keep the declared arguments, check them, invoke. */
    method CallFunc(name: Value, kwargs: Kwargs) returns (r: CallResult)
      modifies this`calls
      ensures r == Dispatch(networkFuncs, name, kwargs)
      ensures calls == old(calls) + (if r.Invoked? then [Invocation(name.s, r.func, r.args)] else [])
    {
      if !Hashable(name) {
        return Raised(UnhashableFuncName);
      }
      if !(name.VStr? && name.s in networkFuncs) {
        return NotFound;
      }
      var f := networkFuncs[name.s];
      var valid := Restrict(kwargs, Names(f.params));
      var bad := CheckArguments(f.params, valid);
      if bad.Some? {
        return TypeMismatch(bad.value);
      }
      if !Binds(f.params, valid) {
        return CallFailed;
      }
      calls := calls + [Invocation(name.s, f, valid)];
      r := Invoked(f, valid);
    }

    /** `setup_server`, for the parts of the configuration the protocol reads. */
    method Setup(name: string, registration: bool, maxPlayer: int)
      modifies this`serverName, this`allowRegistration, this`maxPlayers, this`configured
      ensures serverName == name && allowRegistration == registration && maxPlayers == maxPlayer
      ensures configured
    {
      serverName := name;
      allowRegistration := registration;
      maxPlayers := maxPlayer;
      configured := true;
    }

    /** `start`, up to serving: it refuses an unconfigured or already running server. */
    method Start() returns (r: Outcome)
      modifies this`isOnline
      ensures !configured ==> r == Fail("Server is not initialized.") && isOnline == old(isOnline)
      ensures configured && old(isOnline) ==> r == Fail("Server already start.") && isOnline
      ensures r.Pass? <==> configured && !old(isOnline)
      ensures isOnline <==> old(isOnline) || r.Pass?
    {
      if !configured {
        return Fail("Server is not initialized.");
      }
      if isOnline {
        return Fail("Server already start.");
      }
      isOnline := true;
      r := Pass;
    }

    /** `stop`: go offline, request every live unit's disconnect and forget them all. */
    method Stop() returns (r: Outcome)
      requires Valid()
      modifies this`isOnline, this`clUnits, clUnits.Values`trace
      ensures r.Pass? <==> old(isOnline)
      ensures r.Fail? ==> r.message == "Server is not working." && unchanged(this)
      ensures r.Fail? ==> forall u :: u in old(clUnits.Values) ==> unchanged(u)
      ensures r.Pass? ==> !isOnline && clUnits == map[]
      ensures r.Pass? ==> forall u :: u in old(clUnits.Values) ==>
                u.trace == old(u.trace) + [Disconnect] && u.login == old(u.login)
      ensures networkFuncs == old(networkFuncs) && calls == old(calls) && configured == old(configured)
      ensures Valid()
    {
      if !isOnline {
        return Fail("Server is not working.");
      }
      isOnline := false;
      forall u | u in clUnits.Values {
        u.trace := u.trace + [Disconnect];
      }
      clUnits := map[];
      r := Pass;
    }

    /** `_auth`: run the handshake with the unit, adopting the login on success. */
    method Auth(u: ClUnit, reply: AuthReply, verdict: StoreVerdict) returns (h: Handshake)
      modifies u
      ensures h == Authenticate(maxPlayers, |clUnits|, allowRegistration, reply, verdict)
      ensures u.trace == old(u.trace) + HandshakeActions(h, serverName)
      ensures u.login == if h.outcome.Accepted? then h.outcome.login else old(u.login)
    {
      h := Authenticate(maxPlayers, |clUnits|, allowRegistration, reply, verdict);
      if h.requested {
        u.trace := u.trace + [Sent(AuthReq, [])];
      }
      if h.outcome.Accepted? {
        u.login := h.outcome.login;
        u.trace := u.trace + [Sent(AuthAnsServe, [("server_name", VStr(serverName))])];
      }
    }

    /** One iteration of the message loop. */
    method Serve(u: ClUnit, inbound: Inbound) returns (exits: bool)
      modifies u`trace, this`calls
      ensures var s := Step(networkFuncs, u, inbound);
        && exits == s.exits
        && u.trace == old(u.trace) + s.actions
        && calls == old(calls) + (if s.call.Some? then [s.call.value] else [])
    {
      match inbound {
        case ReceiveFailed(err) =>
          u.trace := u.trace + [ErrorLog(Unexpected(ReceiveError(err)))];
          return true;
        case Package(v) =>
          if !v.VDict? {
            u.trace := u.trace + [NotADictReply];
            return false;
          }
          var code := GetOr(v.fields, "code", VNone);
          var rest := Remove(v.fields, "code");
          if !Truthy(code) {
            u.trace := u.trace + [NoCodeReply];
            return false;
          }
          if !IsNetValue(code) {
            u.trace := u.trace + [UnknownCodeReply];
            return false;
          }
          var funcName := GetOr(rest, "net_func_name", VNone);
          rest := Remove(rest, "net_func_name");
          assert RouteOf(v) == NetRequest(funcName, rest);
          var conflict := Conflict(rest);
          if conflict.Some? {
            u.trace := u.trace + [ErrorLog(Unexpected(DuplicateKeyword(conflict.value)))];
            return true;
          }
          var d := CallFunc(funcName, RequestKwargs(u, rest));
          if d.Raised? {
            u.trace := u.trace + [ErrorLog(Unexpected(d.f))];
            return true;
          }
          exits := false;
      }
    }

    /** The `while` loop of the handler: serve received envelopes while online, until one ends it. */
    method MessageLoop(u: ClUnit, inbox: seq<Inbound>) returns (crashed: bool)
      modifies u`trace, this`calls
      ensures
        var run := if isOnline then Run(networkFuncs, u, inbox) else SessionLog([], [], false);
        && u.trace == old(u.trace) + run.actions
        && calls == old(calls) + run.calls
        && crashed == run.crashed
    {
      if !isOnline {
        return false;
      }
      ghost var funcs := networkFuncs;
      ghost var run := Run(funcs, u, inbox);
      var i := 0;
      while i < |inbox|
        invariant 0 <= i <= |inbox| && networkFuncs == funcs
        invariant old(u.trace) + run.actions == u.trace + Run(funcs, u, inbox[i..]).actions
        invariant old(calls) + run.calls == calls + Run(funcs, u, inbox[i..]).calls
        invariant run.crashed == Run(funcs, u, inbox[i..]).crashed
      {
        ghost var trace, called := u.trace, calls;
        var exits := Serve(u, inbox[i]);
        RunProgress(funcs, u, inbox, i, old(u.trace), old(calls), trace, called, u.trace, calls);
        if exits {
          return true;
        }
        i := i + 1;
      }
      assert inbox[i..] == [];
      crashed := false;
    }

    /**
     * The second half of `_cl_handler` for an admitted unit: the message loop,
     * then the pop of the unit's login and its disconnect.
     */
    method Converse(u: ClUnit, inbox: seq<Inbound>) returns (crashed: bool)
      requires Valid()
      modifies this`clUnits, this`calls, u`trace
      ensures
        var run := if isOnline then Run(networkFuncs, u, inbox) else SessionLog([], [], false);
        && u.trace == old(u.trace) + run.actions + [Disconnect]
        && calls == old(calls) + run.calls
        && crashed == run.crashed
      ensures clUnits == old(clUnits) - {u.login}
      ensures Valid()
    {
      crashed := MessageLoop(u, inbox);
      clUnits := clUnits - {u.login};
      u.trace := u.trace + [Disconnect];
    }

    /**
     * The first half of `_cl_handler`: a fresh unit, the handshake, then either
     * the error log and the disconnect, or the insertion under the adopted login.
     */
    method Admit(reply: AuthReply, verdict: StoreVerdict) returns (u: ClUnit, h: Handshake, admitted: bool)
      requires Valid()
      modifies this`clUnits
      ensures fresh(u)
      ensures h == Authenticate(old(maxPlayers), |old(clUnits)|, old(allowRegistration), reply, verdict)
      ensures admitted <==> h.outcome.Accepted? && Hashable(h.outcome.login)
      ensures h.outcome.Rejected? ==>
                && u.trace == HandshakeActions(h, old(serverName)) + [ErrorLog(h.outcome.problem), Disconnect]
                && u.login == VStr("init")
      ensures h.outcome.Accepted? ==>
                u.trace == HandshakeActions(h, old(serverName)) && u.login == h.outcome.login
      ensures clUnits == if admitted then old(clUnits)[u.login := u] else old(clUnits)
      ensures Valid()
    {
      u := new ClUnit();
      h := Auth(u, reply, verdict);
      assert u.trace == HandshakeActions(h, serverName);
      if h.outcome.Rejected? {
        u.trace := u.trace + [ErrorLog(h.outcome.problem), Disconnect];
        return u, h, false;
      }
      if !Hashable(u.login) {
        return u, h, false;
      }
      clUnits := clUnits[u.login := u];
      admitted := true;
    }

    /**
     * `_cl_handler` for one accepted connection: handshake, admission to the
     * live set, the message loop over `inbox`, and the release. The handshake
     * sees the configuration and the live set as they were on arrival.
     */
    method ClHandler(reply: AuthReply, verdict: StoreVerdict, inbox: seq<Inbound>) returns (u: ClUnit, end: HandlerEnd)
      requires Valid()
      modifies this`clUnits, this`calls
      ensures fresh(u) && Valid()
      ensures
        var h := Authenticate(old(maxPlayers), |old(clUnits)|, old(allowRegistration), reply, verdict);
        var run := if isOnline then Run(networkFuncs, u, inbox) else SessionLog([], [], false);
        && (h.outcome.Rejected? ==>
              && end == AuthFailed(h.outcome.problem)
              && u.login == VStr("init")
              && u.trace == HandshakeActions(h, old(serverName)) + [ErrorLog(h.outcome.problem), Disconnect]
              && clUnits == old(clUnits) && calls == old(calls))
        && (h.outcome.Accepted? && !Hashable(h.outcome.login) ==>
              && end == LoginUnhashable
              && u.login == h.outcome.login
              && u.trace == HandshakeActions(h, old(serverName))
              && clUnits == old(clUnits) && calls == old(calls))
        && (h.outcome.Accepted? && Hashable(h.outcome.login) ==>
              && end == LoopEnded(run.crashed)
              && u.login == h.outcome.login
              && u.trace == HandshakeActions(h, old(serverName)) + run.actions + [Disconnect]
              && clUnits == old(clUnits) - {h.outcome.login}
              && calls == old(calls) + run.calls)
    {
      var h, admitted;
      u, h, admitted := Admit(reply, verdict);
      if !admitted {
        return u, if h.outcome.Rejected? then AuthFailed(h.outcome.problem) else LoginUnhashable;
      }
      var crashed := Converse(u, inbox);
      ReplaceThenPop(old(clUnits), u.login, u);
      end := LoopEnded(crashed);
    }
  }
}
