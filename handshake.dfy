/**
 * The authentication handshake a fresh connection goes through: a fixed chain
 * of checks over the server's configuration, the number of live connections,
 * the client's reply and the credential store's verdict.
 */
module Authentication {
  import opened Wrappers
  import opened ResponseCodes
  import opened Values
  import opened Units

  /** How the wait for the client's reply ended. */
  datatype AuthReply = Reply(v: Value) | TimedOut | ReceiveFailed(err: string)

  /** How the credential store answers `add_user` / `login_user`. */
  datatype StoreVerdict = StoreOk | StoreValueError(text: string) | StoreOtherError(text: string)

  datatype StoreCall = AddUser(login: Value, password: Value) | LoginUser(login: Value, password: Value)

  datatype AuthOutcome = Accepted(login: Value) | Rejected(problem: Problem)

  /**
   * One run of the handshake: whether the authentication request was sent,
   * which store operation was performed, and the outcome.
   */
  datatype Handshake = Handshake(requested: bool, store: Option<StoreCall>, outcome: AuthOutcome)

  datatype Credentials = Credentials(code: ResponseCode, login: Value, password: Value)

  /** The capacity test; -1 means no limit. */
  predicate Full(maxPlayers: int, live: nat) {
    maxPlayers != -1 && maxPlayers <= live
  }

  /** `v.get(k)` for a dictionary reply; None for anything else. */
  function Field(v: Value, k: string): Value {
    if v.VDict? then GetOr(v.fields, k, VNone) else VNone
  }

  /** A reply the handshake is meant to accept the shape of, stated on the raw value. */
  predicate WellFormedRequest(v: Value) {
    && v.VDict?
    && (Field(v, "code") == VInt(11) || Field(v, "code") == VInt(12))
    && Truthy(Field(v, "login"))
    && Truthy(Field(v, "password"))
  }

  predicate RequestsRegistration(v: Value) {
    Field(v, "code") == VInt(12)
  }

  /**
   * The shape checks on the reply, in the order the server makes them.
   * `clientAuthDefined` says whether `ResponseCode.is_client_auth` exists.
   */
  function ParseReply(v: Value, clientAuthDefined: bool): (r: Result<Credentials, Problem>)
    ensures clientAuthDefined ==> (r.Ok? <==> WellFormedRequest(v))
    ensures !clientAuthDefined ==> r.Err?
    ensures !v.VDict? ==> r == Err(Says("Receive data type expected dict."))
    ensures r.Ok? ==>
              && Field(v, "code") == VInt(r.value.code.Value())
              && r.value.login == Field(v, "login") && r.value.password == Field(v, "password")
  {
    if !v.VDict? then Err(Says("Receive data type expected dict."))
    else
      var code := GetOr(v.fields, "code", VNone);
      if !Truthy(code) then Err(Says("Receive data must has 'code' key."))
      else if CodeOf(code).None? then Err(NotACode(code))
      else if !clientAuthDefined then Err(Unexpected(NoClientAuthPredicate))
      else if !IsClientAuth(CodeOf(code).value) then Err(Says("Unknown 'code' for auth type."))
      else
        var login := GetOr(v.fields, "login", VNone);
        var password := GetOr(v.fields, "password", VNone);
        if !(Truthy(login) && Truthy(password)) then
          Err(Says("Receive data must has 'login' and 'password' keys."))
        else Ok(Credentials(CodeOf(code).value, login, password))
  }

  function AuthenticateUnder(clientAuthDefined: bool, maxPlayers: int, live: nat, allowRegistration: bool,
                             reply: AuthReply, verdict: StoreVerdict): Handshake
  {
    if Full(maxPlayers, live) then Handshake(false, None, Rejected(Says("Server is full.")))
    else match reply
      case TimedOut => Handshake(true, None, Rejected(Says("Timeout for auth.")))
      case ReceiveFailed(err) => Handshake(true, None, Rejected(Unexpected(ReceiveError(err))))
      case Reply(v) =>
        match ParseReply(v, clientAuthDefined)
        case Err(p) => Handshake(true, None, Rejected(p))
        case Ok(c) =>
          if c.code == AuthAnsRegis && !allowRegistration then
            Handshake(true, None, Rejected(Says("Registration is not allowed.")))
          else
            var call := if c.code == AuthAnsRegis then AddUser(c.login, c.password)
                        else LoginUser(c.login, c.password);
            match verdict
            case StoreOk => Handshake(true, Some(call), Accepted(c.login))
            case StoreValueError(text) => Handshake(true, Some(call), Rejected(Says(text)))
            case StoreOtherError(text) => Handshake(true, Some(call), Rejected(Unexpected(StoreError(text))))
  }

  /** `_auth`, with `is_client_auth` read as membership in the two client answer codes. */
  function Authenticate(maxPlayers: int, live: nat, allowRegistration: bool,
                        reply: AuthReply, verdict: StoreVerdict): (r: Handshake)
    ensures r.requested <==> !Full(maxPlayers, live)
    ensures Full(maxPlayers, live) ==> r == Handshake(false, None, Rejected(Says("Server is full.")))
    ensures r.store.Some? <==>
              && !Full(maxPlayers, live) && reply.Reply? && WellFormedRequest(reply.v)
              && (RequestsRegistration(reply.v) ==> allowRegistration)
    ensures r.store.Some? ==>
              var login := Field(reply.v, "login");
              var password := Field(reply.v, "password");
              r.store.value == if RequestsRegistration(reply.v) then AddUser(login, password)
                               else LoginUser(login, password)
    ensures r.outcome.Accepted? <==> r.store.Some? && verdict == StoreOk
    ensures r.outcome.Accepted? ==> r.outcome.login == Field(reply.v, "login")
    ensures r.outcome.Accepted? ==> Truthy(r.outcome.login)
    ensures r.store.Some? && verdict.StoreValueError? ==> r.outcome == Rejected(Says(verdict.text))
    ensures r.store.Some? && verdict.StoreOtherError? ==> r.outcome == Rejected(Unexpected(StoreError(verdict.text)))
  {
    AuthenticateUnder(true, maxPlayers, live, allowRegistration, reply, verdict)
  }

  /** `_auth` as written: the missing `is_client_auth` makes every well-formed reply fail. */
  function AuthenticateAsWritten(maxPlayers: int, live: nat, allowRegistration: bool,
                                 reply: AuthReply, verdict: StoreVerdict): (r: Handshake)
    ensures r.outcome.Rejected? && r.store.None?
    ensures r.requested <==> !Full(maxPlayers, live)
  {
    AuthenticateUnder(false, maxPlayers, live, allowRegistration, reply, verdict)
  }

  /** The messages of the shape checks, each reached only when the earlier checks pass. */
  lemma ShapeRejections(maxPlayers: int, live: nat, allowRegistration: bool, v: Value, verdict: StoreVerdict)
    requires !Full(maxPlayers, live)
    ensures !v.VDict? ==>
      Authenticate(maxPlayers, live, allowRegistration, Reply(v), verdict).outcome
        == Rejected(Says("Receive data type expected dict."))
    ensures v.VDict? && !Truthy(Field(v, "code")) ==>
      Authenticate(maxPlayers, live, allowRegistration, Reply(v), verdict).outcome
        == Rejected(Says("Receive data must has 'code' key."))
    ensures v.VDict? && Truthy(Field(v, "code")) && !(Field(v, "code").VInt? && IsCode(Field(v, "code").i)) ==>
      Authenticate(maxPlayers, live, allowRegistration, Reply(v), verdict).outcome
        == Rejected(NotACode(Field(v, "code")))
    ensures v.VDict? && Field(v, "code").VInt? && IsCode(Field(v, "code").i)
            && Field(v, "code").i != 11 && Field(v, "code").i != 12 ==>
      Authenticate(maxPlayers, live, allowRegistration, Reply(v), verdict).outcome
        == Rejected(Says("Unknown 'code' for auth type."))
    ensures v.VDict? && (Field(v, "code") == VInt(11) || Field(v, "code") == VInt(12))
            && !(Truthy(Field(v, "login")) && Truthy(Field(v, "password"))) ==>
      Authenticate(maxPlayers, live, allowRegistration, Reply(v), verdict).outcome
        == Rejected(Says("Receive data must has 'login' and 'password' keys."))
    ensures WellFormedRequest(v) && RequestsRegistration(v) && !allowRegistration ==>
      Authenticate(maxPlayers, live, allowRegistration, Reply(v), verdict).outcome
        == Rejected(Says("Registration is not allowed."))
  {
    var code := Field(v, "code");
    if v.VDict? && code.VInt? && IsCode(code.i) {
      var c := CodeOf(code).value;
      assert c.Value() == code.i;
      assert IsClientAuth(c) <==> code.i == 11 || code.i == 12;
    }
  }

  /** A timed-out or failed reply never consults the store and never authenticates. */
  lemma NoReplyRejected(maxPlayers: int, live: nat, allowRegistration: bool, reply: AuthReply, verdict: StoreVerdict)
    requires !Full(maxPlayers, live) && !reply.Reply?
    ensures var r := Authenticate(maxPlayers, live, allowRegistration, reply, verdict);
      && r.store.None?
      && (reply.TimedOut? ==> r.outcome == Rejected(Says("Timeout for auth.")))
      && (reply.ReceiveFailed? ==> r.outcome == Rejected(Unexpected(ReceiveError(reply.err))))
  {
  }

  /** Where the store is not consulted, its verdict cannot change anything. */
  lemma VerdictIrrelevantWithoutStoreCall(maxPlayers: int, live: nat, allowRegistration: bool,
                                          reply: AuthReply, v1: StoreVerdict, v2: StoreVerdict)
    requires Authenticate(maxPlayers, live, allowRegistration, reply, v1).store.None?
    ensures Authenticate(maxPlayers, live, allowRegistration, reply, v1)
         == Authenticate(maxPlayers, live, allowRegistration, reply, v2)
  {
  }

  /** The messages the handshake itself sends: the request, and on success the serve answer. */
  function HandshakeActions(h: Handshake, serverName: string): (acts: seq<Action>)
    ensures |acts| <= 2
    ensures h.requested ==> |acts| >= 1 && acts[0] == Sent(AuthReq, [])
    ensures !h.requested ==> acts == [] || h.outcome.Accepted?
    ensures h.outcome.Accepted? <==> |acts| >= 1 && acts[|acts| - 1] == Sent(AuthAnsServe, [("server_name", VStr(serverName))])
  {
    (if h.requested then [Sent(AuthReq, [])] else [])
    + (if h.outcome.Accepted? then [Sent(AuthAnsServe, [("server_name", VStr(serverName))])] else [])
  }

  /** A reply the intended handshake accepts is rejected as written. */
  lemma ClientAuthFinding()
    ensures
      var reply := Reply(VDict([("code", VInt(11)), ("login", VStr("bob")), ("password", VStr("pw"))]));
      && Authenticate(-1, 0, true, reply, StoreOk).outcome == Accepted(VStr("bob"))
      && AuthenticateAsWritten(-1, 0, true, reply, StoreOk).outcome == Rejected(Unexpected(NoClientAuthPredicate))
  {
    var v := VDict([("code", VInt(11)), ("login", VStr("bob")), ("password", VStr("pw"))]);
    assert Authenticate(-1, 0, true, Reply(v), StoreOk).outcome == Accepted(VStr("bob")) by {
      assert Field(v, "code") == VInt(11);
      assert Field(v, "login") == VStr("bob");
      assert Field(v, "password") == VStr("pw");
      assert WellFormedRequest(v) && !RequestsRegistration(v);
    }
    assert AuthenticateAsWritten(-1, 0, true, Reply(v), StoreOk).outcome
           == Rejected(Unexpected(NoClientAuthPredicate)) by {
      assert Field(v, "code") == VInt(11);
      assert ParseReply(v, false) == Err(Unexpected(NoClientAuthPredicate));
    }
  }
}
