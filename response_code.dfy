/**
 * The closed enumeration of message codes carried in every envelope's "code" field
 * (the `ResponseCode` integer enumeration), and its four band predicates.
 */
module ResponseCodes {
  import opened Wrappers

  datatype ResponseCode =
    | AuthReq        // server asks the client to authenticate
    | AuthAnsLogin   // client answers with a login request
    | AuthAnsRegis   // client answers with a registration request
    | AuthAnsServe   // server confirms the authentication
    | NetReq         // remote-procedure request
    | FilReq         // file chunk
    | FilEnd         // end of a file transfer
    | LogDeb
    | LogInf
    | LogWar
    | LogErr
  {
    /** The stable wire integer of the code. */
    function Value(): int {
      match this
      case AuthReq => 10
      case AuthAnsLogin => 11
      case AuthAnsRegis => 12
      case AuthAnsServe => 19
      case NetReq => 20
      case FilReq => 30
      case FilEnd => 31
      case LogDeb => 41
      case LogInf => 42
      case LogWar => 43
      case LogErr => 44
    }
  }

  /** `ResponseCode(n)`: the member whose value is `n`, or None where the enumeration raises. */
  function FromInt(n: int): (r: Option<ResponseCode>)
    ensures r.Some? ==> r.value.Value() == n
    ensures r.None? ==> forall c: ResponseCode :: c.Value() != n
  {
    if n == 10 then Some(AuthReq)
    else if n == 11 then Some(AuthAnsLogin)
    else if n == 12 then Some(AuthAnsRegis)
    else if n == 19 then Some(AuthAnsServe)
    else if n == 20 then Some(NetReq)
    else if n == 30 then Some(FilReq)
    else if n == 31 then Some(FilEnd)
    else if n == 41 then Some(LogDeb)
    else if n == 42 then Some(LogInf)
    else if n == 43 then Some(LogWar)
    else if n == 44 then Some(LogErr)
    else None
  }

  predicate IsCode(n: int) {
    exists c: ResponseCode :: c.Value() == n
  }

  predicate IsAuth(n: int) {
    n in {AuthReq.Value(), AuthAnsLogin.Value(), AuthAnsRegis.Value(), AuthAnsServe.Value()}
  }

  predicate IsNet(n: int) {
    n == NetReq.Value()
  }

  predicate IsFile(n: int) {
    n in {FilReq.Value(), FilEnd.Value()}
  }

  predicate IsLog(n: int) {
    n in {LogDeb.Value(), LogInf.Value(), LogWar.Value(), LogErr.Value()}
  }

  /**
   * The client's side of the authentication band. The server asks for
   * `is_client_auth`, which the enumeration does not define; this is the
   * membership the handshake evidently means.
   */
  predicate IsClientAuth(c: ResponseCode) {
    c == AuthAnsLogin || c == AuthAnsRegis
  }

  /** Number of bands a value belongs to. */
  function BandCount(n: int): (k: nat)
    ensures k <= 4
  {
    (if IsAuth(n) then 1 else 0) + (if IsNet(n) then 1 else 0)
      + (if IsFile(n) then 1 else 0) + (if IsLog(n) then 1 else 0)
  }

  /** Distinct members have distinct wire values. */
  lemma ValuesInjective(c: ResponseCode, d: ResponseCode)
    ensures c.Value() == d.Value() <==> c == d
  {
  }

  /** `ResponseCode(c.value)` gives back `c`, and only values of members are accepted. */
  lemma FromIntRoundTrip(c: ResponseCode, n: int)
    ensures FromInt(c.Value()) == Some(c)
    ensures FromInt(n).Some? <==> IsCode(n)
  {
    if FromInt(n).Some? {
      assert FromInt(n).value.Value() == n;
    }
  }

  /** The band predicates hold for exactly the integers of the wire table. */
  lemma BandMembers(n: int)
    ensures IsAuth(n) <==> n == 10 || n == 11 || n == 12 || n == 19
    ensures IsNet(n) <==> n == 20
    ensures IsFile(n) <==> n == 30 || n == 31
    ensures IsLog(n) <==> 41 <= n <= 44
  {
  }

  /** The bands are pairwise disjoint. */
  lemma BandsDisjoint(n: int)
    ensures BandCount(n) <= 1
  {
  }

  /** Every member of the enumeration lies in exactly one band. */
  lemma EveryCodeInOneBand(c: ResponseCode)
    ensures BandCount(c.Value()) == 1
  {
  }

  /** An integer that is not a member's value lies in no band. */
  lemma NonCodeInNoBand(n: int)
    requires !IsCode(n)
    ensures BandCount(n) == 0
  {
    assert AuthReq.Value() != n && AuthAnsLogin.Value() != n && AuthAnsRegis.Value() != n;
    assert AuthAnsServe.Value() != n && NetReq.Value() != n && FilReq.Value() != n;
    assert FilEnd.Value() != n && LogDeb.Value() != n && LogInf.Value() != n;
    assert LogWar.Value() != n && LogErr.Value() != n;
  }

  /** The client-auth codes are exactly the authentication codes a client sends. */
  lemma ClientAuthInAuthBand(c: ResponseCode)
    ensures IsClientAuth(c) <==> IsAuth(c.Value()) && c != AuthReq && c != AuthAnsServe
  {
  }
}
