/**
 * Dynamically typed values as they arrive from the codec: an envelope is a
 * dictionary of named fields whose values may have any of these shapes.
 * Dictionaries keep their insertion order, as the server iterates over them.
 */
module Values {
  import opened Wrappers
  import opened ResponseCodes

  datatype Value =
    | VNone
    | VBool(b: bool)
    | VInt(i: int)
    | VStr(s: string)
    | VList(items: seq<Value>)
    | VDict(fields: Fields)

  /** The entries of a dictionary, in insertion order. */
  type Fields = seq<(string, Value)>

  /** The truth value of `v` in a Python `if` / `not`. */
  predicate Truthy(v: Value) {
    match v
    case VNone => false
    case VBool(b) => b
    case VInt(i) => i != 0
    case VStr(s) => s != ""
    case VList(items) => items != []
    case VDict(fields) => fields != []
  }

  /** Whether `v` can be used as a dictionary key (lists and dicts cannot). */
  predicate Hashable(v: Value) {
    !v.VList? && !v.VDict?
  }

  /** The keys of a dictionary (or of keyword arguments). */
  function Keys<T>(f: seq<(string, T)>): set<string> {
    set i | 0 <= i < |f| :: f[i].0
  }

  /** `d.get(k, default)`. */
  function GetOr(f: Fields, k: string, default: Value): (r: Value)
    ensures k !in Keys(f) ==> r == default
    ensures k in Keys(f) ==> exists i :: 0 <= i < |f| && f[i] == (k, r)
  {
    if f == [] then default
    else if f[0].0 == k then f[0].1
    else
      var r := GetOr(f[1..], k, default);
      assert k in Keys(f) ==> k in Keys(f[1..]) by {
        if k in Keys(f) {
          var i :| 0 <= i < |f| && f[i].0 == k;
          assert f[1..][i - 1].0 == k;
        }
      }
      assert forall i :: 0 <= i < |f[1..]| ==> f[1..][i] == f[i + 1];
      r
  }

  /** The dictionary after `d.pop(k, None)`: every other entry, in order. */
  function Remove(f: Fields, k: string): (r: Fields)
    ensures Keys(r) == Keys(f) - {k}
    ensures forall e :: e in r <==> e in f && e.0 != k
    ensures |r| <= |f|
  {
    if f == [] then []
    else
      var rest := Remove(f[1..], k);
      assert f == [f[0]] + f[1..];
      KeysCons(f[0], f[1..]);
      KeysCons(f[0], rest);
      var r := if f[0].0 == k then rest else [f[0]] + rest;
      r
  }

  lemma KeysCons<T>(e: (string, T), f: seq<(string, T)>)
    ensures Keys([e] + f) == {e.0} + Keys(f)
  {
    var g := [e] + f;
    forall x | x in Keys(g) ensures x in {e.0} + Keys(f) {
      var i :| 0 <= i < |g| && g[i].0 == x;
      if i > 0 { assert f[i - 1].0 == x; }
    }
    forall x | x in Keys(f) ensures x in Keys(g) {
      var i :| 0 <= i < |f| && f[i].0 == x;
      assert g[i + 1].0 == x;
    }
    assert g[0].0 == e.0;
  }

  /** Removing a key keeps the order of the entries: it distributes over concatenation. */
  lemma {:induction false} RemoveConcat(p: Fields, q: Fields, k: string)
    ensures Remove(p + q, k) == Remove(p, k) + Remove(q, k)
  {
    if p == [] {
      assert p + q == q;
    } else {
      assert (p + q)[0] == p[0] && (p + q)[1..] == p[1..] + q;
      RemoveConcat(p[1..], q, k);
    }
  }

  /** Removing a key that is not there changes nothing. */
  lemma {:induction false} RemoveAbsent(f: Fields, k: string)
    requires k !in Keys(f)
    ensures Remove(f, k) == f
  {
    if f != [] {
      assert Keys(f[1..]) <= Keys(f) by {
        forall x | x in Keys(f[1..]) ensures x in Keys(f) {
          var i :| 0 <= i < |f[1..]| && f[1..][i].0 == x;
          assert f[i + 1].0 == x;
        }
      }
      assert f[0].0 in Keys(f);
      RemoveAbsent(f[1..], k);
      assert f == [f[0]] + f[1..];
    }
  }

  /** `code == ResponseCode.NET_REQ` for a received value. */
  predicate IsNetValue(v: Value) {
    v.VInt? && IsNet(v.i)
  }

  /** `ResponseCode(v)`: only an integer member value names a code. */
  function CodeOf(v: Value): (r: Option<ResponseCode>)
    ensures r.Some? <==> v.VInt? && IsCode(v.i)
    ensures r.Some? ==> VInt(r.value.Value()) == v
  {
    if v.VInt? then
      FromIntRoundTrip(AuthReq, v.i);
      FromInt(v.i)
    else None
  }

  /** Removing one key leaves the lookup of every other key unchanged. */
  lemma {:induction false} GetOrRemoveOther(f: Fields, j: string, k: string, default: Value)
    requires j != k
    ensures GetOr(Remove(f, j), k, default) == GetOr(f, k, default)
  {
    if f != [] {
      GetOrRemoveOther(f[1..], j, k, default);
      if f[0].0 != j {
        assert ([f[0]] + Remove(f[1..], j))[1..] == Remove(f[1..], j);
      }
    }
  }
}
