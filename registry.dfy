/**
 * The network-function registry: registration of `net_`-prefixed functions
 * and the lenient dispatch of a request to one of them.
 */
module Registry {
  import opened Wrappers
  import opened Values
  import opened Units

  /** The type hints a parameter may carry; `TAny` is `typing.Any`. */
  datatype TypeTag = TAny | TObject | TNoneType | TBool | TInt | TStr | TList | TDict | TClUnit

  /** A declared parameter: its name, its type hint if any, and whether it has a default. */
  datatype Param = Param(name: string, hint: Option<TypeTag>, hasDefault: bool)

  /**
   * A function of a provider class, as reflection would see it. The first
   * parameter receives the server class positionally.
   */
  datatype NetFunc = NetFunc(qualname: string, params: seq<Param>)

  /** A keyword argument value: received data, or the connection unit itself. */
  datatype Arg = Data(v: Value) | UnitArg(u: ClUnit)

  type Kwargs = seq<(string, Arg)>

  /** A recorded call `func(cls, **args)` made for the request named `name`. */
  datatype Invocation = Invocation(name: string, func: NetFunc, args: Kwargs)

  // ---------------------------------------------------------------- registration

  predicate IsNetName(name: string) {
    |name| >= 4 && name[..4] == "net_"
  }

  /** One step of the registration loop: a `net_X` member is stored under `X`. */
  function Register(m: map<string, NetFunc>, member: (string, NetFunc)): map<string, NetFunc> {
    if IsNetName(member.0) then m[member.0[4..] := member.1] else m
  }

  /** The registry after registering `members` in order, starting from `m`. */
  function Registered(m: map<string, NetFunc>, members: seq<(string, NetFunc)>): map<string, NetFunc>
    decreases |members|
  {
    if members == [] then m
    else Register(Registered(m, members[..|members| - 1]), members[|members| - 1])
  }

  lemma NetNameStrip(name: string, k: string)
    ensures (IsNetName(name) && name[4..] == k) <==> name == "net_" + k
  {
    if name == "net_" + k {
      assert name[..4] == "net_";
      assert name[4..] == k;
    }
    if IsNetName(name) && name[4..] == k {
      assert name == name[..4] + name[4..];
    }
  }

  /** The keys after registration: the old keys and the stripped `net_` names. */
  lemma {:induction false} RegisteredKeys(m: map<string, NetFunc>, members: seq<(string, NetFunc)>, k: string)
    ensures k in Registered(m, members) <==>
              k in m || exists i :: 0 <= i < |members| && members[i].0 == "net_" + k
    decreases |members|
  {
    if members != [] {
      var n := |members| - 1;
      var init := members[..n];
      RegisteredKeys(m, init, k);
      NetNameStrip(members[n].0, k);
      assert forall i :: 0 <= i < n ==> init[i] == members[i];
      if k in m || exists i :: 0 <= i < |members| && members[i].0 == "net_" + k {
        if k !in m && members[n].0 != "net_" + k {
          var i :| 0 <= i < |members| && members[i].0 == "net_" + k;
          assert init[i].0 == "net_" + k;
        }
      }
    }
  }

  /** A key registered more than once holds the function of its last registration. */
  lemma {:induction false} RegisteredLatest(m: map<string, NetFunc>, members: seq<(string, NetFunc)>, k: string, i: nat)
    requires i < |members| && members[i].0 == "net_" + k
    requires forall j :: i < j < |members| ==> members[j].0 != "net_" + k
    ensures k in Registered(m, members) && Registered(m, members)[k] == members[i].1
    decreases |members|
  {
    var n := |members| - 1;
    NetNameStrip(members[n].0, k);
    if i < n {
      var init := members[..n];
      RegisteredLatest(m, init, k, i);
    }
  }

  /** A key no member registers keeps its old entry, or stays absent. */
  lemma {:induction false} RegisteredElsewhereUnchanged(m: map<string, NetFunc>, members: seq<(string, NetFunc)>, k: string)
    requires forall i :: 0 <= i < |members| ==> members[i].0 != "net_" + k
    ensures k in Registered(m, members) <==> k in m
    ensures k in m ==> Registered(m, members)[k] == m[k]
    decreases |members|
  {
    if members != [] {
      var n := |members| - 1;
      NetNameStrip(members[n].0, k);
      RegisteredElsewhereUnchanged(m, members[..n], k);
    }
  }

  // ---------------------------------------------------------------- dispatch

  function Names(params: seq<Param>): set<string> {
    set i | 0 <= i < |params| :: params[i].name
  }

  /** `get_type_hints(func).get(name)`: the hint of the first parameter called `name`. */
  function HintOf(params: seq<Param>, name: string): Option<TypeTag> {
    if params == [] then None
    else if params[0].name == name then params[0].hint
    else HintOf(params[1..], name)
  }

  /** `{k: v for k, v in kwargs.items() if k in sig.parameters}`. */
  function Restrict(kwargs: Kwargs, names: set<string>): (r: Kwargs)
    ensures forall i :: 0 <= i < |r| ==> r[i] in kwargs && r[i].0 in names
    ensures forall i :: 0 <= i < |kwargs| && kwargs[i].0 in names ==> kwargs[i] in r
    ensures |r| <= |kwargs|
  {
    if kwargs == [] then []
    else (if kwargs[0].0 in names then [kwargs[0]] else []) + Restrict(kwargs[1..], names)
  }

  lemma {:induction false} RestrictConcat(p: Kwargs, q: Kwargs, names: set<string>)
    ensures Restrict(p + q, names) == Restrict(p, names) + Restrict(q, names)
  {
    if p == [] {
      assert p + q == q;
    } else {
      assert (p + q)[0] == p[0];
      assert (p + q)[1..] == p[1..] + q;
      RestrictConcat(p[1..], q, names);
    }
  }

  /** Python's `isinstance(a, t)` for a hint that is a class. */
  predicate IsInstance(a: Arg, t: TypeTag)
    requires t != TAny
  {
    match t
    case TObject => true
    case TNoneType => a == Data(VNone)
    case TBool => a.Data? && a.v.VBool?
    case TInt => a.Data? && (a.v.VInt? || a.v.VBool?)   // bool is a subclass of int
    case TStr => a.Data? && a.v.VStr?
    case TList => a.Data? && a.v.VList?
    case TDict => a.Data? && a.v.VDict?
    case TClUnit => a.UnitArg?
  }

  /** A parameter without a hint, or hinted `Any`: `get_type_hints(...).get(name, Any)` gives `Any`. */
  predicate Unhinted(hint: Option<TypeTag>) {
    hint.None? || hint.value == TAny
  }

  /** The intended test: a missing hint or `Any` admits every value. */
  predicate Admits(hint: Option<TypeTag>, a: Arg) {
    Unhinted(hint) || IsInstance(a, hint.value)
  }

  /** The as-written test passes only for a real class hint the value is an instance of. */
  predicate HintHolds(hint: Option<TypeTag>, a: Arg) {
    !Unhinted(hint) && IsInstance(a, hint.value)
  }

  datatype ArgCheck = Passes | Fails | Raises

  /**
   * The check of one kept argument. As written, the condition evaluates
   * `isinstance(value, expected)` before testing `expected is not Any`, and
   * `isinstance` raises for `Any`, which is also the default for a missing hint.
   */
  function CheckArg(hint: Option<TypeTag>, a: Arg, asWritten: bool): (r: ArgCheck)
    ensures !asWritten ==> (r == Passes <==> Admits(hint, a)) && r != Raises
    ensures asWritten ==> (r == Raises <==> hint.None? || hint.value == TAny)
    ensures asWritten && r != Raises ==> (r == Passes <==> Admits(hint, a))
  {
    var t := if hint.Some? then hint.value else TAny;
    if asWritten then
      if t == TAny then Raises else if IsInstance(a, t) then Passes else Fails
    else
      if t == TAny || IsInstance(a, t) then Passes else Fails
  }

  datatype Verdict = AllPass | FirstMismatch(name: string) | CheckRaised(f: Fault)

  /** `args[i]`, named `name`, is the first of `args` that fails its hint. */
  predicate MismatchAt(params: seq<Param>, args: Kwargs, asWritten: bool, i: int, name: string) {
    && 0 <= i < |args| && args[i].0 == name
    && CheckArg(HintOf(params, args[i].0), args[i].1, asWritten) == Fails
    && forall j :: 0 <= j < i ==> CheckArg(HintOf(params, args[j].0), args[j].1, asWritten) == Passes
  }

  /** The type-check loop over the kept arguments, stopping at the first that does not pass. */
  function CheckAll(params: seq<Param>, args: Kwargs, asWritten: bool): (r: Verdict)
    ensures r == AllPass <==>
              forall i :: 0 <= i < |args| ==> CheckArg(HintOf(params, args[i].0), args[i].1, asWritten) == Passes
    ensures r.FirstMismatch? ==> exists i :: MismatchAt(params, args, asWritten, i, r.name)
    ensures r.CheckRaised? ==> asWritten && r.f == AnyInIsinstance
    decreases |args|
  {
    if args == [] then AllPass
    else
      assert forall i :: 0 < i < |args| ==> args[1..][i - 1] == args[i];
      match CheckArg(HintOf(params, args[0].0), args[0].1, asWritten)
      case Passes =>
        var r := CheckAll(params, args[1..], asWritten);
        assert r.FirstMismatch? ==> exists i :: MismatchAt(params, args, asWritten, i, r.name) by {
          if r.FirstMismatch? {
            var i :| MismatchAt(params, args[1..], asWritten, i, r.name);
            assert MismatchAt(params, args, asWritten, i + 1, r.name);
          }
        }
        r
      case Fails =>
        assert MismatchAt(params, args, asWritten, 0, args[0].0);
        FirstMismatch(args[0].0)
      case Raises => CheckRaised(AnyInIsinstance)
  }

  /** The loop of `_call_func` over the kept arguments, returning the first that fails its hint. */
  method CheckArguments(params: seq<Param>, args: Kwargs) returns (bad: Option<string>)
    ensures bad.None? <==> CheckAll(params, args, false) == AllPass
    ensures bad.Some? ==> CheckAll(params, args, false) == FirstMismatch(bad.value)
    ensures bad.Some? ==> exists i :: 0 <= i < |args| && args[i].0 == bad.value && !Admits(HintOf(params, args[i].0), args[i].1)
  {
    var i := 0;
    while i < |args|
      invariant 0 <= i <= |args|
      invariant CheckAll(params, args, false) == CheckAll(params, args[i..], false)
      invariant forall j :: 0 <= j < i ==> Admits(HintOf(params, args[j].0), args[j].1)
    {
      var (argName, argValue) := args[i];
      assert args[i..][0] == args[i] && args[i..][1..] == args[i + 1..];
      if !Admits(HintOf(params, argName), argValue) {
        return Some(argName);
      }
      i := i + 1;
    }
    return None;
  }

  /**
   * Whether `func(cls, **args)` binds: the function takes the positional
   * receiver, no argument names it again, and every other parameter without
   * a default is supplied.
   */
  predicate Binds(params: seq<Param>, args: Kwargs) {
    && |params| >= 1
    && params[0].name !in Keys(args)
    && forall j :: 1 <= j < |params| ==> params[j].hasDefault || params[j].name in Keys(args)
  }

  datatype CallResult =
    | NotFound
    | TypeMismatch(arg: string)
    | CallFailed                      // the call raised a TypeError, caught and logged
    | Invoked(func: NetFunc, args: Kwargs)
    | Raised(f: Fault)                // an exception that escapes `_call_func`

  predicate Found(funcs: map<string, NetFunc>, name: Value) {
    name.VStr? && name.s in funcs
  }

  function DispatchUnder(asWritten: bool, funcs: map<string, NetFunc>, name: Value, kwargs: Kwargs): CallResult {
    if !Hashable(name) then Raised(UnhashableFuncName)
    else if !Found(funcs, name) then NotFound
    else
      var f := funcs[name.s];
      DispatchKept(asWritten, f, Restrict(kwargs, Names(f.params)))
  }

  /** The part of `_call_func` after the lookup, which sees only the kept arguments. */
  function DispatchKept(asWritten: bool, f: NetFunc, valid: Kwargs): CallResult {
    match CheckAll(f.params, valid, asWritten)
    case FirstMismatch(k) => TypeMismatch(k)
    case CheckRaised(fault) => Raised(fault)
    case AllPass => if Binds(f.params, valid) then Invoked(f, valid) else CallFailed
  }

  /** `_call_func` with the intended type check. */
  function Dispatch(funcs: map<string, NetFunc>, name: Value, kwargs: Kwargs): (r: CallResult)
    ensures r.Raised? <==> !Hashable(name)
    ensures r.Raised? ==> r.f == UnhashableFuncName
    ensures r.NotFound? <==> Hashable(name) && !Found(funcs, name)
    ensures r.Invoked? <==>
              && Found(funcs, name)
              && (var f := funcs[name.s]; var valid := Restrict(kwargs, Names(f.params));
                  && (forall i :: 0 <= i < |valid| ==> Admits(HintOf(f.params, valid[i].0), valid[i].1))
                  && Binds(f.params, valid))
    ensures r.Invoked? ==> r.func == funcs[name.s] && r.args == Restrict(kwargs, Names(r.func.params))
    ensures r.TypeMismatch? <==>
              && Found(funcs, name)
              && (var f := funcs[name.s]; var valid := Restrict(kwargs, Names(f.params));
                  exists i :: 0 <= i < |valid| && !Admits(HintOf(f.params, valid[i].0), valid[i].1))
    ensures r.CallFailed? <==>
              && Found(funcs, name)
              && (var f := funcs[name.s]; var valid := Restrict(kwargs, Names(f.params));
                  && (forall i :: 0 <= i < |valid| ==> Admits(HintOf(f.params, valid[i].0), valid[i].1))
                  && !Binds(f.params, valid))
    ensures r.TypeMismatch? ==>
              && Found(funcs, name)
              && var f := funcs[name.s];
                 exists i :: 0 <= i < |kwargs| && kwargs[i].0 == r.arg && r.arg in Names(f.params)
                   && !Admits(HintOf(f.params, r.arg), kwargs[i].1)
  {
    var r := DispatchUnder(false, funcs, name, kwargs);
    assert r.TypeMismatch? ==>
             var f := funcs[name.s];
             exists i :: 0 <= i < |kwargs| && kwargs[i].0 == r.arg && r.arg in Names(f.params)
               && !Admits(HintOf(f.params, r.arg), kwargs[i].1)
    by {
      if r.TypeMismatch? {
        var f := funcs[name.s];
        var valid := Restrict(kwargs, Names(f.params));
        var i :| MismatchAt(f.params, valid, false, i, r.arg);
        assert valid[i] in kwargs;
      }
    }
    r
  }

  /** As written, the check loop passes iff every argument has a real hint it satisfies. */
  lemma CheckAllAsWrittenPasses(params: seq<Param>, args: Kwargs)
    ensures CheckAll(params, args, true) == AllPass <==>
              forall i :: 0 <= i < |args| ==> HintHolds(HintOf(params, args[i].0), args[i].1)
  {
    assert forall i :: 0 <= i < |args| ==>
             (CheckArg(HintOf(params, args[i].0), args[i].1, true) == Passes
              <==> HintHolds(HintOf(params, args[i].0), args[i].1));
  }

  /** As written, the first un-hinted argument the check loop reaches raises. */
  lemma CheckAllAsWrittenRaises(params: seq<Param>, args: Kwargs, i: nat)
    requires i < |args| && Unhinted(HintOf(params, args[i].0))
    requires forall j :: 0 <= j < i ==> HintHolds(HintOf(params, args[j].0), args[j].1)
    ensures CheckAll(params, args, true) == CheckRaised(AnyInIsinstance)
  {
    var v := CheckAll(params, args, true);
    assert CheckArg(HintOf(params, args[i].0), args[i].1, true) == Raises;
    assert forall j :: 0 <= j < i ==> CheckArg(HintOf(params, args[j].0), args[j].1, true) == Passes;
    assert !v.FirstMismatch?;
  }

  /**
   * `_call_func` exactly as written: it invokes only when every kept argument
   * has a real hint it satisfies, and the first un-hinted kept argument it
   * reaches raises.
   */
  function DispatchAsWritten(funcs: map<string, NetFunc>, name: Value, kwargs: Kwargs): (r: CallResult)
    ensures r.Invoked? <==>
              && Found(funcs, name)
              && (var f := funcs[name.s]; var valid := Restrict(kwargs, Names(f.params));
                  && (forall i :: 0 <= i < |valid| ==> HintHolds(HintOf(f.params, valid[i].0), valid[i].1))
                  && Binds(f.params, valid))
    ensures r.Invoked? ==> r.func == funcs[name.s] && r.args == Restrict(kwargs, Names(r.func.params))
    ensures Found(funcs, name) ==>
              var f := funcs[name.s]; var valid := Restrict(kwargs, Names(f.params));
              forall i :: 0 <= i < |valid| && Unhinted(HintOf(f.params, valid[i].0))
                          && (forall j :: 0 <= j < i ==> HintHolds(HintOf(f.params, valid[j].0), valid[j].1))
                          ==> r == Raised(AnyInIsinstance)
  {
    if Found(funcs, name) then
      KeptAsWritten(funcs[name.s], Restrict(kwargs, Names(funcs[name.s].params)));
      DispatchUnder(true, funcs, name, kwargs)
    else DispatchUnder(true, funcs, name, kwargs)
  }

  /** The as-written part of `_call_func` after the lookup. */
  lemma KeptAsWritten(f: NetFunc, valid: Kwargs)
    ensures DispatchKept(true, f, valid).Invoked? <==>
              && (forall i :: 0 <= i < |valid| ==> HintHolds(HintOf(f.params, valid[i].0), valid[i].1))
              && Binds(f.params, valid)
    ensures DispatchKept(true, f, valid).Invoked? ==> DispatchKept(true, f, valid) == Invoked(f, valid)
    ensures forall i :: 0 <= i < |valid| && Unhinted(HintOf(f.params, valid[i].0))
                        && (forall j :: 0 <= j < i ==> HintHolds(HintOf(f.params, valid[j].0), valid[j].1))
                        ==> DispatchKept(true, f, valid) == Raised(AnyInIsinstance)
  {
    CheckAllAsWrittenPasses(f.params, valid);
    forall i | 0 <= i < |valid| && Unhinted(HintOf(f.params, valid[i].0))
               && (forall j :: 0 <= j < i ==> HintHolds(HintOf(f.params, valid[j].0), valid[j].1))
      ensures DispatchKept(true, f, valid) == Raised(AnyInIsinstance)
    {
      CheckAllAsWrittenRaises(f.params, valid, i);
    }
  }

  /** Keeping the declared names drops an undeclared keyword wherever it stands. */
  lemma RestrictDropsUndeclared(p: Kwargs, k: string, a: Arg, q: Kwargs, names: set<string>)
    requires k !in names
    ensures Restrict(p + [(k, a)] + q, names) == Restrict(p + q, names)
  {
    RestrictConcat(p + [(k, a)], q, names);
    RestrictConcat(p, [(k, a)], names);
    RestrictConcat(p, q, names);
    assert Restrict([(k, a)], names) == [];
  }

  /** A keyword argument the target does not declare is dropped and never checked. */
  lemma UndeclaredArgumentIgnored(funcs: map<string, NetFunc>, name: Value, p: Kwargs, k: string, a: Arg, q: Kwargs)
    requires Found(funcs, name) ==> k !in Names(funcs[name.s].params)
    ensures Dispatch(funcs, name, p + [(k, a)] + q) == Dispatch(funcs, name, p + q)
  {
    if Found(funcs, name) {
      RestrictDropsUndeclared(p, k, a, q, Names(funcs[name.s].params));
    }
  }

  /** A function none of whose parameters is hinted gives every name the `Any` hint. */
  lemma {:induction false} HintOfUnhinted(params: seq<Param>, name: string)
    requires forall i :: 0 <= i < |params| ==> Unhinted(params[i].hint)
    ensures Unhinted(HintOf(params, name))
  {
    if params != [] && params[0].name != name {
      assert forall i :: 0 <= i < |params[1..]| ==> params[1..][i] == params[i + 1];
      HintOfUnhinted(params[1..], name);
    }
  }

  /**
   * With the intended check, a function without real hints is invoked exactly
   * when the kept arguments bind; otherwise the call fails at binding.
   */
  lemma UnhintedFunctionOnlyNeedsBinding(funcs: map<string, NetFunc>, name: Value, kwargs: Kwargs)
    requires Found(funcs, name)
    requires forall i :: 0 <= i < |funcs[name.s].params| ==> Unhinted(funcs[name.s].params[i].hint)
    ensures
      var f := funcs[name.s];
      var valid := Restrict(kwargs, Names(f.params));
      Dispatch(funcs, name, kwargs) == if Binds(f.params, valid) then Invoked(f, valid) else CallFailed
  {
    var f := funcs[name.s];
    var valid := Restrict(kwargs, Names(f.params));
    forall i | 0 <= i < |valid| ensures Admits(HintOf(f.params, valid[i].0), valid[i].1) {
      HintOfUnhinted(f.params, valid[i].0);
    }
  }

  /**
   * The as-written check turns the most common handler into a crash: a
   * function taking the connection unit without a hint.
   */
  lemma AnyGuardOrderWitness(u: ClUnit)
    ensures
      var f := NetFunc("Handlers.net_ping", [Param("cls", None, false), Param("cl_unit", None, false)]);
      var funcs := map["ping" := f];
      var kwargs := [("cl_unit", UnitArg(u))];
      && DispatchAsWritten(funcs, VStr("ping"), kwargs) == Raised(AnyInIsinstance)
      && Dispatch(funcs, VStr("ping"), kwargs) == Invoked(f, kwargs)
  {
    var f := NetFunc("Handlers.net_ping", [Param("cls", None, false), Param("cl_unit", None, false)]);
    var kwargs := [("cl_unit", UnitArg(u))];
    assert f.params[1].name == "cl_unit";
    assert Restrict(kwargs, Names(f.params)) == kwargs;
    assert HintOf(f.params, "cl_unit") == None;
  }
}
