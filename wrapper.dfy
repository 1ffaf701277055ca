/**
 * The run-time half of `elide<T, Args...>`: a wrapper object stores one
 * producer and the argument values, and each access materialises a value by
 * invoking the producer, or (the lvalue surface without an lvalue form) by
 * returning a default `tombstone`. The producer is an abstract function from
 * the invocation it receives to the value it returns; the invocation itself
 * (which form, which argument values, in which categories) is what the
 * producer observes, and it is returned beside the value.
 */
module ElideRuntime {
  import opened Wrappers
  import opened Types
  import opened ElideConcepts

  /**
   * Run-time values: numbers, objects of a class (with an identity such as a
   * pointer), the `tombstone`, and wrapper objects (a producer may itself
   * return an `elide<...>`).
   */
  datatype Val = IntV(i: int) | DoubleV(r: real) | Obj(cls: string, id: int) | TombstoneV | ElideV(id: int)

  /** One argument as the producer receives it: as an lvalue or an rvalue, and its value. */
  datatype Passed = Passed(asLvalue: bool, val: Val)

  /** One invocation of the producer: invoked as an lvalue or as an rvalue, with these arguments. */
  datatype Call = Call(asLvalue: bool, args: seq<Passed>)

  /** What the stored producer returns for an invocation. */
  type Producer = Call -> Val

  /** An `elide<T, Args...>` object: the captured types, the stored producer and the stored arguments. */
  datatype Wrapper = Wrapper(producerTy: Ty, argTys: seq<Ty>, producer: Producer, argVals: seq<Val>)

  /**
   * The instantiation exists (concept `c`), holds one value per argument type,
   * and its producer returns what its declared calls return.
   */
  predicate Valid(w: Wrapper)
  {
    Admits(w.producerTy, w.argTys) && |w.argVals| == |w.argTys| && ReturnsDeclared(w)
  }

  /**
   * The producer's invocations yield values of their declared result types:
   * the call in the captured categories yields the `std::invoke_result` of
   * that call, and the all-lvalue call, where it exists, the lvalue result.
   * The C++ type system guarantees this of every callable.
   */
  predicate ReturnsDeclared(w: Wrapper)
    requires |w.argVals| == |w.argTys|
  {
    var form := InvokeForm(w.producerTy, w.argTys);
    (form.Some? ==> HasType(w.producer(RvalueCall(w)), form.value.result.base))
    && (LvalueInvocable(w.producerTy, w.argTys) ==>
          HasType(w.producer(LvalueCall(w)), LvalueResult(w.producerTy, w.argTys).base))
  }

  /**
   * The constructor `elide(T t, Args... args)`: stores the producer and the
   * arguments and invokes nothing; `None` when the instantiation is rejected.
   */
  function Construct(t: Ty, args: seq<Ty>, producer: Producer, vals: seq<Val>): (r: Option<Wrapper>)
    requires |vals| == |args| && ReturnsDeclared(Wrapper(t, args, producer, vals))
    ensures r.Some? <==> Admits(t, args)
    ensures r.Some? ==> Valid(r.value)
    ensures r.Some? ==>
      r.value.producerTy == t && r.value.argTys == args && r.value.producer == producer && r.value.argVals == vals
  {
    if Admits(t, args) then Some(Wrapper(t, args, producer, vals)) else None
  }

  /** The argument values of an invocation, in order. */
  function Values(args: seq<Passed>): (vs: seq<Val>)
    ensures |vs| == |args|
  {
    seq(|args|, i requires 0 <= i < |args| => args[i].val)
  }

  /**
   * The invocation of the rvalue surface: `std::forward<T>(t_)` and
   * `std::forward<Args>(args)...`, so the producer and every argument keep
   * the category they were captured in.
   */
  function RvalueCall(w: Wrapper): (c: Call)
    requires |w.argVals| == |w.argTys|
    ensures c.asLvalue <==> IsLvalue(w.producerTy)
    ensures Values(c.args) == w.argVals
    ensures forall i :: 0 <= i < |c.args| ==> (c.args[i].asLvalue <==> IsLvalue(w.argTys[i]))
  {
    Call(IsLvalue(w.producerTy),
         seq(|w.argVals|, i requires 0 <= i < |w.argVals| => Passed(IsLvalue(w.argTys[i]), w.argVals[i])))
  }

  /** The invocation of the lvalue surface: `std::invoke(t_, args...)`, everything as an lvalue. */
  function LvalueCall(w: Wrapper): (c: Call)
    ensures c.asLvalue
    ensures Values(c.args) == w.argVals
    ensures forall i :: 0 <= i < |c.args| ==> c.args[i].asLvalue
  {
    Call(true, seq(|w.argVals|, i requires 0 <= i < |w.argVals| => Passed(true, w.argVals[i])))
  }

  /** A materialisation: the value produced and the producer invocation it made, if any. */
  datatype Outcome = Outcome(value: Val, made: Option<Call>)

  /**
   * `operator rvalue_result_type_() const&&`: one invocation in the captured
   * categories, whose result is returned as it is.
   */
  function ConvertRvalue(w: Wrapper): (o: Outcome)
    requires Valid(w)
    ensures o.made.Some? && o.made.value.asLvalue == IsLvalue(w.producerTy)
    ensures Values(o.made.value.args) == w.argVals
    ensures o.value == w.producer(o.made.value)
    ensures HasType(o.value, RvalueResult(w.producerTy, w.argTys).base)
  {
    var c := RvalueCall(w);
    Outcome(w.producer(c), Some(c))
  }

  /**
   * `operator()() const&&`: the cast `rvalue_result_type_(std::move(*this))`
   * of the wrapper, as a `const` rvalue, to the rvalue result type. Overload
   * resolution picks the rvalue conversion for it, and since that conversion
   * already yields a value of the rvalue result type, the cast changes nothing:
   * the call is the same materialisation as the rvalue conversion.
   */
  function CallRvalue(w: Wrapper): (o: Outcome)
    requires Valid(w)
    ensures ConversionPicks(Ty(true, RRef, Elide(w.producerTy, w.argTys)), RvalueResult(w.producerTy, w.argTys))
            == Some(Temporary)
    ensures o == ConvertRvalue(w)
  {
    var rb := RvalueResult(w.producerTy, w.argTys).base;
    match ConversionPicks(Ty(true, RRef, Elide(w.producerTy, w.argTys)), RvalueResult(w.producerTy, w.argTys))
    case Some(Temporary) =>
      var o := ConvertRvalue(w);
      Outcome(CastTo(o.value, rb), o.made)
    case _ =>
      // an rvalue wrapper always converts to its rvalue result through the `const&&` conversion
      assert false; Outcome(TombstoneV, None)
  }

  /**
   * `operator lvalue_result_type_() const&`: with an lvalue form, one
   * invocation with everything as an lvalue; without one, a default
   * `tombstone` and no invocation at all.
   */
  function ConvertLvalue(w: Wrapper): (o: Outcome)
    requires Valid(w)
    ensures LvalueInvocable(w.producerTy, w.argTys) ==>
      o.made == Some(LvalueCall(w)) && o.value == w.producer(LvalueCall(w))
    ensures !LvalueInvocable(w.producerTy, w.argTys) ==> o == Outcome(TombstoneV, None)
    ensures HasType(o.value, LvalueResult(w.producerTy, w.argTys).base)
  {
    if LvalueInvocable(w.producerTy, w.argTys) then
      var c := LvalueCall(w);
      Outcome(w.producer(c), Some(c))
    else
      Outcome(TombstoneV, None)
  }

  /**
   * `operator()() const&`, as intended: present only with an lvalue form, and
   * then the same materialisation as the lvalue conversion.
   */
  function CallLvalue(w: Wrapper): (r: Option<Outcome>)
    requires Valid(w)
    ensures r.Some? <==> LvalueInvocable(w.producerTy, w.argTys)
    ensures r.Some? ==> r.value == ConvertLvalue(w) && r.value.made == Some(LvalueCall(w))
  {
    if LvalueInvocable(w.producerTy, w.argTys) then Some(ConvertLvalue(w)) else None
  }

  /** One access to the wrapper object; `None` when the member it names does not exist. */
  function Materialize(w: Wrapper, a: Access): (r: Option<Outcome>)
    requires Valid(w)
    ensures r.None? <==> a == Access(Bound, CallOperator) && !LvalueInvocable(w.producerTy, w.argTys)
    ensures Invocations(r) ==
      if a.mode == Temporary then [RvalueCall(w)]
      else if LvalueInvocable(w.producerTy, w.argTys) then [LvalueCall(w)]
      else []
  {
    match a
    case Access(Temporary, Conversion) => Some(ConvertRvalue(w))
    case Access(Temporary, CallOperator) => Some(CallRvalue(w))
    case Access(Bound, Conversion) => Some(ConvertLvalue(w))
    case Access(Bound, CallOperator) => CallLvalue(w)
  }

  /** The producer invocations one access made. */
  function Invocations(r: Option<Outcome>): seq<Call>
  {
    if r.Some? && r.value.made.Some? then [r.value.made.value] else []
  }

  /** The producer invocations a sequence of accesses makes, in order. */
  function Trace(w: Wrapper, accesses: seq<Access>): seq<Call>
    requires Valid(w)
    decreases |accesses|
  {
    if accesses == [] then [] else Invocations(Materialize(w, accesses[0])) + Trace(w, accesses[1..])
  }

  /** How many of the accesses are made in mode `m`. */
  function CountMode(accesses: seq<Access>, m: AccessMode): nat
    decreases |accesses|
  {
    if accesses == [] then 0 else (if accesses[0].mode == m then 1 else 0) + CountMode(accesses[1..], m)
  }

  /** How many of the invocations use the producer's lvalue form (`asLvalue`) or its rvalue form. */
  function CountForm(trace: seq<Call>, asLvalue: bool): nat
    decreases |trace|
  {
    if trace == [] then 0 else (if trace[0].asLvalue == asLvalue then 1 else 0) + CountForm(trace[1..], asLvalue)
  }

  lemma {:induction false} CountFormAppend(a: seq<Call>, b: seq<Call>, asLvalue: bool)
    ensures CountForm(a + b, asLvalue) == CountForm(a, asLvalue) + CountForm(b, asLvalue)
    decreases |a|
  {
    if a != [] {
      assert (a + b)[1..] == a[1..] + b;
      CountFormAppend(a[1..], b, asLvalue);
    } else {
      assert a + b == b;
    }
  }

  /**
   * Materialisation is driven by the accesses alone: every access in
   * temporary mode invokes the producer once, every access through a binding
   * invokes it once when there is an lvalue form and never otherwise; in
   * particular constructing the wrapper (no access yet) invokes nothing.
   */
  lemma {:induction false} TraceLength(w: Wrapper, accesses: seq<Access>)
    requires Valid(w)
    ensures |Trace(w, accesses)| ==
      CountMode(accesses, Temporary)
      + (if LvalueInvocable(w.producerTy, w.argTys) then CountMode(accesses, Bound) else 0)
    decreases |accesses|
  {
    if accesses != [] {
      TraceLength(w, accesses[1..]);
    }
  }

  /**
   * Which producer form runs: the lvalue form once per binding access (when it
   * exists), plus once per temporary access when the producer was captured as
   * an lvalue; the rvalue form once per temporary access when the producer was
   * captured as an rvalue, never otherwise.
   */
  lemma {:induction false} TraceForms(w: Wrapper, accesses: seq<Access>)
    requires Valid(w)
    ensures CountForm(Trace(w, accesses), true) ==
      (if IsLvalue(w.producerTy) then CountMode(accesses, Temporary) else 0)
      + (if LvalueInvocable(w.producerTy, w.argTys) then CountMode(accesses, Bound) else 0)
    ensures CountForm(Trace(w, accesses), false) ==
      if IsLvalue(w.producerTy) then 0 else CountMode(accesses, Temporary)
    decreases |accesses|
  {
    if accesses != [] {
      var head := Invocations(Materialize(w, accesses[0]));
      TraceForms(w, accesses[1..]);
      CountFormAppend(head, Trace(w, accesses[1..]), true);
      CountFormAppend(head, Trace(w, accesses[1..]), false);
    }
  }

  /** Every invocation, on either path, receives exactly the stored argument values. */
  lemma {:induction false} TraceArguments(w: Wrapper, accesses: seq<Access>)
    requires Valid(w)
    ensures forall k :: 0 <= k < |Trace(w, accesses)| ==> Values(Trace(w, accesses)[k].args) == w.argVals
    decreases |accesses|
  {
    if accesses != [] {
      TraceArguments(w, accesses[1..]);
      var head := Invocations(Materialize(w, accesses[0]));
      assert Trace(w, accesses) == head + Trace(w, accesses[1..]);
      assert forall k :: 0 <= k < |head| ==> Values(head[k].args) == w.argVals;
    }
  }

  /** `n` accesses of the same kind. */
  function Repeat(a: Access, n: nat): (r: seq<Access>)
    ensures |r| == n && forall k :: 0 <= k < n ==> r[k] == a
  {
    seq(n, k => a)
  }

  /**
   * No caching: `n` conversions through a binding make `n` fresh lvalue
   * invocations, each with the stored arguments as lvalues.
   */
  lemma {:induction false} BoundReadsInvokeAfresh(w: Wrapper, n: nat)
    requires Valid(w) && LvalueInvocable(w.producerTy, w.argTys)
    ensures Trace(w, Repeat(Access(Bound, Conversion), n)) == seq(n, k => LvalueCall(w))
    decreases n
  {
    if n > 0 {
      var accesses := Repeat(Access(Bound, Conversion), n);
      assert accesses[1..] == Repeat(Access(Bound, Conversion), n - 1);
      BoundReadsInvokeAfresh(w, n - 1);
      assert seq(n, k => LvalueCall(w)) == [LvalueCall(w)] + seq(n - 1, k => LvalueCall(w));
    }
  }

  // The lvalue call operator as written: `return rvalue_result_type_(*this);`

  predicate Arithmetic(b: Base) { b == Int || b == Double }

  /** A standard conversion (or none) turns a value of `from` into one of `to`; classes only convert to themselves. */
  predicate StdConvertible(from: Base, to: Base)
  {
    from == to || (Arithmetic(from) && Arithmetic(to))
  }

  /** Conversion of a floating value to an integer: the fraction is discarded, rounding toward zero. */
  function Truncate(x: real): (n: int)
    ensures 0.0 <= x ==> n as real <= x < n as real + 1.0
    ensures x < 0.0 ==> n as real - 1.0 < x <= n as real
  {
    if 0.0 <= x then x.Floor else -((-x).Floor)
  }

  /** Whether a value has the given base type. */
  predicate HasType(v: Val, b: Base)
  {
    match v
    case IntV(_) => b == Int
    case DoubleV(_) => b == Double
    case Obj(cls, _) => b.Class? && b.name == cls
    case TombstoneV => b == Tombstone
    case ElideV(_) => b.Elide?
  }

  /** The value converted to `b` by an arithmetic conversion; anything else is left as it is. */
  function CastTo(v: Val, b: Base): (r: Val)
    ensures HasType(v, b) ==> r == v
    ensures v.DoubleV? && b == Int ==> r == IntV(Truncate(v.r))
    ensures v.IntV? && b == Double ==> r == DoubleV(v.i as real)
  {
    match v
    case IntV(i) => if b == Double then DoubleV(i as real) else v
    case DoubleV(x) => if b == Int then IntV(Truncate(x)) else v
    case _ => v
  }

  /**
   * `operator()() const&` as written: the lvalue conversion's value is cast to
   * `rvalue_result_type_` and then returned as `lvalue_result_type_`. It does
   * not compile unless each of the two result types converts to the other.
   */
  function CallLvalueAsWritten(w: Wrapper): (r: Option<Outcome>)
    requires Valid(w)
    ensures r.Some? ==> LvalueInvocable(w.producerTy, w.argTys) && r.value.made == ConvertLvalue(w).made
    ensures r.Some? <==>
      LvalueInvocable(w.producerTy, w.argTys)
      && StdConvertible(LvalueResult(w.producerTy, w.argTys).base, RvalueResult(w.producerTy, w.argTys).base)
      && StdConvertible(RvalueResult(w.producerTy, w.argTys).base, LvalueResult(w.producerTy, w.argTys).base)
  {
    var rb := RvalueResult(w.producerTy, w.argTys).base;
    var lb := LvalueResult(w.producerTy, w.argTys).base;
    if !LvalueInvocable(w.producerTy, w.argTys) || !StdConvertible(lb, rb) || !StdConvertible(rb, lb) then None
    else
      var o := ConvertLvalue(w);
      Some(Outcome(CastTo(CastTo(o.value, rb), lb), o.made))
  }

  /**
   * Wherever the bound call operator as written compiles, it makes the same
   * producer invocation as the corrected one, so the counts and arguments
   * proved about traces hold of the code as written too.
   */
  lemma AsWrittenMakesSameInvocations(w: Wrapper)
    requires Valid(w) && CallLvalueAsWritten(w).Some?
    ensures Invocations(CallLvalueAsWritten(w)) == Invocations(Materialize(w, Access(Bound, CallOperator)))
    ensures Invocations(CallLvalueAsWritten(w)) == [LvalueCall(w)]
  {
  }

  /**
   * When both surfaces have the same result type, the call operator as
   * written agrees with the intended one (the case every test exercises).
   */
  lemma AsWrittenAgreesWhenResultTypesMatch(w: Wrapper)
    requires Valid(w) && LvalueInvocable(w.producerTy, w.argTys)
    requires RvalueResult(w.producerTy, w.argTys).base == LvalueResult(w.producerTy, w.argTys).base
    ensures CallLvalueAsWritten(w) == CallLvalue(w)
  {
  }

}
