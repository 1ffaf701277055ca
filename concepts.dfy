/**
 * The compile-time half of `elide<T, Args...>`: which invocations are viable,
 * the concepts `c` and `lvalue` that admit the wrapper and its lvalue surface,
 * the two result types (`tombstone` standing in for a missing lvalue form),
 * the `noexcept` flags, the members the wrapper declares, which conversion
 * function overload resolution picks, and the deduction guide.
 */
module ElideConcepts {
  import opened Wrappers
  import opened Types

  /** `Args&...`: every argument type made an lvalue reference to the same referent. */
  function LvalueArgs(args: seq<Ty>): (r: seq<Ty>)
    ensures |r| == |args|
    ensures forall i :: 0 <= i < |args| ==> IsLvalue(r[i]) && r[i].base == args[i].base
  {
    seq(|args|, i requires 0 <= i < |args| => AddLvalueRef(args[i]))
  }

  /** `std::is_reference_v<T> && (std::is_reference_v<Args> && ...)`. */
  predicate ByReference(t: Ty, args: seq<Ty>)
  {
    t.ref != Plain && forall i :: 0 <= i < |args| ==> args[i].ref != Plain
  }

  /**
   * `std::invoke_result<Callee, Args...>` together with its `noexcept` status:
   * `None` when the invocation is not viable. A class is invoked through the
   * call operator its category selects, and every argument must be accepted in
   * its own category. An `elide` takes no arguments; as an rvalue its `const&&`
   * operator wins, as an lvalue only the `const&` operator is viable, and that
   * one exists only when the concept `lvalue` holds.
   */
  function InvokeForm(callee: Ty, args: seq<Ty>): (r: Option<Form>)
    ensures r.Some? ==> callee.base.Class? || callee.base.Elide?
    ensures r.Some? && callee.base.Elide? ==> args == [] && IsResult(r.value.result)
    decreases callee.base, 0
  {
    match callee.base
    case Class(_, _, calls) =>
      var form := if IsLvalue(callee) then calls.asLvalue else calls.asRvalue;
      if form.Some? && forall i :: 0 <= i < |args| ==> Accepts(args[i]) then form else None
    case Elide(t, eargs) =>
      if args != [] || !Admits(t, eargs) then None
      else if !IsLvalue(callee) then InvokeForm(t, eargs)
      else if LvalueInvocable(t, eargs) then InvokeForm(AddLvalueRef(t), LvalueArgs(eargs))
      else None
    case _ => None
  }

  /** The concept `c` constraining `elide<T, Args...>`. */
  predicate Admits(t: Ty, args: seq<Ty>)
    decreases t.base, 1
  {
    var form := InvokeForm(t, args);
    form.Some? && IsResult(form.value.result) && ByReference(t, args)
  }

  /** The concept `lvalue`: `T&` invocable with `Args&...` with a non-void result. */
  predicate LvalueInvocable(t: Ty, args: seq<Ty>)
    decreases t.base, 1
  {
    var form := InvokeForm(AddLvalueRef(t), LvalueArgs(args));
    form.Some? && IsResult(form.value.result)
  }

  /** `rvalue_result_type_`: `std::invoke_result_t<T, Args...>`. */
  function RvalueResult(t: Ty, args: seq<Ty>): Ty
    requires Admits(t, args)
  {
    InvokeForm(t, args).value.result
  }

  /** `lvalue_result_type_`: the lvalue invocation's result, or `tombstone` without one. */
  function LvalueResult(t: Ty, args: seq<Ty>): Ty
  {
    if LvalueInvocable(t, args) then InvokeForm(AddLvalueRef(t), LvalueArgs(args)).value.result
    else TombstoneTy
  }

  /** `rvalue_noexcept_`: `std::is_nothrow_invocable_v<T, Args...>`. */
  predicate RvalueNoexcept(t: Ty, args: seq<Ty>)
  {
    var form := InvokeForm(t, args);
    form.Some? && form.value.nothrow
  }

  /** `lvalue_noexcept_`: `std::is_nothrow_invocable_v<T&, Args&...>`. */
  predicate LvalueNoexcept(t: Ty, args: seq<Ty>)
  {
    var form := InvokeForm(AddLvalueRef(t), LvalueArgs(args));
    form.Some? && form.value.nothrow
  }

  /**
   * How a wrapper object is accessed: as a temporary (an rvalue, `const&&`
   * members) or through a binding (an lvalue, `const&` members).
   */
  datatype AccessMode = Temporary | Bound

  datatype Operator = Conversion | CallOperator

  datatype Access = Access(mode: AccessMode, op: Operator)

  /**
   * The member of `elide<T, Args...>` serving an access, as its declaration
   * reads: result type and `noexcept` flag; `None` when the member does not
   * participate in overload resolution.
   */
  function Declared(t: Ty, args: seq<Ty>, a: Access): (r: Option<Form>)
    requires Admits(t, args)
    ensures r.None? <==> a == Access(Bound, CallOperator) && !LvalueInvocable(t, args)
    ensures a.mode == Temporary ==>
      r.Some? && r.value.result == InvokeForm(t, args).value.result
      && (r.value.nothrow <==> InvokeForm(t, args).value.nothrow)
    ensures a.mode == Bound && LvalueInvocable(t, args) ==>
      r.Some? && r.value == InvokeForm(AddLvalueRef(t), LvalueArgs(args)).value
    ensures a.mode == Bound && !LvalueInvocable(t, args) && r.Some? ==>
      r.value.result == TombstoneTy
      && (r.value.nothrow <==> InvokeForm(AddLvalueRef(t), LvalueArgs(args)).Some?
                               && InvokeForm(AddLvalueRef(t), LvalueArgs(args)).value.nothrow)
  {
    match a
    case Access(Temporary, _) => Some(Form(RvalueResult(t, args), RvalueNoexcept(t, args)))
    case Access(Bound, Conversion) => Some(Form(LvalueResult(t, args), LvalueNoexcept(t, args)))
    case Access(Bound, CallOperator) =>
      if LvalueInvocable(t, args) then Some(Form(LvalueResult(t, args), LvalueNoexcept(t, args))) else None
  }

  /**
   * Invoking a wrapper object with no arguments (what `std::is_invocable` and
   * `std::invoke_result` see) is exactly a call of the call operator its own
   * category selects: the `const&&` one for an rvalue, the `const&` one for an
   * lvalue, which exists only with a real lvalue form.
   */
  lemma {:induction false} ElideInvocationIsDeclaredCallOperator(w: Ty)
    requires w.base.Elide? && Admits(w.base.producer, w.base.args)
    ensures InvokeForm(w, []) ==
      Declared(w.base.producer, w.base.args, Access(if IsLvalue(w) then Bound else Temporary, CallOperator))
  {
    var t, args := w.base.producer, w.base.args;
    if IsLvalue(w) && LvalueInvocable(t, args) {
      assert InvokeForm(w, []) == InvokeForm(AddLvalueRef(t), LvalueArgs(args));
    }
  }

  /**
   * Which conversion function `std::is_convertible<From, To>` (and a cast) uses
   * to turn a wrapper expression of type `from` into `to`: the `const&&` one
   * needs an rvalue and is preferred when both yield `to`; the `const&` one
   * binds either category. `None`: not convertible.
   */
  function ConversionPicks(from: Ty, to: Ty): (r: Option<AccessMode>)
    requires from.base.Elide? && Admits(from.base.producer, from.base.args)
    ensures r == Some(Temporary) ==> !IsLvalue(from) && to == RvalueResult(from.base.producer, from.base.args)
    ensures r == Some(Bound) ==> to == LvalueResult(from.base.producer, from.base.args)
    ensures r.None? <==>
      to != LvalueResult(from.base.producer, from.base.args)
      && (IsLvalue(from) || to != RvalueResult(from.base.producer, from.base.args))
  {
    var t, args := from.base.producer, from.base.args;
    if !IsLvalue(from) && to == RvalueResult(t, args) then Some(Temporary)
    else if to == LvalueResult(t, args) then Some(Bound)
    else None
  }

  /**
   * Without a real lvalue form, a wrapper used as an lvalue converts to
   * `tombstone` and to nothing else.
   */
  lemma NoLvalueFormConvertsOnlyToTombstone(from: Ty, to: Ty)
    requires from.base.Elide? && Admits(from.base.producer, from.base.args)
    requires IsLvalue(from) && !LvalueInvocable(from.base.producer, from.base.args)
    ensures ConversionPicks(from, to).Some? <==> to == TombstoneTy
  {
  }

  /**
   * The two result types are chosen independently: for a producer class
   * captured as `P&&`, the rvalue surface yields the class's rvalue call and
   * the lvalue surface its lvalue call (with every argument as an lvalue), or
   * `tombstone` when that call is missing, void or refuses an argument.
   */
  lemma {:induction false} ResultsChosenIndependently(isConst: bool, name: string, passing: Passing,
                                                      lv: Option<Form>, rv: Form, args: seq<Ty>)
    requires IsResult(rv.result)
    requires forall i :: 0 <= i < |args| ==> args[i].ref != Plain && Accepts(args[i])
    ensures var t := Ty(isConst, RRef, Class(name, passing, Calls(lv, Some(rv))));
      && Admits(t, args)
      && RvalueResult(t, args) == rv.result
      && LvalueResult(t, args) ==
         if lv.Some? && IsResult(lv.value.result) && forall i :: 0 <= i < |args| ==> Accepts(AddLvalueRef(args[i]))
         then lv.value.result else TombstoneTy
  {
    var t := Ty(isConst, RRef, Class(name, passing, Calls(lv, Some(rv))));
    var largs := LvalueArgs(args);
    assert forall i :: 0 <= i < |args| ==> largs[i] == AddLvalueRef(args[i]);
    assert (forall i :: 0 <= i < |largs| ==> Accepts(largs[i]))
       <==> (forall i :: 0 <= i < |args| ==> Accepts(AddLvalueRef(args[i])));
    assert InvokeForm(AddLvalueRef(t), largs) ==
      if lv.Some? && forall i :: 0 <= i < |largs| ==> Accepts(largs[i]) then lv else None;
    assert InvokeForm(t, args) == Some(rv);
  }

  /** A constructor argument expression: its type (references already dropped) and its value category. */
  datatype Expr = Expr(ty: Ty, isLvalue: bool)

  /** `T&&` for a forwarding reference deduced from `e`: `X&` for an lvalue, `X&&` for an rvalue. */
  function Forwarded(e: Expr): (t: Ty)
    ensures t.ref != Plain && t.base == e.ty.base && t.isConst == e.ty.isConst
    ensures IsLvalue(t) <==> e.isLvalue
  {
    Ty(e.ty.isConst, if e.isLvalue then LRef else RRef, e.ty.base)
  }

  /** The deduction guide `elide(T&&, Args&&...) -> elide<T&&, Args&&...>`, argument part. */
  function GuideArgs(args: seq<Expr>): (r: seq<Ty>)
    ensures |r| == |args|
    ensures forall i :: 0 <= i < |args| ==> r[i].ref != Plain && r[i].base == args[i].ty.base
  {
    seq(|args|, i requires 0 <= i < |args| => Forwarded(args[i]))
  }

  /**
   * The deduction guide captures everything by reference, so the types it
   * deduces are admitted exactly when the producer is invocable with the
   * arguments as passed and yields something other than `void`.
   */
  lemma GuideAdmitsIffInvocable(producer: Expr, args: seq<Expr>)
    ensures ByReference(Forwarded(producer), GuideArgs(args))
    ensures Admits(Forwarded(producer), GuideArgs(args)) <==>
      var form := InvokeForm(Forwarded(producer), GuideArgs(args));
      form.Some? && IsResult(form.value.result)
  {
  }

}
