/**
 * The static assertions and the one run-time test of the `deduce_t` test
 * suite, restated over the model: three producer classes (one callable in
 * either category, one only as an rvalue, one with a different result per
 * category) and the wrapper types built over them.
 */
module DeduceTests {
  import opened Wrappers
  import opened Types
  import opened ElideConcepts
  import opened ElideRuntime
  import opened ResultDeduction

  /** `struct factory { int operator()(); };` */
  const Factory := Class("factory", Passing(true, true), Calls(Some(Form(IntTy, false)), Some(Form(IntTy, false))))

  /** `struct no_lvalue_factory { int operator()() &&; };` */
  const NoLvalueFactory := Class("no_lvalue_factory", Passing(true, true), Calls(None, Some(Form(IntTy, false))))

  /** `struct split_factory { int operator()() &; double operator()() &&; };` */
  const SplitFactory :=
    Class("split_factory", Passing(true, true), Calls(Some(Form(IntTy, false)), Some(Form(DoubleTy, false))))

  /** `elide<P&>` or `elide<P&&>`: a wrapper over a producer class and no arguments. */
  function ElideOver(producer: Base, ref: Ref): Base
  {
    Elide(Ty(false, ref, producer), [])
  }

  lemma IsElideTests()
    ensures !IsElide(IntTy)
    ensures IsElide(Bare(ElideOver(Factory, LRef)))
  {
  }

  lemma DeduceIntTests()
    ensures Deduce(Ty(false, Plain, Int)) == IntTy
    ensures Deduce(Ty(false, LRef, Int)) == IntTy
    ensures Deduce(Ty(true, LRef, Int)) == IntTy
    ensures Deduce(Ty(false, RRef, Int)) == IntTy
    ensures Deduce(Ty(true, RRef, Int)) == IntTy
  {
  }

  lemma DeduceFactoryTests()
    ensures Deduce(Ty(false, Plain, ElideOver(Factory, LRef))) == IntTy
    ensures Deduce(Ty(false, LRef, ElideOver(Factory, LRef))) == IntTy
    ensures Deduce(Ty(true, LRef, ElideOver(Factory, LRef))) == IntTy
    ensures Deduce(Ty(false, RRef, ElideOver(Factory, LRef))) == IntTy
    ensures Deduce(Ty(true, RRef, ElideOver(Factory, LRef))) == IntTy
  {
    var t := Ty(false, LRef, Factory);
    assert InvokeForm(t, []) == Some(Form(IntTy, false));
    assert LvalueInvocable(t, []) by {
      assert InvokeForm(AddLvalueRef(t), LvalueArgs([])) == Some(Form(IntTy, false));
    }
  }

  lemma DeduceNoLvalueFactoryTests()
    ensures Deduce(Ty(false, Plain, ElideOver(NoLvalueFactory, RRef))) == IntTy
    ensures Deduce(Ty(false, RRef, ElideOver(NoLvalueFactory, RRef))) == IntTy
    ensures Deduce(Ty(true, RRef, ElideOver(NoLvalueFactory, RRef))) == IntTy
    ensures Deduce(Ty(true, LRef, ElideOver(NoLvalueFactory, RRef))) == Bare(ElideOver(NoLvalueFactory, RRef))
    ensures Deduce(Ty(false, LRef, ElideOver(NoLvalueFactory, RRef))) == Bare(ElideOver(NoLvalueFactory, RRef))
  {
    var t := Ty(false, RRef, NoLvalueFactory);
    assert InvokeForm(t, []) == Some(Form(IntTy, false));
    assert !LvalueInvocable(t, []) by {
      assert InvokeForm(AddLvalueRef(t), LvalueArgs([])) == None;
    }
  }

  lemma DeduceSplitFactoryTests()
    ensures Deduce(Ty(false, Plain, ElideOver(SplitFactory, RRef))) == DoubleTy
    ensures Deduce(Ty(false, RRef, ElideOver(SplitFactory, RRef))) == DoubleTy
    ensures InvokeForm(Ty(false, LRef, ElideOver(SplitFactory, RRef)), []) == Some(Form(IntTy, false))
    ensures Deduce(Ty(false, LRef, ElideOver(SplitFactory, RRef))) == IntTy
  {
    var t := Ty(false, RRef, SplitFactory);
    assert InvokeForm(t, []) == Some(Form(DoubleTy, false));
    assert LvalueInvocable(t, []) by {
      assert InvokeForm(AddLvalueRef(t), LvalueArgs([])) == Some(Form(IntTy, false));
    }
  }

  /** `[]() noexcept { return 5; }`: a closure callable in either category. */
  const Closure := Class("closure", Passing(true, true), Calls(Some(Form(IntTy, true)), Some(Form(IntTy, true))))

  const ReturnFive: Producer := (c: Call) => IntV(5)

  /**
   * `wrapper w(elide(closure))`: the guide deduces `elide<closure&&>`, the test's
   * own guide declares `wrapper<deduce_t<elide<closure&&>>>`, that is
   * `wrapper<int>`, and its member is initialised through the rvalue
   * conversion, which invokes the closure once and stores 5.
   */
  lemma DeduceBasicTest()
    ensures var t := Forwarded(Expr(Bare(Closure), false));
      && t == Ty(false, RRef, Closure)
      && Deduce(Bare(Elide(t, []))) == IntTy
      && ConversionPicks(Bare(Elide(t, [])), IntTy) == Some(Temporary)
      && ReturnsDeclared(Wrapper(t, [], ReturnFive, []))
      && Construct(t, [], ReturnFive, []).Some?
      && var w := Construct(t, [], ReturnFive, []).value;
         && Materialize(w, Access(Temporary, Conversion)) == Some(Outcome(IntV(5), Some(Call(false, []))))
         && Trace(w, [Access(Temporary, Conversion)]) == [Call(false, [])]
  {
    var t := Ty(false, RRef, Closure);
    assert InvokeForm(t, []) == Some(Form(IntTy, true));
    var w := Construct(t, [], ReturnFive, []).value;
    assert RvalueCall(w) == Call(false, []);
    assert Trace(w, [Access(Temporary, Conversion)]) ==
      Invocations(Materialize(w, Access(Temporary, Conversion))) + Trace(w, []);
  }

}
