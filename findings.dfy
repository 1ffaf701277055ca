/**
 * The lvalue call operator converts the lvalue conversion's value to the
 * RVALUE result type before returning it as the lvalue result type. Two
 * inputs show the difference from the intended "same as the lvalue
 * conversion": a producer whose lvalue form yields `double` and whose rvalue
 * form yields `int` loses the fraction, and the test suite's own
 * `split_factory` (vector<int> / vector<double>) declares a call operator
 * whose body cannot compile.
 */
module LvalueCallFinding {
  import opened Wrappers
  import opened Types
  import opened ElideConcepts
  import opened ElideRuntime
  import ElideTests

  /** `struct mixed_factory { double operator()() &; int operator()() &&; };` */
  const MixedFactory := Class("mixed_factory", Passing(true, true), Calls(Some(Form(DoubleTy, false)), Some(Form(IntTy, false))))

  const Mixed := Wrapper(Ty(false, RRef, MixedFactory), [], (c: Call) => if c.asLvalue then DoubleV(2.5) else IntV(2), [])

  /** As written, calling a bound `elide<mixed_factory&&>` returns 2.0 where its lvalue conversion returns 2.5. */
  lemma AsWrittenTruncatesLvalueResult()
    ensures Valid(Mixed) && LvalueInvocable(Mixed.producerTy, [])
    ensures ConvertLvalue(Mixed).value == DoubleV(2.5)
    ensures CallLvalueAsWritten(Mixed) == Some(Outcome(DoubleV(2.0), Some(Call(true, []))))
    ensures CallLvalue(Mixed) == Some(Outcome(DoubleV(2.5), Some(Call(true, []))))
  {
    var t := Mixed.producerTy;
    assert InvokeForm(t, []) == Some(Form(IntTy, false));
    assert InvokeForm(AddLvalueRef(t), LvalueArgs([])) == Some(Form(DoubleTy, false));
    assert LvalueCall(Mixed) == Call(true, []);
    assert Truncate(2.5) == 2;
  }

  /**
   * As written, `elide<split_factory&&>` declares a bound call operator (so
   * `std::invoke_result` reports `vector<int>`), but its body, which builds a
   * `vector<double>` from the `vector<int>`, is ill-formed.
   */
  lemma AsWrittenRejectsSplitFactoryCall()
    ensures var w := Wrapper(Ty(false, RRef, ElideTests.SplitFactory), [], (c: Call) => if c.asLvalue then Obj("vector<int>", 0) else Obj("vector<double>", 0), []);
      && Valid(w)
      && Declared(w.producerTy, [], Access(Bound, CallOperator)).Some?
      && CallLvalue(w).Some?
      && CallLvalueAsWritten(w).None?
  {
    ElideTests.SplitFactoryConversions();
    var t := Ty(false, RRef, ElideTests.SplitFactory);
    assert InvokeForm(AddLvalueRef(t), LvalueArgs([])) == Some(Form(Bare(ElideTests.VectorInt), false));
  }

}
