/**
 * The scenarios of the wrapper's test suite, restated over the model: an
 * instrumented producer class whose invocations are recorded per form, run
 * through the same sequences of accesses as the tests, with the counts the
 * tests expect after each step.
 */
module ElideTests {
  import opened Wrappers
  import opened Types
  import opened ElideConcepts
  import opened ElideRuntime

  /** `instrumented`: the value every invocation of the test producer constructs. */
  const Instrumented := Class("instrumented", Passing(true, true), NotCallable)
  const InstrumentedTy := Bare(Instrumented)

  /**
   * `factory<Args...>`: a `const&&` and a `const&` call operator, neither
   * `noexcept`, each recording its arguments and returning an `instrumented`.
   */
  const Factory :=
    Class("factory", Passing(true, true), Calls(Some(Form(InstrumentedTy, false)), Some(Form(InstrumentedTy, false))))

  const MakeInstrumented: Producer := (c: Call) => Obj("instrumented", 0)

  /** `std::unique_ptr<int>`: `factory<std::unique_ptr<int>>` accepts it only as an rvalue (moved from). */
  const UniquePtr := Class("unique_ptr<int>", Passing(false, true), NotCallable)

  const VectorInt := Class("vector<int>", Passing(true, true), NotCallable)
  const VectorDouble := Class("vector<double>", Passing(true, true), NotCallable)

  /** `struct split_factory { std::vector<int> operator()() &; std::vector<double> operator()() &&; };` */
  const SplitFactory :=
    Class("split_factory", Passing(true, true), Calls(Some(Form(Bare(VectorInt), false)), Some(Form(Bare(VectorDouble), false))))

  const SplitElide := Elide(Ty(false, RRef, SplitFactory), [])

  /** The producer invocations so far, split into (lvalue form, rvalue form), as the factory's two logs count them. */
  function Logged(w: Wrapper, accesses: seq<Access>): (nat, nat)
    requires Valid(w)
  {
    (CountForm(Trace(w, accesses), true), CountForm(Trace(w, accesses), false))
  }

  lemma SplitFactoryConversions()
    ensures Admits(Ty(false, RRef, SplitFactory), [])
    ensures ConversionPicks(Ty(false, Plain, SplitElide), Bare(VectorDouble)) == Some(Temporary)
    ensures ConversionPicks(Ty(false, RRef, SplitElide), Bare(VectorDouble)) == Some(Temporary)
    ensures ConversionPicks(Ty(false, LRef, SplitElide), Bare(VectorInt)) == Some(Bound)
  {
    var t := Ty(false, RRef, SplitFactory);
    assert InvokeForm(t, []) == Some(Form(Bare(VectorDouble), false));
    assert InvokeForm(AddLvalueRef(t), LvalueArgs([])) == Some(Form(Bare(VectorInt), false));
  }

  /** The wrapper of the first scenario: `const elide e(std::move(f));` over `const factory<>`. */
  const NoArguments := Wrapper(Ty(true, RRef, Factory), [], MakeInstrumented, [])

  lemma NoArgumentsConstruction()
    ensures Forwarded(Expr(Ty(true, Plain, Factory), false)) == NoArguments.producerTy
    ensures ReturnsDeclared(NoArguments)
    ensures Construct(NoArguments.producerTy, [], MakeInstrumented, []).Some?
    ensures Valid(NoArguments) && LvalueInvocable(NoArguments.producerTy, [])
    ensures ConversionPicks(Ty(true, RRef, Elide(NoArguments.producerTy, [])), InstrumentedTy) == Some(Temporary)
    ensures ConversionPicks(Ty(true, LRef, Elide(NoArguments.producerTy, [])), InstrumentedTy) == Some(Bound)
  {
    var t := NoArguments.producerTy;
    assert InvokeForm(t, []) == Some(Form(InstrumentedTy, false));
    assert InvokeForm(AddLvalueRef(t), LvalueArgs([])) == Some(Form(InstrumentedTy, false));
  }

  /**
   * The five accesses of the first scenario, one prefix at a time: two
   * conversions and a call through the binding, then a conversion and a call
   * of the moved wrapper. One `instrumented` is constructed per invocation.
   */
  lemma NoArgumentsBoundAccesses()
    ensures Valid(NoArguments)
    ensures Logged(NoArguments, []) == (0, 0)
    ensures Logged(NoArguments, [Access(Bound, Conversion)]) == (1, 0)
    ensures Logged(NoArguments, [Access(Bound, Conversion), Access(Bound, Conversion)]) == (2, 0)
    ensures Logged(NoArguments, [Access(Bound, Conversion), Access(Bound, Conversion),
                                 Access(Bound, CallOperator)]) == (3, 0)
  {
    NoArgumentsConstruction();
    var w := NoArguments;
    TraceForms(w, []);
    TraceForms(w, [Access(Bound, Conversion)]);
    TraceForms(w, [Access(Bound, Conversion), Access(Bound, Conversion)]);
    TraceForms(w, [Access(Bound, Conversion), Access(Bound, Conversion), Access(Bound, CallOperator)]);
  }

  lemma NoArgumentsTemporaryAccesses()
    ensures Valid(NoArguments)
    ensures Logged(NoArguments, [Access(Bound, Conversion), Access(Bound, Conversion),
                                 Access(Bound, CallOperator), Access(Temporary, Conversion)]) == (3, 1)
    ensures Logged(NoArguments, [Access(Bound, Conversion), Access(Bound, Conversion),
                                 Access(Bound, CallOperator), Access(Temporary, Conversion),
                                 Access(Temporary, CallOperator)]) == (3, 2)
  {
    NoArgumentsConstruction();
    var w := NoArguments;
    TraceForms(w, [Access(Bound, Conversion), Access(Bound, Conversion), Access(Bound, CallOperator),
                   Access(Temporary, Conversion)]);
    TraceForms(w, [Access(Bound, Conversion), Access(Bound, Conversion), Access(Bound, CallOperator),
                   Access(Temporary, Conversion), Access(Temporary, CallOperator)]);
  }

  /** The wrapper of the second scenario: `const elide e(std::move(f), i);` with `const int i = 5;`. */
  const OneArgument := Wrapper(Ty(true, RRef, Factory), [Ty(true, LRef, Int)], MakeInstrumented, [IntV(5)])

  lemma OneArgumentConstruction()
    ensures Forwarded(Expr(Ty(true, Plain, Factory), false)) == OneArgument.producerTy
    ensures GuideArgs([Expr(Ty(true, Plain, Int), true)]) == OneArgument.argTys
    ensures ReturnsDeclared(OneArgument)
    ensures Construct(OneArgument.producerTy, OneArgument.argTys, MakeInstrumented, [IntV(5)]).Some?
    ensures Valid(OneArgument) && LvalueInvocable(OneArgument.producerTy, OneArgument.argTys)
  {
    var t, args := OneArgument.producerTy, OneArgument.argTys;
    assert GuideArgs([Expr(Ty(true, Plain, Int), true)]) == args;
    assert InvokeForm(t, args) == Some(Form(InstrumentedTy, false));
    assert LvalueArgs(args) == [Ty(true, LRef, Int)];
    assert InvokeForm(AddLvalueRef(t), LvalueArgs(args)) == Some(Form(InstrumentedTy, false));
  }

  /** Two conversions through the binding, then one of the moved wrapper; every invocation sees 5. */
  lemma OneArgumentLvalueInvocable()
    ensures Valid(OneArgument)
    ensures Logged(OneArgument, [Access(Bound, Conversion)]) == (1, 0)
    ensures Logged(OneArgument, [Access(Bound, Conversion), Access(Bound, Conversion)]) == (2, 0)
    ensures Logged(OneArgument, [Access(Bound, Conversion), Access(Bound, Conversion), Access(Temporary, Conversion)]) == (2, 1)
    ensures var trace := Trace(OneArgument, [Access(Bound, Conversion), Access(Bound, Conversion), Access(Temporary, Conversion)]);
      forall k :: 0 <= k < |trace| ==> Values(trace[k].args) == [IntV(5)]
  {
    OneArgumentConstruction();
    var w := OneArgument;
    TraceForms(w, [Access(Bound, Conversion)]);
    TraceForms(w, [Access(Bound, Conversion), Access(Bound, Conversion)]);
    TraceForms(w, [Access(Bound, Conversion), Access(Bound, Conversion), Access(Temporary, Conversion)]);
    TraceArguments(w, [Access(Bound, Conversion), Access(Bound, Conversion), Access(Temporary, Conversion)]);
  }

  /**
   * A producer may itself return a wrapper: `[&] { return elide(std::move(f)); }`
   * over the first scenario's factory is admitted, and a temporary access
   * yields the inner wrapper object without invoking the factory.
   */
  lemma WrapperReturningProducer()
    ensures var inner := Bare(Elide(Ty(true, RRef, Factory), []));
      var outer := Ty(false, RRef, Class("closure", Passing(true, true), Calls(Some(Form(inner, false)), Some(Form(inner, false)))));
      var w := Wrapper(outer, [], (c: Call) => ElideV(1), []);
      && Valid(w)
      && Materialize(w, Access(Temporary, Conversion)) == Some(Outcome(ElideV(1), Some(Call(false, []))))
  {
    var inner := Bare(Elide(Ty(true, RRef, Factory), []));
    NoArgumentsConstruction();
    assert IsResult(inner);
    var outer := Ty(false, RRef, Class("closure", Passing(true, true), Calls(Some(Form(inner, false)), Some(Form(inner, false)))));
    assert InvokeForm(outer, []) == Some(Form(inner, false));
    assert InvokeForm(AddLvalueRef(outer), LvalueArgs([])) == Some(Form(inner, false));
  }

  /**
   * `const elide e(std::move(f), std::move(ptr));`: convertible only as a
   * temporary; one conversion passes the very pointer that was moved in, as
   * an rvalue.
   */
  lemma OneNonCopyableArgument()
    ensures var t := Forwarded(Expr(Ty(true, Plain, Factory), false));
      var args := GuideArgs([Expr(Bare(UniquePtr), false)]);
      var ptr := Obj("unique_ptr<int>", 4096);
      && args == [Ty(false, RRef, UniquePtr)]
      && ReturnsDeclared(Wrapper(t, args, MakeInstrumented, [ptr]))
      && Construct(t, args, MakeInstrumented, [ptr]).Some?
      && ConversionPicks(Ty(true, RRef, Elide(t, args)), InstrumentedTy) == Some(Temporary)
      && ConversionPicks(Ty(true, LRef, Elide(t, args)), InstrumentedTy).None?
      && var w := Construct(t, args, MakeInstrumented, [ptr]).value;
         && Logged(w, [Access(Temporary, Conversion)]) == (0, 1)
         && Trace(w, [Access(Temporary, Conversion)]) == [Call(false, [Passed(false, ptr)])]
  {
    var t := Ty(true, RRef, Factory);
    var args := GuideArgs([Expr(Bare(UniquePtr), false)]);
    var ptr := Obj("unique_ptr<int>", 4096);
    assert args == [Ty(false, RRef, UniquePtr)];
    assert InvokeForm(t, args) == Some(Form(InstrumentedTy, false));
    assert LvalueArgs(args) == [Ty(false, LRef, UniquePtr)];
    assert !Accepts(LvalueArgs(args)[0]);
    assert !LvalueInvocable(t, args);
    NoLvalueFormConvertsOnlyToTombstone(Ty(true, LRef, Elide(t, args)), InstrumentedTy);
    var w := Construct(t, args, MakeInstrumented, [ptr]).value;
    var steps := [Access(Temporary, Conversion)];
    TraceForms(w, steps);
    assert RvalueCall(w) == Call(false, [Passed(false, ptr)]);
    assert Trace(w, steps) == Invocations(Materialize(w, steps[0])) + Trace(w, []);
  }

}
