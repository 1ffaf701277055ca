# elide: deferred, category-dispatched production, in Dafny

`beman::elide` is a C++ library with two headers. `elide<T, Args...>` stores a
producer callable and its arguments and invokes nothing when it is built. Each
later use decides what runs. A temporary wrapper (`const&&` members) invokes the
producer with everything forwarded in its captured category. A wrapper used
through a binding (`const&` members) invokes the producer's lvalue form with
every argument as an lvalue, or yields a default `tombstone` when no such form
exists. `deduce_t<T>` names the type a `T` yields when it initialises storage:
the wrapper's result when `T` in its own category is invocable, otherwise `T`
without qualifiers.

Because the library is almost entirely compile-time type selection, the model
encodes C++ types as data (`Types.Ty`). It has these parts:

- `wrappers.dfy`: the `Option` type.
- `types.dfy`: the type universe. Each class carries how it accepts being passed
  as an argument (`Passing`) and the invocation it offers as an lvalue and as an
  rvalue (`Calls`).
- `concepts.dfy`: `std::invoke_result` over that universe (`InvokeForm`,
  including the wrapper's own call operators). It also holds the concepts `c`
  (`Admits`) and `lvalue` (`LvalueInvocable`), the two result types and
  `noexcept` flags, the declared members, conversion-function selection and the
  deduction guide.
- `wrapper.dfy`: a wrapper object as a value. A producer is a function from the
  invocation it receives to the value it returns. Every materialisation returns
  its value and the invocation it made, and a sequence of accesses yields a
  trace of invocations. That trace is what the test suite observes through its
  counters and argument logs.
- `deduce.dfy`: `is_elide` and `deduce_t`.
- `deduce_tests.dfy`, `elide_tests.dfy`: the test suites' static assertions and
  scenarios, restated as lemmas.
- `findings.dfy`: the discrepancy reported below.

Three behaviours of the code that are easy to misread:

- For a producer that only has an rvalue form, reading the wrapper through a
  binding does not fall back to the rvalue form. The lvalue conversion yields a
  `tombstone` and the bound call operator does not exist (elide.hpp:74-89).
- `deduce_t` tests invocability in `T`'s own category, not in rvalue form, so
  `elide<P&&>&` can deduce to the wrapper type itself (deduce.hpp:22-24).
- The "rvalue" surface forwards the producer in its captured category. A
  producer captured as `P&` is therefore invoked through its lvalue form even on
  that path (elide.hpp:64-66).

## Model

| member | source | states |
|---|---|---|
| ElideConcepts.InvokeForm | include/beman/elide/elide.hpp:70-89 | a wrapper is invocable only with no arguments and never yields void; only classes and wrappers are invocable at all |
| ElideConcepts.Declared | include/beman/elide/elide.hpp:52-89 | both temporary surfaces and the bound conversion always exist; the bound call operator exists iff the lvalue form does; each surface's result and noexcept flag are those of its own invocation (rvalue form for the temporary surfaces, lvalue form for the bound ones), with `tombstone` as the bound conversion's result when there is no lvalue form |
| ElideConcepts.ElideInvocationIsDeclaredCallOperator | include/beman/elide/elide.hpp:70-89 | invoking a wrapper type (what `is_invocable`/`invoke_result` see) is exactly a call of the declared call operator its own category selects |
| ElideConcepts.ConversionPicks | include/beman/elide/elide.hpp:61-84 | an rvalue wrapper converts to the rvalue result via the `const&&` conversion (preferred); either category converts to the lvalue result via the `const&` one; nothing else converts |
| ElideConcepts.NoLvalueFormConvertsOnlyToTombstone | include/beman/elide/elide.hpp:74-84 | without an lvalue form, a bound wrapper converts to `tombstone` and to nothing else |
| ElideConcepts.ResultsChosenIndependently | include/beman/elide/elide.hpp:56-59 | for a producer captured as `P&&`, the rvalue result is the rvalue call's result and the lvalue result is the lvalue call's result (or `tombstone`), independently of each other |
| ElideConcepts.Forwarded | include/beman/elide/elide.hpp:97-98 | the guide captures the producer as a reference: `X&` for an lvalue, `X&&` for an rvalue, same referent and constness |
| ElideConcepts.GuideArgs | include/beman/elide/elide.hpp:97-98 | the guide captures every argument as a reference to its own type |
| ElideConcepts.GuideAdmitsIffInvocable | include/beman/elide/elide.hpp:19-24 | what the guide deduces is by-reference, so it is admitted iff the producer is invocable with the arguments as passed and yields non-void |
| ElideRuntime.Construct | include/beman/elide/elide.hpp:41-50 | for a producer that returns its declared result types, construction succeeds iff the concept `c` holds, stores exactly the given producer and arguments, and makes no invocation |
| ElideRuntime.RvalueCall | include/beman/elide/elide.hpp:62-67 | the temporary surface's invocation keeps the producer's and each argument's captured category and passes the stored argument values |
| ElideRuntime.LvalueCall | include/beman/elide/elide.hpp:76-79 | the bound surface's invocation uses the producer as an lvalue and every stored argument value as an lvalue |
| ElideRuntime.ConvertRvalue | include/beman/elide/elide.hpp:61-69 | exactly one invocation, in the producer's captured category, with the stored values; its result is returned unchanged and is a value of `rvalue_result_type_` |
| ElideRuntime.CallRvalue | include/beman/elide/elide.hpp:70-73 | the cast `rvalue_result_type_(std::move(*this))` selects the `const&&` conversion, and the call yields exactly that conversion's value and invocation |
| ElideRuntime.ConvertLvalue | include/beman/elide/elide.hpp:74-84 | with an lvalue form: one lvalue invocation and its result; without one: a default `tombstone` and no invocation; either way a value of `lvalue_result_type_` |
| ElideRuntime.CallLvalue | include/beman/elide/elide.hpp:85-89 | the bound call operator exists iff the lvalue form does, and then returns the lvalue conversion's result (corrected definition, see Findings) |
| ElideRuntime.Materialize | include/beman/elide/elide.hpp:61-89 | with the corrected bound call operator (see Findings): an access is rejected only for the missing bound call operator; a temporary access makes the rvalue-surface invocation, a bound one the lvalue invocation or none |
| ElideRuntime.TraceLength | tests/beman/elide/elide.test.cpp:95-143 | over any sequence of accesses, invocations = temporary accesses + (bound accesses if the lvalue form exists); no access, no invocation |
| ElideRuntime.TraceForms | tests/beman/elide/elide.test.cpp:107-142 | lvalue-form invocations = bound accesses (when the lvalue form exists) plus temporary ones if the producer is captured as an lvalue; rvalue-form invocations = temporary accesses for an rvalue-captured producer, none otherwise |
| ElideRuntime.TraceArguments | include/beman/elide/elide.hpp:62-79 | every invocation, on either path, receives exactly the stored argument values |
| ElideRuntime.BoundReadsInvokeAfresh | include/beman/elide/elide.hpp:74-84 | n bound conversions make n fresh lvalue invocations (no caching) |
| ElideRuntime.CallLvalueAsWritten | include/beman/elide/elide.hpp:85-89 | the bound call operator as written compiles iff the lvalue form exists and both result types convert to each other; it makes the lvalue conversion's invocation |
| ElideRuntime.AsWrittenMakesSameInvocations | include/beman/elide/elide.hpp:85-89 | wherever the bound call operator as written compiles, it makes exactly the lvalue invocation the corrected one makes, so the trace lemmas hold of the code as written too |
| ElideRuntime.AsWrittenAgreesWhenResultTypesMatch | include/beman/elide/elide.hpp:85-89 | with equal result types, the call operator as written equals the corrected one |
| ResultDeduction.Deduce | include/beman/elide/deduce.hpp:20-27 | a non-wrapper deduces to its stripped type; anything else deduced is the result of invoking `T` itself with no arguments |
| ResultDeduction.IsElideOfStripped | include/beman/elide/deduce.hpp:13-16 | `is_elide` of the stripped type holds exactly for wrapper types, and only unqualified types satisfy it |
| ResultDeduction.DeducePlainType | include/beman/elide/deduce.hpp:20-21 | every qualification of a non-wrapper type deduces to the bare type |
| ResultDeduction.DeduceTemporaryWrapper | include/beman/elide/deduce.hpp:22-24 | `W`, `W&&`, `const W&&` deduce to the rvalue result type |
| ResultDeduction.DeduceBoundWrapper | include/beman/elide/deduce.hpp:22-24 | `W&`, `const W&` deduce to the lvalue result type with a lvalue form, to `W` itself otherwise |
| ResultDeduction.DeduceIgnoresConst | include/beman/elide/deduce.hpp:20-24 | adding `const` never changes the deduced type |
| ResultDeduction.DeducedStorageUsesMatchingConversion | tests/beman/elide/deduce.test.cpp:28-39 | storage of type `deduce_t<T>` is initialised from a `T` through the conversion of `T`'s own category |
| DeduceTests.IsElideTests | tests/beman/elide/deduce.test.cpp:43-44 | `is_elide<int>` is false, `is_elide<elide<factory&>>` true |
| DeduceTests.DeduceIntTests | tests/beman/elide/deduce.test.cpp:46-50 | all five qualifications of `int` deduce to `int` |
| DeduceTests.DeduceFactoryTests | tests/beman/elide/deduce.test.cpp:52-56 | all qualifications of `elide<factory&>` deduce to `int` |
| DeduceTests.DeduceNoLvalueFactoryTests | tests/beman/elide/deduce.test.cpp:58-62 | `elide<no_lvalue_factory&&>` deduces to `int` as a temporary and to itself through `&`/`const&` |
| DeduceTests.DeduceSplitFactoryTests | tests/beman/elide/deduce.test.cpp:64-67 | `elide<split_factory&&>` deduces to `double` as a temporary and to `int` through `&` |
| DeduceTests.DeduceBasicTest | tests/beman/elide/deduce.test.cpp:69-72 | a wrapper over a closure returning 5 declares `int` storage, initialised by one rvalue invocation that stores 5 |
| ElideTests.SplitFactoryConversions | tests/beman/elide/elide.test.cpp:75-91 | `elide<split_factory&&>` converts to `vector<double>` as a temporary and to `vector<int>` through `&` |
| ElideTests.NoArgumentsConstruction | tests/beman/elide/elide.test.cpp:95-106 | the guide deduces `const factory<>&&`; the wrapper is admitted, lvalue-invocable, convertible in both categories |
| ElideTests.NoArgumentsBoundAccesses | tests/beman/elide/elide.test.cpp:107-127 | after 0..3 bound accesses the logs hold (0,0), (1,0), (2,0), (3,0) invocations |
| ElideTests.NoArgumentsTemporaryAccesses | tests/beman/elide/elide.test.cpp:128-142 | two further temporary accesses bring the logs to (3,1) and (3,2) |
| ElideTests.OneArgumentConstruction | tests/beman/elide/elide.test.cpp:145-157 | `elide(std::move(f), i)` captures `const int&`, is admitted and lvalue-invocable |
| ElideTests.OneArgumentLvalueInvocable | tests/beman/elide/elide.test.cpp:158-178 | logs (1,0), (2,0), (2,1) and every invocation receives 5 |
| ElideTests.WrapperReturningProducer | include/beman/elide/elide.hpp:19-24 | a producer whose result is itself a wrapper type is admitted, and a temporary access yields the inner wrapper object in one invocation |
| ElideTests.OneNonCopyableArgument | tests/beman/elide/elide.test.cpp:181-205 | a moved `unique_ptr` makes the wrapper convertible only as a temporary; one conversion passes the same pointer as an rvalue |
| LvalueCallFinding.AsWrittenTruncatesLvalueResult | include/beman/elide/elide.hpp:85-89 | as written, a bound call of a double-lvalue/int-rvalue producer returns 2.0 where the lvalue conversion returns 2.5 |
| LvalueCallFinding.AsWrittenRejectsSplitFactoryCall | include/beman/elide/elide.hpp:85-89 | as written, the bound call operator of `elide<split_factory&&>` is declared but cannot compile |

`Admits` models the concept `c` (elide.hpp:19-24), and `LvalueInvocable` models
the concept `lvalue` (elide.hpp:26-29). `IsResult` models `result`
(elide.hpp:16-17), `LvalueResult` models `lvalue_result` (elide.hpp:31-37), and
`RvalueResult`, `RvalueNoexcept` and `LvalueNoexcept` model elide.hpp:52-56.
`ResultDeduction.IsElide` models `detail::deduce::is_elide` (deduce.hpp:13-16). The
rows above state these definitions through the lemmas and functions that use them.

## Left out

- Guaranteed copy elision is not modelled. The model only says that each materialisation that invokes the producer makes exactly one invocation, and so constructs exactly one result; the `tombstone` fallback makes none.
- `noexcept` is a flag derived from the invoked form. Exceptions themselves, and the `noexcept` status of argument conversions, are not modelled.
- `constexpr`, `[[no_unique_address]]` and the deleted default constructor, copy constructor and copy assignment are not modelled.
- `volatile` is not modelled.
- `std::invoke` of member pointers is not modelled.
- Overload resolution inside a producer class is pre-resolved. A class gives one form for lvalue use and one for rvalue use, already adjusted for its constness.
- ElideRuntime.TraceArguments: the wrapper holds its producer and arguments by reference (elide.hpp:23-24, 92-94), so each invocation sees the referents as they are at that moment. The model stores the values given at construction and treats the referents as unchanged between accesses, whether changed by the caller (`x = 2;` after `elide e(f, x)`) or by a producer that moves from an rvalue argument (a second temporary access after a `unique_ptr` was moved into the factory's log receives a null pointer in C++).
- ElideRuntime.Construct: that a producer returns values of its declared result types is a precondition (`ReturnsDeclared`), because C++ checks it statically when the callable is defined; the model does not derive it.
- Argument acceptance is a per-type flag pair. Arity and argument types beyond that are not checked.
- ElideConcepts.ConversionPicks: convertibility requires an exact match with a conversion function's result type. Further standard conversions after the user-defined conversion are not modelled, because no test relies on them.
- ElideRuntime.CallLvalueAsWritten: class types convert only to themselves, and converting constructors are not modelled.
- The producer's side effects are reduced to the invocation it receives. The test suite's `instrumented` and `factory` counters appear only as that trace.

## Findings

| source | as written | input that shows it | evidently intended | confidence | as-written member | corrected member |
|---|---|---|---|---|---|---|
| include/beman/elide/elide.hpp:85-89 | the bound `operator()` returns `rvalue_result_type_(*this)`: the lvalue conversion's value is converted to the rvalue result type, then back to the lvalue result type | a producer with `double operator()() &` returning 2.5 and `int operator()() &&`: a bound call returns 2.0. With `split_factory` (vector<int> / vector<double>), the bound call is declared but its body is ill-formed | return the lvalue conversion's value unchanged, as `rvalue_result_type_(std::move(*this))` does for the temporary call | medium, not executed | ElideRuntime.CallLvalueAsWritten (LvalueCallFinding.AsWrittenTruncatesLvalueResult, LvalueCallFinding.AsWrittenRejectsSplitFactoryCall) | ElideRuntime.CallLvalue |
