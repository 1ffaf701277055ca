/**
 * C++ types as data. A type is a base type wrapped in a top-level `const` and
 * a reference category (`T`, `T&` or `T&&`). Class types carry what the
 * wrapper needs to know about them: how they may be passed as an argument and
 * what invoking them yields, as an lvalue and as an rvalue.
 */
module Types {
  import opened Wrappers

  /** Reference category of a declared type: `T`, `T&` or `T&&`. */
  datatype Ref = Plain | LRef | RRef

  datatype Ty = Ty(isConst: bool, ref: Ref, base: Base)

  datatype Base =
    | Void
    | Int
    | Double
    | Tombstone
      /** A class type: how an object of it is accepted as an argument, and its call operators. */
    | Class(name: string, passing: Passing, calls: Calls)
      /** An instantiation `elide<T, Args...>`. */
    | Elide(producer: Ty, args: seq<Ty>)

  /** Whether a producer accepts an argument of this type handed over as an lvalue, as an rvalue. */
  datatype Passing = Passing(asLvalue: bool, asRvalue: bool)

  /** The outcome of a viable invocation: its result type and whether it is declared non-throwing. */
  datatype Form = Form(result: Ty, nothrow: bool)

  /**
   * The invocation a class offers when the object is an lvalue and when it is an
   * rvalue, after overload resolution on the call operators' ref-qualifiers
   * (`None`: no viable call operator in that category).
   */
  datatype Calls = Calls(asLvalue: Option<Form>, asRvalue: Option<Form>)

  const NotCallable := Calls(None, None)

  /** The unqualified type with the given base. */
  function Bare(b: Base): Ty { Ty(false, Plain, b) }

  const IntTy := Bare(Int)
  const DoubleTy := Bare(Double)
  const TombstoneTy := Bare(Tombstone)

  /** `std::declval<T>()` is an lvalue exactly when `T` is an lvalue reference. */
  predicate IsLvalue(t: Ty) { t.ref == LRef }

  /** `std::remove_cvref_t<T>`. */
  function RemoveCvref(t: Ty): Ty { Bare(t.base) }

  /** `T&` after reference collapsing: always an lvalue reference to the same referent. */
  function AddLvalueRef(t: Ty): Ty { Ty(t.isConst, LRef, t.base) }

  /** The concept `result`: anything but (unqualified) `void`. */
  predicate IsResult(t: Ty) { t != Bare(Void) }

  /**
   * Whether a producer accepts an argument expression of declared type `a`:
   * arithmetic types and the library's own types are accepted in either
   * category, `void` never, a class as its `passing` says.
   */
  predicate Accepts(a: Ty)
  {
    match a.base
    case Void => false
    case Class(_, passing, _) => if IsLvalue(a) then passing.asLvalue else passing.asRvalue
    case _ => true
  }

}
