/**
 * `deduce<T>` / `deduce_t<T>`: the type a value of type `T` yields when it
 * initialises new storage. For a wrapper type that is invocable with no
 * arguments in `T`'s own category, that is the invocation's result; for
 * anything else it is `T` without cv- and reference qualification.
 */
module ResultDeduction {
  import opened Wrappers
  import opened Types
  import opened ElideConcepts

  /** `detail::deduce::is_elide<T>`: true for the unqualified instantiations `elide<...>` only. */
  predicate IsElide(t: Ty)
  {
    t.base.Elide? && !t.isConst && t.ref == Plain
  }

  /** `deduce_t<T>`: the constrained specialisation when it applies, the primary template otherwise. */
  function Deduce(t: Ty): (r: Ty)
    ensures !t.base.Elide? ==> r == RemoveCvref(t)
    ensures r != RemoveCvref(t) ==> t.base.Elide? && InvokeForm(t, []).Some? && r == InvokeForm(t, []).value.result
  {
    if IsElide(RemoveCvref(t)) && InvokeForm(t, []).Some? then InvokeForm(t, []).value.result
    else RemoveCvref(t)
  }

  /** `is_elide` recognises a wrapper exactly when the stripped type is one. */
  lemma IsElideOfStripped(t: Ty)
    ensures IsElide(RemoveCvref(t)) <==> t.base.Elide?
    ensures IsElide(t) ==> t == RemoveCvref(t)
  {
  }

  /** For every type that is not a wrapper, in every qualification, `deduce_t` strips the qualifiers. */
  lemma DeducePlainType(isConst: bool, ref: Ref, b: Base)
    requires !b.Elide?
    ensures Deduce(Ty(isConst, ref, b)) == Bare(b)
  {
  }

  /**
   * A wrapper used as a temporary (`W`, `W&&`, `const W&&`) deduces to its
   * rvalue result type, never to the wrapper type itself.
   */
  lemma DeduceTemporaryWrapper(isConst: bool, ref: Ref, t: Ty, args: seq<Ty>)
    requires ref != LRef && Admits(t, args)
    ensures Deduce(Ty(isConst, ref, Elide(t, args))) == RvalueResult(t, args)
  {
  }

  /**
   * A wrapper used through a binding (`W&`, `const W&`) deduces to its lvalue
   * result type when it has a real lvalue form, and to the wrapper type itself
   * otherwise.
   */
  lemma DeduceBoundWrapper(isConst: bool, t: Ty, args: seq<Ty>)
    requires Admits(t, args)
    ensures Deduce(Ty(isConst, LRef, Elide(t, args))) ==
      if LvalueInvocable(t, args) then LvalueResult(t, args) else Bare(Elide(t, args))
  {
  }

  /** Adding `const` never changes the deduced type. */
  lemma DeduceIgnoresConst(ref: Ref, b: Base)
    ensures Deduce(Ty(true, ref, b)) == Deduce(Ty(false, ref, b))
  {
  }

  /**
   * Storage declared with `deduce_t<T>` for a wrapper expression is initialised
   * through the conversion function of the expression's own category: the
   * rvalue conversion for a temporary, the lvalue conversion for a binding
   * with a real lvalue form. Computing the type invokes nothing.
   */
  lemma {:induction false} DeducedStorageUsesMatchingConversion(w: Ty)
    requires w.base.Elide? && Admits(w.base.producer, w.base.args)
    requires IsLvalue(w) ==> LvalueInvocable(w.base.producer, w.base.args)
    ensures ConversionPicks(w, Deduce(w)) == Some(if IsLvalue(w) then Bound else Temporary)
  {
    var t, args := w.base.producer, w.base.args;
    if IsLvalue(w) {
      DeduceBoundWrapper(w.isConst, t, args);
      assert Deduce(w) == LvalueResult(t, args);
    } else {
      DeduceTemporaryWrapper(w.isConst, w.ref, t, args);
    }
  }

}
