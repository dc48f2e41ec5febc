/** `AdaptedPredicate`: an `InputAdapted` predicate. The unset predicate accepts
    everything, and then the adapter is not consulted. */
module Predicate {
  import opened Wrappers
  import opened Adapted

  const ADAPTED_PREDICATE := "uk.gov.gchq.koryphe.predicate.AdaptedPredicate"

  class AdaptedPredicate<V> {
    /** The `InputAdapted` part of this object (its superclass state). */
    const base: InputAdapted<V>
    var innerPredicate: Option<V -> bool>

    constructor ()
      ensures fresh(base) && base.cls == ADAPTED_PREDICATE
      ensures base.inputAdapter == None && innerPredicate == None
    {
      base := new InputAdapted(ADAPTED_PREDICATE);
      innerPredicate := None;
    }

    constructor WithPredicate(inputAdapter: Option<V -> V>, innerPredicate: Option<V -> bool>)
      ensures fresh(base) && base.cls == ADAPTED_PREDICATE
      ensures base.GetInputAdapter() == inputAdapter && GetPredicate() == innerPredicate
    {
      base := new InputAdapted(ADAPTED_PREDICATE);
      this.innerPredicate := None;
      new;
      SetInputAdapter(inputAdapter);
      SetPredicate(innerPredicate);
    }

    function GetPredicate(): Option<V -> bool>
      reads this
    {
      innerPredicate
    }

    method SetPredicate(innerPredicate: Option<V -> bool>)
      modifies this
      ensures GetPredicate() == innerPredicate
    {
      this.innerPredicate := innerPredicate;
    }

    method SetInputAdapter(inputAdapter: Option<V -> V>)
      modifies base
      ensures base.GetInputAdapter() == inputAdapter
    {
      base.SetInputAdapter(inputAdapter);
    }

    /** `test`: `null == predicate || predicate.test(adaptInput(input))`. */
    function Test(input: V): (r: bool)
      reads this, base
      ensures innerPredicate.None? ==> r
      ensures innerPredicate.Some? && base.inputAdapter.None? ==> (r <==> innerPredicate.value(input))
      ensures innerPredicate.Some? && base.inputAdapter.Some? ==> (r <==> innerPredicate.value(base.inputAdapter.value(input)))
    {
      innerPredicate.None? || innerPredicate.value(base.AdaptInput(input))
    }

    /** `equals`: the `InputAdapted` equality plus equal predicates. */
    ghost predicate Equals(that: AdaptedPredicate<V>)
      reads this, base, that, that.base
      ensures this == that ==> Equals(that)
      ensures Equals(that) ==> base.Equals(that.base)
    {
      this == that || (base.Equals(that.base) && innerPredicate == that.innerPredicate)
    }
  }

  /** Equal adapted predicates give the same answer on every input. */
  lemma EqualsTestAlike<V>(a: AdaptedPredicate<V>, b: AdaptedPredicate<V>, x: V)
    requires a.Equals(b)
    ensures a.Test(x) == b.Test(x)
  {
  }

  /** With no predicate, the answer does not depend on the input adapter at all. */
  lemma UnsetPredicateIgnoresAdapter<V>(a: AdaptedPredicate<V>, b: AdaptedPredicate<V>, x: V)
    requires a.innerPredicate.None? && b.innerPredicate.None?
    ensures a.Test(x) && b.Test(x)
  {
  }
}
