/** `InputAdapted`: an optional input adapter in front of an inner function.
    Values are one type `V`, standing for Java's erased `Object`, so the
    unchecked cast taken when no adapter is set is the identity. */
module Adapted {
  import opened Wrappers

  /** `adaptInput`: the adapter applied to the input, or the input itself. */
  function Adapt<V>(adapter: Option<V -> V>, input: V): (r: V)
    ensures adapter.None? ==> r == input
    ensures adapter.Some? ==> r == adapter.value(input)
  {
    match adapter
    case None => input
    case Some(f) => f(input)
  }

  class InputAdapted<V> {
    /** The instance's runtime class, `getClass()`. */
    const cls: string
    var inputAdapter: Option<V -> V>

    /** The no-argument constructor of the class `cls`. */
    constructor (cls: string)
      ensures this.cls == cls && inputAdapter == None
    {
      this.cls := cls;
      inputAdapter := None;
    }

    constructor WithAdapter(cls: string, inputAdapter: Option<V -> V>)
      ensures this.cls == cls && this.inputAdapter == inputAdapter
    {
      this.cls := cls;
      this.inputAdapter := inputAdapter;
    }

    function GetInputAdapter(): Option<V -> V>
      reads this
    {
      inputAdapter
    }

    method SetInputAdapter(inputAdapter: Option<V -> V>)
      modifies this
      ensures GetInputAdapter() == inputAdapter
    {
      this.inputAdapter := inputAdapter;
    }

    function AdaptInput(input: V): (r: V)
      reads this
      ensures inputAdapter.None? ==> r == input
      ensures inputAdapter.Some? ==> r == inputAdapter.value(input)
    {
      Adapt(inputAdapter, input)
    }

    /** `equals`: the same object, or the same runtime class and equal adapters. */
    ghost predicate Equals(that: InputAdapted<V>)
      reads this, that
      ensures this == that ==> Equals(that)
      ensures Equals(that) ==> cls == that.cls
    {
      this == that || (cls == that.cls && inputAdapter == that.inputAdapter)
    }
  }

  /** Equal instances adapt every input alike. */
  lemma EqualsAdaptAlike<V>(a: InputAdapted<V>, b: InputAdapted<V>, x: V)
    requires a.Equals(b)
    ensures a.AdaptInput(x) == b.AdaptInput(x)
  {
  }

  /** Instances of different runtime classes are never equal. */
  lemma EqualsNeedsSameClass<V>(a: InputAdapted<V>, b: InputAdapted<V>)
    requires a.cls != b.cls
    ensures !a.Equals(b)
  {
  }
}
