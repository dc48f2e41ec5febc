/** `AdaptedBinaryOperator`: a binary operator with its state and input adapted
    by the same input adapter, and its result adapted back, either alone or
    folded together with the original state. */
module BinaryOperator {
  import opened Wrappers
  import opened Adapted

  const ADAPTED_BINARY_OPERATOR := "uk.gov.gchq.koryphe.binaryoperator.AdaptedBinaryOperator"
  const OPERATOR_MISSING := "BinaryOperator cannot be null"

  /** The two shapes of output adapter: a `Function` of the inner result, or a
      `BiFunction` of the original state and the inner result. */
  datatype OutputAdapter<!V> =
    | NoOutputAdapter
    | Mapping(f: V -> V)
    | Folding(g: (V, V) -> V)

  /** `adaptOutput(output, state)` of the `Adapted` base. */
  function AdaptOutput<V>(adapter: OutputAdapter<V>, output: V, state: V): (r: V)
    ensures adapter.NoOutputAdapter? ==> r == output
    ensures adapter.Mapping? ==> r == adapter.f(output)
    ensures adapter.Folding? ==> r == adapter.g(state, output)
  {
    match adapter
    case NoOutputAdapter => output
    case Mapping(f) => f(output)
    case Folding(g) => g(state, output)
  }

  class AdaptedBinaryOperator<V> {
    /** The `InputAdapted` part of this object. */
    const base: InputAdapted<V>
    var outputAdapter: OutputAdapter<V>
    var binaryOperator: Option<(V, V) -> V>

    constructor ()
      ensures fresh(base) && base.cls == ADAPTED_BINARY_OPERATOR
      ensures base.inputAdapter == None && outputAdapter == NoOutputAdapter && binaryOperator == None
    {
      base := new InputAdapted(ADAPTED_BINARY_OPERATOR);
      outputAdapter := NoOutputAdapter;
      binaryOperator := None;
    }

    /** The constructor taking a `BiFunction` output adapter; a null one is `None`. */
    constructor WithFoldingAdapter(binaryOperator: Option<(V, V) -> V>, inputAdapter: Option<V -> V>,
                                   outputAdapter: Option<(V, V) -> V>)
      ensures fresh(base) && base.cls == ADAPTED_BINARY_OPERATOR
      ensures GetBinaryOperator() == binaryOperator && base.inputAdapter == inputAdapter
      ensures this.outputAdapter == if outputAdapter.Some? then Folding(outputAdapter.value) else NoOutputAdapter
    {
      base := new InputAdapted.WithAdapter(ADAPTED_BINARY_OPERATOR, inputAdapter);
      this.binaryOperator := binaryOperator;
      this.outputAdapter := if outputAdapter.Some? then Folding(outputAdapter.value) else NoOutputAdapter;
    }

    /** The constructor taking a `Function` output adapter; a null one is `None`. */
    constructor WithMappingAdapter(binaryOperator: Option<(V, V) -> V>, inputAdapter: Option<V -> V>,
                                   outputAdapter: Option<V -> V>)
      ensures fresh(base) && base.cls == ADAPTED_BINARY_OPERATOR
      ensures GetBinaryOperator() == binaryOperator && base.inputAdapter == inputAdapter
      ensures this.outputAdapter == if outputAdapter.Some? then Mapping(outputAdapter.value) else NoOutputAdapter
    {
      base := new InputAdapted.WithAdapter(ADAPTED_BINARY_OPERATOR, inputAdapter);
      this.binaryOperator := binaryOperator;
      this.outputAdapter := if outputAdapter.Some? then Mapping(outputAdapter.value) else NoOutputAdapter;
    }

    function GetBinaryOperator(): Option<(V, V) -> V>
      reads this
    {
      binaryOperator
    }

    method SetBinaryOperator(binaryOperator: Option<(V, V) -> V>)
      modifies this
      ensures GetBinaryOperator() == binaryOperator
      ensures outputAdapter == old(outputAdapter)
    {
      this.binaryOperator := binaryOperator;
    }

    /** `apply(state, input)`: fails before any adapter runs when no operator is
        set; otherwise the operator gets the adapted state first and the adapted
        input second, and the output adapter gets its result with the unadapted state. */
    function Apply(state: V, input: V): (r: Result<V>)
      reads this, base
      ensures binaryOperator.None? <==> r.Err?
      ensures r.Err? ==> r.error == IllegalArgument(OPERATOR_MISSING)
      ensures r.Ok? ==> r.value == AdaptOutput(outputAdapter, binaryOperator.value(base.AdaptInput(state), base.AdaptInput(input)), state)
    {
      if binaryOperator.None? then
        Err(IllegalArgument(OPERATOR_MISSING))
      else
        Ok(AdaptOutput(outputAdapter, binaryOperator.value(base.AdaptInput(state), base.AdaptInput(input)), state))
    }

    /** `equals`: the base equality (runtime class and both adapters) plus equal operators. */
    ghost predicate Equals(that: AdaptedBinaryOperator<V>)
      reads this, base, that, that.base
      ensures this == that ==> Equals(that)
      ensures Equals(that) ==> base.Equals(that.base)
    {
      this == that
      || (base.Equals(that.base) && outputAdapter == that.outputAdapter && binaryOperator == that.binaryOperator)
    }
  }

  /** With no adapters the operator is folded in directly: `op(state, input)`. */
  lemma ApplyUnadapted<V>(a: AdaptedBinaryOperator<V>, state: V, input: V)
    requires a.binaryOperator.Some? && a.base.inputAdapter.None? && a.outputAdapter.NoOutputAdapter?
    ensures a.Apply(state, input) == Ok(a.binaryOperator.value(state, input))
  {
  }

  /** The full composition with a folding adapter `g` and input adapter `f`:
      `g(state, op(f(state), f(input)))`. */
  lemma ApplyComposition<V>(a: AdaptedBinaryOperator<V>, state: V, input: V)
    requires a.binaryOperator.Some? && a.base.inputAdapter.Some? && a.outputAdapter.Folding?
    ensures var f, op, g := a.base.inputAdapter.value, a.binaryOperator.value, a.outputAdapter.g;
            a.Apply(state, input) == Ok(g(state, op(f(state), f(input))))
  {
  }

  /** Equal adapted operators fold every pair alike, and fail alike. */
  lemma EqualsApplyAlike<V>(a: AdaptedBinaryOperator<V>, b: AdaptedBinaryOperator<V>, state: V, input: V)
    requires a.Equals(b)
    ensures a.Apply(state, input) == b.Apply(state, input)
  {
  }
}
