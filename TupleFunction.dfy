/** `KorypheFunction2`: a two-argument `apply(t, u)` presented as a
    one-argument function over a `Tuple2`. */
module TupleFunction {
  import opened TupleN

  /** A concrete `KorypheFunction2` is given by its two-argument `apply`. */
  datatype KorypheFunction2<!T, !U, R> = KorypheFunction2(apply: (T, U) -> R) {

    /** `delegateApply(tuple)`: `get0` becomes the first argument, `get1` the second,
        and the result comes back untouched. */
    function DelegateApply(tuple: Tuple2<T, U>): R
    {
      apply(tuple.get0, tuple.get1)
    }
  }

  /** The two-argument function behind a one-argument function over pairs. */
  function Untupled<T, U, R>(f: Tuple2<T, U> -> R): KorypheFunction2<T, U, R> {
    KorypheFunction2((t, u) => f(Tuple2(t, u)))
  }

  /** Positional equivalence: the delegate on `Tuple2(t, u)` is `apply(t, u)`. */
  lemma DelegateApplyIsPositional<T, U, R>(k: KorypheFunction2<T, U, R>, t: T, u: U)
    ensures k.DelegateApply(Tuple2(t, u)) == k.apply(t, u)
  {
  }

  /** The tuple view loses nothing: going from a pair function to `apply` and
      back through the delegate gives the pair function again. */
  lemma DelegateOfUntupled<T, U, R>(f: Tuple2<T, U> -> R, tuple: Tuple2<T, U>)
    ensures Untupled(f).DelegateApply(tuple) == f(tuple)
  {
    assert tuple == Tuple2(tuple.get0, tuple.get1);
  }
}
