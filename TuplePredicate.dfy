/** `KoryphePredicate4` and `KoryphePredicate5`: four- and five-argument
    `test` methods presented as one-argument predicates over a tuple. */
module TuplePredicate {
  import opened TupleN

  /** A concrete `KoryphePredicate4` is given by its four-argument `test`. */
  datatype KoryphePredicate4<!T, !U, !V, !W> = KoryphePredicate4(test: (T, U, V, W) -> bool) {

    /** `delegateTest(tuple)`: components `get0..get3` go to `t, u, v, w` in
        order, and the answer is returned as it is. */
    function DelegateTest(tuple: Tuple4<T, U, V, W>): bool
    {
      test(tuple.get0, tuple.get1, tuple.get2, tuple.get3)
    }
  }

  /** A concrete `KoryphePredicate5` is given by its five-argument `test`. */
  datatype KoryphePredicate5<!T, !U, !V, !W, !X> = KoryphePredicate5(test: (T, U, V, W, X) -> bool) {

    /** `delegateTest(tuple)`: components `get0..get4` go to `t, u, v, w, x` in
        order, and the answer is returned as it is. */
    function DelegateTest(tuple: Tuple5<T, U, V, W, X>): bool
    {
      test(tuple.get0, tuple.get1, tuple.get2, tuple.get3, tuple.get4)
    }
  }

  /** Positional equivalence for four arguments. */
  lemma DelegateTestIsPositional4<T, U, V, W>(k: KoryphePredicate4<T, U, V, W>, t: T, u: U, v: V, w: W)
    ensures k.DelegateTest(Tuple4(t, u, v, w)) == k.test(t, u, v, w)
  {
  }

  /** Positional equivalence for five arguments. */
  lemma DelegateTestIsPositional5<T, U, V, W, X>(k: KoryphePredicate5<T, U, V, W, X>, t: T, u: U, v: V, w: W, x: X)
    ensures k.DelegateTest(Tuple5(t, u, v, w, x)) == k.test(t, u, v, w, x)
  {
  }

  /** The predicate behind a one-argument predicate over 4-tuples. */
  function Untupled4<T, U, V, W>(p: Tuple4<T, U, V, W> -> bool): KoryphePredicate4<T, U, V, W> {
    KoryphePredicate4((t, u, v, w) => p(Tuple4(t, u, v, w)))
  }

  /** The predicate behind a one-argument predicate over 5-tuples. */
  function Untupled5<T, U, V, W, X>(p: Tuple5<T, U, V, W, X> -> bool): KoryphePredicate5<T, U, V, W, X> {
    KoryphePredicate5((t, u, v, w, x) => p(Tuple5(t, u, v, w, x)))
  }

  /** The 4-tuple view loses nothing. */
  lemma DelegateOfUntupled4<T, U, V, W>(p: Tuple4<T, U, V, W> -> bool, tuple: Tuple4<T, U, V, W>)
    ensures Untupled4(p).DelegateTest(tuple) == p(tuple)
  {
    assert tuple == Tuple4(tuple.get0, tuple.get1, tuple.get2, tuple.get3);
  }

  /** The 5-tuple view loses nothing. */
  lemma DelegateOfUntupled5<T, U, V, W, X>(p: Tuple5<T, U, V, W, X> -> bool, tuple: Tuple5<T, U, V, W, X>)
    ensures Untupled5(p).DelegateTest(tuple) == p(tuple)
  {
    assert tuple == Tuple5(tuple.get0, tuple.get1, tuple.get2, tuple.get3, tuple.get4);
  }

  /** The predicate `t < u && v < w`, called through its tuple delegate on
      `Tuple4(1, 2, 3, 4)`, answers true. */
  lemma AscendingPairsExample()
    ensures KoryphePredicate4((t: int, u: int, v: int, w: int) => t < u && v < w).DelegateTest(Tuple4(1, 2, 3, 4))
  {
  }

  /** Positions are not permuted: a predicate that tells its last argument
      apart from the others sees `get4` in the fifth place only. */
  lemma FifthComponentExample()
    ensures KoryphePredicate5((t: int, u: int, v: int, w: int, x: int) => x == 5).DelegateTest(Tuple5(1, 2, 3, 4, 5))
    ensures !KoryphePredicate5((t: int, u: int, v: int, w: int, x: int) => x == 5).DelegateTest(Tuple5(5, 4, 3, 2, 1))
  {
  }
}
