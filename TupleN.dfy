/** The fixed-arity tuples `Tuple2`, `Tuple4` and `Tuple5`: positional values,
    any of which may be null (a null is just a value of its component type). */
module TupleN {

  datatype Tuple2<T, U> = Tuple2(get0: T, get1: U)

  datatype Tuple4<T, U, V, W> = Tuple4(get0: T, get1: U, get2: V, get3: W)

  datatype Tuple5<T, U, V, W, X> = Tuple5(get0: T, get1: U, get2: V, get3: W, get4: X)
}
