/** `TupleOutputAdapter`: writes an output into named slots of a mutable
    tuple, in place. The tuple is a `MapTuple`, a map from reference to value. */
module Tuple {
  import opened Wrappers

  /** A tuple whose slots are named by references of type `R`. */
  class MapTuple<R(==), V> {
    var values: map<R, V>

    constructor (values: map<R, V>)
      ensures this.values == values
    {
      this.values := values;
    }

    /** `put(reference, value)`. */
    method Put(reference: R, value: V)
      modifies this
      ensures values == old(values)[reference := value]
    {
      values := values[reference := value];
    }
  }

  function Min(a: int, b: int): int {
    if a < b then a else b
  }

  predicate NoRepeats<R(==)>(refs: seq<R>) {
    forall i, j :: 0 <= i < j < |refs| ==> refs[i] != refs[j]
  }

  /** The slots after `put(refs[k], items[k])` for `k = 0 .. n-1`, in that order. */
  function Written<R(==), V>(m: map<R, V>, refs: seq<R>, items: seq<V>, n: nat): map<R, V>
    requires n <= |refs| && n <= |items|
  {
    if n == 0 then m else Written(m, refs, items, n - 1)[refs[n - 1] := items[n - 1]]
  }

  /** With distinct references, the k-th written slot holds the k-th item. */
  lemma {:induction false} WrittenAt<R, V>(m: map<R, V>, refs: seq<R>, items: seq<V>, n: nat, k: nat)
    requires n <= |refs| && n <= |items| && k < n && NoRepeats(refs)
    ensures refs[k] in Written(m, refs, items, n) && Written(m, refs, items, n)[refs[k]] == items[k]
  {
    if k < n - 1 {
      WrittenAt(m, refs, items, n - 1, k);
    }
  }

  /** A slot outside the first `n` references keeps whatever it held. */
  lemma {:induction false} WrittenElsewhere<R, V>(m: map<R, V>, refs: seq<R>, items: seq<V>, n: nat, r: R)
    requires n <= |refs| && n <= |items| && r !in refs[..n]
    ensures r in Written(m, refs, items, n) <==> r in m
    ensures r in m ==> Written(m, refs, items, n)[r] == m[r]
  {
    if n > 0 {
      assert refs[n - 1] in refs[..n];
      assert refs[..n - 1] <= refs[..n];
      assert r !in refs[..n - 1];
      WrittenElsewhere(m, refs, items, n - 1, r);
    }
  }

  /** With a repeated reference the later item wins. */
  lemma {:induction false} WrittenLastWins<R, V>(m: map<R, V>, refs: seq<R>, items: seq<V>, n: nat, i: nat, j: nat)
    requires n <= |refs| && n <= |items| && i < j < n && refs[i] == refs[j]
    requires forall k :: j < k < n ==> refs[k] != refs[j]
    ensures refs[j] in Written(m, refs, items, n) && Written(m, refs, items, n)[refs[j]] == items[j]
  {
    if j < n - 1 {
      WrittenLastWins(m, refs, items, n - 1, i, j);
    }
  }

  class TupleOutputAdapter<R(==), V> {
    /** The field references; never null: a null projection is replaced by an
        empty one, and a given array is kept, not copied. */
    var projection: array<R>

    constructor ()
      ensures fresh(projection) && projection.Length == 0
    {
      projection := new R[0];
    }

    constructor WithProjection(projection: array?<R>)
      ensures projection != null ==> this.projection == projection
      ensures projection == null ==> fresh(this.projection) && this.projection.Length == 0
    {
      if projection == null {
        this.projection := new R[0];
      } else {
        this.projection := projection;
      }
    }

    /** `setProjection`: the caller's array itself is stored (the two alias). */
    method SetProjection(projection: array?<R>)
      modifies this
      ensures projection != null ==> this.projection == projection
      ensures projection == null ==> fresh(this.projection) && this.projection.Length == 0
    {
      if projection == null {
        this.projection := new R[0];
      } else {
        this.projection := projection;
      }
    }

    /** `getProjection`: a fresh copy of the references. */
    method GetProjection() returns (r: array<R>)
      ensures fresh(r) && r[..] == projection[..]
    {
      var source := projection;
      r := new R[source.Length](i requires 0 <= i < source.Length reads source => source[i]);
    }

    /** `apply(state, output)`. A one-slot projection stores the whole output;
        otherwise the output is iterated (`iterate` stands for the cast to
        `Iterable`, which fails on null or a non-iterable) and its i-th element
        is put at `projection[i]`. An element past the projection's end fails
        with the earlier slots already written. The state object is returned. */
    method Apply(state: MapTuple?<R, V>, output: V, iterate: V -> Result<seq<V>>)
      returns (r: Result<MapTuple?<R, V>>)
      modifies state
      ensures state == null ==> r == Ok(null)
      ensures state != null && projection.Length == 1 ==>
                r == Ok(state) && state.values == old(state.values)[projection[0] := output]
      ensures state != null && projection.Length != 1 && iterate(output).Err? ==>
                r == Err(iterate(output).error) && state.values == old(state.values)
      ensures state != null && projection.Length != 1 && iterate(output).Ok? ==>
                var items := iterate(output).value;
                && state.values == Written(old(state.values), projection[..], items, Min(|items|, projection.Length))
                && r == if |items| <= projection.Length then Ok(state) else Err(IndexOutOfBounds)
    {
      if state == null {
        return Ok(null);
      }
      if projection.Length == 1 {
        state.Put(projection[0], output);
        return Ok(state);
      }
      var elements := iterate(output);
      if elements.Err? {
        return Err(elements.error);
      }
      var items := elements.value;
      var i := 0;
      while i < |items|
        invariant 0 <= i <= |items| && i <= projection.Length
        invariant state.values == Written(old(state.values), projection[..], items, i)
      {
        if i >= projection.Length {
          return Err(IndexOutOfBounds);
        }
        state.Put(projection[i], items[i]);
        i := i + 1;
      }
      return Ok(state);
    }
  }

  /** `setProjection(p)` then `getProjection()`: the references of `p`, in a
      fresh array that the caller may change without touching the adapter. */
  method ProjectionRoundTrip<R(==), V>(t: TupleOutputAdapter<R, V>, p: array<R>) returns (q: array<R>)
    modifies t
    ensures fresh(q) && q[..] == p[..] && t.projection == p
  {
    t.SetProjection(p);
    q := t.GetProjection();
  }
}
