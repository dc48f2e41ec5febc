/** Concrete binary operators: `StringConcat` (joins two strings around a
    separator) and the dispatch of `NumericAggregateFunction` on the runtime
    kind of its first operand. */
module ImplBinaryOperator {
  import opened Wrappers
  import opened JavaInts

  const DEFAULT_SEPARATOR := ","

  /** Java string conversion of a possibly null `String` (section 15.18.1 of
      the Java Language Specification): null is rendered as "null". */
  function StringOf(s: Option<string>): (r: string)
    ensures s.Some? ==> r == s.value
    ensures s.None? ==> r == "null"
  {
    if s.None? then "null" else s.value
  }

  class StringConcat {
    var separator: Option<string>

    constructor ()
      ensures GetSeparator() == Some(DEFAULT_SEPARATOR)
    {
      separator := Some(DEFAULT_SEPARATOR);
    }

    constructor WithSeparator(separator: Option<string>)
      ensures GetSeparator() == separator
    {
      this.separator := separator;
    }

    function GetSeparator(): Option<string>
      reads this
    {
      separator
    }

    method SetSeparator(separator: Option<string>)
      modifies this
      ensures GetSeparator() == separator
    {
      this.separator := separator;
    }

    /** `_apply(a, b)`: `a`, then the separator, then `b`. */
    function Apply(a: string, b: string): (r: string)
      reads this
      ensures |r| == |a| + |StringOf(separator)| + |b|
      ensures r[..|a|] == a
      ensures r[|a|..|a| + |StringOf(separator)|] == StringOf(separator)
      ensures r[|a| + |StringOf(separator)|..] == b
    {
      var s := StringOf(separator);
      var r := a + s + b;
      assert r[..|a|] == a;
      assert r[|a|..|a| + |s|] == s;
      assert r[|a| + |s|..] == b;
      r
    }

    /** `equals`: the same object or the same separator. */
    function Equals(that: StringConcat): (r: bool)
      reads this, that
      ensures this == that ==> r
      ensures r <==> GetSeparator() == that.GetSeparator()
    {
      this == that || separator == that.separator
    }
  }

  /** The three parts `Apply` promises determine its result: whatever string has
      `a` in front, the separator in the middle and `b` behind is the result. */
  lemma {:induction false} ApplyIsDeterminedByItsParts(c: StringConcat, a: string, b: string, r: string)
    requires |r| == |a| + |StringOf(c.separator)| + |b|
    requires r[..|a|] == a
    requires r[|a|..|a| + |StringOf(c.separator)|] == StringOf(c.separator)
    requires r[|a| + |StringOf(c.separator)|..] == b
    ensures c.Apply(a, b) == r
  {
    var s := StringOf(c.separator);
    var t := c.Apply(a, b);
    forall k | 0 <= k < |r|
      ensures t[k] == r[k]
    {
      if k < |a| {
        assert t[k] == t[..|a|][k] && r[k] == r[..|a|][k];
      } else if k < |a| + |s| {
        assert t[k] == t[|a|..|a| + |s|][k - |a|] && r[k] == r[|a|..|a| + |s|][k - |a|];
      } else {
        assert t[k] == t[|a| + |s|..][k - |a| - |s|] && r[k] == r[|a| + |s|..][k - |a| - |s|];
      }
    }
  }

  /** Folding with `StringConcat` is associative, so the grouping of an
      aggregation does not matter. */
  lemma ApplyIsAssociative(c: StringConcat, a: string, b: string, d: string)
    ensures c.Apply(c.Apply(a, b), d) == c.Apply(a, c.Apply(b, d))
  {
    var s := StringOf(c.separator);
    assert c.Apply(c.Apply(a, b), d) == a + s + b + s + d;
    assert c.Apply(a, c.Apply(b, d)) == a + s + (b + s + d);
  }

  /** The default separator joins with a comma; a null separator is spelled out. */
  lemma SeparatorExamples(c: StringConcat)
    ensures c.separator == Some(DEFAULT_SEPARATOR) ==> c.Apply("a", "b") == "a,b"
    ensures c.separator.None? ==> c.Apply("a", "b") == "anullb"
  {
  }

  /** Equal instances concatenate alike. */
  lemma ConcatEqualsApplyAlike(x: StringConcat, y: StringConcat, a: string, b: string)
    requires x.Equals(y)
    ensures x.Apply(a, b) == y.Apply(a, b)
  {
  }

  /** A boxed `java.lang.Number`. `Double` and `Float` keep their IEEE 754 bit
      patterns: no arithmetic is done on them here. Any other subclass
      (`BigDecimal`, `Byte`, `AtomicLong`, ...) is `OtherNumber`. */
  datatype JNumber =
    | JInteger(i: Int32)
    | JLong(l: Int64)
    | JDouble(d: bv64)
    | JFloat(f: bv32)
    | JShort(s: Int16)
    | OtherNumber(className: string)

  /** The runtime class of a number, as `instanceof` tells it. */
  datatype NumberKind = IntegerKind | LongKind | DoubleKind | FloatKind | ShortKind | OtherKind(className: string)

  function KindOf(n: JNumber): NumberKind {
    match n
    case JInteger(_) => IntegerKind
    case JLong(_) => LongKind
    case JDouble(_) => DoubleKind
    case JFloat(_) => FloatKind
    case JShort(_) => ShortKind
    case OtherNumber(c) => OtherKind(c)
  }

  /** The five abstract `aggregateX` methods of a concrete subclass. The second
      operand and the result may be null. */
  datatype Hooks = Hooks(
    aggregateInt: (Int32, Option<Int32>) -> Option<Int32>,
    aggregateLong: (Int64, Option<Int64>) -> Option<Int64>,
    aggregateDouble: (bv64, Option<bv64>) -> Option<bv64>,
    aggregateFloat: (bv32, Option<bv32>) -> Option<bv32>,
    aggregateShort: (Int16, Option<Int16>) -> Option<Int16>)

  /** The casts `(Integer) b` and so on: null passes, a number of another kind
      throws `ClassCastException`. Each cast undoes boxing. */
  function CastInt(b: Option<JNumber>): (r: Result<Option<Int32>>)
    ensures r.Ok? <==> b.None? || b.value.JInteger?
    ensures r.Ok? ==> b == BoxInt(r.value)
    ensures r.Err? ==> r.error == ClassCast
  {
    if b.None? then Ok(None) else if b.value.JInteger? then Ok(Some(b.value.i)) else Err(ClassCast)
  }

  function CastLong(b: Option<JNumber>): (r: Result<Option<Int64>>)
    ensures r.Ok? <==> b.None? || b.value.JLong?
    ensures r.Ok? ==> b == BoxLong(r.value)
    ensures r.Err? ==> r.error == ClassCast
  {
    if b.None? then Ok(None) else if b.value.JLong? then Ok(Some(b.value.l)) else Err(ClassCast)
  }

  function CastDouble(b: Option<JNumber>): (r: Result<Option<bv64>>)
    ensures r.Ok? <==> b.None? || b.value.JDouble?
    ensures r.Ok? ==> b == BoxDouble(r.value)
    ensures r.Err? ==> r.error == ClassCast
  {
    if b.None? then Ok(None) else if b.value.JDouble? then Ok(Some(b.value.d)) else Err(ClassCast)
  }

  function CastFloat(b: Option<JNumber>): (r: Result<Option<bv32>>)
    ensures r.Ok? <==> b.None? || b.value.JFloat?
    ensures r.Ok? ==> b == BoxFloat(r.value)
    ensures r.Err? ==> r.error == ClassCast
  {
    if b.None? then Ok(None) else if b.value.JFloat? then Ok(Some(b.value.f)) else Err(ClassCast)
  }

  function CastShort(b: Option<JNumber>): (r: Result<Option<Int16>>)
    ensures r.Ok? <==> b.None? || b.value.JShort?
    ensures r.Ok? ==> b == BoxShort(r.value)
    ensures r.Err? ==> r.error == ClassCast
  {
    if b.None? then Ok(None) else if b.value.JShort? then Ok(Some(b.value.s)) else Err(ClassCast)
  }

  /** Boxing of a possibly null hook result. */
  function BoxInt(x: Option<Int32>): Option<JNumber> {
    if x.None? then None else Some(JInteger(x.value))
  }

  function BoxLong(x: Option<Int64>): Option<JNumber> {
    if x.None? then None else Some(JLong(x.value))
  }

  function BoxDouble(x: Option<bv64>): Option<JNumber> {
    if x.None? then None else Some(JDouble(x.value))
  }

  function BoxFloat(x: Option<bv32>): Option<JNumber> {
    if x.None? then None else Some(JFloat(x.value))
  }

  function BoxShort(x: Option<Int16>): Option<JNumber> {
    if x.None? then None else Some(JShort(x.value))
  }

  /** `NumericAggregateFunction._apply(a, b)`: the `instanceof` chain on `a`
      (Integer, Long, Double, Float, Short), a cast of `b` to the same kind and
      the matching hook; null for any other `a`, including null. */
  function Aggregate(h: Hooks, a: Option<JNumber>, b: Option<JNumber>): (r: Result<Option<JNumber>>)
    ensures (a.None? || a.value.OtherNumber?) ==> r == Ok(None)
    ensures a.Some? && !a.value.OtherNumber? && b.Some? && KindOf(b.value) != KindOf(a.value) ==> r == Err(ClassCast)
    ensures r.Err? ==> r.error == ClassCast
    ensures r.Ok? && r.value.Some? ==> a.Some? && KindOf(r.value.value) == KindOf(a.value)
    ensures a.Some? && a.value.JInteger? && CastInt(b).Ok? ==> r == Ok(BoxInt(h.aggregateInt(a.value.i, CastInt(b).value)))
    ensures a.Some? && a.value.JLong? && CastLong(b).Ok? ==> r == Ok(BoxLong(h.aggregateLong(a.value.l, CastLong(b).value)))
    ensures a.Some? && a.value.JDouble? && CastDouble(b).Ok? ==> r == Ok(BoxDouble(h.aggregateDouble(a.value.d, CastDouble(b).value)))
    ensures a.Some? && a.value.JFloat? && CastFloat(b).Ok? ==> r == Ok(BoxFloat(h.aggregateFloat(a.value.f, CastFloat(b).value)))
    ensures a.Some? && a.value.JShort? && CastShort(b).Ok? ==> r == Ok(BoxShort(h.aggregateShort(a.value.s, CastShort(b).value)))
  {
    if a.None? then Ok(None)
    else
      match a.value
      case JInteger(x) =>
        (match CastInt(b) case Err(e) => Err(e) case Ok(y) => Ok(BoxInt(h.aggregateInt(x, y))))
      case JLong(x) =>
        (match CastLong(b) case Err(e) => Err(e) case Ok(y) => Ok(BoxLong(h.aggregateLong(x, y))))
      case JDouble(x) =>
        (match CastDouble(b) case Err(e) => Err(e) case Ok(y) => Ok(BoxDouble(h.aggregateDouble(x, y))))
      case JFloat(x) =>
        (match CastFloat(b) case Err(e) => Err(e) case Ok(y) => Ok(BoxFloat(h.aggregateFloat(x, y))))
      case JShort(x) =>
        (match CastShort(b) case Err(e) => Err(e) case Ok(y) => Ok(BoxShort(h.aggregateShort(x, y))))
      case OtherNumber(_) => Ok(None)
  }

  /** Two subclasses whose hooks for `kind` agree; the other four may differ. */
  ghost predicate AgreeOn(h1: Hooks, h2: Hooks, kind: NumberKind) {
    match kind
    case IntegerKind => forall x, y :: h1.aggregateInt(x, y) == h2.aggregateInt(x, y)
    case LongKind => forall x, y :: h1.aggregateLong(x, y) == h2.aggregateLong(x, y)
    case DoubleKind => forall x, y :: h1.aggregateDouble(x, y) == h2.aggregateDouble(x, y)
    case FloatKind => forall x, y :: h1.aggregateFloat(x, y) == h2.aggregateFloat(x, y)
    case ShortKind => forall x, y :: h1.aggregateShort(x, y) == h2.aggregateShort(x, y)
    case OtherKind(_) => true
  }

  /** At most one hook takes part in a call: only the one for `a`'s kind can
      change the result, and for an unhandled kind none does. */
  lemma OnlyTheMatchingHookMatters(h1: Hooks, h2: Hooks, a: Option<JNumber>, b: Option<JNumber>)
    requires a.Some? ==> AgreeOn(h1, h2, KindOf(a.value))
    ensures Aggregate(h1, a, b) == Aggregate(h2, a, b)
  {
  }

  /** A mixed pair fails with a cast error whichever hooks the subclass has, and
      a pair of the same handled kind never fails. */
  lemma AggregateFailsExactlyOnMixedKinds(h: Hooks, a: JNumber, b: Option<JNumber>)
    requires !a.OtherNumber?
    ensures Aggregate(h, Some(a), b).Err? <==> b.Some? && KindOf(b.value) != KindOf(a)
  {
  }
}
