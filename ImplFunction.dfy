/** Concrete functions: `DivideBy` (Java `int` quotient and remainder),
    `MultiplyLongBy` (Java `long` product) and `CsvToMaps` (one map per CSV
    record, keyed by the header names). */
module ImplFunction {
  import opened Wrappers
  import opened JavaInts
  import opened TupleN

  const DIVISION_BY_ZERO := "/ by zero"

  class DivideBy {
    var divisor: Int32

    constructor ()
      ensures divisor == 1
    {
      divisor := 1;
    }

    constructor WithDivisor(divisor: Int32)
      ensures GetBy() == divisor
    {
      this.divisor := divisor;
    }

    function GetBy(): Int32
      reads this
    {
      divisor
    }

    method SetBy(divisor: Int32)
      modifies this
      ensures GetBy() == divisor
    {
      this.divisor := divisor;
    }

    /** `apply(input)`: null gives null; otherwise `Tuple2(input / divisor, input % divisor)`
        with Java's truncating operators, which throw on a zero divisor. */
    function Apply(input: Option<Int32>): (r: Result<Option<Tuple2<Int32, Int32>>>)
      reads this
      ensures input.None? ==> r == Ok(None)
      ensures input.Some? && divisor == 0 ==> r == Err(Arithmetic(DIVISION_BY_ZERO))
      ensures input.Some? && divisor != 0 ==>
                r.Ok? && r.value.Some? &&
                var x, q, rem := input.value, r.value.value.get0, r.value.value.get1;
                && Wrap32(q * divisor + rem) == x
                && Abs(rem) < Abs(divisor)
                && (rem == 0 || (rem < 0 <==> x < 0))
                && (if x == MIN_INT && divisor == -1 then q == MIN_INT else q == TruncDiv(x, divisor))
    {
      if input.None? then
        Ok(None)
      else if divisor == 0 then
        Err(Arithmetic(DIVISION_BY_ZERO))
      else
        var x := input.value;
        TruncDivRem(x, divisor);
        Ok(Some(Tuple2(IntDiv(x, divisor), IntRem(x, divisor))))
    }

    /** `equals`: the same object or the same divisor. */
    function Equals(that: DivideBy): (r: bool)
      reads this, that
      ensures this == that ==> r
      ensures r <==> GetBy() == that.GetBy()
    {
      this == that || divisor == that.divisor
    }
  }

  /** A fresh `DivideBy` divides by one: `apply(x) == (x, 0)`. */
  lemma DefaultDividesByOne(d: DivideBy, x: Int32)
    requires d.divisor == 1
    ensures d.Apply(Some(x)) == Ok(Some(Tuple2(x, 0)))
  {
  }

  /** Equal instances give equal results on every input. */
  lemma DivideByEqualsApplyAlike(a: DivideBy, b: DivideBy, input: Option<Int32>)
    requires a.Equals(b)
    ensures a.Apply(input) == b.Apply(input)
  {
  }

  class MultiplyLongBy {
    var multiplier: Int64

    constructor ()
      ensures multiplier == 1
    {
      multiplier := 1;
    }

    constructor WithMultiplier(multiplier: Int64)
      ensures GetBy() == multiplier
    {
      this.multiplier := multiplier;
    }

    function GetBy(): Int64
      reads this
    {
      multiplier
    }

    method SetBy(multiplier: Int64)
      modifies this
      ensures GetBy() == multiplier
    {
      this.multiplier := multiplier;
    }

    /** `apply(input)`: null gives null; otherwise the `long` congruent to the
        exact product modulo 2^64 (unique, by `Wrap64Unique`). */
    function Apply(input: Option<Int64>): (r: Option<Int64>)
      reads this
      ensures r.None? <==> input.None?
      ensures r.Some? ==> (r.value - input.value * multiplier) % LONG_MODULUS == 0
      ensures r.Some? && MIN_LONG <= input.value * multiplier <= MAX_LONG ==> r.value == input.value * multiplier
    {
      if input.None? then None else Some(LongMul(input.value, multiplier))
    }

    /** `equals`: the same object or the same multiplier. */
    function Equals(that: MultiplyLongBy): (r: bool)
      reads this, that
      ensures this == that ==> r
      ensures r <==> GetBy() == that.GetBy()
    {
      this == that || multiplier == that.multiplier
    }
  }

  /** A fresh `MultiplyLongBy` is the identity on non-null inputs, and a zero
      multiplier maps every non-null input to zero. */
  lemma MultiplierOneAndZero(m: MultiplyLongBy, x: Int64)
    ensures m.multiplier == 1 ==> m.Apply(Some(x)) == Some(x)
    ensures m.multiplier == 0 ==> m.Apply(Some(x)) == Some(0)
  {
  }

  /** The wrapped product is exactly `Wrap64`: any `long` congruent to the
      product is the result. */
  lemma MultiplyIsTheWrappedProduct(m: MultiplyLongBy, x: Int64, y: Int64)
    requires (y - x * m.multiplier) % LONG_MODULUS == 0
    ensures m.Apply(Some(x)) == Some(y)
  {
    Wrap64Exact(x * m.multiplier, y);
  }

  /** Example of wrap-around: `Long.MAX_VALUE * 2 == -2`. */
  lemma MultiplyOverflowExample(m: MultiplyLongBy)
    requires m.multiplier == 2
    ensures m.Apply(Some(MAX_LONG)) == Some(-2)
  {
  }

  /** A mutable `java.util.List<String>`, shared by reference. */
  class StringList {
    var items: seq<string>

    constructor (items: seq<string>)
      ensures this.items == items
    {
      this.items := items;
    }
  }

  /** The parsing settings of a `CsvToMaps`. */
  datatype CsvSettings = CsvSettings(firstRow: Int32, delimiter: char, quoted: bool, quoteChar: char)

  /** The map `extractMap` builds: `header[i] -> record[i]` put in column order,
      so with a repeated name the later column wins. */
  function Zipped(header: seq<string>, record: seq<string>): map<string, string>
    requires |record| <= |header|
  {
    if record == [] then map[]
    else Zipped(header, record[..|record| - 1])[header[|record| - 1] := record[|record| - 1]]
  }

  /** `extractMap(record)`: a record with more columns than header names runs
      the header iterator dry (`NoSuchElementException`). */
  function Extracted(header: seq<string>, record: seq<string>): Result<map<string, string>> {
    if |record| <= |header| then Ok(Zipped(header, record)) else Err(NoSuchElement)
  }

  /** The keys are exactly the header names of the record's columns; names past
      the record's length are absent. */
  lemma {:induction false} ZippedKeys(header: seq<string>, record: seq<string>)
    requires |record| <= |header|
    ensures Zipped(header, record).Keys == set i | 0 <= i < |record| :: header[i]
  {
    if record != [] {
      var n := |record| - 1;
      ZippedKeys(header, record[..n]);
      assert record[..n][..] == record[..n];
      assert (set i | 0 <= i < |record| :: header[i]) == (set i | 0 <= i < n :: header[i]) + {header[n]};
    }
  }

  /** Column `i`'s value is stored under its name unless a later column of the
      record has the same name. */
  lemma {:induction false} ZippedAt(header: seq<string>, record: seq<string>, i: nat)
    requires |record| <= |header| && i < |record|
    requires forall j :: i < j < |record| ==> header[j] != header[i]
    ensures header[i] in Zipped(header, record) && Zipped(header, record)[header[i]] == record[i]
  {
    var n := |record| - 1;
    if i < n {
      ZippedAt(header, record[..n], i);
    }
  }

  class CsvToMaps {
    /** The `header` list; the field is never reassigned, only mutated. */
    const header: StringList
    var firstRow: Int32
    var delimiter: char
    var quoted: bool
    var quoteChar: char

    constructor ()
      ensures fresh(header) && header.items == []
      ensures firstRow == 0 && delimiter == ',' && !quoted && quoteChar == '"'
    {
      header := new StringList([]);
      firstRow := 0;
      delimiter := ',';
      quoted := false;
      quoteChar := '"';
    }

    function Settings(): CsvSettings
      reads this
    {
      CsvSettings(firstRow, delimiter, quoted, quoteChar)
    }

    /** `extractMap(record)`, iterating the record's columns beside a header iterator. */
    method ExtractMap(record: seq<string>) returns (r: Result<map<string, string>>)
      ensures r == Extracted(header.items, record)
      ensures r.Ok? ==> r.value.Keys == set i | 0 <= i < |record| :: header.items[i]
    {
      var names := header.items;
      var m: map<string, string> := map[];
      var i := 0;
      while i < |record|
        invariant 0 <= i <= |record| && i <= |names|
        invariant m == Zipped(names, record[..i])
      {
        if i >= |names| {
          return Err(NoSuchElement);
        }
        assert record[..i + 1][..i] == record[..i];
        m := m[names[i] := record[i]];
        i := i + 1;
      }
      assert record[..i] == record;
      ZippedKeys(names, record);
      return Ok(m);
    }

    /** `apply(csv)`: null gives null. Otherwise `parse` stands for the CSV
        parser with these settings, already past the first `firstRow` records;
        its failure is the `IOException` case. The result is the lazily mapped
        iterable, one extraction per record, each failing on its own. */
    function Apply(csv: Option<string>, parse: (string, CsvSettings) -> Result<seq<seq<string>>>)
      : (r: Result<Option<seq<Result<map<string, string>>>>>)
      reads this, header
      ensures csv.None? ==> r == Ok(None)
      ensures csv.Some? && parse(csv.value, Settings()).Err? ==> r == Err(Runtime("Unable to parse csv"))
      ensures csv.Some? && parse(csv.value, Settings()).Ok? ==>
                var records := parse(csv.value, Settings()).value;
                && r.Ok? && r.value.Some? && |r.value.value| == |records|
                && forall i :: 0 <= i < |records| ==> r.value.value[i] == Extracted(header.items, records[i])
    {
      if csv.None? then
        Ok(None)
      else
        match parse(csv.value, Settings())
        case Err(_) => Err(Runtime("Unable to parse csv"))
        case Ok(records) =>
          Ok(Some(seq(|records|, i requires 0 <= i < |records| reads header => Extracted(header.items, records[i]))))
    }

    /** `getHeader()`: the live list itself, not a copy. */
    function GetHeader(): (h: StringList)
      ensures h == header
    {
      header
    }

    /** `setHeader(h)`: clear, then add all of `h`; so passing the header list
        itself leaves it empty. */
    method SetHeader(h: StringList)
      modifies header
      ensures header.items == if h == header then [] else old(h.items)
    {
      header.items := [];
      header.items := header.items + h.items;
    }

    /** `header(String...)`: appends the names. */
    method HeaderNames(names: seq<string>) returns (self: CsvToMaps)
      modifies header
      ensures self == this && header.items == old(header.items) + names
    {
      header.items := header.items + names;
      self := this;
    }

    /** `header(Collection)`: appends the collection's elements (the header
        list itself is appended to itself). */
    method HeaderFrom(c: StringList) returns (self: CsvToMaps)
      modifies header
      ensures self == this && header.items == old(header.items) + old(c.items)
    {
      header.items := header.items + c.items;
      self := this;
    }

    method SetFirstRow(firstRow: Int32)
      modifies this
      ensures Settings() == old(Settings()).(firstRow := firstRow)
    {
      this.firstRow := firstRow;
    }

    method FirstRow(firstRow: Int32) returns (self: CsvToMaps)
      modifies this
      ensures self == this && Settings() == old(Settings()).(firstRow := firstRow)
    {
      this.firstRow := firstRow;
      self := this;
    }

    method SetDelimiter(delimiter: char)
      modifies this
      ensures Settings() == old(Settings()).(delimiter := delimiter)
    {
      this.delimiter := delimiter;
    }

    method Delimiter(delimiter: char) returns (self: CsvToMaps)
      modifies this
      ensures self == this && Settings() == old(Settings()).(delimiter := delimiter)
    {
      this.delimiter := delimiter;
      self := this;
    }

    method SetQuoted(quoted: bool)
      modifies this
      ensures Settings() == old(Settings()).(quoted := quoted)
    {
      this.quoted := quoted;
    }

    /** `quoted()`: the no-argument builder turns quoting on. */
    method Quoted() returns (self: CsvToMaps)
      modifies this
      ensures self == this && Settings() == old(Settings()).(quoted := true)
    {
      quoted := true;
      self := this;
    }

    method QuotedAs(quoted: bool) returns (self: CsvToMaps)
      modifies this
      ensures self == this && Settings() == old(Settings()).(quoted := quoted)
    {
      this.quoted := quoted;
      self := this;
    }

    method SetQuoteChar(quoteChar: char)
      modifies this
      ensures Settings() == old(Settings()).(quoteChar := quoteChar)
    {
      this.quoteChar := quoteChar;
    }

    method QuoteChar(quoteChar: char) returns (self: CsvToMaps)
      modifies this
      ensures self == this && Settings() == old(Settings()).(quoteChar := quoteChar)
    {
      this.quoteChar := quoteChar;
      self := this;
    }

    /** `equals`: header, `quoted`, `quoteChar`, `firstRow` and `delimiter`. */
    function Equals(that: CsvToMaps): (r: bool)
      reads this, header, that, that.header
      ensures this == that ==> r
      ensures r <==> header.items == that.header.items && Settings() == that.Settings()
    {
      this == that
      || (header.items == that.header.items && quoted == that.quoted && quoteChar == that.quoteChar
          && firstRow == that.firstRow && delimiter == that.delimiter)
    }
  }

  /** Equal instances turn every CSV into the same maps. */
  lemma CsvEqualsApplyAlike(a: CsvToMaps, b: CsvToMaps, csv: Option<string>,
                            parse: (string, CsvSettings) -> Result<seq<seq<string>>>)
    requires a.Equals(b)
    ensures a.Apply(csv, parse) == b.Apply(csv, parse)
  {
    if csv.Some? && parse(csv.value, a.Settings()).Ok? {
      var ra := a.Apply(csv, parse).value.value;
      var rb := b.Apply(csv, parse).value.value;
      assert |ra| == |rb|;
      assert forall i :: 0 <= i < |ra| ==> ra[i] == rb[i];
      assert ra == rb;
      assert a.Apply(csv, parse) == Ok(Some(ra));
      assert b.Apply(csv, parse) == Ok(Some(rb));
    }
  }
}
