/** Concrete predicates: `IsA` (is the input an instance of a control class?)
    and `MultiRegex` (does some pattern match the whole input?). Class loading,
    the subtype relation and the regular-expression engine are parameters. */
module ImplPredicate {
  import opened Wrappers

  const CLASS_NOT_FOUND := "Could not load class for given type: "

  /** A loaded `java.lang.Class`, known by its binary name. */
  datatype JClass = JClass(name: string)

  /** What `Class.isAssignableFrom` gives for a sound class hierarchy: every
      class is assignable from itself, and assignability composes. */
  ghost predicate PreOrder(assignable: (JClass, JClass) -> bool) {
    && (forall c :: assignable(c, c))
    && (forall a, b, c :: assignable(a, b) && assignable(b, c) ==> assignable(a, c))
  }

  class IsA {
    /** The control class; `None` when unset. */
    var controlType: Option<JClass>

    constructor ()
      ensures controlType == None
    {
      controlType := None;
    }

    constructor OfClass(controlType: Option<JClass>)
      ensures this.controlType == controlType
    {
      this.controlType := controlType;
    }

    /** `setType(name)`: `forName` resolves a simple or binary name to a class
        (`None` is `ClassNotFoundException`); on failure the old type stays. */
    method SetType(name: string, forName: string -> Option<JClass>) returns (o: Outcome)
      modifies this
      ensures forName(name).Some? ==> o == Pass && controlType == forName(name)
      ensures forName(name).None? ==>
                o == Fail(IllegalArgument(CLASS_NOT_FOUND + name)) && controlType == old(controlType)
    {
      var loaded := forName(name);
      if loaded.None? {
        return Fail(IllegalArgument(CLASS_NOT_FOUND + name));
      }
      controlType := loaded;
      return Pass;
    }

    /** `getType()`: the class name, or null when no type is set. */
    function GetType(): (r: Option<string>)
      reads this
      ensures r.None? <==> controlType.None?
      ensures r.Some? ==> r.value == controlType.value.name
    {
      if controlType.None? then None else Some(controlType.value.name)
    }

    /** `test(input)`, where `input` is the runtime class of the tested object
        (`None` for null) and `assignable(t, c)` is `t.isAssignableFrom(c)`. */
    function Test(assignable: (JClass, JClass) -> bool, input: Option<JClass>): (r: bool)
      reads this
      ensures input.None? ==> r
      ensures controlType.None? ==> r
      ensures input.Some? && controlType.Some? ==> (r <==> assignable(controlType.value, input.value))
    {
      input.None? || controlType.None? || assignable(controlType.value, input.value)
    }

    /** `equals`: the same object or the same control class. */
    function Equals(that: IsA): (r: bool)
      reads this, that
      ensures this == that ==> r
      ensures r <==> GetType() == that.GetType()
    {
      this == that || controlType == that.controlType
    }
  }

  /** The `IsA(String)` constructor: `setType` on a fresh instance, so an
      unknown name fails with `IllegalArgumentException`. */
  method FromName(name: string, forName: string -> Option<JClass>) returns (r: Result<IsA>)
    ensures forName(name).None? ==> r == Err(IllegalArgument(CLASS_NOT_FOUND + name))
    ensures forName(name).Some? ==> r.Ok? && fresh(r.value) && r.value.controlType == forName(name)
  {
    var p := new IsA();
    var o := p.SetType(name, forName);
    if o.Fail? {
      return Err(o.error);
    }
    return Ok(p);
  }

  /** A name that loads as a class of that name is what `getType()` reports back. */
  lemma NameRoundTrip(p: IsA, name: string, forName: string -> Option<JClass>)
    requires forName(name) == Some(JClass(name)) && p.controlType == forName(name)
    ensures p.GetType() == Some(name)
  {
  }

  /** An `IsA` accepts instances of its own control class. */
  lemma SameClassAccepted(p: IsA, assignable: (JClass, JClass) -> bool)
    requires PreOrder(assignable) && p.controlType.Some?
    ensures p.Test(assignable, p.controlType)
  {
  }

  /** Whatever an `IsA` accepts, it also accepts every subclass of. */
  lemma SubclassesAccepted(p: IsA, assignable: (JClass, JClass) -> bool, c: JClass, sub: JClass)
    requires PreOrder(assignable)
    requires p.Test(assignable, Some(c)) && assignable(c, sub)
    ensures p.Test(assignable, Some(sub))
  {
  }

  /** A set type rejects exactly the classes it is not assignable from. */
  lemma UnrelatedClassRejected(p: IsA, assignable: (JClass, JClass) -> bool, c: JClass)
    requires p.controlType.Some?
    ensures !p.Test(assignable, Some(c)) <==> !assignable(p.controlType.value, c)
  {
  }

  /** Equal instances test alike. */
  lemma IsAEqualsTestAlike(p: IsA, q: IsA, assignable: (JClass, JClass) -> bool, input: Option<JClass>)
    requires p.Equals(q)
    ensures p.Test(assignable, input) == q.Test(assignable, input)
  {
    assert p.controlType == q.controlType;
  }

  const STRING := JClass("java.lang.String")
  const INTEGER := JClass("java.lang.Integer")
  const NUMBER := JClass("java.lang.Number")
  const OBJECT := JClass("java.lang.Object")

  /** A fragment of the platform hierarchy: `Integer <: Number <: Object` and
      `String <: Object`. */
  function Platform(t: JClass, c: JClass): (r: bool)
    ensures t == c ==> r
    ensures t == OBJECT ==> r
  {
    t == c || t == OBJECT || (t == NUMBER && c == INTEGER)
  }

  lemma PlatformIsAPreOrder()
    ensures PreOrder(Platform)
  {
  }

  /** The documented examples: an `IsA(String)` accepts a string and null and
      rejects an integer; an `IsA(Number)` accepts an integer. */
  method IsAExamples() returns (s: IsA, n: IsA)
    ensures s.Test(Platform, Some(STRING)) && s.Test(Platform, None) && !s.Test(Platform, Some(INTEGER))
    ensures n.Test(Platform, Some(INTEGER))
  {
    s := new IsA.OfClass(Some(STRING));
    n := new IsA.OfClass(Some(NUMBER));
  }

  /** A compiled `java.util.regex.Pattern`: its source and its flags. */
  datatype Pattern = Pattern(regex: string, flags: int)

  /** Some pattern matches the whole of a non-null input. `matches(p, s)` is
      `p.matcher(s).matches()`. */
  ghost predicate AnyMatches(matches: (Pattern, string) -> bool, ps: seq<Pattern>, input: Option<string>) {
    input.Some? && exists i :: 0 <= i < |ps| && matches(ps[i], input.value)
  }

  /** `pattern.toString()` for each pattern: the source strings, in order. */
  function Sources(ps: seq<Pattern>): (r: seq<string>)
    ensures |r| == |ps|
    ensures forall i :: 0 <= i < |ps| ==> r[i] == ps[i].regex
  {
    if ps == [] then [] else [ps[0].regex] + Sources(ps[1..])
  }

  class MultiRegex {
    /** Never shared with a caller: set and read through copies. */
    var patterns: array<Pattern>

    /** The no-argument constructor passes a null array: no patterns. */
    constructor ()
      ensures fresh(patterns) && patterns[..] == []
    {
      patterns := new Pattern[0];
    }

    constructor WithPatterns(ps: array?<Pattern>)
      ensures fresh(patterns) && patterns[..] == if ps == null then [] else ps[..]
    {
      var copy: array<Pattern>;
      if ps == null {
        copy := new Pattern[0];
      } else {
        copy := CopyOf(ps);
      }
      patterns := copy;
    }

    /** `getPatterns()`: a fresh copy. */
    method GetPatterns() returns (r: array<Pattern>)
      ensures fresh(r) && r[..] == patterns[..]
    {
      r := CopyOf(patterns);
    }

    /** `setPatterns(ps)`: stores a copy; null stores no patterns. */
    method SetPatterns(ps: array?<Pattern>)
      modifies this
      ensures fresh(patterns) && patterns[..] == if ps == null then [] else ps[..]
    {
      if ps == null {
        patterns := new Pattern[0];
      } else {
        patterns := CopyOf(ps);
      }
    }

    /** `test(input)`: the first matching pattern ends the scan. */
    method Test(matches: (Pattern, string) -> bool, input: Option<string>) returns (r: bool)
      ensures r <==> AnyMatches(matches, patterns[..], input)
    {
      if input.None? {
        return false;
      }
      var i := 0;
      while i < patterns.Length
        invariant 0 <= i <= patterns.Length
        invariant forall k :: 0 <= k < i ==> !matches(patterns[k], input.value)
      {
        if matches(patterns[i], input.value) {
          return true;
        }
        i := i + 1;
      }
      return false;
    }

    /** `equals`: the same object, or the same pattern sources in the same order. */
    function Equals(that: MultiRegex): (r: bool)
      reads this, that, patterns, that.patterns
      ensures this == that ==> r
      ensures r <==> |patterns[..]| == |that.patterns[..]|
                     && forall i :: 0 <= i < patterns.Length ==> patterns[i].regex == that.patterns[i].regex
    {
      this == that || Sources(patterns[..]) == Sources(that.patterns[..])
    }
  }

  /** `Arrays.copyOf(ps, ps.length)`. */
  method CopyOf<T>(ps: array<T>) returns (r: array<T>)
    ensures fresh(r) && r[..] == ps[..]
  {
    r := new T[ps.Length](i requires 0 <= i < ps.Length reads ps => ps[i]);
  }

  /** `patternsToStrings(ps)`: the sources, collected one by one. */
  method PatternsToStrings(ps: array<Pattern>) returns (r: seq<string>)
    ensures r == Sources(ps[..])
  {
    r := [];
    for i := 0 to ps.Length
      invariant r == Sources(ps[..i])
    {
      assert ps[..i + 1] == ps[..i] + [ps[i]];
      SourcesSnoc(ps[..i], ps[i]);
      r := r + [ps[i].regex];
    }
    assert ps[..ps.Length] == ps[..];
  }

  lemma {:induction false} SourcesSnoc(ps: seq<Pattern>, p: Pattern)
    ensures Sources(ps + [p]) == Sources(ps) + [p.regex]
  {
    var l := Sources(ps + [p]);
    var rr := Sources(ps) + [p.regex];
    assert |l| == |rr|;
    forall i | 0 <= i < |l|
      ensures l[i] == rr[i]
    {
      assert l[i] == (ps + [p])[i].regex;
    }
  }

  /** The order of the patterns never changes a `test` result. */
  lemma AnyMatchesIgnoresOrder(matches: (Pattern, string) -> bool, ps: seq<Pattern>, qs: seq<Pattern>, input: Option<string>)
    requires multiset(ps) == multiset(qs)
    ensures AnyMatches(matches, ps, input) <==> AnyMatches(matches, qs, input)
  {
    if AnyMatches(matches, ps, input) {
      var i :| 0 <= i < |ps| && matches(ps[i], input.value);
      assert ps[i] in multiset(qs);
      var j :| 0 <= j < |qs| && qs[j] == ps[i];
    }
    if AnyMatches(matches, qs, input) {
      var j :| 0 <= j < |qs| && matches(qs[j], input.value);
      assert qs[j] in multiset(ps);
      var i :| 0 <= i < |ps| && ps[i] == qs[j];
    }
  }

  /** With no patterns every input is rejected. */
  lemma NoPatternsRejectAll(matches: (Pattern, string) -> bool, input: Option<string>)
    ensures !AnyMatches(matches, [], input)
  {
  }

  /** Equality looks at the sources only: patterns that differ just in their
      flags (say, case-insensitive against case-sensitive) compare equal, even
      though they may match different inputs. */
  lemma EqualsIgnoresFlags(x: MultiRegex, y: MultiRegex)
    requires x.patterns.Length == y.patterns.Length
    requires forall i :: 0 <= i < x.patterns.Length ==> x.patterns[i].regex == y.patterns[i].regex
    ensures x.Equals(y)
  {
  }

  /** The stored array is a copy: writing to the caller's array afterwards
      leaves the predicate's patterns as they were. */
  method SetPatternsCopies(m: MultiRegex, ps: array<Pattern>, p: Pattern)
    requires ps.Length > 0
    modifies m, ps
    ensures m.patterns[..] == old(ps[..])
  {
    m.SetPatterns(ps);
    ps[0] := p;
  }
}
