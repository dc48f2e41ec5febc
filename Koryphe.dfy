/** The error accumulator `ValidationResult`: a validity flag and an
    insertion-ordered, de-duplicated set of messages (a `LinkedHashSet`),
    modelled as a sequence without repeats. */
module Koryphe {
  import opened Wrappers

  /** The banner that starts every error string. */
  const BANNER := "Validation errors: "

  /** No message occurs twice: the set part of an insertion-ordered set. */
  predicate Distinct(s: seq<string>) {
    forall i, j :: 0 <= i < j < |s| ==> s[i] != s[j]
  }

  /** `LinkedHashSet.add`: a new message goes to the end, a known one changes nothing. */
  function Insert(s: seq<string>, m: string): (r: seq<string>)
    ensures Distinct(s) ==> Distinct(r)
    ensures forall x :: x in r <==> x in s || x == m
    ensures |s| <= |r| <= |s| + 1 && r[..|s|] == s
    ensures m in s <==> r == s
  {
    if m in s then s else s + [m]
  }

  /** `LinkedHashSet.addAll`: inserts the messages of `t` one after the other. */
  function InsertAll(s: seq<string>, t: seq<string>): (r: seq<string>)
    ensures Distinct(s) ==> Distinct(r)
    ensures forall x :: x in r <==> x in s || x in t
    ensures |s| <= |r| && r[..|s|] == s
    decreases |t|
  {
    if t == [] then s else InsertAll(Insert(s, t[0]), t[1..])
  }

  /** The messages of `t` that `s` does not hold yet, in `t`'s order. */
  function Unseen(t: seq<string>, s: seq<string>): seq<string> {
    if t == [] then []
    else if t[0] in s then Unseen(t[1..], s)
    else [t[0]] + Unseen(t[1..], s)
  }

  /** The new state of the error set after `add(other, extra)` with an invalid `other`. */
  function Merged(s: seq<string>, t: seq<string>, extra: Option<string>): (r: seq<string>)
    ensures Distinct(s) ==> Distinct(r)
    ensures forall x :: x in r <==> x in s || x in t || extra == Some(x)
    ensures |s| <= |r| && r[..|s|] == s
  {
    var all := InsertAll(s, t);
    if extra.Some? then Insert(all, extra.value) else all
  }

  lemma {:induction false} UnseenSkips(t: seq<string>, s: seq<string>, m: string)
    requires m !in t
    ensures Unseen(t, s + [m]) == Unseen(t, s)
  {
    if t != [] {
      assert t[0] != m;
      assert t[0] in s + [m] <==> t[0] in s;
      UnseenSkips(t[1..], s, m);
    }
  }

  /** Merging a set without repeats keeps the old messages first and then appends
      exactly the other set's unseen messages, in their order. */
  lemma {:induction false} InsertAllAppendsUnseen(s: seq<string>, t: seq<string>)
    requires Distinct(t)
    ensures InsertAll(s, t) == s + Unseen(t, s)
    decreases |t|
  {
    if t != [] {
      var rest := t[1..];
      assert Distinct(rest) by {
        forall i, j | 0 <= i < j < |rest| ensures rest[i] != rest[j] {
          assert rest[i] == t[i + 1] && rest[j] == t[j + 1];
        }
      }
      if t[0] in s {
        InsertAllAppendsUnseen(s, rest);
      } else {
        assert t[0] !in rest;
        InsertAllAppendsUnseen(s + [t[0]], rest);
        UnseenSkips(rest, s, t[0]);
      }
    }
  }

  lemma EmptySet(s: seq<string>)
    ensures (set m | m in s) == {} <==> s == []
  {
    var elements := set m | m in s;
    if s != [] {
      assert s[0] in elements;
      assert elements != {};
    } else {
      assert elements == {};
    }
  }

  /** `StringUtils.join(elements, separator)`. */
  function Join(s: seq<string>, sep: string): (r: string)
    ensures s == [] ==> r == ""
    ensures |s| == 1 ==> r == s[0]
    ensures s != [] ==> s[0] <= r
  {
    if |s| == 0 then "" else if |s| == 1 then s[0] else s[0] + sep + Join(s[1..], sep)
  }

  /** Adding one message to the end of the set adds one separated line to the join. */
  lemma {:induction false} JoinSnoc(s: seq<string>, m: string, sep: string)
    ensures Join(s + [m], sep) == if s == [] then m else Join(s, sep) + sep + m
  {
    if |s| > 1 {
      assert (s + [m])[1..] == s[1..] + [m];
      JoinSnoc(s[1..], m, sep);
    } else if |s| == 1 {
      assert (s + [m])[1..] == [m];
    }
  }

  class ValidationResult {
    var isValid: bool
    /** The `errors` set; empty stands for the lazily allocated field still being null. */
    var errors: seq<string>

    /** Invalid exactly when some error was recorded; no message twice. */
    ghost predicate Valid()
      reads this
    {
      (isValid <==> errors == []) && Distinct(errors)
    }

    constructor ()
      ensures Valid() && isValid && errors == []
    {
      isValid := true;
      errors := [];
    }

    constructor WithError(errorMsg: string)
      ensures Valid() && !isValid && errors == [errorMsg]
    {
      isValid := true;
      errors := [];
      new;
      AddError(errorMsg);
    }

    method AddError(msg: string)
      requires Valid()
      modifies this
      ensures Valid() && !isValid
      ensures errors == Insert(old(errors), msg)
    {
      isValid := false;
      errors := Insert(errors, msg);
    }

    method Add(other: ValidationResult)
      requires Valid() && other.Valid()
      modifies this
      ensures Valid()
      ensures old(other.isValid) ==> isValid == old(isValid) && errors == old(errors)
      ensures !old(other.isValid) ==> !isValid && errors == Merged(old(errors), old(other.errors), None)
    {
      AddWithMessage(other, None);
    }

    /** `add(validationResult, errorMessage)`; a null message is `None`. */
    method AddWithMessage(other: ValidationResult, errorMessage: Option<string>)
      requires Valid() && other.Valid()
      modifies this
      ensures Valid()
      ensures old(other.isValid) ==> isValid == old(isValid) && errors == old(errors)
      ensures !old(other.isValid) ==> !isValid && errors == Merged(old(errors), old(other.errors), errorMessage)
    {
      if !other.IsValid() {
        var otherErrors := other.GetErrors();
        isValid := false;
        errors := InsertAll(errors, otherErrors);
        if errorMessage.Some? {
          errors := Insert(errors, errorMessage.value);
        }
      }
    }

    function IsValid(): (r: bool)
      requires Valid()
      reads this
      ensures r <==> GetErrors() == []
    {
      isValid
    }

    /** The recorded errors, in insertion order; empty (never null) when valid. */
    function GetErrors(): (r: seq<string>)
      requires Valid()
      reads this
      ensures Distinct(r)
      ensures r == [] <==> isValid
    {
      errors
    }

    /** `getErrorString()`, with the platform line separator as a parameter. */
    function GetErrorString(lineSeparator: string): (r: string)
      requires Valid()
      reads this
      ensures |BANNER + lineSeparator| <= |r| && r[..|BANNER + lineSeparator|] == BANNER + lineSeparator
      ensures isValid ==> r == BANNER + lineSeparator
      ensures |errors| == 1 ==> r == BANNER + lineSeparator + errors[0]
      ensures r == BANNER + lineSeparator + Join(errors, lineSeparator)
    {
      BANNER + lineSeparator + Join(GetErrors(), lineSeparator)
    }

    /** `equals`: same flag and the same error set (a set comparison: order does not matter). */
    function Equals(that: ValidationResult): (r: bool)
      requires Valid() && that.Valid()
      reads this, that
      ensures this == that ==> r
      ensures r <==> (set m | m in GetErrors()) == (set m | m in that.GetErrors())
    {
      EmptySet(errors);
      EmptySet(that.errors);
      this == that || (isValid == that.isValid && (set m | m in errors) == (set m | m in that.errors))
    }
  }

  /** Merging keeps every old error, in place, and never makes an invalid result valid. */
  lemma MergeIsMonotonic(s: seq<string>, t: seq<string>, extra: Option<string>)
    ensures Merged(s, t, extra)[..|s|] == s
    ensures s != [] ==> Merged(s, t, extra) != []
    ensures forall x :: x in t ==> x in Merged(s, t, extra)
  {
  }

  /** The error set after `add(other, extra)` with an invalid `other`: the old errors,
      then `other`'s errors that were new, in order, then `extra` if present and new. */
  lemma MergedLayout(s: seq<string>, t: seq<string>, extra: Option<string>)
    requires Distinct(t)
    ensures extra.None? ==> Merged(s, t, extra) == s + Unseen(t, s)
    ensures extra.Some? ==>
              Merged(s, t, extra) == s + Unseen(t, s) + (if extra.value in s || extra.value in t then [] else [extra.value])
  {
    InsertAllAppendsUnseen(s, t);
  }

  /** Recording a new message appends one line to the joined errors. */
  lemma ErrorStringGrows(v: ValidationResult, msg: string, sep: string)
    requires v.Valid() && !v.isValid && msg !in v.errors
    ensures Join(Insert(v.errors, msg), sep) == Join(v.errors, sep) + sep + msg
  {
    JoinSnoc(v.errors, msg, sep);
  }

  /** `addError` seen through `getErrorString()`: the first error follows the
      banner line, a later new one adds a separator and itself at the end, and
      a known one changes nothing. */
  method AddErrorExtendsErrorString(v: ValidationResult, msg: string, sep: string)
    requires v.Valid()
    modifies v
    ensures v.Valid() && !v.isValid
    ensures old(v.isValid) ==> v.GetErrorString(sep) == old(v.GetErrorString(sep)) + msg
    ensures !old(v.isValid) && msg !in old(v.errors) ==>
              v.GetErrorString(sep) == old(v.GetErrorString(sep)) + sep + msg
    ensures msg in old(v.errors) ==> v.GetErrorString(sep) == old(v.GetErrorString(sep))
  {
    if !v.isValid && msg !in v.errors {
      ErrorStringGrows(v, msg, sep);
    }
    v.AddError(msg);
  }

  /** Merging a valid result into one holding "bad" leaves exactly that one error. */
  method MergeValidIntoInvalid() returns (a: ValidationResult)
    ensures a.Valid() && !a.IsValid() && a.GetErrors() == ["bad"]
  {
    a := new ValidationResult.WithError("bad");
    var b := new ValidationResult();
    a.Add(b);
  }
}
