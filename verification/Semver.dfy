/** Version precedence as in section 11 of Semantic Versioning 2.0.0: major, minor and patch
    numerically, a pre-release below its release, and pre-release identifiers field by field.
    Build metadata plays no part. */
module Semver {

  datatype Identifier = Numeric(n: nat) | Alpha(text: string)
  datatype Version = Version(major: nat, minor: nat, patch: nat, pre: seq<Identifier>)

  /** Negative, zero or positive, like the usual three-way comparison. */
  function CompareInt(a: int, b: int): (c: int) { if a < b then -1 else if a > b then 1 else 0 }

  function CompareText(a: string, b: string): (c: int) {
    if a == "" && b == "" then 0
    else if a == "" then -1
    else if b == "" then 1
    else if a[0] != b[0] then CompareInt(a[0] as int, b[0] as int)
    else CompareText(a[1..], b[1..])
  }

  function CompareIdentifier(a: Identifier, b: Identifier): (c: int) {
    match (a, b)
    case (Numeric(m), Numeric(n)) => CompareInt(m, n)
    case (Numeric(_), Alpha(_)) => -1
    case (Alpha(_), Numeric(_)) => 1
    case (Alpha(s), Alpha(t)) => CompareText(s, t)
  }

  /** Fields from left to right; with all shared fields equal, the longer list is higher. */
  function CompareFields(a: seq<Identifier>, b: seq<Identifier>): (c: int) {
    if a == [] && b == [] then 0
    else if a == [] then -1
    else if b == [] then 1
    else if a[0] != b[0] then CompareIdentifier(a[0], b[0])
    else CompareFields(a[1..], b[1..])
  }

  function ComparePre(a: seq<Identifier>, b: seq<Identifier>): (c: int) {
    if a == [] && b != [] then 1 else if a != [] && b == [] then -1 else CompareFields(a, b)
  }

  function Compare(a: Version, b: Version): (c: int) {
    if a.major != b.major then CompareInt(a.major, b.major)
    else if a.minor != b.minor then CompareInt(a.minor, b.minor)
    else if a.patch != b.patch then CompareInt(a.patch, b.patch)
    else ComparePre(a.pre, b.pre)
  }

  predicate GreaterThan(a: Version, b: Version) { Compare(a, b) > 0 }
  predicate Equal(a: Version, b: Version) { Compare(a, b) == 0 }

  lemma {:induction false} TextOrder(a: string, b: string, c: string)
    ensures CompareText(a, b) == 0 <==> a == b
    ensures CompareText(a, b) == -CompareText(b, a)
    ensures CompareText(a, b) < 0 && CompareText(b, c) < 0 ==> CompareText(a, c) < 0
    decreases |a| + |b| + |c|
  {
    if a != "" && b != "" {
      assert a == [a[0]] + a[1..] && b == [b[0]] + b[1..];
      TextOrder(a[1..], b[1..], if c == "" then "" else c[1..]);
    }
  }

  lemma IdentifierOrder(a: Identifier, b: Identifier, c: Identifier)
    ensures CompareIdentifier(a, b) == 0 <==> a == b
    ensures CompareIdentifier(a, b) == -CompareIdentifier(b, a)
    ensures CompareIdentifier(a, b) < 0 && CompareIdentifier(b, c) < 0 ==> CompareIdentifier(a, c) < 0
  {
    if a.Alpha? && b.Alpha? { TextOrder(a.text, b.text, if c.Alpha? then c.text else ""); }
  }

  lemma {:induction false} FieldsOrder(a: seq<Identifier>, b: seq<Identifier>, c: seq<Identifier>)
    ensures CompareFields(a, b) == 0 <==> a == b
    ensures CompareFields(a, b) == -CompareFields(b, a)
    ensures CompareFields(a, b) < 0 && CompareFields(b, c) < 0 ==> CompareFields(a, c) < 0
    decreases |a| + |b| + |c|
  {
    if a != [] && b != [] {
      assert a == [a[0]] + a[1..] && b == [b[0]] + b[1..];
      IdentifierOrder(a[0], b[0], if c == [] then a[0] else c[0]);
      FieldsOrder(a[1..], b[1..], if c == [] then [] else c[1..]);
    }
  }

  /** Precedence is a strict total order: versions of equal precedence are equal, comparing the
      other way round gives the opposite answer, and the order is transitive. */
  lemma PrecedenceIsTotalOrder(a: Version, b: Version, c: Version)
    ensures Equal(a, b) <==> a == b
    ensures GreaterThan(a, b) <==> Compare(b, a) < 0
    ensures a == b || GreaterThan(a, b) || GreaterThan(b, a)
    ensures !(GreaterThan(a, b) && GreaterThan(b, a))
    ensures GreaterThan(a, b) && GreaterThan(b, c) ==> GreaterThan(a, c)
  {
    FieldsOrder(a.pre, b.pre, c.pre);
    FieldsOrder(c.pre, b.pre, a.pre);
    FieldsOrder(a.pre, c.pre, b.pre);
  }

  // ---- The same precedence, rule by rule ----

  /** Two lists agree up to i, and there one of them ends or they differ. */
  predicate FirstDifference<T(==)>(a: seq<T>, b: seq<T>, i: nat) {
    i <= |a| && i <= |b| && a[..i] == b[..i] && (i < |a| && i < |b| ==> a[i] != b[i])
  }

  /** By character code at the first difference, or a proper extension. */
  ghost predicate TextAbove(a: string, b: string) { exists i: nat :: TextAboveAt(a, b, i) }

  predicate TextAboveAt(a: string, b: string, i: nat) {
    FirstDifference(a, b, i) && if i < |a| && i < |b| then a[i] > b[i] else i < |a|
  }

  /** Numbers by value, texts by character, and every text above every number. */
  ghost predicate IdentifierAbove(a: Identifier, b: Identifier) {
    || (a.Numeric? && b.Numeric? && a.n > b.n)
    || (a.Alpha? && b.Numeric?)
    || (a.Alpha? && b.Alpha? && TextAbove(a.text, b.text))
  }

  /** By the first differing identifier, or a proper extension. */
  ghost predicate FieldsAbove(a: seq<Identifier>, b: seq<Identifier>) { exists i: nat :: FieldsAboveAt(a, b, i) }

  ghost predicate FieldsAboveAt(a: seq<Identifier>, b: seq<Identifier>, i: nat) {
    FirstDifference(a, b, i) && if i < |a| && i < |b| then IdentifierAbove(a[i], b[i]) else i < |a|
  }

  /** Section 11 of Semantic Versioning 2.0.0. */
  ghost predicate Above(a: Version, b: Version) {
    || a.major > b.major
    || (a.major == b.major && a.minor > b.minor)
    || (a.major == b.major && a.minor == b.minor && a.patch > b.patch)
    || (&& a.major == b.major && a.minor == b.minor && a.patch == b.patch
        && b.pre != [] && (a.pre == [] || FieldsAbove(a.pre, b.pre)))
  }

  lemma DifferenceShifts<T>(a: seq<T>, b: seq<T>, i: nat)
    requires a != [] && b != [] && a[0] == b[0]
    ensures FirstDifference(a, b, i + 1) <==> FirstDifference(a[1..], b[1..], i)
    ensures !FirstDifference(a, b, 0)
  {
    if i + 1 <= |a| && i + 1 <= |b| {
      assert a[..i + 1] == [a[0]] + a[1..][..i] && b[..i + 1] == [b[0]] + b[1..][..i];
    }
  }

  lemma DifferenceAtFront<T>(a: seq<T>, b: seq<T>, i: nat)
    requires a == [] || b == [] || a[0] != b[0]
    ensures FirstDifference(a, b, i) <==> i == 0
  {
    if 0 < i <= |a| && i <= |b| { assert a[..i][0] == a[0] && b[..i][0] == b[0]; }
  }

  lemma {:induction false} TextAboveIff(a: string, b: string)
    ensures CompareText(a, b) > 0 <==> TextAbove(a, b)
    decreases |a|
  {
    if a == "" || b == "" || a[0] != b[0] {
      forall i: nat ensures TextAboveAt(a, b, i) ==> i == 0 { DifferenceAtFront(a, b, i); }
      DifferenceAtFront(a, b, 0);
      assert TextAbove(a, b) <==> TextAboveAt(a, b, 0);
    } else {
      TextAboveIff(a[1..], b[1..]);
      forall i: nat ensures TextAboveAt(a, b, i + 1) <==> TextAboveAt(a[1..], b[1..], i) {
        DifferenceShifts(a, b, i);
      }
      DifferenceShifts(a, b, 0);
      if i: nat :| TextAboveAt(a[1..], b[1..], i) { assert TextAboveAt(a, b, i + 1); }
      if i: nat :| TextAboveAt(a, b, i) { assert TextAboveAt(a[1..], b[1..], i - 1); }
    }
  }

  lemma IdentifierAboveIff(a: Identifier, b: Identifier)
    ensures CompareIdentifier(a, b) > 0 <==> IdentifierAbove(a, b)
  {
    if a.Alpha? && b.Alpha? { TextAboveIff(a.text, b.text); }
  }

  lemma {:induction false} FieldsAboveIff(a: seq<Identifier>, b: seq<Identifier>)
    ensures CompareFields(a, b) > 0 <==> FieldsAbove(a, b)
    decreases |a|
  {
    if a == [] || b == [] || a[0] != b[0] {
      forall i: nat ensures FieldsAboveAt(a, b, i) ==> i == 0 { DifferenceAtFront(a, b, i); }
      DifferenceAtFront(a, b, 0);
      assert FieldsAbove(a, b) <==> FieldsAboveAt(a, b, 0);
      if a != [] && b != [] { IdentifierAboveIff(a[0], b[0]); }
    } else {
      FieldsAboveIff(a[1..], b[1..]);
      forall i: nat ensures FieldsAboveAt(a, b, i + 1) <==> FieldsAboveAt(a[1..], b[1..], i) {
        DifferenceShifts(a, b, i);
      }
      DifferenceShifts(a, b, 0);
      if i: nat :| FieldsAboveAt(a[1..], b[1..], i) { assert FieldsAboveAt(a, b, i + 1); }
      if i: nat :| FieldsAboveAt(a, b, i) { assert FieldsAboveAt(a[1..], b[1..], i - 1); }
    }
  }

  /** The field-by-field comparison is the precedence of section 11. */
  lemma PrecedenceIsSectionEleven(a: Version, b: Version)
    ensures GreaterThan(a, b) <==> Above(a, b)
  {
    FieldsAboveIff(a.pre, b.pre);
  }

  /** Its rules one by one, over all versions. */
  lemma SectionElevenRules(a: Version, b: Version, c: char, d: char, text: string, x: Identifier, y: Identifier)
    ensures a.major > b.major ==> GreaterThan(a, b)
    ensures a.major == b.major && a.minor > b.minor ==> GreaterThan(a, b)
    ensures a.major == b.major && a.minor == b.minor && a.patch > b.patch ==> GreaterThan(a, b)
    ensures b.pre != [] ==> GreaterThan(b.(pre := []), b)
    ensures b.pre != [] ==> GreaterThan(b.(pre := b.pre + [x]), b)
    ensures x.Alpha? && y.Numeric? ==> GreaterThan(b.(pre := a.pre + [x]), b.(pre := a.pre + [y]))
    ensures x.Numeric? && y.Numeric? && x.n > y.n ==> GreaterThan(b.(pre := a.pre + [x]), b.(pre := a.pre + [y]))
    ensures c > d ==>
              GreaterThan(b.(pre := a.pre + [Alpha(text + [c])]), b.(pre := a.pre + [Alpha(text + [d])]))
  {
    var n := |a.pre|;
    PrecedenceIsSectionEleven(b.(pre := b.pre + [x]), b);
    assert FieldsAboveAt(b.pre + [x], b.pre, |b.pre|);
    PrecedenceIsSectionEleven(b.(pre := a.pre + [x]), b.(pre := a.pre + [y]));
    assert IdentifierAbove(x, y) && x != y ==> FieldsAboveAt(a.pre + [x], a.pre + [y], n);
    var u, v := Alpha(text + [c]), Alpha(text + [d]);
    PrecedenceIsSectionEleven(b.(pre := a.pre + [u]), b.(pre := a.pre + [v]));
    if c > d {
      assert (text + [c])[|text|] == c && (text + [d])[|text|] == d;
      assert TextAboveAt(text + [c], text + [d], |text|);
      assert FieldsAboveAt(a.pre + [u], a.pre + [v], n);
    }
  }
}
