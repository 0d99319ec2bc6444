/** Cluster aggregation (components/components.go): the version comparison,
    the update annotation of installed components, the latest-version lookup,
    and GetCluster, which assembles installed data, update annotations and the
    cluster identity.

    This file pairs with the package-variable revision of the data package
    (module DataGlobals): GetCluster resolves the identity through its GetID,
    which writes the identity back to the package cache. */
module Components {
  import opened Types
  import ClusterIds
  import DataGlobals

  // ------------------------------------------------------------------
  // Splitting a version string and comparing strings as Go does
  // ------------------------------------------------------------------

  /** strings.Split(s, "."): the pieces between dots; "" gives one empty piece. */
  function Split(s: string): (parts: seq<string>)
    ensures |parts| >= 1
    decreases |s|
  {
    if s == [] then [""]
    else
      var rest := Split(s[1..]);
      if s[0] == '.' then [""] + rest
      else [[s[0]] + rest[0]] + rest[1..]
  }

  /** strings.Join(parts, "."). */
  function Join(parts: seq<string>): string
    requires |parts| >= 1
    decreases |parts|
  {
    if |parts| == 1 then parts[0] else parts[0] + "." + Join(parts[1..])
  }

  /** Split cuts at every dot and loses nothing: joining the pieces with dots
      gives the string back, and no piece contains a dot. */
  lemma {:induction false} SplitJoin(s: string)
    ensures Join(Split(s)) == s
    ensures forall i :: 0 <= i < |Split(s)| ==> '.' !in Split(s)[i]
    decreases |s|
  {
    if s != [] {
      SplitJoin(s[1..]);
      var rest := Split(s[1..]);
      if s[0] == '.' {
        assert ([""] + rest)[1..] == rest;
        assert Join(Split(s)) == "" + "." + Join(rest);
        assert s == [s[0]] + s[1..];
      } else {
        var parts := [[s[0]] + rest[0]] + rest[1..];
        assert Split(s) == parts;
        if |rest| == 1 {
          assert Join(parts) == [s[0]] + rest[0];
        } else {
          assert parts[1..] == rest[1..];
          assert Join(parts) == [s[0]] + rest[0] + "." + Join(rest[1..]);
          assert Join(rest) == rest[0] + "." + Join(rest[1..]);
        }
        assert s == [s[0]] + s[1..];
        forall i | 0 <= i < |parts|
          ensures '.' !in parts[i]
        {
          if i > 0 {
            assert parts[i] == rest[i];
          }
        }
      }
    }
  }

  /** A piece without dots is split into itself. */
  lemma {:induction false} SplitSegment(a: string)
    requires '.' !in a
    ensures Split(a) == [a]
    decreases |a|
  {
    if a != [] {
      SplitSegment(a[1..]);
      assert a == [a[0]] + a[1..];
    }
  }

  /** A dot ends the first piece. */
  lemma {:induction false} SplitAtDot(a: string, rest: string)
    requires '.' !in a
    ensures Split(a + "." + rest) == [a] + Split(rest)
    decreases |a|
  {
    if a == [] {
      assert a + "." + rest == ['.'] + rest;
      assert (['.'] + rest)[1..] == rest;
    } else {
      SplitAtDot(a[1..], rest);
      var s := a + "." + rest;
      assert s[0] == a[0] && s[1..] == a[1..] + "." + rest;
      assert a == [a[0]] + a[1..];
    }
  }

  /** A three-part version string splits into its three parts. */
  lemma SplitThree(a: string, b: string, c: string)
    requires '.' !in a && '.' !in b && '.' !in c
    ensures Split(a + "." + b + "." + c) == [a, b, c]
  {
    SplitSegment(c);
    SplitAtDot(b, c);
    assert a + "." + b + "." + c == a + "." + (b + "." + c);
    SplitAtDot(a, b + "." + c);
  }

  /** A two-part version string splits into its two parts. */
  lemma SplitTwo(a: string, b: string)
    requires '.' !in a && '.' !in b
    ensures Split(a + "." + b) == [a, b]
  {
    SplitSegment(b);
    SplitAtDot(a, b);
  }

  /** Go's `a > b` on strings: byte-wise lexicographic order, a proper
      prefix being the smaller. (Byte order of UTF-8 is code-point order.) */
  predicate LexGreater(a: string, b: string)
    decreases |a|
  {
    if a == [] then false
    else if b == [] then true
    else if a[0] != b[0] then a[0] > b[0]
    else LexGreater(a[1..], b[1..])
  }

  /** The Go string order is total and strict. */
  lemma {:induction false} LexTotal(a: string, b: string)
    ensures a == b <==> !LexGreater(a, b) && !LexGreater(b, a)
    ensures !(LexGreater(a, b) && LexGreater(b, a))
    decreases |a|
  {
    if a != [] && b != [] && a[0] == b[0] {
      LexTotal(a[1..], b[1..]);
      assert a == [a[0]] + a[1..] && b == [b[0]] + b[1..];
    }
  }

  // ------------------------------------------------------------------
  // NewestSemVer as written: segments compared as strings
  // ------------------------------------------------------------------

  datatype Winner = First | Second

  /** The comparison loop only reads segments of the second version that
      exist: it stops at the first differing segment, so it runs past the end
      of the second version's segments only when those all equal a shorter
      prefix of the first's. */
  predicate SafeIndexing(s1: seq<string>, s2: seq<string>)
    decreases |s1|
  {
    s1 == [] || (s2 != [] && (s1[0] != s2[0] || SafeIndexing(s1[1..], s2[1..])))
  }

  /** Which argument the comparison loop returns: the first segment where
      the two differ decides, by Go string order; no difference gives First. */
  function Decide(s1: seq<string>, s2: seq<string>): Winner
    requires SafeIndexing(s1, s2)
    decreases |s1|
  {
    if s1 == [] then First
    else if LexGreater(s2[0], s1[0]) then Second
    else if LexGreater(s1[0], s2[0]) then First
    else LexTotal(s1[0], s2[0]); Decide(s1[1..], s2[1..])
  }

  /** The version NewestSemVer returns. */
  function SemVerNewest(v1: string, v2: string): (newest: string)
    requires SafeIndexing(Split(v1), Split(v2))
    ensures newest == v1 || newest == v2
  {
    if Decide(Split(v1), Split(v2)) == Second then v2 else v1
  }

  /** NewestSemVer: walks the segments of v1, returning v2 at the first
      segment where v2's is larger, v1 where v1's is larger, and v1 when no
      segment differs. The error result is always nil. */
  method NewestSemVer(v1: string, v2: string) returns (newest: string, err: Outcome)
    requires SafeIndexing(Split(v1), Split(v2))
    ensures err == Pass
    ensures newest == SemVerNewest(v1, v2)
  {
    var v1Slice := Split(v1);
    var v2Slice := Split(v2);
    var i := 0;
    while i < |v1Slice|
      invariant 0 <= i <= |v1Slice| && i <= |v2Slice|
      invariant SafeIndexing(v1Slice[i..], v2Slice[i..])
      invariant Decide(v1Slice, v2Slice) == Decide(v1Slice[i..], v2Slice[i..])
    {
      if LexGreater(v2Slice[i], v1Slice[i]) {
        return v2, Pass;
      } else if LexGreater(v1Slice[i], v2Slice[i]) {
        return v1, Pass;
      }
      LexTotal(v1Slice[i], v2Slice[i]);
      assert v1Slice[i..][1..] == v1Slice[i + 1..] && v2Slice[i..][1..] == v2Slice[i + 1..];
      i := i + 1;
    }
    return v1, Pass;
  }

  /** A second version with at least as many segments as the first is
      always safe to compare against. */
  lemma {:induction false} LongerSecondIsSafe(s1: seq<string>, s2: seq<string>)
    requires |s2| >= |s1|
    ensures SafeIndexing(s1, s2)
    decreases |s1|
  {
    if s1 != [] {
      LongerSecondIsSafe(s1[1..], s2[1..]);
    }
  }

  /** The exact condition under which the loop stays within the second
      version's segments: unless the second's segments are a proper prefix
      of the first's. */
  lemma {:induction false} SafeIndexingExactly(s1: seq<string>, s2: seq<string>)
    ensures SafeIndexing(s1, s2) <==> !(|s1| > |s2| && s1[..|s2|] == s2)
    decreases |s1|
  {
    if s1 != [] && s2 != [] {
      SafeIndexingExactly(s1[1..], s2[1..]);
      if |s1| > |s2| {
        assert s1[..|s2|] == [s1[0]] + s1[1..][..|s2| - 1];
        assert s2 == [s2[0]] + s2[1..];
        if s1[0] == s2[0] && s1[1..][..|s2| - 1] != s2[1..] {
          assert s1[..|s2|][1..] == s1[1..][..|s2| - 1];
        }
      }
    }
  }

  /** Comparing a version with itself is safe and gives it back. */
  lemma NewestSemVerOfEqual(x: string)
    ensures SafeIndexing(Split(x), Split(x))
    ensures SemVerNewest(x, x) == x
  {
    LongerSecondIsSafe(Split(x), Split(x));
  }

  /** The first differing segment decides: v2 wins exactly when its segment
      there is larger by Go string order. */
  lemma {:induction false} FirstDifferenceDecides(s1: seq<string>, s2: seq<string>, k: nat)
    requires k < |s1| && k < |s2|
    requires s1[..k] == s2[..k] && s1[k] != s2[k]
    ensures SafeIndexing(s1, s2)
    ensures Decide(s1, s2) == if LexGreater(s2[k], s1[k]) then Second else First
    decreases k
  {
    LexTotal(s1[0], s2[0]);
    if k > 0 {
      assert s1[0] == s1[..k][0] == s2[..k][0] == s2[0];
      assert s1[1..][..k - 1] == s1[..k][1..] && s2[1..][..k - 1] == s2[..k][1..];
      FirstDifferenceDecides(s1[1..], s2[1..], k - 1);
    }
  }

  /** When the first version's segments equal a prefix of the second's, the
      comparison finds no difference and returns the first version. */
  lemma {:induction false} PrefixKeepsFirst(s1: seq<string>, s2: seq<string>)
    requires |s1| <= |s2| && s1 == s2[..|s1|]
    ensures SafeIndexing(s1, s2)
    ensures Decide(s1, s2) == First
    decreases |s1|
  {
    if s1 != [] {
      assert s1[0] == s2[0];
      LexTotal(s1[0], s2[0]);
      assert s1[1..] == s2[1..][..|s1[1..]|];
      PrefixKeepsFirst(s1[1..], s2[1..]);
    }
  }

  // The comparisons of the unit tests (components/components_test.go): a
  // larger major, minor or patch in the second version wins; a smaller one
  // loses.

  lemma NewerMajorWins()
    ensures SafeIndexing(Split("2.0.0"), Split("3.0.0")) && SemVerNewest("2.0.0", "3.0.0") == "3.0.0"
  {
    assert "2" + "." + "0" + "." + "0" == "2.0.0";
    SplitThree("2", "0", "0");
    assert "3" + "." + "0" + "." + "0" == "3.0.0";
    SplitThree("3", "0", "0");
    FirstDifferenceDecides(["2", "0", "0"], ["3", "0", "0"], 0);
  }

  lemma NewerMinorWins()
    ensures SafeIndexing(Split("2.0.0"), Split("2.1.0")) && SemVerNewest("2.0.0", "2.1.0") == "2.1.0"
  {
    assert "2" + "." + "0" + "." + "0" == "2.0.0";
    SplitThree("2", "0", "0");
    assert "2" + "." + "1" + "." + "0" == "2.1.0";
    SplitThree("2", "1", "0");
    FirstDifferenceDecides(["2", "0", "0"], ["2", "1", "0"], 1);
  }

  lemma NewerPatchWins()
    ensures SafeIndexing(Split("2.0.0"), Split("2.0.1")) && SemVerNewest("2.0.0", "2.0.1") == "2.0.1"
  {
    assert "2" + "." + "0" + "." + "0" == "2.0.0";
    SplitThree("2", "0", "0");
    assert "2" + "." + "0" + "." + "1" == "2.0.1";
    SplitThree("2", "0", "1");
    FirstDifferenceDecides(["2", "0", "0"], ["2", "0", "1"], 2);
  }

  lemma OlderMajorLoses()
    ensures SafeIndexing(Split("2.4.5"), Split("1.99.23")) && SemVerNewest("2.4.5", "1.99.23") == "2.4.5"
  {
    assert "2" + "." + "4" + "." + "5" == "2.4.5";
    SplitThree("2", "4", "5");
    assert "1" + "." + "99" + "." + "23" == "1.99.23";
    SplitThree("1", "99", "23");
    FirstDifferenceDecides(["2", "4", "5"], ["1", "99", "23"], 0);
  }

  lemma OlderMinorLoses()
    ensures SafeIndexing(Split("2.4.5"), Split("2.3.99")) && SemVerNewest("2.4.5", "2.3.99") == "2.4.5"
  {
    assert "2" + "." + "4" + "." + "5" == "2.4.5";
    SplitThree("2", "4", "5");
    assert "2" + "." + "3" + "." + "99" == "2.3.99";
    SplitThree("2", "3", "99");
    FirstDifferenceDecides(["2", "4", "5"], ["2", "3", "99"], 1);
  }

  lemma OlderPatchLoses()
    ensures SafeIndexing(Split("2.4.5"), Split("2.4.4")) && SemVerNewest("2.4.5", "2.4.4") == "2.4.5"
  {
    assert "2" + "." + "4" + "." + "5" == "2.4.5";
    SplitThree("2", "4", "5");
    assert "2" + "." + "4" + "." + "4" == "2.4.4";
    SplitThree("2", "4", "4");
    FirstDifferenceDecides(["2", "4", "5"], ["2", "4", "4"], 2);
  }

  // ------------------------------------------------------------------
  // Discrepancies of the comparison as written
  // ------------------------------------------------------------------

  /** Segments are compared as strings, so "10" sorts below "9": 1.10.0 is
      judged older than 1.9.0. */
  lemma StringSegmentsMisorderReleases()
    ensures SafeIndexing(Split("1.9.0"), Split("1.10.0"))
    ensures SemVerNewest("1.9.0", "1.10.0") == "1.9.0"
  {
    assert "1" + "." + "9" + "." + "0" == "1.9.0";
    SplitThree("1", "9", "0");
    assert "1" + "." + "10" + "." + "0" == "1.10.0";
    SplitThree("1", "10", "0");
    assert LexGreater("9", "10");
    FirstDifferenceDecides(["1", "9", "0"], ["1", "10", "0"], 1);
  }

  /** A second version with fewer segments whose segments match the first's
      makes the loop index past the end of its segments (a run-time panic
      in the source). */
  lemma ShorterSecondIndexesPastEnd()
    ensures !SafeIndexing(Split("1.0.0"), Split("1.0"))
  {
    assert "1" + "." + "0" + "." + "0" == "1.0.0";
    SplitThree("1", "0", "0");
    assert "1" + "." + "0" == "1.0";
    SplitTwo("1", "0");
    SafeIndexingExactly(["1", "0", "0"], ["1", "0"]);
  }

  // ------------------------------------------------------------------
  // The comparison as intended: numeric segments, missing ones read as 0
  // ------------------------------------------------------------------

  predicate AllDigits(s: string) {
    forall i :: 0 <= i < |s| ==> '0' <= s[i] <= '9'
  }

  /** A numeric segment: one or more decimal digits. */
  predicate IsDigits(s: string) {
    |s| > 0 && AllDigits(s)
  }

  /** The decimal value of a string of digits. */
  function DigitsValue(s: string): nat
    requires AllDigits(s)
    decreases |s|
  {
    if s == [] then 0 else DigitsValue(s[..|s| - 1]) * 10 + (s[|s| - 1] as int - '0' as int)
  }

  /** Two numeric segments of equal value, such as "1" and "01". */
  predicate SameValue(a: string, b: string) {
    IsDigits(a) && IsDigits(b) && DigitsValue(a) == DigitsValue(b)
  }

  /** The i-th segment, or "0" past the end. */
  function SegmentAt(s: seq<string>, i: nat): string {
    if i < |s| then s[i] else "0"
  }

  /** Numeric order on numeric segments, Go string order otherwise. */
  predicate SegmentNewer(a: string, b: string) {
    if IsDigits(a) && IsDigits(b) then DigitsValue(a) > DigitsValue(b) else LexGreater(a, b)
  }

  function DecideNumeric(s1: seq<string>, s2: seq<string>, i: nat): Winner
    decreases (if |s1| > |s2| then |s1| else |s2|) - i
  {
    if i >= |s1| && i >= |s2| then First
    else if SegmentNewer(SegmentAt(s2, i), SegmentAt(s1, i)) then Second
    else if SegmentNewer(SegmentAt(s1, i), SegmentAt(s2, i)) then First
    else DecideNumeric(s1, s2, i + 1)
  }

  /** The newer of two dotted versions, comparing numeric segments by value
      and reading a missing segment as "0"; defined for every pair. */
  function NewestSemVerNumeric(v1: string, v2: string): (newest: string)
    ensures newest == v1 || newest == v2
  {
    if DecideNumeric(Split(v1), Split(v2), 0) == Second then v2 else v1
  }

  /** No segment is newer than itself. */
  lemma SegmentNewerIrreflexive(a: string)
    ensures !SegmentNewer(a, a)
  {
    LexTotal(a, a);
  }

  /** Comparing a version with itself finds no difference from any segment on. */
  lemma {:induction false} DecideNumericOfEqual(s: seq<string>, i: nat)
    ensures DecideNumeric(s, s, i) == First
    decreases |s| - i
  {
    if i < |s| {
      SegmentNewerIrreflexive(SegmentAt(s, i));
      DecideNumericOfEqual(s, i + 1);
    }
  }

  /** The corrected comparison of a version with itself gives it back. */
  lemma NewestSemVerNumericOfEqual(x: string)
    ensures NewestSemVerNumeric(x, x) == x
  {
    DecideNumericOfEqual(Split(x), 0);
  }

  /** Numeric segments: the first segment whose value differs decides, and
      the one with the larger value wins. */
  lemma {:induction false} NumericFirstDifferenceDecides(s1: seq<string>, s2: seq<string>, i: nat, k: nat)
    requires i <= k && (k < |s1| || k < |s2|)
    requires forall j :: i <= j < k ==> SameValue(SegmentAt(s1, j), SegmentAt(s2, j))
    requires IsDigits(SegmentAt(s1, k)) && IsDigits(SegmentAt(s2, k))
    requires DigitsValue(SegmentAt(s1, k)) != DigitsValue(SegmentAt(s2, k))
    ensures DecideNumeric(s1, s2, i) == if DigitsValue(SegmentAt(s2, k)) > DigitsValue(SegmentAt(s1, k)) then Second else First
    decreases k - i
  {
    if i < k {
      NumericFirstDifferenceDecides(s1, s2, i + 1, k);
    }
  }

  function Pow10(n: nat): (p: nat)
    ensures p >= 1
  {
    if n == 0 then 1 else 10 * Pow10(n - 1)
  }

  /** A string of n digits is worth less than 10^n. */
  lemma {:induction false} DigitsValueBound(s: string)
    requires AllDigits(s)
    ensures DigitsValue(s) < Pow10(|s|)
    decreases |s|
  {
    if s != [] {
      DigitsValueBound(s[..|s| - 1]);
    }
  }

  /** The leading digit counts 10^(n-1) times. */
  lemma {:induction false} DigitsValueFront(s: string)
    requires AllDigits(s) && |s| > 0
    ensures DigitsValue(s) == (s[0] as int - '0' as int) * Pow10(|s| - 1) + DigitsValue(s[1..])
    decreases |s|
  {
    if |s| > 1 {
      var init := s[..|s| - 1];
      DigitsValueFront(init);
      assert init[1..] == s[1..][..|s[1..]| - 1];
      assert s[1..][|s[1..]| - 1] == s[|s| - 1];
    } else {
      assert s[..0] == [] && s[1..] == [];
    }
  }

  /** A larger leading digit outweighs whatever follows it. */
  lemma LeadingDigitDominates(da: int, db: int, p: int, ra: int, rb: int)
    requires 0 <= db < da && 0 <= ra < p && 0 <= rb < p
    ensures da * p + ra > db * p + rb
  {
    var d := da - db - 1;
    assert d >= 0;
    assert d * p >= 0;
    assert da * p == db * p + p + d * p;
  }

  /** For digit strings of the same length, Go string order is numeric order. */
  lemma {:induction false} LexAgreesWithValue(a: string, b: string)
    requires AllDigits(a) && AllDigits(b) && |a| == |b|
    ensures LexGreater(a, b) <==> DigitsValue(a) > DigitsValue(b)
    decreases |a|
  {
    if a != [] {
      DigitsValueFront(a);
      DigitsValueFront(b);
      var p := Pow10(|a| - 1);
      var da, db := a[0] as int - '0' as int, b[0] as int - '0' as int;
      var ra, rb := DigitsValue(a[1..]), DigitsValue(b[1..]);
      assert DigitsValue(a) == da * p + ra && DigitsValue(b) == db * p + rb;
      if a[0] != b[0] {
        DigitsValueBound(a[1..]);
        DigitsValueBound(b[1..]);
        if da > db {
          LeadingDigitDominates(da, db, p, ra, rb);
        } else {
          LeadingDigitDominates(db, da, p, rb, ra);
        }
      } else {
        LexAgreesWithValue(a[1..], b[1..]);
      }
    }
  }

  /** Segment pairs on which the two comparisons see the same thing:
      numeric, of equal length. */
  predicate AlignedSegments(s1: seq<string>, s2: seq<string>) {
    |s1| == |s2| &&
    forall j :: 0 <= j < |s1| ==> IsDigits(s1[j]) && IsDigits(s2[j]) && |s1[j]| == |s2[j]|
  }

  lemma {:induction false} DecisionsAgreeFrom(s1: seq<string>, s2: seq<string>, i: nat)
    requires AlignedSegments(s1, s2) && i <= |s1|
    ensures SafeIndexing(s1[i..], s2[i..])
    ensures Decide(s1[i..], s2[i..]) == DecideNumeric(s1, s2, i)
    decreases |s1| - i
  {
    if i < |s1| {
      LexAgreesWithValue(s1[i], s2[i]);
      LexAgreesWithValue(s2[i], s1[i]);
      LexTotal(s1[i], s2[i]);
      assert s1[i..][1..] == s1[i + 1..] && s2[i..][1..] == s2[i + 1..];
      DecisionsAgreeFrom(s1, s2, i + 1);
    }
  }

  /** Where every segment is a number and both versions have the same shape
      (as many segments, each of the same width, such as 2.4.5 and 2.3.9),
      the comparison as written is safe and agrees with the intended one. */
  lemma SameShapeComparisonsAgree(v1: string, v2: string)
    requires AlignedSegments(Split(v1), Split(v2))
    ensures SafeIndexing(Split(v1), Split(v2))
    ensures SemVerNewest(v1, v2) == NewestSemVerNumeric(v1, v2)
  {
    DecisionsAgreeFrom(Split(v1), Split(v2), 0);
    assert Split(v1)[0..] == Split(v1) && Split(v2)[0..] == Split(v2);
  }

  /** A single digit is numeric, with its digit's value. */
  lemma DigitValue(c: char)
    requires '0' <= c <= '9'
    ensures IsDigits([c]) && DigitsValue([c]) == c as int - '0' as int
  {
    assert [c][..0] == [];
  }

  /** The intended comparison orders the releases the written one misorders. */
  lemma NumericOrdersReleases()
    ensures NewestSemVerNumeric("1.9.0", "1.10.0") == "1.10.0"
  {
    assert "1" + "." + "9" + "." + "0" == "1.9.0";
    assert "1" + "." + "10" + "." + "0" == "1.10.0";
    SplitThree("1", "9", "0");
    SplitThree("1", "10", "0");
    var s1, s2 := ["1", "9", "0"], ["1", "10", "0"];
    DigitValue('1');
    DigitValue('9');
    assert IsDigits("10") && DigitsValue("10") == 10 by {
      assert "10"[..1] == "1";
    }
    assert SameValue(SegmentAt(s1, 0), SegmentAt(s2, 0));
    assert DigitsValue(SegmentAt(s1, 1)) == 9 && DigitsValue(SegmentAt(s2, 1)) == 10;
    NumericFirstDifferenceDecides(s1, s2, 0, 1);
    assert DecideNumeric(s1, s2, 0) == Second;
  }

  /** The intended comparison reads a missing trailing segment as 0 instead
      of failing, whichever side is shorter. */
  lemma NumericPadsShorterFirst()
    ensures NewestSemVerNumeric("1.0", "1.0.1") == "1.0.1"
  {
    assert "1" + "." + "0" + "." + "1" == "1.0.1";
    SplitThree("1", "0", "1");
    assert "1" + "." + "0" == "1.0";
    SplitTwo("1", "0");
    var s1, s2 := ["1", "0"], ["1", "0", "1"];
    DigitValue('0');
    DigitValue('1');
    assert SameValue(SegmentAt(s1, 0), SegmentAt(s2, 0));
    assert SameValue(SegmentAt(s1, 1), SegmentAt(s2, 1));
    assert DigitsValue(SegmentAt(s1, 2)) == 0 && DigitsValue(SegmentAt(s2, 2)) == 1;
    NumericFirstDifferenceDecides(s1, s2, 0, 2);
  }

  lemma NumericPadsShorterSecond()
    ensures NewestSemVerNumeric("1.0.1", "1.0") == "1.0.1"
  {
    assert "1" + "." + "0" + "." + "1" == "1.0.1";
    SplitThree("1", "0", "1");
    assert "1" + "." + "0" == "1.0";
    SplitTwo("1", "0");
    var s1, s2 := ["1", "0", "1"], ["1", "0"];
    DigitValue('0');
    DigitValue('1');
    assert SameValue(SegmentAt(s1, 0), SegmentAt(s2, 0));
    assert SameValue(SegmentAt(s1, 1), SegmentAt(s2, 1));
    assert DigitsValue(SegmentAt(s1, 2)) == 1 && DigitsValue(SegmentAt(s2, 2)) == 0;
    NumericFirstDifferenceDecides(s1, s2, 0, 2);
  }

  // ------------------------------------------------------------------
  // Update annotation
  // ------------------------------------------------------------------

  /** The per-component lookup of the latest version (AvailableComponentVersion.Get). */
  type Lookup = string -> Result<Version>

  /** A choice of the newer of (installed, latest). */
  type Comparison = (string, string) -> string

  /** newestVersion: a placeholder that always returns the installed version. */
  function NewestVersion(v1: string, v2: string): (newest: string)
    ensures newest == v1
  {
    v1
  }

  /** Position of the first component whose lookup fails, or the length. */
  function FirstFailure(comps: seq<ComponentVersion>, lookup: Lookup): (k: nat)
    ensures k <= |comps|
    ensures forall j :: 0 <= j < k ==> lookup(comps[j].component.name).Ok?
    ensures k < |comps| ==> lookup(comps[k].component.name).Err?
    decreases |comps|
  {
    if comps == [] then 0
    else if lookup(comps[0].component.name).Err? then 0
    else 1 + FirstFailure(comps[1..], lookup)
  }

  function Annotate(c: ComponentVersion, latest: Version, newest: Comparison): ComponentVersion {
    var n := newest(c.version.version, latest.version);
    if n != c.version.version then c.(updateAvailable := n) else c
  }

  function AnnotatedAt(comps: seq<ComponentVersion>, lookup: Lookup, newest: Comparison, i: nat): ComponentVersion
    requires i < |comps|
  {
    if i < FirstFailure(comps, lookup) then Annotate(comps[i], lookup(comps[i].component.name).value, newest)
    else comps[i]
  }

  /** The components after AddUpdateData: same length and order, every
      component and version field kept; up to the first failing lookup, a
      component's update field is set to the comparison's answer exactly
      when that differs from the installed version; from the failing
      component on, nothing changes. */
  function UpdatedComponents(comps: seq<ComponentVersion>, lookup: Lookup, newest: Comparison): (updated: seq<ComponentVersion>)
    ensures |updated| == |comps|
    ensures forall i :: 0 <= i < |comps| ==>
              updated[i].component == comps[i].component && updated[i].version == comps[i].version
    ensures forall i :: 0 <= i < FirstFailure(comps, lookup) ==>
              var n := newest(comps[i].version.version, lookup(comps[i].component.name).value.version);
              updated[i].updateAvailable == if n != comps[i].version.version then n else comps[i].updateAvailable
    ensures forall i :: FirstFailure(comps, lookup) <= i < |comps| ==> updated[i] == comps[i]
  {
    seq(|comps|, i requires 0 <= i < |comps| => AnnotatedAt(comps, lookup, newest, i))
  }

  /** The error AddUpdateData returns: nil when every lookup succeeds,
      otherwise the error of the first failing lookup. */
  function UpdateError(comps: seq<ComponentVersion>, lookup: Lookup): (err: Outcome)
    ensures err.Pass? <==> forall i :: 0 <= i < |comps| ==> lookup(comps[i].component.name).Ok?
    ensures err.Fail? ==> FirstFailure(comps, lookup) < |comps| &&
                          err.error == lookup(comps[FirstFailure(comps, lookup)].component.name).error
  {
    var k := FirstFailure(comps, lookup);
    if k < |comps| then Fail(lookup(comps[k].component.name).error) else Pass
  }

  /** AddUpdateData with the component lookup of this revision,
      LatestReleasedComponent, which reads the package versions cache:
      annotates the components in place, stopping at the first failing
      lookup and returning its error. Every lookup sees what the first one
      saw, so the annotation is that of the lookup ReleasedLookup of the
      cache as it was; the cache ends as one lookup leaves it when there was
      at least one component, and untouched otherwise. */
  method AddUpdateData(comps: array<ComponentVersion>, pkg: DataGlobals.PackageState, cfg: Config,
                       fetch: string -> Result<seq<ComponentVersion>>, newest: Comparison)
    returns (err: Outcome)
    modifies comps, pkg
    ensures comps[..] == UpdatedComponents(old(comps[..]), ReleasedLookup(old(pkg.availableVersions), cfg, fetch), newest)
    ensures err == UpdateError(old(comps[..]), ReleasedLookup(old(pkg.availableVersions), cfg, fetch))
    ensures pkg.availableVersions == if comps.Length > 0
                                     then DataGlobals.CacheAfterLookup(old(pkg.availableVersions), cfg, fetch)
                                     else old(pkg.availableVersions)
    ensures pkg.clusterID == old(pkg.clusterID)
  {
    ghost var before := comps[..];
    ghost var cache := pkg.availableVersions;
    ghost var lookup := ReleasedLookup(cache, cfg, fetch);
    var i := 0;
    while i < comps.Length
      invariant 0 <= i <= comps.Length
      invariant forall j :: 0 <= j < i ==> lookup(before[j].component.name).Ok?
      invariant forall j :: 0 <= j < i ==> comps[j] == Annotate(before[j], lookup(before[j].component.name).value, newest)
      invariant forall j :: i <= j < comps.Length ==> comps[j] == before[j]
      invariant pkg.availableVersions == if i > 0 then DataGlobals.CacheAfterLookup(cache, cfg, fetch) else cache
      invariant pkg.clusterID == old(pkg.clusterID)
    {
      DataGlobals.LookupsRepeatTheFirstAnswer(cache, cfg, fetch);
      var component := comps[i];
      var installed := component.version.version;
      var latest := LatestReleasedComponentGet(pkg, cfg, fetch, component.component.name);
      assert latest == lookup(component.component.name);
      if latest.Err? {
        StoppedAnnotation(before, comps[..], lookup, newest, i);
        return Fail(latest.error);
      }
      var n := newest(installed, latest.value.version);
      if n != installed {
        comps[i] := component.(updateAvailable := n);
      }
      i := i + 1;
    }
    StoppedAnnotation(before, comps[..], lookup, newest, i);
    return Pass;
  }

  /** Where the annotation loop stops (at the first failing lookup, or at the
      end) its array is the annotated sequence. */
  lemma StoppedAnnotation(before: seq<ComponentVersion>, after: seq<ComponentVersion>, lookup: Lookup,
                          newest: Comparison, i: nat)
    requires |after| == |before| && i <= |before|
    requires forall j :: 0 <= j < i ==> lookup(before[j].component.name).Ok?
    requires forall j :: 0 <= j < i ==> after[j] == Annotate(before[j], lookup(before[j].component.name).value, newest)
    requires forall j :: i <= j < |before| ==> after[j] == before[j]
    requires i < |before| ==> lookup(before[i].component.name).Err?
    ensures FirstFailure(before, lookup) == i
    ensures after == UpdatedComponents(before, lookup, newest)
  {
  }

  /** With the placeholder comparison nothing is ever annotated. */
  lemma PlaceholderAnnotatesNothing(comps: seq<ComponentVersion>, lookup: Lookup)
    ensures UpdatedComponents(comps, lookup, NewestVersion) == comps
  {
    var updated := UpdatedComponents(comps, lookup, NewestVersion);
    forall i | 0 <= i < |comps|
      ensures updated[i] == comps[i]
    {
      if i < FirstFailure(comps, lookup) {
        assert updated[i].updateAvailable == comps[i].updateAvailable;
      }
    }
  }

  lemma NumericMinorUpgrade()
    ensures NewestSemVerNumeric("1.2.3", "1.3.0") == "1.3.0"
  {
    assert "1" + "." + "2" + "." + "3" == "1.2.3";
    SplitThree("1", "2", "3");
    assert "1" + "." + "3" + "." + "0" == "1.3.0";
    SplitThree("1", "3", "0");
    var s1, s2 := ["1", "2", "3"], ["1", "3", "0"];
    DigitValue('1');
    DigitValue('2');
    DigitValue('3');
    assert SameValue(SegmentAt(s1, 0), SegmentAt(s2, 0));
    assert DigitsValue(SegmentAt(s1, 1)) == 2 && DigitsValue(SegmentAt(s2, 1)) == 3;
    NumericFirstDifferenceDecides(s1, s2, 0, 1);
  }

  /** An installed router 1.2.3 whose latest release is 1.3.0 is annotated
      with 1.3.0 under the intended comparison. */
  lemma RouterUpdateDetected(lookup: Lookup)
    requires lookup("router") == Ok(Version("", "1.3.0", ""))
    ensures UpdatedComponents([ComponentVersion(Component("router", ""), Version("", "1.2.3", ""), "")],
                              lookup, NewestSemVerNumeric)[0].updateAvailable == "1.3.0"
  {
    var comps := [ComponentVersion(Component("router", ""), Version("", "1.2.3", ""), "")];
    assert FirstFailure(comps, lookup) == 1 by {
      assert comps[1..] == [];
    }
    NumericMinorUpgrade();
  }

  // ------------------------------------------------------------------
  // Latest version lookup
  // ------------------------------------------------------------------

  /** Position of the last entry named `name`, or -1 when there is none. */
  function LastMatch(versions: seq<ComponentVersion>, name: string): (k: int)
    ensures -1 <= k < |versions|
    ensures k >= 0 ==> versions[k].component.name == name
    ensures forall j :: k < j < |versions| ==> versions[j].component.name != name
    decreases |versions|
  {
    if versions == [] then -1
    else if versions[|versions| - 1].component.name == name then |versions| - 1
    else LastMatch(versions[..|versions| - 1], name)
  }

  /** The answer of the latest-version scan over a version list. */
  function LatestVersionIn(versions: seq<ComponentVersion>, component: string): Result<Version> {
    var k := LastMatch(versions, component);
    if k >= 0 && versions[k].version.version != "" then Ok(versions[k].version)
    else Err(LatestVersionNotAvailable(component))
  }

  /** The answer of GetLatestVersion given what GetAvailableVersions answered. */
  function LatestVersion(component: string, available: Result<seq<ComponentVersion>>): Result<Version> {
    if available.Err? then Err(available.error) else LatestVersionIn(available.value, component)
  }

  /** The component lookup LatestReleasedComponent.Get amounts to, for the
      versions cache as it is before the first lookup. */
  function ReleasedLookup(cache: seq<ComponentVersion>, cfg: Config,
                          fetch: string -> Result<seq<ComponentVersion>>): Lookup
  {
    name => LatestVersion(name, DataGlobals.AvailableFrom(cache, cfg, fetch))
  }

  /** The loop of GetLatestVersion: the version of the last entry with the
      component's name; an error when no entry has that name or that version
      string is "". */
  method ScanLatestVersion(component: string, latestVersions: seq<ComponentVersion>) returns (r: Result<Version>)
    ensures r.Ok? <==> LastMatch(latestVersions, component) >= 0 &&
                       latestVersions[LastMatch(latestVersions, component)].version.version != ""
    ensures r.Ok? ==> r.value == latestVersions[LastMatch(latestVersions, component)].version
    ensures r.Err? ==> r.error == LatestVersionNotAvailable(component)
    ensures r == LatestVersionIn(latestVersions, component)
  {
    var latestVersion := ZeroVersion;
    var i := 0;
    while i < |latestVersions|
      invariant 0 <= i <= |latestVersions|
      invariant latestVersion == if LastMatch(latestVersions[..i], component) >= 0
                                 then latestVersions[LastMatch(latestVersions[..i], component)].version
                                 else ZeroVersion
    {
      assert latestVersions[..i + 1][..i] == latestVersions[..i];
      if latestVersions[i].component.name == component {
        latestVersion := latestVersions[i].version;
      }
      i := i + 1;
    }
    assert latestVersions[..i] == latestVersions;
    if latestVersion.version == "" {
      return Err(LatestVersionNotAvailable(component));
    }
    r := Ok(latestVersion);
  }

  /** GetLatestVersion: asks the package versions cache (GetAvailableVersions,
      which fetches on a miss) and scans the answer. Its error is passed on. */
  method GetLatestVersion(pkg: DataGlobals.PackageState, cfg: Config, fetch: string -> Result<seq<ComponentVersion>>,
                          component: string)
    returns (r: Result<Version>)
    modifies pkg
    ensures r == LatestVersion(component, DataGlobals.AvailableFrom(old(pkg.availableVersions), cfg, fetch))
    ensures pkg.availableVersions == DataGlobals.CacheAfterLookup(old(pkg.availableVersions), cfg, fetch)
    ensures pkg.clusterID == old(pkg.clusterID)
  {
    var latestVersions := pkg.GetAvailableVersions(cfg, fetch);
    if latestVersions.Err? {
      return Err(latestVersions.error);
    }
    r := ScanLatestVersion(component, latestVersions.value);
  }

  /** LatestReleasedComponent.Get: GetLatestVersion's answer. */
  method LatestReleasedComponentGet(pkg: DataGlobals.PackageState, cfg: Config,
                                    fetch: string -> Result<seq<ComponentVersion>>, component: string)
    returns (r: Result<Version>)
    modifies pkg
    ensures r == ReleasedLookup(old(pkg.availableVersions), cfg, fetch)(component)
    ensures pkg.availableVersions == DataGlobals.CacheAfterLookup(old(pkg.availableVersions), cfg, fetch)
    ensures pkg.clusterID == old(pkg.clusterID)
  {
    var version := GetLatestVersion(pkg, cfg, fetch, component);
    if version.Err? {
      return Err(version.error);
    }
    return Ok(version.value);
  }

  // ------------------------------------------------------------------
  // Cluster assembly
  // ------------------------------------------------------------------

  /** GetInstalled: the installed-data provider's bytes, parsed. `installed`
      is what the provider returned and `parse` is ParseJSONCluster. Either
      failure is returned as is. */
  function GetInstalled(installed: Result<Bytes>, parse: Bytes -> Result<Cluster>): (r: Result<Cluster>)
    ensures r.Ok? <==> installed.Ok? && parse(installed.value).Ok?
    ensures r.Ok? ==> r.value == parse(installed.value).value
    ensures installed.Err? ==> r.error == installed.error
    ensures installed.Ok? && r.Err? ==> r.error == parse(installed.value).error
  {
    if installed.Err? then Err(installed.error) else parse(installed.value)
  }

  /** GetCluster, with the component lookup of this revision
      (LatestReleasedComponent). An installed-data failure gives the empty
      cluster and the error, and neither cache is touched. Otherwise the
      installed components are annotated (an annotation error is dropped;
      with the placeholder comparison they come back unchanged), which
      consults the versions cache when there is at least one component, and
      the identity is resolved through the package cache: on failure the
      cluster is returned with the identity it was parsed with, plus the
      error; on success the cluster carries the resolved identity. */
  method GetCluster(pkg: DataGlobals.PackageState, cfg: Config, installed: Result<Bytes>,
                    parse: Bytes -> Result<Cluster>, fetch: string -> Result<seq<ComponentVersion>>,
                    store: ClusterIds.SecretStore, newId: string)
    returns (cluster: Cluster, err: Outcome)
    modifies pkg
    ensures GetInstalled(installed, parse).Err? ==>
              && cluster == EmptyCluster
              && err == Fail(GetInstalled(installed, parse).error)
              && pkg.clusterID == old(pkg.clusterID)
              && pkg.availableVersions == old(pkg.availableVersions)
    ensures GetInstalled(installed, parse).Ok? ==>
              var parsed := GetInstalled(installed, parse).value;
              var resolved := if old(pkg.clusterID) != "" then Ok(old(pkg.clusterID)) else ClusterIds.Get(store, newId).id;
              && cluster.components == UpdatedComponents(parsed.components, ReleasedLookup(old(pkg.availableVersions), cfg, fetch), NewestVersion)
              && cluster.components == parsed.components
              && (resolved.Err? ==> err == Fail(resolved.error) && cluster.id == parsed.id)
              && (resolved.Ok? ==> err == Pass && cluster.id == resolved.value)
              && pkg.clusterID == (if resolved.Ok? then resolved.value else old(pkg.clusterID))
              && pkg.availableVersions == if |parsed.components| > 0
                                          then DataGlobals.CacheAfterLookup(old(pkg.availableVersions), cfg, fetch)
                                          else old(pkg.availableVersions)
  {
    var got := GetInstalled(installed, parse);
    if got.Err? {
      return EmptyCluster, Fail(got.error);
    }
    cluster := got.value;
    var comps := new ComponentVersion[|cluster.components|](i requires 0 <= i < |cluster.components| => cluster.components[i]);
    assert comps[..] == cluster.components;
    ghost var cache := pkg.availableVersions;
    var updateErr := AddUpdateData(comps, pkg, cfg, fetch, NewestVersion);
    PlaceholderAnnotatesNothing(got.value.components, ReleasedLookup(cache, cfg, fetch));
    cluster := cluster.(components := comps[..]);
    var id := pkg.GetID(store, newId);
    if id.id.Err? {
      return cluster, Fail(id.id.error);
    }
    cluster := cluster.(id := id.id.value);
    err := Pass;
  }
}
