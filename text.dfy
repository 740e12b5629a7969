/**
 * The string operations the tracking engine relies on: ASCII lower-casing (`toLowerCase`),
 * substring containment (`includes`), `trim`, the first match of the regular expression
 * `\d+(\.\d+)?` (`match`), `join`, and the decimal rendering of a count (template literals).
 */
module Text {
  import opened Wrappers

  // ---------------------------------------------------------------- lower-casing

  predicate IsUpper(c: char) { 'A' <= c <= 'Z' }

  function LowerChar(c: char): char
  {
    if IsUpper(c) then (c as int - 'A' as int + 'a' as int) as char else c
  }

  /** `toLowerCase`, restricted to the ASCII letters. */
  function Lower(s: string): (r: string)
    ensures |r| == |s|
    ensures forall i :: 0 <= i < |r| ==> !IsUpper(r[i])
    ensures forall i :: 0 <= i < |s| ==>
              if IsUpper(s[i]) then r[i] as int == s[i] as int + 32 else r[i] == s[i]
  {
    seq(|s|, i requires 0 <= i < |s| => LowerChar(s[i]))
  }

  /** Lower-casing twice is lower-casing once. */
  lemma LowerIdempotent(s: string)
    ensures Lower(Lower(s)) == Lower(s)
  {
    var once := Lower(s);
    assert forall i :: 0 <= i < |once| ==> LowerChar(once[i]) == once[i];
  }

  // ---------------------------------------------------------------- containment

  /** `s.includes(p)`: p occurs in s as a contiguous run (the empty string occurs everywhere). */
  predicate Contains(s: string, p: string)
    decreases |s|
  {
    p <= s || (|s| > 0 && Contains(s[1..], p))
  }

  ghost predicate OccursAt(s: string, p: string, i: int)
  {
    0 <= i && i + |p| <= |s| && s[i..i + |p|] == p
  }

  /** The scanning definition of `Contains` agrees with "p occurs at some index of s". */
  lemma {:induction false} ContainsIff(s: string, p: string)
    ensures Contains(s, p) <==> exists i :: OccursAt(s, p, i)
    decreases |s|
  {
    if p <= s {
      assert OccursAt(s, p, 0);
    } else if |s| > 0 {
      ContainsIff(s[1..], p);
      if Contains(s[1..], p) {
        var i :| OccursAt(s[1..], p, i);
        assert s[1..][i..i + |p|] == s[i + 1..i + 1 + |p|];
        assert OccursAt(s, p, i + 1);
      }
      if i :| OccursAt(s, p, i) {
        assert i != 0;
        assert s[i..i + |p|] == s[1..][i - 1..i - 1 + |p|];
        assert OccursAt(s[1..], p, i - 1);
      }
    } else {
      assert forall i :: !OccursAt(s, p, i);
    }
  }

  /** Text appended on either side never hides an occurrence. */
  lemma ContainsExtended(s: string, t: string, p: string)
    requires Contains(s, p)
    ensures Contains(s + t, p) && Contains(t + s, p)
  {
    ContainsIff(s, p);
    var i :| OccursAt(s, p, i);
    assert (s + t)[i..i + |p|] == s[i..i + |p|];
    assert OccursAt(s + t, p, i);
    ContainsIff(s + t, p);
    assert (t + s)[|t| + i..|t| + i + |p|] == s[i..i + |p|];
    assert OccursAt(t + s, p, |t| + i);
    ContainsIff(t + s, p);
  }

  /** Lower-casing both sides keeps an occurrence: matching on lower-cased text is case-insensitive. */
  lemma ContainsLower(s: string, p: string)
    requires Contains(s, p)
    ensures Contains(Lower(s), Lower(p))
  {
    ContainsIff(s, p);
    var i :| OccursAt(s, p, i);
    assert Lower(s)[i..i + |p|] == Lower(p);
    assert OccursAt(Lower(s), Lower(p), i);
    ContainsIff(Lower(s), Lower(p));
  }

  /**
   * A run of s that equals p up to case makes the lower-cased p occur in the lower-cased s:
   * "NUTRITION" in the message matches the category "Nutrition".
   */
  lemma ContainsCaseless(s: string, p: string, i: int)
    requires 0 <= i && i + |p| <= |s| && Lower(s[i..i + |p|]) == Lower(p)
    ensures Contains(Lower(s), Lower(p))
  {
    assert Lower(s)[i..i + |p|] == Lower(s[i..i + |p|]);
    assert OccursAt(Lower(s), Lower(p), i);
    ContainsIff(Lower(s), Lower(p));
  }

  // ---------------------------------------------------------------- trim

  /**
   * The characters `String.prototype.trim` removes: the ECMAScript WhiteSpace code points
   * (tab, vertical tab, form feed, space, no-break space, byte order mark and the Unicode
   * space separators) and the LineTerminator code points.
   */
  predicate IsSpace(c: char)
  {
    c == '\t' || c == '\n' || c == '\U{B}' || c == '\U{C}' || c == '\r' || c == ' '
    || c == '\U{A0}' || c == '\U{1680}' || ('\U{2000}' <= c <= '\U{200A}')
    || c == '\U{2028}' || c == '\U{2029}' || c == '\U{202F}' || c == '\U{205F}'
    || c == '\U{3000}' || c == '\U{FEFF}'
  }

  /** Every character of s from lo up to hi is white space. */
  ghost predicate SpaceBetween(s: string, lo: nat, hi: nat)
    requires lo <= hi <= |s|
  {
    forall k :: lo <= k < hi ==> IsSpace(s[k])
  }

  ghost predicate AllSpace(s: string)
  {
    SpaceBetween(s, 0, |s|)
  }

  /** The index of the first character at or after i that is not white space (or |s|). */
  function SkipSpace(s: string, i: nat): (k: nat)
    requires i <= |s|
    ensures i <= k <= |s| && SpaceBetween(s, i, k)
    ensures k < |s| ==> !IsSpace(s[k])
    decreases |s| - i
  {
    if i < |s| && IsSpace(s[i]) then SkipSpace(s, i + 1) else i
  }

  /** The index just past the last character before j and at or after lo that is not white space (or lo). */
  function SkipSpaceBack(s: string, lo: nat, j: nat): (k: nat)
    requires lo <= j <= |s|
    ensures lo <= k <= j && SpaceBetween(s, k, j)
    ensures k > lo ==> !IsSpace(s[k - 1])
    decreases j
  {
    if j > lo && IsSpace(s[j - 1]) then SkipSpaceBack(s, lo, j - 1) else j
  }

  /** `s.trim()`: the slice of s left once the white space at both ends is cut off. */
  function Trim(s: string): (r: string)
    ensures exists i, j :: 0 <= i <= j <= |s| && r == s[i..j] && SpaceBetween(s, 0, i) && SpaceBetween(s, j, |s|)
    ensures r != [] ==> !IsSpace(r[0]) && !IsSpace(r[|r| - 1])
    ensures r == [] <==> AllSpace(s)
  {
    var i := SkipSpace(s, 0);
    var j := SkipSpaceBack(s, i, |s|);
    assert i < j ==> !IsSpace(s[i]);
    s[i..j]
  }

  /** Trimming twice is trimming once. */
  lemma TrimIdempotent(s: string)
    ensures Trim(Trim(s)) == Trim(s)
  {
    var r := Trim(s);
    if r != [] {
      assert SkipSpace(r, 0) == 0;
      assert SkipSpaceBack(r, 0, |r|) == |r|;
      assert r[0..|r|] == r;
    }
  }

  // ---------------------------------------------------------------- the number scanner

  predicate IsDigit(c: char) { '0' <= c <= '9' }

  ghost predicate AllDigits(s: string)
  {
    forall i :: 0 <= i < |s| ==> IsDigit(s[i])
  }

  /** s[st..en] is, as a whole, a match of `\d+(\.\d+)?`. */
  ghost predicate NumeralAt(s: string, st: int, en: int)
  {
    && 0 <= st < en <= |s|
    && (|| AllDigits(s[st..en])
        || exists k :: st < k < en - 1 && s[k] == '.' && AllDigits(s[st..k]) && AllDigits(s[k + 1..en]))
  }

  /** A half-open range [start, end) of a string. */
  datatype Span = Span(start: nat, end: nat)

  /** The end of the run of digits that starts at i. */
  function DigitRunEnd(s: string, i: nat): (j: nat)
    requires i <= |s|
    ensures i <= j <= |s|
    ensures forall k :: i <= k < j ==> IsDigit(s[k])
    ensures j == |s| || !IsDigit(s[j])
    decreases |s| - i
  {
    if i < |s| && IsDigit(s[i]) then DigitRunEnd(s, i + 1) else i
  }

  /** The first index at or after i holding a digit, or |s| when there is none. */
  function FirstDigit(s: string, i: nat): (j: nat)
    requires i <= |s|
    ensures i <= j <= |s|
    ensures forall k :: i <= k < j ==> !IsDigit(s[k])
    ensures j < |s| ==> IsDigit(s[j])
    decreases |s| - i
  {
    if i == |s| || IsDigit(s[i]) then i else FirstDigit(s, i + 1)
  }

  /**
   * Where `s.match(/\d+(\.\d+)?/)` matches: the digit run at the first digit of s, extended by
   * a point and a second digit run when a digit follows that point.
   */
  function NumberSpan(s: string): (r: Option<Span>)
    ensures r.Some? ==> r.value.start < r.value.end <= |s|
  {
    var st := FirstDigit(s, 0);
    if st == |s| then None
    else
      var e := DigitRunEnd(s, st);
      if e + 1 < |s| && s[e] == '.' && IsDigit(s[e + 1]) then Some(Span(st, DigitRunEnd(s, e + 1)))
      else Some(Span(st, e))
  }

  /** Every match of `\d+(\.\d+)?` starts with a digit run that reaches its end or a point. */
  lemma NumeralShape(s: string, st: int, en: int)
    requires NumeralAt(s, st, en)
    ensures IsDigit(s[st])
    ensures forall k :: st <= k < en && !IsDigit(s[k]) ==>
              s[k] == '.' && k + 1 < en && forall m :: k < m < en ==> IsDigit(s[m])
  {
    if !AllDigits(s[st..en]) {
      var k :| st < k < en - 1 && s[k] == '.' && AllDigits(s[st..k]) && AllDigits(s[k + 1..en]);
      assert s[st] == s[st..k][0];
      forall j | st <= j < en && j != k ensures IsDigit(s[j]) {
        if j < k {
          assert s[j] == s[st..k][j - st];
        } else {
          assert s[j] == s[k + 1..en][j - k - 1];
        }
      }
    } else {
      assert s[st] == s[st..en][0];
      forall k | st <= k < en ensures IsDigit(s[k]) {
        assert s[k] == s[st..en][k - st];
      }
    }
  }

  lemma AllDigitsSlice(s: string, a: nat, b: nat)
    requires a <= b <= |s|
    requires forall k :: a <= k < b ==> IsDigit(s[k])
    ensures AllDigits(s[a..b])
  {
    forall i | 0 <= i < b - a ensures IsDigit(s[a..b][i]) {
      assert s[a..b][i] == s[a + i];
    }
  }

  /**
   * `NumberSpan` is exactly the regular expression's match: there is none iff s holds no match
   * at all, and otherwise it is a match, the leftmost one, and the longest at its start.
   */
  lemma NumberSpanIsLeftmostLongest(s: string)
    ensures NumberSpan(s).None? <==> forall st, en :: !NumeralAt(s, st, en)
    ensures NumberSpan(s).Some? ==> NumeralAt(s, NumberSpan(s).value.start, NumberSpan(s).value.end)
    ensures NumberSpan(s).Some? ==> forall st, en :: NumeralAt(s, st, en) ==>
              NumberSpan(s).value.start < st
              || (NumberSpan(s).value.start == st && en <= NumberSpan(s).value.end)
  {
    var st0 := FirstDigit(s, 0);
    forall st, en | NumeralAt(s, st, en) ensures st0 <= st {
      NumeralShape(s, st, en);
    }
    if st0 < |s| {
      var e := DigitRunEnd(s, st0);
      var r := NumberSpan(s).value;
      if e + 1 < |s| && s[e] == '.' && IsDigit(s[e + 1]) {
        var e2 := DigitRunEnd(s, e + 1);
        AllDigitsSlice(s, st0, e);
        AllDigitsSlice(s, e + 1, e2);
        assert NumeralAt(s, st0, e2);
        assert e2 == |s| || !IsDigit(s[e2]);
        forall en | NumeralAt(s, st0, en) ensures en <= e2 {
          NumeralShape(s, st0, en);
        }
      } else {
        AllDigitsSlice(s, st0, e);
        assert NumeralAt(s, st0, e);
        forall en | NumeralAt(s, st0, en) ensures en <= e {
          NumeralShape(s, st0, en);
        }
      }
    }
  }

  /** The text `s.match(/\d+(\.\d+)?/)[0]`, or None when the expression does not match. */
  function FirstNumber(s: string): (r: Option<string>)
    ensures r.Some? ==> r.value != [] && Contains(s, r.value)
  {
    match NumberSpan(s)
    case None => None
    case Some(sp) =>
      var v := s[sp.start..sp.end];
      assert OccursAt(s, v, sp.start);
      ContainsIff(s, v);
      Some(v)
  }

  /** A number found in s is the text of a match of `\d+(\.\d+)?` in s. */
  lemma FirstNumberIsNumeral(s: string)
    ensures FirstNumber(s).Some? ==> exists st, en :: NumeralAt(s, st, en) && FirstNumber(s).value == s[st..en]
  {
    NumberSpanIsLeftmostLongest(s);
  }

  // ---------------------------------------------------------------- join and decimal rendering

  /** `parts.join(sep)`. */
  function Join(parts: seq<string>, sep: string): string
  {
    if |parts| == 0 then ""
    else if |parts| == 1 then parts[0]
    else parts[0] + sep + Join(parts[1..], sep)
  }

  /** Every part shows up in the joined text. */
  lemma {:induction false} JoinContainsEach(parts: seq<string>, sep: string, i: int)
    requires 0 <= i < |parts|
    ensures Contains(Join(parts, sep), parts[i])
  {
    assert Contains(parts[i], parts[i]) by { assert parts[i] <= parts[i]; }
    if |parts| > 1 {
      if i == 0 {
        ContainsExtended(parts[0], sep + Join(parts[1..], sep), parts[0]);
        assert parts[0] + sep + Join(parts[1..], sep) == parts[0] + (sep + Join(parts[1..], sep));
      } else {
        JoinContainsEach(parts[1..], sep, i - 1);
        ContainsExtended(Join(parts[1..], sep), parts[0] + sep, parts[i]);
      }
    }
  }

  function DigitChar(d: nat): (c: char)
    requires d < 10
    ensures IsDigit(c)
  {
    ('0' as int + d) as char
  }

  /** The decimal rendering of n, as `${n}` produces it. */
  function NatToString(n: nat): (r: string)
    ensures r != [] && forall i :: 0 <= i < |r| ==> IsDigit(r[i])
    ensures |r| > 1 ==> r[0] != '0'
    decreases n
  {
    if n < 10 then [DigitChar(n)] else NatToString(n / 10) + [DigitChar(n % 10)]
  }

  /** The number a string of decimal digits denotes. */
  function DigitsValue(s: string): nat
    requires forall i :: 0 <= i < |s| ==> IsDigit(s[i])
  {
    if s == [] then 0
    else
      assert IsDigit(s[|s| - 1]);
      DigitsValue(s[..|s| - 1]) * 10 + (s[|s| - 1] as int - '0' as int)
  }

  /** Reading back the rendering of a count gives the count. */
  lemma {:induction false} NatToStringRoundTrip(n: nat)
    ensures DigitsValue(NatToString(n)) == n
    decreases n
  {
    if n >= 10 {
      NatToStringRoundTrip(n / 10);
      var r := NatToString(n);
      assert r[..|r| - 1] == NatToString(n / 10);
    }
  }
}
