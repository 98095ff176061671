/**
 * The QString operations the downloader relies on, over `seq<char>`:
 * `contains`, `trimmed`, `replace`, `split("/").last()`, `QStringList::join`,
 * `toInt`, `toDouble` on a plain decimal, `QString::number` and the
 * truncating `static_cast<int>` of a double.
 */
module Text {

  // ---------------------------------------------------------------- characters

  predicate IsDigit(c: char) { '0' <= c <= '9' }

  /** `\s` of a Perl-compatible regular expression without Unicode properties:
      space, tab, line feed, vertical tab, form feed, carriage return. */
  predicate IsRegexSpace(c: char) { c == ' ' || '\t' <= c <= '\r' }

  /** QChar::isSpace: the ASCII white space, NEL, NBSP and the Unicode separators. */
  predicate IsSpace(c: char)
  {
    || IsRegexSpace(c)
    || c == '\U{0085}' || c == '\U{00A0}' || c == '\U{1680}'
    || '\U{2000}' <= c <= '\U{200A}'
    || c == '\U{2028}' || c == '\U{2029}' || c == '\U{202F}' || c == '\U{205F}' || c == '\U{3000}'
  }

  /** `.` of a Perl-compatible regular expression: anything but a line feed. */
  predicate NotNewline(c: char) { c != '\n' }

  /** Length of the longest prefix of `s` whose characters all satisfy `p`:
      what a greedy `p*` consumes. */
  function Span(s: string, p: char -> bool): (n: nat)
    ensures n <= |s|
    ensures forall k :: 0 <= k < n ==> p(s[k])
    ensures n < |s| ==> !p(s[n])
  {
    if |s| > 0 && p(s[0]) then 1 + Span(s[1..], p) else 0
  }

  /** A greedy run stops exactly where its characters stop satisfying `p`. */
  lemma {:induction false} SpanOfPrefix(a: string, b: string, p: char -> bool)
    requires forall k :: 0 <= k < |a| ==> p(a[k])
    requires b == [] || !p(b[0])
    ensures Span(a + b, p) == |a|
  {
    if a != [] {
      assert (a + b)[1..] == a[1..] + b;
      SpanOfPrefix(a[1..], b, p);
    }
  }

  // ---------------------------------------------------------------- searching

  predicate StartsWith(s: string, prefix: string)
  {
    |prefix| <= |s| && s[..|prefix|] == prefix
  }

  /** A concatenation starts with its first part, and dropping that part leaves the second. */
  lemma ConcatParts(a: string, b: string)
    ensures StartsWith(a + b, a) && (a + b)[|a|..] == b
  {
    assert (a + b)[..|a|] == a;
  }

  predicate OccursAt(s: string, t: string, i: int)
  {
    0 <= i && i + |t| <= |s| && s[i..i + |t|] == t
  }

  /** QString::contains, case-sensitive. */
  predicate Contains(s: string, t: string)
  {
    exists i :: 0 <= i <= |s| - |t| && OccursAt(s, t, i)
  }

  lemma ContainsWitness(s: string, t: string, i: int)
    requires OccursAt(s, t, i)
    ensures Contains(s, t)
  {
  }

  /** A string cannot contain `t` when `t`'s first character does not occur
      early enough in it. */
  lemma NotContainsByFirstChar(s: string, t: string)
    requires |t| > 0
    requires forall k :: 0 <= k <= |s| - |t| ==> s[k] != t[0]
    ensures !Contains(s, t)
  {
    forall i | 0 <= i <= |s| - |t|
      ensures !OccursAt(s, t, i)
    {
      assert s[i..i + |t|][0] == s[i];
    }
  }

  /** Peeling a common first character off a string and a prefix. */
  lemma StartsWithTail(s: string, p: string)
    requires |s| > 0 && |p| > 0 && s[0] == p[0]
    ensures StartsWith(s, p) <==> StartsWith(s[1..], p[1..])
  {
    if |p| <= |s| {
      assert s[..|p|] == [s[0]] + s[1..][..|p| - 1];
      assert p == [p[0]] + p[1..];
    }
  }

  function AsciiLower(c: char): (d: char)
    ensures 'A' <= c <= 'Z' ==> 'a' <= d <= 'z' && d as int - c as int == 32
    ensures !('A' <= c <= 'Z') ==> d == c
  {
    if 'A' <= c <= 'Z' then (c as int + 32) as char else c
  }

  function Lower(s: string): (r: string)
    ensures |r| == |s|
    ensures forall k :: 0 <= k < |s| ==> r[k] == AsciiLower(s[k])
  {
    seq(|s|, k requires 0 <= k < |s| => AsciiLower(s[k]))
  }

  /** QString::contains with Qt::CaseInsensitive, folding ASCII letters only. */
  predicate ContainsIgnoreCase(s: string, t: string)
  {
    Contains(Lower(s), Lower(t))
  }

  /** A case-sensitive occurrence is also a case-insensitive one. */
  lemma ContainsImpliesIgnoreCase(s: string, t: string)
    requires Contains(s, t)
    ensures ContainsIgnoreCase(s, t)
  {
    var i :| 0 <= i <= |s| - |t| && OccursAt(s, t, i);
    assert Lower(s)[i..i + |t|] == Lower(t);
    ContainsWitness(Lower(s), Lower(t), i);
  }

  // ---------------------------------------------------------------- trimming

  predicate AllSpace(s: string)
  {
    forall k :: 0 <= k < |s| ==> IsSpace(s[k])
  }

  /** Where QString::trimmed cuts: `s[..lo]` and `s[hi..]` are white space,
      and the kept part neither starts nor ends with white space. */
  function TrimBounds(s: string): (b: (nat, nat))
    ensures b.0 <= b.1 <= |s|
    ensures AllSpace(s[..b.0]) && AllSpace(s[b.1..])
    ensures b.0 < b.1 ==> !IsSpace(s[b.0]) && !IsSpace(s[b.1 - 1])
    ensures b.0 == b.1 ==> AllSpace(s)
    ensures forall k :: 0 <= k < b.0 ==> IsSpace(s[k])
    ensures forall k :: b.1 <= k < |s| ==> IsSpace(s[k])
  {
    var lo := Span(s, IsSpace);
    var hi := lo + TrimmedEnd(s[lo..]);
    assert forall k :: hi <= k < |s| ==> s[k] == s[lo..][k - lo];
    (lo, hi)
  }

  /** Length of `s` without its trailing white space. */
  function TrimmedEnd(s: string): (n: nat)
    ensures n <= |s|
    ensures AllSpace(s[n..])
    ensures n > 0 ==> !IsSpace(s[n - 1])
  {
    if |s| > 0 && IsSpace(s[|s| - 1]) then
      var n := TrimmedEnd(s[..|s| - 1]);
      assert s[n..] == s[..|s| - 1][n..] + [s[|s| - 1]];
      n
    else |s|
  }

  /** QString::trimmed. */
  function Trimmed(s: string): (r: string)
    ensures r == [] <==> AllSpace(s)
    ensures r != [] ==> !IsSpace(r[0]) && !IsSpace(r[|r| - 1])
    ensures exists lo :: 0 <= lo <= |s| - |r| && r == s[lo..lo + |r|] && AllSpace(s[..lo]) && AllSpace(s[lo + |r|..])
  {
    var b := TrimBounds(s);
    assert s[b.0..b.1] == s[b.0..b.0 + (b.1 - b.0)];
    s[b.0..b.1]
  }

  /** Trimming a string that neither starts nor ends with white space keeps it. */
  lemma TrimmedKeepsTrimmed(s: string)
    requires s == [] || (!IsSpace(s[0]) && !IsSpace(s[|s| - 1]))
    ensures Trimmed(s) == s
  {
    var b := TrimBounds(s);
  }

  /** Trimming twice is trimming once. */
  lemma TrimmedIdempotent(s: string)
    ensures Trimmed(Trimmed(s)) == Trimmed(s)
  {
    TrimmedKeepsTrimmed(Trimmed(s));
  }

  // ---------------------------------------------------------------- replacing

  /** QString::replace(before, after): every occurrence of `before`, scanned
      left to right without overlaps, becomes `after`; an empty `before`
      matches before every character and at the end. */
  function ReplaceAll(s: string, before: string, after: string): string
    decreases |s|
  {
    if before == [] then
      (if after == [] then s else Interleave(s, after))
    else if StartsWith(s, before) then
      after + ReplaceAll(s[|before|..], before, after)
    else if s == [] then
      []
    else
      [s[0]] + ReplaceAll(s[1..], before, after)
  }

  /** `sep` before every character of `s` and after the last one. */
  function Interleave(s: string, sep: string): (r: string)
    ensures |r| == |s| + (|s| + 1) * |sep|
  {
    if s == [] then sep else sep + [s[0]] + Interleave(s[1..], sep)
  }

  predicate Disjoint(a: string, b: string)
  {
    forall i, j :: 0 <= i < |a| && 0 <= j < |b| ==> a[i] != b[j]
  }

  /** A prefix made only of characters that `after` never uses is not
      created by the replacement. */
  lemma {:induction false} ReplacedPrefix(t: string, before: string, after: string, q: string)
    requires before != [] && after != []
    requires Disjoint(q, after)
    requires !StartsWith(t, q)
    ensures !StartsWith(ReplaceAll(t, before, after), q)
    decreases |t|
  {
    var r := ReplaceAll(t, before, after);
    if StartsWith(t, before) {
      assert r[0] == after[0];
    } else if t == [] {
    } else {
      var rest := ReplaceAll(t[1..], before, after);
      assert r == [t[0]] + rest;
      if t[0] == q[0] {
        StartsWithTail(t, q);
        ReplacedPrefix(t[1..], before, after, q[1..]);
        StartsWithTail(r, q);
      }
    }
  }

  /** The masking property: when `after` shares no character with a
      non-empty `before`, no occurrence of `before` is left in the result. */
  lemma {:induction false} ReplaceAllRemoves(s: string, before: string, after: string)
    requires before != [] && after != []
    requires Disjoint(before, after)
    ensures !Contains(ReplaceAll(s, before, after), before)
    decreases |s|
  {
    var r := ReplaceAll(s, before, after);
    if StartsWith(s, before) {
      var rest := ReplaceAll(s[|before|..], before, after);
      assert r == after + rest;
      ReplaceAllRemoves(s[|before|..], before, after);
      forall i | 0 <= i <= |r| - |before|
        ensures !OccursAt(r, before, i)
      {
        if i < |after| {
          assert r[i..i + |before|][0] == after[i];
        } else {
          assert r[i..i + |before|] == rest[i - |after|..i - |after| + |before|];
          assert !OccursAt(rest, before, i - |after|);
        }
      }
    } else if s != [] {
      var rest := ReplaceAll(s[1..], before, after);
      assert r == [s[0]] + rest;
      ReplaceAllRemoves(s[1..], before, after);
      forall i | 0 <= i <= |r| - |before|
        ensures !OccursAt(r, before, i)
      {
        if i > 0 {
          assert r[i..i + |before|] == rest[i - 1..i - 1 + |before|];
          assert !OccursAt(rest, before, i - 1);
        } else {
          assert r[..|before|] == r[0..|before|];
          if s[0] == before[0] {
            StartsWithTail(s, before);
            ReplacedPrefix(s[1..], before, after, before[1..]);
            StartsWithTail(r, before);
          }
        }
      }
    }
  }

  /** Any occurrence of a non-empty `before` leaves a copy of `after` behind. */
  lemma {:induction false} ReplaceAllLeavesReplacement(s: string, before: string, after: string)
    requires before != [] && Contains(s, before)
    ensures Contains(ReplaceAll(s, before, after), after)
    decreases |s|
  {
    var r := ReplaceAll(s, before, after);
    if StartsWith(s, before) {
      ContainsWitness(r, after, 0);
    } else {
      var i :| 0 <= i <= |s| - |before| && OccursAt(s, before, i);
      assert i != 0;
      assert s[1..][i - 1..i - 1 + |before|] == s[i..i + |before|];
      ContainsWitness(s[1..], before, i - 1);
      ReplaceAllLeavesReplacement(s[1..], before, after);
      var rest := ReplaceAll(s[1..], before, after);
      var j :| 0 <= j <= |rest| - |after| && OccursAt(rest, after, j);
      assert r == [s[0]] + rest;
      assert r[j + 1..j + 1 + |after|] == rest[j..j + |after|];
      ContainsWitness(r, after, j + 1);
    }
  }

  // ---------------------------------------------------------------- lists and paths

  /** QStringList::join(sep). */
  function Join(parts: seq<string>, sep: string): string
  {
    if |parts| == 0 then ""
    else if |parts| == 1 then parts[0]
    else parts[0] + sep + Join(parts[1..], sep)
  }

  /** Every element of the list appears in the joined string. */
  lemma {:induction false} JoinContainsPart(parts: seq<string>, sep: string, k: nat)
    requires k < |parts|
    ensures Contains(Join(parts, sep), parts[k])
  {
    var j := Join(parts, sep);
    if |parts| == 1 {
      ContainsWitness(j, parts[k], 0);
    } else if k == 0 {
      assert j[0..|parts[0]|] == parts[0];
      ContainsWitness(j, parts[0], 0);
    } else {
      JoinContainsPart(parts[1..], sep, k - 1);
      var rest := Join(parts[1..], sep);
      var i :| 0 <= i <= |rest| - |parts[k]| && OccursAt(rest, parts[k], i);
      var off := |parts[0]| + |sep|;
      assert j == parts[0] + sep + rest;
      assert j[off + i..off + i + |parts[k]|] == rest[i..i + |parts[k]|];
      ContainsWitness(j, parts[k], off + i);
    }
  }

  /** Where the '/'-separated segment ending at `n` starts: just after the
      last '/' before `n`, or 0. */
  function SegmentStart(path: string, n: nat): (i: nat)
    requires n <= |path|
    ensures i <= n
    ensures forall k :: i <= k < n ==> path[k] != '/'
    ensures i > 0 ==> path[i - 1] == '/'
  {
    if n == 0 then 0
    else if path[n - 1] == '/' then n
    else SegmentStart(path, n - 1)
  }

  /** `split("/").last()`: the text after the last '/', or all of it. */
  function LastSegment(path: string): (r: string)
    ensures |r| <= |path| && r == path[|path| - |r|..]
    ensures forall k :: 0 <= k < |r| ==> r[k] != '/'
    ensures |r| < |path| ==> path[|path| - |r| - 1] == '/'
  {
    path[SegmentStart(path, |path|)..]
  }

  // ---------------------------------------------------------------- numbers

  predicate AllDigits(s: string)
  {
    forall k :: 0 <= k < |s| ==> IsDigit(s[k])
  }

  /** The maximal run of digits at the start of `s`: what a greedy `\d*` consumes. */
  function Digits(s: string): (r: string)
    ensures AllDigits(r) && |r| <= |s| && r == s[..|r|]
    ensures |r| < |s| ==> !IsDigit(s[|r|])
  {
    if |s| > 0 && IsDigit(s[0]) then [s[0]] + Digits(s[1..]) else []
  }

  /** A run of digits followed by a non-digit is read whole. */
  lemma {:induction false} DigitsOfPrefix(whole: string, rest: string)
    requires AllDigits(whole)
    requires rest == [] || !IsDigit(rest[0])
    ensures Digits(whole + rest) == whole
  {
    if whole != [] {
      assert (whole + rest)[1..] == whole[1..] + rest;
      DigitsOfPrefix(whole[1..], rest);
    }
  }

  function DigitValue(c: char): nat
    requires IsDigit(c)
  {
    c as int - '0' as int
  }

  /** The value of a string of decimal digits. */
  function DigitsValue(s: string): nat
    requires AllDigits(s)
  {
    if s == [] then 0 else 10 * DigitsValue(s[..|s| - 1]) + DigitValue(s[|s| - 1])
  }

  function Pow10(n: nat): (r: nat)
    ensures r >= 1
  {
    if n == 0 then 1 else 10 * Pow10(n - 1)
  }

  /** A run of n digits is worth less than 10^n. */
  lemma {:induction false} DigitsBelowPow10(s: string)
    requires AllDigits(s)
    ensures DigitsValue(s) < Pow10(|s|)
  {
    if s != [] {
      DigitsBelowPow10(s[..|s| - 1]);
    }
  }

  /** A proper fraction of naturals lies in [0, 1). */
  lemma FractionBelowOne(q: nat, p: nat)
    requires q < p
    ensures 0.0 <= q as real / p as real < 1.0
  {
    assert q as real < p as real;
  }

  /** `toDouble` of "int.frac", as an exact real: the integer part plus a
      fraction below one, and exactly the integer part without a fraction. */
  function DecimalValue(whole: string, fraction: string): (r: real)
    requires AllDigits(whole) && AllDigits(fraction)
    ensures DigitsValue(whole) as real <= r < DigitsValue(whole) as real + 1.0
    ensures fraction == [] ==> r == DigitsValue(whole) as real
  {
    DigitsBelowPow10(fraction);
    FractionBelowOne(DigitsValue(fraction), Pow10(|fraction|));
    DigitsValue(whole) as real + DigitsValue(fraction) as real / Pow10(|fraction|) as real
  }

  /** QString::toInt on a run of digits: values beyond a 32-bit int fail, and
      a failed conversion yields 0. */
  function ToIntOrZero(v: nat): (r: nat)
    ensures v <= 0x7FFF_FFFF ==> r == v
    ensures v > 0x7FFF_FFFF ==> r == 0
    ensures r <= 0x7FFF_FFFF
  {
    if v <= 0x7FFF_FFFF then v else 0
  }

  /** The decimal digits of `n`, no leading zeros (QString::number). */
  function NatToString(n: nat): string
  {
    var last := ('0' as int + n % 10) as char;
    if n < 10 then [last] else NatToString(n / 10) + [last]
  }

  /** The digits of `n` read back as `n`, with no leading zero. */
  lemma {:induction false} NatToStringDigits(n: nat)
    ensures var r := NatToString(n);
      |r| >= 1 && AllDigits(r) && DigitsValue(r) == n && (|r| > 1 ==> r[0] != '0')
  {
    var last := ('0' as int + n % 10) as char;
    if n < 10 {
      assert DigitsValue([last]) == DigitsValue([]) * 10 + DigitValue(last);
    } else {
      NatToStringDigits(n / 10);
      var r := NatToString(n);
      assert r[..|r| - 1] == NatToString(n / 10);
    }
  }

  /** QString::number / QString::arg of an int. */
  function IntToString(n: int): string
  {
    if n < 0 then "-" + NatToString(-n) else NatToString(n)
  }

  /** A minus sign exactly for negative numbers, then the digits of the
      magnitude. */
  lemma IntToStringDigits(n: int)
    ensures var r := IntToString(n);
      && |r| >= 1
      && (n < 0 <==> r[0] == '-')
      && (n >= 0 ==> AllDigits(r) && DigitsValue(r) == n)
      && (n < 0 ==> AllDigits(r[1..]) && DigitsValue(r[1..]) == -n)
  {
    if n < 0 {
      NatToStringDigits(-n);
      assert IntToString(n)[1..] == NatToString(-n);
    } else {
      NatToStringDigits(n);
    }
  }

  /** Reading the digits back gives the number. */
  lemma IntToStringInjective(m: int, n: int)
    requires IntToString(m) == IntToString(n)
    ensures m == n
  {
    IntToStringDigits(m);
    IntToStringDigits(n);
    if m < 0 {
      assert IntToString(m)[1..] == IntToString(n)[1..];
    }
  }

  /** `static_cast<int>` of a double: truncation toward zero. */
  function Trunc(x: real): (r: int)
    ensures x >= 0.0 ==> r >= 0 && r as real <= x < r as real + 1.0
    ensures x < 0.0 ==> r <= 0 && r as real - 1.0 < x <= r as real
  {
    if x >= 0.0 then x.Floor else -((-x).Floor)
  }

  /** Truncation preserves order. */
  lemma TruncMonotone(x: real, y: real)
    requires x <= y
    ensures Trunc(x) <= Trunc(y)
  {
  }
}
