/**
 * What the queue's stdout handling promises: the fragment formula is bounded
 * and monotone, the fragment path never lowers progress while the simple path
 * may, the completion banner forces 100, the title is set at most once, and
 * the two ways the fragment count is recorded.
 */
module ProgressProperties {
  import opened Common
  import opened Text
  import opened ProgressParser

  // ---------------------------------------------------------------- search helpers

  /** A pattern that matches at the start is what a search finds. */
  lemma FirstMatchAtStart<T>(s: string, at: string -> Option<T>)
    requires at(s).Some?
    ensures var r := FirstMatch(s, 0, at); r.Some? && r.value.start == 0 && r.value.value == at(s).value
  {
    assert s[0..] == s;
  }

  /** The last match position up to `k` is `m` when nothing matches after it. */
  lemma {:induction false} LastMatchIs<T>(s: string, k: nat, m: nat, at: string -> Option<T>)
    requires m <= k <= |s|
    requires at(s[m..]).Some?
    requires forall j :: m < j <= k ==> at(s[j..]).None?
    ensures var r := LastMatch(s, k, at); r.Some? && r.value.start == m && r.value.value == at(s[m..]).value
    decreases k - m
  {
    if k > m {
      LastMatchIs(s, k - 1, m, at);
    }
  }

  // ---------------------------------------------------------------- line shapes

  /** The optional decimal part of a captured number: nothing, or '.' and digits. */
  function PointText(fraction: string): string
  {
    if fraction == [] then "" else "." + fraction
  }

  /** '%', or a decimal point, digits and '%', is read as those digits. */
  lemma PercentTailShape(fraction: string, tail: string)
    requires AllDigits(fraction)
    ensures var r := PercentTailAt(PointText(fraction) + ("%" + tail));
            r.Some? && r.value.fraction == fraction && r.value.length == |PointText(fraction)| + 1
  {
    if fraction != [] {
      var rest := "%" + tail;
      assert PointText(fraction) + rest == "." + (fraction + rest);
      ConcatParts(".", fraction + rest);
      DigitsOfPrefix(fraction, rest);
      ConcatParts(fraction, rest);
    }
  }

  /** A number followed by '%' is read as that number. */
  lemma NumberPercentShape(whole: string, fraction: string, tail: string)
    requires whole != [] && AllDigits(whole) && AllDigits(fraction)
    ensures var r := NumberPercentAt(whole + (PointText(fraction) + ("%" + tail)));
            r.Some? && r.value.whole == whole && r.value.fraction == fraction
            && r.value.length == |whole| + |PointText(fraction)| + 1
  {
    var after := PointText(fraction) + ("%" + tail);
    assert after[0] == '%' || after[0] == '.';
    DigitsOfPrefix(whole, after);
    ConcatParts(whole, after);
    PercentTailShape(fraction, tail);
  }

  /** `[download]`, white space, a number and '%' is read as that number. */
  lemma PercentAtShape(ws: string, whole: string, fraction: string, tail: string)
    requires ws != [] && forall k :: 0 <= k < |ws| ==> IsRegexSpace(ws[k])
    requires whole != [] && AllDigits(whole) && AllDigits(fraction)
    ensures var r := PercentAt(DownloadTag + (ws + (whole + (PointText(fraction) + ("%" + tail)))));
            r.Some? && r.value.whole == whole && r.value.fraction == fraction
            && r.value.length == |DownloadTag| + |ws| + |whole| + |PointText(fraction)| + 1
  {
    var num := whole + (PointText(fraction) + ("%" + tail));
    ConcatParts(DownloadTag, ws + num);
    assert num[0] == whole[0];
    SpanOfPrefix(ws, num, IsRegexSpace);
    ConcatParts(ws, num);
    NumberPercentShape(whole, fraction, tail);
  }

  /** `I/T)` is read as the pair of digit runs. */
  lemma FragNumbersShape(index: string, total: string, tail: string)
    requires index != [] && AllDigits(index) && total != [] && AllDigits(total)
    ensures var r := FragNumbersAt(index + ("/" + (total + (")" + tail))));
            r.Some? && r.value.index == index && r.value.total == total
  {
    var rest := ")" + tail;
    var after := "/" + (total + rest);
    DigitsOfPrefix(index, after);
    ConcatParts(index, after);
    ConcatParts("/", total + rest);
    DigitsOfPrefix(total, rest);
    ConcatParts(total, rest);
  }

  /** `(frag I/T)` is read as the pair of digit runs. */
  lemma FragSuffixAtShape(index: string, total: string, tail: string)
    requires index != [] && AllDigits(index) && total != [] && AllDigits(total)
    ensures var r := FragSuffixAt(FragTag + (index + ("/" + (total + (")" + tail)))));
            r.Some? && r.value.index == index && r.value.total == total
  {
    ConcatParts(FragTag, index + ("/" + (total + (")" + tail))));
    FragNumbersShape(index, total, tail);
  }

  /** A fragment suffix starts with '('. */
  lemma FragSuffixNeedsParen(x: string)
    requires x == [] || x[0] != '('
    ensures FragSuffixAt(x).None?
  {
  }

  /** The text of a fragment suffix `(frag I/T)`. */
  function FragSuffixText(index: string, total: string): string
  {
    FragTag + (index + ("/" + (total + ")")))
  }

  /** No character of a fragment suffix after its first is '(' or a line feed. */
  lemma FragSuffixChars(index: string, total: string, k: int)
    requires AllDigits(index) && AllDigits(total)
    requires 0 <= k < |FragSuffixText(index, total)|
    ensures FragSuffixText(index, total)[k] != '\n'
    ensures k > 0 ==> FragSuffixText(index, total)[k] != '('
  {
    var s := FragSuffixText(index, total);
    var a := |FragTag|;
    var b := a + |index|;
    var c := b + 1 + |total|;
    if a <= k < b {
      assert s[k] == index[k - a];
    } else if b + 1 <= k < c {
      assert s[k] == total[k - b - 1];
    }
  }

  /** After the percentage, the greedy `.*` stops at a final `(frag I/T)`. */
  lemma FragmentTailShape(mid: string, index: string, total: string)
    requires index != [] && AllDigits(index) && total != [] && AllDigits(total)
    requires forall k :: 0 <= k < |mid| ==> mid[k] != '\n'
    ensures var tail := mid + FragSuffixText(index, total);
            var r := LastMatch(tail, Span(tail, NotNewline), FragSuffixAt);
            r.Some? && r.value.value.index == index && r.value.value.total == total
  {
    var suffix := FragSuffixText(index, total);
    var tail := mid + suffix;
    forall k | 0 <= k < |tail| ensures NotNewline(tail[k]) {
      if k >= |mid| {
        FragSuffixChars(index, total, k - |mid|);
      }
    }
    SpanOfPrefix(tail, [], NotNewline);
    assert tail + [] == tail;
    assert suffix == FragTag + (index + ("/" + (total + (")" + []))));
    FragSuffixAtShape(index, total, []);
    ConcatParts(mid, suffix);
    forall j | |mid| < j <= |tail| ensures FragSuffixAt(tail[j..]).None? {
      if j < |tail| {
        FragSuffixChars(index, total, j - |mid|);
        assert tail[j..][0] == suffix[j - |mid|];
      }
      FragSuffixNeedsParen(tail[j..]);
    }
    LastMatchIs(tail, |tail|, |mid|, FragSuffixAt);
  }

  /** The fragment pattern at a position is the percentage match followed by
      the last fragment suffix on the rest of the line. */
  lemma FragmentAtOf(s: string, tail: string)
    requires PercentAt(s).Some? && s[PercentAt(s).value.length..] == tail
    requires LastMatch(tail, Span(tail, NotNewline), FragSuffixAt).Some?
    ensures var m := LastMatch(tail, Span(tail, NotNewline), FragSuffixAt).value.value;
            var r := FragmentAt(s);
            r.Some? && r.value.whole == PercentAt(s).value.whole && r.value.fraction == PercentAt(s).value.fraction
            && r.value.index == m.index && r.value.total == m.total
  {
  }

  /** Dropping the first five parts of a right-nested concatenation. */
  lemma DropFive(a: string, b: string, c: string, d: string, e: string, f: string)
    ensures (a + (b + (c + (d + (e + f)))))[|a| + |b| + |c| + |d| + |e|..] == f
  {
    var s := a + (b + (c + (d + (e + f))));
    assert |s| == |a| + |b| + |c| + |d| + |e| + |f|;
    forall k | 0 <= k < |f| ensures s[|a| + |b| + |c| + |d| + |e| + k] == f[k] { }
  }

  /** A progress line whose only `(frag I/T)` ends it is a fragment report. */
  lemma FragmentLineShape(ws: string, whole: string, fraction: string, mid: string, index: string, total: string)
    requires ws != [] && forall k :: 0 <= k < |ws| ==> IsRegexSpace(ws[k])
    requires whole != [] && AllDigits(whole) && AllDigits(fraction)
    requires index != [] && AllDigits(index) && total != [] && AllDigits(total)
    requires forall k :: 0 <= k < |mid| ==> mid[k] != '\n'
    ensures var r := FragmentProgress(DownloadTag + (ws + (whole + (PointText(fraction) + ("%" + (mid + FragSuffixText(index, total)))))));
            r.Some? && r.value.whole == whole && r.value.fraction == fraction
            && r.value.index == index && r.value.total == total
  {
    var tail := mid + FragSuffixText(index, total);
    var s := DownloadTag + (ws + (whole + (PointText(fraction) + ("%" + tail))));
    PercentAtShape(ws, whole, fraction, tail);
    DropFive(DownloadTag, ws, whole, PointText(fraction), "%", tail);
    FragmentTailShape(mid, index, total);
    FragmentAtOf(s, tail);
    FirstMatchAtStart(s, FragmentAt);
  }

  /** A chunk that starts with a simple progress line reports that line. */
  lemma SimpleProgressAtStart(s: string)
    requires PercentAt(s).Some?
    ensures SimpleProgress(s) == Some(PercentValue(PercentAt(s).value.whole, PercentAt(s).value.fraction))
  {
    FirstMatchAtStart(s, PercentAt);
  }

  // ---------------------------------------------------------------- the formula

  /** With 1 <= I <= T and 0 <= P <= 100 the overall percentage lies in 0..100. */
  lemma FragmentOverallInRange(f: FragmentReport)
    requires 1 <= f.index <= f.total
    requires 0.0 <= f.percent <= 100.0
    ensures 0 <= FragmentOverall(f) <= 100
  {
    var overall := ((f.index - 1) as real + f.percent / 100.0) / f.total as real * 100.0;
    assert (f.index - 1) as real + f.percent / 100.0 >= 0.0;
    assert overall >= 0.0;
  }

  /** A later position in the same download never gives a smaller overall percentage. */
  lemma FragmentOverallMonotone(f: FragmentReport, g: FragmentReport)
    requires f.total == g.total > 0
    requires (f.index - 1) as real * 100.0 + f.percent <= (g.index - 1) as real * 100.0 + g.percent
    ensures FragmentOverall(f) <= FragmentOverall(g)
  {
    var t := f.total as real;
    var x := ((f.index - 1) as real + f.percent / 100.0) / t * 100.0;
    var y := ((g.index - 1) as real + g.percent / 100.0) / t * 100.0;
    assert x == ((f.index - 1) as real * 100.0 + f.percent) / t;
    assert y == ((g.index - 1) as real * 100.0 + g.percent) / t;
    DivideMonotone((f.index - 1) as real * 100.0 + f.percent, (g.index - 1) as real * 100.0 + g.percent, t);
    TruncMonotone(x, y);
  }

  lemma DivideMonotone(a: real, b: real, t: real)
    requires a <= b && t > 0.0
    ensures a / t <= b / t
  {
    assert b / t - a / t == (b - a) / t;
  }

  /** Half-way through fragment 2 of 4 is 37%; the start of fragment 2 is 25%
      and is then refused by the guard. */
  lemma FragmentOverallExample()
    ensures FragmentOverall(FragmentReport(50.0, 2, 4)) == 37
    ensures FragmentOverall(FragmentReport(0.0, 2, 4)) == 25
    ensures AcceptFragment(37, FragmentReport(0.0, 2, 4)) == None
    ensures AcceptFragment(30, FragmentReport(50.0, 2, 4)) == Some(37)
  {
    assert ((2 - 1) as real + 50.0 / 100.0) / 4 as real * 100.0 == 37.5;
    assert ((2 - 1) as real + 0.0 / 100.0) / 4 as real * 100.0 == 25.0;
  }

  // ---------------------------------------------------------------- parser precedence

  /** Every line the fragment pattern matches is also matched by the simple
      pattern, which is why the fragment pattern is tried first. */
  lemma FragmentLineIsAlsoSimple(line: string)
    requires FragmentProgress(line).Some?
    ensures SimpleProgress(line).Some?
  {
    var found := FirstMatch(line, 0, FragmentAt).value;
    assert FragmentAt(line[found.start..]).Some?;
    assert PercentAt(line[found.start..]).Some?;
  }

  /** A fragment-progress match needs a '(' after its start. */
  lemma FragmentNeedsParen(x: string)
    requires forall k :: 0 <= k < |x| ==> x[k] != '('
    ensures FragmentAt(x).None?
  {
    if PercentAt(x).Some? {
      var rest := x[PercentAt(x).value.length..];
      forall j | 0 <= j <= |rest| ensures FragSuffixAt(rest[j..]).None? {
        if j < |rest| {
          assert rest[j..][0] == x[PercentAt(x).value.length + j];
        }
        FragSuffixNeedsParen(rest[j..]);
      }
      var m := LastMatch(rest, Span(rest, NotNewline), FragSuffixAt);
      assert m.None?;
    }
  }

  /** Without a '(' in the chunk the fragment pattern cannot match. */
  lemma NoFragmentWithoutParen(line: string)
    requires forall k :: 0 <= k < |line| ==> line[k] != '('
    ensures FragmentProgress(line).None?
  {
    forall i | 0 <= i <= |line| ensures FragmentAt(line[i..]).None? {
      FragmentNeedsParen(line[i..]);
    }
  }

  // ---------------------------------------------------------------- progress

  /** On a fragment line with a positive count the report is exactly what the
      guard accepts. */
  lemma FragmentPathGuarded(progress: int, line: string)
    requires FragmentProgress(line).Some? && Reading(FragmentProgress(line).value).total > 0
    ensures ChunkReport(progress, line) == AcceptFragment(progress, Reading(FragmentProgress(line).value))
  {
  }

  /** The fragment path only reports values between the current progress and
      100, and a fragment line never lowers progress. */
  lemma FragmentPathNeverLowers(progress: int, line: string)
    requires FragmentProgress(line).Some?
    requires progress <= 100
    ensures ChunkReport(progress, line).Some? ==> progress <= ChunkReport(progress, line).value <= 100
    ensures progress <= ChunkProgress(progress, line) <= 100
  {
    var f := Reading(FragmentProgress(line).value);
    if f.total > 0 {
      assert ChunkReport(progress, line) == AcceptFragment(progress, f);
    } else {
      assert ChunkReport(progress, line) == None;
    }
  }

  /** The simple path assigns the truncated percentage unconditionally. */
  lemma SimplePathUnguarded(progress: int, line: string)
    requires FragmentProgress(line).None? && SimpleProgress(line).Some?
    requires !IsCompletionBanner(line)
    ensures ChunkReport(progress, line) == Some(Trunc(SimpleProgress(line).value))
    ensures ChunkProgress(progress, line) == Trunc(SimpleProgress(line).value)
  {
    assert ChunkReport(progress, line) == Some(Trunc(SimpleProgress(line).value));
  }

  /** The chunk "[download] N%". */
  function PlainPercentLine(digits: string): string
  {
    DownloadTag + (" " + (digits + "%"))
  }

  /** No character of "[download] N%" is '(' or 'i'. */
  lemma PlainPercentLineChars(digits: string, k: int)
    requires AllDigits(digits)
    requires 0 <= k < |PlainPercentLine(digits)|
    ensures PlainPercentLine(digits)[k] != '(' && PlainPercentLine(digits)[k] != 'i'
  {
    var line := PlainPercentLine(digits);
    if k < |DownloadTag| {
      assert line[k] == DownloadTag[k];
      assert forall j :: 0 <= j < |DownloadTag| ==> DownloadTag[j] != '(' && DownloadTag[j] != 'i';
    } else if |DownloadTag| + 1 <= k < |line| - 1 {
      assert line[k] == digits[k - |DownloadTag| - 1];
    }
  }

  /** "[download] N%" matches the simple pattern with N and no decimal part ... */
  lemma PlainPercentLineMatches(digits: string)
    requires digits != [] && AllDigits(digits)
    ensures var r := PercentAt(PlainPercentLine(digits)); r.Some? && r.value.whole == digits && r.value.fraction == []
  {
    var none: string := [];
    assert PlainPercentLine(digits) == DownloadTag + (" " + (digits + (PointText(none) + ("%" + none))));
    PercentAtShape(" ", digits, none, none);
  }

  /** ... so it reports N ... */
  lemma WholePercentReads(digits: string, line: string)
    requires digits != [] && AllDigits(digits)
    requires var r := PercentAt(line); r.Some? && r.value.whole == digits && r.value.fraction == []
    ensures SimpleProgress(line) == Some(DigitsValue(digits) as real)
  {
    SimpleProgressAtStart(line);
  }

  /** ... and no fragment-progress line ... */
  lemma PlainPercentLineNoFragment(digits: string)
    requires AllDigits(digits)
    ensures FragmentProgress(PlainPercentLine(digits)).None?
  {
    var line := PlainPercentLine(digits);
    forall k | 0 <= k < |line| ensures line[k] != '(' {
      PlainPercentLineChars(digits, k);
    }
    NoFragmentWithoutParen(line);
  }

  /** ... and not the completion banner. */
  lemma PlainPercentLineNoBanner(digits: string)
    requires AllDigits(digits)
    ensures !IsCompletionBanner(PlainPercentLine(digits))
  {
    var line := PlainPercentLine(digits);
    forall k | 0 <= k < |line| ensures line[k] != 'i' {
      PlainPercentLineChars(digits, k);
    }
    NotContainsByFirstChar(line, "in ");
  }

  /** So a plain "[download] N%" takes progress down to N, even below what
      the fragment path had reached (50% then "[download] 10%" gives 10). */
  lemma SimplePathCanLower(progress: int, digits: string)
    requires digits != [] && AllDigits(digits)
    ensures ChunkProgress(progress, PlainPercentLine(digits)) == DigitsValue(digits)
  {
    PlainPercentLineMatches(digits);
    WholePercentReads(digits, PlainPercentLine(digits));
    PlainPercentLineNoFragment(digits);
    PlainPercentLineNoBanner(digits);
    SimplePathUnguarded(progress, PlainPercentLine(digits));
  }

  /** A fragment-progress line `[download] P% ... (frag I/T)` with T > 0 is
      accepted exactly when its overall percentage does not lower progress. */
  lemma FragmentLineReport(progress: int, ws: string, whole: string, fraction: string, mid: string, index: string, total: string)
    requires ws != [] && forall k :: 0 <= k < |ws| ==> IsRegexSpace(ws[k])
    requires whole != [] && AllDigits(whole) && AllDigits(fraction)
    requires index != [] && AllDigits(index) && total != [] && AllDigits(total)
    requires forall k :: 0 <= k < |mid| ==> mid[k] != '\n'
    requires 0 < DigitsValue(total) <= 0x7FFF_FFFF && DigitsValue(index) <= 0x7FFF_FFFF
    ensures var line := DownloadTag + (ws + (whole + (PointText(fraction) + ("%" + (mid + FragSuffixText(index, total))))));
            var f := FragmentReport(DecimalValue(whole, fraction), DigitsValue(index), DigitsValue(total));
            ChunkReport(progress, line) == AcceptFragment(progress, f)
  {
    var line := DownloadTag + (ws + (whole + (PointText(fraction) + ("%" + (mid + FragSuffixText(index, total))))));
    FragmentLineShape(ws, whole, fraction, mid, index, total);
    assert Reading(FragmentProgress(line).value) == FragmentReport(DecimalValue(whole, fraction), DigitsValue(index), DigitsValue(total));
    FragmentPathGuarded(progress, line);
  }

  /** The completion banner sets progress to 100 whatever else the chunk says. */
  lemma BannerForces100(progress: int, line: string)
    requires Contains(line, "100% of") && Contains(line, "in ")
    ensures ChunkProgress(progress, line) == 100
  {
  }

  /** Every chunk leaves a non-negative progress non-negative. */
  lemma ProgressStaysNonNegative(progress: int, line: string)
    requires progress >= 0
    ensures ChunkProgress(progress, line) >= 0
  {
  }

  // ---------------------------------------------------------------- bookkeeping

  /** A `Total fragments: N` announcement overwrites the stored count. */
  lemma AnnouncementOverwritesTotal(stored: int, line: string)
    requires TotalFragments(line).Some? && FragmentProgress(line).None?
    ensures ChunkTotalFragments(stored, line) == TotalFragments(line).value
  {
  }

  /** A fragment-progress line records its count only while none is stored. */
  lemma FragmentLineFillsTotalOnce(stored: int, line: string)
    requires TotalFragments(line).None? && FragmentProgress(line).Some?
    ensures stored != 0 ==> ChunkTotalFragments(stored, line) == stored
    ensures stored == 0 && Reading(FragmentProgress(line).value).total > 0 ==>
              ChunkTotalFragments(stored, line) == Reading(FragmentProgress(line).value).total
  {
  }

  /** The current fragment follows every usable fragment report. */
  lemma CurrentFragmentFollowsReport(stored: int, line: string)
    requires FragmentProgress(line).Some?
    ensures var f := Reading(FragmentProgress(line).value);
            ChunkCurrentFragment(stored, line) == if f.total > 0 then f.index else stored
  {
  }

  // ---------------------------------------------------------------- title

  /** A title, once set, never changes. */
  lemma TitleSetOnce(title: string, line: string)
    requires title != ""
    ensures ChunkTitle(title, line) == title
  {
  }

  /** An empty title becomes the file name of the announced destination. */
  lemma TitleFromDestination(line: string)
    requires Destination(line).Some?
    ensures ChunkTitle("", line) == LastSegment(Destination(line).value)
    ensures '/' !in ChunkTitle("", line)
  {
  }
}
