/**
 * The line protocol of yt-dlp's standard output as the queue reads it:
 * the four regular expressions of the queue's output handler written as
 * explicit string predicates, the fragment-based overall-progress formula,
 * and what one stdout chunk does to the current download.
 *
 * A regular expression search tries start positions from left to right and
 * takes the first one where the pattern matches (FirstMatch); at that start
 * every pattern here is deterministic except the greedy `.*` of the fragment
 * pattern, which settles on the LAST `(frag I/T)` suffix it can reach
 * (LastMatch).
 */
module ProgressParser {
  import opened Common
  import opened Text

  const DownloadTag := "[download]"
  const HlsTotalTag := "[hlsnative] Total fragments: "
  const DestinationTag := "[download] Destination: "
  const FragTag := "(frag "

  /** A pattern matched at position `start`, capturing `value`. */
  datatype Found<T> = Found(start: nat, value: T)

  /** The leftmost position `j >= i` at which `at` matches. */
  function FirstMatch<T>(s: string, i: nat, at: string -> Option<T>): (r: Option<Found<T>>)
    requires i <= |s|
    ensures r.Some? ==> i <= r.value.start <= |s| && at(s[r.value.start..]) == Some(r.value.value)
    ensures r.Some? ==> forall k :: i <= k < r.value.start ==> at(s[k..]).None?
    ensures r.None? ==> forall k :: i <= k <= |s| ==> at(s[k..]).None?
    decreases |s| - i
  {
    match at(s[i..])
    case Some(v) => Some(Found(i, v))
    case None => if i == |s| then None else FirstMatch(s, i + 1, at)
  }

  /** The rightmost position `j <= k` at which `at` matches: where a greedy
      `.*` that may run up to position `k` hands over to the rest of the pattern. */
  function LastMatch<T>(s: string, k: nat, at: string -> Option<T>): (r: Option<Found<T>>)
    requires k <= |s|
    ensures r.Some? ==> r.value.start <= k && at(s[r.value.start..]) == Some(r.value.value)
    ensures r.Some? ==> forall j :: r.value.start < j <= k ==> at(s[j..]).None?
    ensures r.None? ==> forall j :: 0 <= j <= k ==> at(s[j..]).None?
  {
    match at(s[k..])
    case Some(v) => Some(Found(k, v))
    case None => if k == 0 then None else LastMatch(s, k - 1, at)
  }

  // ---------------------------------------------------------------- anchored pieces

  /** Text a `\d+` group captured (or the empty text of an absent decimal part). */
  type DigitText = s: string | AllDigits(s)

  /** A captured percentage, as the digits before and after the decimal
      point, and the length of text the match used. */
  datatype Percent = Percent(whole: DigitText, fraction: DigitText, length: nat)

  /** `toDouble` of a captured percentage. */
  function PercentValue(whole: DigitText, fraction: DigitText): (v: real)
    ensures DigitsValue(whole) as real <= v < DigitsValue(whole) as real + 1.0
    ensures fraction == [] ==> v == DigitsValue(whole) as real
  {
    DecimalValue(whole, fraction)
  }

  /** The digits after a decimal point and the length of text matched. */
  datatype PercentTail = PercentTail(fraction: DigitText, length: nat)

  /** `(?:\.\d+)?%` at the start of `t`: '%' alone, or '.', a maximal digit
      run and '%'. */
  function PercentTailAt(t: string): (r: Option<PercentTail>)
    ensures r.Some? ==> 0 < r.value.length <= |t| && t[r.value.length - 1] == '%'
  {
    if t == [] then None
    else if t[0] == '%' then Some(PercentTail([], 1))
    else if t[0] != '.' then None
    else
      var fraction := Digits(t[1..]);
      var rest := t[1 + |fraction|..];
      if fraction != [] && rest != [] && rest[0] == '%' then Some(PercentTail(fraction, |fraction| + 2))
      else None
  }

  /** `(\d+(?:\.\d+)?)%` at the start of `t`: a maximal digit run, optionally
      a '.' and a second maximal digit run, then '%'. */
  function NumberPercentAt(t: string): (r: Option<Percent>)
    ensures r.Some? ==> r.value.whole != [] && 0 < r.value.length <= |t| && t[r.value.length - 1] == '%'
  {
    var whole := Digits(t);
    if whole == [] then None
    else
      match PercentTailAt(t[|whole|..])
      case None => None
      case Some(tail) => Some(Percent(whole, tail.fraction, |whole| + tail.length))
  }

  /** `\[download\]\s+(\d+(?:\.\d+)?)%` at the start of `s`. */
  function PercentAt(s: string): (r: Option<Percent>)
    ensures r.Some? ==> StartsWith(s, DownloadTag) && |DownloadTag| < r.value.length <= |s|
    ensures r.Some? ==> r.value.whole != [] && s[r.value.length - 1] == '%'
  {
    if !StartsWith(s, DownloadTag) then None
    else
      var t := s[|DownloadTag|..];
      var w := Span(t, IsRegexSpace);
      if w == 0 then None
      else
        match NumberPercentAt(t[w..])
        case None => None
        case Some(n) => Some(Percent(n.whole, n.fraction, |DownloadTag| + w + n.length))
  }

  /** The captured digits of a fragment position `I/T`. */
  datatype FragPos = FragPos(index: DigitText, total: DigitText)

  /** `(\d+)/(\d+)\)` at the start of `t`. */
  function FragNumbersAt(t: string): (r: Option<FragPos>)
    ensures r.Some? ==> r.value.index != [] && r.value.total != []
  {
    var index := Digits(t);
    var after := t[|index|..];
    if index == [] || after == [] || after[0] != '/' then None
    else
      var total := Digits(after[1..]);
      var rest := after[1 + |total|..];
      if total == [] || rest == [] || rest[0] != ')' then None
      else Some(FragPos(index, total))
  }

  /** `\(frag (\d+)/(\d+)\)` at the start of `s`. */
  function FragSuffixAt(s: string): (r: Option<FragPos>)
    ensures r.Some? ==> StartsWith(s, FragTag)
  {
    if !StartsWith(s, FragTag) then None else FragNumbersAt(s[|FragTag|..])
  }

  /** The three groups of the fragment pattern: the percentage (as its two
      digit runs), the fragment index and the fragment count. */
  datatype FragmentCapture = FragmentCapture(whole: DigitText, fraction: DigitText, index: DigitText, total: DigitText)

  /** `\[download\]\s+(\d+(?:\.\d+)?)%.*\(frag (\d+)/(\d+)\)` at the start of `s`:
      the percentage part, then the last `(frag I/T)` reachable without
      crossing a line feed. */
  function FragmentAt(s: string): (r: Option<FragmentCapture>)
    ensures r.Some? ==> PercentAt(s).Some? && r.value.whole == PercentAt(s).value.whole
                        && r.value.fraction == PercentAt(s).value.fraction
  {
    match PercentAt(s)
    case None => None
    case Some(pct) =>
      var rest := s[pct.length..];
      match LastMatch(rest, Span(rest, NotNewline), FragSuffixAt)
      case None => None
      case Some(found) => Some(FragmentCapture(pct.whole, pct.fraction, found.value.index, found.value.total))
  }

  /** The captures converted as the source converts them: the percentage with
      `toDouble`, the fragment numbers with `toInt`. */
  datatype FragmentReport = FragmentReport(percent: real, index: int, total: int)

  function Reading(c: FragmentCapture): (f: FragmentReport)
    ensures DigitsValue(c.whole) as real <= f.percent < DigitsValue(c.whole) as real + 1.0
    ensures DigitsValue(c.index) <= 0x7FFF_FFFF ==> f.index == DigitsValue(c.index)
    ensures DigitsValue(c.index) > 0x7FFF_FFFF ==> f.index == 0
    ensures DigitsValue(c.total) <= 0x7FFF_FFFF ==> f.total == DigitsValue(c.total)
    ensures DigitsValue(c.total) > 0x7FFF_FFFF ==> f.total == 0
  {
    FragmentReport(PercentValue(c.whole, c.fraction), ToIntOrZero(DigitsValue(c.index)), ToIntOrZero(DigitsValue(c.total)))
  }

  /** `\[hlsnative\] Total fragments: (\d+)` at the start of `s`. */
  function TotalAt(s: string): (r: Option<int>)
    ensures r.Some? ==> StartsWith(s, HlsTotalTag) && r.value >= 0
  {
    if !StartsWith(s, HlsTotalTag) then None
    else
      var digits := Digits(s[|HlsTotalTag|..]);
      if digits == [] then None else Some(ToIntOrZero(DigitsValue(digits)))
  }

  /** `\[download\] Destination: (.+)` at the start of `s`: the rest of the line. */
  function DestinationAt(s: string): (r: Option<string>)
    ensures r.Some? ==> r.value != [] && '\n' !in r.value
    ensures r.Some? ==> StartsWith(s, DestinationTag) && StartsWith(s[|DestinationTag|..], r.value)
  {
    if !StartsWith(s, DestinationTag) then None
    else
      var rest := s[|DestinationTag|..];
      var n := Span(rest, NotNewline);
      if n == 0 then None
      else
        assert '\n' !in rest[..n] by {
          forall k | 0 <= k < n ensures rest[..n][k] != '\n' { assert rest[..n][k] == rest[k]; }
        }
        Some(rest[..n])
  }

  // ---------------------------------------------------------------- searching a chunk

  /** The fragment-progress line, if the chunk has one. */
  function FragmentProgress(line: string): Option<FragmentCapture>
  {
    match FirstMatch(line, 0, FragmentAt)
    case Some(found) => Some(found.value)
    case None => None
  }

  /** The simple percentage `[download] N%`, if the chunk has one. */
  function SimpleProgress(line: string): (r: Option<real>)
    ensures r.Some? ==> r.value >= 0.0
  {
    match FirstMatch(line, 0, PercentAt)
    case Some(found) => Some(PercentValue(found.value.whole, found.value.fraction))
    case None => None
  }

  /** The announced fragment count `[hlsnative] Total fragments: N`. */
  function TotalFragments(line: string): Option<int>
  {
    match FirstMatch(line, 0, TotalAt)
    case Some(found) => Some(found.value)
    case None => None
  }

  /** The announced output path `[download] Destination: path`. */
  function Destination(line: string): Option<string>
  {
    match FirstMatch(line, 0, DestinationAt)
    case Some(found) => Some(found.value)
    case None => None
  }

  /** yt-dlp's own completion banner, "100% of ... in ...". */
  predicate IsCompletionBanner(line: string)
  {
    Contains(line, "100% of") && Contains(line, "in ")
  }

  // ---------------------------------------------------------------- the formula

  /** Overall percentage from a fragment report:
      trunc(((I - 1) + P / 100) / T * 100), capped at 100. */
  function FragmentOverall(f: FragmentReport): (r: int)
    requires f.total > 0
    ensures var t := Trunc(((f.index - 1) as real + f.percent / 100.0) / f.total as real * 100.0);
      (t < 100 ==> r == t) && (t >= 100 ==> r == 100)
  {
    var overall := ((f.index - 1) as real + f.percent / 100.0) / f.total as real * 100.0;
    var truncated := Trunc(overall);
    if truncated < 100 then truncated else 100
  }

  /** The monotonicity guard: a fragment report is accepted only if it does
      not lower the current progress. */
  function AcceptFragment(progress: int, f: FragmentReport): (r: Option<int>)
    requires f.total > 0
    ensures r.Some? ==> progress <= r.value <= 100
    ensures r.None? ==> FragmentOverall(f) < progress
  {
    var overall := FragmentOverall(f);
    if overall >= progress then Some(overall) else None
  }

  // ---------------------------------------------------------------- one stdout chunk

  /** Everything the output handler looks for in one trimmed stdout line,
      each pattern searched once. */
  datatype LineReading = LineReading(
    fragment: Option<FragmentCapture>,
    percent: Option<real>,
    announced: Option<int>,
    destination: Option<string>,
    banner: bool)

  /** The four searches and the banner test on one line. */
  function ReadLine(line: string): LineReading
  {
    LineReading(FragmentProgress(line), SimpleProgress(line), TotalFragments(line), Destination(line), IsCompletionBanner(line))
  }

  /** The `downloadProgress` value a reading reports: the fragment path when
      the fragment pattern matched (guarded), else the simple path
      (unguarded, uncapped). */
  function ReportOf(progress: int, r: LineReading): (p: Option<int>)
    ensures p.Some? && r.fragment.Some? ==> progress <= p.value <= 100
    ensures p.Some? && r.fragment.None? ==> r.percent.Some? && p.value == Trunc(r.percent.value)
  {
    match r.fragment
    case Some(c) =>
      var f := Reading(c);
      if f.total > 0 then AcceptFragment(progress, f) else None
    case None =>
      match r.percent
      case Some(v) => Some(Trunc(v))
      case None => None
  }

  /** The progress after the report alone: the reported value if any. */
  function ReportedProgress(progress: int, r: LineReading): int
  {
    match ReportOf(progress, r)
    case Some(p) => p
    case None => progress
  }

  /** The current download's progress after a reading: the reported value,
      then 100 if the line is the completion banner. */
  function ProgressOf(progress: int, r: LineReading): int
  {
    if r.banner then 100 else ReportedProgress(progress, r)
  }

  /** The stored fragment count after the announcement alone: an
      announcement overwrites it. */
  function AnnouncedTotal(stored: int, r: LineReading): int
  {
    match r.announced
    case Some(n) => n
    case None => stored
  }

  /** The stored fragment count after the progress report alone: a
      fragment-progress line fills it only while it is still 0. */
  function ReportedTotal(stored: int, r: LineReading): int
  {
    match r.fragment
    case Some(c) =>
      var f := Reading(c);
      if f.total > 0 && stored == 0 then f.total else stored
    case None => stored
  }

  /** The stored fragment count after a reading: the announcement, then the
      progress report. */
  function TotalOf(stored: int, r: LineReading): int
  {
    ReportedTotal(AnnouncedTotal(stored, r), r)
  }

  /** The stored current fragment index after a reading. */
  function FragmentOf(stored: int, r: LineReading): int
  {
    match r.fragment
    case Some(c) =>
      var f := Reading(c);
      if f.total > 0 then f.index else stored
    case None => stored
  }

  /** The title after a reading: set only while empty, to the last
      '/'-separated segment of the destination path. */
  function TitleOf(title: string, r: LineReading): string
  {
    if title != "" then title
    else
      match r.destination
      case Some(path) => LastSegment(path)
      case None => title
  }

  /** The report of one non-empty, trimmed stdout chunk. */
  function ChunkReport(progress: int, line: string): (r: Option<int>)
    ensures r.Some? && FragmentProgress(line).Some? ==> progress <= r.value <= 100
    ensures r.Some? && FragmentProgress(line).None? ==> r.value >= 0
  {
    ReportOf(progress, ReadLine(line))
  }

  /** The progress after one stdout chunk. */
  function ChunkProgress(progress: int, line: string): int
  {
    ProgressOf(progress, ReadLine(line))
  }

  /** The stored fragment count after one stdout chunk. */
  function ChunkTotalFragments(stored: int, line: string): int
  {
    TotalOf(stored, ReadLine(line))
  }

  /** The stored current fragment index after one stdout chunk. */
  function ChunkCurrentFragment(stored: int, line: string): int
  {
    FragmentOf(stored, ReadLine(line))
  }

  /** The title after one stdout chunk. */
  function ChunkTitle(title: string, line: string): string
  {
    TitleOf(title, ReadLine(line))
  }
}
