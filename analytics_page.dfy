/** The analytics page's own computations on a fetched report: the search
    over the report's task rows, the completion-rate caption, the colour
    conversion used to draw a category in the PDF export, and the
    shortening of a task's description there. */
module AnalyticsPage {
  import opened Common
  import CategoryDto
  import opened AnalyticsService
  import ProgressBar

  // ---------------------------------------------------------------------
  // Searching the task rows
  // ---------------------------------------------------------------------

  /** A row matches when its title, description or category contains the
      search term, ignoring case. */
  function Matches(term: string): TaskRow -> bool
  {
    (row: TaskRow) =>
      ContainsIgnoringCase(row.title, term)
      || ContainsIgnoringCase(row.description, term)
      || ContainsIgnoringCase(row.category, term)
  }

  /** filteredTasks: the report's rows that match the term; no report, no
      rows. A row is shown exactly when it is one of the report's and
      matches. */
  function FilteredTasks(data: Option<Analytics>, term: string): (r: seq<TaskRow>)
    ensures data.None? ==> r == []
    ensures data.Some? ==> forall i :: 0 <= i < |r| ==> r[i] in data.value.tasks && Matches(term)(r[i])
    ensures data.Some? ==> forall k :: 0 <= k < |data.value.tasks| && Matches(term)(data.value.tasks[k]) ==>
      data.value.tasks[k] in r
    ensures data.Some? ==> |r| <= |data.value.tasks|
  {
    if data.None? then []
    else
      FilterMembers(data.value.tasks, Matches(term));
      Filter(data.value.tasks, Matches(term))
  }

  /** The search keeps the report's order: two shown rows appear in the
      report in the order they are shown. */
  lemma FilteredTasksKeepOrder(a: Analytics, term: string, i: int, j: int)
    requires 0 <= i < j < |FilteredTasks(Some(a), term)|
    ensures exists p, q ::
              && 0 <= p < q < |a.tasks|
              && FilteredTasks(Some(a), term)[i] == a.tasks[p]
              && FilteredTasks(Some(a), term)[j] == a.tasks[q]
  {
    SubsequenceOrder(a.tasks, Matches(term), i, j);
  }

  /** An empty search box shows every row. */
  lemma EmptySearchShowsAll(a: Analytics)
    ensures FilteredTasks(Some(a), "") == a.tasks
  {
    forall k | 0 <= k < |a.tasks| ensures Matches("")(a.tasks[k]) {
      EmptyIsContained(Lower(a.tasks[k].title));
    }
    FilterAll(a.tasks, Matches(""));
  }

  lemma CaseOfChar(c: char)
    ensures LowerChar(UpperChar(c)) == LowerChar(c) && LowerChar(LowerChar(c)) == LowerChar(c)
  {
  }

  lemma {:induction false} LowerOfUpper(s: string)
    ensures Lower(Upper(s)) == Lower(s)
  {
    forall i | 0 <= i < |s| ensures Lower(Upper(s))[i] == Lower(s)[i] {
      CaseOfChar(s[i]);
    }
  }

  lemma {:induction false} LowerOfLower(s: string)
    ensures Lower(Lower(s)) == Lower(s)
  {
    forall i | 0 <= i < |s| ensures Lower(Lower(s))[i] == Lower(s)[i] {
      CaseOfChar(s[i]);
    }
  }

  /** The search ignores the case of the term as well. */
  lemma SearchIgnoresCase(data: Option<Analytics>, term: string)
    ensures FilteredTasks(data, Upper(term)) == FilteredTasks(data, term)
    ensures FilteredTasks(data, Lower(term)) == FilteredTasks(data, term)
  {
    LowerOfUpper(term);
    LowerOfLower(term);
    if data.Some? {
      FilterAgreeing(data.value.tasks, Matches(Upper(term)), Matches(term));
      FilterAgreeing(data.value.tasks, Matches(Lower(term)), Matches(term));
    }
  }

  // ---------------------------------------------------------------------
  // The completion-rate caption
  // ---------------------------------------------------------------------

  /** The caption under the completed count: the report's completed share
      on the progress bar's rounding, or "No tasks yet" when the report is
      missing or has no tasks. */
  const RateSuffix := "% completion rate"

  function CompletionText(data: Option<Analytics>): (r: string)
    ensures r == "No tasks yet" <==> data.None? || data.value.summary.totalTasks == 0
  {
    var total := if data.Some? then data.value.summary.totalTasks else 0;
    if total > 0 then
      var text := IntText(ProgressBar.Percentage(data.value.summary.completedTasks, total));
      assert (text + RateSuffix)[0] == text[0];
      text + RateSuffix
    else "No tasks yet"
  }

  /** For a report whose summary counts no more completed tasks than tasks
      (every report does) the caption is a whole percentage between 0 and
      100, and 100 when every task is completed. */
  lemma CompletionTextOfReport(a: Analytics)
    requires a.summary.completedTasks <= a.summary.totalTasks
    ensures a.summary.totalTasks > 0 ==>
      var p := ProgressBar.Percentage(a.summary.completedTasks, a.summary.totalTasks);
      0 <= p <= 100 && CompletionText(Some(a)) == NatText(p) + RateSuffix
    ensures 0 < a.summary.totalTasks == a.summary.completedTasks ==>
      CompletionText(Some(a)) == "100" + RateSuffix
  {
    ProgressBar.PercentageBounds(a.summary.completedTasks, a.summary.totalTasks);
    HundredText();
  }

  lemma HundredText()
    ensures NatText(100) == "100"
  {
    assert NatText(1) == "1";
    assert NatText(10) == NatText(1) + "0";
    assert NatText(100) == NatText(10) + "0";
  }

  // ---------------------------------------------------------------------
  // Category colours in the PDF export
  // ---------------------------------------------------------------------

  datatype Rgb = Rgb(red: int, green: int, blue: int)

  /** The colour drawn for a string that is not a six-digit hex colour. */
  const Grey := Rgb(100, 100, 100)

  predicate IsByteColor(c: Rgb)
  {
    0 <= c.red < 256 && 0 <= c.green < 256 && 0 <= c.blue < 256
  }

  /** The text after an optional leading '#'. */
  function ColorDigits(hex: string): (d: string)
    ensures |d| <= |hex|
  {
    if |hex| > 0 && hex[0] == '#' then hex[1..] else hex
  }

  /** The pattern of hexToRgb: an optional '#' and exactly six hex digits
      of either case. */
  predicate IsSixDigitColor(hex: string)
  {
    var d := ColorDigits(hex);
    |d| == 6 && CategoryDto.AllHex(d)
  }

  /** A two-digit hex number. */
  function PairValue(hi: char, lo: char): (v: nat)
    requires IsHexDigit(hi) && IsHexDigit(lo)
    ensures v < 256
  {
    16 * HexValue(hi) + HexValue(lo)
  }

  /** hexToRgb: each pair of digits read as a byte; grey for any text the
      pattern refuses. */
  function HexToRgb(hex: string): (c: Rgb)
    ensures IsByteColor(c)
    ensures !IsSixDigitColor(hex) ==> c == Grey
  {
    var d := ColorDigits(hex);
    if |d| == 6 && CategoryDto.AllHex(d) then
      Rgb(PairValue(d[0], d[1]), PairValue(d[2], d[3]), PairValue(d[4], d[5]))
    else Grey
  }

  /** A lower-case hex digit. */
  function HexChar(v: nat): (c: char)
    requires v < 16
    ensures IsHexDigit(c) && HexValue(c) == v
  {
    if v < 10 then ('0' as int + v) as char else ('a' as int + v - 10) as char
  }

  function HexByte(n: nat): (s: string)
    requires n < 256
    ensures |s| == 2 && IsHexDigit(s[0]) && IsHexDigit(s[1]) && PairValue(s[0], s[1]) == n
  {
    [HexChar(n / 16), HexChar(n % 16)]
  }

  /** The `#rrggbb` text of a colour, in lower case. */
  function RgbHex(c: Rgb): (s: string)
    requires IsByteColor(c)
    ensures |s| == 7 && s[0] == '#' && CategoryDto.IsHexColor(s)
  {
    var s := "#" + HexByte(c.red) + HexByte(c.green) + HexByte(c.blue);
    assert forall i :: 1 <= i < 7 ==> IsHexDigit(s[i]);
    assert forall i :: 0 <= i < 6 ==> s[1..][i] == s[i + 1];
    s
  }

  /** Reading back the text of a colour gives the colour, with or without
      its '#'. */
  lemma HexRoundTrip(c: Rgb)
    requires IsByteColor(c)
    ensures HexToRgb(RgbHex(c)) == c
    ensures HexToRgb(RgbHex(c)[1..]) == c
  {
    var s := RgbHex(c);
    assert ColorDigits(s) == s[1..];
    assert ColorDigits(s[1..]) == s[1..];
  }

  /** A digit's lower-case spelling. */
  lemma HexCharOfValue(ch: char)
    requires IsHexDigit(ch)
    ensures HexChar(HexValue(ch)) == LowerChar(ch)
  {
  }

  /** A byte's text spells its two digits again, in lower case. */
  lemma HexByteOfPair(hi: char, lo: char)
    requires IsHexDigit(hi) && IsHexDigit(lo)
    ensures HexByte(PairValue(hi, lo)) == [LowerChar(hi), LowerChar(lo)]
  {
    var n := PairValue(hi, lo);
    assert n / 16 == HexValue(hi) && n % 16 == HexValue(lo);
    HexCharOfValue(hi);
    HexCharOfValue(lo);
  }

  /** The bytes of a seven-character colour. */
  lemma HexToRgbOfColor(s: string)
    requires |s| == 7 && s[0] == '#' && forall i :: 1 <= i < 7 ==> IsHexDigit(s[i])
    ensures HexToRgb(s) == Rgb(PairValue(s[1], s[2]), PairValue(s[3], s[4]), PairValue(s[5], s[6]))
  {
    var d := ColorDigits(s);
    assert d == s[1..];
    assert forall i :: 0 <= i < 6 ==> d[i] == s[i + 1];
  }

  /** The text of a colour from the texts of its bytes. */
  lemma RgbHexOfBytes(c: Rgb, x0: char, x1: char, x2: char, x3: char, x4: char, x5: char)
    requires IsByteColor(c)
    requires HexByte(c.red) == [x0, x1] && HexByte(c.green) == [x2, x3] && HexByte(c.blue) == [x4, x5]
    ensures RgbHex(c) == ['#', x0, x1, x2, x3, x4, x5]
  {
  }

  /** The other direction: a saved six-digit colour is spelt again, in
      lower case, by the text of the colour it reads as. */
  lemma RgbHexOfColor(s: string)
    requires CategoryDto.IsHexColor(s) && |s| == 7
    ensures RgbHex(HexToRgb(s)) == Lower(s)
  {
    CategoryDto.HexColorShape(s);
    HexToRgbOfColor(s);
    HexByteOfPair(s[1], s[2]);
    HexByteOfPair(s[3], s[4]);
    HexByteOfPair(s[5], s[6]);
    RgbHexOfBytes(HexToRgb(s), LowerChar(s[1]), LowerChar(s[2]), LowerChar(s[3]),
                  LowerChar(s[4]), LowerChar(s[5]), LowerChar(s[6]));
    LowerOfSeven(s);
    assert LowerChar(s[0]) == '#';
  }

  /** Of the colours a category may be saved with, the long form is drawn
      as its bytes and the short form `#rgb` is always drawn grey. */
  lemma SavedColorsDrawn(s: string)
    requires CategoryDto.IsHexColor(s)
    ensures |s| == 7 ==> IsSixDigitColor(s)
    ensures |s| == 4 ==> HexToRgb(s) == Grey
  {
    CategoryDto.HexColorShape(s);
    assert ColorDigits(s) == s[1..];
  }

  /** A short colour the category endpoints accept, white, is drawn grey. */
  lemma ShortColorDrawnGrey()
    ensures CategoryDto.IsHexColor("#fff")
    ensures HexToRgb("#fff") == Grey
  {
    CategoryDto.HexColorSamples();
  }

  /** The conversion that reads a short colour `#rgb` as `#rrggbb`, the
      meaning the category endpoints give it, and agrees with hexToRgb on
      every other text. */
  function ExpandedHexToRgb(hex: string): (c: Rgb)
    ensures IsByteColor(c)
  {
    var d := ColorDigits(hex);
    if |d| == 3 && CategoryDto.AllHex(d) then
      Rgb(PairValue(d[0], d[0]), PairValue(d[1], d[1]), PairValue(d[2], d[2]))
    else HexToRgb(hex)
  }

  /** The long form of a short colour: every digit doubled. */
  function Doubled(s: string): (r: string)
    requires |s| == 4
  {
    [s[0], s[1], s[1], s[2], s[2], s[3], s[3]]
  }

  /** Every colour a category may be saved with is drawn as the colour it
      names: the long form as its bytes, the short form as its long form. */
  lemma ExpandedDrawsSavedColors(s: string)
    requires CategoryDto.IsHexColor(s)
    ensures |s| == 7 ==> ExpandedHexToRgb(s) == HexToRgb(s) && IsSixDigitColor(s)
    ensures |s| == 4 ==> ExpandedHexToRgb(s) == HexToRgb(Doubled(s)) && IsSixDigitColor(Doubled(s))
    ensures |s| == 4 ==> ExpandedHexToRgb(s) != Grey
  {
    CategoryDto.HexColorShape(s);
    assert ColorDigits(s) == s[1..];
    if |s| == 4 {
      var t := Doubled(s);
      assert ColorDigits(t) == t[1..];
      assert forall i :: 0 <= i < 6 ==> t[1..][i] == t[i + 1];
      var c := ExpandedHexToRgb(s);
      assert c.red == 17 * HexValue(s[1]);
    }
  }

  // ---------------------------------------------------------------------
  // Descriptions in the PDF export
  // ---------------------------------------------------------------------

  /** A description as the export prints it: its first 120 characters,
      followed by "..." when some were cut. */
  function Truncated(desc: string): (r: string)
    ensures |desc| <= 120 ==> r == desc
    ensures |desc| > 120 ==> |r| == 123 && r[..120] == desc[..120] && r[120..] == "..."
  {
    if |desc| > 120 then desc[..120] + "..." else desc
  }

  /** A description is printed as it stands exactly when it fits, or when
      it is 123 characters long and already ends in "..." after its first
      120. */
  lemma TruncatedUnchanged(desc: string)
    ensures Truncated(desc) == desc <==> |desc| <= 120 || (|desc| == 123 && desc[120..] == "...")
  {
    if |desc| == 123 && desc[120..] == "..." {
      assert desc == desc[..120] + desc[120..];
    }
  }

  /** Shortening a printed description again changes nothing. */
  lemma TruncatedIdempotent(desc: string)
    ensures Truncated(Truncated(desc)) == Truncated(desc)
  {
    TruncatedUnchanged(Truncated(desc));
  }
}
