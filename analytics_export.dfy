/** exportTasksCSV: the report's task list as text. A header line of eight
    names, then one line per task; every cell of a task line is wrapped in
    double quotes (inner quotes are not escaped), cells are joined by ','
    and lines by '\n'. */
module AnalyticsExport {
  import opened Common
  import opened Domain
  import opened AnalyticsService

  const CsvHeaders: seq<string> :=
    ["Title", "Description", "Category", "Status", "Priority", "Hours Tracked", "Created At", "Updated At"]

  const Quote: char := '"'

  predicate AllDigits(s: string)
  {
    forall i :: 0 <= i < |s| ==> IsDigit(s[i])
  }

  // ---------------------------------------------------------------------
  // Hours as text
  // ---------------------------------------------------------------------

  /** `totalHours.toString()` for a value held in hundredths of an hour:
      the shortest decimal text, so no trailing zero in the fraction and
      no point at all for a whole number. */
  function CentiText(c: int): (r: string)
    ensures r != []
  {
    if c < 0 then "-" + CentiNatText(-c) else CentiNatText(c)
  }

  function CentiNatText(c: nat): (r: string)
    ensures r != [] && IsDigit(r[0])
  {
    var whole := NatText(c / 100);
    var frac := c % 100;
    if frac == 0 then whole
    else if frac % 10 == 0 then whole + "." + [DigitChar(frac / 10)]
    else whole + "." + [DigitChar(frac / 10), DigitChar(frac % 10)]
  }

  /** Reads a decimal text with at most two fraction digits back as a
      number of hundredths. */
  function CentiValue(s: string): Option<int>
  {
    if s != [] && s[0] == '-' then
      var v := CentiNatValue(s[1..]);
      var n: int := if v.Some? then v.value else 0;
      if n > 0 then Some(-n) else None
    else
      var v := CentiNatValue(s);
      if v.Some? then Some(v.value as int) else None
  }

  function CentiNatValue(s: string): Option<nat>
  {
    PartsValue(Split(s, '.'))
  }

  /** The value of the '.'-separated parts of a text. */
  function PartsValue(parts: seq<string>): Option<nat>
    requires |parts| >= 1
  {
    if parts[0] == [] || !AllDigits(parts[0]) then None
    else if |parts| == 1 then Some(100 * DigitsValue(parts[0]))
    else if |parts| == 2 && AllDigits(parts[1]) && 1 <= |parts[1]| <= 2 then
      var f := DigitsValue(parts[1]);
      Some(100 * DigitsValue(parts[0]) + if |parts[1]| == 1 then 10 * f else f)
    else None
  }

  /** The hours text determines the hours: reading it back gives them. */
  lemma CentiTextValue(c: int)
    ensures CentiValue(CentiText(c)) == Some(c)
  {
    if c < 0 {
      assert CentiText(c) == "-" + CentiNatText(-c);
      NegativeRead(-c);
    } else {
      assert CentiText(c) == CentiNatText(c);
      NonNegativeRead(c);
    }
  }

  /** The text of an amount that is not negative starts with a digit and
      reads back unchanged. */
  lemma NonNegativeRead(n: nat)
    ensures CentiValue(CentiNatText(n)) == Some(n)
  {
    var s := CentiNatText(n);
    assert s[0] != '-';
    CentiNatTextValue(n);
  }

  /** A '-' before the text of a positive amount reads back negated. */
  lemma NegativeRead(n: nat)
    requires n > 0
    ensures CentiValue("-" + CentiNatText(n)) == Some(-(n as int))
  {
    var s := "-" + CentiNatText(n);
    assert s[0] == '-' && s[1..] == CentiNatText(n);
    CentiNatTextValue(n);
  }

  /** The digits of a whole number hold no '.'. */
  lemma NoPointInWhole(n: nat)
    ensures '.' !in NatText(n)
  {
    var whole := NatText(n);
    forall i | 0 <= i < |whole| ensures whole[i] != '.' {
      assert IsDigit(whole[i]);
    }
  }

  /** "<whole>.<digits>" with one or two fraction digits is read back. */
  lemma FractionRead(w: nat, digits: string)
    requires 1 <= |digits| <= 2 && AllDigits(digits)
    ensures CentiNatValue(NatText(w) + "." + digits) ==
      Some(100 * w + if |digits| == 1 then 10 * DigitsValue(digits) else DigitsValue(digits))
  {
    var whole := NatText(w);
    var s := whole + "." + digits;
    NatTextValue(w);
    SplitAtPoint(w, digits);
    ValueOfParts(whole, digits);
  }

  /** The value of two digit runs around a '.'. */
  lemma ValueOfParts(whole: string, digits: string)
    requires whole != [] && AllDigits(whole) && 1 <= |digits| <= 2 && AllDigits(digits)
    ensures PartsValue([whole, digits]) ==
      Some(100 * DigitsValue(whole) + if |digits| == 1 then 10 * DigitsValue(digits) else DigitsValue(digits))
  {
  }

  lemma SplitAtPoint(w: nat, digits: string)
    requires AllDigits(digits)
    ensures Split(NatText(w) + "." + digits, '.') == [NatText(w), digits]
  {
    var whole := NatText(w);
    NoPointInWhole(w);
    assert '.' !in digits by {
      forall i | 0 <= i < |digits| ensures digits[i] != '.' {
        assert IsDigit(digits[i]);
      }
    }
    assert whole + "." + digits == whole + ['.'] + digits;
    SplitAfter(whole, digits, '.');
    SplitWithout(digits, '.');
  }

  /** Two decimal digits are read as their number. */
  lemma TwoDigitsValue(v: nat)
    requires v < 100
    ensures DigitsValue([DigitChar(v / 10), DigitChar(v % 10)]) == v
  {
    var digits := [DigitChar(v / 10), DigitChar(v % 10)];
    assert digits[..1] == [DigitChar(v / 10)];
    assert DigitsValue(digits[..1]) == v / 10 by {
      assert digits[..1][..0] == [];
    }
  }

  lemma CentiNatTextValue(c: nat)
    ensures CentiNatValue(CentiNatText(c)) == Some(c)
  {
    var frac := c % 100;
    if frac == 0 {
      WholeRead(c / 100);
      assert CentiNatText(c) == NatText(c / 100);
    } else if frac % 10 == 0 {
      FractionRead(c / 100, [DigitChar(frac / 10)]);
      assert CentiNatText(c) == NatText(c / 100) + "." + [DigitChar(frac / 10)];
    } else {
      FractionRead(c / 100, [DigitChar(frac / 10), DigitChar(frac % 10)]);
      TwoDigitsValue(frac);
      assert CentiNatText(c) == NatText(c / 100) + "." + [DigitChar(frac / 10), DigitChar(frac % 10)];
    }
  }

  /** A whole number of hours is read back. */
  lemma WholeRead(w: nat)
    ensures CentiNatValue(NatText(w)) == Some(100 * w)
  {
    NatTextValue(w);
    NoPointInWhole(w);
    SplitWithout(NatText(w), '.');
  }

  /** Different hours give different texts. */
  lemma CentiTextInjective(a: int, b: int)
    requires CentiText(a) == CentiText(b)
    ensures a == b
  {
    CentiTextValue(a);
    CentiTextValue(b);
  }

  // ---------------------------------------------------------------------
  // Lines
  // ---------------------------------------------------------------------

  function Quoted(cell: string): string
  {
    [Quote] + cell + [Quote]
  }

  /** A cell list as one CSV line: every cell quoted, joined by ','. */
  function CsvLine(cells: seq<string>): string
    requires |cells| >= 1
  {
    Join(Map(cells, Quoted), ',')
  }

  /** The eight cells of one task: title, description, category, status,
      priority, hours as text, and the two timestamps as rendered by the
      runtime's locale (a parameter here). */
  function RowCells(t: TaskRow, localeText: int -> string): (cells: seq<string>)
    ensures |cells| == |CsvHeaders|
  {
    [t.title, t.description, t.category, StatusName(t.status), PriorityName(t.priority),
     CentiText(t.totalHours), localeText(t.createdAt), localeText(t.updatedAt)]
  }

  function RowLine(localeText: int -> string): TaskRow -> string
  {
    (t: TaskRow) => CsvLine(RowCells(t, localeText))
  }

  /** The whole export: the header line, then the task lines in order. */
  function Csv(rows: seq<TaskRow>, localeText: int -> string): string
  {
    Join([Join(CsvHeaders, ',')] + Map(rows, RowLine(localeText)), '\n')
  }

  /** exportTasksCSV: the report for the same query, as CSV. */
  method ExportTasksCsv(table: seq<TaskDetail>, userId: Id, q: Query, now: int, tz: int, localeText: int -> string)
    returns (r: Result<string, AnalyticsError>)
    ensures r.Failure? <==> RejectedFilters(q)
    ensures r.Success? ==> exists a :: IsReport(table, userId, q, now, tz, a) && r.value == Csv(a.tasks, localeText)
  {
    var analytics := GetAnalytics(table, userId, q, now, tz);
    if analytics.Failure? {
      return Failure(analytics.error);
    }
    r := Success(Csv(analytics.value.tasks, localeText));
  }

  /** No cell of the task's line holds a line break. */
  predicate Unbroken(t: TaskRow, localeText: int -> string)
  {
    forall k :: 0 <= k < |CsvHeaders| ==> '\n' !in RowCells(t, localeText)[k]
  }

  /** When no cell holds a line break, the export splits into exactly the
      header line and one line per task, in the order of the task list,
      and the header line splits into the eight names. */
  lemma CsvLines(rows: seq<TaskRow>, localeText: int -> string)
    requires forall i :: 0 <= i < |rows| ==> Unbroken(rows[i], localeText)
    ensures Split(Csv(rows, localeText), '\n') == [Join(CsvHeaders, ',')] + Map(rows, RowLine(localeText))
    ensures |Split(Csv(rows, localeText), '\n')| == |rows| + 1
    ensures Split(Split(Csv(rows, localeText), '\n')[0], ',') == CsvHeaders
  {
    HeaderLine();
    LinesUnbroken(Join(CsvHeaders, ','), rows, localeText);
    SplitJoin([Join(CsvHeaders, ',')] + Map(rows, RowLine(localeText)), '\n');
  }

  /** No line of the export holds a line break. */
  lemma LinesUnbroken(header: string, rows: seq<TaskRow>, localeText: int -> string)
    requires '\n' !in header
    requires forall i :: 0 <= i < |rows| ==> Unbroken(rows[i], localeText)
    ensures forall i :: 0 <= i < |rows| + 1 ==> '\n' !in ([header] + Map(rows, RowLine(localeText)))[i]
  {
    var body := Map(rows, RowLine(localeText));
    var lines := [header] + body;
    forall i | 0 <= i < |rows| + 1 ensures '\n' !in lines[i] {
      if i > 0 {
        assert lines[i] == body[i - 1] == RowLine(localeText)(rows[i - 1]);
        RowLineUnbroken(rows[i - 1], localeText);
      }
    }
  }

  /** The header line holds the eight names and no line break. */
  lemma HeaderLine()
    ensures Split(Join(CsvHeaders, ','), ',') == CsvHeaders
    ensures '\n' !in Join(CsvHeaders, ',')
  {
    assert forall k :: 0 <= k < |CsvHeaders| ==> ',' !in CsvHeaders[k] && '\n' !in CsvHeaders[k];
    SplitJoin(CsvHeaders, ',');
    JoinMember(CsvHeaders, ',', '\n');
  }

  lemma RowLineUnbroken(t: TaskRow, localeText: int -> string)
    requires Unbroken(t, localeText)
    ensures '\n' !in RowLine(localeText)(t)
  {
    var cells := RowCells(t, localeText);
    var quoted := Map(cells, Quoted);
    JoinMember(quoted, ',', '\n');
    forall k | 0 <= k < |quoted| ensures '\n' !in quoted[k] {
      assert quoted[k] == [Quote] + cells[k] + [Quote];
    }
  }

  /** The quote-separated pieces of a line: a cell, then "," before the
      next cell or "" at the end of the line. */
  function OpenParts(cells: seq<string>): (parts: seq<string>)
    requires |cells| >= 1
    ensures |parts| == 2 * |cells|
    ensures forall i :: 0 <= i < |parts| ==> parts[i] in cells || parts[i] == "," || parts[i] == ""
  {
    if |cells| == 1 then [cells[0], ""] else [cells[0], ","] + OpenParts(cells[1..])
  }

  lemma {:induction false} LineParts(cells: seq<string>)
    requires |cells| >= 1
    ensures CsvLine(cells) == [Quote] + Join(OpenParts(cells), Quote)
  {
    var c0 := cells[0];
    if |cells| == 1 {
      JoinCons(c0, [""], Quote);
    } else {
      var rest := cells[1..];
      var tail := OpenParts(rest);
      LineParts(rest);
      assert OpenParts(cells) == [c0] + ([","] + tail);
      JoinStep(c0, tail);
      QuotedConcat(c0, Join(tail, Quote), Join(OpenParts(cells), Quote));
      assert Map(cells, Quoted) == [Quoted(c0)] + Map(rest, Quoted);
      JoinCons(Quoted(c0), Map(rest, Quoted), ',');
    }
  }

  lemma JoinStep(c0: string, tail: seq<string>)
    requires |tail| >= 1
    ensures Join([c0] + ([","] + tail), Quote) == c0 + [Quote] + ("," + [Quote] + Join(tail, Quote))
  {
    JoinCons(c0, [","] + tail, Quote);
    JoinCons(",", tail, Quote);
  }

  lemma QuotedConcat(c0: string, j: string, x: string)
    requires x == c0 + [Quote] + ("," + [Quote] + j)
    ensures [Quote] + x == Quoted(c0) + [','] + ([Quote] + j)
  {
  }

  /** The reading of a line back into cells: the pieces between quotes. */
  function ReadCells(parts: seq<string>): Option<seq<string>>
  {
    if |parts| == 2 && parts[1] == "" then Some([parts[0]])
    else if |parts| >= 3 && parts[1] == "," then
      var rest := ReadCells(parts[2..]);
      if rest.Some? then Some([parts[0]] + rest.value) else None
    else None
  }

  function ParseLine(line: string): Option<seq<string>>
  {
    var parts := Split(line, Quote);
    if parts[0] == "" then ReadCells(parts[1..]) else None
  }

  lemma {:induction false} ReadOpenParts(cells: seq<string>)
    requires |cells| >= 1
    ensures ReadCells(OpenParts(cells)) == Some(cells)
  {
    if |cells| > 1 {
      ReadOpenParts(cells[1..]);
      assert OpenParts(cells) == [cells[0], ","] + OpenParts(cells[1..]);
      assert OpenParts(cells)[2..] == OpenParts(cells[1..]);
      assert [cells[0]] + cells[1..] == cells;
    } else {
      assert cells == [cells[0]];
    }
  }

  /** A line whose cells hold no double quote reads back as its cells. */
  lemma LineRoundTrip(cells: seq<string>)
    requires |cells| >= 1
    requires forall k :: 0 <= k < |cells| ==> Quote !in cells[k]
    ensures ParseLine(CsvLine(cells)) == Some(cells)
  {
    var parts := OpenParts(cells);
    var j := Join(parts, Quote);
    LineParts(cells);
    SplitJoin(parts, Quote);
    SplitAfter("", j, Quote);
    assert "" + [Quote] + j == CsvLine(cells);
    ReadOpenParts(cells);
  }

  /** Without escaping, a cell holding `","` is indistinguishable from two
      cells: a title a","b gives the same line as the cells a and b. */
  lemma QuoteAmbiguity()
    ensures ['a', Quote, ',', Quote, 'b'] != "a" && CsvLine([['a', Quote, ',', Quote, 'b']]) == CsvLine(["a", "b"])
  {
    var one := ['a', Quote, ',', Quote, 'b'];
    assert Map([one], Quoted) == [Quoted(one)];
    assert Map(["a", "b"], Quoted) == [Quoted("a"), Quoted("b")];
    JoinCons(Quoted("a"), [Quoted("b")], ',');
    assert CsvLine(["a", "b"]) == Quoted("a") + [','] + Quoted("b");
  }
}
