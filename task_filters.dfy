/** The task board's filter bar: every control replaces one field of the
    page's filter state, "clear" empties them all, the badge counts the
    fields other than the search that are set, and the time bounds are
    shown on a twelve-hour clock. */
module TaskFilters {
  import opened Common
  import opened Domain
  import opened TasksPage

  // ---------------------------------------------------------------------
  // Clearing and counting
  // ---------------------------------------------------------------------

  /** clearFilters: every field unset. */
  function ClearFilters(): (f: PageFilters)
    ensures f.status == "" && f.priority == "" && f.categoryId == "" && f.search == ""
    ensures f.startDate.None? && f.endDate.None? && f.startTime == "" && f.endTime == ""
  {
    PageFilters("", "", "", "", None, None, "", "")
  }

  function IsSet(b: bool): nat { if b then 1 else 0 }

  /** activeFiltersCount: how many of the seven fields other than the
      search are set. */
  function ActiveFiltersCount(f: PageFilters): (n: nat)
    ensures n <= 7
    ensures n == 0 <==>
      f.status == "" && f.priority == "" && f.categoryId == "" && f.startDate.None? && f.endDate.None?
      && f.startTime == "" && f.endTime == ""
    ensures n == 7 <==>
      f.status != "" && f.priority != "" && f.categoryId != "" && f.startDate.Some? && f.endDate.Some?
      && f.startTime != "" && f.endTime != ""
  {
    IsSet(f.status != "") + IsSet(f.priority != "") + IsSet(f.categoryId != "")
    + IsSet(f.startDate.Some?) + IsSet(f.endDate.Some?)
    + IsSet(f.startTime != "") + IsSet(f.endTime != "")
  }

  /** With the filters cleared the badge shows nothing and the page shows
      every task, in the order it was fetched. */
  lemma ClearedShowsAll(tasks: seq<TaskDetail>, tz: int)
    ensures ActiveFiltersCount(ClearFilters()) == 0
    ensures Visible(tasks, ClearFilters(), tz) == tasks
  {
    var f := ClearFilters();
    FilterAll(tasks, StatusOk(f));
    FilterAll(tasks, PriorityOk(f));
    FilterAll(tasks, CategoryOk(f));
    FilterAll(tasks, SearchOk(f));
    FilterAll(tasks, DateOk(f, tz));
    FilterAll(tasks, TimeOk(f, tz));
  }

  // ---------------------------------------------------------------------
  // Single-field changes
  // ---------------------------------------------------------------------

  /** A select's value: its "all" entry unsets the field. */
  function Selected(value: string): (r: string)
    ensures value == "all" ==> r == ""
    ensures value != "all" ==> r == value
  {
    if value == "all" then "" else value
  }

  /** The controls, one per field; each spreads the current filters and
      overrides its own field. */
  datatype Change =
    | SearchTyped(text: string)
    | StatusSelected(value: string)
    | PrioritySelected(value: string)
    | CategorySelected(value: string)
    | StartDatePicked(date: Option<int>)
    | EndDatePicked(date: Option<int>)
    | StartTimeTyped(time: string)
    | EndTimeTyped(time: string)

  function Apply(f: PageFilters, c: Change): (g: PageFilters)
    ensures c.SearchTyped? ==> g == f.(search := c.text)
    ensures c.StatusSelected? ==> g == f.(status := Selected(c.value))
    ensures c.PrioritySelected? ==> g == f.(priority := Selected(c.value))
    ensures c.CategorySelected? ==> g == f.(categoryId := Selected(c.value))
    ensures c.StartDatePicked? ==> g == f.(startDate := c.date)
    ensures c.EndDatePicked? ==> g == f.(endDate := c.date)
    ensures c.StartTimeTyped? ==> g == f.(startTime := c.time)
    ensures c.EndTimeTyped? ==> g == f.(endTime := c.time)
  {
    match c
    case SearchTyped(text) => PageFilters(f.status, f.priority, f.categoryId, text, f.startDate, f.endDate, f.startTime, f.endTime)
    case StatusSelected(value) => PageFilters(Selected(value), f.priority, f.categoryId, f.search, f.startDate, f.endDate, f.startTime, f.endTime)
    case PrioritySelected(value) => PageFilters(f.status, Selected(value), f.categoryId, f.search, f.startDate, f.endDate, f.startTime, f.endTime)
    case CategorySelected(value) => PageFilters(f.status, f.priority, Selected(value), f.search, f.startDate, f.endDate, f.startTime, f.endTime)
    case StartDatePicked(date) => PageFilters(f.status, f.priority, f.categoryId, f.search, date, f.endDate, f.startTime, f.endTime)
    case EndDatePicked(date) => PageFilters(f.status, f.priority, f.categoryId, f.search, f.startDate, date, f.startTime, f.endTime)
    case StartTimeTyped(time) => PageFilters(f.status, f.priority, f.categoryId, f.search, f.startDate, f.endDate, time, f.endTime)
    case EndTimeTyped(time) => PageFilters(f.status, f.priority, f.categoryId, f.search, f.startDate, f.endDate, f.startTime, time)
  }

  /** Whether a control's field is set after the change. */
  function SetsField(c: Change): bool
  {
    match c
    case SearchTyped(_) => false
    case StatusSelected(value) => Selected(value) != ""
    case PrioritySelected(value) => Selected(value) != ""
    case CategorySelected(value) => Selected(value) != ""
    case StartDatePicked(date) => date.Some?
    case EndDatePicked(date) => date.Some?
    case StartTimeTyped(time) => time != ""
    case EndTimeTyped(time) => time != ""
  }

  /** Whether the field a control changes was set before it. */
  function FieldWasSet(f: PageFilters, c: Change): bool
  {
    match c
    case SearchTyped(_) => false
    case StatusSelected(_) => f.status != ""
    case PrioritySelected(_) => f.priority != ""
    case CategorySelected(_) => f.categoryId != ""
    case StartDatePicked(_) => f.startDate.Some?
    case EndDatePicked(_) => f.endDate.Some?
    case StartTimeTyped(_) => f.startTime != ""
    case EndTimeTyped(_) => f.endTime != ""
  }

  /** A change moves the badge by at most one, and by exactly the change in
      its own field: typing in the search box never moves it. */
  lemma ChangeCount(f: PageFilters, c: Change)
    ensures ActiveFiltersCount(Apply(f, c)) == ActiveFiltersCount(f) - IsSet(FieldWasSet(f, c)) + IsSet(SetsField(c))
    ensures c.SearchTyped? ==> ActiveFiltersCount(Apply(f, c)) == ActiveFiltersCount(f)
  {
  }

  // ---------------------------------------------------------------------
  // Twelve-hour display of a time bound
  // ---------------------------------------------------------------------

  /** The longest prefix of decimal digits. */
  function LeadingDigits(s: string): (r: string)
    ensures |r| <= |s| && r == s[..|r|]
    ensures forall i :: 0 <= i < |r| ==> IsDigit(r[i])
    ensures |r| < |s| ==> !IsDigit(s[|r|])
  {
    if s == [] || !IsDigit(s[0]) then ""
    else [s[0]] + LeadingDigits(s[1..])
  }

  /** parseInt on digits: None stands for NaN, a text without a leading digit. */
  function ParseIntText(s: string): (r: Option<nat>)
    ensures r.None? <==> (s == [] || !IsDigit(s[0]))
  {
    var d := LeadingDigits(s);
    if d == "" then None else Some(DigitsValue(d))
  }

  /** The hour of a twelve-hour clock: midnight and noon read 12. */
  function DisplayHour(h: int): int
  {
    if h == 0 then 12 else if h > 12 then h - 12 else h
  }

  function Meridiem(h: int): string
  {
    if h >= 12 then "PM" else "AM"
  }

  /** formatTimeDisplay: "" for an unset bound; otherwise the hour before
      the first ':' on a twelve-hour clock, the text after it as it
      stands, and the half of the day. A text without ':' shows
      "undefined" minutes and one without a leading digit a NaN hour. */
  function FormatTimeDisplay(t: string): (r: string)
    ensures t == "" <==> r == ""
  {
    if t == "" then ""
    else
      var parts := Split(t, ':');
      var minutes := if |parts| >= 2 then parts[1] else "undefined";
      var hour := ParseIntText(parts[0]);
      if hour.None? then "NaN:" + minutes + " AM"
      else IntText(DisplayHour(hour.value)) + ":" + minutes + " " + Meridiem(hour.value)
  }

  /** "<hours>:<minutes>" splits at its one ':'. */
  lemma SplitTime(hh: string, mm: string)
    requires ':' !in hh && ':' !in mm
    ensures Split(hh + ":" + mm, ':') == [hh, mm]
  {
    assert hh + ":" + mm == hh + [':'] + mm;
    SplitAfter(hh, mm, ':');
    SplitWithout(mm, ':');
  }

  /** For "<hours>:<minutes>", the minutes are copied as they stand and the
      hour is shown on the twelve-hour clock. */
  lemma FormatTimeSplit(hh: string, mm: string, h: nat)
    requires ':' !in hh && ':' !in mm
    requires ParseIntText(hh) == Some(h)
    ensures FormatTimeDisplay(hh + ":" + mm) == IntText(DisplayHour(h)) + ":" + mm + " " + Meridiem(h)
  {
    SplitTime(hh, mm);
  }

  /** The hour mapping: 0 is 12 AM, 1 to 11 are AM, 12 is 12 PM and 13
      onwards lose twelve and are PM. */
  lemma FormatTimeParts(hh: string, mm: string, h: nat)
    requires ':' !in hh && ':' !in mm
    requires ParseIntText(hh) == Some(h)
    ensures h == 0 ==> FormatTimeDisplay(hh + ":" + mm) == "12" + ":" + mm + " " + "AM"
    ensures 1 <= h <= 11 ==> FormatTimeDisplay(hh + ":" + mm) == NatText(h) + ":" + mm + " " + "AM"
    ensures h == 12 ==> FormatTimeDisplay(hh + ":" + mm) == "12" + ":" + mm + " " + "PM"
    ensures h >= 13 ==> FormatTimeDisplay(hh + ":" + mm) == NatText(h - 12) + ":" + mm + " " + "PM"
  {
    FormatTimeSplit(hh, mm, h);
    if h == 0 || h == 12 {
      assert IntText(DisplayHour(h)) == "12" by {
        assert NatText(1) == "1";
      }
    }
  }

  /** Two decimal digits are read back as their number. */
  lemma ParseTwoDigits(n: int)
    requires 0 <= n < 100
    ensures ParseIntText(TwoDigits(n)) == Some(n)
  {
    var s := TwoDigits(n);
    assert LeadingDigits(s) == s by {
      assert LeadingDigits(s[1..]) == s[1..] by {
        assert s[1..][1..] == "";
      }
    }
    assert s[..1] == [s[0]];
    assert DigitsValue(s[..1]) == n / 10 by {
      assert s[..1][..0] == [];
    }
    assert DigitsValue(s) == DigitsValue(s[..1]) * 10 + n % 10;
  }

  /** A bound typed as `HH:mm` (the text of minute m of the day) displays
      its hour on the twelve-hour clock and its minutes as typed. */
  lemma FormatClock(m: int)
    requires 0 <= m < 24 * 60
    ensures FormatTimeDisplay(Clock(m)) ==
      IntText(DisplayHour(m / 60)) + ":" + TwoDigits(m % 60) + " " + Meridiem(m / 60)
    ensures 1 <= DisplayHour(m / 60) <= 12
    ensures (m < 12 * 60) <==> Meridiem(m / 60) == "AM"
  {
    var hh := TwoDigits(m / 60);
    var mm := TwoDigits(m % 60);
    assert Clock(m) == hh + ":" + mm;
    assert ':' !in hh && ':' !in mm;
    ParseTwoDigits(m / 60);
    FormatTimeSplit(hh, mm, m / 60);
  }

  /** The twelve-hour reading loses nothing: the displayed hour and the
      half of the day give back the hour of the day. */
  lemma DisplayHourInjective(a: int, b: int)
    requires 0 <= a < 24 && 0 <= b < 24
    requires DisplayHour(a) == DisplayHour(b) && Meridiem(a) == Meridiem(b)
    ensures a == b
  {
  }
}
