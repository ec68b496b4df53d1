/** The `dailyHours` series of the analytics report: the tracked time of
    the fetched tasks' closed entries, summed per UTC calendar day of the
    entry's start and listed in ascending day order. */
module AnalyticsDaily {
  import opened Common
  import opened Domain
  import opened AnalyticsData

  /** What one entry adds to a given UTC day. */
  function EntryDayMs(e: TimeEntry, day: int): int
  {
    if IsClosed(e) && UtcDay(e.startTime) == day then EntryMs(e) else 0
  }

  /** The tracked time that a list of entries puts on a day. */
  function EntriesDayMs(es: seq<TimeEntry>, day: int): int
  {
    if es == [] then 0 else EntriesDayMs(es[..|es| - 1], day) + EntryDayMs(es[|es| - 1], day)
  }

  /** The tracked time that a list of tasks puts on a day. */
  function DayMs(f: seq<TaskDetail>, day: int): int
  {
    if f == [] then 0 else DayMs(f[..|f| - 1], day) + EntriesDayMs(f[|f| - 1].timeEntries, day)
  }

  /** Some closed entry of the list starts on the day. */
  predicate EntriesTouch(es: seq<TimeEntry>, day: int)
  {
    es != [] && (EntriesTouch(es[..|es| - 1], day) || (IsClosed(es[|es| - 1]) && UtcDay(es[|es| - 1].startTime) == day))
  }

  /** Some closed entry of some task of the list starts on the day. */
  predicate Touches(f: seq<TaskDetail>, day: int)
  {
    f != [] && (Touches(f[..|f| - 1], day) || EntriesTouch(f[|f| - 1].timeEntries, day))
  }

  /** One record of `dailyHours`: a UTC day number and the tracked time of
      that day in hundredths of an hour. */
  datatype DayHours = DayHours(day: int, hours: int)

  /** The report's daily series for the fetched tasks f: strictly
      ascending days, one per day some closed entry starts on, each with
      the rounded total of that day. */
  ghost predicate IsDailySeries(f: seq<TaskDetail>, r: seq<DayHours>)
  {
    && (forall k, l :: 0 <= k < l < |r| ==> r[k].day < r[l].day)
    && (forall day :: (exists k :: 0 <= k < |r| && r[k].day == day) <==> Touches(f, day))
    && (forall k :: 0 <= k < |r| ==> r[k].hours == RoundDiv(DayMs(f, r[k].day), MsPerCentiHour))
  }

  /** The forEach over tasks and entries that accumulates `dailyHoursMap`,
      followed by the conversion to records in ascending day order. As in
      a JavaScript Map, `keys` remembers the days in first-seen order. */
  method DailyHours(f: seq<TaskDetail>) returns (r: seq<DayHours>)
    ensures IsDailySeries(f, r)
    ensures f == [] ==> r == []
  {
    var m: map<int, int> := map[];
    var keys: seq<int> := [];
    var i := 0;
    while i < |f|
      invariant 0 <= i <= |f|
      invariant i == 0 ==> keys == []
      invariant Distinct(keys) && forall day :: day in m <==> day in keys
      invariant forall day :: day in m <==> Touches(f[..i], day)
      invariant forall day :: day in m ==> m[day] == DayMs(f[..i], day)
    {
      var es := f[i].timeEntries;
      var j := 0;
      assert es[..0] == [];
      while j < |es|
        invariant 0 <= j <= |es|
        invariant Accumulated(f[..i], es[..j], m, keys)
      {
        m, keys := AddEntry(f[..i], es[..j], es[j], m, keys);
        assert es[..j + 1] == es[..j] + [es[j]];
        j := j + 1;
      }
      assert es[..j] == es;
      assert f[..i + 1][..i] == f[..i];
      i := i + 1;
    }
    assert f[..i] == f;
    r := AscendingDays(m, keys);
  }

  /** The map and its keys after the tasks done and the entries seen of
      the next task. */
  ghost predicate Accumulated(done: seq<TaskDetail>, seen: seq<TimeEntry>, m: map<int, int>, keys: seq<int>)
  {
    && Distinct(keys) && (forall day :: day in m <==> day in keys)
    && (forall day :: day in m <==> Touches(done, day) || EntriesTouch(seen, day))
    && (forall day :: day in m ==> m[day] == DayMs(done, day) + EntriesDayMs(seen, day))
  }

  /** One entry of the inner forEach: a closed entry's time is added to its
      start day, which becomes a new key the first time it is seen. */
  method AddEntry(done: seq<TaskDetail>, seen: seq<TimeEntry>, e: TimeEntry, m: map<int, int>, keys: seq<int>)
    returns (m': map<int, int>, keys': seq<int>)
    requires Accumulated(done, seen, m, keys)
    ensures Accumulated(done, seen + [e], m', keys')
  {
    var seen' := seen + [e];
    assert seen'[..|seen'| - 1] == seen;
    m', keys' := m, keys;
    if IsClosed(e) {
      var day := UtcDay(e.startTime);
      if day !in m {
        Untouched(done, day);
        UntouchedEntries(seen, day);
        keys' := keys + [day];
      }
      var before := if day in m then m[day] else 0;
      m' := m[day := before + EntryMs(e)];
    }
  }

  /** `Array.from(map.entries()).map(...).sort(by date)`: one record per
      key of m, in ascending key order, each value rounded to hundredths
      of an hour. The smallest remaining key is taken first. */
  method AscendingDays(m: map<int, int>, keys: seq<int>) returns (r: seq<DayHours>)
    requires Distinct(keys) && forall day :: day in m <==> day in keys
    ensures forall k, l :: 0 <= k < l < |r| ==> r[k].day < r[l].day
    ensures forall day :: (exists k :: 0 <= k < |r| && r[k].day == day) <==> day in m
    ensures forall k :: 0 <= k < |r| ==> r[k].day in m && r[k].hours == RoundDiv(m[r[k].day], MsPerCentiHour)
    ensures |r| == |keys|
  {
    var left := keys;
    r := [];
    while left != []
      invariant Selecting(m, keys, left, r)
      decreases |left|
    {
      left, r := TakeSmallest(m, keys, left, r);
    }
  }

  /** The state of the selection: r holds, in ascending order, the days of
      m not left, each below every day left. */
  ghost predicate Selecting(m: map<int, int>, keys: seq<int>, left: seq<int>, r: seq<DayHours>)
  {
    && Distinct(left) && (forall day :: day in left ==> day in m)
    && (forall k, l :: 0 <= k < l < |r| ==> r[k].day < r[l].day)
    && (forall k, day :: 0 <= k < |r| && day in left ==> r[k].day < day)
    && (forall day :: day in m ==> (day in left || exists k :: 0 <= k < |r| && r[k].day == day))
    && (forall k :: 0 <= k < |r| ==> r[k].day in m && r[k].hours == RoundDiv(m[r[k].day], MsPerCentiHour))
    && |r| + |left| == |keys|
  }

  /** One step of the selection: the smallest day left moves to the end of
      the records. */
  method TakeSmallest(m: map<int, int>, keys: seq<int>, left: seq<int>, r: seq<DayHours>)
    returns (left': seq<int>, r': seq<DayHours>)
    requires left != [] && Selecting(m, keys, left, r)
    ensures Selecting(m, keys, left', r') && |left'| < |left|
  {
    var i := MinIndex(left);
    var x := DayHours(left[i], RoundDiv(m[left[i]], MsPerCentiHour));
    r' := r + [x];
    left' := left[..i] + left[i + 1..];
    RemoveAt(left, i);
    StepOrdered(r, x, left, left');
    StepCovers(m, r, x, left, left');
    StepHours(m, r, x);
  }

  /** Appending a record rounded from m keeps every record rounded from m. */
  lemma StepHours(m: map<int, int>, r: seq<DayHours>, x: DayHours)
    requires forall k :: 0 <= k < |r| ==> r[k].day in m && r[k].hours == RoundDiv(m[r[k].day], MsPerCentiHour)
    requires x.day in m && x.hours == RoundDiv(m[x.day], MsPerCentiHour)
    ensures forall k :: 0 <= k < |r + [x]| ==>
      (r + [x])[k].day in m && (r + [x])[k].hours == RoundDiv(m[(r + [x])[k].day], MsPerCentiHour)
  {
    assert forall k :: 0 <= k < |r| ==> (r + [x])[k] == r[k];
  }

  /** Appending the smallest day left keeps the records ascending and
      below the days still left. */
  lemma StepOrdered(r: seq<DayHours>, x: DayHours, left: seq<int>, left': seq<int>)
    requires forall k, l :: 0 <= k < l < |r| ==> r[k].day < r[l].day
    requires forall k, day :: 0 <= k < |r| && day in left ==> r[k].day < day
    requires x.day in left && forall day :: day in left ==> x.day <= day
    requires forall day :: day in left' <==> day in left && day != x.day
    ensures forall k, l :: 0 <= k < l < |r + [x]| ==> (r + [x])[k].day < (r + [x])[l].day
    ensures forall k, day :: 0 <= k < |r + [x]| && day in left' ==> (r + [x])[k].day < day
  {
    var r' := r + [x];
    forall k, l | 0 <= k < l < |r'| ensures r'[k].day < r'[l].day {
      if l == |r| {
        assert r'[k] == r[k];
      } else {
        assert r'[k] == r[k] && r'[l] == r[l];
      }
    }
    forall k, day | 0 <= k < |r'| && day in left' ensures r'[k].day < day {
      if k < |r| {
        assert r'[k] == r[k];
      }
    }
  }

  /** Every day of m is still left or among the records after the step. */
  lemma StepCovers(m: map<int, int>, r: seq<DayHours>, x: DayHours, left: seq<int>, left': seq<int>)
    requires forall day :: day in m ==> (day in left || exists k :: 0 <= k < |r| && r[k].day == day)
    requires forall day :: day in left' <==> day in left && day != x.day
    ensures forall day :: day in m ==> (day in left' || exists k :: 0 <= k < |r + [x]| && (r + [x])[k].day == day)
  {
    var r' := r + [x];
    forall day | day in m && day !in left'
      ensures exists k :: 0 <= k < |r'| && r'[k].day == day
    {
      if day == x.day {
        assert r'[|r|].day == day;
      } else {
        var k :| 0 <= k < |r| && r[k].day == day;
        assert r'[k] == r[k];
      }
    }
  }

  /** The position of a smallest element. */
  function MinIndex(s: seq<int>): (i: nat)
    requires s != []
    ensures i < |s| && forall j :: 0 <= j < |s| ==> s[i] <= s[j]
  {
    if |s| == 1 then 0
    else
      var k := MinIndex(s[1..]) + 1;
      assert forall j :: 1 <= j < |s| ==> s[j] == s[1..][j - 1];
      if s[0] <= s[k] then 0 else k
  }

  /** Removing one position of a list without repeats removes exactly that
      element and introduces no repeat. */
  lemma RemoveAt(s: seq<int>, i: int)
    requires Distinct(s) && 0 <= i < |s|
    ensures var t := s[..i] + s[i + 1..];
      Distinct(t) && forall x :: x in t <==> x in s && x != s[i]
  {
    var t := s[..i] + s[i + 1..];
    assert forall a :: 0 <= a < |t| ==> t[a] == if a < i then s[a] else s[a + 1];
    forall x ensures x in t <==> x in s && x != s[i] {
      if x in s && x != s[i] {
        var a :| 0 <= a < |s| && s[a] == x;
        assert t[if a < i then a else a - 1] == x;
      }
    }
  }

  lemma {:induction false} UntouchedEntries(es: seq<TimeEntry>, day: int)
    requires !EntriesTouch(es, day)
    ensures EntriesDayMs(es, day) == 0
  {
    if es != [] {
      UntouchedEntries(es[..|es| - 1], day);
    }
  }

  lemma {:induction false} Untouched(f: seq<TaskDetail>, day: int)
    requires !Touches(f, day)
    ensures DayMs(f, day) == 0
  {
    if f != [] {
      Untouched(f[..|f| - 1], day);
      UntouchedEntries(f[|f| - 1].timeEntries, day);
    }
  }

  /** The day predicate said directly: some closed entry of some fetched
      task starts on that UTC day. */
  lemma {:induction false} TouchesExactly(f: seq<TaskDetail>, day: int)
    ensures Touches(f, day) <==>
      exists i, j :: 0 <= i < |f| && 0 <= j < |f[i].timeEntries|
        && IsClosed(f[i].timeEntries[j]) && UtcDay(f[i].timeEntries[j].startTime) == day
  {
    if f != [] {
      var n := |f| - 1;
      TouchesExactly(f[..n], day);
      EntriesTouchExactly(f[n].timeEntries, day);
      if Touches(f, day) {
        if Touches(f[..n], day) {
          var i, j :| 0 <= i < n && 0 <= j < |f[..n][i].timeEntries|
            && IsClosed(f[..n][i].timeEntries[j]) && UtcDay(f[..n][i].timeEntries[j].startTime) == day;
          assert f[i] == f[..n][i];
        }
      } else {
        forall i, j | 0 <= i < |f| && 0 <= j < |f[i].timeEntries|
          ensures !(IsClosed(f[i].timeEntries[j]) && UtcDay(f[i].timeEntries[j].startTime) == day)
        {
          if i < n {
            assert f[i] == f[..n][i];
          }
        }
      }
    }
  }

  lemma {:induction false} EntriesTouchExactly(es: seq<TimeEntry>, day: int)
    ensures EntriesTouch(es, day) <==>
      exists j :: 0 <= j < |es| && IsClosed(es[j]) && UtcDay(es[j].startTime) == day
  {
    if es != [] {
      var n := |es| - 1;
      EntriesTouchExactly(es[..n], day);
      if EntriesTouch(es, day) {
        if EntriesTouch(es[..n], day) {
          var j :| 0 <= j < n && IsClosed(es[..n][j]) && UtcDay(es[..n][j].startTime) == day;
          assert es[j] == es[..n][j];
        }
      } else {
        forall j | 0 <= j < |es|
          ensures !(IsClosed(es[j]) && UtcDay(es[j].startTime) == day)
        {
          if j < n {
            assert es[j] == es[..n][j];
          }
        }
      }
    }
  }
}
