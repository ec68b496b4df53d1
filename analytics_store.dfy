/** The client's analytics store: the report's filters, the last report,
    a loading flag and an error message. Changing the filters starts a new
    fetch; the query string of a fetch and of a CSV export is built from
    the filters one field at a time. The server's answer is a parameter. */
module AnalyticsStore {
  import opened Common
  import AnalyticsRange
  import AnalyticsService

  datatype TimeRange = Today | Week | Month | Custom

  /** The enum's string values. */
  function TimeRangeName(r: TimeRange): string
  {
    match r
    case Today => "today"
    case Week => "week"
    case Month => "month"
    case Custom => "custom"
  }

  /** The four values are the tokens the server's date range understands. */
  lemma TimeRangeNamesAreTokens(r: TimeRange)
    ensures r == Today <==> TimeRangeName(r) == AnalyticsRange.TodayToken
    ensures r == Week <==> TimeRangeName(r) == AnalyticsRange.WeekToken
    ensures r == Month <==> TimeRangeName(r) == AnalyticsRange.MonthToken
    ensures r == Custom <==> TimeRangeName(r) == AnalyticsRange.CustomToken
  {
  }

  /** The report's filters; "" stands for an unset field. */
  datatype Filters = Filters(
    timeRange: TimeRange, startDate: string, endDate: string,
    categoryId: string, status: string, priority: string)

  /** The initial filters: today's report, nothing else set. */
  function InitialFilters(): (f: Filters)
    ensures f.timeRange == Today
    ensures f.startDate == "" && f.endDate == "" && f.categoryId == "" && f.status == "" && f.priority == ""
  {
    Filters(Today, "", "", "", "", "")
  }

  /** The argument of setFilters: the fields it supplies. */
  datatype FilterChanges = FilterChanges(
    timeRange: Option<TimeRange>, startDate: Option<string>, endDate: Option<string>,
    categoryId: Option<string>, status: Option<string>, priority: Option<string>)

  function Pick<T>(supplied: Option<T>, current: T): T
  {
    if supplied.Some? then supplied.value else current
  }

  /** `{ ...filters, ...changes }`: a supplied field overrides, any other
      keeps its value. */
  function Merge(f: Filters, c: FilterChanges): (r: Filters)
    ensures c.timeRange.Some? ==> r.timeRange == c.timeRange.value
    ensures c.timeRange.None? ==> r.timeRange == f.timeRange
    ensures c.startDate.Some? ==> r.startDate == c.startDate.value
    ensures c.startDate.None? ==> r.startDate == f.startDate
    ensures c.endDate.Some? ==> r.endDate == c.endDate.value
    ensures c.endDate.None? ==> r.endDate == f.endDate
    ensures c.categoryId.Some? ==> r.categoryId == c.categoryId.value
    ensures c.categoryId.None? ==> r.categoryId == f.categoryId
    ensures c.status.Some? ==> r.status == c.status.value
    ensures c.status.None? ==> r.status == f.status
    ensures c.priority.Some? ==> r.priority == c.priority.value
    ensures c.priority.None? ==> r.priority == f.priority
  {
    Filters(Pick(c.timeRange, f.timeRange), Pick(c.startDate, f.startDate), Pick(c.endDate, f.endDate),
            Pick(c.categoryId, f.categoryId), Pick(c.status, f.status), Pick(c.priority, f.priority))
  }

  function Later<T>(first: Option<T>, second: Option<T>): Option<T>
  {
    if second.Some? then second else first
  }

  /** Two changes in turn are one change where the later one wins. */
  lemma MergeTwice(f: Filters, c: FilterChanges, d: FilterChanges)
    ensures Merge(Merge(f, c), d) == Merge(f, FilterChanges(
      Later(c.timeRange, d.timeRange), Later(c.startDate, d.startDate), Later(c.endDate, d.endDate),
      Later(c.categoryId, d.categoryId), Later(c.status, d.status), Later(c.priority, d.priority)))
  {
  }

  // ---------------------------------------------------------------------
  // The query string
  // ---------------------------------------------------------------------

  /** The query's keys; KeyName is each key's text in the query string. */
  datatype Key = TimeRangeKey | StartDateKey | EndDateKey | CategoryIdKey | StatusKey | PriorityKey

  function KeyName(k: Key): string
  {
    match k
    case TimeRangeKey => "timeRange"
    case StartDateKey => "startDate"
    case EndDateKey => "endDate"
    case CategoryIdKey => "categoryId"
    case StatusKey => "status"
    case PriorityKey => "priority"
  }

  datatype Param = Param(key: Key, value: string)

  function ParamKey(p: Param): Key { p.key }

  /** The keys in the order they are appended. */
  const Keys: seq<Key> := [TimeRangeKey, StartDateKey, EndDateKey, CategoryIdKey, StatusKey, PriorityKey]

  /** The text of the field a key names. */
  function Field(f: Filters, k: Key): string
  {
    match k
    case TimeRangeKey => TimeRangeName(f.timeRange)
    case StartDateKey => f.startDate
    case EndDateKey => f.endDate
    case CategoryIdKey => f.categoryId
    case StatusKey => f.status
    case PriorityKey => f.priority
  }

  /** The parameter for one key: none when its field is unset. */
  function ParamFor(f: Filters, k: Key): seq<Param>
  {
    if Field(f, k) == "" then [] else [Param(k, Field(f, k))]
  }

  function SetParams(f: Filters, keys: seq<Key>): seq<Param>
  {
    if keys == [] then [] else ParamFor(f, keys[0]) + SetParams(f, keys[1..])
  }

  /** The parameters of a fetch and of an export: one per set field, in
      the order of Keys. */
  function QueryParams(f: Filters): seq<Param>
  {
    SetParams(f, Keys)
  }

  /** `new URLSearchParams()` and one `append` per set field. */
  method BuildParams(f: Filters) returns (params: seq<Param>)
    ensures params == QueryParams(f)
  {
    params := [];
    if TimeRangeName(f.timeRange) != "" {
      params := params + [Param(TimeRangeKey, TimeRangeName(f.timeRange))];
    }
    ghost var built := ParamFor(f, TimeRangeKey);
    assert params == built;
    if f.startDate != "" {
      params := params + [Param(StartDateKey, f.startDate)];
    }
    built := built + ParamFor(f, StartDateKey);
    assert params == built;
    if f.endDate != "" {
      params := params + [Param(EndDateKey, f.endDate)];
    }
    built := built + ParamFor(f, EndDateKey);
    assert params == built;
    if f.categoryId != "" {
      params := params + [Param(CategoryIdKey, f.categoryId)];
    }
    built := built + ParamFor(f, CategoryIdKey);
    assert params == built;
    if f.status != "" {
      params := params + [Param(StatusKey, f.status)];
    }
    built := built + ParamFor(f, StatusKey);
    assert params == built;
    if f.priority != "" {
      params := params + [Param(PriorityKey, f.priority)];
    }
    built := built + ParamFor(f, PriorityKey);
    assert params == built;
    QueryParamsUnfolded(f);
  }

  /** The parameters key by key. */
  lemma QueryParamsUnfolded(f: Filters)
    ensures QueryParams(f) == ParamFor(f, TimeRangeKey) + ParamFor(f, StartDateKey) + ParamFor(f, EndDateKey)
      + ParamFor(f, CategoryIdKey) + ParamFor(f, StatusKey) + ParamFor(f, PriorityKey)
  {
    var k1 := Keys[1..];
    var k2 := k1[1..];
    var k3 := k2[1..];
    var k4 := k3[1..];
    var k5 := k4[1..];
    assert k5 == [PriorityKey] && k5[1..] == [];
    assert SetParams(f, k5) == ParamFor(f, PriorityKey) + [];
    assert SetParams(f, k4) == ParamFor(f, StatusKey) + SetParams(f, k5);
    assert SetParams(f, k3) == ParamFor(f, CategoryIdKey) + SetParams(f, k4);
    assert SetParams(f, k2) == ParamFor(f, EndDateKey) + SetParams(f, k3);
    assert SetParams(f, k1) == ParamFor(f, StartDateKey) + SetParams(f, k2);
    assert QueryParams(f) == ParamFor(f, TimeRangeKey) + SetParams(f, k1);
    ConcatSix(ParamFor(f, TimeRangeKey), ParamFor(f, StartDateKey), ParamFor(f, EndDateKey),
              ParamFor(f, CategoryIdKey), ParamFor(f, StatusKey), ParamFor(f, PriorityKey));
  }

  /** Regrouping six concatenated parameter lists. */
  lemma ConcatSix(a: seq<Param>, b: seq<Param>, c: seq<Param>, d: seq<Param>, e: seq<Param>, g: seq<Param>)
    ensures a + (b + (c + (d + (e + (g + []))))) == a + b + c + d + e + g
  {
    assert g + [] == g;
    assert e + g + [] == e + g;
  }

  /** The value of a key in the query string, "" when the key is absent
      (how the server reads its query into fields). */
  function Lookup(ps: seq<Param>, k: Key): string
  {
    if ps == [] then "" else if ps[0].key == k then ps[0].value else Lookup(ps[1..], k)
  }

  lemma {:induction false} LookupSetParams(f: Filters, keys: seq<Key>, k: Key)
    requires k in keys && forall i, j :: 0 <= i < j < |keys| ==> keys[i] != keys[j]
    ensures Lookup(SetParams(f, keys), k) == Field(f, k)
  {
    var head := ParamFor(f, keys[0]);
    var tail := SetParams(f, keys[1..]);
    assert SetParams(f, keys) == head + tail;
    if head == [] {
      assert head + tail == tail;
    } else {
      assert (head + tail)[0] == head[0] && (head + tail)[1..] == tail;
    }
    if keys[0] == k {
      if head == [] {
        assert k !in keys[1..] by {
          forall j | 0 <= j < |keys[1..]| ensures keys[1..][j] != k {
            assert keys[1..][j] == keys[j + 1];
          }
        }
        LookupAbsent(f, keys[1..], k);
      }
    } else {
      assert k in keys[1..];
      LookupSetParams(f, keys[1..], k);
    }
  }

  lemma {:induction false} LookupAbsent(f: Filters, keys: seq<Key>, k: Key)
    requires k !in keys
    ensures Lookup(SetParams(f, keys), k) == ""
  {
    if keys != [] {
      LookupAbsent(f, keys[1..], k);
      var head := ParamFor(f, keys[0]);
      assert (head + SetParams(f, keys[1..]))[|head|..] == SetParams(f, keys[1..]);
    }
  }

  /** The server reads every filter back from the query string as it was
      set, and an unset one as absent. */
  lemma ParamsRoundTrip(f: Filters, k: Key)
    ensures Lookup(QueryParams(f), k) == Field(f, k)
  {
    LookupSetParams(f, Keys, k);
  }

  /** A parameter is present exactly for a set field, in the order of the
      appends: the keys of the query string are the keys of the set fields. */
  lemma {:induction false} ParamKeysOrdered(f: Filters, keys: seq<Key>)
    ensures Map(SetParams(f, keys), ParamKey) == Filter(keys, (k: Key) => Field(f, k) != "")
  {
    if keys != [] {
      ParamKeysOrdered(f, keys[1..]);
      var head := ParamFor(f, keys[0]);
      var tail := SetParams(f, keys[1..]);
      assert Map(head + tail, ParamKey) == Map(head, ParamKey) + Map(tail, ParamKey);
      FilterCons(keys, (k: Key) => Field(f, k) != "");
    }
  }

  /** A request: the path and its query parameters. */
  datatype Request = Request(path: string, params: seq<Param>)

  /** How a failed fetch is reported: the server's message, or a fixed
      text when there is none. */
  function ErrorText(message: Option<string>): (r: string)
    ensures r != ""
    ensures message.Some? && message.value != "" ==> r == message.value
  {
    if message.Some? && message.value != "" then message.value else "Failed to fetch analytics"
  }

  class Store {
    var data: Option<AnalyticsService.Analytics>
    var loading: bool
    var error: Option<string>
    var filters: Filters

    /** The store's initial state. */
    constructor()
      ensures data.None? && !loading && error.None? && filters == InitialFilters()
    {
      data := None;
      loading := false;
      error := None;
      filters := InitialFilters();
    }

    /** The first half of fetchAnalytics: loading starts, the error is
        cleared and the request for the current filters goes out. */
    method StartFetch() returns (request: Request)
      modifies this
      ensures loading && error.None?
      ensures data == old(data) && filters == old(filters)
      ensures request == Request("/analytics", QueryParams(filters))
    {
      loading := true;
      error := None;
      var params := BuildParams(filters);
      request := Request("/analytics", params);
    }

    /** The second half: the report is stored, or the failure's message;
        a failure keeps the last report. Either way loading ends. */
    method FinishFetch(answer: Result<AnalyticsService.Analytics, Option<string>>)
      modifies this
      ensures !loading && filters == old(filters)
      ensures answer.Success? ==> data == Some(answer.value) && error == old(error)
      ensures answer.Failure? ==> data == old(data) && error == Some(ErrorText(answer.error))
    {
      if answer.Success? {
        data := Some(answer.value);
        loading := false;
      } else {
        error := Some(ErrorText(answer.error));
        loading := false;
      }
    }

    /** setFilters: the changes are merged into the filters and a fetch
        with the new filters starts. */
    method SetFilters(changes: FilterChanges) returns (request: Request)
      modifies this
      ensures filters == Merge(old(filters), changes)
      ensures loading && error.None? && data == old(data)
      ensures request == Request("/analytics", QueryParams(filters))
    {
      filters := Merge(filters, changes);
      request := StartFetch();
    }

    /** exportCSV: the export goes out with the same parameters as a fetch;
        the store does not change. */
    method ExportRequest() returns (request: Request)
      ensures request == Request("/analytics/export/csv", QueryParams(filters))
    {
      var params := BuildParams(filters);
      request := Request("/analytics/export/csv", params);
    }
  }
}
