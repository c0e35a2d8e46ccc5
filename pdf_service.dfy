/** `ReportsService.get_company_usage`: the data behind the PDF report of one
    company. Oldest-first windows, the company's SLA, per-UTC-day hour totals,
    the entries sorted by start time, per-window sums over the days of each
    window, and the utilisation figures. */
module PdfService {
  import opened Outcomes
  import opened Calendar
  import opened Periods
  import opened Buckets
  import opened Sla
  import opened Reports

  // ---------------------------------------------------------------------------
  // Daily totals.

  /** The UTC dates of the entries in first-seen order: the keys of
      `daily_totals` in insertion order. */
  function DayOrder(es: seq<Entry>): (r: seq<Date>)
    ensures forall i, j :: 0 <= i < j < |r| ==> r[i] != r[j]
  {
    if es == [] then []
    else
      var prev := DayOrder(es[..|es| - 1]);
      var e := es[|es| - 1];
      if e.start.Some? && e.start.value.date !in prev then prev + [e.start.value.date] else prev
  }

  /** `daily_totals.get(d, 0)`. */
  function DayGet(m: map<Date, real>, d: Date): real
  {
    if d in m then m[d] else 0.0
  }

  /** `daily_totals[entry_date] += hrs` over the entries in order. */
  function DailyTotals(es: seq<Entry>): map<Date, real>
  {
    if es == [] then map[]
    else
      var m := DailyTotals(es[..|es| - 1]);
      var e := es[|es| - 1];
      if e.start.None? then m else m[e.start.value.date := DayGet(m, e.start.value.date) + Hours(e)]
  }

  /** The dictionary's keys are exactly the dates in insertion order, and a date
      is one of them exactly when some entry starts on it. */
  lemma {:induction false} DailyKeys(es: seq<Entry>, d: Date)
    ensures d in DailyTotals(es) <==> d in DayOrder(es)
    ensures d in DayOrder(es) <==> exists k :: 0 <= k < |es| && es[k].start.Some? && es[k].start.value.date == d
  {
    if es != [] {
      var n := |es| - 1;
      DailyKeys(es[..n], d);
      assert forall k :: 0 <= k < n ==> es[..n][k] == es[k];
      if exists k :: 0 <= k < |es| && es[k].start.Some? && es[k].start.value.date == d {
        var k :| 0 <= k < |es| && es[k].start.Some? && es[k].start.value.date == d;
        if k < n {
          assert es[..n][k] == es[k];
        }
      }
    }
  }

  /** An entry starts on day d exactly when its UTC date is d. */
  lemma OnDay(e: Entry, d: Date)
    ensures StartsBetween(e, d, d) <==> e.start.Some? && e.start.value.date == d
  {
    if e.start.Some? {
      SerialOrder(d, e.start.value.date);
      SerialOrder(e.start.value.date, d);
    }
  }

  /** `daily_totals[d]` is the hours of the entries whose UTC date is d (missing
      hours as 0); an absent day reads as 0. */
  lemma {:induction false} DailyTotalsAreDayHours(es: seq<Entry>, d: Date)
    ensures DayGet(DailyTotals(es), d) == HoursBetween(es, d, d)
  {
    if es != [] {
      var n := |es| - 1;
      DailyTotalsAreDayHours(es[..n], d);
      OnDay(es[n], d);
    }
  }

  /** `sum(daily_totals.values())`, in insertion order. */
  function DaySum(days: seq<Date>, m: map<Date, real>): real
  {
    if days == [] then 0.0 else DaySum(days[..|days| - 1], m) + DayGet(m, days[|days| - 1])
  }

  lemma {:induction false} DaySumUnchanged(days: seq<Date>, m: map<Date, real>, d: Date, v: real)
    requires d !in days
    ensures DaySum(days, m[d := v]) == DaySum(days, m)
  {
    if days != [] {
      assert days[|days| - 1] in days;
      assert forall x :: x in days[..|days| - 1] ==> x in days;
      DaySumUnchanged(days[..|days| - 1], m, d, v);
    }
  }

  lemma {:induction false} DaySumBump(days: seq<Date>, m: map<Date, real>, d: Date, h: real)
    requires d in days
    requires forall i, j :: 0 <= i < j < |days| ==> days[i] != days[j]
    ensures DaySum(days, m[d := DayGet(m, d) + h]) == DaySum(days, m) + h
  {
    var n := |days| - 1;
    var prefix := days[..n];
    if days[n] == d {
      assert d !in prefix by {
        forall i | 0 <= i < n
          ensures prefix[i] != d
        {
          assert days[i] != days[n];
        }
      }
      DaySumUnchanged(prefix, m, d, DayGet(m, d) + h);
    } else {
      assert d in prefix by {
        var i :| 0 <= i < |days| && days[i] == d;
        assert i < n && prefix[i] == d;
      }
      DaySumBump(prefix, m, d, h);
    }
  }

  /** A day seen for the first time adds its hours as a new last key. */
  lemma DaySumNewDay(days: seq<Date>, m: map<Date, real>, d: Date, h: real)
    requires d !in days && d !in m
    ensures DaySum(days + [d], m[d := DayGet(m, d) + h]) == DaySum(days, m) + h
  {
    var m' := m[d := DayGet(m, d) + h];
    assert (days + [d])[..|days|] == days;
    DaySumUnchanged(days, m, d, DayGet(m, d) + h);
    assert DayGet(m', d) == h;
  }

  lemma AllStartedPrefix(es: seq<Entry>, n: nat)
    requires AllStarted(es) && n <= |es|
    ensures AllStarted(es[..n])
  {
    assert forall k :: 0 <= k < n ==> es[..n][k] == es[k];
  }

  /** The daily totals after one more started entry. */
  lemma DailySnoc(pre: seq<Entry>, e: Entry)
    requires e.start.Some?
    ensures DailyTotals(pre + [e]) == DailyTotals(pre)[e.start.value.date := DayGet(DailyTotals(pre), e.start.value.date) + Hours(e)]
    ensures DayOrder(pre + [e]) == if e.start.value.date in DayOrder(pre) then DayOrder(pre) else DayOrder(pre) + [e.start.value.date]
    ensures TotalHours(pre + [e]) == TotalHours(pre) + Hours(e)
  {
    assert (pre + [e])[..|pre|] == pre;
  }

  /** Adding one entry to the daily totals adds its hours to their sum. */
  lemma TotalTimeStep(pre: seq<Entry>, e: Entry)
    requires e.start.Some?
    requires DaySum(DayOrder(pre), DailyTotals(pre)) == TotalHours(pre)
    ensures DaySum(DayOrder(pre + [e]), DailyTotals(pre + [e])) == TotalHours(pre + [e])
  {
    var d := e.start.value.date;
    DailySnoc(pre, e);
    DailyKeys(pre, d);
    if d in DayOrder(pre) {
      DaySumBump(DayOrder(pre), DailyTotals(pre), d, Hours(e));
    } else {
      DaySumNewDay(DayOrder(pre), DailyTotals(pre), d, Hours(e));
    }
  }

  /** `total_time` is the hours of all entries (missing hours as 0). */
  lemma {:induction false} TotalTimeIsTotalHours(es: seq<Entry>)
    requires AllStarted(es)
    ensures DaySum(DayOrder(es), DailyTotals(es)) == TotalHours(es)
  {
    if es != [] {
      var n := |es| - 1;
      AllStartedPrefix(es, n);
      TotalTimeIsTotalHours(es[..n]);
      TotalTimeStep(es[..n], es[n]);
      assert es == es[..n] + [es[n]];
    }
  }

  // ---------------------------------------------------------------------------
  // Window sums over days.

  /** Splitting off a range's first day. */
  lemma {:induction false} HoursBetweenStep(es: seq<Entry>, a: Date, b: Date)
    requires DateLe(a, b) && a != LastDate
    ensures HoursBetween(es, a, b) == HoursBetween(es, a, a) + HoursBetween(es, NextDay(a), b)
  {
    if es != [] {
      var n := |es| - 1;
      HoursBetweenStep(es[..n], a, b);
      var e := es[n];
      if e.start.Some? {
        var x := e.start.value.date;
        NextDayIsSuccessor(a);
        SerialOrder(a, x);
        SerialOrder(x, a);
        SerialOrder(x, b);
        SerialOrder(a, b);
        SerialOrder(NextDay(a), x);
      }
    }
  }

  /** A reversed range holds no hours. */
  lemma {:induction false} HoursBetweenEmpty(es: seq<Entry>, a: Date, b: Date)
    requires DateLt(b, a)
    ensures HoursBetween(es, a, b) == 0.0
  {
    if es != [] {
      var n := |es| - 1;
      HoursBetweenEmpty(es[..n], a, b);
      if es[n].start.Some? {
        var x := es[n].start.value.date;
        SerialOrder(a, x);
        SerialOrder(x, b);
        SerialOrder(b, a);
      }
    }
  }

  /** The `while cur <= end` loop: the sum of the daily totals of every day from
      start to end inclusive, which is the hours of the entries dated in that
      range. */
  method SumWindow(ghost es: seq<Entry>, daily: map<Date, real>, start: Date, end: Date) returns (usage: real)
    requires end != LastDate
    requires forall d :: DayGet(daily, d) == HoursBetween(es, d, d)
    ensures usage == HoursBetween(es, start, end)
  {
    usage := 0.0;
    var cur := start;
    while DateLe(cur, end)
      invariant usage + HoursBetween(es, cur, end) == HoursBetween(es, start, end)
      invariant cur == start || Serial(cur) <= Serial(end) + 1
      decreases Serial(end) + 1 - Serial(cur)
    {
      SerialOrder(cur, end);
      HoursBetweenStep(es, cur, end);
      usage := usage + DayGet(daily, cur);
      NextDayIsSuccessor(cur);
      cur := NextDay(cur);
    }
    SerialOrder(cur, end);
    HoursBetweenEmpty(es, cur, end);
  }

  /** One entry of `monthly_totals`: the month and year of the window's end (the
      `%b %Y` label) and the window's usage. */
  datatype MonthTotal = MonthTotal(month: int, year: int, usage: real)

  /** The monthly totals, window by window. */
  function MonthlyTotals(es: seq<Entry>, ws: seq<Window>): (m: seq<MonthTotal>)
    ensures |m| == |ws|
  {
    if ws == [] then []
    else
      var w := ws[|ws| - 1];
      MonthlyTotals(es, ws[..|ws| - 1]) + [MonthTotal(w.end.month, w.end.year, HoursBetween(es, w.start, w.end))]
  }

  lemma {:induction false} MonthlyTotalsAt(es: seq<Entry>, ws: seq<Window>, i: nat)
    requires i < |ws|
    ensures MonthlyTotals(es, ws)[i] == MonthTotal(ws[i].end.month, ws[i].end.year, HoursBetween(es, ws[i].start, ws[i].end))
  {
    var n := |ws| - 1;
    if i < n {
      MonthlyTotalsAt(es, ws[..n], i);
    }
  }

  /** The window loop of `get_company_usage`. */
  method MonthlyLoop(ghost es: seq<Entry>, daily: map<Date, real>, ws: seq<Window>) returns (monthly: seq<MonthTotal>)
    requires forall i :: 0 <= i < |ws| ==> ws[i].end != LastDate
    requires forall d :: DayGet(daily, d) == HoursBetween(es, d, d)
    ensures monthly == MonthlyTotals(es, ws)
  {
    monthly := [];
    var i := 0;
    while i < |ws|
      invariant 0 <= i <= |ws|
      invariant monthly == MonthlyTotals(es, ws[..i])
    {
      var usage := SumWindow(es, daily, ws[i].start, ws[i].end);
      monthly := monthly + [MonthTotal(ws[i].end.month, ws[i].end.year, usage)];
      PrefixSnoc(ws, i);
      i := i + 1;
    }
    assert ws[..i] == ws;
  }

  /** `sum(m.usage for m in monthly_totals)`. */
  function SumUsage(m: seq<MonthTotal>): real
  {
    if m == [] then 0.0 else SumUsage(m[..|m| - 1]) + m[|m| - 1].usage
  }

  lemma {:induction false} SumUsageIsSum(m: seq<MonthTotal>, t: seq<real>)
    requires |m| == |t| && forall i :: 0 <= i < |m| ==> m[i].usage == t[i]
    ensures SumUsage(m) == Sum(t)
  {
    if m != [] {
      var n := |m| - 1;
      SumUsageIsSum(m[..n], t[..n]);
    }
  }

  /** Over windows that tile the entries' span, the window usages add up to the
      hours of all entries. */
  lemma MonthlyTotalsTile(es: seq<Entry>, ws: seq<Window>)
    requires Contiguous(ws) && |ws| > 0 && AllInSpan(es, ws[0].start, ws[|ws| - 1].end)
    ensures SumUsage(MonthlyTotals(es, ws)) == TotalHours(es)
  {
    var m := MonthlyTotals(es, ws);
    var t := Totals(es, ws, OnDate);
    ContiguousIsDisjoint(ws);
    forall i | 0 <= i < |ws|
      ensures m[i].usage == t[i]
    {
      MonthlyTotalsAt(es, ws, i);
      TotalsAreHoursBetween(es, ws, i);
    }
    SumUsageIsSum(m, t);
    TotalsConserveHours(es, ws, OnDate);
    SpanEntriesAllMatch(es, ws);
  }

  // ---------------------------------------------------------------------------
  // Entry rows.

  /** One element of `entry_rows` (end time, tag and description are carried
      through unchanged and not modelled). */
  datatype EntryRow = EntryRow(id: int, start: Stamp, hours: real)

  /** The rows appended in fetch order. */
  function RowsOf(es: seq<Entry>): (r: seq<EntryRow>)
    ensures |r| <= |es|
  {
    if es == [] then []
    else
      var e := es[|es| - 1];
      RowsOf(es[..|es| - 1]) + (if e.start.Some? then [EntryRow(e.id, e.start.value, Hours(e))] else [])
  }

  lemma {:induction false} RowsOfStarted(es: seq<Entry>)
    requires AllStarted(es)
    ensures |RowsOf(es)| == |es|
  {
    if es != [] {
      var n := |es| - 1;
      assert AllStarted(es[..n]) by {
        assert forall k :: 0 <= k < n ==> es[..n][k] == es[k];
      }
      RowsOfStarted(es[..n]);
    }
  }

  predicate SortedByStart(s: seq<EntryRow>)
  {
    forall i, j :: 0 <= i < j < |s| ==> StampLe(s[i].start, s[j].start)
  }

  /** Insert a row before the first row that does not start earlier. */
  function Insert(r: EntryRow, s: seq<EntryRow>): seq<EntryRow>
  {
    if s == [] then [r]
    else if StampLe(r.start, s[0].start) then [r] + s
    else [s[0]] + Insert(r, s[1..])
  }

  /** A row no later than every row of a sorted sequence can go in front. */
  lemma SortedCons(a: EntryRow, u: seq<EntryRow>)
    requires SortedByStart(u)
    requires forall x :: x in multiset(u) ==> StampLe(a.start, x.start)
    ensures SortedByStart([a] + u)
  {
    var t := [a] + u;
    forall i, j | 0 <= i < j < |t|
      ensures StampLe(t[i].start, t[j].start)
    {
      if i == 0 {
        assert t[j] == u[j - 1] && t[j] in multiset(u);
      } else {
        assert t[i] == u[i - 1] && t[j] == u[j - 1];
      }
    }
  }

  lemma {:induction false} InsertKeeps(r: EntryRow, s: seq<EntryRow>)
    requires SortedByStart(s)
    ensures SortedByStart(Insert(r, s))
    ensures multiset(Insert(r, s)) == multiset(s) + multiset{r}
  {
    if s == [] {
    } else if StampLe(r.start, s[0].start) {
      forall x: EntryRow | x in multiset(s)
        ensures StampLe(r.start, x.start)
      {
        var k :| 0 <= k < |s| && s[k] == x;
        assert k == 0 || StampLe(s[0].start, s[k].start);
      }
      SortedCons(r, s);
    } else {
      var rest := s[1..];
      assert s == [s[0]] + rest;
      assert SortedByStart(rest) by {
        forall i, j | 0 <= i < j < |rest|
          ensures StampLe(rest[i].start, rest[j].start)
        {
          assert rest[i] == s[i + 1] && rest[j] == s[j + 1];
        }
      }
      InsertKeeps(r, rest);
      var u := Insert(r, rest);
      forall x: EntryRow | x in multiset(u)
        ensures StampLe(s[0].start, x.start)
      {
        if x != r {
          assert x in multiset(rest);
          var k :| 0 <= k < |rest| && rest[k] == x;
          assert s[k + 1] == x;
        }
      }
      SortedCons(s[0], u);
    }
  }

  /** `entry_rows.sort(key=start_time)` by insertion. */
  function SortByStart(s: seq<EntryRow>): seq<EntryRow>
  {
    if s == [] then [] else Insert(s[0], SortByStart(s[1..]))
  }

  /** The rows with start time `t`, in their order in `s`. */
  function WithStart(s: seq<EntryRow>, t: Stamp): (r: seq<EntryRow>)
    ensures |r| <= |s|
  {
    if s == [] then [] else (if s[0].start == t then [s[0]] else []) + WithStart(s[1..], t)
  }

  /** Insertion passes only rows that start strictly earlier, so among rows with
      one start time the inserted row keeps its place in front. */
  lemma {:induction false} InsertStable(r: EntryRow, s: seq<EntryRow>, t: Stamp)
    ensures WithStart(Insert(r, s), t) == WithStart([r] + s, t)
  {
    assert ([r] + s)[1..] == s;
    if s != [] && !StampLe(r.start, s[0].start) {
      InsertStable(r, s[1..], t);
      assert ([s[0]] + Insert(r, s[1..]))[1..] == Insert(r, s[1..]);
      assert ([r] + s[1..])[1..] == s[1..];
      assert r.start != s[0].start;
    }
  }

  /** Python's sort is stable: rows with equal start times stay in input order. */
  lemma {:induction false} SortByStartStable(s: seq<EntryRow>, t: Stamp)
    ensures WithStart(SortByStart(s), t) == WithStart(s, t)
  {
    if s != [] {
      SortByStartStable(s[1..], t);
      InsertStable(s[0], SortByStart(s[1..]), t);
      assert ([s[0]] + SortByStart(s[1..]))[1..] == SortByStart(s[1..]);
    }
  }

  /** The sorted rows are in start-time order, are the same rows, and keep rows
      with equal start times in their input order. */
  lemma {:induction false} SortByStartSorts(s: seq<EntryRow>)
    ensures SortedByStart(SortByStart(s))
    ensures multiset(SortByStart(s)) == multiset(s)
    ensures forall t :: WithStart(SortByStart(s), t) == WithStart(s, t)
  {
    if s != [] {
      SortByStartSorts(s[1..]);
      InsertKeeps(s[0], SortByStart(s[1..]));
      assert s == [s[0]] + s[1..];
    }
    forall t {
      SortByStartStable(s, t);
    }
  }

  // ---------------------------------------------------------------------------
  // The report data.

  /** The dictionary `get_company_usage` returns (the raw company payload, the
      period string and the windows' ISO formatting are not modelled). */
  datatype UsageData = UsageData(sla: real, totalTime: real, dayOrder: seq<Date>, dailyTotals: map<Date, real>,
                                 entries: seq<EntryRow>, windows: seq<Window>, months: int,
                                 monthlyTotals: seq<MonthTotal>, totalUsage: real, totalSla: real,
                                 totalDiff: real, avgUtil: real)

  /** The figures `get_company_usage` computes from the windows, the SLA and the
      company's entries, once every entry has a start time. */
  function UsageDataOf(entries: seq<Entry>, ws: seq<Window>, sla: real, months: int): UsageData
  {
    var days := DayOrder(entries);
    var daily := DailyTotals(entries);
    var monthly := MonthlyTotals(entries, ws);
    var totalUsage := SumUsage(monthly);
    var totalSla := sla * months as real;
    UsageData(sla, DaySum(days, daily), days, daily, SortByStart(RowsOf(entries)), ws, months,
              monthly, totalUsage, totalSla, totalUsage - totalSla, Utilisation(totalUsage, totalSla))
  }

  /** What `get_company_usage` returns for the company rows and the stored
      entries of the company: windows first (none is an IndexError), then the
      company row, then the entries, each of which needs a start time. */
  function CompanyUsageData(companyId: int, p: Period, months: int,
                            companies: seq<CompanyRow>, entries: seq<Entry>): Result<UsageData>
  {
    match BuildWindows(p, months)
    case Err(e) => Err(e)
    case Ok(ws) =>
      if |ws| == 0 then Err(NoWindows)
      else
        match FirstRow(companies, companyId)
        case None => Err(CompanyNotFound)
        case Some(row) =>
          if !AllStarted(entries) then Err(MissingStartTime)
          else Ok(UsageDataOf(entries, ws, SlaOf(row), months))
  }

  /** A successful report is the figures over the built windows and the first
      company row's SLA. */
  lemma CompanyUsageDataIs(companyId: int, p: Period, months: int, companies: seq<CompanyRow>,
                           entries: seq<Entry>, data: UsageData)
    requires CompanyUsageData(companyId, p, months, companies, entries) == Ok(data)
    ensures BuildWindows(p, months).Ok? && |BuildWindows(p, months).value| > 0
    ensures FirstRow(companies, companyId).Some? && AllStarted(entries)
    ensures data == UsageDataOf(entries, BuildWindows(p, months).value, SlaOf(FirstRow(companies, companyId).value), months)
  {
  }

  /** The entry loop: one row per entry, its hours added to its UTC day; an entry
      without a start time makes `isoparse` raise. */
  method DailyLoop(entries: seq<Entry>) returns (failed: bool, days: seq<Date>, daily: map<Date, real>, rows: seq<EntryRow>)
    ensures failed <==> !AllStarted(entries)
    ensures !failed ==> days == DayOrder(entries) && daily == DailyTotals(entries) && rows == RowsOf(entries)
  {
    days, daily, rows := [], map[], [];
    var k := 0;
    while k < |entries|
      invariant 0 <= k <= |entries|
      invariant AllStarted(entries[..k])
      invariant days == DayOrder(entries[..k]) && daily == DailyTotals(entries[..k]) && rows == RowsOf(entries[..k])
    {
      var e := entries[k];
      if e.start.None? {
        return true, days, daily, rows;
      }
      var d := e.start.value.date;
      var hrs := Hours(e);
      rows := rows + [EntryRow(e.id, e.start.value, hrs)];
      DailyKeys(entries[..k], d);
      if d !in daily {
        days := days + [d];
      }
      daily := daily[d := DayGet(daily, d) + hrs];
      PrefixSnoc(entries, k);
      k := k + 1;
    }
    assert entries[..k] == entries;
    return false, days, daily, rows;
  }

  /** Everything after the company lookup: the entry loop, the sort, the window
      loop and the totals. */
  method Aggregate(entries: seq<Entry>, ws: seq<Window>, sla: real, months: int) returns (failed: bool, data: UsageData)
    requires forall i :: 0 <= i < |ws| ==> ws[i].end != LastDate
    ensures failed <==> !AllStarted(entries)
    ensures !failed ==> data == UsageDataOf(entries, ws, sla, months)
  {
    var days, daily, rows;
    failed, days, daily, rows := DailyLoop(entries);
    data := UsageData(sla, 0.0, [], map[], [], ws, months, [], 0.0, 0.0, 0.0, 0.0);
    if failed {
      return;
    }
    forall d
      ensures DayGet(daily, d) == HoursBetween(entries, d, d)
    {
      DailyTotalsAreDayHours(entries, d);
    }
    var monthly := MonthlyLoop(entries, daily, ws);
    var totalUsage := SumUsage(monthly);
    var totalSla := sla * months as real;
    data := UsageData(sla, DaySum(days, daily), days, daily, SortByStart(rows), ws, months,
                      monthly, totalUsage, totalSla, totalUsage - totalSla, Utilisation(totalUsage, totalSla));
  }

  /** `ReportsService.get_company_usage` over a fixed store of the company's
      entries. */
  method GetCompanyUsage(companyId: int, p: Period, months: int, companies: seq<CompanyRow>, store: seq<Entry>)
    returns (r: Result<UsageData>)
    ensures r == CompanyUsageData(companyId, p, months, companies, store)
  {
    var built := CollectWindows(p, months);
    if built.Err? {
      return Err(built.error);
    }
    var ws := built.value;
    if |ws| == 0 {
      return Err(NoWindows);
    }
    var comp := FirstRow(companies, companyId);
    if comp.None? {
      return Err(CompanyNotFound);
    }
    var entries := FetchAllEntries(store);
    forall i | 0 <= i < |ws|
      ensures ws[i].end != LastDate
    {
      assert ws[i].end.day == 25;
    }
    var failed, data := Aggregate(entries, ws, SlaOf(comp.value), months);
    if failed {
      return Err(MissingStartTime);
    }
    return Ok(data);
  }

  // ---------------------------------------------------------------------------
  // Properties of the report data.

  /** Each monthly total is labelled with its window's end month and holds the
      hours dated in that window. */
  lemma UsageDataOfMonths(entries: seq<Entry>, ws: seq<Window>, sla: real, months: int, i: nat)
    requires i < |ws|
    ensures |UsageDataOf(entries, ws, sla, months).monthlyTotals| == |ws|
    ensures UsageDataOf(entries, ws, sla, months).monthlyTotals[i]
         == MonthTotal(ws[i].end.month, ws[i].end.year, HoursBetween(entries, ws[i].start, ws[i].end))
  {
    MonthlyTotalsAt(entries, ws, i);
  }

  /** The windows: `months` of them, oldest first, contiguous, the last one
      ending on the 25th of the requested month; each monthly total is labelled
      with its window's end month and holds the hours dated in that window. */
  lemma CompanyUsageDataWindows(companyId: int, p: Period, months: int, companies: seq<CompanyRow>,
                                entries: seq<Entry>, data: UsageData)
    requires CompanyUsageData(companyId, p, months, companies, entries) == Ok(data)
    ensures |data.windows| == months && Contiguous(data.windows)
    ensures forall i :: 0 <= i < months ==> data.windows[i] == PeriodWindow(p, months - 1 - i)
    ensures |data.monthlyTotals| == months
    ensures forall i :: 0 <= i < months ==>
      (data.monthlyTotals[i] == MonthTotal(data.windows[i].end.month, data.windows[i].end.year,
                                           HoursBetween(entries, data.windows[i].start, data.windows[i].end)))
    ensures data.monthlyTotals[months - 1].month == p.month && data.monthlyTotals[months - 1].year == p.year
  {
    CompanyUsageDataIs(companyId, p, months, companies, entries, data);
    var ws := BuildWindows(p, months).value;
    var sla := SlaOf(FirstRow(companies, companyId).value);
    BuildWindowsContiguous(p, months, ws);
    forall i | 0 <= i < months
      ensures data.monthlyTotals[i] == MonthTotal(ws[i].end.month, ws[i].end.year, HoursBetween(entries, ws[i].start, ws[i].end))
    {
      UsageDataOfMonths(entries, ws, sla, months, i);
    }
    assert ws[months - 1] == PeriodWindow(p, 0);
    NewestWindowEndsInPeriod(p);
  }

  /** The day totals hold each day's hours, `total_time` is the hours of all
      entries, and the entry rows are all the entries sorted by start time. */
  lemma UsageDataOfDays(entries: seq<Entry>, ws: seq<Window>, sla: real, months: int, d: Date)
    requires AllStarted(entries)
    ensures DayGet(UsageDataOf(entries, ws, sla, months).dailyTotals, d) == HoursBetween(entries, d, d)
    ensures d in UsageDataOf(entries, ws, sla, months).dailyTotals
        <==> exists k :: 0 <= k < |entries| && entries[k].start.Some? && entries[k].start.value.date == d
    ensures UsageDataOf(entries, ws, sla, months).totalTime == TotalHours(entries)
    ensures SortedByStart(UsageDataOf(entries, ws, sla, months).entries)
    ensures multiset(UsageDataOf(entries, ws, sla, months).entries) == multiset(RowsOf(entries))
    ensures |UsageDataOf(entries, ws, sla, months).entries| == |entries|
  {
    var data := UsageDataOf(entries, ws, sla, months);
    DailyTotalsAreDayHours(entries, d);
    DailyKeys(entries, d);
    TotalTimeIsTotalHours(entries);
    SortByStartSorts(RowsOf(entries));
    RowsOfStarted(entries);
    assert |data.entries| == |multiset(data.entries)|;
  }

  /** The day totals hold each day's hours, `total_time` is the hours of all
      entries, and the entry rows are all the entries sorted by start time. */
  lemma CompanyUsageDataDays(companyId: int, p: Period, months: int, companies: seq<CompanyRow>,
                             entries: seq<Entry>, data: UsageData, d: Date)
    requires CompanyUsageData(companyId, p, months, companies, entries) == Ok(data)
    ensures DayGet(data.dailyTotals, d) == HoursBetween(entries, d, d)
    ensures d in data.dailyTotals <==> exists k :: 0 <= k < |entries| && entries[k].start.Some? && entries[k].start.value.date == d
    ensures data.totalTime == TotalHours(entries)
    ensures SortedByStart(data.entries) && multiset(data.entries) == multiset(RowsOf(entries))
    ensures |data.entries| == |entries|
  {
    CompanyUsageDataIs(companyId, p, months, companies, entries, data);
    UsageDataOfDays(entries, BuildWindows(p, months).value, SlaOf(FirstRow(companies, companyId).value), months, d);
  }

  /** The totals: `total_sla = sla * months`, `total_diff = total_usage -
      total_sla`, utilisation 0 for a zero total SLA; and over contiguous
      windows whose span holds every entry's date, the window usages add up to
      `total_time`. */
  lemma UsageDataOfTotals(entries: seq<Entry>, ws: seq<Window>, sla: real, months: int)
    requires AllStarted(entries)
    ensures var data := UsageDataOf(entries, ws, sla, months);
      data.totalSla == sla * months as real && data.totalDiff == data.totalUsage - data.totalSla
      && (data.totalSla == 0.0 ==> data.avgUtil == 0.0)
      && (data.totalSla != 0.0 ==> data.avgUtil * data.totalSla == data.totalUsage * 100.0)
    ensures Contiguous(ws) && |ws| > 0 && AllInSpan(entries, ws[0].start, ws[|ws| - 1].end) ==>
      UsageDataOf(entries, ws, sla, months).totalUsage == UsageDataOf(entries, ws, sla, months).totalTime
  {
    if Contiguous(ws) && |ws| > 0 && AllInSpan(entries, ws[0].start, ws[|ws| - 1].end) {
      TotalTimeIsTotalHours(entries);
      MonthlyTotalsTile(entries, ws);
    }
  }

  /** A successful report uses the SLA of the first company row, so its totals
      are those of `UsageDataOfTotals`; when every entry is dated inside the
      windows' span, as the fetch filter ensures, the window usages add up to
      `total_time`. */
  lemma CompanyUsageDataTotals(companyId: int, p: Period, months: int, companies: seq<CompanyRow>,
                               entries: seq<Entry>, data: UsageData)
    requires CompanyUsageData(companyId, p, months, companies, entries) == Ok(data)
    ensures FirstRow(companies, companyId).Some? && data.sla == SlaOf(FirstRow(companies, companyId).value)
    ensures data == UsageDataOf(entries, data.windows, data.sla, months)
    ensures AllInSpan(entries, data.windows[0].start, data.windows[|data.windows| - 1].end) ==>
      data.totalUsage == data.totalTime
  {
    CompanyUsageDataIs(companyId, p, months, companies, entries, data);
    var ws := BuildWindows(p, months).value;
    BuildWindowsContiguous(p, months, ws);
    UsageDataOfTotals(entries, ws, SlaOf(FirstRow(companies, companyId).value), months);
  }

  /** With valid windows, a company id with no row fails with "not found"
      whatever the entries, and only then. */
  lemma CompanyUsageDataNotFound(companyId: int, p: Period, months: int, companies: seq<CompanyRow>, entries: seq<Entry>)
    requires months >= 1 && InRange(p, months - 1)
    ensures CompanyUsageData(companyId, p, months, companies, entries) == Err(CompanyNotFound)
        <==> forall k :: 0 <= k < |companies| ==> companies[k].hubspotId != companyId
  {
  }
}
