/** The report endpoints of the reports router: the single-company and
    all-company usage reports, the companies-with-time listing and the over-SLA
    report, each as a loop over already-fetched rows (a method) proved against a
    specification function, with the properties of the reports proved about the
    specification functions. Query results are parameters: `entries` are the
    `time_entries` rows a query returned, `companies` the `hubspot_companies`
    rows. */
module Reports {
  import opened Outcomes
  import opened Calendar
  import opened Periods
  import opened Buckets
  import opened Sla

  // ---------------------------------------------------------------------------
  // Company rows and SLA lookup.

  /** A `hubspot_companies` row: its HubSpot id and its raw `hours_per_month`. */
  datatype CompanyRow = CompanyRow(hubspotId: int, hoursPerMonth: Option<real>)

  /** `float(c.get("hours_per_month") or 0)`. */
  function SlaOf(row: CompanyRow): real
  {
    match row.hoursPerMonth
    case None => 0.0
    case Some(h) => h
  }

  /** The row `.eq("hubspot_id", id).limit(1)` returns: the first row with that id. */
  function FirstRow(rows: seq<CompanyRow>, id: int): (r: Option<CompanyRow>)
    ensures r.None? <==> forall k :: 0 <= k < |rows| ==> rows[k].hubspotId != id
    ensures r.Some? ==> exists k :: 0 <= k < |rows| && rows[k] == r.value && r.value.hubspotId == id &&
                          forall j :: 0 <= j < k ==> rows[j].hubspotId != id
  {
    if rows == [] then None
    else if rows[0].hubspotId == id then Some(rows[0])
    else
      var r := FirstRow(rows[1..], id);
      assert forall k :: 0 < k < |rows| ==> rows[k] == rows[1..][k - 1];
      r
  }

  /** The single-company SLA: the first matching row's hours, 0 without a row. */
  function FirstSla(rows: seq<CompanyRow>, id: int): real
  {
    match FirstRow(rows, id)
    case None => 0.0
    case Some(row) => SlaOf(row)
  }

  /** `{c["hubspot_id"]: ... for c in rows}`: every id of the rows is a key, and a
      later row with the same id replaces an earlier one. */
  function SlaTable(rows: seq<CompanyRow>): (t: map<int, real>)
    ensures forall c :: c in t <==> exists k :: 0 <= k < |rows| && rows[k].hubspotId == c
  {
    if rows == [] then map[]
    else
      var t := SlaTable(rows[..|rows| - 1]);
      assert forall k :: 0 <= k < |rows| - 1 ==> rows[..|rows| - 1][k] == rows[k];
      t[rows[|rows| - 1].hubspotId := SlaOf(rows[|rows| - 1])]
  }

  /** `meta.get(cid, {}).get(...) or 0`: the SLA of a company, 0 without a row. */
  function SlaFor(t: map<int, real>, c: int): real
  {
    if c in t then t[c] else 0.0
  }

  /** The table holds the SLA of the last row carrying each id. */
  lemma {:induction false} LastRowWins(rows: seq<CompanyRow>, k: nat)
    requires k < |rows|
    requires forall j :: k < j < |rows| ==> rows[j].hubspotId != rows[k].hubspotId
    ensures SlaFor(SlaTable(rows), rows[k].hubspotId) == SlaOf(rows[k])
  {
    var n := |rows| - 1;
    if k < n {
      assert rows[..n][k] == rows[k];
      LastRowWins(rows[..n], k);
    }
  }

  // ---------------------------------------------------------------------------
  // Dictionary key order: companies in the order of their first admitted entry.

  /** Which entries create a key in an endpoint's `defaultdict`. */
  datatype Admission =
    | Truthy                                                              // `if not cid: continue`
    | TruthyInWindow(ws: seq<Window>, rule: MatchRule)                    // ... and the entry lands in a window
    | CustomerInWindow(customers: set<int>, ws: seq<Window>, rule: MatchRule) // a customer's entry in a window

  predicate Admits(a: Admission, e: Entry)
  {
    match a
    case Truthy => HasCompany(e)
    case TruthyInWindow(ws, rule) => HasCompany(e) && Bucket(ws, rule, e).Some?
    case CustomerInWindow(cs, ws, rule) => e.company.Some? && e.company.value in cs && Bucket(ws, rule, e).Some?
  }

  /** The keys of the endpoint's dictionary in insertion order: each company once,
      at the position of its first admitted entry. */
  function FirstSeen(es: seq<Entry>, a: Admission): (r: seq<int>)
    ensures forall i, j :: 0 <= i < j < |r| ==> r[i] != r[j]
  {
    if es == [] then []
    else
      var prev := FirstSeen(es[..|es| - 1], a);
      var e := es[|es| - 1];
      if Admits(a, e) && e.company.value !in prev then prev + [e.company.value] else prev
  }

  /** A company is a key exactly when one of its entries was admitted. */
  lemma {:induction false} FirstSeenMembers(es: seq<Entry>, a: Admission, c: int)
    ensures c in FirstSeen(es, a) <==> exists k :: 0 <= k < |es| && Admits(a, es[k]) && es[k].company == Some(c)
  {
    if es != [] {
      var n := |es| - 1;
      FirstSeenMembers(es[..n], a, c);
      assert forall k :: 0 <= k < n ==> es[..n][k] == es[k];
      if c in FirstSeen(es[..n], a) {
        var k :| 0 <= k < n && Admits(a, es[..n][k]) && es[..n][k].company == Some(c);
        assert Admits(a, es[k]) && es[k].company == Some(c);
      }
    }
  }

  lemma FirstSeenSnoc(es: seq<Entry>, e: Entry, a: Admission)
    ensures FirstSeen(es + [e], a)
         == if Admits(a, e) && e.company.value !in FirstSeen(es, a) then FirstSeen(es, a) + [e.company.value] else FirstSeen(es, a)
  {
    assert (es + [e])[..|es|] == es;
  }

  // ---------------------------------------------------------------------------
  // Per-company accumulation.

  lemma SelectSnoc(es: seq<Entry>, e: Entry, c: int)
    ensures Select(es + [e], c) == Select(es, c) + (if e.company == Some(c) then [e] else [])
  {
    assert (es + [e])[..|es|] == es;
  }

  lemma TotalsSnoc(es: seq<Entry>, e: Entry, ws: seq<Window>, rule: MatchRule)
    ensures Totals(es + [e], ws, rule) == AddHours(Totals(es, ws, rule), Bucket(ws, rule, e), Hours(e))
    ensures Logs(es + [e], ws, rule) == AppendId(Logs(es, ws, rule), Bucket(ws, rule, e), e.id)
  {
    assert (es + [e])[..|es|] == es;
  }

  /** A company with no entry is absent from `Select`. */
  lemma {:induction false} SelectOfAbsent(es: seq<Entry>, c: int)
    requires forall k :: 0 <= k < |es| ==> es[k].company != Some(c)
    ensures Select(es, c) == []
  {
    if es != [] {
      assert forall k :: 0 <= k < |es| - 1 ==> es[..|es| - 1][k] == es[k];
      SelectOfAbsent(es[..|es| - 1], c);
    }
  }

  /** The entries `Select` keeps all belong to the company. */
  lemma {:induction false} SelectMembers(es: seq<Entry>, c: int)
    ensures forall e :: e in Select(es, c) <==> e in es && e.company == Some(c)
  {
    if es != [] {
      SelectMembers(es[..|es| - 1], c);
      assert es == es[..|es| - 1] + [es[|es| - 1]];
    }
  }

  /** One company's value in the `company_usage` / `usage_by_company` dictionaries. */
  datatype Usage = Usage(totals: seq<real>, logs: seq<seq<int>>)

  /** `data["period_totals"][i] += hours; data["time_log_ids"][i].append(id)`. */
  function Record(u: Usage, b: Option<nat>, e: Entry): Usage
  {
    Usage(AddHours(u.totals, b, Hours(e)), AppendId(u.logs, b, e.id))
  }

  /** The per-window totals and id lists of one company's entries. */
  function UsageOf(es: seq<Entry>, ws: seq<Window>, rule: MatchRule, c: int): (u: Usage)
    ensures |u.totals| == |u.logs| == |ws|
  {
    Usage(Totals(Select(es, c), ws, rule), Logs(Select(es, c), ws, rule))
  }

  lemma UsageOfSnoc(es: seq<Entry>, e: Entry, ws: seq<Window>, rule: MatchRule, c: int)
    ensures UsageOf(es + [e], ws, rule, c)
         == if e.company == Some(c) then Record(UsageOf(es, ws, rule, c), Bucket(ws, rule, e), e) else UsageOf(es, ws, rule, c)
  {
    SelectSnoc(es, e, c);
    if e.company == Some(c) {
      TotalsSnoc(Select(es, c), e, ws, rule);
    } else {
      assert Select(es + [e], c) == Select(es, c);
    }
  }

  /** A company none of whose entries landed in a window has zero totals and
      empty id lists: the `defaultdict` default. */
  lemma {:induction false} UsageOfUnmatched(es: seq<Entry>, ws: seq<Window>, rule: MatchRule, c: int)
    requires forall k :: 0 <= k < |es| && es[k].company == Some(c) ==> Bucket(ws, rule, es[k]).None?
    ensures UsageOf(es, ws, rule, c) == Usage(Zeros(|ws|), Empties(|ws|))
  {
    if es != [] {
      var n := |es| - 1;
      assert es == es[..n] + [es[n]];
      assert forall k :: 0 <= k < n ==> es[..n][k] == es[k];
      UsageOfUnmatched(es[..n], ws, rule, c);
      UsageOfSnoc(es[..n], es[n], ws, rule, c);
    }
  }

  // ---------------------------------------------------------------------------
  // Paging.

  const PageSize := 1000

  /** `query.range(start, end)` over a fixed store: rows start..end inclusive. */
  function Range<T>(store: seq<T>, start: nat, end: nat): seq<T>
  {
    if start >= |store| || end < start then []
    else store[start..Min(end + 1, |store|)]
  }

  function Min(a: int, b: int): int
  {
    if a < b then a else b
  }

  /** `fetch_all_entries`: pages of 1000 rows until an empty page; every row of
      the store is returned once, in order. */
  method FetchAllEntries<T>(store: seq<T>) returns (rows: seq<T>)
    ensures rows == store
  {
    rows := [];
    var page := 0;
    while true
      invariant |rows| == Min(page * PageSize, |store|)
      invariant rows == store[..|rows|]
      decreases |store| - |rows|
    {
      var start := page * PageSize;
      var end := start + PageSize - 1;
      var batch := Range(store, start, end);
      if |batch| == 0 {
        break;
      }
      rows := rows + batch;
      page := page + 1;
    }
  }

  // ---------------------------------------------------------------------------
  // company_usage_report.

  /** A usage report row: one company's per-window totals, its SLA metrics and
      one window's entry ids. */
  datatype UsageReport = UsageReport(companyId: int, sla: real, months: int, periods: seq<Window>,
                                     periodTotals: seq<real>, metrics: UsageMetrics, logs: seq<int>)

  predicate AllStarted(es: seq<Entry>)
  {
    forall k :: 0 <= k < |es| ==> es[k].start.Some?
  }

  /** What `company_usage_report` returns for the entries its query fetched:
      date-level bucketing into the oldest-first windows, the SLA of the first
      company row, and the ids of window 0 when logs are asked for. */
  function CompanyUsage(companyId: int, p: Period, months: int, includeLogs: bool,
                        entries: seq<Entry>, companies: seq<CompanyRow>): Result<UsageReport>
  {
    match BuildWindows(p, months)
    case Err(e) => Err(e)
    case Ok(ws) =>
      if |ws| == 0 then Err(NoWindows)
      else if !AllStarted(entries) then Err(MissingStartTime)
      else
        var totals := Totals(entries, ws, OnDate);
        var sla := FirstSla(companies, companyId);
        Ok(UsageReport(companyId, sla, months, ws, totals, Metrics(totals, sla),
                       if includeLogs then Logs(entries, ws, OnDate)[0] else []))
  }

  /** The entry loop of `company_usage_report`: each entry's hours and id go to
      the first window containing its UTC date; an entry without a start time
      makes `isoparse` raise. */
  method BucketEntries(entries: seq<Entry>, ws: seq<Window>) returns (failed: bool, totals: seq<real>, logs: seq<seq<int>>)
    ensures failed <==> !AllStarted(entries)
    ensures !failed ==> totals == Totals(entries, ws, OnDate) && logs == Logs(entries, ws, OnDate)
    ensures !failed && Disjoint(ws) ==> forall i :: 0 <= i < |ws| ==>
      totals[i] == HoursBetween(entries, ws[i].start, ws[i].end) && logs[i] == IdsBetween(entries, ws[i].start, ws[i].end)
  {
    totals, logs := Zeros(|ws|), Empties(|ws|);
    var k := 0;
    while k < |entries|
      invariant 0 <= k <= |entries|
      invariant AllStarted(entries[..k])
      invariant totals == Totals(entries[..k], ws, OnDate)
      invariant logs == Logs(entries[..k], ws, OnDate)
    {
      var e := entries[k];
      if e.start.None? {
        assert entries[k] == e;
        return true, totals, logs;
      }
      var idx := FindWindow(ws, OnDate, e.start.value);
      if idx.Some? {
        totals := totals[idx.value := totals[idx.value] + Hours(e)];
        logs := logs[idx.value := logs[idx.value] + [e.id]];
      }
      PrefixSnoc(entries, k);
      TotalsSnoc(entries[..k], e, ws, OnDate);
      k := k + 1;
    }
    assert entries[..k] == entries;
    if Disjoint(ws) {
      BucketsByDate(entries, ws);
    }
    return false, totals, logs;
  }

  /** `company_usage_report`: build the windows, bucket each entry into the first
      window containing its UTC date, then compute the metrics. */
  method CompanyUsageReport(companyId: int, p: Period, months: int, includeLogs: bool,
                            entries: seq<Entry>, companies: seq<CompanyRow>) returns (r: Result<UsageReport>)
    ensures r == CompanyUsage(companyId, p, months, includeLogs, entries, companies)
  {
    var built := BuildWindows(p, months);
    if built.Err? {
      return Err(built.error);
    }
    var ws := built.value;
    if |ws| == 0 {
      return Err(NoWindows);
    }
    var failed, totals, logs := BucketEntries(entries, ws);
    if failed {
      return Err(MissingStartTime);
    }
    var sla := FirstSla(companies, companyId);
    return Ok(UsageReport(companyId, sla, months, ws, totals, Metrics(totals, sla),
                          if includeLogs then logs[0] else []));
  }

  /** The single-company report's windows: `months` of them, oldest first, each
      starting the day after the previous one ends. */
  lemma CompanyUsageWindows(companyId: int, p: Period, months: int, includeLogs: bool,
                            entries: seq<Entry>, companies: seq<CompanyRow>)
    requires CompanyUsage(companyId, p, months, includeLogs, entries, companies).Ok?
    ensures var u := CompanyUsage(companyId, p, months, includeLogs, entries, companies).value;
      months > 0 && |u.periods| == |u.periodTotals| == months && Contiguous(u.periods) &&
      forall i :: 0 <= i < months ==> u.periods[i] == PeriodWindow(p, months - 1 - i)
  {
    BuildWindowsContiguous(p, months, BuildWindows(p, months).value);
  }

  /** Each window's total is the hours of exactly the entries whose UTC date lies
      in that window, the totals add up to the hours that landed in some window,
      and when every entry lies in the span of the windows (as the query's date
      filter ensures) they add up to the hours of all entries. */
  lemma CompanyUsageTotals(companyId: int, p: Period, months: int, includeLogs: bool,
                           entries: seq<Entry>, companies: seq<CompanyRow>)
    requires CompanyUsage(companyId, p, months, includeLogs, entries, companies).Ok?
    ensures var u := CompanyUsage(companyId, p, months, includeLogs, entries, companies).value;
      (forall i :: 0 <= i < |u.periods| ==>
         u.periodTotals[i] == HoursBetween(entries, u.periods[i].start, u.periods[i].end)) &&
      u.metrics.total == MatchedHours(entries, u.periods, OnDate) &&
      (AllInSpan(entries, u.periods[0].start, u.periods[|u.periods| - 1].end) ==> u.metrics.total == TotalHours(entries))
  {
    var ws := BuildWindows(p, months).value;
    BuildWindowsContiguous(p, months, ws);
    ContiguousIsDisjoint(ws);
    forall i | 0 <= i < |ws|
      ensures Totals(entries, ws, OnDate)[i] == HoursBetween(entries, ws[i].start, ws[i].end)
    {
      TotalsAreHoursBetween(entries, ws, i);
    }
    TotalsConserveHours(entries, ws, OnDate);
    if AllInSpan(entries, ws[0].start, ws[|ws| - 1].end) {
      SpanEntriesAllMatch(entries, ws);
    }
  }

  /** `current_period_logs` is the id list of window 0, the OLDEST window: every
      entry dated in that window has its id there, whatever its hours. */
  lemma CompanyUsageLogsAreOldestWindow(companyId: int, p: Period, months: int,
                                        entries: seq<Entry>, companies: seq<CompanyRow>, k: nat)
    requires CompanyUsage(companyId, p, months, true, entries, companies).Ok?
    requires k < |entries|
    ensures var u := CompanyUsage(companyId, p, months, true, entries, companies).value;
      u.periods[0] == PeriodWindow(p, months - 1) &&
      u.logs == IdsBetween(entries, u.periods[0].start, u.periods[0].end) &&
      (StartsBetween(entries[k], u.periods[0].start, u.periods[0].end) ==> entries[k].id in u.logs)
  {
    var ws := BuildWindows(p, months).value;
    BuildWindowsContiguous(p, months, ws);
    ContiguousIsDisjoint(ws);
    LogsAreIdsBetween(entries, ws, 0);
    if StartsBetween(entries[k], ws[0].start, ws[0].end) {
      OnlyMatch(ws, OnDate, entries[k].start.value, 0);
      LoggedInItsWindow(entries, ws, OnDate, k);
    }
  }

  /** An entry without a start time makes the whole report fail, and so does a
      window count below one (`periods[0]` of an empty list). */
  lemma CompanyUsageErrors(companyId: int, p: Period, months: int, includeLogs: bool,
                           entries: seq<Entry>, companies: seq<CompanyRow>)
    ensures months <= 0 ==> CompanyUsage(companyId, p, months, includeLogs, entries, companies) == Err(NoWindows)
    ensures BuildWindows(p, months).Ok? && months > 0 && !AllStarted(entries) ==>
      CompanyUsage(companyId, p, months, includeLogs, entries, companies) == Err(MissingStartTime)
  {
  }

  // ---------------------------------------------------------------------------
  // all_company_usage_report.

  /** One company's row of the all-company report: timestamp-level bucketing
      into the newest-first windows; `time_logs` is the id list of window 0, the
      newest. */
  function AllCompanyRow(entries: seq<Entry>, ws: seq<Window>, table: map<int, real>, c: int): UsageReport
    requires |ws| > 0
  {
    var u := UsageOf(entries, ws, OnTimestamp, c);
    var sla := SlaFor(table, c);
    UsageReport(c, sla, |ws|, ws, u.totals, Metrics(u.totals, sla), u.logs[0])
  }

  /** The entries with a company id whose start time is missing: parsing one raises. */
  predicate SomeCompanyEntryUnstarted(entries: seq<Entry>)
  {
    exists k :: 0 <= k < |entries| && HasCompany(entries[k]) && entries[k].start.None?
  }

  /** What `all_company_usage_report` returns: one row per company with an entry
      in some window, in the order of the first such entry. */
  function AllCompanyUsage(p: Period, months: int, entries: seq<Entry>, companies: seq<CompanyRow>): Result<seq<UsageReport>>
  {
    match RecentWindows(p, months)
    case Err(e) => Err(e)
    case Ok(ws) =>
      if |ws| == 0 then Err(NoWindows)
      else if SomeCompanyEntryUnstarted(entries) then Err(MissingStartTime)
      else
        Ok(AllCompanyRows(entries, ws, SlaTable(companies), FirstSeen(entries, TruthyInWindow(ws, OnTimestamp))))
  }

  /** The rows of the listed companies, in list order. */
  function AllCompanyRows(entries: seq<Entry>, ws: seq<Window>, table: map<int, real>, cs: seq<int>): (rows: seq<UsageReport>)
    requires |ws| > 0
    ensures |rows| == |cs|
    ensures forall i :: 0 <= i < |cs| ==> rows[i] == AllCompanyRow(entries, ws, table, cs[i])
  {
    if cs == [] then []
    else AllCompanyRows(entries, ws, table, cs[..|cs| - 1]) + [AllCompanyRow(entries, ws, table, cs[|cs| - 1])]
  }

  /** One step of the all-company bucketing loop keeps the dictionary equal to
      the per-company usage of the entries seen so far. */
  /** The `company_usage` dictionary and its insertion order after the entries
      `es`. */
  ghost predicate AllCompanyState(es: seq<Entry>, ws: seq<Window>, order: seq<int>, usage: map<int, Usage>)
  {
    order == FirstSeen(es, TruthyInWindow(ws, OnTimestamp)) &&
    (forall c :: c in usage <==> c in order) &&
    (forall c :: c in usage ==> c != 0 && usage[c] == UsageOf(es, ws, OnTimestamp, c))
  }

  lemma {:induction false} AllCompanyStep(es: seq<Entry>, e: Entry, ws: seq<Window>,
                                          order: seq<int>, usage: map<int, Usage>, usage': map<int, Usage>)
    requires AllCompanyState(es, ws, order, usage)
    requires HasCompany(e) && Bucket(ws, OnTimestamp, e).Some? ==>
      var c := e.company.value;
      usage' == usage[c := Record(if c in usage then usage[c] else Usage(Zeros(|ws|), Empties(|ws|)), Bucket(ws, OnTimestamp, e), e)]
    requires !(HasCompany(e) && Bucket(ws, OnTimestamp, e).Some?) ==> usage' == usage
    ensures AllCompanyState(es + [e], ws,
                            if HasCompany(e) && Bucket(ws, OnTimestamp, e).Some? && e.company.value !in order
                            then order + [e.company.value] else order,
                            usage')
  {
    var a := TruthyInWindow(ws, OnTimestamp);
    FirstSeenSnoc(es, e, a);
    forall c | c in usage'
      ensures c != 0 && usage'[c] == UsageOf(es + [e], ws, OnTimestamp, c)
    {
      UsageOfSnoc(es, e, ws, OnTimestamp, c);
      if Admits(a, e) && c == e.company.value && c !in usage {
        FirstSeenMembers(es, a, c);
        UsageOfUnmatched(es, ws, OnTimestamp, c);
      }
    }
  }

  lemma UnstartedSnoc(es: seq<Entry>, e: Entry)
    ensures SomeCompanyEntryUnstarted(es + [e]) <==> SomeCompanyEntryUnstarted(es) || (HasCompany(e) && e.start.None?)
  {
    var t := es + [e];
    if SomeCompanyEntryUnstarted(t) && !(HasCompany(e) && e.start.None?) {
      var k :| 0 <= k < |t| && HasCompany(t[k]) && t[k].start.None?;
      assert k < |es| && t[k] == es[k];
    }
    if SomeCompanyEntryUnstarted(es) {
      var k :| 0 <= k < |es| && HasCompany(es[k]) && es[k].start.None?;
      assert t[k] == es[k];
    }
    assert t[|es|] == e;
  }

  /** The entry loop of `all_company_usage_report`: skip entries without a
      company, fail on a company entry without a start time, bucket the rest by
      timestamp into the company's totals and id lists. */
  method BucketAllCompanies(entries: seq<Entry>, ws: seq<Window>)
    returns (failed: bool, order: seq<int>, usage: map<int, Usage>)
    ensures failed <==> SomeCompanyEntryUnstarted(entries)
    ensures !failed ==> order == FirstSeen(entries, TruthyInWindow(ws, OnTimestamp))
    ensures !failed ==> forall c :: c in usage <==> c in order
    ensures !failed ==> forall c :: c in usage ==> usage[c] == UsageOf(entries, ws, OnTimestamp, c)
  {
    order, usage := [], map[];
    var k := 0;
    while k < |entries|
      invariant 0 <= k <= |entries|
      invariant !SomeCompanyEntryUnstarted(entries[..k])
      invariant AllCompanyState(entries[..k], ws, order, usage)
    {
      var e := entries[k];
      PrefixSnoc(entries, k);
      UnstartedSnoc(entries[..k], e);
      ghost var before := (order, usage);
      if HasCompany(e) {
        if e.start.None? {
          assert entries[k] == e;
          return true, order, usage;
        }
        var idx := FindWindow(ws, OnTimestamp, e.start.value);
        if idx.Some? {
          var c := e.company.value;
          if c !in usage {
            order := order + [c];
            usage := usage[c := Usage(Zeros(|ws|), Empties(|ws|))];
          }
          usage := usage[c := Record(usage[c], idx, e)];
        }
      }
      AllCompanyStep(entries[..k], e, ws, before.0, before.1, usage);
      k := k + 1;
    }
    assert entries[..k] == entries;
    return false, order, usage;
  }

  /** The row loop of `all_company_usage_report`: one row per company in
      insertion order, from its bucketed usage and its SLA. */
  method AllCompanyRowsFor(entries: seq<Entry>, ws: seq<Window>, table: map<int, real>,
                           order: seq<int>, usage: map<int, Usage>) returns (rows: seq<UsageReport>)
    requires |ws| > 0
    requires forall c :: c in usage <==> c in order
    requires forall c :: c in usage ==> usage[c] == UsageOf(entries, ws, OnTimestamp, c)
    ensures rows == AllCompanyRows(entries, ws, table, order)
  {
    rows := [];
    var i := 0;
    while i < |order|
      invariant 0 <= i <= |order| && |rows| == i
      invariant rows == AllCompanyRows(entries, ws, table, order[..i])
    {
      var c := order[i];
      var u := usage[c];
      var sla := SlaFor(table, c);
      var row := UsageReport(c, sla, |ws|, ws, u.totals, Metrics(u.totals, sla), u.logs[0]);
      assert row == AllCompanyRow(entries, ws, table, c);
      rows := rows + [row];
      PrefixSnoc(order, i);
      i := i + 1;
    }
    assert order[..i] == order;
  }

  /** `all_company_usage_report`: newest-first windows, the entry loop, then one
      row per dictionary key. */
  method AllCompanyUsageReport(p: Period, months: int, entries: seq<Entry>, companies: seq<CompanyRow>)
    returns (r: Result<seq<UsageReport>>)
    ensures r == AllCompanyUsage(p, months, entries, companies)
  {
    var built := RecentWindows(p, months);
    if built.Err? {
      return Err(built.error);
    }
    var ws := built.value;
    if |ws| == 0 {
      return Err(NoWindows);
    }
    assert |ws| == months;
    var failed, order, usage := BucketAllCompanies(entries, ws);
    if failed {
      return Err(MissingStartTime);
    }
    if |order| == 0 {
      return Ok([]);
    }
    var rows := AllCompanyRowsFor(entries, ws, SlaTable(companies), order, usage);
    return Ok(rows);
  }

  /** The newest-first windows are pairwise disjoint. */
  lemma RecentWindowsDisjoint(p: Period, months: int, ws: seq<Window>)
    requires RecentWindows(p, months) == Ok(ws)
    ensures Disjoint(ws)
  {
    if months > 0 {
      var b := BuildWindows(p, months).value;
      BuildWindowsContiguous(p, months, b);
      forall i, j | 0 <= i < j < |ws|
        ensures DateLt(ws[j].end, ws[i].start)
      {
        RecentPairOrdered(p, b, ws, i, j);
      }
    }
  }

  lemma RecentPairOrdered(p: Period, b: seq<Window>, ws: seq<Window>, i: int, j: int)
    requires |b| == |ws| > 0 && InRange(p, |ws| - 1) && Contiguous(b)
    requires forall k :: 0 <= k < |b| ==> b[k] == PeriodWindow(p, |b| - 1 - k)
    requires forall k :: 0 <= k < |ws| ==> ws[k] == PeriodWindow(p, k)
    requires 0 <= i < j < |ws|
    ensures DateLt(ws[j].end, ws[i].start)
  {
    var n := |ws|;
    assert ws[i] == b[n - 1 - i] && ws[j] == b[n - 1 - j];
    ContiguousEndsBeforeLaterStarts(b, n - 1 - j, n - 1 - i);
    SerialOrder(b[n - 1 - j].end, b[n - 1 - i].start);
  }

  /** The all-company report lists exactly the companies (non-zero ids) with an
      entry whose timestamp lies in some window; an empty dictionary gives an
      empty list. */
  lemma AllCompanyMembers(p: Period, months: int, entries: seq<Entry>, companies: seq<CompanyRow>,
                          ws: seq<Window>, rows: seq<UsageReport>, c: int)
    requires RecentWindows(p, months) == Ok(ws)
    requires AllCompanyUsage(p, months, entries, companies) == Ok(rows)
    ensures (exists i :: 0 <= i < |rows| && rows[i].companyId == c) <==>
      c != 0 && exists k :: 0 <= k < |entries| && entries[k].company == Some(c) && Bucket(ws, OnTimestamp, entries[k]).Some?
  {
    var a := TruthyInWindow(ws, OnTimestamp);
    FirstSeenMembers(entries, a, c);
    var cs := FirstSeen(entries, a);
    assert |rows| == |cs| && forall i :: 0 <= i < |cs| ==> rows[i].companyId == cs[i];
    if c in cs {
      var i :| 0 <= i < |cs| && cs[i] == c;
      assert rows[i].companyId == c;
    }
  }

  /** Each company appears once, and every row carries the newest-first windows. */
  lemma AllCompanyRowsShape(p: Period, months: int, entries: seq<Entry>, companies: seq<CompanyRow>,
                            ws: seq<Window>, rows: seq<UsageReport>)
    requires RecentWindows(p, months) == Ok(ws)
    requires AllCompanyUsage(p, months, entries, companies) == Ok(rows)
    ensures forall i, j :: 0 <= i < j < |rows| ==> rows[i].companyId != rows[j].companyId
    ensures forall i :: 0 <= i < |rows| ==> rows[i].periods == ws && |ws| == months > 0
    ensures forall w :: 0 <= w < |ws| ==> ws[w] == PeriodWindow(p, w)
  {
    var cs := FirstSeen(entries, TruthyInWindow(ws, OnTimestamp));
    assert |rows| == |cs| && forall i :: 0 <= i < |cs| ==> rows[i].companyId == cs[i];
  }

  /** A company's totals add up to the hours of its entries that landed in a
      window, its `time_logs` are the ids of its entries in window 0 (the newest),
      and its SLA is that of its last company row. */
  lemma AllCompanyTotals(p: Period, months: int, entries: seq<Entry>, companies: seq<CompanyRow>,
                         ws: seq<Window>, rows: seq<UsageReport>, i: nat)
    requires RecentWindows(p, months) == Ok(ws)
    requires AllCompanyUsage(p, months, entries, companies) == Ok(rows)
    requires i < |rows|
    ensures rows[i].metrics.total == MatchedHours(Select(entries, rows[i].companyId), ws, OnTimestamp)
    ensures rows[i].logs == Logs(Select(entries, rows[i].companyId), ws, OnTimestamp)[0]
    ensures rows[i].sla == SlaFor(SlaTable(companies), rows[i].companyId)
    ensures forall j :: 0 <= j < |ws| ==>
      rows[i].periodTotals[j] == HoursStampedBetween(Select(entries, rows[i].companyId), ws[j].start, ws[j].end)
    ensures rows[i].logs == IdsStampedBetween(Select(entries, rows[i].companyId), ws[0].start, ws[0].end)
  {
    var cs := FirstSeen(entries, TruthyInWindow(ws, OnTimestamp));
    assert rows[i] == AllCompanyRow(entries, ws, SlaTable(companies), cs[i]);
    TotalsConserveHours(Select(entries, cs[i]), ws, OnTimestamp);
    RecentWindowsDisjoint(p, months, ws);
    forall j | 0 <= j < |ws|
      ensures Totals(Select(entries, cs[i]), ws, OnTimestamp)[j] == HoursStampedBetween(Select(entries, cs[i]), ws[j].start, ws[j].end)
    {
      TimestampTotalsAreHoursStampedBetween(Select(entries, cs[i]), ws, j);
    }
    LogsAreIdsStampedBetween(Select(entries, cs[i]), ws, 0);
  }

  /** Window j's figure in the all-company report is the company's hours dated from
      the window's 26th to the 24th of the next month, plus only those stamped
      exactly 00:00 on the closing 25th. */
  lemma AllCompanyWindowTotal(p: Period, months: int, entries: seq<Entry>, companies: seq<CompanyRow>,
                              ws: seq<Window>, rows: seq<UsageReport>, i: nat, j: nat)
    requires RecentWindows(p, months) == Ok(ws)
    requires AllCompanyUsage(p, months, entries, companies) == Ok(rows)
    requires i < |rows| && j < |ws|
    ensures ws[j].end != FirstDate
    ensures var es := Select(entries, rows[i].companyId);
      rows[i].periodTotals[j] == HoursBetween(es, ws[j].start, PrevDay(ws[j].end)) + HoursAt(es, Midnight(ws[j].end))
  {
    AllCompanyTotals(p, months, entries, companies, ws, rows, i);
    assert ws[j] == PeriodWindow(p, j);
    PeriodWindowOrdered(p, j);
    StampedIsDatedBeforeEndPlusMidnight(Select(entries, rows[i].companyId), ws[j].start, ws[j].end);
  }

  /** The all-company report compares timestamps with midnight: an entry later
      than 00:00 on a window's last day (a 25th) lands in no window, one at
      exactly 00:00 lands in that window. */
  lemma AllCompanyDropsAfterMidnight(p: Period, months: int, w: nat, s: Stamp)
    requires RecentWindows(p, months).Ok? && w < months
    requires s.date == PeriodWindow(p, w).end
    ensures s.micros > 0 ==> WindowOf(RecentWindows(p, months).value, OnTimestamp, s) == None
    ensures s.micros == 0 ==> WindowOf(RecentWindows(p, months).value, OnTimestamp, s) == Some(w)
  {
    var ws := RecentWindows(p, months).value;
    RecentWindowsDisjoint(p, months, ws);
    assert ws[w] == PeriodWindow(p, w);
    AfterMidnightOnLastDayMatchesNothing(ws, w, s);
  }

  // ---------------------------------------------------------------------------
  // companies_with_time_entries.

  /** One company's value in the `grouped` dictionary. */
  datatype Group = Group(ids: seq<int>, total: real, count: nat)

  /** `time_entry_ids.append(id); total_hours += hours; entry_count += 1`. */
  function AddEntry(g: Group, e: Entry): Group
  {
    Group(g.ids + [e.id], g.total + Hours(e), g.count + 1)
  }

  /** The ids, hour total and count of one company's entries. */
  function GroupOf(es: seq<Entry>, c: int): Group
  {
    var g := Select(es, c);
    Group(Ids(g), TotalHours(g), |g|)
  }

  lemma {:induction false} IdsLength(es: seq<Entry>)
    ensures |Ids(es)| == |es|
  {
    if es != [] {
      IdsLength(es[..|es| - 1]);
    }
  }

  lemma EntriesSnoc(s: seq<Entry>, e: Entry)
    ensures Ids(s + [e]) == Ids(s) + [e.id]
    ensures TotalHours(s + [e]) == TotalHours(s) + Hours(e)
  {
    assert (s + [e])[..|s|] == s;
  }

  lemma GroupOfSnoc(es: seq<Entry>, e: Entry, c: int)
    ensures GroupOf(es + [e], c) == if e.company == Some(c) then AddEntry(GroupOf(es, c), e) else GroupOf(es, c)
  {
    SelectSnoc(es, e, c);
    var g, g' := Select(es, c), Select(es + [e], c);
    if e.company == Some(c) {
      assert g' == g + [e];
      EntriesSnoc(g, e);
    } else {
      assert g' == g;
    }
  }

  /** The state of the grouping loop after a prefix of the entries. */
  ghost predicate GroupState(es: seq<Entry>, order: seq<int>, grouped: map<int, Group>)
  {
    order == FirstSeen(es, Truthy) &&
    (forall c :: c in grouped <==> c in order) &&
    (forall c :: c in grouped ==> c != 0 && grouped[c] == GroupOf(es, c))
  }

  /** One step of the grouping loop keeps the dictionary equal to the groups of
      the entries seen so far. */
  lemma {:induction false} GroupStep(es: seq<Entry>, e: Entry, order: seq<int>,
                                     grouped: map<int, Group>, grouped': map<int, Group>)
    requires GroupState(es, order, grouped)
    requires HasCompany(e) ==>
      var c := e.company.value;
      grouped' == grouped[c := AddEntry(if c in grouped then grouped[c] else Group([], 0.0, 0), e)]
    requires !HasCompany(e) ==> grouped' == grouped
    ensures GroupState(es + [e], if HasCompany(e) && e.company.value !in order then order + [e.company.value] else order, grouped')
  {
    FirstSeenSnoc(es, e, Truthy);
    forall c | c in grouped'
      ensures c != 0 && grouped'[c] == GroupOf(es + [e], c)
    {
      GroupOfSnoc(es, e, c);
      if HasCompany(e) && c == e.company.value && c !in grouped {
        FirstSeenMembers(es, Truthy, c);
        SelectOfAbsent(es, c);
      }
    }
  }

  /** The grouping loop of `companies_with_time_entries`. */
  method GroupByCompany(entries: seq<Entry>) returns (order: seq<int>, grouped: map<int, Group>)
    ensures order == FirstSeen(entries, Truthy)
    ensures forall c :: c in grouped <==> c in order
    ensures forall c :: c in grouped ==> grouped[c] == GroupOf(entries, c)
  {
    order, grouped := [], map[];
    var k := 0;
    while k < |entries|
      invariant 0 <= k <= |entries|
      invariant GroupState(entries[..k], order, grouped)
    {
      var e := entries[k];
      ghost var before := (order, grouped);
      if HasCompany(e) {
        var c := e.company.value;
        if c !in grouped {
          order := order + [c];
          grouped := grouped[c := Group([], 0.0, 0)];
        }
        grouped := grouped[c := AddEntry(grouped[c], e)];
      }
      GroupStep(entries[..k], e, before.0, before.1, grouped);
      PrefixSnoc(entries, k);
      k := k + 1;
    }
    assert entries[..k] == entries;
  }

  /** A row of the companies-with-time listing (`round(total, 2)` and the raw
      company payload are not modelled). */
  datatype TimeRow = TimeRow(companyId: int, totalHours: real, entryCount: nat, percentageUsage: Option<real>,
                             missingSla: bool, sla: real, timeEntryIds: seq<int>)

  function TimeRowOf(es: seq<Entry>, table: map<int, real>, c: int): TimeRow
  {
    var g := GroupOf(es, c);
    var sla := SlaFor(table, c);
    TimeRow(c, g.total, g.count, PercentOfSla(g.total, sla), sla == 0.0, sla, g.ids)
  }

  /** `if total < min_hours: continue`: a company is dropped only below the threshold. */
  predicate KeptByMinHours(total: real, minHours: real)
  {
    !(total < minHours)
  }

  /** The rows of the listed companies that pass the threshold, in list order. */
  function KeptRows(cs: seq<int>, es: seq<Entry>, table: map<int, real>, minHours: real): (rows: seq<TimeRow>)
    ensures forall i :: 0 <= i < |rows| ==> rows[i] == TimeRowOf(es, table, rows[i].companyId) && rows[i].companyId in cs
  {
    if cs == [] then []
    else
      var c := cs[|cs| - 1];
      KeptRows(cs[..|cs| - 1], es, table, minHours) +
        (if KeptByMinHours(GroupOf(es, c).total, minHours) then [TimeRowOf(es, table, c)] else [])
  }

  /** What `companies_with_time_entries` returns for the entries its query fetched. */
  function CompaniesWithTime(startDate: Date, endDate: Date, minHours: real, includeCompanyData: bool,
                             entries: seq<Entry>, companies: seq<CompanyRow>): Result<seq<TimeRow>>
  {
    if DateLt(endDate, startDate) then Err(EndBeforeStart)
    else
      var cs := FirstSeen(entries, Truthy);
      var table := if includeCompanyData && |cs| > 0 then SlaTable(companies) else map[];
      Ok(KeptRows(cs, entries, table, minHours))
  }

  /** The row loop of `companies_with_time_entries`: each grouped company in
      insertion order, dropped when its total is below `min_hours`. */
  method KeptRowsFor(entries: seq<Entry>, table: map<int, real>, minHours: real,
                     order: seq<int>, grouped: map<int, Group>) returns (rows: seq<TimeRow>)
    requires forall c :: c in grouped <==> c in order
    requires forall c :: c in grouped ==> grouped[c] == GroupOf(entries, c)
    ensures rows == KeptRows(order, entries, table, minHours)
  {
    rows := [];
    var i := 0;
    while i < |order|
      invariant 0 <= i <= |order|
      invariant rows == KeptRows(order[..i], entries, table, minHours)
    {
      var c := order[i];
      assert c in grouped;
      var g := grouped[c];
      assert g == GroupOf(entries, c);
      if !(g.total < minHours) {
        var sla := SlaFor(table, c);
        rows := rows + [TimeRow(c, g.total, g.count, PercentOfSla(g.total, sla), sla == 0.0, sla, g.ids)];
      }
      PrefixSnoc(order, i);
      KeptRowsSnoc(order[..i], c, entries, table, minHours);
      i := i + 1;
    }
    assert order[..i] == order;
  }

  lemma KeptRowsSnoc(cs: seq<int>, c: int, es: seq<Entry>, table: map<int, real>, minHours: real)
    ensures KeptRows(cs + [c], es, table, minHours)
         == KeptRows(cs, es, table, minHours) + (if KeptByMinHours(GroupOf(es, c).total, minHours) then [TimeRowOf(es, table, c)] else [])
  {
    assert (cs + [c])[..|cs|] == cs;
  }

  /** `companies_with_time_entries`: reject a reversed range, group the entries by
      company, load the SLAs when asked, then keep the companies at or above
      `min_hours`. */
  method CompaniesWithTimeEntries(startDate: Date, endDate: Date, minHours: real, includeCompanyData: bool,
                                  entries: seq<Entry>, companies: seq<CompanyRow>) returns (r: Result<seq<TimeRow>>)
    ensures r == CompaniesWithTime(startDate, endDate, minHours, includeCompanyData, entries, companies)
  {
    if DateLt(endDate, startDate) {
      return Err(EndBeforeStart);
    }
    var order, grouped := GroupByCompany(entries);
    var table: map<int, real> := map[];
    if includeCompanyData && |order| > 0 {
      table := SlaTable(companies);
    }
    var rows := KeptRowsFor(entries, table, minHours, order, grouped);
    return Ok(rows);
  }

  /** Whether some row is the row of company c. */
  predicate Listed(rows: seq<TimeRow>, c: int)
  {
    exists i :: 0 <= i < |rows| && rows[i].companyId == c
  }

  lemma ListedAppend(a: seq<TimeRow>, b: seq<TimeRow>, c: int)
    ensures Listed(a + b, c) <==> Listed(a, c) || Listed(b, c)
  {
    var t := a + b;
    if Listed(t, c) {
      var i :| 0 <= i < |t| && t[i].companyId == c;
      if i >= |a| {
        assert b[i - |a|] == t[i];
      }
    }
    if Listed(a, c) {
      var i :| 0 <= i < |a| && a[i].companyId == c;
      assert t[i] == a[i];
    }
    if Listed(b, c) {
      var i :| 0 <= i < |b| && b[i].companyId == c;
      assert t[|a| + i] == b[i];
    }
  }

  lemma {:induction false} KeptRowsMembers(cs: seq<int>, es: seq<Entry>, table: map<int, real>, minHours: real, c: int)
    ensures Listed(KeptRows(cs, es, table, minHours), c) <==> c in cs && KeptByMinHours(GroupOf(es, c).total, minHours)
  {
    if cs != [] {
      var n := |cs| - 1;
      var prev := KeptRows(cs[..n], es, table, minHours);
      KeptRowsMembers(cs[..n], es, table, minHours, c);
      var tail := if KeptByMinHours(GroupOf(es, cs[n]).total, minHours) then [TimeRowOf(es, table, cs[n])] else [];
      assert KeptRows(cs, es, table, minHours) == prev + tail;
      ListedAppend(prev, tail, c);
      assert c in cs <==> c in cs[..n] || c == cs[n] by {
        assert cs == cs[..n] + [cs[n]];
      }
      assert Listed(tail, c) <==> c == cs[n] && KeptByMinHours(GroupOf(es, cs[n]).total, minHours) by {
        if tail != [] {
          assert tail[0].companyId == cs[n];
        }
      }
    }
  }

  /** A reversed date range is rejected, and only that. */
  lemma CompaniesWithTimeRejects(startDate: Date, endDate: Date, minHours: real, includeCompanyData: bool,
                                 entries: seq<Entry>, companies: seq<CompanyRow>)
    ensures CompaniesWithTime(startDate, endDate, minHours, includeCompanyData, entries, companies).Err?
        <==> DateLt(endDate, startDate)
    ensures DateLt(endDate, startDate) ==>
      CompaniesWithTime(startDate, endDate, minHours, includeCompanyData, entries, companies) == Err(EndBeforeStart)
  {
  }

  /** A company is listed exactly when it has an entry with a non-zero company id
      and its hour total is not below `min_hours` (a total equal to the threshold
      is kept). */
  lemma CompaniesWithTimeMembers(startDate: Date, endDate: Date, minHours: real, includeCompanyData: bool,
                                 entries: seq<Entry>, companies: seq<CompanyRow>, rows: seq<TimeRow>, c: int)
    requires CompaniesWithTime(startDate, endDate, minHours, includeCompanyData, entries, companies) == Ok(rows)
    ensures (exists i :: 0 <= i < |rows| && rows[i].companyId == c) <==>
        c != 0 && (exists k :: 0 <= k < |entries| && entries[k].company == Some(c)) &&
        TotalHours(Select(entries, c)) >= minHours
  {
    var cs := FirstSeen(entries, Truthy);
    var table := if includeCompanyData && |cs| > 0 then SlaTable(companies) else map[];
    assert rows == KeptRows(cs, entries, table, minHours);
    KeptRowsMembers(cs, entries, table, minHours, c);
    FirstSeenMembers(entries, Truthy, c);
    if c != 0 && exists k :: 0 <= k < |entries| && entries[k].company == Some(c) {
      var k :| 0 <= k < |entries| && entries[k].company == Some(c);
      assert Admits(Truthy, entries[k]);
    }
  }

  /** Each listed company's count is the length of its id list, its total is the
      hours of its entries (missing hours as 0), its ids are those entries' ids
      in order, and its percentage is total over SLA, undefined unless the SLA is
      positive. Without company data every SLA is 0. */
  lemma CompaniesWithTimeRows(startDate: Date, endDate: Date, minHours: real, includeCompanyData: bool,
                              entries: seq<Entry>, companies: seq<CompanyRow>, rows: seq<TimeRow>, i: nat)
    requires CompaniesWithTime(startDate, endDate, minHours, includeCompanyData, entries, companies) == Ok(rows)
    requires i < |rows|
    ensures var c := rows[i].companyId;
      rows[i].entryCount == |rows[i].timeEntryIds| == |Select(entries, c)| &&
      rows[i].totalHours == TotalHours(Select(entries, c)) &&
      rows[i].timeEntryIds == Ids(Select(entries, c)) &&
      (rows[i].percentageUsage.None? <==> rows[i].sla <= 0.0) &&
      rows[i].percentageUsage == PercentOfSla(rows[i].totalHours, rows[i].sla) &&
      (rows[i].missingSla <==> rows[i].sla == 0.0) &&
      (!includeCompanyData ==> rows[i].sla == 0.0 && rows[i].missingSla)
  {
    var cs := FirstSeen(entries, Truthy);
    var table := if includeCompanyData && |cs| > 0 then SlaTable(companies) else map[];
    KeptRowIs(cs, entries, table, minHours, rows, i);
    TimeRowFacts(entries, table, rows[i].companyId, rows[i]);
  }

  /** A kept row is its company's `TimeRowOf`. */
  lemma KeptRowIs(cs: seq<int>, es: seq<Entry>, table: map<int, real>, minHours: real, rows: seq<TimeRow>, i: nat)
    requires rows == KeptRows(cs, es, table, minHours) && i < |rows|
    ensures rows[i] == TimeRowOf(es, table, rows[i].companyId)
  {
  }

  /** A company's row holds its group's ids, hours and count, and the percent of
      its SLA from the table. */
  lemma TimeRowFacts(es: seq<Entry>, table: map<int, real>, c: int, r: TimeRow)
    requires r == TimeRowOf(es, table, c)
    ensures r.entryCount == |r.timeEntryIds| == |Select(es, c)|
    ensures r.totalHours == TotalHours(Select(es, c)) && r.timeEntryIds == Ids(Select(es, c))
    ensures r.sla == SlaFor(table, c) && (r.missingSla <==> r.sla == 0.0)
    ensures r.percentageUsage.None? <==> r.sla <= 0.0
    ensures r.percentageUsage == PercentOfSla(r.totalHours, r.sla)
  {
    var g := Select(es, c);
    assert r.timeEntryIds == Ids(g) && r.entryCount == |g| && r.totalHours == TotalHours(g);
    assert r.sla == SlaFor(table, c) && r.percentageUsage == PercentOfSla(r.totalHours, r.sla);
    IdsLength(g);
  }

  // ---------------------------------------------------------------------------
  // companies_over_sla.

  /** Whether the entry has a start time dated on or after the cutoff. */
  predicate OnOrAfter(e: Entry, cutoff: Date)
  {
    e.start.Some? && DateLe(cutoff, e.start.value.date)
  }

  /** Hours of the entries dated on or after the cutoff (inclusive). */
  function RollingHours(es: seq<Entry>, cutoff: Date): real
  {
    if es == [] then 0.0
    else RollingHours(es[..|es| - 1], cutoff) + (if OnOrAfter(es[|es| - 1], cutoff) then Hours(es[|es| - 1]) else 0.0)
  }

  /** `defaultdict(float)` read with a default of 0. */
  function Get(m: map<int, real>, c: int): real
  {
    if c in m then m[c] else 0.0
  }

  /** A row of the over-SLA report (the raw company payload is not modelled). */
  datatype OverSlaRow = OverSlaRow(companyId: int, sla: real, periods: seq<Window>, periodUsage: seq<real>,
                                   totalUsage: real, averageUsage: real, percentageUsage: Option<real>,
                                   last6MonthsUsage: real, last12MonthsUsage: real, missingSla: bool)

  function OverSlaRowOf(es: seq<Entry>, ws: seq<Window>, table: map<int, real>, cut6: Date, cut12: Date, c: int): OverSlaRow
    requires |ws| > 0
  {
    var usage := UsageOf(es, ws, OnDate, c).totals;
    var sla := SlaFor(table, c);
    var total := Sum(usage);
    var avg := total / |ws| as real;
    OverSlaRow(c, sla, ws, usage, total, avg, PercentOfSla(avg, sla),
               RollingHours(Select(es, c), cut6), RollingHours(Select(es, c), cut12), sla == 0.0)
  }

  /** The rows of the listed companies that pass the over-SLA filter, in list order. */
  function OverSlaRows(cs: seq<int>, es: seq<Entry>, ws: seq<Window>, table: map<int, real>,
                       cut6: Date, cut12: Date, filterMonthly: bool): (rows: seq<OverSlaRow>)
    requires |ws| > 0
    ensures forall i :: 0 <= i < |rows| ==>
      rows[i] == OverSlaRowOf(es, ws, table, cut6, cut12, rows[i].companyId) && rows[i].companyId in cs &&
      KeepOverSla(rows[i].periodUsage, rows[i].sla, filterMonthly)
  {
    if cs == [] then []
    else
      var c := cs[|cs| - 1];
      OverSlaRows(cs[..|cs| - 1], es, ws, table, cut6, cut12, filterMonthly) +
        (if KeepOverSla(UsageOf(es, ws, OnDate, c).totals, SlaFor(table, c), filterMonthly)
         then [OverSlaRowOf(es, ws, table, cut6, cut12, c)] else [])
  }

  /** An entry whose `company_hubspot_id` is null: `int(None)` raises. */
  predicate SomeCompanyIdMissing(es: seq<Entry>)
  {
    exists k :: 0 <= k < |es| && es[k].company.None?
  }

  /** What `companies_over_sla` returns for the customer rows and the stored
      entries: windows oldest first, rolling cutoffs 6 and 12 months before the
      newest window's end, one row per customer with an entry in a window, kept
      by the filter of the chosen mode. */
  function CompaniesOverSla(p: Period, numPeriods: int, filterMonthly: bool,
                            customers: seq<CompanyRow>, entries: seq<Entry>): Result<seq<OverSlaRow>>
  {
    match BuildWindows(p, numPeriods)
    case Err(e) => Err(e)
    case Ok(ws) =>
      if |ws| == 0 then Err(NoWindows)
      else if |customers| == 0 then Ok([])
      else
        match AddMonths(ws[|ws| - 1].end, -6)
        case None => Err(DateOutOfRange)
        case Some(cut6) =>
          match AddMonths(ws[|ws| - 1].end, -12)
          case None => Err(DateOutOfRange)
          case Some(cut12) =>
            if SomeCompanyIdMissing(entries) then Err(MissingCompanyId)
            else
              var table := SlaTable(customers);
              var cs := FirstSeen(entries, CustomerInWindow(table.Keys, ws, OnDate));
              Ok(OverSlaRows(cs, entries, ws, table, cut6, cut12, filterMonthly))
  }

  lemma RollingSnoc(es: seq<Entry>, e: Entry, c: int, cutoff: Date)
    ensures RollingHours(Select(es + [e], c), cutoff)
         == RollingHours(Select(es, c), cutoff) + (if e.company == Some(c) && OnOrAfter(e, cutoff) then Hours(e) else 0.0)
  {
    SelectSnoc(es, e, c);
    var g := Select(es, c);
    if e.company == Some(c) {
      assert Select(es + [e], c) == g + [e];
      assert (g + [e])[..|g|] == g;
    } else {
      assert Select(es + [e], c) == g;
    }
  }

  /** The state of the over-SLA entry loop after a prefix of the entries. */
  ghost predicate OverSlaState(es: seq<Entry>, ws: seq<Window>, table: map<int, real>, cut6: Date, cut12: Date,
                               order: seq<int>, usage: map<int, seq<real>>, roll6: map<int, real>, roll12: map<int, real>)
  {
    order == FirstSeen(es, CustomerInWindow(table.Keys, ws, OnDate)) &&
    (forall c :: c in usage <==> c in order) &&
    (forall c :: c in usage ==> usage[c] == UsageOf(es, ws, OnDate, c).totals) &&
    (forall c :: c in table ==> Get(roll6, c) == RollingHours(Select(es, c), cut6)) &&
    (forall c :: c in table ==> Get(roll12, c) == RollingHours(Select(es, c), cut12))
  }

  /** How one entry with a company id changes the over-SLA loop's dictionaries: a
      customer's entry inside a window adds its hours to that window's total
      (starting from zeros), and its date decides the two rolling totals. */
  predicate CustomerStep(e: Entry, ws: seq<Window>, table: map<int, real>, cut6: Date, cut12: Date,
                        usage: map<int, seq<real>>, roll6: map<int, real>, roll12: map<int, real>,
                        usage': map<int, seq<real>>, roll6': map<int, real>, roll12': map<int, real>)
    requires e.company.Some?
  {
    var c := e.company.value;
    if c in table && e.start.Some? then
      var b := WindowOf(ws, OnDate, e.start.value);
      usage' == (if b.Some? then usage[c := AddHours(if c in usage then usage[c] else Zeros(|ws|), b, Hours(e))] else usage) &&
      roll6' == (if DateLe(cut6, e.start.value.date) then roll6[c := Get(roll6, c) + Hours(e)] else roll6) &&
      roll12' == (if DateLe(cut12, e.start.value.date) then roll12[c := Get(roll12, c) + Hours(e)] else roll12)
    else usage' == usage && roll6' == roll6 && roll12' == roll12
  }

  /** One step of the over-SLA entry loop for an entry with a company id. */
  lemma {:induction false} OverSlaStep(es: seq<Entry>, e: Entry, ws: seq<Window>, table: map<int, real>, cut6: Date, cut12: Date,
                                       order: seq<int>, usage: map<int, seq<real>>, roll6: map<int, real>, roll12: map<int, real>,
                                       usage': map<int, seq<real>>, roll6': map<int, real>, roll12': map<int, real>)
    requires OverSlaState(es, ws, table, cut6, cut12, order, usage, roll6, roll12)
    requires e.company.Some?
    requires CustomerStep(e, ws, table, cut6, cut12, usage, roll6, roll12, usage', roll6', roll12')
    ensures var order' := if Admits(CustomerInWindow(table.Keys, ws, OnDate), e) && e.company.value !in order
                          then order + [e.company.value] else order;
      OverSlaState(es + [e], ws, table, cut6, cut12, order', usage', roll6', roll12')
  {
    var a := CustomerInWindow(table.Keys, ws, OnDate);
    FirstSeenSnoc(es, e, a);
    forall c | c in usage'
      ensures usage'[c] == UsageOf(es + [e], ws, OnDate, c).totals
    {
      UsageOfSnoc(es, e, ws, OnDate, c);
      FirstSeenMembers(es, a, c);
      if Admits(a, e) && c == e.company.value && c !in usage {
        UsageOfUnmatched(es, ws, OnDate, c);
      }
    }
    forall c | c in table
      ensures Get(roll6', c) == RollingHours(Select(es + [e], c), cut6)
      ensures Get(roll12', c) == RollingHours(Select(es + [e], c), cut12)
    {
      RollingSnoc(es, e, c, cut6);
      RollingSnoc(es, e, c, cut12);
    }
  }

  /** The entry loop of `companies_over_sla`: fail on a null company id; skip
      non-customers and entries without a start time; add the hours to the
      first window containing the UTC date and to the rolling sums whose cutoff
      is on or before that date. */
  method BucketCustomers(entries: seq<Entry>, ws: seq<Window>, table: map<int, real>, cut6: Date, cut12: Date)
    returns (failed: bool, order: seq<int>, usage: map<int, seq<real>>, roll6: map<int, real>, roll12: map<int, real>)
    ensures failed <==> SomeCompanyIdMissing(entries)
    ensures !failed ==> OverSlaState(entries, ws, table, cut6, cut12, order, usage, roll6, roll12)
  {
    order, usage, roll6, roll12 := [], map[], map[], map[];
    var k := 0;
    while k < |entries|
      invariant 0 <= k <= |entries|
      invariant !SomeCompanyIdMissing(entries[..k])
      invariant OverSlaState(entries[..k], ws, table, cut6, cut12, order, usage, roll6, roll12)
    {
      var e := entries[k];
      if e.company.None? {
        assert entries[k] == e;
        return true, order, usage, roll6, roll12;
      }
      ghost var order0, usage0, roll60, roll120 := order, usage, roll6, roll12;
      order, usage, roll6, roll12 := RecordCustomerEntry(e, ws, table, cut6, cut12, order, usage, roll6, roll12);
      OverSlaStep(entries[..k], e, ws, table, cut6, cut12, order0, usage0, roll60, roll120, usage, roll6, roll12);
      PrefixSnoc(entries, k);
      k := k + 1;
    }
    assert entries[..k] == entries;
    return false, order, usage, roll6, roll12;
  }

  /** One pass of the over-SLA entry loop for an entry with a company id: a
      customer's entry inside a window adds its hours to that window (creating the
      customer's series first), and its date decides the two rolling totals. */
  method RecordCustomerEntry(e: Entry, ws: seq<Window>, table: map<int, real>, cut6: Date, cut12: Date,
                             order: seq<int>, usage: map<int, seq<real>>, roll6: map<int, real>, roll12: map<int, real>)
    returns (order': seq<int>, usage': map<int, seq<real>>, roll6': map<int, real>, roll12': map<int, real>)
    requires e.company.Some?
    requires forall c :: c in usage <==> c in order
    ensures order' == if Admits(CustomerInWindow(table.Keys, ws, OnDate), e) && e.company.value !in order
                      then order + [e.company.value] else order
    ensures CustomerStep(e, ws, table, cut6, cut12, usage, roll6, roll12, usage', roll6', roll12')
  {
    order', usage', roll6', roll12' := order, usage, roll6, roll12;
    var c := e.company.value;
    if c in table && e.start.Some? {
      var date := e.start.value.date;
      var hrs := Hours(e);
      var idx := FindWindow(ws, OnDate, e.start.value);
      if idx.Some? {
        if c !in usage' {
          order' := order' + [c];
          usage' := usage'[c := Zeros(|ws|)];
        }
        usage' := usage'[c := AddHours(usage'[c], idx, hrs)];
      }
      if DateLe(cut6, date) {
        roll6' := roll6'[c := Get(roll6', c) + hrs];
      }
      if DateLe(cut12, date) {
        roll12' := roll12'[c := Get(roll12', c) + hrs];
      }
    }
  }

  /** The metrics of one customer's series and the chosen mode's test on them. */
  method OverSlaTest(u: seq<real>, sla: real, filterMonthly: bool)
    returns (keep: bool, total: real, avg: real, pct: Option<real>)
    requires |u| > 0
    ensures keep == KeepOverSla(u, sla, filterMonthly)
    ensures total == Sum(u) && avg == total / |u| as real && pct == PercentOfSla(avg, sla)
  {
    total := Sum(u);
    avg := total / |u| as real;
    pct := PercentOfSla(avg, sla);
    var monthlyExceed := exists x :: x in u && x > sla;
    var latest := u[|u| - 1];
    if filterMonthly {
      keep := monthlyExceed;
    } else {
      keep := !(Falsy(pct) || pct.value <= 100.0) && !(latest <= 0.0);
    }
  }

  /** One customer of the row loop: its metrics, the chosen mode's test, and the
      row the loop appends when the test passes. */
  method OverSlaRowFor(entries: seq<Entry>, ws: seq<Window>, table: map<int, real>, cut6: Date, cut12: Date,
                       filterMonthly: bool, c: int, u: seq<real>, r6: real, r12: real)
    returns (keep: bool, row: OverSlaRow)
    requires |ws| > 0 && u == UsageOf(entries, ws, OnDate, c).totals
    requires r6 == RollingHours(Select(entries, c), cut6) && r12 == RollingHours(Select(entries, c), cut12)
    ensures keep == KeepOverSla(u, SlaFor(table, c), filterMonthly)
    ensures keep ==> row == OverSlaRowOf(entries, ws, table, cut6, cut12, c)
  {
    var sla := SlaFor(table, c);
    var total, avg, pct;
    keep, total, avg, pct := OverSlaTest(u, sla, filterMonthly);
    row := OverSlaRow(c, sla, ws, u, total, avg, pct, r6, r12, sla == 0.0);
  }

  /** The row loop of `companies_over_sla`: for each bucketed customer in
      insertion order, its metrics, the chosen mode's test, and the row. */
  method FilterOverSla(entries: seq<Entry>, ws: seq<Window>, table: map<int, real>, cut6: Date, cut12: Date,
                       filterMonthly: bool, order: seq<int>, usage: map<int, seq<real>>,
                       roll6: map<int, real>, roll12: map<int, real>) returns (rows: seq<OverSlaRow>)
    requires |ws| > 0
    requires OverSlaState(entries, ws, table, cut6, cut12, order, usage, roll6, roll12)
    ensures rows == OverSlaRows(order, entries, ws, table, cut6, cut12, filterMonthly)
  {
    ghost var a := CustomerInWindow(table.Keys, ws, OnDate);
    rows := [];
    var i := 0;
    while i < |order|
      invariant 0 <= i <= |order|
      invariant rows == OverSlaRows(order[..i], entries, ws, table, cut6, cut12, filterMonthly)
    {
      var c := order[i];
      FirstSeenMembers(entries, a, c);
      var keep, row := OverSlaRowFor(entries, ws, table, cut6, cut12, filterMonthly, c, usage[c], Get(roll6, c), Get(roll12, c));
      if keep {
        rows := rows + [row];
      }
      PrefixSnoc(order, i);
      i := i + 1;
    }
    assert order[..i] == order;
    return rows;
  }

  /** `companies_over_sla`: windows, customers, paged entries, the entry loop,
      then one row per bucketed customer that the chosen mode keeps. */
  method CompaniesOverSlaReport(p: Period, numPeriods: int, filterMonthly: bool,
                                customers: seq<CompanyRow>, store: seq<Entry>) returns (r: Result<seq<OverSlaRow>>)
    ensures r == CompaniesOverSla(p, numPeriods, filterMonthly, customers, store)
  {
    var built := CollectWindows(p, numPeriods);
    if built.Err? {
      return Err(built.error);
    }
    var ws := built.value;
    if |ws| == 0 {
      return Err(NoWindows);
    }
    if |customers| == 0 {
      return Ok([]);
    }
    var table := SlaTable(customers);
    var entries := FetchAllEntries(store);
    var newest := ws[|ws| - 1].end;
    var six := AddMonths(newest, -6);
    var twelve := AddMonths(newest, -12);
    if six.None? || twelve.None? {
      return Err(DateOutOfRange);
    }
    var cut6, cut12 := six.value, twelve.value;
    var failed, order, usage, roll6, roll12 := BucketCustomers(entries, ws, table, cut6, cut12);
    if failed {
      return Err(MissingCompanyId);
    }
    var rows := FilterOverSla(entries, ws, table, cut6, cut12, filterMonthly, order, usage, roll6, roll12);
    return Ok(rows);
  }

  lemma {:induction false} OverSlaRowsMembers(cs: seq<int>, es: seq<Entry>, ws: seq<Window>, table: map<int, real>,
                                              cut6: Date, cut12: Date, filterMonthly: bool, c: int)
    requires |ws| > 0
    ensures var rows := OverSlaRows(cs, es, ws, table, cut6, cut12, filterMonthly);
      (exists i :: 0 <= i < |rows| && rows[i].companyId == c)
        <==> c in cs && KeepOverSla(UsageOf(es, ws, OnDate, c).totals, SlaFor(table, c), filterMonthly)
  {
    if cs != [] {
      var n := |cs| - 1;
      var prev := OverSlaRows(cs[..n], es, ws, table, cut6, cut12, filterMonthly);
      OverSlaRowsMembers(cs[..n], es, ws, table, cut6, cut12, filterMonthly, c);
      assert cs == cs[..n] + [cs[n]];
      var rows := OverSlaRows(cs, es, ws, table, cut6, cut12, filterMonthly);
      if exists i :: 0 <= i < |prev| && prev[i].companyId == c {
        var i :| 0 <= i < |prev| && prev[i].companyId == c;
        assert rows[i] == prev[i];
      }
      if c == cs[n] && KeepOverSla(UsageOf(es, ws, OnDate, c).totals, SlaFor(table, c), filterMonthly) {
        assert rows[|prev|].companyId == c;
      }
    }
  }

  /** The over-SLA report lists exactly the customers with an entry whose UTC
      date lies in some window and whose per-window usage passes the chosen
      mode's test. */
  lemma CompaniesOverSlaMembers(p: Period, numPeriods: int, filterMonthly: bool, customers: seq<CompanyRow>,
                                entries: seq<Entry>, ws: seq<Window>, rows: seq<OverSlaRow>, c: int)
    requires BuildWindows(p, numPeriods) == Ok(ws)
    requires CompaniesOverSla(p, numPeriods, filterMonthly, customers, entries) == Ok(rows)
    ensures (exists i :: 0 <= i < |rows| && rows[i].companyId == c) <==>
      (exists k :: 0 <= k < |customers| && customers[k].hubspotId == c) &&
      (exists k :: 0 <= k < |entries| && entries[k].company == Some(c) && Bucket(ws, OnDate, entries[k]).Some?) &&
      KeepOverSla(UsageOf(entries, ws, OnDate, c).totals, SlaFor(SlaTable(customers), c), filterMonthly)
  {
    if |customers| > 0 {
      var table := SlaTable(customers);
      var a := CustomerInWindow(table.Keys, ws, OnDate);
      var cut6, cut12 := AddMonths(ws[|ws| - 1].end, -6).value, AddMonths(ws[|ws| - 1].end, -12).value;
      assert rows == OverSlaRows(FirstSeen(entries, a), entries, ws, table, cut6, cut12, filterMonthly);
      OverSlaRowsMembers(FirstSeen(entries, a), entries, ws, table, cut6, cut12, filterMonthly, c);
      FirstSeenMembers(entries, a, c);
    }
  }

  /** Each listed row is its company's row and passes the filter. */
  lemma OverSlaRowIs(p: Period, numPeriods: int, filterMonthly: bool, customers: seq<CompanyRow>,
                     entries: seq<Entry>, ws: seq<Window>, rows: seq<OverSlaRow>, i: nat)
    requires BuildWindows(p, numPeriods) == Ok(ws)
    requires CompaniesOverSla(p, numPeriods, filterMonthly, customers, entries) == Ok(rows)
    requires i < |rows|
    ensures |ws| > 0 && AddMonths(ws[|ws| - 1].end, -6).Some? && AddMonths(ws[|ws| - 1].end, -12).Some?
    ensures rows[i] == OverSlaRowOf(entries, ws, SlaTable(customers), AddMonths(ws[|ws| - 1].end, -6).value,
                                    AddMonths(ws[|ws| - 1].end, -12).value, rows[i].companyId)
    ensures KeepOverSla(rows[i].periodUsage, rows[i].sla, filterMonthly)
  {
  }

  /** What a kept row's usage says in each mode. */
  lemma KeptRowPassesMode(es: seq<Entry>, ws: seq<Window>, table: map<int, real>, cut6: Date, cut12: Date,
                          r: OverSlaRow, filterMonthly: bool)
    requires |ws| > 0 && r == OverSlaRowOf(es, ws, table, cut6, cut12, r.companyId)
    requires KeepOverSla(r.periodUsage, r.sla, filterMonthly)
    ensures |r.periodUsage| == |ws|
    ensures filterMonthly ==> exists j :: 0 <= j < |ws| && r.periodUsage[j] > r.sla
    ensures !filterMonthly ==> r.sla > 0.0 && r.averageUsage > r.sla && r.periodUsage[|ws| - 1] > 0.0 &&
                               KeepOverSla(r.periodUsage, r.sla, true)
  {
    var u := r.periodUsage;
    assert |u| == |ws| && r.totalUsage == Sum(u) && r.averageUsage == Sum(u) / |ws| as real;
    if filterMonthly {
      MonthlyModeKeepsAnySpike(u, r.sla);
    } else {
      AverageModeIff(u, r.sla);
      AverageModeImpliesMonthlyMode(u, r.sla);
      AverageAbove(Sum(u), r.sla, |ws|);
    }
  }

  /** A row built for a company over contiguous windows: its series is the
      company's hours per window, its total their sum, its average the total
      over the window count. */
  lemma OverSlaRowSeries(es: seq<Entry>, ws: seq<Window>, table: map<int, real>, cut6: Date, cut12: Date, r: OverSlaRow)
    requires |ws| > 0 && Contiguous(ws)
    requires r == OverSlaRowOf(es, ws, table, cut6, cut12, r.companyId)
    ensures r.periods == ws && |r.periodUsage| == |ws|
    ensures forall j :: 0 <= j < |ws| ==> r.periodUsage[j] == HoursBetween(Select(es, r.companyId), ws[j].start, ws[j].end)
    ensures r.totalUsage == Sum(r.periodUsage) && r.averageUsage == r.totalUsage / |ws| as real
    ensures r.missingSla <==> r.sla == 0.0
  {
    var g := Select(es, r.companyId);
    assert r.periodUsage == Totals(g, ws, OnDate);
    ContiguousIsDisjoint(ws);
    forall j | 0 <= j < |ws|
      ensures r.periodUsage[j] == HoursBetween(g, ws[j].start, ws[j].end)
    {
      TotalsAreHoursBetween(g, ws, j);
    }
  }

  /** Each listed row's series is the company's hours per window (by UTC date),
      its total their sum and its average the total over the window count. */
  lemma CompaniesOverSlaSeries(p: Period, numPeriods: int, filterMonthly: bool, customers: seq<CompanyRow>,
                               entries: seq<Entry>, ws: seq<Window>, rows: seq<OverSlaRow>, i: nat)
    requires BuildWindows(p, numPeriods) == Ok(ws)
    requires CompaniesOverSla(p, numPeriods, filterMonthly, customers, entries) == Ok(rows)
    requires i < |rows|
    ensures rows[i].periods == ws && |rows[i].periodUsage| == |ws|
    ensures forall j :: 0 <= j < |ws| ==>
      rows[i].periodUsage[j] == HoursBetween(Select(entries, rows[i].companyId), ws[j].start, ws[j].end)
    ensures rows[i].totalUsage == Sum(rows[i].periodUsage) && rows[i].averageUsage == rows[i].totalUsage / |ws| as real
    ensures rows[i].missingSla <==> rows[i].sla == 0.0
  {
    OverSlaRowIs(p, numPeriods, filterMonthly, customers, entries, ws, rows, i);
    BuildWindowsContiguous(p, numPeriods, ws);
    OverSlaRowSeries(entries, ws, SlaTable(customers), AddMonths(ws[|ws| - 1].end, -6).value,
                     AddMonths(ws[|ws| - 1].end, -12).value, rows[i]);
  }

  /** Each listed row passes its mode: monthly mode has a window above the SLA;
      average mode has a positive SLA, an average above it and usage in the
      newest window, so monthly mode would list it too. */
  lemma CompaniesOverSlaModes(p: Period, numPeriods: int, filterMonthly: bool, customers: seq<CompanyRow>,
                              entries: seq<Entry>, ws: seq<Window>, rows: seq<OverSlaRow>, i: nat)
    requires BuildWindows(p, numPeriods) == Ok(ws)
    requires CompaniesOverSla(p, numPeriods, filterMonthly, customers, entries) == Ok(rows)
    requires i < |rows|
    ensures |rows[i].periodUsage| == |ws|
    ensures filterMonthly ==> exists j :: 0 <= j < |ws| && rows[i].periodUsage[j] > rows[i].sla
    ensures !filterMonthly ==> rows[i].sla > 0.0 && rows[i].averageUsage > rows[i].sla &&
                               rows[i].periodUsage[|ws| - 1] > 0.0 && KeepOverSla(rows[i].periodUsage, rows[i].sla, true)
  {
    OverSlaRowIs(p, numPeriods, filterMonthly, customers, entries, ws, rows, i);
    KeptRowPassesMode(entries, ws, SlaTable(customers), AddMonths(ws[|ws| - 1].end, -6).value,
                      AddMonths(ws[|ws| - 1].end, -12).value, rows[i], filterMonthly);
  }

  /** A month index and a day decide date order: an earlier month, or the same
      month and an earlier day, is an earlier date. */
  lemma DateAtOrder(i: int, d: int, j: int, e: int)
    requires IndexInRange(i) && IndexInRange(j) && 1 <= d <= 28 && 1 <= e <= 28
    requires i < j || (i == j && d < e)
    ensures DateLt(DateAt(i, d), DateAt(j, e))
  {
  }

  /** Shifting the 25th of a month by whole months lands on the 25th. */
  lemma ShiftTwentyFifth(i: int, k: int)
    requires IndexInRange(i) && IndexInRange(i - k)
    ensures AddMonths(DateAt(i, 25), -k) == Some(DateAt(i - k, 25))
  {
    var r := AddMonths(DateAt(i, 25), -k);
    DateAtUnique(r.value, i - k, 25);
  }

  /** The rolling cutoffs `newest - relativedelta(months=k)` fall on the last day
      of the window k months back: with more than k windows, the k-month sum
      also counts the final day of the (k+1)-th newest window. */
  lemma RollingCutoffIsWindowEnd(p: Period, k: nat)
    requires InRange(p, k)
    ensures AddMonths(PeriodWindow(p, 0).end, -(k as int)) == Some(PeriodWindow(p, k).end)
  {
    ShiftTwentyFifth(StartIndex(p, 0) + 1, k);
  }

  lemma {:induction false} RollingAllAfter(es: seq<Entry>, cutoff: Date)
    requires forall k :: 0 <= k < |es| ==> OnOrAfter(es[k], cutoff)
    ensures RollingHours(es, cutoff) == TotalHours(es)
  {
    if es != [] {
      assert forall k :: 0 <= k < |es| - 1 ==> es[..|es| - 1][k] == es[k];
      RollingAllAfter(es[..|es| - 1], cutoff);
    }
  }

  /** A cutoff at or before the oldest window's start leaves out none of the
      entries the fetch filter admits. */
  lemma RollingOverSpan(es: seq<Entry>, c: int, ws: seq<Window>, cutoff: Date)
    requires Contiguous(ws) && |ws| > 0 && AllInSpan(es, ws[0].start, ws[|ws| - 1].end)
    requires DateLe(cutoff, ws[0].start)
    ensures RollingHours(Select(es, c), cutoff) == Sum(Totals(Select(es, c), ws, OnDate))
  {
    var g := Select(es, c);
    SelectMembers(es, c);
    assert AllInSpan(g, ws[0].start, ws[|ws| - 1].end);
    forall k | 0 <= k < |g|
      ensures OnOrAfter(g[k], cutoff)
    {
      assert g[k] in g;
      SerialOrder(cutoff, ws[0].start);
      SerialOrder(ws[0].start, g[k].start.value.date);
      SerialOrder(cutoff, g[k].start.value.date);
    }
    RollingAllAfter(g, cutoff);
    SpanEntriesAllMatch(g, ws);
    TotalsConserveHours(g, ws, OnDate);
  }

  /** A k-month cutoff with at most k windows lies before the oldest window. */
  lemma CutoffBeforeSpan(p: Period, numPeriods: int, ws: seq<Window>, k: int)
    requires BuildWindows(p, numPeriods) == Ok(ws) && 1 <= numPeriods <= k
    requires AddMonths(ws[|ws| - 1].end, -k).Some?
    ensures DateLe(AddMonths(ws[|ws| - 1].end, -k).value, ws[0].start)
  {
    var a := StartIndex(p, 0) + 1;
    assert ws[|ws| - 1] == PeriodWindow(p, 0);
    assert ws[0] == PeriodWindow(p, numPeriods - 1);
    ShiftTwentyFifth(a, k);
    DateAtOrder(a - k, 25, StartIndex(p, numPeriods - 1), 26);
  }

  /** For entries inside the fetched span the rolling sums add nothing the window
      series lacks: the 12-month sum equals the total (num_periods is at most
      12), and so does the 6-month sum when there are at most 6 windows. */
  lemma CompaniesOverSlaRolling(p: Period, numPeriods: int, filterMonthly: bool, customers: seq<CompanyRow>,
                                entries: seq<Entry>, ws: seq<Window>, rows: seq<OverSlaRow>, i: nat)
    requires BuildWindows(p, numPeriods) == Ok(ws)
    requires CompaniesOverSla(p, numPeriods, filterMonthly, customers, entries) == Ok(rows)
    requires i < |rows|
    requires AllInSpan(entries, ws[0].start, ws[|ws| - 1].end)
    ensures numPeriods <= 12 ==> rows[i].last12MonthsUsage == rows[i].totalUsage
    ensures numPeriods <= 6 ==> rows[i].last6MonthsUsage == rows[i].totalUsage
  {
    OverSlaRowIs(p, numPeriods, filterMonthly, customers, entries, ws, rows, i);
    var c := rows[i].companyId;
    BuildWindowsContiguous(p, numPeriods, ws);
    if numPeriods <= 12 {
      CutoffBeforeSpan(p, numPeriods, ws, 12);
      RollingOverSpan(entries, c, ws, AddMonths(ws[|ws| - 1].end, -12).value);
    }
    if numPeriods <= 6 {
      CutoffBeforeSpan(p, numPeriods, ws, 6);
      RollingOverSpan(entries, c, ws, AddMonths(ws[|ws| - 1].end, -6).value);
    }
  }

  /** With an anchor at least 13 months after the calendar's first month and
      1..12 windows, the only failure left is a null company id among the
      entries, and only when there are customers. */
  lemma CompaniesOverSlaOutcome(p: Period, numPeriods: int, filterMonthly: bool,
                                customers: seq<CompanyRow>, entries: seq<Entry>)
    requires 1 <= numPeriods <= 12 && InRange(p, 12)
    ensures CompaniesOverSla(p, numPeriods, filterMonthly, customers, entries).Err?
        <==> |customers| > 0 && SomeCompanyIdMissing(entries)
    ensures CompaniesOverSla(p, numPeriods, filterMonthly, customers, entries).Err? ==>
      CompaniesOverSla(p, numPeriods, filterMonthly, customers, entries).error == MissingCompanyId
  {
    var ws := BuildWindows(p, numPeriods).value;
    assert ws[|ws| - 1] == PeriodWindow(p, 0);
    RollingCutoffIsWindowEnd(p, 6);
    RollingCutoffIsWindowEnd(p, 12);
  }
}
