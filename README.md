# Usage reports over 26th-to-25th windows

This project models the reporting core of a time-tracking back end. It keeps
time entries (hours logged against HubSpot companies) and reports each company's
usage against its SLA, the monthly hours it has bought. Usage is counted
in monthly windows. Each window runs from the 26th of one month to the 25th of
the next. A period "MM-YYYY" names the window that ends on the 25th of that
month.

The model covers these parts of the source:

- the window arithmetic: `get_period_range`, `build_windows`,
  `get_cutoff_windows` and the date parsing they rely on;
- the four report endpoints of the reports router:
  - the single-company usage report;
  - the all-company usage report;
  - the companies-with-time listing;
  - the over-SLA listing, with its two filter modes and its 6- and 12-month
    rolling totals;
- the data behind the PDF report (`ReportsService.get_company_usage`): daily
  totals, entry rows sorted by start time, per-window sums computed day by day,
  and the utilisation figure;
- the paged fetch helpers.

Modules:

- `Outcomes`: Option, Result, the report errors, and `Sum` as Python's `sum`.
- `Calendar`: proleptic Gregorian dates in years 1..9999, as Python's `date`.
  It has serial day numbers, month arithmetic as `relativedelta` does it, and
  UTC timestamps.
- `Periods`: the window functions.
- `Buckets`: time entries, the window lookup "first window containing the
  entry", per-window totals and id logs. It also has reference sums over date
  ranges (`HoursBetween`).
- `Sla`: the two percentage bases, the missing-SLA rule, the over-SLA filter
  and utilisation.
- `Reports`: the four endpoints.
  - Each endpoint is a specification function returning a `Result`.
  - Each is also a method with the endpoint's loops, proved equal to that
    function.
  - Lemmas state what the rows contain.
- `PdfService`: `get_company_usage`, in the same three-part form.

The database is replaced by parameters. Each endpoint receives the entries its
query returns and the company rows. An exception the endpoint lets escape, or
turns into `{"detail": ...}`, becomes an `Err` value. The error cases are:

- a malformed period;
- a date outside years 1..9999;
- no windows, where Python raises IndexError when `months <= 0`;
- an entry without a start time;
- an unknown company;
- an end date before the start date;
- a null company id in the over-SLA loop.

The rolling totals of the over-SLA report start at the newest window's end
moved back 6 or 12 months. This cutoff is the end of the window 6 or 12 months
older (`Reports.RollingCutoffIsWindowEnd`). With more than 6 windows, the
"last 6 months" figure therefore covers only the 6 newest windows, plus the
entries dated on the 25th of the month before them (one day).

## Model

| member | source | states |
|---|---|---|
| Calendar.AddMonths | backend/app/routers/reports.py:32-36 | `relativedelta(months=k)` succeeds exactly when the target month lies in years 1..9999. It lands k month indexes away and keeps any day up to 28; a later day is kept or clamped to the target month's last day. |
| Calendar.TwentySixthToTwentyFifth | backend/app/routers/reports.py:35-36 | From the 26th of a month to the 25th of the next is as many days as the first month has. |
| Calendar.SerialOrder | backend/app/routers/reports.py:134 | The comparison `start <= dt <= end` on dates agrees with the order of serial day numbers. |
| Periods.GetPeriodRange | backend/app/routers/reports.py:28-37 | A malformed period fails with InvalidPeriodFormat. Otherwise the call succeeds exactly when the window's month is in range, and the window runs from the 26th of month (anchor − 1 − offset) to the 25th of the next month. |
| Periods.NewestWindowEndsInPeriod | backend/app/routers/reports.py:32-37 | Offset 0 ends on the 25th of the requested month and year. |
| Periods.BuildWindows | backend/app/routers/reports.py:17-25 | A count ≤ 0 gives no windows. Otherwise the result is Ok exactly when the oldest offset is in range. It then has `count` windows, and element i is offset count−1−i, so the list is oldest first. |
| Periods.PeriodWindowsAbut | backend/app/routers/reports.py:34-36 | The window of offset k+1 ends the day before the window of offset k starts, and every window starts before it ends. |
| Periods.PeriodWindowOrdered | backend/app/routers/reports.py:34-36 | Every window starts (on a 26th) before it ends (on the next 25th). |
| Periods.BuildWindowsContiguous | backend/app/routers/reports.py:17-25 | The built series is contiguous: each window starts the day after the previous one ends. |
| Periods.WindowLengthIsStartMonth | backend/app/routers/reports.py:17-25 | Every built window has as many days as the month it starts in. |
| Periods.June2025Windows | backend/app/routers/reports.py:28-37 | "06-2025" gives 2025-05-26..2025-06-25 at offset 0 and 2025-04-26..2025-05-25 at offset 1. A two-window series lists them oldest first. |
| Periods.RecentWindows | backend/app/routers/reports.py:180 | `[get_period_range(period, i) for i in range(months)]` is newest first: element i is offset i. |
| Periods.RecentIsReversedBuild | backend/app/routers/reports.py:180 | The newest-first list is the reverse of `build_windows`, and each fails exactly when the other does. |
| Periods.CutoffWindowIsPeriodWindow | backend/app/routers/reports.py:58-65 | The window built from the 25th anchor moved back i months is the window `get_period_range` gives for offset i. |
| Periods.GetCutoffWindows | backend/app/routers/reports.py:52-66 | `get_cutoff_windows` fails on a malformed period and otherwise returns exactly `build_windows` (corrected). |
| Periods.CollectWindows | backend/app/services/pdf_service.py:27-31 | The service's window loop returns the same oldest-first series as `build_windows`. |
| Periods.BuildWindowsOnHost | backend/app/routers/reports.py:40-49 | `build_windows` as written, on a host with the given UTC offset: it fails exactly when the corrected one does, with as many windows. |
| Periods.HostEastOfUtcShiftsWindow | backend/app/routers/reports.py:47 | On a host at UTC+1, "06-2025" gives 2025-05-25..2025-06-24 instead of 2025-05-26..2025-06-25. |
| Periods.HostAtOrWestOfUtcKeepsWindows | backend/app/routers/reports.py:47 | On a host at or west of UTC, the as-written windows equal the corrected ones. |
| Buckets.FirstMatchFrom | backend/app/routers/reports.py:133-137 | The window scan with `break` returns the first window from k that contains the entry, or none when no window contains it. |
| Buckets.FindWindow | backend/app/routers/reports.py:133-137 | The loop over windows returns the index of the first window that matches. |
| Buckets.Zeros | backend/app/routers/reports.py:128 | `[0.0] * months` is `months` zeros. |
| Buckets.Empties | backend/app/routers/reports.py:129 | `[[] for _ in range(months)]` is `months` empty id lists. |
| Buckets.TotalsConserveHours | backend/app/routers/reports.py:131-137 | The period totals add up to the hours of the entries that matched some window. |
| Buckets.LogsCountMatched | backend/app/routers/reports.py:131-137 | The id logs hold one id per matched entry, so at most one per entry. |
| Buckets.LoggedInItsWindow | backend/app/routers/reports.py:136 | A matched entry's id is in the log of the window it matched. |
| Buckets.ContiguousIsDisjoint | backend/app/routers/reports.py:17-25 | Contiguous windows share no date, so the order of the window scan and its `break` do not matter. |
| Buckets.OnlyMatch | backend/app/routers/reports.py:133-137 | Over disjoint windows, an entry inside window i is bucketed into window i. |
| Buckets.TimestampMatchIsDateMatch | backend/app/routers/reports.py:199-202 | A timestamp between the midnights of a window's dates has its date inside the window. |
| Buckets.AfterMidnightOnLastDayMatchesNothing | backend/app/routers/reports.py:199-202 | Comparing timestamps against `fromisoformat("YYYY-MM-25")` matches a time on the 25th only at exactly midnight. Any later time on the 25th falls in no window. |
| Buckets.TimestampTotalsAreHoursStampedBetween | backend/app/routers/reports.py:199-206 | Over disjoint windows, matching by timestamp, window i's total is the hours of the entries stamped from midnight of its start to midnight of its end. |
| Buckets.StampedIsDatedBeforeEndPlusMidnight | backend/app/routers/reports.py:202 | For a <= b, the hours stamped in [midnight a, midnight b] are the hours dated in [a, the day before b] plus the hours stamped exactly at midnight of b. |
| Buckets.TotalsAreHoursBetween | backend/app/routers/reports.py:131-137 | Over disjoint windows, window i's total is the hours of the entries dated from its start to its end. |
| Buckets.LogsAreIdsBetween | backend/app/routers/reports.py:131-137 | Over disjoint windows, matching by date, window i's id list is the ids of exactly the entries dated inside it, in input order. |
| Buckets.BucketsByDate | backend/app/routers/reports.py:131-137 | Over disjoint windows, matching by date, every window's total and id list are those of the entries dated inside it. |
| Buckets.LogsAreIdsStampedBetween | backend/app/routers/reports.py:199-206 | Over disjoint windows, matching by timestamp, window i's id list is the ids of exactly the entries stamped from midnight of its start to midnight of its end, in input order. |
| Buckets.SpanIsCovered | backend/app/routers/reports.py:104-121 | Every date from the oldest start to the newest end lies in some contiguous window. |
| Buckets.SpanEntriesAllMatch | backend/app/routers/reports.py:104-137 | When every entry is dated inside the span, as the fetch filter ensures, all of them are bucketed: matched hours equal all hours, and matched count equals the entry count. |
| Sla.PercentOfCapacity | backend/app/routers/reports.py:152 | None exactly when sla ≤ 0; otherwise percentage × (sla × months) = total × 100. |
| Sla.PercentOfSla | backend/app/routers/reports.py:556 | None exactly when sla ≤ 0; otherwise percentage × sla = usage × 100. |
| Sla.CapacityIsAverageOverSla | backend/app/routers/reports.py:152 | Total over sla×months equals the average over sla, so the two reports' bases agree. |
| Sla.Metrics | backend/app/routers/reports.py:150-164 | Gives `total` = sum of the period totals, `average` × months = total, the capacity percentage, and `missing_sla` exactly when sla = 0. |
| Sla.NegativeSlaIsNotMissing | backend/app/routers/reports.py:152-164 | A negative SLA has no percentage and is not flagged as missing. |
| Sla.SixWindowScenario | backend/app/routers/reports.py:150-152 | Windows of 80..130 hours against SLA 100 give total 630, average 105, 105 %. |
| Sla.NoUsageIsZeroPercent | backend/app/routers/reports.py:152 | A positive SLA with no usage gives 0 %, not None. |
| Sla.MonthlyModeKeepsAnySpike | backend/app/routers/reports.py:557-562 | Monthly mode keeps a company exactly when some window's usage exceeds the SLA. |
| Sla.AverageModeIff | backend/app/routers/reports.py:554-567 | Average mode keeps a company exactly when sla > 0, total > sla × windows, and the newest window has usage. |
| Sla.AverageModeImpliesMonthlyMode | backend/app/routers/reports.py:554-567 | Every company the average mode keeps, the monthly mode keeps too. |
| Sla.SingleSpikeScenario | backend/app/routers/reports.py:557-567 | Usage [50, 110] against SLA 100 is kept monthly and dropped on average. |
| Sla.Utilisation | backend/app/services/pdf_service.py:106 | Utilisation is 0 for a zero total SLA; otherwise utilisation × total_sla = total_usage × 100. |
| Sla.UtilisationVersusCapacity | backend/app/services/pdf_service.py:104-106 | Where the router reports no percentage (sla ≤ 0), the PDF reports 0 for a zero SLA and a signed number for a negative one. |
| Reports.FirstRow | backend/app/routers/reports.py:140-149 | `.eq(hubspot_id).limit(1)` gives the first row with that id, and none exactly when no row has it. |
| Reports.SlaTable | backend/app/routers/reports.py:506-507 | The SLA dictionary's keys are exactly the ids of the company rows. |
| Reports.LastRowWins | backend/app/routers/reports.py:506-507 | In the dict comprehension, a company's SLA is that of its last row. |
| Reports.FirstSeen | backend/app/routers/reports.py:208 | The dictionary's insertion order lists each company once. |
| Reports.FirstSeenMembers | backend/app/routers/reports.py:195-206 | A company is a key exactly when some admitted entry carries its id. |
| Reports.UsageOf | backend/app/routers/reports.py:190-193 | Every company's usage holds one total and one id list per window. |
| Reports.UsageOfUnmatched | backend/app/routers/reports.py:201-206 | A company none of whose entries lands in a window keeps zero totals and empty logs. |
| Reports.FetchAllEntries | backend/app/routers/reports.py:69-87 | Paging in batches of 1000 until an empty batch returns every stored row, in order. |
| Reports.CompanyUsageReport | backend/app/routers/reports.py:99-166 | The endpoint's loops compute exactly `CompanyUsage`. |
| Reports.BucketEntries | backend/app/routers/reports.py:127-137 | The bucketing loop fails exactly when an entry has no start time. Otherwise its totals and id lists are `Totals` and `Logs` matching by date. Over disjoint windows, each window's total is the hours, and its id list the ids in input order, of exactly the entries dated inside it. |
| Reports.CompanyUsageWindows | backend/app/routers/reports.py:100-105 | A successful report has `months` > 0 contiguous windows, oldest first (window i is offset months−1−i), and one total per window. |
| Reports.CompanyUsageTotals | backend/app/routers/reports.py:127-152 | Each period total is the hours dated in its window, and `total_time` is the matched hours. With every entry inside the span, `total_time` is the hours of all entries. |
| Reports.CompanyUsageLogsAreOldestWindow | backend/app/routers/reports.py:165 | `current_period_logs` is `period_logs[0]`, the oldest window: it holds exactly the ids of the entries dated in the oldest window, in input order. |
| Reports.CompanyUsageErrors | backend/app/routers/reports.py:104-132 | `months <= 0` fails with NoWindows (IndexError). An entry without a start time fails with MissingStartTime (TypeError). |
| Reports.AllCompanyRows | backend/app/routers/reports.py:217-238 | One row per grouped company, in order, each row being that company's row. |
| Reports.AllCompanyStep | backend/app/routers/reports.py:195-206 | One pass of the entry loop keeps the `company_usage` dictionary equal to the per-company usage of the entries seen so far. |
| Reports.BucketAllCompanies | backend/app/routers/reports.py:195-206 | The entry loop fails exactly when an entry with a truthy company id has no start time. Otherwise its keys are the first-seen companies and each value is that company's usage. |
| Reports.AllCompanyRowsFor | backend/app/routers/reports.py:217-238 | The row loop returns exactly `AllCompanyRows`. |
| Reports.AllCompanyUsageReport | backend/app/routers/reports.py:179-243 | The endpoint's loops compute exactly `AllCompanyUsage`. |
| Reports.RecentWindowsDisjoint | backend/app/routers/reports.py:180 | The newest-first windows share no date. |
| Reports.AllCompanyMembers | backend/app/routers/reports.py:195-210 | A company has a row exactly when its id is truthy and one of its entries falls in a window under the timestamp comparison. |
| Reports.AllCompanyRowsShape | backend/app/routers/reports.py:208-238 | Rows have distinct companies. Every row lists the `months` windows newest first (window w is offset w). |
| Reports.AllCompanyTotals | backend/app/routers/reports.py:195-237 | Each window's total is the hours of the company's entries stamped from midnight of the window's start to midnight of its end. A row's total is the matched hours of its company's entries, and `time_logs` is exactly the ids of the company's entries stamped inside the newest window, in input order. Its SLA is that of the company's last row. |
| Reports.AllCompanyWindowTotal | backend/app/routers/reports.py:199-206 | Each window's total is the company's hours dated from the window's 26th to the 24th of the next month, plus only the hours stamped exactly 00:00 on the closing 25th. |
| Reports.AllCompanyDropsAfterMidnight | backend/app/routers/reports.py:199-202 | An entry on a window's closing 25th is counted only when it starts exactly at midnight. |
| Reports.GroupStep | backend/app/routers/reports.py:309-316 | One pass of the grouping loop keeps every group equal to the ids, hours and count of that company's entries so far. |
| Reports.GroupByCompany | backend/app/routers/reports.py:306-316 | The groups are keyed by first-seen truthy company ids, and each holds the ids, total hours and count of that company's entries. |
| Reports.KeptRows | backend/app/routers/reports.py:336-357 | Every row is the row of a grouped company. |
| Reports.KeptRowsFor | backend/app/routers/reports.py:336-357 | The row loop returns exactly `KeptRows`. |
| Reports.CompaniesWithTimeEntries | backend/app/routers/reports.py:284-357 | The endpoint's loops compute exactly `CompaniesWithTime`. |
| Reports.KeptRowsMembers | backend/app/routers/reports.py:337-341 | A grouped company has a row exactly when its total is at least `min_hours`. |
| Reports.CompaniesWithTimeRejects | backend/app/routers/reports.py:285-289 | The endpoint fails exactly when the end date is before the start date, with that error. |
| Reports.CompaniesWithTimeMembers | backend/app/routers/reports.py:306-341 | A company has a row exactly when its id is truthy, it has an entry, and its hours reach `min_hours`. |
| Reports.CompaniesWithTimeRows | backend/app/routers/reports.py:336-355 | The count and ids are those of the company's entries and the total is their hours. The percentage is `PercentOfSla(total, sla)`, so it is absent exactly when sla ≤ 0. `missing_sla` holds exactly when sla = 0. Without company data the SLA is 0. |
| Reports.TimeRowFacts | backend/app/routers/reports.py:343-357 | A company's row holds its entries' ids, count and hours, its SLA from the table, `missing_sla` exactly when the SLA is 0, and the percent of that SLA. |
| Reports.OverSlaRows | backend/app/routers/reports.py:550-581 | Every row is its company's row and passes the filter of the chosen mode. |
| Reports.RecordCustomerEntry | backend/app/routers/reports.py:534-548 | For one entry with a company id: the company joins the first-seen order exactly when it is a customer with an entry inside some window and is not already listed. Its usage, six-month and twelve-month totals change exactly as `CustomerStep` says: a customer's dated entry adds its hours to the window holding its date (starting from zeros) and to each rolling total whose cutoff it is on or after. A non-customer or undated entry changes nothing. |
| Reports.OverSlaStep | backend/app/routers/reports.py:533-548 | One pass of the entry loop keeps usage and both rolling totals equal to those of the entries seen so far. |
| Reports.BucketCustomers | backend/app/routers/reports.py:526-548 | The entry loop fails exactly when an entry's company id is null (`int(None)`). Otherwise it computes per-company window usage and rolling totals. |
| Reports.OverSlaTest | backend/app/routers/reports.py:553-567 | Computes total, average and percentage; the keep decision is `KeepOverSla`. |
| Reports.OverSlaRowFor | backend/app/routers/reports.py:552-581 | One customer's keep decision is `KeepOverSla` of its series and SLA, and a kept row is that customer's `OverSlaRowOf`. |
| Reports.FilterOverSla | backend/app/routers/reports.py:550-581 | The row loop returns exactly `OverSlaRows`. |
| Reports.CompaniesOverSlaReport | backend/app/routers/reports.py:478-583 | The endpoint's loops compute exactly `CompaniesOverSla`. |
| Reports.OverSlaRowsMembers | backend/app/routers/reports.py:552-567 | A listed company has a row exactly when its usage passes the mode's test. |
| Reports.CompaniesOverSlaMembers | backend/app/routers/reports.py:502-567 | A company is reported exactly when it is a customer, one of its entries lands in a window, and it passes the mode's test. |
| Reports.OverSlaRowIs | backend/app/routers/reports.py:530-581 | Proof helper that unfolds a success: each row is its company's row with the cutoffs 6 and 12 months before the newest end, and passes the filter. |
| Reports.KeptRowPassesMode | backend/app/routers/reports.py:557-567 | A kept row in monthly mode has a window above the SLA. In average mode it has a positive SLA, an average above it, usage in the newest window, and it would pass monthly mode. |
| Reports.OverSlaRowSeries | backend/app/routers/reports.py:552-579 | A row lists the windows, one usage per window equal to the company's hours dated in it, their sum, and the sum over the window count. `missing_sla` holds exactly when sla = 0. |
| Reports.CompaniesOverSlaSeries | backend/app/routers/reports.py:540-579 | The same facts for every row of the report. |
| Reports.CompaniesOverSlaModes | backend/app/routers/reports.py:557-567 | Every row of the report passes its mode, as in `KeptRowPassesMode`. |
| Reports.RollingCutoffIsWindowEnd | backend/app/routers/reports.py:530-531 | The newest end moved back k months is the end of the window k months older. |
| Reports.RollingOverSpan | backend/app/routers/reports.py:545-548 | With a cutoff no later than the oldest start and every entry inside the span, a rolling total is the company's window total. |
| Reports.CutoffBeforeSpan | backend/app/routers/reports.py:530-531 | For k ≥ the window count, the cutoff k months back is no later than the oldest window's start. |
| Reports.CompaniesOverSlaRolling | backend/app/routers/reports.py:545-578 | With every entry inside the span, `last_12_months_usage` equals `total_usage` for up to 12 windows. `last_6_months_usage` does so for up to 6. |
| Reports.CompaniesOverSlaOutcome | backend/app/routers/reports.py:502-537 | For 1..12 windows of a period in range, the endpoint fails exactly when there are customers and an entry has a null company id. |
| PdfService.DayOrder | backend/app/services/pdf_service.py:67-81 | The keys of `daily_totals`, in insertion order, are distinct. |
| PdfService.DailyKeys | backend/app/services/pdf_service.py:69-81 | A date is a key exactly when it is in that order, which is exactly when some entry starts on it. |
| PdfService.DailyTotalsAreDayHours | backend/app/services/pdf_service.py:69-81 | `daily_totals.get(d, 0)` is the hours of the entries whose UTC date is d. |
| PdfService.TotalTimeStep | backend/app/services/pdf_service.py:83 | One more started entry raises the sum of the daily totals by exactly its hours. |
| PdfService.TotalTimeIsTotalHours | backend/app/services/pdf_service.py:83 | `sum(daily_totals.values())` is the hours of all entries. |
| PdfService.SumWindow | backend/app/services/pdf_service.py:93-98 | The `while cur <= end` day loop sums the hours dated from start to end. |
| PdfService.MonthlyTotals | backend/app/services/pdf_service.py:87-100 | One monthly total per window. |
| PdfService.MonthlyTotalsAt | backend/app/services/pdf_service.py:87-100 | Total i carries the end month and year of window i and the hours dated in that window. |
| PdfService.MonthlyLoop | backend/app/services/pdf_service.py:87-100 | The window loop computes exactly `MonthlyTotals`. |
| PdfService.MonthlyTotalsTile | backend/app/services/pdf_service.py:103 | Over contiguous windows whose span holds every entry, the monthly usages add up to the hours of all entries. |
| PdfService.RowsOf | backend/app/services/pdf_service.py:68-80 | At most one entry row per entry. |
| PdfService.RowsOfStarted | backend/app/services/pdf_service.py:69-80 | When every entry has a start time, there is exactly one row per entry. |
| PdfService.InsertKeeps | backend/app/services/pdf_service.py:84 | Inserting a row into start-sorted rows keeps them sorted and adds just that row. |
| PdfService.SortByStartSorts | backend/app/services/pdf_service.py:84 | The sorted entry rows are in start-time order, are a permutation of the rows, and keep rows with equal start times in their input order (a stable sort). |
| PdfService.InsertStable | backend/app/services/pdf_service.py:84 | Inserting a row keeps it in front of every row with the same start time. |
| PdfService.SortByStartStable | backend/app/services/pdf_service.py:84 | For every start time, the sorted rows with that time are the input rows with that time, in the same order. |
| PdfService.CompanyUsageDataIs | backend/app/services/pdf_service.py:24-106 | Proof helper that unfolds a success: a successful result means valid windows, a company row and started entries, and is the figures over them. |
| PdfService.DailyLoop | backend/app/services/pdf_service.py:66-81 | The entry loop fails exactly when an entry lacks a start time. Otherwise it yields the day order, daily totals and rows. |
| PdfService.Aggregate | backend/app/services/pdf_service.py:66-106 | The part after the company lookup computes exactly `UsageDataOf`, failing exactly on a missing start time. |
| PdfService.GetCompanyUsage | backend/app/services/pdf_service.py:24-122 | The method computes exactly `CompanyUsageData`. |
| PdfService.UsageDataOfMonths | backend/app/services/pdf_service.py:87-100 | Monthly total i is labelled with window i's end month and holds the hours dated in window i. |
| PdfService.CompanyUsageDataWindows | backend/app/services/pdf_service.py:26-33 | The report has `months` contiguous windows, oldest first. Each monthly total is labelled and summed over its window. The last is labelled with the requested month. |
| PdfService.UsageDataOfDays | backend/app/services/pdf_service.py:66-84 | The day totals give each day's hours, with a key exactly for days that have an entry. `total_time` is all hours. The entry rows are all the entries, sorted by start time. |
| PdfService.CompanyUsageDataDays | backend/app/services/pdf_service.py:66-84 | The same facts for a successful report. |
| PdfService.UsageDataOfTotals | backend/app/services/pdf_service.py:102-106 | Gives `total_sla` = sla × months, `total_diff` = usage − total_sla, and utilisation 0 or usage×100/total_sla. Over a span holding every entry, `total_usage` = `total_time`. |
| PdfService.CompanyUsageDataTotals | backend/app/services/pdf_service.py:36-43 | The SLA is the first company row's, the totals are those of `UsageDataOfTotals`, and `total_usage` = `total_time` when every entry is inside the span. |
| PdfService.CompanyUsageDataNotFound | backend/app/services/pdf_service.py:41-42 | With valid windows, the result is "not found" exactly when no company row has the id. |

The PDF service keeps its own copies of two router helpers: `get_period_range` (backend/app/services/pdf_service.py:227-233) and `_fetch_all_entries` (backend/app/services/pdf_service.py:211-224). Each does the same computation as the router's version, so `Periods.GetPeriodRange` and `Reports.FetchAllEntries` model both copies.

## Left out

- Database queries, HTTP routing, HubSpot, PDF rendering (HTML template, chart, browser) and the `raw` company payload. Entries and company rows are parameters; the query filters (tag, entry type, date range) are the caller's and are not modelled, except that lemmas about the full span take "every entry lies inside the span" as a hypothesis.
- Floating point and `round(total, 2)`: hours are exact reals, so `total_hours` is the unrounded total.
- Timestamps are UTC instants (the store returns `+00:00` offsets). Under that assumption, three readings agree: `astimezone(timezone.utc).date()`, the naive `replace(tzinfo=None)`, and string comparison of start times. Other offsets are not modelled.
- Hours given as text that does not parse (such as "N/A") make `float()` raise in the code. The model represents hours as an optional number, so such values are not representable; a missing or null value counts as 0 as in the code.
- PdfService.SortByStartSorts: the source sorts by the `start_time` ISO string, and the model sorts by the parsed timestamp. The two orders agree only while every stored string carries the same UTC offset and format.
- End time, tag and description of the PDF entry rows are carried through unchanged and are not modelled; neither are the `period` string and the ISO formatting of the windows.
- The commented-out first version of the over-SLA endpoint is not modelled.
- The HTTP 400 at reports.py:484-486 is unreachable: `get_period_range` raises ValueError before `parse_date` can raise. The model reports that error as InvalidPeriodFormat or DateOutOfRange.
- The over-SLA and company-usage windows use the corrected `BuildWindows`, not the host-dependent `parse_date` (see Findings).
- The companies-with-time dates arrive as dates: the parse of `start_date`/`end_date` strings is not modelled.
- The company-usage report's `current_period_logs` is `period_logs[0]`, the oldest window; the model keeps that behaviour.

## Findings

| source | as written | input that shows it | evidently intended | confidence | as-written member | corrected member |
|---|---|---|---|---|---|---|
| backend/app/routers/reports.py:47 | `parse_date` calls `astimezone(timezone.utc)` on a date-only ISO string, which Python reads as host-local midnight. | Period "06-2025" on a host at UTC+1 gives the window 2025-05-25..2025-06-24. | Windows 26th..25th whatever the host zone: 2025-05-26..2025-06-25. | not executed | Periods.HostEastOfUtcShiftsWindow | Periods.BuildWindows |
