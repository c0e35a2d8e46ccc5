/** The 26th-to-25th accounting window: one window from an `MM-YYYY` anchor and an
    offset (`get_period_range`), and the series of windows built from it
    (`build_windows`, the newest-first list of the all-company report, and
    `get_cutoff_windows`). */
module Periods {
  import opened Outcomes
  import opened Calendar

  /** The month and year of an `MM-YYYY` anchor, already split into numbers. */
  datatype Period = Period(month: int, year: int)

  /** A closed date range [start, end]. */
  datatype Window = Window(start: Date, end: Date)

  /** `strptime("01-MM-YYYY", "%d-%m-%Y")` succeeds exactly for these. */
  predicate WellFormed(p: Period)
  {
    1 <= p.month <= 12 && MinYear <= p.year <= MaxYear
  }

  function AnchorIndex(p: Period): int
  {
    MonthIndex(p.year, p.month)
  }

  /** Month index of the start of the window `offset` months back from the anchor. */
  function StartIndex(p: Period, offset: int): int
  {
    AnchorIndex(p) - 1 - offset
  }

  /** The window `offset` months back, in closed form: the 26th of month
      StartIndex through the 25th of the month after it. */
  function PeriodWindow(p: Period, offset: int): (w: Window)
    requires WellFormed(p) && offset >= 0 && StartIndex(p, offset) >= MonthIndex(MinYear, 1)
    ensures w.start.day == 26 && w.end.day == 25
  {
    Window(DateAt(StartIndex(p, offset), 26), DateAt(StartIndex(p, offset) + 1, 25))
  }

  /** The newest window ends on the 25th of the period's own month. */
  lemma NewestWindowEndsInPeriod(p: Period)
    requires WellFormed(p) && StartIndex(p, 0) >= MonthIndex(MinYear, 1)
    ensures PeriodWindow(p, 0).end == YMD(p.year, p.month, 25)
  {
  }

  /** Whether `get_period_range(p, offset)` returns a window rather than raising. */
  predicate InRange(p: Period, offset: int)
  {
    WellFormed(p) && StartIndex(p, offset) >= MonthIndex(MinYear, 1)
  }

  /** `get_period_range`: first of the anchor month, minus one month, minus `offset`
      months, day set to 26; the end is one month later with day 25. */
  function GetPeriodRange(p: Period, offset: nat): (r: Result<Window>)
    ensures !WellFormed(p) ==> r == Err(InvalidPeriodFormat)
    ensures r.Ok? <==> InRange(p, offset)
    ensures WellFormed(p) && r.Err? ==> r.error == DateOutOfRange
    ensures r.Ok? ==> r.value == PeriodWindow(p, offset)
  {
    if !WellFormed(p) then Err(InvalidPeriodFormat)
    else
      var first: Date := YMD(p.year, p.month, 1);
      match AddMonths(first, -1)
      case None => Err(DateOutOfRange)
      case Some(base) =>
        match AddMonths(base, -(offset as int))
        case None => Err(DateOutOfRange)
        case Some(adjusted) =>
          var start := WithDay(adjusted, 26);
          var next := AddMonths(start, 1);
          Ok(Window(start, WithDay(next.value, 25)))
  }

  /** A series of windows, each starting before it ends, each starting the day
      after the previous one ends. */
  predicate Contiguous(ws: seq<Window>)
  {
    (forall i :: 0 <= i < |ws| ==> DateLt(ws[i].start, ws[i].end)) &&
    (forall i :: 0 <= i < |ws| - 1 ==> ws[i].end != LastDate && NextDay(ws[i].end) == ws[i + 1].start)
  }

  /** `build_windows(period, count)`: windows for offsets count-1 down to 0, so
      oldest first; the comprehension raises at the first offset that fails. */
  function BuildWindows(p: Period, count: int): (r: Result<seq<Window>>)
    decreases count
    ensures count <= 0 ==> r == Ok([])
    ensures count > 0 ==> (r.Ok? <==> InRange(p, count - 1))
    ensures count > 0 && !WellFormed(p) ==> r == Err(InvalidPeriodFormat)
    ensures r.Err? ==> r.error == InvalidPeriodFormat || r.error == DateOutOfRange
    ensures r.Ok? ==> |r.value| == (if count <= 0 then 0 else count)
    ensures r.Ok? ==> forall i :: 0 <= i < |r.value| ==> r.value[i] == PeriodWindow(p, count - 1 - i)
  {
    if count <= 0 then Ok([])
    else
      match GetPeriodRange(p, count - 1)
      case Err(e) => Err(e)
      case Ok(w) =>
        match BuildWindows(p, count - 1)
        case Err(e) => Err(e)
        case Ok(rest) => Ok([w] + rest)
  }

  /** Every closed-form window starts (a 26th) before it ends (the next 25th). */
  lemma PeriodWindowOrdered(p: Period, offset: int)
    requires offset >= 0 && InRange(p, offset)
    ensures DateLt(PeriodWindow(p, offset).start, PeriodWindow(p, offset).end)
  {
    var w := PeriodWindow(p, offset);
    assert MonthIndex(w.start.year, w.start.month) < MonthIndex(w.end.year, w.end.month);
  }

  /** Consecutive closed-form windows abut. */
  lemma PeriodWindowsAbut(p: Period, offset: int)
    requires offset >= 0 && InRange(p, offset + 1)
    ensures PeriodWindow(p, offset + 1).end != LastDate
    ensures NextDay(PeriodWindow(p, offset + 1).end) == PeriodWindow(p, offset).start
    ensures DateLt(PeriodWindow(p, offset).start, PeriodWindow(p, offset).end)
  {
    DayAfter25th(StartIndex(p, offset));
    var w := PeriodWindow(p, offset);
    assert MonthIndex(w.start.year, w.start.month) < MonthIndex(w.end.year, w.end.month);
  }

  /** Every window of an oldest-first closed-form series starts before it ends. */
  lemma SeriesOrdered(p: Period, count: int, ws: seq<Window>)
    requires |ws| == count > 0 && InRange(p, count - 1)
    requires forall i :: 0 <= i < |ws| ==> ws[i] == PeriodWindow(p, count - 1 - i)
    ensures forall i :: 0 <= i < |ws| ==> DateLt(ws[i].start, ws[i].end)
  {
    forall i | 0 <= i < |ws|
      ensures DateLt(ws[i].start, ws[i].end)
    {
      PeriodWindowOrdered(p, count - 1 - i);
    }
  }

  /** Each window of an oldest-first closed-form series starts the day after the
      one before it ends. */
  lemma SeriesAbuts(p: Period, count: int, ws: seq<Window>)
    requires |ws| == count > 0 && InRange(p, count - 1)
    requires forall i :: 0 <= i < |ws| ==> ws[i] == PeriodWindow(p, count - 1 - i)
    ensures forall i :: 0 <= i < |ws| - 1 ==> ws[i].end != LastDate && NextDay(ws[i].end) == ws[i + 1].start
  {
    forall i | 0 <= i < |ws| - 1
      ensures ws[i].end != LastDate && NextDay(ws[i].end) == ws[i + 1].start
    {
      assert ws[i] == PeriodWindow(p, count - 1 - i) && ws[i + 1] == PeriodWindow(p, count - 2 - i);
      PeriodWindowsAbut(p, count - 2 - i);
    }
  }

  /** A successful `build_windows` is oldest first and contiguous: every window
      starts before it ends and the next one starts the day after it ends. */
  lemma BuildWindowsContiguous(p: Period, count: int, ws: seq<Window>)
    requires BuildWindows(p, count) == Ok(ws)
    ensures Contiguous(ws)
  {
    if count > 0 {
      SeriesOrdered(p, count, ws);
      SeriesAbuts(p, count, ws);
    }
  }

  /** Every window of a series has as many days as the month it starts in. */
  lemma WindowLengthIsStartMonth(p: Period, count: int, ws: seq<Window>)
    requires BuildWindows(p, count) == Ok(ws)
    ensures forall k :: 0 <= k < |ws| ==>
      Serial(ws[k].end) - Serial(ws[k].start) + 1 == DaysInMonth(ws[k].start.year, ws[k].start.month)
  {
    forall i | 0 <= i < |ws|
      ensures Serial(ws[i].end) - Serial(ws[i].start) + 1 == DaysInMonth(ws[i].start.year, ws[i].start.month)
    {
      var s := StartIndex(p, count - 1 - i);
      assert ws[i] == PeriodWindow(p, count - 1 - i);
      assert ws[i].start == DateAt(s, 26) && ws[i].end == DateAt(s + 1, 25);
      TwentySixthToTwentyFifth(s);
    }
  }

  /** The anchor "06-2025": offset 0 is 2025-05-26..2025-06-25, offset 1 the month
      before, and a two-window series lists them oldest first. */
  lemma June2025Windows()
    ensures GetPeriodRange(Period(6, 2025), 0) == Ok(Window(YMD(2025, 5, 26), YMD(2025, 6, 25)))
    ensures GetPeriodRange(Period(6, 2025), 1) == Ok(Window(YMD(2025, 4, 26), YMD(2025, 5, 25)))
    ensures BuildWindows(Period(6, 2025), 2)
         == Ok([Window(YMD(2025, 4, 26), YMD(2025, 5, 25)), Window(YMD(2025, 5, 26), YMD(2025, 6, 25))])
  {
    var p := Period(6, 2025);
    var newest := Window(YMD(2025, 5, 26), YMD(2025, 6, 25));
    var older := Window(YMD(2025, 4, 26), YMD(2025, 5, 25));
    assert PeriodWindow(p, 0) == newest;
    assert PeriodWindow(p, 1) == older;
    var b := BuildWindows(p, 2);
    assert b.value[0] == older && b.value[1] == newest;
    assert b.value == [older, newest];
  }

  /** The all-company report's `[get_period_range(period, i) for i in range(months)]`:
      offsets 0 up to count-1, so newest first. */
  function RecentWindows(p: Period, count: int): (r: Result<seq<Window>>)
    decreases count
    ensures count <= 0 ==> r == Ok([])
    ensures count > 0 ==> (r.Ok? <==> InRange(p, count - 1))
    ensures count > 0 && !WellFormed(p) ==> r == Err(InvalidPeriodFormat)
    ensures r.Ok? ==> |r.value| == (if count <= 0 then 0 else count)
    ensures r.Ok? ==> forall i :: 0 <= i < |r.value| ==> r.value[i] == PeriodWindow(p, i)
  {
    if count <= 0 then Ok([])
    else
      match RecentWindows(p, count - 1)
      case Err(e) => Err(e)
      case Ok(prefix) =>
        match GetPeriodRange(p, count - 1)
        case Err(e) => Err(e)
        case Ok(w) => Ok(prefix + [w])
  }

  /** The newest-first list is the oldest-first list reversed, and both fail on
      the same anchors. */
  lemma {:induction false} RecentIsReversedBuild(p: Period, count: int)
    ensures RecentWindows(p, count).Ok? <==> BuildWindows(p, count).Ok?
    ensures RecentWindows(p, count).Ok? ==>
      |RecentWindows(p, count).value| == |BuildWindows(p, count).value| &&
      forall i :: 0 <= i < |RecentWindows(p, count).value| ==>
        RecentWindows(p, count).value[i] == BuildWindows(p, count).value[|BuildWindows(p, count).value| - 1 - i]
  {
    if count > 0 && InRange(p, count - 1) {
      var rv, bv := RecentWindows(p, count).value, BuildWindows(p, count).value;
      forall i | 0 <= i < count
        ensures rv[i] == bv[count - 1 - i]
      {
      }
    }
  }

  /** One step of `get_cutoff_windows`: the window ending on the 25th `i` months
      before the anchor is the window of `get_period_range` at offset `i`. */
  lemma CutoffWindowIsPeriodWindow(p: Period, i: int, end: Date, previous: Date)
    requires WellFormed(p) && i >= 0
    requires AddMonths(YMD(p.year, p.month, 25), -i) == Some(end)
    requires AddMonths(end, -1) == Some(previous)
    ensures InRange(p, i) && previous != LastDate
    ensures Window(NextDay(previous), end) == PeriodWindow(p, i)
  {
    var s := StartIndex(p, i);
    DateAtUnique(previous, s, 25);
    DateAtUnique(end, s + 1, 25);
    DayAfter25th(s);
  }

  /** `get_cutoff_windows`: anchor on the 25th of the requested month; for i from
      n-1 down to 0 the window ends i months before the anchor and starts the day
      after the date one month before that end. Unlike `build_windows` it parses
      the anchor even when n <= 0. */
  method GetCutoffWindows(p: Period, n: int) returns (r: Result<seq<Window>>)
    ensures !WellFormed(p) ==> r == Err(InvalidPeriodFormat)
    ensures WellFormed(p) ==> r == BuildWindows(p, n)
  {
    if !WellFormed(p) {
      return Err(InvalidPeriodFormat);
    }
    var anchor: Date := YMD(p.year, p.month, 25);
    var windows: seq<Window> := [];
    var i := n - 1;
    while i >= 0
      invariant (n > 0 && -1 <= i <= n - 1) || (n <= 0 && i == n - 1)
      invariant |windows| == n - 1 - i
      invariant |windows| > 0 ==> InRange(p, n - 1)
      invariant forall k :: 0 <= k < |windows| ==> windows[k] == PeriodWindow(p, n - 1 - k)
    {
      var end := AddMonths(anchor, -i);
      if end.None? {
        return Err(DateOutOfRange);
      }
      var previous := AddMonths(end.value, -1);
      if previous.None? {
        return Err(DateOutOfRange);
      }
      CutoffWindowIsPeriodWindow(p, i, end.value, previous.value);
      var start := NextDay(previous.value);
      assert Window(start, end.value) == PeriodWindow(p, i);
      ghost var before := windows;
      windows := windows + [Window(start, end.value)];
      assert InRange(p, n - 1);
      forall k | 0 <= k < |windows|
        ensures windows[k] == PeriodWindow(p, n - 1 - k)
      {
        if k < |before| {
          assert windows[k] == before[k];
        }
      }
      i := i - 1;
    }
    var b := BuildWindows(p, n);
    if n > 0 {
      assert |windows| == n;
      assert b.Ok? && |b.value| == |windows|;
      forall k | 0 <= k < n
        ensures b.value[k] == windows[k]
      {
        assert b.value[k] == PeriodWindow(p, n - 1 - k);
      }
      assert b.value == windows;
    } else {
      assert windows == [];
    }
    return Ok(windows);
  }

  /** The loop `for offset in range(n - 1, -1, -1): windows.append(get_period_range(...))`
      of the over-SLA report and of the PDF service: the same list as `build_windows`,
      failing at the first (oldest) offset when any offset fails. */
  method CollectWindows(p: Period, n: int) returns (r: Result<seq<Window>>)
    ensures r == BuildWindows(p, n)
  {
    var windows: seq<Window> := [];
    var offset := n - 1;
    while offset >= 0
      invariant (n > 0 && -1 <= offset <= n - 1) || (n <= 0 && offset == n - 1)
      invariant |windows| == n - 1 - offset
      invariant |windows| > 0 ==> InRange(p, n - 1)
      invariant forall k :: 0 <= k < |windows| ==> windows[k] == PeriodWindow(p, n - 1 - k)
    {
      var w := GetPeriodRange(p, offset);
      if w.Err? {
        return Err(w.error);
      }
      ghost var before := windows;
      windows := windows + [w.value];
      forall k | 0 <= k < |windows|
        ensures windows[k] == PeriodWindow(p, n - 1 - k)
      {
        if k < |before| {
          assert windows[k] == before[k];
        }
      }
      offset := offset - 1;
    }
    var b := BuildWindows(p, n);
    if n > 0 {
      assert b.Ok? && |b.value| == |windows|;
      forall k | 0 <= k < n
        ensures b.value[k] == windows[k]
      {
        assert b.value[k] == PeriodWindow(p, n - 1 - k);
      }
      assert b.value == windows;
    } else {
      assert windows == [];
    }
    return Ok(windows);
  }

  // ---------------------------------------------------------------------------
  // `parse_date` on the date strings of get_period_range.

  /** `isoparse(s).astimezone(timezone.utc).date()` for a date-only string `s`:
      the parsed midnight has no time zone, so `astimezone` reads it in the host's
      zone; on a host `hostOffsetMinutes` east of UTC (|offset| below a day) local
      midnight is the previous UTC day. */
  function ParseDateOnHost(d: Date, hostOffsetMinutes: int): Date
    requires -1440 < hostOffsetMinutes < 1440 && d != FirstDate
  {
    if hostOffsetMinutes > 0 then PrevDay(d) else d
  }

  /** `build_windows` as written: every date passes through `parse_date`. */
  function BuildWindowsOnHost(p: Period, count: int, hostOffsetMinutes: int): (r: Result<seq<Window>>)
    requires -1440 < hostOffsetMinutes < 1440
    ensures r.Ok? <==> BuildWindows(p, count).Ok?
    ensures r.Ok? ==> |r.value| == |BuildWindows(p, count).value|
  {
    match BuildWindows(p, count)
    case Err(e) => Err(e)
    case Ok(ws) =>
      Ok(seq(|ws|, i requires 0 <= i < |ws| =>
        Window(ParseDateOnHost(ws[i].start, hostOffsetMinutes), ParseDateOnHost(ws[i].end, hostOffsetMinutes))))
  }

  /** On a host one hour east of UTC, "06-2025" gives 2025-05-25..2025-06-24,
      not the 26th-to-25th window. */
  lemma HostEastOfUtcShiftsWindow()
    ensures BuildWindowsOnHost(Period(6, 2025), 1, 60) == Ok([Window(YMD(2025, 5, 25), YMD(2025, 6, 24))])
    ensures BuildWindows(Period(6, 2025), 1) == Ok([Window(YMD(2025, 5, 26), YMD(2025, 6, 25))])
  {
    var p := Period(6, 2025);
    var w := Window(YMD(2025, 5, 26), YMD(2025, 6, 25));
    assert PeriodWindow(p, 0) == w;
    var b := BuildWindows(p, 1);
    assert b.value[0] == w;
    assert b.value == [w];
    var h := BuildWindowsOnHost(p, 1, 60);
    assert ParseDateOnHost(w.start, 60) == YMD(2025, 5, 25);
    assert ParseDateOnHost(w.end, 60) == YMD(2025, 6, 24);
    assert h.value[0] == Window(YMD(2025, 5, 25), YMD(2025, 6, 24));
    assert h.value == [Window(YMD(2025, 5, 25), YMD(2025, 6, 24))];
  }

  /** On a host at or west of UTC, `parse_date` keeps every window date. */
  lemma HostAtOrWestOfUtcKeepsWindows(p: Period, count: int, hostOffsetMinutes: int)
    requires -1440 < hostOffsetMinutes <= 0
    ensures BuildWindowsOnHost(p, count, hostOffsetMinutes) == BuildWindows(p, count)
  {
    match BuildWindows(p, count)
    case Err(e) =>
    case Ok(ws) =>
      assert BuildWindowsOnHost(p, count, hostOffsetMinutes).value == ws;
  }
}
