/** The record bucketer shared by the report endpoints: each entry goes to the
    first window, in list order, whose inclusive range contains it (the scan with
    `break`), adding its hours to that window's total and its id to that window's
    id list. Specification functions over entry sequences are defined on prefixes,
    the order in which the endpoints' loops visit the entries. */
module Buckets {
  import opened Outcomes
  import opened Calendar
  import opened Periods

  /** A fetched `time_entries` row, already parsed: `start` is `start_time` read in
      UTC, `hours` is the raw column and `company` is `company_hubspot_id`. */
  datatype Entry = Entry(id: int, start: Option<Stamp>, hours: Option<real>, company: Option<int>)

  /** `float(entry.get("hours") or 0)`: a missing value counts as zero hours. */
  function Hours(e: Entry): real
  {
    match e.hours
    case None => 0.0
    case Some(h) => h
  }

  /** `if not cid`: the entry names no company when the id is absent or zero. */
  predicate HasCompany(e: Entry)
  {
    e.company.Some? && e.company.value != 0
  }

  /** How an endpoint compares an entry with a window. */
  datatype MatchRule =
    | OnDate        // `start <= dt <= end` on the UTC date
    | OnTimestamp   // the timestamp against midnight of the start and end dates

  predicate Contains(rule: MatchRule, w: Window, s: Stamp)
  {
    match rule
    case OnDate => DateLe(w.start, s.date) && DateLe(s.date, w.end)
    case OnTimestamp => StampLe(Midnight(w.start), s) && StampLe(s, Midnight(w.end))
  }

  /** The first window at or after position k that contains the timestamp. */
  function FirstMatchFrom(ws: seq<Window>, rule: MatchRule, s: Stamp, k: nat): (r: Option<nat>)
    requires k <= |ws|
    decreases |ws| - k
    ensures r.Some? ==> k <= r.value < |ws| && Contains(rule, ws[r.value], s)
    ensures r.Some? ==> forall j :: k <= j < r.value ==> !Contains(rule, ws[j], s)
    ensures r.None? ==> forall j :: k <= j < |ws| ==> !Contains(rule, ws[j], s)
  {
    if k == |ws| then None
    else if Contains(rule, ws[k], s) then Some(k)
    else FirstMatchFrom(ws, rule, s, k + 1)
  }

  /** The window a timestamp is bucketed into: the first that contains it. */
  function WindowOf(ws: seq<Window>, rule: MatchRule, s: Stamp): Option<nat>
  {
    FirstMatchFrom(ws, rule, s, 0)
  }

  /** The inner `for i, (start, end) in enumerate(periods): if ...: break` scan. */
  method FindWindow(ws: seq<Window>, rule: MatchRule, s: Stamp) returns (idx: Option<nat>)
    ensures idx == WindowOf(ws, rule, s)
  {
    var i := 0;
    while i < |ws|
      invariant 0 <= i <= |ws|
      invariant forall j :: 0 <= j < i ==> !Contains(rule, ws[j], s)
    {
      if Contains(rule, ws[i], s) {
        return Some(i);
      }
      i := i + 1;
    }
    return None;
  }

  /** The window an entry lands in; none for an entry without a start time. */
  function Bucket(ws: seq<Window>, rule: MatchRule, e: Entry): Option<nat>
  {
    if e.start.None? then None else WindowOf(ws, rule, e.start.value)
  }

  function Zeros(n: nat): (z: seq<real>)
    ensures |z| == n && forall i :: 0 <= i < n ==> z[i] == 0.0
  {
    seq(n, _ => 0.0)
  }

  function Empties(n: nat): (z: seq<seq<int>>)
    ensures |z| == n && forall i :: 0 <= i < n ==> z[i] == []
  {
    seq(n, _ => [])
  }

  /** `period_totals[i] += hours` for the bucket, when there is one. */
  function AddHours(t: seq<real>, b: Option<nat>, h: real): seq<real>
  {
    if b.Some? && b.value < |t| then t[b.value := t[b.value] + h] else t
  }

  /** `period_logs[i].append(id)` for the bucket, when there is one. */
  function AppendId(l: seq<seq<int>>, b: Option<nat>, id: int): seq<seq<int>>
  {
    if b.Some? && b.value < |l| then l[b.value := l[b.value] + [id]] else l
  }

  /** Per-window hour totals after bucketing the entries in order. */
  function Totals(es: seq<Entry>, ws: seq<Window>, rule: MatchRule): (t: seq<real>)
    ensures |t| == |ws|
  {
    if es == [] then Zeros(|ws|)
    else
      var e := es[|es| - 1];
      AddHours(Totals(es[..|es| - 1], ws, rule), Bucket(ws, rule, e), Hours(e))
  }

  /** Per-window id lists after bucketing the entries in order. */
  function Logs(es: seq<Entry>, ws: seq<Window>, rule: MatchRule): (l: seq<seq<int>>)
    ensures |l| == |ws|
  {
    if es == [] then Empties(|ws|)
    else
      var e := es[|es| - 1];
      AppendId(Logs(es[..|es| - 1], ws, rule), Bucket(ws, rule, e), e.id)
  }

  // ---------------------------------------------------------------------------
  // Reference sums over entry sequences.

  function TotalHours(es: seq<Entry>): real
  {
    if es == [] then 0.0 else TotalHours(es[..|es| - 1]) + Hours(es[|es| - 1])
  }

  /** Hours of the entries that land in some window. */
  function MatchedHours(es: seq<Entry>, ws: seq<Window>, rule: MatchRule): real
  {
    if es == [] then 0.0
    else MatchedHours(es[..|es| - 1], ws, rule) + (if Bucket(ws, rule, es[|es| - 1]).Some? then Hours(es[|es| - 1]) else 0.0)
  }

  /** Number of entries that land in some window. */
  function MatchedCount(es: seq<Entry>, ws: seq<Window>, rule: MatchRule): nat
  {
    if es == [] then 0
    else MatchedCount(es[..|es| - 1], ws, rule) + (if Bucket(ws, rule, es[|es| - 1]).Some? then 1 else 0)
  }

  predicate StartsBetween(e: Entry, a: Date, b: Date)
  {
    e.start.Some? && DateLe(a, e.start.value.date) && DateLe(e.start.value.date, b)
  }

  /** Hours of the entries whose UTC date lies in [a, b]. */
  function HoursBetween(es: seq<Entry>, a: Date, b: Date): real
  {
    if es == [] then 0.0
    else HoursBetween(es[..|es| - 1], a, b) + (if StartsBetween(es[|es| - 1], a, b) then Hours(es[|es| - 1]) else 0.0)
  }

  /** The entries of one company, in order. */
  function Select(es: seq<Entry>, c: int): (r: seq<Entry>)
    ensures |r| <= |es|
  {
    if es == [] then []
    else Select(es[..|es| - 1], c) + (if es[|es| - 1].company == Some(c) then [es[|es| - 1]] else [])
  }

  function Ids(es: seq<Entry>): seq<int>
  {
    if es == [] then [] else Ids(es[..|es| - 1]) + [es[|es| - 1].id]
  }

  function TotalLength(l: seq<seq<int>>): nat
  {
    if l == [] then 0 else TotalLength(l[..|l| - 1]) + |l[|l| - 1]|
  }

  // ---------------------------------------------------------------------------
  // Conservation.

  lemma {:induction false} SumZeros(n: nat)
    ensures Sum(Zeros(n)) == 0.0
  {
    if n > 0 {
      assert Zeros(n)[..n - 1] == Zeros(n - 1);
      SumZeros(n - 1);
    }
  }

  /** The per-window totals add up to the hours of the entries that landed in a
      window: no entry is counted twice and none that matched is lost. */
  lemma {:induction false} TotalsConserveHours(es: seq<Entry>, ws: seq<Window>, rule: MatchRule)
    ensures Sum(Totals(es, ws, rule)) == MatchedHours(es, ws, rule)
  {
    if es == [] {
      SumZeros(|ws|);
    } else {
      var e := es[|es| - 1];
      var t := Totals(es[..|es| - 1], ws, rule);
      TotalsConserveHours(es[..|es| - 1], ws, rule);
      var b := Bucket(ws, rule, e);
      if b.Some? {
        SumUpdate(t, b.value, t[b.value] + Hours(e));
      }
    }
  }

  lemma {:induction false} TotalLengthUpdate(l: seq<seq<int>>, i: nat, x: seq<int>)
    requires i < |l|
    ensures TotalLength(l[i := x]) == TotalLength(l) - |l[i]| + |x|
    decreases |l|
  {
    var n := |l|;
    if i == n - 1 {
      assert l[i := x][..n - 1] == l[..n - 1];
    } else {
      assert l[i := x][..n - 1] == l[..n - 1][i := x];
      TotalLengthUpdate(l[..n - 1], i, x);
    }
  }

  lemma {:induction false} TotalLengthEmpties(n: nat)
    ensures TotalLength(Empties(n)) == 0
  {
    if n > 0 {
      assert Empties(n)[..n - 1] == Empties(n - 1);
      TotalLengthEmpties(n - 1);
    }
  }

  /** Every bucketed entry contributes exactly one id to exactly one list, so the
      lists together hold as many ids as entries were bucketed, at most |es|. */
  lemma {:induction false} LogsCountMatched(es: seq<Entry>, ws: seq<Window>, rule: MatchRule)
    ensures TotalLength(Logs(es, ws, rule)) == MatchedCount(es, ws, rule) <= |es|
  {
    if es == [] {
      TotalLengthEmpties(|ws|);
    } else {
      var e := es[|es| - 1];
      var l := Logs(es[..|es| - 1], ws, rule);
      LogsCountMatched(es[..|es| - 1], ws, rule);
      var b := Bucket(ws, rule, e);
      if b.Some? {
        TotalLengthUpdate(l, b.value, l[b.value] + [e.id]);
      }
    }
  }

  /** An entry's id is recorded in the list of the window it lands in, whatever
      its hours (missing hours count as zero but the id is still kept). */
  lemma {:induction false} LoggedInItsWindow(es: seq<Entry>, ws: seq<Window>, rule: MatchRule, k: nat)
    requires k < |es| && Bucket(ws, rule, es[k]).Some?
    ensures es[k].id in Logs(es, ws, rule)[Bucket(ws, rule, es[k]).value]
  {
    var n := |es| - 1;
    var i := Bucket(ws, rule, es[k]).value;
    if k < n {
      assert es[..n][k] == es[k];
      LoggedInItsWindow(es[..n], ws, rule, k);
    }
  }

  // ---------------------------------------------------------------------------
  // Disjoint series: first match is the only match.

  /** No two windows of the series share a date. */
  predicate Disjoint(ws: seq<Window>)
  {
    forall i, j :: 0 <= i < j < |ws| ==> DateLt(ws[i].end, ws[j].start) || DateLt(ws[j].end, ws[i].start)
  }

  lemma {:induction false} ContiguousEndsBeforeLaterStarts(ws: seq<Window>, i: nat, j: nat)
    requires Contiguous(ws) && i < j < |ws|
    ensures Serial(ws[i].end) < Serial(ws[j].start)
    decreases j - i
  {
    NextDayIsSuccessor(ws[j - 1].end);
    if i < j - 1 {
      ContiguousEndsBeforeLaterStarts(ws, i, j - 1);
      SerialOrder(ws[j - 1].start, ws[j - 1].end);
    }
  }

  lemma ContiguousIsDisjoint(ws: seq<Window>)
    requires Contiguous(ws)
    ensures Disjoint(ws)
  {
    forall i, j | 0 <= i < j < |ws|
      ensures DateLt(ws[i].end, ws[j].start)
    {
      ContiguousEndsBeforeLaterStarts(ws, i, j);
      SerialOrder(ws[i].end, ws[j].start);
    }
  }

  lemma DisjointNoSharedDate(ws: seq<Window>, i: nat, j: nat, d: Date)
    requires Disjoint(ws) && i < |ws| && j < |ws| && i != j
    requires DateLe(ws[i].start, d) && DateLe(d, ws[i].end)
    ensures !(DateLe(ws[j].start, d) && DateLe(d, ws[j].end))
  {
    SerialOrder(ws[i].start, d);
    SerialOrder(d, ws[i].end);
    SerialOrder(ws[j].start, d);
    SerialOrder(d, ws[j].end);
    if i < j {
      SerialOrder(ws[i].end, ws[j].start);
      SerialOrder(ws[j].end, ws[i].start);
    } else {
      SerialOrder(ws[j].end, ws[i].start);
      SerialOrder(ws[i].end, ws[j].start);
    }
  }

  /** A timestamp match implies a match of its date. */
  lemma TimestampMatchIsDateMatch(w: Window, s: Stamp)
    requires Contains(OnTimestamp, w, s)
    ensures Contains(OnDate, w, s)
  {
  }

  /** In a disjoint series a window that contains the date is the only one, so the
      first-match scan returns it. */
  lemma OnlyMatch(ws: seq<Window>, rule: MatchRule, s: Stamp, i: nat)
    requires Disjoint(ws) && i < |ws| && Contains(rule, ws[i], s)
    ensures WindowOf(ws, rule, s) == Some(i)
  {
    var r := WindowOf(ws, rule, s);
    if r != Some(i) {
      if r.Some? {
        var j := r.value;
        assert j < i;
        if rule == OnTimestamp {
          TimestampMatchIsDateMatch(ws[i], s);
          TimestampMatchIsDateMatch(ws[j], s);
        }
        DisjointNoSharedDate(ws, i, j, s.date);
      }
    }
  }

  /** The all-company report compares timestamps with midnight: an entry later
      than 00:00 on a window's last day (a 25th) is in no window of a disjoint
      series, while one at exactly 00:00 is in that window. */
  lemma AfterMidnightOnLastDayMatchesNothing(ws: seq<Window>, k: nat, s: Stamp)
    requires Disjoint(ws) && k < |ws| && DateLt(ws[k].start, ws[k].end)
    requires s.date == ws[k].end
    ensures s.micros > 0 ==> WindowOf(ws, OnTimestamp, s) == None
    ensures s.micros == 0 ==> WindowOf(ws, OnTimestamp, s) == Some(k)
  {
    if s.micros == 0 {
      OnlyMatch(ws, OnTimestamp, s, k);
    } else {
      forall j | 0 <= j < |ws|
        ensures !Contains(OnTimestamp, ws[j], s)
      {
        if j != k && Contains(OnTimestamp, ws[j], s) {
          TimestampMatchIsDateMatch(ws[j], s);
          DisjointNoSharedDate(ws, k, j, s.date);
        }
      }
    }
  }

  // ---------------------------------------------------------------------------
  // Date-level bucketing over a contiguous series.

  /** With a disjoint series and date-level matching, window i's total is the
      hours of exactly the entries whose UTC date lies in window i. */
  lemma {:induction false} TotalsAreHoursBetween(es: seq<Entry>, ws: seq<Window>, i: nat)
    requires Disjoint(ws) && i < |ws|
    ensures Totals(es, ws, OnDate)[i] == HoursBetween(es, ws[i].start, ws[i].end)
  {
    if es != [] {
      var e := es[|es| - 1];
      TotalsAreHoursBetween(es[..|es| - 1], ws, i);
      if StartsBetween(e, ws[i].start, ws[i].end) {
        OnlyMatch(ws, OnDate, e.start.value, i);
      }
    }
  }

  // ---------------------------------------------------------------------------
  // Timestamp-level bucketing.

  /** The entry's timestamp lies from midnight of `a` to midnight of `b`, both
      inclusive: the all-company report's window test. */
  predicate StampedBetween(e: Entry, a: Date, b: Date)
  {
    e.start.Some? && StampLe(Midnight(a), e.start.value) && StampLe(e.start.value, Midnight(b))
  }

  /** Hours of the entries whose timestamp lies from midnight of `a` to midnight of `b`. */
  function HoursStampedBetween(es: seq<Entry>, a: Date, b: Date): real
  {
    if es == [] then 0.0
    else HoursStampedBetween(es[..|es| - 1], a, b) + (if StampedBetween(es[|es| - 1], a, b) then Hours(es[|es| - 1]) else 0.0)
  }

  /** Hours of the entries that start exactly at timestamp `s`. */
  function HoursAt(es: seq<Entry>, s: Stamp): real
  {
    if es == [] then 0.0
    else HoursAt(es[..|es| - 1], s) + (if es[|es| - 1].start == Some(s) then Hours(es[|es| - 1]) else 0.0)
  }

  /** With a disjoint series and timestamp matching, window i's total is the hours
      of exactly the entries stamped from midnight of its start to midnight of its end. */
  lemma {:induction false} TimestampTotalsAreHoursStampedBetween(es: seq<Entry>, ws: seq<Window>, i: nat)
    requires Disjoint(ws) && i < |ws|
    ensures Totals(es, ws, OnTimestamp)[i] == HoursStampedBetween(es, ws[i].start, ws[i].end)
  {
    if es != [] {
      var e := es[|es| - 1];
      TimestampTotalsAreHoursStampedBetween(es[..|es| - 1], ws, i);
      if StampedBetween(e, ws[i].start, ws[i].end) {
        OnlyMatch(ws, OnTimestamp, e.start.value, i);
      }
    }
  }

  /** Over a disjoint series, matching by date, every window's total and id list
      are those of the entries dated inside it. */
  lemma BucketsByDate(es: seq<Entry>, ws: seq<Window>)
    requires Disjoint(ws)
    ensures forall i :: 0 <= i < |ws| ==>
      Totals(es, ws, OnDate)[i] == HoursBetween(es, ws[i].start, ws[i].end) &&
      Logs(es, ws, OnDate)[i] == IdsBetween(es, ws[i].start, ws[i].end)
  {
    forall i | 0 <= i < |ws|
      ensures Totals(es, ws, OnDate)[i] == HoursBetween(es, ws[i].start, ws[i].end)
      ensures Logs(es, ws, OnDate)[i] == IdsBetween(es, ws[i].start, ws[i].end)
    {
      TotalsAreHoursBetween(es, ws, i);
      LogsAreIdsBetween(es, ws, i);
    }
  }

  /** Ids of the entries stamped from midnight of `a` to midnight of `b`, in input order. */
  function IdsStampedBetween(es: seq<Entry>, a: Date, b: Date): (r: seq<int>)
    ensures |r| <= |es|
  {
    if es == [] then []
    else IdsStampedBetween(es[..|es| - 1], a, b) + (if StampedBetween(es[|es| - 1], a, b) then [es[|es| - 1].id] else [])
  }

  /** With a disjoint series and timestamp matching, window i's id list is the ids
      of exactly the entries stamped inside window i, in input order. */
  lemma {:induction false} LogsAreIdsStampedBetween(es: seq<Entry>, ws: seq<Window>, i: nat)
    requires Disjoint(ws) && i < |ws|
    ensures Logs(es, ws, OnTimestamp)[i] == IdsStampedBetween(es, ws[i].start, ws[i].end)
  {
    if es != [] {
      var e := es[|es| - 1];
      LogsAreIdsStampedBetween(es[..|es| - 1], ws, i);
      if StampedBetween(e, ws[i].start, ws[i].end) {
        OnlyMatch(ws, OnTimestamp, e.start.value, i);
      }
    }
  }

  /** A date before `b` is a date no later than the day before `b`. */
  lemma BeforeIsAtMostPrevDay(d: Date, b: Date)
    requires b != FirstDate
    ensures DateLt(d, b) <==> DateLe(d, PrevDay(b))
  {
    PrevDayIsPredecessor(b);
    NextDayIsSuccessor(PrevDay(b));
    SerialOrder(d, PrevDay(b));
    SerialOrder(d, b);
  }

  /** Comparing a timestamp with midnight compares its date, except that midnight
      itself is the one timestamp of day `b` not after midnight of `b`. */
  lemma MidnightBounds(s: Stamp, a: Date, b: Date)
    ensures StampLe(Midnight(a), s) <==> DateLe(a, s.date)
    ensures StampLe(s, Midnight(b)) <==> DateLt(s.date, b) || s == Midnight(b)
  {
  }

  /** For a <= b, one entry is stamped in [midnight a, midnight b] exactly when its
      date lies in [a, the day before b] or it starts at midnight of b, never both. */
  lemma StampedSplit(e: Entry, a: Date, b: Date)
    requires DateLe(a, b) && b != FirstDate
    ensures StampedBetween(e, a, b) <==> StartsBetween(e, a, PrevDay(b)) || e.start == Some(Midnight(b))
    ensures !(StartsBetween(e, a, PrevDay(b)) && e.start == Some(Midnight(b)))
  {
    if e.start.Some? {
      BeforeIsAtMostPrevDay(e.start.value.date, b);
      MidnightBounds(e.start.value, a, b);
    }
  }

  /** The timestamp test against midnight keeps a window's dates up to the day
      before its end, and of the end day only entries stamped exactly 00:00. */
  lemma {:induction false} StampedIsDatedBeforeEndPlusMidnight(es: seq<Entry>, a: Date, b: Date)
    requires DateLe(a, b) && b != FirstDate
    ensures HoursStampedBetween(es, a, b) == HoursBetween(es, a, PrevDay(b)) + HoursAt(es, Midnight(b))
  {
    if es != [] {
      StampedIsDatedBeforeEndPlusMidnight(es[..|es| - 1], a, b);
      StampedSplit(es[|es| - 1], a, b);
    }
  }

  /** Ids of the entries whose UTC date lies in [a, b], in input order. */
  function IdsBetween(es: seq<Entry>, a: Date, b: Date): (r: seq<int>)
    ensures |r| <= |es|
  {
    if es == [] then []
    else IdsBetween(es[..|es| - 1], a, b) + (if StartsBetween(es[|es| - 1], a, b) then [es[|es| - 1].id] else [])
  }

  /** With a disjoint series and date-level matching, window i's id list is the ids
      of exactly the entries dated inside window i, in input order. */
  lemma {:induction false} LogsAreIdsBetween(es: seq<Entry>, ws: seq<Window>, i: nat)
    requires Disjoint(ws) && i < |ws|
    ensures Logs(es, ws, OnDate)[i] == IdsBetween(es, ws[i].start, ws[i].end)
  {
    if es != [] {
      var e := es[|es| - 1];
      LogsAreIdsBetween(es[..|es| - 1], ws, i);
      if StartsBetween(e, ws[i].start, ws[i].end) {
        OnlyMatch(ws, OnDate, e.start.value, i);
      }
    }
  }

  /** Every date from the first window's start to the last window's end lies in
      some window of a contiguous series. */
  lemma {:induction false} SpanIsCovered(ws: seq<Window>, s: Stamp)
    requires Contiguous(ws) && |ws| > 0
    requires DateLe(ws[0].start, s.date) && DateLe(s.date, ws[|ws| - 1].end)
    ensures WindowOf(ws, OnDate, s).Some?
    decreases |ws|
  {
    if !DateLe(s.date, ws[0].end) {
      assert |ws| > 1;
      var rest := ws[1..];
      assert Contiguous(rest) by {
        assert forall i :: 0 <= i < |rest| ==> rest[i] == ws[i + 1];
      }
      StepOrder(ws[0].end, s.date);
      SerialOrder(s.date, ws[0].end);
      SerialOrder(ws[0].end, s.date);
      SpanIsCovered(rest, s);
      var j := WindowOf(rest, OnDate, s).value;
      assert Contains(OnDate, ws[j + 1], s);
    }
  }

  predicate AllInSpan(es: seq<Entry>, a: Date, b: Date)
  {
    forall e :: e in es ==> StartsBetween(e, a, b)
  }

  /** When every entry starts inside the span of a contiguous series, as the
      fetch filter of an endpoint ensures, every entry lands in a window. */
  lemma {:induction false} SpanEntriesAllMatch(es: seq<Entry>, ws: seq<Window>)
    requires Contiguous(ws) && |ws| > 0 && AllInSpan(es, ws[0].start, ws[|ws| - 1].end)
    ensures MatchedHours(es, ws, OnDate) == TotalHours(es)
    ensures MatchedCount(es, ws, OnDate) == |es|
  {
    if es != [] {
      var e := es[|es| - 1];
      assert e in es;
      assert forall x :: x in es[..|es| - 1] ==> x in es;
      SpanEntriesAllMatch(es[..|es| - 1], ws);
      SpanIsCovered(ws, e.start.value);
    }
  }
}
