/** SLA metrics: the two percentage bases of the reports, the missing-SLA rule,
    the over-SLA filter's two modes and the PDF report's utilisation figure. */
module Sla {
  import opened Outcomes

  /** `(total / (sla * months)) * 100 if sla > 0 else None`: usage over the
      capacity of the whole span. */
  function PercentOfCapacity(total: real, sla: real, months: int): (r: Option<real>)
    requires months > 0
    ensures r.None? <==> sla <= 0.0
    ensures r.Some? ==> r.value * (sla * months as real) == total * 100.0
  {
    if sla > 0.0 then Some(total / (sla * months as real) * 100.0) else None
  }

  /** `(x / sla * 100) if sla > 0 else None`: usage over one month's SLA. */
  function PercentOfSla(x: real, sla: real): (r: Option<real>)
    ensures r.None? <==> sla <= 0.0
    ensures r.Some? ==> r.value * sla == x * 100.0
  {
    if sla > 0.0 then Some(x / sla * 100.0) else None
  }

  /** The capacity basis over n windows is the monthly basis applied to the
      average: both name the same number. */
  lemma CapacityIsAverageOverSla(total: real, sla: real, months: int)
    requires months > 0
    ensures PercentOfCapacity(total, sla, months) == PercentOfSla(total / months as real, sla)
  {
    if sla > 0.0 {
      var n := months as real;
      assert PercentOfCapacity(total, sla, months).value == total / (sla * n) * 100.0;
      assert PercentOfSla(total / n, sla).value == total / n / sla * 100.0;
      assert total / (sla * n) == total / n / sla by {
        var a, b := total / (sla * n), total / n / sla;
        assert a * (sla * n) == total;
        assert b * sla == total / n;
        assert (b * sla) * n == total;
        assert b * (sla * n) == a * (sla * n);
      }
    }
  }

  /** The metrics of the single-company and all-company reports. */
  datatype UsageMetrics = UsageMetrics(total: real, average: real, percentageUsage: Option<real>, missingSla: bool)

  /** `total = sum(period_totals)`, `average = total / months`, the capacity
      percentage and `missing_sla = sla == 0`, with months = |period_totals|. */
  function Metrics(periodTotals: seq<real>, sla: real): (m: UsageMetrics)
    requires |periodTotals| > 0
    ensures m.total == Sum(periodTotals)
    ensures m.average * |periodTotals| as real == m.total
    ensures m.percentageUsage.None? <==> sla <= 0.0
    ensures m.percentageUsage.Some? ==> m.percentageUsage.value * (sla * |periodTotals| as real) == m.total * 100.0
    ensures m.missingSla <==> sla == 0.0
  {
    var total := Sum(periodTotals);
    UsageMetrics(total, total / |periodTotals| as real, PercentOfCapacity(total, sla, |periodTotals|), sla == 0.0)
  }

  /** A negative SLA has no percentage but is not reported as missing; a zero SLA
      is both. */
  lemma NegativeSlaIsNotMissing(periodTotals: seq<real>, sla: real)
    requires |periodTotals| > 0 && sla < 0.0
    ensures Metrics(periodTotals, sla).percentageUsage == None && !Metrics(periodTotals, sla).missingSla
  {
  }

  /** Six windows of 80..130 hours against an SLA of 100: total 630, average 105,
      105 percent. */
  lemma SixWindowScenario()
    ensures Metrics([80.0, 90.0, 100.0, 110.0, 120.0, 130.0], 100.0)
         == UsageMetrics(630.0, 105.0, Some(105.0), false)
  {
    var s := [80.0, 90.0, 100.0, 110.0, 120.0, 130.0];
    assert Sum(s[..1]) == 80.0 by { assert s[..1][..0] == []; }
    assert Sum(s[..2]) == 170.0 by { assert s[..2][..1] == s[..1]; }
    assert Sum(s[..3]) == 270.0 by { assert s[..3][..2] == s[..2]; }
    assert Sum(s[..4]) == 380.0 by { assert s[..4][..3] == s[..3]; }
    assert Sum(s[..5]) == 500.0 by { assert s[..5][..4] == s[..4]; }
    assert Sum(s) == 630.0 by { assert s[..5] == s[..|s| - 1]; }
  }

  /** With a positive SLA and no usage the percentage is 0, not undefined. */
  lemma {:induction false} NoUsageIsZeroPercent(periodTotals: seq<real>, sla: real)
    requires |periodTotals| > 0 && sla > 0.0
    requires forall i :: 0 <= i < |periodTotals| ==> periodTotals[i] == 0.0
    ensures Metrics(periodTotals, sla).percentageUsage == Some(0.0)
  {
    SumOfZeros(periodTotals);
  }

  lemma {:induction false} SumOfZeros(s: seq<real>)
    requires forall i :: 0 <= i < |s| ==> s[i] == 0.0
    ensures Sum(s) == 0.0
  {
    if s != [] {
      SumOfZeros(s[..|s| - 1]);
    }
  }

  // ---------------------------------------------------------------------------
  // The over-SLA filter.

  /** Python's `not pct_usage`: None or zero. */
  predicate Falsy(pct: Option<real>)
  {
    pct.None? || pct.value == 0.0
  }

  /** Whether `companies_over_sla` keeps a company with these per-window usages. */
  predicate KeepOverSla(usage: seq<real>, sla: real, filterMonthly: bool)
    requires |usage| > 0
  {
    var pct := PercentOfSla(Sum(usage) / |usage| as real, sla);
    if filterMonthly then exists u :: u in usage && u > sla
    else !(Falsy(pct) || pct.value <= 100.0) && !(usage[|usage| - 1] <= 0.0)
  }

  /** Monthly mode keeps a company exactly when some window's usage exceeds the SLA. */
  lemma MonthlyModeKeepsAnySpike(usage: seq<real>, sla: real)
    requires |usage| > 0
    ensures KeepOverSla(usage, sla, true) <==> exists i :: 0 <= i < |usage| && usage[i] > sla
  {
    if exists i :: 0 <= i < |usage| && usage[i] > sla {
      var i :| 0 <= i < |usage| && usage[i] > sla;
      assert usage[i] in usage;
    }
  }

  /** Average mode keeps a company exactly when its SLA is positive, its average
      usage exceeds the SLA, and its newest window has usage. */
  lemma AverageModeIff(usage: seq<real>, sla: real)
    requires |usage| > 0
    ensures KeepOverSla(usage, sla, false)
        <==> sla > 0.0 && Sum(usage) > sla * |usage| as real && usage[|usage| - 1] > 0.0
  {
    var n := |usage| as real;
    var avg := Sum(usage) / n;
    if sla > 0.0 {
      var pct := avg / sla * 100.0;
      assert pct > 100.0 <==> avg > sla;
      assert avg > sla <==> Sum(usage) > sla * n;
    }
  }

  /** An average exceeds a bound exactly when the total exceeds the bound times
      the count. */
  lemma AverageAbove(total: real, bound: real, n: nat)
    requires n > 0
    ensures total / n as real > bound <==> total > bound * n as real
  {
    var m := n as real;
    assert total / m * m == total;
  }

  lemma {:induction false} AboveAverageElement(s: seq<real>, bound: real)
    requires |s| > 0 && Sum(s) > bound * |s| as real
    ensures exists i :: 0 <= i < |s| && s[i] > bound
  {
    var n := |s|;
    if s[n - 1] <= bound {
      assert n > 1;
      AboveAverageElement(s[..n - 1], bound);
      var i :| 0 <= i < n - 1 && s[..n - 1][i] > bound;
      assert s[i] > bound;
    }
  }

  /** Every company the average mode keeps, the monthly mode keeps too: an average
      above the SLA needs some window above it. */
  lemma AverageModeImpliesMonthlyMode(usage: seq<real>, sla: real)
    requires |usage| > 0 && KeepOverSla(usage, sla, false)
    ensures KeepOverSla(usage, sla, true)
  {
    AverageModeIff(usage, sla);
    AboveAverageElement(usage, sla);
    MonthlyModeKeepsAnySpike(usage, sla);
  }

  /** One window at 110 against an SLA of 100 is kept by the monthly mode and
      dropped by the average mode when the average is below the SLA. */
  lemma SingleSpikeScenario()
    ensures KeepOverSla([50.0, 110.0], 100.0, true)
    ensures !KeepOverSla([50.0, 110.0], 100.0, false)
  {
    MonthlyModeKeepsAnySpike([50.0, 110.0], 100.0);
    assert [50.0, 110.0][1] > 100.0;
    AverageModeIff([50.0, 110.0], 100.0);
    assert [50.0, 110.0][..1] == [50.0];
    assert [50.0][..0] == [];
  }

  // ---------------------------------------------------------------------------
  // The PDF report's utilisation.

  /** `(total_usage / total_sla * 100) if total_sla else 0`. */
  function Utilisation(totalUsage: real, totalSla: real): (u: real)
    ensures totalSla == 0.0 ==> u == 0.0
    ensures totalSla != 0.0 ==> u * totalSla == totalUsage * 100.0
  {
    if totalSla != 0.0 then totalUsage / totalSla * 100.0 else 0.0
  }

  /** Where the reports leave the percentage undefined, the PDF reports 0 for a
      zero SLA and a number for a negative one. */
  lemma UtilisationVersusCapacity(totalUsage: real, sla: real, months: int)
    requires months > 0 && sla <= 0.0
    ensures PercentOfCapacity(totalUsage, sla, months) == None
    ensures sla == 0.0 ==> Utilisation(totalUsage, sla * months as real) == 0.0
    ensures sla < 0.0 ==> Utilisation(totalUsage, sla * months as real) * (sla * months as real) == totalUsage * 100.0
  {
  }
}
