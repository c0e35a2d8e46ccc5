/** Optional values, results and the error taxonomy of the reports backend. */
module Outcomes {

  datatype Option<+T> = None | Some(value: T)

  /** Why a report could not be produced. */
  datatype ReportError =
    | InvalidPeriodFormat   // the MM-YYYY anchor does not name a month of years 1..9999
    | DateOutOfRange        // a month shift left the years 1..9999
    | NoWindows             // the window list is empty and its first element is read
    | MissingStartTime      // an entry without start_time reached a parser
    | CompanyNotFound       // the single-company lookup returned no row
    | EndBeforeStart        // companies-with-time: end_date before start_date
    | MissingCompanyId      // over-SLA: `int(None)` on a null company_hubspot_id

  datatype Result<+T> = Ok(value: T) | Err(error: ReportError)

  /** Sum of a sequence of reals, left to right. */
  function Sum(s: seq<real>): real
  {
    if s == [] then 0.0 else Sum(s[..|s| - 1]) + s[|s| - 1]
  }

  lemma {:induction false} SumAppend(s: seq<real>, t: seq<real>)
    ensures Sum(s + t) == Sum(s) + Sum(t)
    decreases |t|
  {
    if t == [] {
      assert s + t == s;
    } else {
      assert (s + t)[..|s + t| - 1] == s + t[..|t| - 1];
      SumAppend(s, t[..|t| - 1]);
    }
  }

  /** Replacing one element changes the sum by the difference. */
  lemma {:induction false} SumUpdate(s: seq<real>, i: nat, x: real)
    requires i < |s|
    ensures Sum(s[i := x]) == Sum(s) - s[i] + x
    decreases |s|
  {
    var n := |s|;
    if i == n - 1 {
      assert s[i := x][..n - 1] == s[..n - 1];
    } else {
      assert s[i := x][..n - 1] == s[..n - 1][i := x];
      SumUpdate(s[..n - 1], i, x);
    }
  }

  /** Extending a loop's processed prefix by one element. */
  lemma PrefixSnoc<T>(s: seq<T>, k: nat)
    requires k < |s|
    ensures s[..k + 1] == s[..k] + [s[k]]
    ensures s[..k + 1][..k] == s[..k]
  {
  }
}
