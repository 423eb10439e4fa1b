/**
 * The report summary (`generate_report`): pass and fail counts over the
 * result records, and the run status the database stores for a report.
 */
module Reporter {
  import opened Steps

  /** The `summary` dictionary; the percentage is exact, before rounding. */
  datatype Summary = Summary(totalSteps: nat, passed: nat, failed: int, passPercentage: real)

  /** The report: its summary, the records as given and the logs as given. */
  datatype Report = Report(summary: Summary, steps: seq<Record>, logs: seq<string>)

  /** The number of records whose status is exactly `PASS`. */
  function CountPassed(results: seq<Record>): (n: nat)
    ensures n <= |results|
  {
    if results == [] then 0
    else CountPassed(results[..|results| - 1]) + (if results[|results| - 1].status == "PASS" then 1 else 0)
  }

  /** The positions of the records whose status is exactly `PASS`. */
  function PassIndices(results: seq<Record>): set<nat> {
    set i: nat | i < |results| && results[i].status == "PASS"
  }

  /** The pass count is the number of positions holding a passing record. */
  lemma {:induction false} CountPassedIndices(results: seq<Record>)
    ensures CountPassed(results) == |PassIndices(results)|
  {
    if results == [] {
      assert PassIndices(results) == {};
    } else {
      var n := |results| - 1;
      var init := results[..n];
      CountPassedIndices(init);
      if results[n].status == "PASS" {
        assert PassIndices(results) == PassIndices(init) + {n};
      } else {
        assert PassIndices(results) == PassIndices(init);
      }
    }
  }

  /** Every record passed. */
  predicate AllPassed(results: seq<Record>) {
    forall i :: 0 <= i < |results| ==> results[i].status == "PASS"
  }

  /** `generate_report(results, logs)`, without the file write. */
  function GenerateReport(results: seq<Record>, logs: seq<string>): (r: Report)
    ensures r.summary.totalSteps == |results|
    ensures r.summary.passed + r.summary.failed == r.summary.totalSteps && r.summary.failed >= 0
    ensures r.summary.totalSteps == 0 ==> r.summary.passPercentage == 0.0
    ensures 0.0 <= r.summary.passPercentage <= 100.0
    ensures r.steps == results && r.logs == logs
    ensures r.summary.passed == CountPassed(results)
    ensures |results| > 0 ==> r.summary.passPercentage == (CountPassed(results) as real / |results| as real) * 100.0
  {
    var passed := CountPassed(results);
    var total := |results|;
    var percentage := if total != 0 then (passed as real / total as real) * 100.0 else 0.0;
    Report(Summary(total, passed, total - passed, percentage), results, logs)
  }

  /** The passes of two lists of records add up. */
  lemma {:induction false} CountPassedAppend(a: seq<Record>, b: seq<Record>)
    ensures CountPassed(a + b) == CountPassed(a) + CountPassed(b)
  {
    if b != [] {
      var n := |b| - 1;
      CountPassedAppend(a, b[..n]);
      assert (a + b)[..|a + b| - 1] == a + b[..n];
      assert (a + b)[|a + b| - 1] == b[n];
    } else {
      assert a + b == a;
    }
  }

  /** All records pass exactly when the pass count is the record count. */
  lemma {:induction false} CountPassedAll(results: seq<Record>)
    ensures CountPassed(results) == |results| <==> AllPassed(results)
  {
    if results != [] {
      var init := results[..|results| - 1];
      CountPassedAll(init);
      if AllPassed(results) {
        assert AllPassed(init) by {
          forall i | 0 <= i < |init| ensures init[i].status == "PASS" {
            assert init[i] == results[i];
          }
        }
      }
      if CountPassed(results) == |results| {
        assert CountPassed(init) == |init|;
        forall i | 0 <= i < |results| ensures results[i].status == "PASS" {
          if i < |init| {
            assert results[i] == init[i];
          }
        }
      }
    }
  }

  /** When every one of at least one record passes, the percentage is 100. */
  lemma AllPassedHundred(results: seq<Record>, logs: seq<string>)
    requires results != [] && AllPassed(results)
    ensures GenerateReport(results, logs).summary.passPercentage == 100.0
    ensures GenerateReport(results, logs).summary.failed == 0
  {
    CountPassedAll(results);
  }

  /** A report with no failure and at least one step is a passing run (`save_test_run`). */
  function RunStatus(report: Report): (status: string)
    ensures status == "PASS" || status == "FAIL"
  {
    if report.summary.failed == 0 && report.summary.totalSteps > 0 then "PASS" else "FAIL"
  }

  /** A generated report's run passes exactly when there was a record and every record passed. */
  lemma RunStatusOfReport(results: seq<Record>, logs: seq<string>)
    ensures RunStatus(GenerateReport(results, logs)) == "PASS" <==> results != [] && AllPassed(results)
  {
    CountPassedAll(results);
  }
}
