/**
 * What a run of `run_test` promises, proved about the functions of the
 * `Execution` module: one record per step numbered in order, at most three
 * attempts per step, the FAIL record after the last one, the treatment of
 * unknown and missing step types, verify's single attempt, the finder
 * before the healer, and the single SYSTEM record of a run that failed.
 */
module ExecutionProps {
  import opened Wrappers
  import opened Text
  import opened Dom
  import opened Steps
  import opened Execution

  // ---------------------------------------------------------------- the run

  /** Without an escaping error, the run so far holds one record per step, the record of step `j` at index `j`. */
  lemma {:induction false} OneRecordPerStep(ends: (Step, nat) -> StepEnd, steps: seq<Step>, i: nat)
    requires i <= |steps|
    requires RunUpTo(ends, steps, i).fatal.None?
    ensures |RunUpTo(ends, steps, i).results| == i
    ensures forall j :: 0 <= j < i ==> ends(steps[j], j).Finished? && RunUpTo(ends, steps, i).results[j] == ends(steps[j], j).record
  {
    if i > 0 {
      OneRecordPerStep(ends, steps, i - 1);
    }
  }

  /** Records, logs and commands are only ever appended to: the run after `i` steps is a prefix of the run after `j`. */
  lemma {:induction false} RunGrows(ends: (Step, nat) -> StepEnd, steps: seq<Step>, i: nat, j: nat)
    requires i <= j <= |steps|
    ensures RunUpTo(ends, steps, i).results <= RunUpTo(ends, steps, j).results
    ensures RunUpTo(ends, steps, i).logs <= RunUpTo(ends, steps, j).logs
    ensures RunUpTo(ends, steps, i).effects <= RunUpTo(ends, steps, j).effects
    decreases j
  {
    if j > i {
      RunGrows(ends, steps, i, j - 1);
      var p, q := RunUpTo(ends, steps, j - 1), RunUpTo(ends, steps, j);
      assert p.results <= q.results && p.logs <= q.logs && p.effects <= q.effects;
    }
  }

  // ---------------------------------------------------------------- retries

  /** A step never makes a fourth attempt: attempts that agree on the first three give the same outcome. */
  lemma {:induction false} AtMostThreeAttempts(xs: nat -> Attempt, ys: nat -> Attempt, n: int, k: nat, last: Option<string>)
    requires forall j: nat :: j < Retries ==> xs(j) == ys(j)
    ensures Tries(xs, n, k, last) == Tries(ys, n, k, last)
    decreases Retries - k
  {
    if k < Retries {
      match xs(k).outcome
      case Recorded(_) =>
      case Raised(e) => AtMostThreeAttempts(xs, ys, n, k + 1, Some(e));
      case FellThrough => AtMostThreeAttempts(xs, ys, n, k + 1, last);
    }
  }

  /** The record a step's attempts produce is that of the first attempt that records; no attempt before it records. */
  lemma {:induction false} FirstRecordWins(attempts: nat -> Attempt, n: int, k: nat, last: Option<string>)
    requires Tries(attempts, n, k, last).record.Some?
    ensures exists j: nat :: (k <= j < Retries && attempts(j).outcome == Recorded(Tries(attempts, n, k, last).record.value)
                              && forall i: nat :: k <= i < j ==> !attempts(i).outcome.Recorded?)
    decreases Retries - k
  {
    var r := Tries(attempts, n, k, last).record.value;
    match attempts(k).outcome
    case Recorded(_) =>
      assert attempts(k).outcome == Recorded(r);
    case Raised(e) =>
      FirstRecordWins(attempts, n, k + 1, Some(e));
      var j: nat :| k + 1 <= j < Retries && attempts(j).outcome == Recorded(r)
        && forall i: nat :: k + 1 <= i < j ==> !attempts(i).outcome.Recorded?;
      assert forall i: nat :: k <= i < j ==> !attempts(i).outcome.Recorded?;
    case FellThrough =>
      FirstRecordWins(attempts, n, k + 1, last);
      var j: nat :| k + 1 <= j < Retries && attempts(j).outcome == Recorded(r)
        && forall i: nat :: k + 1 <= i < j ==> !attempts(i).outcome.Recorded?;
      assert forall i: nat :: k <= i < j ==> !attempts(i).outcome.Recorded?;
  }

  /**
   * Three attempts that all raise: each is followed by its "attempt k
   * failed" line, nothing is recorded, and the last error is the third's.
   */
  lemma AllAttemptsRaise(attempts: nat -> Attempt, n: int)
    requires forall j: nat :: j < Retries ==> attempts(j).outcome.Raised?
    ensures var t := Tries(attempts, n, 0, None);
      var a0, a1, a2 := attempts(0), attempts(1), attempts(2);
      t.record.None? && t.lastError == Some(a2.outcome.error)
      && t.logs == a0.logs + [AttemptFailedLog(n, 1, a0.outcome.error)]
                 + a1.logs + [AttemptFailedLog(n, 2, a1.outcome.error)]
                 + a2.logs + [AttemptFailedLog(n, 3, a2.outcome.error)]
      && t.effects == a0.effects + a1.effects + a2.effects
  {
    var a0, a1, a2 := attempts(0), attempts(1), attempts(2);
    var e0, e1, e2 := a0.outcome.error, a1.outcome.error, a2.outcome.error;
    var t3 := Tries(attempts, n, 3, Some(e2));
    assert t3 == Tried([], [], None, Some(e2));
    var t2 := Tries(attempts, n, 2, Some(e1));
    assert t2.logs == a2.logs + [AttemptFailedLog(n, 3, e2)] && t2.effects == a2.effects;
    var t1 := Tries(attempts, n, 1, Some(e0));
    assert t1.logs == a1.logs + [AttemptFailedLog(n, 2, e1)] + t2.logs;
    var t := Tries(attempts, n, 0, None);
    assert t.logs == a0.logs + [AttemptFailedLog(n, 1, e0)] + t1.logs;
    assert t.effects == a0.effects + (a1.effects + a2.effects);
  }

  /** Attempts that neither record nor raise leave the step's logs and commands empty and its last error as it was. */
  lemma {:induction false} AllFallThrough(attempts: nat -> Attempt, n: int, k: nat, last: Option<string>)
    requires forall j: nat :: attempts(j) == Attempt([], [], FellThrough)
    ensures Tries(attempts, n, k, last) == Tried([], [], None, last)
    decreases Retries - k
  {
    if k < Retries {
      AllFallThrough(attempts, n, k + 1, last);
    }
  }

  // ---------------------------------------------------------------- steps

  /** Every record an attempt of step number `n` appends carries the number `n`. */
  lemma AttemptRecordNumbered(step: Step, n: int, env: Env, ratio: (string, string) -> real, cfg: Config)
    ensures AttemptOf(step, n, env, ratio, cfg).outcome.Recorded? ==> AttemptOf(step, n, env, ratio, cfg).outcome.record.stepNo == n
  {
    match step.kind
    case None =>
    case Some(kind) =>
      if kind in HandledKinds && !((kind == "type" || kind == "select") && step.target.None?) && step.value.Some? {
        var v := step.value.value;
        if kind == "goto" {
          assert AttemptOf(step, n, env, ratio, cfg) == GotoAttempt(v, n, env, cfg.consentLabels);
          GotoOutcome(v, n, env, cfg.consentLabels);
        } else if kind == "click" {
          assert AttemptOf(step, n, env, ratio, cfg) == ClickAttempt(v, n, env, ratio);
          ClickOutcome(v, n, env, ratio);
        } else if kind == "type" {
          assert AttemptOf(step, n, env, ratio, cfg) == TypeAttempt(v, step.target.value, n, env, ratio);
          TypeOutcome(v, step.target.value, n, env, ratio);
        } else if kind == "hover" {
          assert AttemptOf(step, n, env, ratio, cfg) == HoverAttempt(v, n, env, ratio);
          HoverOutcome(v, n, env, ratio);
        } else if kind == "select" {
          assert AttemptOf(step, n, env, ratio, cfg) == SelectAttempt(v, step.target.value, n, env, ratio);
          SelectOutcome(v, step.target.value, n, env, ratio);
        } else if kind == "wait" {
          assert AttemptOf(step, n, env, ratio, cfg) == WaitAttempt(v, n);
          WaitOutcome(v, n);
        } else if kind == "scroll" {
          assert AttemptOf(step, n, env, ratio, cfg) == ScrollAttempt(v, n, env);
          ScrollOutcome(v, n, env);
        } else if kind == "search" {
          assert AttemptOf(step, n, env, ratio, cfg) == SearchAttempt(v, n, env, cfg.searchTrigger);
          SearchOutcome(v, n, env, cfg.searchTrigger);
        } else {
          assert AttemptOf(step, n, env, ratio, cfg) == VerifyAttempt(v, n, env);
          VerifyAlwaysRecords(v, n, env);
        }
      }
  }

  /** The record of step `idx` carries the number `idx + 1`, whether an attempt recorded or all failed. */
  lemma StepRecordNumbered(step: Step, idx: nat, b: Browser, cfg: Config)
    ensures StepOf(step, idx, b, cfg).Finished? ==> StepOf(step, idx, b, cfg).record.stepNo == idx + 1
  {
    var attempts := AttemptsOf(step, idx, b, cfg);
    var t := Tries(attempts, idx + 1, 0, None);
    if t.record.Some? {
      FirstRecordWins(attempts, idx + 1, 0, None);
      var j: nat :| j < Retries && attempts(j).outcome == Recorded(t.record.value)
        && forall i: nat :: 0 <= i < j ==> !attempts(i).outcome.Recorded?;
      AttemptRecordNumbered(step, idx + 1, b.attempt(idx, j), b.ratio, cfg);
    }
  }

  /** The attempts of a step whose type is not handled do nothing at all. */
  lemma UnknownTypeFallsThrough(step: Step, idx: nat, b: Browser, cfg: Config)
    requires step.kind.Some? && step.kind.value !in HandledKinds
    ensures forall j: nat :: AttemptsOf(step, idx, b, cfg)(j) == Attempt([], [], FellThrough)
  {
    forall j: nat ensures AttemptsOf(step, idx, b, cfg)(j) == Attempt([], [], FellThrough) {
      assert AttemptsOf(step, idx, b, cfg)(j) == AttemptOf(step, idx + 1, b.attempt(idx, j), b.ratio, cfg);
    }
  }

  /**
   * A step whose type is not handled raises nothing: its three attempts
   * pass silently and it ends in a FAIL record whose error is `None`.
   */
  lemma UnknownTypeFails(step: Step, idx: nat, b: Browser, cfg: Config)
    requires step.kind.Some? && step.kind.value !in HandledKinds
    ensures var shot := Snap(idx + 1, "FAIL", b.finalCamera(idx));
      StepOf(step, idx, b, cfg) == Finished([ExhaustedLog(idx + 1)] + shot.0, [],
        Record(idx + 1, Upper(step.kind.value), if step.value.Some? then step.value.value else "", "FAIL", Some("None"), shot.1))
  {
    UnknownTypeFallsThrough(step, idx, b, cfg);
    AllFallThrough(AttemptsOf(step, idx, b, cfg), idx + 1, 0, None);
  }

  /** The attempts of a step without a `type` key all raise `KeyError('type')`. */
  lemma MissingTypeRaises(step: Step, idx: nat, b: Browser, cfg: Config)
    requires step.kind.None?
    ensures forall j: nat :: AttemptsOf(step, idx, b, cfg)(j) == Attempt([], [], Raised(KeyError("type")))
  {
    forall j: nat ensures AttemptsOf(step, idx, b, cfg)(j) == Attempt([], [], Raised(KeyError("type"))) {
      assert AttemptsOf(step, idx, b, cfg)(j) == AttemptOf(step, idx + 1, b.attempt(idx, j), b.ratio, cfg);
    }
  }

  /**
   * A step without a `type` key: three failed attempts, then building its
   * FAIL record raises the same `KeyError` out of the run.
   */
  lemma MissingTypeIsFatal(step: Step, idx: nat, b: Browser, cfg: Config)
    requires step.kind.None?
    ensures var e := KeyError("type");
      StepOf(step, idx, b, cfg) == Fatal(
        [AttemptFailedLog(idx + 1, 1, e), AttemptFailedLog(idx + 1, 2, e), AttemptFailedLog(idx + 1, 3, e), ExhaustedLog(idx + 1)], [], e)
  {
    MissingTypeRaises(step, idx, b, cfg);
    AllAttemptsRaise(AttemptsOf(step, idx, b, cfg), idx + 1);
  }

  /** A verify step is never retried: its first attempt decides its record. */
  lemma VerifyNoRetry(step: Step, idx: nat, b: Browser, cfg: Config)
    requires step.kind == Some("verify") && step.value.Some?
    ensures var a := VerifyAttempt(step.value.value, idx + 1, b.attempt(idx, 0));
      StepOf(step, idx, b, cfg) == Finished(a.logs, a.effects, a.outcome.record)
  {
    assert AttemptsOf(step, idx, b, cfg)(0) == VerifyAttempt(step.value.value, idx + 1, b.attempt(idx, 0));
    VerifyAlwaysRecords(step.value.value, idx + 1, b.attempt(idx, 0));
  }

  // ---------------------------------------------------------------- the result of run_test

  /** A run without errors returns one record per step, in step order, numbered from 1. */
  lemma RunRecordsNumbered(steps: seq<Step>, b: Browser, cfg: Config)
    requires b.launch.None? && b.close.None?
    requires RunUpTo(StepEnds(b, cfg), steps, |steps|).fatal.None?
    ensures var rs := RunTestResult(steps, b, cfg).0;
      |rs| == |steps|
      && forall j :: 0 <= j < |rs| ==> StepOf(steps[j], j, b, cfg).Finished? && rs[j] == StepOf(steps[j], j, b, cfg).record && rs[j].stepNo == j + 1
  {
    OneRecordPerStep(StepEnds(b, cfg), steps, |steps|);
    forall j | 0 <= j < |steps|
      ensures StepOf(steps[j], j, b, cfg).Finished? ==> StepOf(steps[j], j, b, cfg).record.stepNo == j + 1
    {
      StepRecordNumbered(steps[j], j, b, cfg);
    }
  }

  /**
   * What `run_test` returns is either one SYSTEM record (launch, a step or
   * closing raised) or one record per step numbered from 1.
   */
  lemma ResultShape(steps: seq<Step>, b: Browser, cfg: Config)
    ensures var rs := RunTestResult(steps, b, cfg).0;
      (|rs| == 1 && rs[0].stepNo == 1 && rs[0].action == "SYSTEM" && rs[0].target == "Playwright" && rs[0].status == "FAIL")
      || (|rs| == |steps| && forall j :: 0 <= j < |rs| ==> rs[j].stepNo == j + 1)
  {
    if b.launch.None? && b.close.None? && RunUpTo(StepEnds(b, cfg), steps, |steps|).fatal.None? {
      RunRecordsNumbered(steps, b, cfg);
    }
  }

  /** A step without a `type` key ends the whole run with a single SYSTEM record, whatever follows it. */
  lemma MissingTypeEndsRun(steps: seq<Step>, b: Browser, cfg: Config, i: nat)
    requires b.launch.None?
    requires i < |steps| && steps[i].kind.None?
    requires RunUpTo(StepEnds(b, cfg), steps, i).fatal.None?
    ensures RunTestResult(steps, b, cfg).0 == [SystemRecord(KeyError("type"))]
    ensures RunTestResult(steps, b, cfg).1 == RunUpTo(StepEnds(b, cfg), steps, i + 1).logs
  {
    MissingTypeIsFatal(steps[i], i, b, cfg);
    FatalStays(StepEnds(b, cfg), steps, i + 1, |steps|);
  }

  /** When Playwright fails to start, the run is one SYSTEM record, no log and no command. */
  lemma LaunchFailure(steps: seq<Step>, b: Browser, cfg: Config)
    requires b.launch.Some?
    ensures RunTestResult(steps, b, cfg) == ([Record(1, "SYSTEM", "Playwright", "FAIL", Some("Fatal error handled: " + b.launch.value), Absent)], [])
    ensures RunCommands(steps, b, cfg) == []
  {
  }

  // ---------------------------------------------------------------- finding elements

  /** The healer is consulted only when the finder has nothing: with a hit, its scoring plays no part. */
  lemma FinderBeforeHealer(target: string, env: Env, r1: (string, string) -> real, r2: (string, string) -> real, missing: seq<string>, healed: seq<string>)
    requires Find(env.page, target).Some?
    ensures Locate(env.page, target, r1) == Find(env.page, target) == Locate(env.page, target, r2)
    ensures LookupLogs(target, env, r1, missing, healed) == [] == LookupLogs(target, env, r2, missing, healed)
  {
  }

  /** On a miss, the healer's element is used, after the miss has been logged. */
  lemma HealerOnMiss(target: string, env: Env, ratio: (string, string) -> real, missing: seq<string>, healed: seq<string>)
    requires Find(env.page, target).None?
    ensures Locate(env.page, target, ratio) == Healed(env.page, target, ratio)
    ensures LookupLogs(target, env, ratio, missing, healed) == missing + (if Healed(env.page, target, ratio).Some? then healed else [])
  {
  }

  /** A click clicks the element located, records PASS exactly when the click does not raise, and raises "Could not find" when nothing is located. */
  lemma ClickOutcome(value: string, n: int, env: Env, ratio: (string, string) -> real)
    ensures var a, e := ClickAttempt(value, n, env, ratio), Locate(env.page, value, ratio);
      (HealRaises(env.page, value) ==> a.outcome == Raised(env.page.query(HealSelector).error) && a.effects == [])
      && (e.None? && !HealRaises(env.page, value) ==> a.outcome == Raised("Could not find element to click: " + value) && a.effects == [])
      && (e.Some? ==> a.effects == [ClickOn(e.value)])
      && (a.outcome.Recorded? <==> e.Some? && env.failure.None?)
      && (a.outcome.Recorded? ==> a.outcome.record.stepNo == n && a.outcome.record.action == "CLICK" && a.outcome.record.target == value && a.outcome.record.status == "PASS")
  {
  }

  /** Typing clicks the element located and fills it with the text; it raises "Could not find" when nothing is located. */
  lemma TypeOutcome(text: string, target: string, n: int, env: Env, ratio: (string, string) -> real)
    ensures var a, e := TypeAttempt(text, target, n, env, ratio), Locate(env.page, target, ratio);
      (HealRaises(env.page, target) ==> a.outcome == Raised(env.page.query(HealSelector).error) && a.effects == [])
      && (e.None? && !HealRaises(env.page, target) ==> a.outcome == Raised("Could not find element to type into: " + target) && a.effects == [])
      && (a.outcome.Recorded? <==> e.Some? && env.failure.None?)
      && (a.outcome.Recorded? ==>
            a.effects == [ClickOn(e.value), FillIn(e.value, text)]
            && a.outcome.record.stepNo == n && a.outcome.record.action == "TYPE" && a.outcome.record.target == target && a.outcome.record.status == "PASS")
  {
  }

  /** Hovering hovers over the element located; it raises "Could not find" when nothing is located. */
  lemma HoverOutcome(value: string, n: int, env: Env, ratio: (string, string) -> real)
    ensures var a, e := HoverAttempt(value, n, env, ratio), Locate(env.page, value, ratio);
      (HealRaises(env.page, value) ==> a.outcome == Raised(env.page.query(HealSelector).error) && a.effects == [])
      && (e.None? && !HealRaises(env.page, value) ==> a.outcome == Raised("Could not find element to hover: " + value) && a.effects == [])
      && (e.Some? ==> a.effects == [HoverOver(e.value)])
      && (a.outcome.Recorded? <==> e.Some? && env.failure.None?)
      && (a.outcome.Recorded? ==> a.outcome.record.stepNo == n && a.outcome.record.action == "HOVER" && a.outcome.record.target == value)
  {
  }

  /**
   * Selecting: a dropdown that is not found raises; a native one gets the
   * option selected; a custom one is clicked and then the option found by
   * the finder is clicked, and a missing option raises.
   */
  lemma SelectOutcome(option: string, target: string, n: int, env: Env, ratio: (string, string) -> real)
    ensures var a, e := SelectAttempt(option, target, n, env, ratio), Locate(env.page, target, ratio);
      (HealRaises(env.page, target) ==> a.outcome == Raised(env.page.query(HealSelector).error) && a.effects == [])
      && (e.None? && !HealRaises(env.page, target) ==> a.outcome == Raised("Could not find dropdown: " + target) && a.effects == [])
      && (e.Some? && env.dropdown.NativeSelect? ==> a.effects == [SelectIn(e.value, option)])
      && (e.Some? && env.dropdown.InnerSelect? ==> a.effects == [SelectWithin(e.value, option)])
      && (e.Some? && env.dropdown.CustomDropdown? && env.failure.None? ==>
            (Find(env.page, option).None? ==> a.outcome == Raised("Could not find dropdown option"))
            && (Find(env.page, option).Some? ==> a.effects == [ClickOn(e.value), ClickOn(Find(env.page, option).value)]))
      && (a.outcome.Recorded? <==> e.Some? && env.failure.None? && (env.dropdown.CustomDropdown? ==> Find(env.page, option).Some?))
      && (a.outcome.Recorded? ==> a.outcome.record.stepNo == n && a.outcome.record.action == "SELECT" && a.outcome.record.target == option + " in " + target)
  {
  }

  /** After a successful navigation the first visible consent button is clicked, and only that one. */
  lemma GotoOutcome(url: string, n: int, env: Env, labels: seq<string>)
    ensures var a, c := GotoAttempt(url, n, env, labels), Consent(env.page, labels);
      a.effects[0] == Goto(url)
      && (a.outcome.Recorded? <==> env.failure.None?)
      && (env.failure.None? ==>
            a.effects == [Goto(url)] + (if c.Some? then [ClickOn(c.value.1)] else [])
            && a.outcome.record.stepNo == n && a.outcome.record.action == "OPEN" && a.outcome.record.target == url)
  {
  }

  // ---------------------------------------------------------------- the other step types

  /** A verify attempt always records, PASS exactly when the test holds and FAIL with an error otherwise. */
  lemma VerifyAlwaysRecords(value: string, n: int, env: Env)
    ensures var a := VerifyAttempt(value, n, env);
      a.outcome.Recorded? && a.effects == []
      && a.outcome.record.stepNo == n && a.outcome.record.action == "VERIFY" && a.outcome.record.target == env.url
      && (a.outcome.record.status == "PASS" <==> VerifyHolds(value, env))
      && (a.outcome.record.status == "FAIL" <==> !VerifyHolds(value, env))
      && (a.outcome.record.error.None? <==> VerifyHolds(value, env))
  {
  }

  /** A search needs a search box; without one it raises before touching the page. */
  lemma SearchOutcome(value: string, n: int, env: Env, trigger: string)
    ensures var a := SearchAttempt(value, n, env, trigger);
      (!HasSearchBox(env, trigger) ==> a.outcome == Raised("Could not find any search input field."))
      && (a.outcome.Recorded? <==> HasSearchBox(env, trigger) && env.failure.None?)
      && (a.outcome.Recorded? ==> a.outcome.record.stepNo == n && a.outcome.record.action == "SEARCH" && a.outcome.record.target == value)
  {
  }

  /** The wheel moves 700 down exactly for `"down"` and 700 up for anything else. */
  lemma ScrollDirection(direction: string)
    ensures ScrollDelta(direction) == 700 <==> direction == "down"
    ensures ScrollDelta(direction) == -700 <==> direction != "down"
  {
  }

  /** A scroll always turns the wheel, and records exactly when that does not raise. */
  lemma ScrollOutcome(direction: string, n: int, env: Env)
    ensures var a := ScrollAttempt(direction, n, env);
      a.effects == [Wheel(ScrollDelta(direction))]
      && (a.outcome.Recorded? <==> env.failure.None?)
      && (a.outcome.Recorded? ==> a.outcome.record.stepNo == n && a.outcome.record.action == "SCROLL" && a.outcome.record.target == direction)
  {
  }

  /** A wait records exactly when its value is a non-negative integer, with target `"<sec>s"` and no screenshot. */
  lemma WaitOutcome(value: string, n: int)
    ensures var a, sec := WaitAttempt(value, n), ParseInt(value);
      (sec.None? ==> a == Attempt([], [], Raised(IntError(value))))
      && (a.outcome.Recorded? <==> sec.Some? && sec.value >= 0)
      && (a.outcome.Recorded? ==>
            a.effects == [Pause(sec.value)]
            && a.outcome.record == Record(n, "WAIT", IntToString(sec.value) + "s", "PASS", None, NoFile))
  {
  }

  /** Waiting the number of seconds written out in decimal records that number back. */
  lemma WaitSeconds(sec: nat, n: int)
    ensures WaitAttempt(NatToString(sec), n).outcome == Recorded(Record(n, "WAIT", NatToString(sec) + "s", "PASS", None, NoFile))
    ensures WaitAttempt(NatToString(sec), n).effects == [Pause(sec)]
  {
    ParseNonNegative(sec);
  }

  // ---------------------------------------------------------------- screenshots

  /** Two strings of digits each followed by a `_`: if the whole strings are equal, so are the digits. */
  lemma DigitsBeforeUnderscore(d1: string, r1: string, d2: string, r2: string)
    requires AllDigits(d1) && AllDigits(d2)
    requires r1 != [] && r1[0] == '_' && r2 != [] && r2[0] == '_'
    requires d1 + r1 == d2 + r2
    ensures d1 == d2
  {
    var x := d1 + r1;
    assert forall i :: 0 <= i < |d1| ==> x[i] == d1[i] && x[i] != '_';
    assert forall i :: 0 <= i < |d2| ==> x[i] == d2[i] && x[i] != '_';
    assert x[|d1|] == '_' && x[|d2|] == '_';
    assert |d1| == |d2|;
    assert d1 == x[..|d1|] == d2;
  }

  /** A screenshot name is `step_`, the step number's digits, and a rest that starts with `_`. */
  lemma NameParts(n: nat, status: string, clock: int)
    ensures ScreenshotName(n, status, clock) == "step_" + (NatToString(n) + ("_" + status + "_" + IntToString(clock) + ".png"))
  {
  }

  /** Screenshots of different steps never share a file name, whatever their status and time. */
  lemma ScreenshotNamesDistinct(n1: nat, s1: string, c1: int, n2: nat, s2: string, c2: int)
    requires ScreenshotName(n1, s1, c1) == ScreenshotName(n2, s2, c2)
    ensures n1 == n2
  {
    var d1, d2 := NatToString(n1), NatToString(n2);
    var r1 := "_" + s1 + "_" + IntToString(c1) + ".png";
    var r2 := "_" + s2 + "_" + IntToString(c2) + ".png";
    NameParts(n1, s1, c1);
    NameParts(n2, s2, c2);
    var x := "step_" + (d1 + r1);
    assert x == "step_" + (d2 + r2);
    assert x[5..] == d1 + r1 == d2 + r2;
    DigitsBeforeUnderscore(d1, r1, d2, r2);
    DigitsOfNatToString(n1);
    DigitsOfNatToString(n2);
  }
}
