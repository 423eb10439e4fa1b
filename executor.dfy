/**
 * The step executor `run_test` as it runs: a `Runner` holds the `results`
 * and `logs` lists the source appends to, and the commands sent to the
 * browser.  Each method is proved to do exactly what the matching function
 * of the `Execution` module says.
 */
module Executor {
  import opened Wrappers
  import opened Text
  import opened Dom
  import opened DomMapper
  import opened Healing
  import opened Steps
  import opened Execution

  class Runner {
    /** The records appended so far. */
    var results: seq<Record>
    /** The lines logged so far. */
    var logs: seq<string>
    /** The commands issued to the browser so far. */
    var commands: seq<Effect>

    /** What attempt `a` does to the runner, and how it ends. */
    twostate predicate Performed(a: Attempt, outcome: Outcome)
      reads this
    {
      logs == old(logs) + a.logs && commands == old(commands) + a.effects
      && results == old(results) + RecordsOf(a.outcome) && outcome == a.outcome
    }

    constructor()
      ensures results == [] && logs == [] && commands == []
    {
      results := [];
      logs := [];
      commands := [];
    }

    /** `log(message)` */
    method Log(message: string)
      modifies this
      ensures logs == old(logs) + [message]
      ensures results == old(results) && commands == old(commands)
    {
      logs := logs + [message];
    }

    /** Sends one command to the browser. */
    method Issue(command: Effect)
      modifies this
      ensures commands == old(commands) + [command]
      ensures results == old(results) && logs == old(logs)
    {
      commands := commands + [command];
    }

    /** `results.append(record)`, which ends a successful attempt. */
    method Append(record: Record) returns (outcome: Outcome)
      modifies this
      ensures results == old(results) + [record] && outcome == Recorded(record)
      ensures logs == old(logs) && commands == old(commands)
    {
      results := results + [record];
      outcome := Recorded(record);
    }

    /** `take_screenshot(page, stepNo, status)` */
    method TakeScreenshot(stepNo: int, status: string, camera: Camera) returns (shot: Screenshot)
      modifies this
      ensures logs == old(logs) + Snap(stepNo, status, camera).0 && shot == Snap(stepNo, status, camera).1
      ensures results == old(results) && commands == old(commands)
    {
      match camera.error {
        case Some(e) =>
          Log("Failed to take screenshot: " + e);
          shot := NoFile;
        case None =>
          shot := File(ScreenshotName(stepNo, status, camera.clock));
      }
    }

    /** The cookie-banner loop after navigating: the first of `labels` found and visible is clicked. */
    method DismissConsent(page: Page, labels: seq<string>)
      modifies this
      ensures var c := Consent(page, labels);
        logs == old(logs) + (if c.Some? then ["Dismissing cookie banner: " + c.value.0] else [])
        && commands == old(commands) + (if c.Some? then [ClickOn(c.value.1)] else [])
      ensures results == old(results)
    {
      var i := 0;
      while i < |labels|
        invariant 0 <= i <= |labels|
        invariant Consent(page, labels) == Consent(page, labels[i..])
        invariant logs == old(logs) && commands == old(commands) && results == old(results)
      {
        var button := FindElement(page.query, page.visible, labels[i], 1000);
        if button.Some? && page.visible(button.value) {
          Log("Dismissing cookie banner: " + labels[i]);
          Issue(ClickOn(button.value));
          return;
        }
        assert labels[i..][1..] == labels[i + 1..];
        i := i + 1;
      }
    }

    /** An attempt of a `goto` step, trying the consent-button `labels` once the page has loaded. */
    method RunGoto(url: string, n: int, env: Env, labels: seq<string>) returns (outcome: Outcome)
      modifies this
      ensures Performed(GotoAttempt(url, n, env, labels), outcome)
    {
      Log("Executing GOTO: " + url);
      ghost var said := ["Executing GOTO: " + url];
      Issue(Goto(url));
      if env.failure.Some? {
        outcome := Raised(env.failure.value);
        return;
      }
      Log("Page loaded: " + url);
      said := Said(old(logs), said, ["Page loaded: " + url]);
      DismissConsent(env.page, labels);
      ghost var c := Consent(env.page, labels);
      said := Said(old(logs), said, if c.Some? then ["Dismissing cookie banner: " + c.value.0] else []);
      var shot := TakeScreenshot(n, "PASS", env.camera);
      said := Said(old(logs), said, Snap(n, "PASS", env.camera).0);
      outcome := Append(Record(n, "OPEN", url, "PASS", None, shot));
    }

    /**
     * The find-then-heal escalation: the finder's element, or when it has
     * none, `missing` is logged and the healer is asked, with `healed`
     * logged when the healer supplies one.  `raised` is the error of a
     * healer query that throws.
     */
    method LookUp(target: string, env: Env, ratio: (string, string) -> real, missing: seq<string>, healed: seq<string>)
      returns (candidate: Option<ElementId>, raised: Option<string>)
      modifies this
      ensures candidate == Locate(env.page, target, ratio)
      ensures raised.Some? <==> HealRaises(env.page, target)
      ensures raised.Some? ==> raised.value == env.page.query(HealSelector).error
      ensures logs == old(logs) + LookupLogs(target, env, ratio, missing, healed)
      ensures results == old(results) && commands == old(commands)
    {
      raised := None;
      candidate := FindElement(env.page.query, env.page.visible, target, 5000);
      if candidate.None? {
        logs := logs + missing;
        var query := env.page.query(HealSelector);
        if query.Throws? {
          raised := Some(query.error);
          return;
        }
        candidate := HealElement(query.ids, env.page.visible, env.page.attrs, target, ratio);
        if candidate.Some? {
          logs := logs + healed;
          ghost var said := Said(old(logs), missing, healed);
        }
      }
    }

    /** An attempt of a `click` step: find, heal when the finder has nothing, click. */
    method RunClick(value: string, n: int, env: Env, ratio: (string, string) -> real) returns (outcome: Outcome)
      modifies this
      ensures Performed(ClickAttempt(value, n, env, ratio), outcome)
    {
      Log("Executing CLICK: " + value);
      ghost var said := ["Executing CLICK: " + value];
      var missing, healed := ["Element '" + value + "' not found. Attempting Self-Healing..."], ["Self-Healing SUCCESS: Found substitute element."];
      var candidate, raised := LookUp(value, env, ratio, missing, healed);
      said := Said(old(logs), said, LookupLogs(value, env, ratio, missing, healed));
      if raised.Some? {
        outcome := Raised(raised.value);
        return;
      }
      if candidate.None? {
        outcome := Raised("Could not find element to click: " + value);
        return;
      }
      Issue(ClickOn(candidate.value));
      if env.failure.Some? {
        Log("Click failed: " + env.failure.value);
        said := Said(old(logs), said, ["Click failed: " + env.failure.value]);
        outcome := Raised(env.failure.value);
        return;
      }
      Log("Click successful.");
      said := Said(old(logs), said, ["Click successful."]);
      var shot := TakeScreenshot(n, "PASS", env.camera);
      said := Said(old(logs), said, Snap(n, "PASS", env.camera).0);
      outcome := Append(Record(n, "CLICK", value, "PASS", None, shot));
    }

    /** An attempt of a `type` step: `text` into the element described by `target`. */
    method RunType(text: string, target: string, n: int, env: Env, ratio: (string, string) -> real) returns (outcome: Outcome)
      modifies this
      ensures Performed(TypeAttempt(text, target, n, env, ratio), outcome)
    {
      Log("Executing TYPE: '" + text + "' into '" + target + "'");
      ghost var said := ["Executing TYPE: '" + text + "' into '" + target + "'"];
      var missing := ["Element '" + target + "' not found. Attempting Self-Healing..."];
      var candidate, raised := LookUp(target, env, ratio, missing, []);
      said := Said(old(logs), said, LookupLogs(target, env, ratio, missing, []));
      if raised.Some? {
        outcome := Raised(raised.value);
        return;
      }
      if candidate.None? {
        outcome := Raised("Could not find element to type into: " + target);
        return;
      }
      Issue(ClickOn(candidate.value));
      if env.failure.Some? {
        Log("Type failed: " + env.failure.value);
        said := Said(old(logs), said, ["Type failed: " + env.failure.value]);
        outcome := Raised(env.failure.value);
        return;
      }
      Issue(FillIn(candidate.value, text));
      ghost var issued := Said(old(commands), [ClickOn(candidate.value)], [FillIn(candidate.value, text)]);
      assert TypeAttempt(text, target, n, env, ratio).effects == issued;
      Log("Type successful.");
      said := Said(old(logs), said, ["Type successful."]);
      var shot := TakeScreenshot(n, "PASS", env.camera);
      said := Said(old(logs), said, Snap(n, "PASS", env.camera).0);
      outcome := Append(Record(n, "TYPE", target, "PASS", None, shot));
    }

    /** An attempt of a `hover` step. */
    method RunHover(value: string, n: int, env: Env, ratio: (string, string) -> real) returns (outcome: Outcome)
      modifies this
      ensures Performed(HoverAttempt(value, n, env, ratio), outcome)
    {
      Log("Executing HOVER: " + value);
      ghost var said := ["Executing HOVER: " + value];
      var missing := ["Element '" + value + "' not found for hover."];
      var candidate, raised := LookUp(value, env, ratio, missing, []);
      said := Said(old(logs), said, LookupLogs(value, env, ratio, missing, []));
      if raised.Some? {
        outcome := Raised(raised.value);
        return;
      }
      if candidate.None? {
        outcome := Raised("Could not find element to hover: " + value);
        return;
      }
      Issue(HoverOver(candidate.value));
      if env.failure.Some? {
        outcome := Raised(env.failure.value);
        return;
      }
      var shot := TakeScreenshot(n, "PASS", env.camera);
      said := Said(old(logs), said, Snap(n, "PASS", env.camera).0);
      outcome := Append(Record(n, "HOVER", value, "PASS", None, shot));
    }

    /** An attempt of a `select` step: `option` from the dropdown described by `target`. */
    method RunSelect(option: string, target: string, n: int, env: Env, ratio: (string, string) -> real) returns (outcome: Outcome)
      modifies this
      ensures Performed(SelectAttempt(option, target, n, env, ratio), outcome)
    {
      Log("Executing SELECT: '" + option + "' from '" + target + "'");
      ghost var said := ["Executing SELECT: '" + option + "' from '" + target + "'"];
      var candidate, raised := LookUp(target, env, ratio, [], []);
      assert LookupLogs(target, env, ratio, [], []) == [];
      assert logs == old(logs) + said;
      if raised.Some? {
        outcome := Raised(raised.value);
        return;
      }
      if candidate.None? {
        outcome := Raised("Could not find dropdown: " + target);
        return;
      }
      outcome := Choose(option, target, candidate.value, n, env);
      said := Said(old(logs), said, ChooseAttempt(option, target, candidate.value, n, env).logs);
    }

    /** Selecting `option` in the dropdown `e` that was found. */
    method Choose(option: string, target: string, e: ElementId, n: int, env: Env) returns (outcome: Outcome)
      modifies this
      ensures Performed(ChooseAttempt(option, target, e, n, env), outcome)
    {
      if !env.dropdown.CustomDropdown? {
        Issue(Selection(env.dropdown, e, option));
        if env.failure.Some? {
          outcome := Raised(env.failure.value);
          return;
        }
      } else {
        Log("Not a standard <select>, trying click-to-select...");
        Issue(ClickOn(e));
        if env.failure.Some? {
          outcome := Raised(env.failure.value);
          return;
        }
        var choice := FindElement(env.page.query, env.page.visible, option, 5000);
        if choice.None? {
          outcome := Raised("Could not find dropdown option");
          return;
        }
        Issue(ClickOn(choice.value));
        ghost var issued := Said(old(commands), [ClickOn(e)], [ClickOn(choice.value)]);
      }
      ghost var said := if env.dropdown.CustomDropdown? then ["Not a standard <select>, trying click-to-select..."] else [];
      var shot := TakeScreenshot(n, "PASS", env.camera);
      said := Said(old(logs), said, Snap(n, "PASS", env.camera).0);
      outcome := Append(Record(n, "SELECT", option + " in " + target, "PASS", None, shot));
    }

    /** An attempt of a `wait` step. */
    method RunWait(value: string, n: int) returns (outcome: Outcome)
      modifies this
      ensures Performed(WaitAttempt(value, n), outcome)
    {
      var sec := ParseInt(value);
      if sec.None? {
        outcome := Raised(IntError(value));
        return;
      }
      Log("Executing WAIT: " + IntToString(sec.value) + " seconds...");
      if sec.value < 0 {
        outcome := Raised("sleep length must be non-negative");
        return;
      }
      Issue(Pause(sec.value));
      outcome := Append(Record(n, "WAIT", IntToString(sec.value) + "s", "PASS", None, NoFile));
    }

    /** An attempt of a `scroll` step. */
    method RunScroll(direction: string, n: int, env: Env) returns (outcome: Outcome)
      modifies this
      ensures Performed(ScrollAttempt(direction, n, env), outcome)
    {
      Log("Executing SCROLL: " + direction);
      var delta := if direction == "down" then 700 else -700;
      Issue(Wheel(delta));
      if env.failure.Some? {
        outcome := Raised(env.failure.value);
        return;
      }
      var shot := TakeScreenshot(n, "PASS", env.camera);
      outcome := Append(Record(n, "SCROLL", direction, "PASS", None, shot));
    }

    /** Search-input discovery: a visible input, else one that appears after the search trigger, else any input. */
    method FindSearchBox(env: Env, trigger: string) returns (hasBox: bool)
      modifies this
      ensures logs == old(logs) + DiscoveryLogs(env, trigger) && hasBox == HasSearchBox(env, trigger)
      ensures results == old(results) && commands == old(commands)
    {
      ghost var said: seq<string>;
      if env.search.visibleInput {
        Log("Found visible search input directly.");
        said := ["Found visible search input directly."];
        hasBox := true;
      } else {
        Log("No visible input. Looking for search triggers...");
        said := ["No visible input. Looking for search triggers..."];
        var found := FindElement(env.page.query, env.page.visible, trigger, 3000);
        if found.Some? {
          Log("Found search trigger. Clicking...");
          said := Said(old(logs), said, ["Found search trigger. Clicking..."]);
          if env.search.appearsAfterTrigger {
            hasBox := true;
          } else {
            Log("No input appeared after clicking trigger.");
            said := Said(old(logs), said, ["No input appeared after clicking trigger."]);
            hasBox := false;
          }
        } else {
          Log("No search trigger found.");
          said := Said(old(logs), said, ["No search trigger found."]);
          hasBox := false;
        }
      }
      assert said == TierLogs(env, trigger) && hasBox == TierFound(env, trigger);
      if !hasBox {
        Log("Fallback: searching for any input.");
        said := Said(old(logs), said, ["Fallback: searching for any input."]);
        hasBox := env.search.anyInput;
      }
    }

    /** The rest of a `search` step once a search box is found. */
    method FillSearchBox(value: string, n: int, env: Env) returns (outcome: Outcome)
      modifies this
      ensures Performed(FillAttempt(value, n, env), outcome)
    {
      ghost var said: seq<string> := [];
      if env.search.wrapperTag.Some? {
        Log("Target is " + env.search.wrapperTag.value + ", looking for internal input...");
        said := ["Target is " + env.search.wrapperTag.value + ", looking for internal input..."];
      }
      Log("Filling search box...");
      said := Said(old(logs), said, ["Filling search box..."]);
      if env.failure.Some? {
        outcome := Raised(env.failure.value);
        return;
      }
      var shot := TakeScreenshot(n, "PASS", env.camera);
      said := Said(old(logs), said, Snap(n, "PASS", env.camera).0);
      outcome := Append(Record(n, "SEARCH", value, "PASS", None, shot));
    }

    /** An attempt of a `search` step: find a search box, then fill it. */
    method RunSearch(value: string, n: int, env: Env, trigger: string) returns (outcome: Outcome)
      modifies this
      ensures Performed(SearchAttempt(value, n, env, trigger), outcome)
    {
      Log("Executing SEARCH: " + value);
      ghost var said := ["Executing SEARCH: " + value];
      var hasBox := FindSearchBox(env, trigger);
      said := Said(old(logs), said, DiscoveryLogs(env, trigger));
      if !hasBox {
        outcome := Raised("Could not find any search input field.");
        return;
      }
      outcome := FillSearchBox(value, n, env);
      said := Said(old(logs), said, FillAttempt(value, n, env).logs);
      ghost var c := Said(old(commands), [], FillAttempt(value, n, env).effects);
    }

    /** An attempt of a `verify` step: it records PASS or FAIL and never raises. */
    method RunVerify(value: string, n: int, env: Env) returns (outcome: Outcome)
      modifies this
      ensures Performed(VerifyAttempt(value, n, env), outcome)
    {
      Log("Executing VERIFY: " + value);
      Log("Checking content in URL: " + env.url + " and Page Title/Content");
      ghost var said := Said(old(logs), ["Executing VERIFY: " + value], ["Checking content in URL: " + env.url + " and Page Title/Content"]);
      if Contains(env.url, "google") || Contains(env.url, "search")
         || Contains(Lower(env.title), Lower(value)) || Contains(Lower(env.content), Lower(value))
      {
        Log("Verification SUCCESS found content match.");
        said := Said(old(logs), said, ["Verification SUCCESS found content match."]);
        var shot := TakeScreenshot(n, "PASS", env.camera);
        said := Said(old(logs), said, Snap(n, "PASS", env.camera).0);
        outcome := Append(Record(n, "VERIFY", env.url, "PASS", None, shot));
      } else {
        Log("Verification FAILED. Content '" + value + "' not found.");
        said := Said(old(logs), said, ["Verification FAILED. Content '" + value + "' not found."]);
        var shot := TakeScreenshot(n, "FAIL", env.camera);
        said := Said(old(logs), said, Snap(n, "FAIL", env.camera).0);
        outcome := Append(Record(n, "VERIFY", env.url, "FAIL", Some("Content '" + value + "' not found in URL or Page Title"), shot));
      }
    }

    /** The body of one attempt: the `if`/`elif` chain on the step's type. */
    method RunAttempt(step: Step, n: int, env: Env, ratio: (string, string) -> real, cfg: Config) returns (outcome: Outcome)
      modifies this
      ensures Performed(AttemptOf(step, n, env, ratio, cfg), outcome)
    {
      if step.kind.None? {
        outcome := Raised(KeyError("type"));
        return;
      }
      var kind := step.kind.value;
      if kind !in HandledKinds {
        outcome := FellThrough;
        return;
      }
      if (kind == "type" || kind == "select") && step.target.None? {
        outcome := Raised(KeyError("target"));
        return;
      }
      if step.value.None? {
        outcome := Raised(KeyError("value"));
        return;
      }
      var v := step.value.value;
      if kind == "goto" {
        outcome := RunGoto(v, n, env, cfg.consentLabels);
      } else if kind == "click" {
        outcome := RunClick(v, n, env, ratio);
      } else if kind == "type" {
        outcome := RunType(v, step.target.value, n, env, ratio);
      } else if kind == "hover" {
        outcome := RunHover(v, n, env, ratio);
      } else if kind == "select" {
        outcome := RunSelect(v, step.target.value, n, env, ratio);
      } else if kind == "wait" {
        outcome := RunWait(v, n);
      } else if kind == "scroll" {
        outcome := RunScroll(v, n, env);
      } else if kind == "search" {
        outcome := RunSearch(v, n, env, cfg.searchTrigger);
      } else {
        outcome := RunVerify(v, n, env);
      }
    }

    /** Attempt `k` of step `idx`, as `attempts(k)` describes it. */
    method TryAttempt(step: Step, idx: nat, b: Browser, cfg: Config, ghost attempts: nat -> Attempt, k: nat) returns (outcome: Outcome)
      requires AttemptsAre(attempts, step, idx, b, cfg)
      modifies this
      ensures Performed(attempts(k), outcome)
    {
      outcome := RunAttempt(step, idx + 1, b.attempt(idx, k), b.ratio, cfg);
    }

    /**
     * The retry loop of step `idx`: up to three attempts, stopping at the
     * first that records; each attempt that raises is logged with its error.
     */
    method RunTries(step: Step, idx: nat, b: Browser, cfg: Config, ghost attempts: nat -> Attempt) returns (success: bool, lastError: Option<string>)
      requires AttemptsAre(attempts, step, idx, b, cfg)
      modifies this
      ensures var t := Tries(attempts, idx + 1, 0, None);
        logs == old(logs) + t.logs && commands == old(commands) + t.effects
        && results == old(results) + (if t.record.Some? then [t.record.value] else [])
        && success == t.record.Some? && lastError == t.lastError
    {
      ghost var all := Tries(attempts, idx + 1, 0, None);
      success := false;
      lastError := None;
      var attempt := 0;
      while attempt < Retries && !success
        invariant 0 <= attempt <= Retries
        invariant !success ==>
          var rest := Tries(attempts, idx + 1, attempt, lastError);
          logs + rest.logs == old(logs) + all.logs && commands + rest.effects == old(commands) + all.effects
          && results == old(results) && rest.record == all.record && rest.lastError == all.lastError
        invariant success ==>
          all.record.Some? && logs == old(logs) + all.logs && commands == old(commands) + all.effects
          && results == old(results) + [all.record.value] && lastError == all.lastError
      {
        ghost var rest := Tries(attempts, idx + 1, attempt, lastError);
        ghost var a := attempts(attempt);
        ghost var logs0, commands0 := logs, commands;
        var outcome := TryAttempt(step, idx, b, cfg, attempts, attempt);
        match outcome {
          case Recorded(_) =>
            success := true;
          case Raised(e) =>
            Log(AttemptFailedLog(idx + 1, attempt + 1, e));
            lastError := Some(e);
            ghost var next := Tries(attempts, idx + 1, attempt + 1, lastError);
            Regroup(logs0, a.logs, [AttemptFailedLog(idx + 1, attempt + 1, e)]);
            Regroup(logs0, a.logs + [AttemptFailedLog(idx + 1, attempt + 1, e)], next.logs);
            Regroup(commands0, a.effects, next.effects);
          case FellThrough =>
            ghost var next := Tries(attempts, idx + 1, attempt + 1, lastError);
            Regroup(logs0, a.logs, next.logs);
            Regroup(commands0, a.effects, next.effects);
        }
        attempt := attempt + 1;
      }
    }

    /**
     * Step `idx`: its attempts, then the FAIL record when none recorded.  A
     * non-`None` result is the error that escapes the run.
     */
    method RunStep(step: Step, idx: nat, b: Browser, cfg: Config) returns (fatal: Option<string>)
      modifies this
      ensures var s := StepOf(step, idx, b, cfg);
        logs == old(logs) + s.logs && commands == old(commands) + s.effects
        && (s.Finished? ==> results == old(results) + [s.record] && fatal.None?)
        && (s.Fatal? ==> results == old(results) && fatal == Some(s.error))
    {
      fatal := EndStep(step, idx, b, cfg, AttemptsOf(step, idx, b, cfg));
    }

    /** The attempts of step `idx`, given as `attempts`, then the FAIL record when none recorded. */
    method EndStep(step: Step, idx: nat, b: Browser, cfg: Config, ghost attempts: nat -> Attempt) returns (fatal: Option<string>)
      requires AttemptsAre(attempts, step, idx, b, cfg)
      modifies this
      ensures var s := StepAfter(step, idx, Tries(attempts, idx + 1, 0, None), b.finalCamera(idx));
        logs == old(logs) + s.logs && commands == old(commands) + s.effects
        && (s.Finished? ==> results == old(results) + [s.record] && fatal.None?)
        && (s.Fatal? ==> results == old(results) && fatal == Some(s.error))
    {
      var success, lastError := RunTries(step, idx, b, cfg, attempts);
      if success {
        fatal := None;
        return;
      }
      ghost var said := Tries(attempts, idx + 1, 0, None).logs;
      Log(ExhaustedLog(idx + 1));
      if step.kind.None? {
        fatal := Some(KeyError("type"));
        return;
      }
      said := Said(old(logs), said, [ExhaustedLog(idx + 1)]);
      var shot := TakeScreenshot(idx + 1, "FAIL", b.finalCamera(idx));
      said := Said(old(logs), said, Snap(idx + 1, "FAIL", b.finalCamera(idx)).0);
      var target := if step.value.Some? then step.value.value else "";
      results := results + [Record(idx + 1, Upper(step.kind.value), target, "FAIL", Some(ErrorText(lastError)), shot)];
      fatal := None;
    }

    /** Step `idx`, whose end `ends` describes. */
    method TakeStep(step: Step, idx: nat, b: Browser, cfg: Config, ghost ends: (Step, nat) -> StepEnd) returns (fatal: Option<string>)
      requires EndsAre(ends, b, cfg)
      modifies this
      ensures var s := ends(step, idx);
        logs == old(logs) + s.logs && commands == old(commands) + s.effects
        && (s.Finished? ==> results == old(results) + [s.record] && fatal.None?)
        && (s.Fatal? ==> results == old(results) && fatal == Some(s.error))
    {
      fatal := RunStep(step, idx, b, cfg);
    }

    /** The loop over the steps, which an escaping error ends; `ends` describes how each step ends. */
    method RunSteps(steps: seq<Step>, b: Browser, cfg: Config, ghost ends: (Step, nat) -> StepEnd) returns (fatal: Option<string>)
      requires EndsAre(ends, b, cfg)
      requires results == [] && logs == [] && commands == []
      modifies this
      ensures Progress(results, logs, commands, fatal) == RunUpTo(ends, steps, |steps|)
    {
      fatal := None;
      var i := 0;
      while i < |steps| && fatal.None?
        invariant 0 <= i <= |steps|
        invariant Progress(results, logs, commands, fatal) == RunUpTo(ends, steps, i)
      {
        fatal := TakeStep(steps[i], i, b, cfg, ends);
        i := i + 1;
      }
      if i < |steps| {
        FatalStays(ends, steps, i, |steps|);
      }
    }
  }

  /** `ends` says how each step of a run on `b` ends; stated so that it is used only where a step is carried out. */
  ghost predicate EndsAre(ends: (Step, nat) -> StepEnd, b: Browser, cfg: Config) {
    forall step: Step, idx: nat {:trigger StepOf(step, idx, b, cfg)} :: ends(step, idx) == StepOf(step, idx, b, cfg)
  }

  /** `attempts` describes the attempts of step `idx`; stated so that it is used only where an attempt is carried out. */
  ghost predicate AttemptsAre(attempts: nat -> Attempt, step: Step, idx: nat, b: Browser, cfg: Config) {
    forall k: nat {:trigger b.attempt(idx, k)} :: attempts(k) == AttemptOf(step, idx + 1, b.attempt(idx, k), b.ratio, cfg)
  }

  /** `said + more`, and the fact that appending `more` to `start + said` extends it. */
  ghost function Said<T>(start: seq<T>, said: seq<T>, more: seq<T>): (r: seq<T>)
    ensures r == said + more && (start + said) + more == start + r
  {
    said + more
  }

  lemma Regroup<T>(a: seq<T>, b: seq<T>, c: seq<T>)
    ensures (a + b) + c == a + (b + c)
  {
  }

  /** `run_test(steps)`: the records and logs it returns, and the commands it sends on the way. */
  method RunTest(steps: seq<Step>, b: Browser) returns (results: seq<Record>, logs: seq<string>, commands: seq<Effect>)
    ensures (results, logs) == RunTestResult(steps, b, Defaults)
    ensures commands == RunCommands(steps, b, Defaults)
  {
    var runner := new Runner();
    if b.launch.Some? {
      return [SystemRecord(b.launch.value)], runner.logs, runner.commands;
    }
    var fatal := runner.RunSteps(steps, b, Defaults, StepEnds(b, Defaults));
    if fatal.None? {
      fatal := b.close;
    }
    if fatal.Some? {
      return [SystemRecord(fatal.value)], runner.logs, runner.commands;
    }
    return runner.results, runner.logs, runner.commands;
  }
}
