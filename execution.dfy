/**
 * What the step executor (`run_test`) does, stated as functions of the
 * steps and of the browser.  The browser is an outside collaborator and is
 * given as data: for every attempt of every step, an `Env` says what the
 * page looks like and how the browser answers; for the whole run, whether
 * Playwright starts and closes.  The class that carries out a run and is
 * proved to produce exactly these values is in the `Executor` module.
 */
module Execution {
  import opened Wrappers
  import opened Text
  import opened Dom
  import opened DomMapper
  import opened Healing
  import opened Steps

  // ---------------------------------------------------------------- the browser

  /** A snapshot of the page: what locator queries yield, visibility, and the attributes the healer reads. */
  datatype Page = Page(query: string -> Query, visible: ElementId -> bool, attrs: ElementId -> Option<Attributes>)

  /** What the dropdown found for a `select` step is: a `<select>`, a wrapper around one, or neither. */
  datatype Dropdown = NativeSelect | InnerSelect | CustomDropdown

  /**
   * How search-input discovery goes: whether a visible input is there at
   * once, whether one appears after the search trigger is clicked, whether
   * any input exists at all, and the tag name when the box found is a
   * wrapper rather than an input, a text area or an editable element.
   */
  datatype SearchBox = SearchBox(visibleInput: bool, appearsAfterTrigger: bool, anyInput: bool, wrapperTag: Option<string>)

  /** A screenshot: the error it raises, if any, and `int(time.time())` when it is taken. */
  datatype Camera = Camera(error: Option<string>, clock: int)

  /**
   * The browser as one attempt observes it.  `failure` is the error the
   * attempt's first browser command on its target raises (the navigation,
   * the click, the fill, the hover, the option selection or the wheel), if
   * any; `url`, `title` and `content` are what a verify step reads.
   */
  datatype Env = Env(
    page: Page,
    failure: Option<string>,
    url: string,
    title: string,
    content: string,
    dropdown: Dropdown,
    search: SearchBox,
    camera: Camera)

  /**
   * The browser for a whole run: whether launching raises, the environment
   * of attempt `k` of step `idx` (`attempt(idx, k)`), the camera for the
   * screenshot of a step that failed every attempt, whether closing raises,
   * and `difflib`'s similarity ratio.
   */
  datatype Browser = Browser(
    launch: Option<string>,
    attempt: (nat, nat) -> Env,
    finalCamera: nat -> Camera,
    close: Option<string>,
    ratio: (string, string) -> real)

  /** A command an attempt issues to the browser. */
  datatype Effect =
    | Goto(url: string)
    | ClickOn(element: ElementId)
    | FillIn(element: ElementId, text: string)
    | HoverOver(element: ElementId)
    | SelectIn(element: ElementId, option: string)
    | SelectWithin(container: ElementId, option: string)
    | Wheel(delta: int)
    | Pause(seconds: int)

  /** How an attempt ends: it appended a record, it raised, or it did nothing (an unknown step type). */
  datatype Outcome = Recorded(record: Record) | Raised(error: string) | FellThrough

  /** One attempt: the lines it logs, the commands it issues and how it ends. */
  datatype Attempt = Attempt(logs: seq<string>, effects: seq<Effect>, outcome: Outcome)

  /** The records an attempt appends to `results`. */
  function RecordsOf(o: Outcome): (rs: seq<Record>)
    ensures |rs| <= 1 && (rs != [] <==> o.Recorded?)
  {
    if o.Recorded? then [o.record] else []
  }

  // ---------------------------------------------------------------- helpers of run_test

  /** `str(KeyError(key))`: the message of a missing dictionary key. */
  function KeyError(key: string): string {
    "'" + key + "'"
  }

  /** `f"step_{step_no}_{status}_{int(time.time())}.png"` */
  function ScreenshotName(stepNo: int, status: string, clock: int): string {
    "step_" + IntToString(stepNo) + "_" + status + "_" + IntToString(clock) + ".png"
  }

  /** `take_screenshot`: the file name, or a logged failure and `None`. */
  function Snap(stepNo: int, status: string, camera: Camera): (seq<string>, Screenshot) {
    match camera.error
    case Some(e) => (["Failed to take screenshot: " + e], NoFile)
    case None => ([], File(ScreenshotName(stepNo, status, camera.clock)))
  }

  /** The locator the healer scans. */
  const HealSelector: string := "button, a, input[type='submit'], input[type='button'], [role='button']"

  /** `find_element(page, selector)` on a snapshot. */
  function Find(page: Page, selector: string): Option<ElementId> {
    Resolve(page.query, page.visible, Strategies(selector))
  }

  /**
   * `heal_element(page, target)` on a snapshot, when its query does not
   * throw (see `HealRaises`): a visible element among those the healer
   * query yields, or none.
   */
  function Healed(page: Page, target: string, ratio: (string, string) -> real): (r: Option<ElementId>)
    ensures r.Some? ==> r.value in MatchesOf(page.query(HealSelector)) && page.visible(r.value)
    ensures page.query(HealSelector).Throws? ==> r.None?
  {
    var elements := MatchesOf(page.query(HealSelector));
    if Heal(elements, page.visible, page.attrs, target, ratio).Some? then
      HealSound(elements, page.visible, page.attrs, target, ratio);
      Heal(elements, page.visible, page.attrs, target, ratio)
    else None
  }

  /**
   * The healer is asked (the finder having nothing) and its element query
   * throws: the exception leaves the step's attempt.
   */
  predicate HealRaises(page: Page, target: string) {
    Find(page, target).None? && page.query(HealSelector).Throws?
  }

  /**
   * The element an action targets: the finder's when it has one; otherwise
   * the healer's, which is visible and matches the healer query.
   */
  function Locate(page: Page, target: string, ratio: (string, string) -> real): (r: Option<ElementId>)
    ensures Find(page, target).Some? ==> r == Find(page, target)
    ensures Find(page, target).None? && r.Some? ==> r.value in MatchesOf(page.query(HealSelector)) && page.visible(r.value)
    ensures HealRaises(page, target) ==> r.None?
  {
    if Find(page, target).Some? then Find(page, target) else Healed(page, target, ratio)
  }

  /** The consent-button labels tried after navigating, in order. */
  const ConsentLabels: seq<string> := ["Accept all", "Accept", "Agree", "I agree", "Consent"]

  /** The finder has an element for label `l` and it is visible: its button would be clicked. */
  predicate Dismisses(page: Page, l: string) {
    Find(page, l).Some? && page.visible(Find(page, l).value)
  }

  /** The label chosen is the first one that dismisses the banner. */
  lemma {:induction false} ConsentFirst(page: Page, labels: seq<string>)
    ensures var r := Consent(page, labels);
      r.Some? ==> exists k :: 0 <= k < |labels| && labels[k] == r.value.0 && Dismisses(page, labels[k])
                              && forall j :: 0 <= j < k ==> !Dismisses(page, labels[j])
  {
    if labels != [] {
      if Dismisses(page, labels[0]) {
        assert labels[0] == Consent(page, labels).value.0;
      } else {
        var rest := labels[1..];
        ConsentFirst(page, rest);
        var r := Consent(page, labels);
        if r.Some? {
          var k :| 0 <= k < |rest| && rest[k] == r.value.0 && Dismisses(page, rest[k])
                   && forall j :: 0 <= j < k ==> !Dismisses(page, rest[j]);
          assert labels[k + 1] == rest[k];
          forall j | 0 <= j < k + 1 ensures !Dismisses(page, labels[j]) {
            if j > 0 {
              assert labels[j] == rest[j - 1];
            }
          }
        }
      }
    }
  }

  /** The first label whose element is found and visible, with that element: the banner dismissed. */
  function Consent(page: Page, labels: seq<string>): (r: Option<(string, ElementId)>)
    ensures r.Some? ==> r.value.0 in labels && Find(page, r.value.0) == Some(r.value.1) && page.visible(r.value.1)
    ensures r.None? ==> forall l :: l in labels ==> Find(page, l).None? || !page.visible(Find(page, l).value)
  {
    if labels == [] then None
    else
      var found := Find(page, labels[0]);
      if found.Some? && page.visible(found.value) then Some((labels[0], found.value))
      else Consent(page, labels[1..])
  }

  // ---------------------------------------------------------------- one attempt per step type

  /** An attempt of a `goto` step; `labels` are the consent-button labels tried after the page loads. */
  function GotoAttempt(url: string, n: int, env: Env, labels: seq<string>): Attempt {
    var opening := ["Executing GOTO: " + url];
    match env.failure
    case Some(e) => Attempt(opening, [Goto(url)], Raised(e))
    case None =>
      var loaded := opening + ["Page loaded: " + url];
      var consent := Consent(env.page, labels);
      var dismissed := if consent.Some? then ["Dismissing cookie banner: " + consent.value.0] else [];
      var clicked := if consent.Some? then [ClickOn(consent.value.1)] else [];
      var (shotLogs, shot) := Snap(n, "PASS", env.camera);
      Attempt(loaded + dismissed + shotLogs, [Goto(url)] + clicked, Recorded(Record(n, "OPEN", url, "PASS", None, shot)))
  }

  /**
   * The lines an attempt logs while it looks for its element: nothing when
   * the finder has it; otherwise `missing`, and then `healed` when the
   * healer supplies one.
   */
  function LookupLogs(target: string, env: Env, ratio: (string, string) -> real, missing: seq<string>, healed: seq<string>): seq<string> {
    if Find(env.page, target).Some? then []
    else missing + (if Healed(env.page, target, ratio).Some? then healed else [])
  }

  /** An attempt of a `click` step. */
  function ClickAttempt(value: string, n: int, env: Env, ratio: (string, string) -> real): Attempt {
    var looked := ["Executing CLICK: " + value]
      + LookupLogs(value, env, ratio, ["Element '" + value + "' not found. Attempting Self-Healing..."], ["Self-Healing SUCCESS: Found substitute element."]);
    if HealRaises(env.page, value) then Attempt(looked, [], Raised(env.page.query(HealSelector).error))
    else match Locate(env.page, value, ratio)
    case None => Attempt(looked, [], Raised("Could not find element to click: " + value))
    case Some(e) =>
      match env.failure
      case Some(err) => Attempt(looked + ["Click failed: " + err], [ClickOn(e)], Raised(err))
      case None =>
        var (shotLogs, shot) := Snap(n, "PASS", env.camera);
        Attempt(looked + ["Click successful."] + shotLogs, [ClickOn(e)], Recorded(Record(n, "CLICK", value, "PASS", None, shot)))
  }

  /** An attempt of a `type` step: `text` into the element described by `target`. */
  function TypeAttempt(text: string, target: string, n: int, env: Env, ratio: (string, string) -> real): Attempt {
    var looked := ["Executing TYPE: '" + text + "' into '" + target + "'"]
      + LookupLogs(target, env, ratio, ["Element '" + target + "' not found. Attempting Self-Healing..."], []);
    if HealRaises(env.page, target) then Attempt(looked, [], Raised(env.page.query(HealSelector).error))
    else match Locate(env.page, target, ratio)
    case None => Attempt(looked, [], Raised("Could not find element to type into: " + target))
    case Some(e) =>
      match env.failure
      case Some(err) => Attempt(looked + ["Type failed: " + err], [ClickOn(e)], Raised(err))
      case None =>
        var (shotLogs, shot) := Snap(n, "PASS", env.camera);
        Attempt(looked + ["Type successful."] + shotLogs, [ClickOn(e), FillIn(e, text)], Recorded(Record(n, "TYPE", target, "PASS", None, shot)))
  }

  /** An attempt of a `hover` step. */
  function HoverAttempt(value: string, n: int, env: Env, ratio: (string, string) -> real): Attempt {
    var looked := ["Executing HOVER: " + value]
      + LookupLogs(value, env, ratio, ["Element '" + value + "' not found for hover."], []);
    if HealRaises(env.page, value) then Attempt(looked, [], Raised(env.page.query(HealSelector).error))
    else match Locate(env.page, value, ratio)
    case None => Attempt(looked, [], Raised("Could not find element to hover: " + value))
    case Some(e) =>
      match env.failure
      case Some(err) => Attempt(looked, [HoverOver(e)], Raised(err))
      case None =>
        var (shotLogs, shot) := Snap(n, "PASS", env.camera);
        Attempt(looked + shotLogs, [HoverOver(e)], Recorded(Record(n, "HOVER", value, "PASS", None, shot)))
  }

  /** An attempt of a `select` step: `option` from the dropdown described by `target`. */
  function SelectAttempt(option: string, target: string, n: int, env: Env, ratio: (string, string) -> real): Attempt {
    var opening := ["Executing SELECT: '" + option + "' from '" + target + "'"];
    if HealRaises(env.page, target) then Attempt(opening, [], Raised(env.page.query(HealSelector).error))
    else match Locate(env.page, target, ratio)
    case None => Attempt(opening, [], Raised("Could not find dropdown: " + target))
    case Some(e) =>
      var chosen := ChooseAttempt(option, target, e, n, env);
      Attempt(opening + chosen.logs, chosen.effects, chosen.outcome)
  }

  /**
   * The selection a standard dropdown gets: on `e` itself when it is a
   * `<select>`, on the first `<select>` inside it when it wraps one.
   */
  function Selection(dropdown: Dropdown, e: ElementId, option: string): Effect {
    if dropdown.NativeSelect? then SelectIn(e, option) else SelectWithin(e, option)
  }

  /** The rest of a `select` attempt once dropdown `e` is found: a native selection, or a click on the dropdown and then on the option. */
  function ChooseAttempt(option: string, target: string, e: ElementId, n: int, env: Env): Attempt {
    var (shotLogs, shot) := Snap(n, "PASS", env.camera);
    var done := Recorded(Record(n, "SELECT", option + " in " + target, "PASS", None, shot));
    if !env.dropdown.CustomDropdown? then
      match env.failure
      case Some(err) => Attempt([], [Selection(env.dropdown, e, option)], Raised(err))
      case None => Attempt(shotLogs, [Selection(env.dropdown, e, option)], done)
    else
      var tried := ["Not a standard <select>, trying click-to-select..."];
      match env.failure
      case Some(err) => Attempt(tried, [ClickOn(e)], Raised(err))
      case None =>
        match Find(env.page, option)
        case None => Attempt(tried, [ClickOn(e)], Raised("Could not find dropdown option"))
        case Some(o) => Attempt(tried + shotLogs, [ClickOn(e), ClickOn(o)], done)
  }

  /** `int(value)` fails with this message. */
  function IntError(value: string): string {
    "invalid literal for int() with base 10: " + Repr(value)
  }

  /** An attempt of a `wait` step. */
  function WaitAttempt(value: string, n: int): Attempt {
    match ParseInt(value)
    case None => Attempt([], [], Raised(IntError(value)))
    case Some(sec) =>
      var announced := ["Executing WAIT: " + IntToString(sec) + " seconds..."];
      if sec < 0 then Attempt(announced, [], Raised("sleep length must be non-negative"))
      else Attempt(announced, [Pause(sec)], Recorded(Record(n, "WAIT", IntToString(sec) + "s", "PASS", None, NoFile)))
  }

  /** The wheel delta of a scroll: down for `"down"`, up for anything else. */
  function ScrollDelta(direction: string): int {
    if direction == "down" then 700 else -700
  }

  /** An attempt of a `scroll` step. */
  function ScrollAttempt(direction: string, n: int, env: Env): Attempt {
    var announced := ["Executing SCROLL: " + direction];
    var wheel := [Wheel(ScrollDelta(direction))];
    match env.failure
    case Some(err) => Attempt(announced, wheel, Raised(err))
    case None =>
      var (shotLogs, shot) := Snap(n, "PASS", env.camera);
      Attempt(announced + shotLogs, wheel, Recorded(Record(n, "SCROLL", direction, "PASS", None, shot)))
  }

  /** The description of the search trigger looked for when no input is visible. */
  const SearchTrigger: string := "Search"

  /** Whether a visible input is there at once or appears after the search trigger, found by `trigger`, is clicked. */
  predicate TierFound(env: Env, trigger: string) {
    env.search.visibleInput || (Find(env.page, trigger).Some? && env.search.appearsAfterTrigger)
  }

  /** The lines the first two tiers of search-input discovery log. */
  function TierLogs(env: Env, trigger: string): seq<string> {
    if env.search.visibleInput then ["Found visible search input directly."]
    else
      var looking := ["No visible input. Looking for search triggers..."];
      if Find(env.page, trigger).None? then looking + ["No search trigger found."]
      else if env.search.appearsAfterTrigger then looking + ["Found search trigger. Clicking..."]
      else looking + ["Found search trigger. Clicking..."] + ["No input appeared after clicking trigger."]
  }

  /** The lines search-input discovery logs, the fallback included. */
  function DiscoveryLogs(env: Env, trigger: string): seq<string> {
    if TierFound(env, trigger) then TierLogs(env, trigger) else TierLogs(env, trigger) + ["Fallback: searching for any input."]
  }

  /** Whether discovery ends with an input to fill: from the tiers, or any input as a fallback. */
  predicate HasSearchBox(env: Env, trigger: string) {
    TierFound(env, trigger) || env.search.anyInput
  }

  /** What a `search` step does once it has a search box: fill it and record. */
  function FillAttempt(value: string, n: int, env: Env): Attempt {
    var filling := (if env.search.wrapperTag.Some? then ["Target is " + env.search.wrapperTag.value + ", looking for internal input..."] else [])
      + ["Filling search box..."];
    match env.failure
    case Some(err) => Attempt(filling, [], Raised(err))
    case None =>
      var (shotLogs, shot) := Snap(n, "PASS", env.camera);
      Attempt(filling + shotLogs, [], Recorded(Record(n, "SEARCH", value, "PASS", None, shot)))
  }

  /** An attempt of a `search` step; `trigger` describes the search trigger clicked when no input is visible. */
  function SearchAttempt(value: string, n: int, env: Env, trigger: string): Attempt {
    var looked := ["Executing SEARCH: " + value] + DiscoveryLogs(env, trigger);
    if !HasSearchBox(env, trigger) then Attempt(looked, [], Raised("Could not find any search input field."))
    else
      var filled := FillAttempt(value, n, env);
      Attempt(looked + filled.logs, filled.effects, filled.outcome)
  }

  /** The verify test: the URL names google or search, or the title or content holds the value, ignoring case. */
  predicate VerifyHolds(value: string, env: Env) {
    Contains(env.url, "google") || Contains(env.url, "search")
    || Contains(Lower(env.title), Lower(value)) || Contains(Lower(env.content), Lower(value))
  }

  /** An attempt of a `verify` step: it always records, PASS or FAIL. */
  function VerifyAttempt(value: string, n: int, env: Env): Attempt {
    var checking := ["Executing VERIFY: " + value, "Checking content in URL: " + env.url + " and Page Title/Content"];
    if VerifyHolds(value, env) then
      var (shotLogs, shot) := Snap(n, "PASS", env.camera);
      Attempt(checking + ["Verification SUCCESS found content match."] + shotLogs, [],
              Recorded(Record(n, "VERIFY", env.url, "PASS", None, shot)))
    else
      var (shotLogs, shot) := Snap(n, "FAIL", env.camera);
      Attempt(checking + ["Verification FAILED. Content '" + value + "' not found."] + shotLogs, [],
              Recorded(Record(n, "VERIFY", env.url, "FAIL", Some("Content '" + value + "' not found in URL or Page Title"), shot)))
  }

  /** The step types the executor handles. */
  const HandledKinds: set<string> := {"goto", "click", "type", "hover", "select", "wait", "scroll", "search", "verify"}

  /** The fixed texts a run looks for: the consent-banner labels and the search trigger. */
  datatype Config = Config(consentLabels: seq<string>, searchTrigger: string)

  /** The texts `run_test` uses. */
  const Defaults: Config := Config(ConsentLabels, SearchTrigger)

  /** One attempt of step number `n`, dispatching on its type; a missing key raises `KeyError`. */
  function AttemptOf(step: Step, n: int, env: Env, ratio: (string, string) -> real, cfg: Config): Attempt {
    match step.kind
    case None => Attempt([], [], Raised(KeyError("type")))
    case Some(kind) =>
      if kind !in HandledKinds then Attempt([], [], FellThrough)
      else if (kind == "type" || kind == "select") && step.target.None? then Attempt([], [], Raised(KeyError("target")))
      else if step.value.None? then Attempt([], [], Raised(KeyError("value")))
      else
        var v := step.value.value;
        if kind == "goto" then GotoAttempt(v, n, env, cfg.consentLabels)
        else if kind == "click" then ClickAttempt(v, n, env, ratio)
        else if kind == "type" then TypeAttempt(v, step.target.value, n, env, ratio)
        else if kind == "hover" then HoverAttempt(v, n, env, ratio)
        else if kind == "select" then SelectAttempt(v, step.target.value, n, env, ratio)
        else if kind == "wait" then WaitAttempt(v, n)
        else if kind == "scroll" then ScrollAttempt(v, n, env)
        else if kind == "search" then SearchAttempt(v, n, env, cfg.searchTrigger)
        else VerifyAttempt(v, n, env)
  }

  // ---------------------------------------------------------------- retries

  /** The number of attempts a step gets. */
  const Retries: nat := 3

  /** What the attempts of a step have produced, and the last error raised. */
  datatype Tried = Tried(logs: seq<string>, effects: seq<Effect>, record: Option<Record>, lastError: Option<string>)

  /** The line logged after attempt `k` (counted from 1) of step `n` raised `e`. */
  function AttemptFailedLog(n: int, k: int, e: string): string {
    "Step " + IntToString(n) + " attempt " + IntToString(k) + " failed: " + e
  }

  /** The attempts of step `idx`: attempt `k` sees the browser as `b.attempt(idx, k)`. */
  function AttemptsOf(step: Step, idx: nat, b: Browser, cfg: Config): nat -> Attempt {
    (k: nat) => AttemptOf(step, idx + 1, b.attempt(idx, k), b.ratio, cfg)
  }

  /** Attempts `k`, `k + 1`, … of step number `n`, stopping at the first that records; `last` is the error so far. */
  function Tries(attempts: nat -> Attempt, n: int, k: nat, last: Option<string>): Tried
    decreases Retries - k
  {
    if k >= Retries then Tried([], [], None, last)
    else
      var a := attempts(k);
      match a.outcome
      case Recorded(r) => Tried(a.logs, a.effects, Some(r), last)
      case Raised(e) =>
        var rest := Tries(attempts, n, k + 1, Some(e));
        Tried(a.logs + [AttemptFailedLog(n, k + 1, e)] + rest.logs, a.effects + rest.effects, rest.record, rest.lastError)
      case FellThrough =>
        var rest := Tries(attempts, n, k + 1, last);
        Tried(a.logs + rest.logs, a.effects + rest.effects, rest.record, rest.lastError)
  }

  /** How a step ends: with its one record, or with an error that ends the whole run. */
  datatype StepEnd =
    | Finished(logs: seq<string>, effects: seq<Effect>, record: Record)
    | Fatal(logs: seq<string>, effects: seq<Effect>, error: string)

  /** `str(last_error)`: Python prints a missing error as `None`. */
  function ErrorText(e: Option<string>): string {
    if e.Some? then e.value else "None"
  }

  /** The line logged when every attempt of step `n` failed. */
  function ExhaustedLog(n: int): string {
    "Step " + IntToString(n) + " FAILED after all attempts."
  }

  /**
   * Step `idx` of a run: its attempts, then, when none recorded, the FAIL
   * record; building it upper-cases `step["type"]`, which raises out of the
   * run when the key is missing.
   */
  function StepOf(step: Step, idx: nat, b: Browser, cfg: Config): StepEnd {
    StepAfter(step, idx, Tries(AttemptsOf(step, idx, b, cfg), idx + 1, 0, None), b.finalCamera(idx))
  }

  /** How step `idx` ends once its attempts came to `t`; `camera` takes the FAIL screenshot. */
  function StepAfter(step: Step, idx: nat, t: Tried, camera: Camera): StepEnd {
    var n := idx + 1;
    if t.record.Some? then Finished(t.logs, t.effects, t.record.value)
    else
      var exhausted := t.logs + [ExhaustedLog(n)];
      match step.kind
      case None => Fatal(exhausted, t.effects, KeyError("type"))
      case Some(kind) =>
        var (shotLogs, shot) := Snap(n, "FAIL", camera);
        var target := if step.value.Some? then step.value.value else "";
        Finished(exhausted + shotLogs, t.effects, Record(n, Upper(kind), target, "FAIL", Some(ErrorText(t.lastError)), shot))
  }

  // ---------------------------------------------------------------- the run

  /** The state of a run after some steps: records, logs, commands, and the fatal error if one ended it. */
  datatype Progress = Progress(results: seq<Record>, logs: seq<string>, effects: seq<Effect>, fatal: Option<string>)

  /** How each step ends in a run on browser `b`: step `steps[j]` is `ends(steps[j], j)`. */
  function StepEnds(b: Browser, cfg: Config): (Step, nat) -> StepEnd {
    (step: Step, idx: nat) => StepOf(step, idx, b, cfg)
  }

  /** The run after its first `i` steps; after a fatal error nothing more happens. */
  function RunUpTo(ends: (Step, nat) -> StepEnd, steps: seq<Step>, i: nat): Progress
    requires i <= |steps|
  {
    if i == 0 then Progress([], [], [], None)
    else
      var p := RunUpTo(ends, steps, i - 1);
      if p.fatal.Some? then p
      else
        match ends(steps[i - 1], i - 1)
        case Finished(logs, effects, r) => Progress(p.results + [r], p.logs + logs, p.effects + effects, None)
        case Fatal(logs, effects, e) => Progress(p.results, p.logs + logs, p.effects + effects, Some(e))
  }

  /** Once an error has escaped, later steps change nothing. */
  lemma {:induction false} FatalStays(ends: (Step, nat) -> StepEnd, steps: seq<Step>, i: nat, j: nat)
    requires i <= j <= |steps|
    requires RunUpTo(ends, steps, i).fatal.Some?
    ensures RunUpTo(ends, steps, j) == RunUpTo(ends, steps, i)
    decreases j
  {
    if j > i {
      FatalStays(ends, steps, i, j - 1);
    }
  }

  /** The one record `run_test` returns when an error escapes the steps. */
  function SystemRecord(e: string): Record {
    Record(1, "SYSTEM", "Playwright", "FAIL", Some("Fatal error handled: " + e), Absent)
  }

  /** What `run_test(steps)` returns, looking for the texts in `cfg`: the records and the logs. */
  function RunTestResult(steps: seq<Step>, b: Browser, cfg: Config): (seq<Record>, seq<string>) {
    match b.launch
    case Some(e) => ([SystemRecord(e)], [])
    case None =>
      var p := RunUpTo(StepEnds(b, cfg), steps, |steps|);
      if p.fatal.Some? then ([SystemRecord(p.fatal.value)], p.logs)
      else
        match b.close
        case Some(e) => ([SystemRecord(e)], p.logs)
        case None => (p.results, p.logs)
  }

  /** The commands a run issues to the browser. */
  function RunCommands(steps: seq<Step>, b: Browser, cfg: Config): seq<Effect> {
    if b.launch.Some? then [] else RunUpTo(StepEnds(b, cfg), steps, |steps|).effects
  }
}
