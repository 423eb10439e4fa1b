/**
 * The step generator (`generate_playwright_steps`): parsed actions become
 * executor steps.  `open` becomes `goto` with a normalised URL; `search`,
 * `click`, `type` and `verify` are copied; every other action is dropped.
 */
module Generator {
  import opened Wrappers
  import opened Text
  import opened Parser
  import opened Steps

  /** The step types the generator can emit. */
  const EmittedKinds: set<string> := {"goto", "search", "click", "type", "verify"}

  /** The scheme-prefixed URL: `https://` is added unless the value starts with `http`. */
  function WithScheme(v: string): (r: string)
    ensures StartsWith(v, "http") ==> r == v
    ensures !StartsWith(v, "http") ==> |r| == 8 + |v| && r[..8] == "https://" && r[8..] == v
  {
    if StartsWith(v, "http") then v else "https://" + v
  }

  /** The URL with `.com` appended when it holds no dot. */
  function WithDomain(v: string): (r: string)
    ensures '.' in v ==> r == v
    ensures '.' !in v ==> |r| == |v| + 4 && r[..|v|] == v && r[|v|..] == ".com"
  {
    if '.' in v then v else v + ".com"
  }

  /** Lines 8-11 of the generator: scheme first, then the `.com` suffix. */
  function NormalizeUrl(v: string): string {
    WithDomain(WithScheme(v))
  }

  /** A normalised URL starts with `http` and holds a dot. */
  predicate Normalized(u: string) {
    StartsWith(u, "http") && '.' in u
  }

  /** Every normalised URL is normalised: it starts with `http` and holds a dot. */
  lemma NormalizeUrlNormalized(v: string)
    ensures Normalized(NormalizeUrl(v))
  {
    var w := WithScheme(v);
    assert StartsWith(w, "http") by {
      if !StartsWith(v, "http") {
        assert w[..4] == w[..8][..4] == "http";
      }
    }
    var u := WithDomain(w);
    if '.' !in w {
      assert u[|w|] == '.';
      assert u[..4] == w[..4];
    }
  }

  /** A normalised URL is left unchanged by normalisation. */
  lemma NormalizedFixed(u: string)
    requires Normalized(u)
    ensures NormalizeUrl(u) == u
  {
  }

  /** Normalising twice is normalising once. */
  lemma NormalizeUrlIdempotent(v: string)
    ensures NormalizeUrl(NormalizeUrl(v)) == NormalizeUrl(v)
  {
    NormalizeUrlNormalized(v);
    NormalizedFixed(NormalizeUrl(v));
  }

  /** The value survives normalisation: it sits in the URL right after any added scheme. */
  lemma NormalizeUrlKeepsValue(v: string)
    ensures var u := NormalizeUrl(v); var k := if StartsWith(v, "http") then 0 else 8;
      k + |v| <= |u| && u[k..k + |v|] == v && |u| <= |v| + 12
  {
    var w := WithScheme(v);
    var u := WithDomain(w);
    var k := if StartsWith(v, "http") then 0 else 8;
    assert w[k..] == v;
    assert u[..|w|] == w;
    assert u[k..k + |v|] == w[k..k + |v|];
  }

  /** The step one parsed action yields, if any. */
  function StepFor(a: Action): (r: Option<Step>)
    ensures r.Some? ==> r.value.kind.Some? && r.value.kind.value in EmittedKinds && r.value.value.Some?
    ensures r.Some? <==> (a.Open? || a.Search? || a.Click? || a.Type? || a.Verify?)
    ensures a.Open? ==> r.value.kind == Some("goto") && r.value.value == Some(NormalizeUrl(a.value)) && r.value.target.None?
    ensures a.Search? ==> r.value.kind == Some("search") && r.value.value == Some(a.value) && r.value.target.None?
    ensures a.Click? ==> r.value.kind == Some("click") && r.value.value == Some(a.value) && r.value.target.None?
    ensures a.Type? ==> r.value.kind == Some("type") && r.value.value == Some(a.value) && r.value.target == Some(a.target)
    ensures a.Verify? ==> r.value.kind == Some("verify") && r.value.value == Some(a.value) && r.value.target.None?
  {
    match a
    case Open(v) => Some(Step(Some("goto"), Some(NormalizeUrl(v)), None))
    case Search(v) => Some(Step(Some("search"), Some(v), None))
    case Click(v) => Some(Step(Some("click"), Some(v), None))
    case Type(v, t) => Some(Step(Some("type"), Some(v), Some(t)))
    case Verify(v) => Some(Step(Some("verify"), Some(v), None))
    case _ => None
  }

  /** What `generate_playwright_steps(parsed)` returns. */
  function Generate(actions: seq<Action>): seq<Step> {
    if actions == [] then []
    else
      var init := Generate(actions[..|actions| - 1]);
      match StepFor(actions[|actions| - 1])
      case Some(s) => init + [s]
      case None => init
  }

  /** `generate_playwright_steps`: one pass over the actions, appending each one's step. */
  method GeneratePlaywrightSteps(parsed: seq<Action>) returns (codeSteps: seq<Step>)
    ensures codeSteps == Generate(parsed)
  {
    codeSteps := [];
    for i := 0 to |parsed|
      invariant codeSteps == Generate(parsed[..i])
    {
      assert parsed[..i + 1][..i] == parsed[..i];
      var step := parsed[i];
      match step {
        case Open(v) =>
          var val := v;
          if !StartsWith(val, "http") {
            val := "https://" + val;
          }
          if '.' !in val {
            val := val + ".com";
          }
          codeSteps := codeSteps + [Step(Some("goto"), Some(val), None)];
        case Search(v) =>
          codeSteps := codeSteps + [Step(Some("search"), Some(v), None)];
        case Click(v) =>
          codeSteps := codeSteps + [Step(Some("click"), Some(v), None)];
        case Type(v, t) =>
          codeSteps := codeSteps + [Step(Some("type"), Some(v), Some(t))];
        case Verify(v) =>
          codeSteps := codeSteps + [Step(Some("verify"), Some(v), None)];
        case _ =>
      }
    }
    assert parsed[..|parsed|] == parsed;
  }

  /** Generating for two lists one after the other is generating for each, in order. */
  lemma {:induction false} GenerateAppend(a: seq<Action>, b: seq<Action>)
    ensures Generate(a + b) == Generate(a) + Generate(b)
  {
    if b != [] {
      var n := |b| - 1;
      GenerateAppend(a, b[..n]);
      assert (a + b)[..|a + b| - 1] == a + b[..n];
      assert (a + b)[|a + b| - 1] == b[n];
    } else {
      assert a + b == a;
    }
  }

  /** The output is never longer than the input. */
  lemma {:induction false} GenerateNoLonger(actions: seq<Action>)
    ensures |Generate(actions)| <= |actions|
  {
    if actions != [] {
      GenerateNoLonger(actions[..|actions| - 1]);
    }
  }

  /**
   * Every output step is a `goto`, `search`, `click`, `type` or `verify`
   * step carrying a value: hover, select, wait and scroll never reach the
   * executor.
   */
  lemma {:induction false} GenerateKinds(actions: seq<Action>)
    ensures forall s :: s in Generate(actions) ==> s.kind.Some? && s.kind.value in EmittedKinds && s.value.Some?
  {
    if actions != [] {
      GenerateKinds(actions[..|actions| - 1]);
    }
  }

  /** An action the generator does not handle contributes no step, wherever it stands. */
  lemma DropsUnhandled(a: seq<Action>, x: Action, b: seq<Action>)
    requires x.Hover? || x.Select? || x.Wait? || x.Scroll?
    ensures Generate(a + [x] + b) == Generate(a) + Generate(b)
  {
    GenerateAppend(a + [x], b);
    GenerateAppend(a, [x]);
    assert Generate([x]) == [] by {
      assert [x][..0] == [];
    }
  }

  /** Each handled action yields exactly its step, in place. */
  lemma KeepsHandled(a: seq<Action>, x: Action, b: seq<Action>)
    requires StepFor(x).Some?
    ensures Generate(a + [x] + b) == Generate(a) + [StepFor(x).value] + Generate(b)
  {
    GenerateAppend(a + [x], b);
    GenerateAppend(a, [x]);
    assert Generate([x]) == [StepFor(x).value] by {
      assert [x][..0] == [];
    }
  }

  /** An `open` action becomes a `goto` step whose URL is normalised. */
  lemma OpenBecomesGoto(v: string)
    ensures Generate([Open(v)]) == [Step(Some("goto"), Some(NormalizeUrl(v)), None)]
    ensures Normalized(NormalizeUrl(v))
  {
    assert [Open(v)][..0] == [];
    NormalizeUrlNormalized(v);
  }
}
