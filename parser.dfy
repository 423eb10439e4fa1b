/**
 * The instruction parser (`parse_instruction`): plain-text test steps, one
 * per line, become parsed actions.  Each line is stripped, a leading step
 * number is removed, and the first command word that matches decides how
 * the value (and, for `type` and `select`, the target) is extracted.
 *
 * The regular expressions of the source are written out as functions over
 * positions; `re.IGNORECASE` is modelled by comparing the lower-cased text
 * with lower-case literals.
 */
module Parser {
  import opened Wrappers
  import opened Text

  /** A parsed action, one per dictionary `parse_instruction` appends. */
  datatype Action =
    | Open(value: string)
    | Search(value: string)
    | Click(value: string)
    | Type(value: string, target: string)
    | Hover(value: string)
    | Select(value: string, target: string)
    | Wait(seconds: nat)
    | Scroll(direction: string)
    | Verify(value: string)

  // ---------------------------------------------------------------- regex pieces

  /** The number of white-space characters from `i` on: what a greedy `\s*` takes. */
  function SpaceRun(s: string, i: nat): (n: nat)
    requires i <= |s|
    ensures i + n <= |s|
    ensures forall k :: i <= k < i + n ==> IsSpace(s[k])
    ensures i + n == |s| || !IsSpace(s[i + n])
    decreases |s| - i
  {
    if i < |s| && IsSpace(s[i]) then 1 + SpaceRun(s, i + 1) else 0
  }

  /** The number of decimal digits from `i` on: what a greedy `\d*` takes. */
  function DigitRun(s: string, i: nat): (n: nat)
    requires i <= |s|
    ensures i + n <= |s|
    ensures forall k :: i <= k < i + n ==> IsDigit(s[k])
    ensures i + n == |s| || !IsDigit(s[i + n])
    decreases |s| - i
  {
    if i < |s| && IsDigit(s[i]) then 1 + DigitRun(s, i + 1) else 0
  }

  /** The lower-case literal `w` matches at `i`, ignoring case. */
  predicate WordAt(s: string, w: string, i: nat) {
    i + |w| <= |s| && Lower(s[i..i + |w|]) == w
  }

  predicate IsQuote(c: char) {
    c == '"' || c == '\''
  }

  /** `^w\s+` matches `s`, ignoring case. */
  predicate Prefixed(s: string, w: string) {
    WordAt(s, w, 0) && SpaceRun(s, |w|) > 0
  }

  /** `v` is a contiguous piece of `s`. */
  predicate SliceOf(v: string, s: string) {
    exists a, b :: 0 <= a <= b <= |s| && v == s[a..b]
  }

  /** A piece of a piece of `s` is a piece of `s`. */
  lemma SliceTrans(u: string, v: string, s: string)
    requires SliceOf(u, v) && SliceOf(v, s)
    ensures SliceOf(u, s)
  {
    var a, b :| 0 <= a <= b <= |v| && u == v[a..b];
    var c, d :| 0 <= c <= d <= |s| && v == s[c..d];
    assert u == s[c + a..c + b] by {
      assert |u| == |s[c + a..c + b]|;
      forall i | 0 <= i < |u|
        ensures u[i] == s[c + a..c + b][i]
      {
        assert u[i] == v[a + i];
        assert v[a + i] == s[c + a + i];
      }
    }
  }

  /** `re.sub(r'^w\s+', '', s, flags=re.IGNORECASE)` */
  function DropCommand(s: string, w: string): (r: string)
    ensures |r| <= |s| && r == s[|s| - |r|..]
  {
    if Prefixed(s, w) then s[|w| + SpaceRun(s, |w|)..] else s
  }

  /** `^(w1|w2|…)\s+`: the alternatives are tried in order. */
  function DropFirstCommand(s: string, words: seq<string>): (r: string)
    ensures |r| <= |s| && r == s[|s| - |r|..]
  {
    if words == [] then s
    else if Prefixed(s, words[0]) then DropCommand(s, words[0])
    else DropFirstCommand(s, words[1..])
  }

  /** `^w\s+(o\s+)?`: the optional word goes only when the command word matched. */
  function DropCommandThen(s: string, w: string, o: string): (r: string)
    ensures |r| <= |s| && r == s[|s| - |r|..]
  {
    if Prefixed(s, w) then DropCommand(DropCommand(s, w), o) else s
  }

  /** `v.strip().strip('"').strip("'")` */
  function CleanValue(v: string): (r: string)
    ensures SliceOf(r, v)
    ensures r == [] || (r[0] != '\'' && r[|r| - 1] != '\'')
  {
    CleanSlice(v);
    StripChar(StripChar(Strip(v), '"'), '\'')
  }

  /** Each of the three strips keeps a slice, so together they do. */
  lemma CleanSlice(v: string)
    ensures SliceOf(StripChar(StripChar(Strip(v), '"'), '\''), v)
  {
    var t := Strip(v);
    var w := StripChar(t, '"');
    StripSlice(v);
    StripCharSlice(t, '"');
    StripCharSlice(w, '\'');
    SliceTrans(w, t, v);
    SliceTrans(StripChar(w, '\''), w, v);
  }

  /** `re.sub(r'^\d+\.?\s*', '', s)`: one leading step number. */
  function StripNumber(s: string): (r: string)
    ensures |r| <= |s| && r == s[|s| - |r|..]
    ensures s == [] || !IsDigit(s[0]) ==> r == s
  {
    var d := DigitRun(s, 0);
    if d == 0 then s
    else
      var j := if d < |s| && s[d] == '.' then d + 1 else d;
      s[j + SpaceRun(s, j)..]
  }

  /** The first quote at or after `i`. */
  function QuoteFrom(s: string, i: nat): (r: Option<nat>)
    ensures r.Some? ==> i <= r.value < |s| && IsQuote(s[r.value])
                        && forall k :: i <= k < r.value ==> !IsQuote(s[k])
    ensures r.None? ==> forall k :: i <= k < |s| ==> !IsQuote(s[k])
    decreases |s| - i
  {
    if i >= |s| then None
    else if IsQuote(s[i]) then Some(i)
    else QuoteFrom(s, i + 1)
  }

  /** `\s+kw\s+["'](.+?)["']` matched at `i`: the second group, if the tail matches. */
  function Tail(s: string, i: nat, kw: string): (r: Option<string>)
    ensures r.Some? ==> r.value != []
  {
    if i > |s| then None
    else
      var a := SpaceRun(s, i);
      if a == 0 || !WordAt(s, kw, i + a) then None
      else
        var j := i + a + |kw|;
        var b := SpaceRun(s, j);
        if b == 0 || j + b >= |s| || !IsQuote(s[j + b]) then None
        else
          match QuoteFrom(s, j + b + 2)
          case Some(f) => Some(s[j + b + 1..f])
          case None => None
  }

  /**
   * The lazy first group `(.+?)` opened by the quote at `q`: the first
   * quote from `e` on after which the tail matches closes it.
   */
  function LazyGroup(s: string, q: nat, e: nat, kw: string): (r: Option<(string, string)>)
    requires q + 1 < e
    ensures r.Some? ==> r.value.0 != [] && r.value.1 != []
    decreases |s| - e
  {
    if e >= |s| then None
    else if IsQuote(s[e]) && Tail(s, e + 1, kw).Some? then Some((s[q + 1..e], Tail(s, e + 1, kw).value))
    else LazyGroup(s, q, e + 1, kw)
  }

  /** `cmd\s+["'](.+?)["']\s+kw\s+["'](.+?)["']` matched at `p`. */
  function PairAt(s: string, p: nat, cmd: string, kw: string): (r: Option<(string, string)>)
    ensures r.Some? ==> r.value.0 != [] && r.value.1 != []
  {
    if !WordAt(s, cmd, p) then None
    else
      var i := p + |cmd|;
      var a := SpaceRun(s, i);
      if a == 0 || i + a >= |s| || !IsQuote(s[i + a]) then None
      else LazyGroup(s, i + a, i + a + 2, kw)
  }

  /** `re.search` of that pattern: the leftmost start from `p` on where it matches. */
  function PairFrom(s: string, p: nat, cmd: string, kw: string): (r: Option<(string, string)>)
    ensures r.Some? ==> r.value.0 != [] && r.value.1 != []
    decreases |s| - p
  {
    if p >= |s| then None
    else
      match PairAt(s, p, cmd, kw)
      case Some(pair) => Some(pair)
      case None => PairFrom(s, p + 1, cmd, kw)
  }

  /** `re.search(r'wait\s+(\d+)', s, re.IGNORECASE)` from `p` on, then `int` of the group. */
  function WaitFrom(s: string, p: nat): Option<nat>
    decreases |s| - p
  {
    if p >= |s| then None
    else if WordAt(s, "wait", p) && SpaceRun(s, p + 4) > 0 && DigitRun(s, p + 4 + SpaceRun(s, p + 4)) > 0 then
      var j := p + 4 + SpaceRun(s, p + 4);
      var digits := s[j..j + DigitRun(s, j)];
      assert AllDigits(digits) by {
        forall k | 0 <= k < |digits| ensures IsDigit(digits[k]) {
          assert digits[k] == s[j + k];
        }
      }
      Some(DigitsValue(digits))
    else WaitFrom(s, p + 1)
  }

  // ---------------------------------------------------------------- dispatch

  /** The branch of the `if`/`elif` chain a line takes. */
  datatype Command =
    | OpenCommand | SearchCommand | ClickCommand | TypeCommand | HoverCommand
    | SelectCommand | WaitCommand | ScrollCommand | VerifyCommand | NoCommand

  const OpenWords: seq<string> := ["open", "goto", "navigate to"]
  const VerifyWords: seq<string> := ["verify", "check", "analyze", "validate"]

  /** The command chosen for the lower-cased line: the first test in the chain that holds. */
  function Dispatch(lower: string): Command {
    if StartsWith(lower, "open") || StartsWith(lower, "goto") || StartsWith(lower, "navigate to") then OpenCommand
    else if StartsWith(lower, "search") then SearchCommand
    else if StartsWith(lower, "click") then ClickCommand
    else if StartsWith(lower, "type") then TypeCommand
    else if StartsWith(lower, "hover") then HoverCommand
    else if StartsWith(lower, "select") then SelectCommand
    else if StartsWith(lower, "wait") then WaitCommand
    else if StartsWith(lower, "scroll") then ScrollCommand
    else if Contains(lower, "verify") || Contains(lower, "check") || Contains(lower, "analyze") || Contains(lower, "validate") then VerifyCommand
    else NoCommand
  }

  /** Action `a` is of the kind branch `cmd` of the chain yields. */
  predicate Yields(cmd: Command, a: Action) {
    && (a.Open? <==> cmd == OpenCommand) && (a.Search? <==> cmd == SearchCommand)
    && (a.Click? <==> cmd == ClickCommand) && (a.Type? <==> cmd == TypeCommand)
    && (a.Hover? <==> cmd == HoverCommand) && (a.Select? <==> cmd == SelectCommand)
    && (a.Wait? <==> cmd == WaitCommand) && (a.Scroll? <==> cmd == ScrollCommand)
    && (a.Verify? <==> cmd == VerifyCommand)
  }

  /** A value the parser yields: a piece of the line, with no single quote at either end. */
  predicate ValueFrom(v: string, clean: string) {
    SliceOf(v, clean) && (v == [] || (v[0] != '\'' && v[|v| - 1] != '\''))
  }

  /**
   * The step a cleaned, renumbered line yields, if any.  The step is the
   * one of the branch the line dispatches to; a line yields none exactly
   * when no branch applies or when the `type`, `select` or `wait` pattern
   * does not match; every value is copied out of the line.
   */
  function Extract(clean: string): (r: Option<Action>)
    ensures var cmd := Dispatch(Lower(clean));
      r.None? <==> (cmd == NoCommand
                    || (cmd == TypeCommand && PairFrom(clean, 0, "type", "into").None?)
                    || (cmd == SelectCommand && PairFrom(clean, 0, "select", "from").None?)
                    || (cmd == WaitCommand && WaitFrom(clean, 0).None?))
    ensures var cmd := Dispatch(Lower(clean));
      r.Some? ==> Yields(cmd, r.value)
    ensures r.Some? && (r.value.Open? || r.value.Search? || r.value.Click? || r.value.Hover? || r.value.Verify?) ==>
      ValueFrom(r.value.value, clean)
    ensures r.Some? && (r.value.Type? || r.value.Select?) ==>
      r.value.value != [] && r.value.target != []
    ensures r.Some? && r.value.Scroll? ==>
      (r.value.direction == "up" || r.value.direction == "down") && (r.value.direction == "up" <==> Contains(Lower(clean), "up"))
  {
    BranchValues(Dispatch(Lower(clean)), clean);
    Branch(Dispatch(Lower(clean)), clean)
  }

  /** The body of the branch `cmd` of the chain, applied to the line. */
  function Branch(cmd: Command, clean: string): (r: Option<Action>)
    ensures r.None? <==> (cmd == NoCommand
                          || (cmd == TypeCommand && PairFrom(clean, 0, "type", "into").None?)
                          || (cmd == SelectCommand && PairFrom(clean, 0, "select", "from").None?)
                          || (cmd == WaitCommand && WaitFrom(clean, 0).None?))
    ensures r.Some? ==> Yields(cmd, r.value)
  {
    match cmd
    case OpenCommand => Some(Open(CleanValue(DropFirstCommand(clean, OpenWords))))
    case SearchCommand => Some(Search(CleanValue(DropCommandThen(clean, "search", "for"))))
    case ClickCommand => Some(Click(CleanValue(DropCommandThen(clean, "click", "on"))))
    case TypeCommand =>
      (match PairFrom(clean, 0, "type", "into")
       case Some(pair) => Some(Type(pair.0, pair.1))
       case None => None)
    case HoverCommand => Some(Hover(CleanValue(DropCommandThen(clean, "hover", "over"))))
    case SelectCommand =>
      (match PairFrom(clean, 0, "select", "from")
       case Some(pair) => Some(Select(pair.0, pair.1))
       case None => None)
    case WaitCommand =>
      (match WaitFrom(clean, 0)
       case Some(n) => Some(Wait(n))
       case None => None)
    case ScrollCommand => Some(Scroll(if Contains(Lower(clean), "up") then "up" else "down"))
    case VerifyCommand => Some(Verify(CleanValue(DropFirstCommand(clean, VerifyWords))))
    case NoCommand => None
  }

  /** The values a branch yields are copied out of the line; a scroll goes up or down. */
  lemma BranchValues(cmd: Command, clean: string)
    ensures var r := Branch(cmd, clean);
      r.Some? && (r.value.Open? || r.value.Search? || r.value.Click? || r.value.Hover? || r.value.Verify?) ==>
        ValueFrom(r.value.value, clean)
    ensures var r := Branch(cmd, clean);
      r.Some? && (r.value.Type? || r.value.Select?) ==> r.value.value != [] && r.value.target != []
    ensures var r := Branch(cmd, clean);
      r.Some? && r.value.Scroll? ==>
        (r.value.direction == "up" || r.value.direction == "down") && (r.value.direction == "up" <==> Contains(Lower(clean), "up"))
  {
    match cmd
    case OpenCommand => SuffixValueFrom(DropFirstCommand(clean, OpenWords), clean);
    case SearchCommand => SuffixValueFrom(DropCommandThen(clean, "search", "for"), clean);
    case ClickCommand => SuffixValueFrom(DropCommandThen(clean, "click", "on"), clean);
    case HoverCommand => SuffixValueFrom(DropCommandThen(clean, "hover", "over"), clean);
    case VerifyCommand => SuffixValueFrom(DropFirstCommand(clean, VerifyWords), clean);
    case _ =>
  }

  /** The cleaned value of a suffix of the line is copied out of the line. */
  lemma SuffixValueFrom(rest: string, clean: string)
    requires |rest| <= |clean| && rest == clean[|clean| - |rest|..]
    ensures ValueFrom(CleanValue(rest), clean)
  {
    assert rest == clean[|clean| - |rest|..|clean|];
    SliceTrans(CleanValue(rest), rest, clean);
  }

  /** The step one input line yields: none for a blank line. */
  function ParseLine(line: string): Option<Action> {
    var stripped := Strip(line);
    if stripped == [] then None else Extract(StripNumber(stripped))
  }

  /**
   * The steps a list of lines yields under the per-line rule `f`, in line
   * order: a line that yields no step is skipped.
   */
  function Collect(f: string -> Option<Action>, lines: seq<string>): seq<Action> {
    if lines == [] then []
    else
      var init := Collect(f, lines[..|lines| - 1]);
      match f(lines[|lines| - 1])
      case Some(a) => init + [a]
      case None => init
  }

  /** What `parse_instruction(text)` returns. */
  function Parse(text: string): seq<Action> {
    Collect(ParseLine, Split(text, '\n'))
  }

  /** `parse_instruction(text)`: one pass over the lines, appending each line's step. */
  method ParseInstruction(text: string) returns (steps: seq<Action>)
    ensures steps == Parse(text)
  {
    var lines := Split(text, '\n');
    steps := [];
    for i := 0 to |lines|
      invariant steps == Collect(ParseLine, lines[..i])
    {
      assert lines[..i + 1][..i] == lines[..i];
      var lineClean := Strip(lines[i]);
      if lineClean == [] {
        continue;
      }
      lineClean := StripNumber(lineClean);
      var step := Extract(lineClean);
      if step.Some? {
        steps := steps + [step.value];
      }
    }
    assert lines[..|lines|] == lines;
  }

  // ---------------------------------------------------------------- order

  /** The steps of two blocks of lines are the steps of each, in order. */
  lemma {:induction false} CollectAppend(f: string -> Option<Action>, a: seq<string>, b: seq<string>)
    ensures Collect(f, a + b) == Collect(f, a) + Collect(f, b)
  {
    if b != [] {
      var n := |b| - 1;
      CollectAppend(f, a, b[..n]);
      assert (a + b)[..|a + b| - 1] == a + b[..n];
      assert (a + b)[|a + b| - 1] == b[n];
    } else {
      assert a + b == a;
    }
  }

  /** Lines that yield no step contribute nothing. */
  lemma {:induction false} CollectNone(f: string -> Option<Action>, lines: seq<string>)
    requires forall k :: 0 <= k < |lines| ==> f(lines[k]) == None
    ensures Collect(f, lines) == []
  {
    if lines != [] {
      CollectNone(f, lines[..|lines| - 1]);
    }
  }

  /** Lines that each yield one step yield exactly those steps, in order. */
  lemma {:induction false} CollectEach(f: string -> Option<Action>, lines: seq<string>, actions: seq<Action>)
    requires |lines| == |actions|
    requires forall k :: 0 <= k < |lines| ==> f(lines[k]) == Some(actions[k])
    ensures Collect(f, lines) == actions
  {
    if lines != [] {
      var n := |lines| - 1;
      CollectEach(f, lines[..n], actions[..n]);
      assert actions[..n] + [actions[n]] == actions;
    }
  }

  /** Instructions written one after the other parse to their steps one after the other. */
  lemma ParseConcat(x: string, y: string)
    ensures Parse(x + "\n" + y) == Parse(x) + Parse(y)
  {
    SplitAppend(x, y, '\n');
    CollectAppend(ParseLine, Split(x, '\n'), Split(y, '\n'));
  }

  /** A text whose every line is blank yields no steps. */
  lemma BlankTextNoSteps(text: string)
    requires forall k :: 0 <= k < |Split(text, '\n')| ==> Strip(Split(text, '\n')[k]) == []
    ensures Parse(text) == []
  {
    CollectNone(ParseLine, Split(text, '\n'));
  }

  // ---------------------------------------------------------------- step numbers

  lemma {:induction false} DigitRunAll(s: string, i: nat)
    requires i <= |s| && forall k :: i <= k < |s| ==> IsDigit(s[k])
    ensures DigitRun(s, i) == |s| - i
    decreases |s| - i
  {
    if i < |s| {
      DigitRunAll(s, i + 1);
    }
  }

  lemma {:induction false} DigitRunUpTo(s: string, i: nat, j: nat)
    requires i <= j < |s| && !IsDigit(s[j]) && forall k :: i <= k < j ==> IsDigit(s[k])
    ensures DigitRun(s, i) == j - i
    decreases j - i
  {
    if i < j {
      DigitRunUpTo(s, i + 1, j);
    }
  }

  /** A numbered line `"<n>. rest"` loses exactly its number, dot and following space. */
  lemma StripNumberNumbered(n: nat, rest: string)
    requires rest == [] || !IsSpace(rest[0])
    ensures StripNumber(NatToString(n) + ". " + rest) == rest
  {
    var digits := NatToString(n);
    var s := digits + ". " + rest;
    assert s[|digits|] == '.' && s[|digits| + 1] == ' ';
    DigitRunUpTo(s, 0, |digits|);
    if rest != [] {
      assert s[|digits| + 2] == rest[0];
    }
    assert SpaceRun(s, |digits| + 2) == 0;
    assert s[|digits| + 2..] == rest;
  }

  // ---------------------------------------------------------------- round trip

  /** A value that extraction leaves as it is: trimmed, on one line, no quote at either end. */
  predicate Plain(v: string) {
    v != [] && '\n' !in v && Trimmed(v) && !IsQuote(v[0]) && !IsQuote(v[|v| - 1])
  }

  /** A value that can sit between quotes: non-empty, on one line, with no quote at all. */
  predicate Unquoted(v: string) {
    v != [] && '\n' !in v && forall k :: 0 <= k < |v| ==> !IsQuote(v[k])
  }

  /** The actions a canonical instruction line can express. */
  predicate WellFormed(a: Action) {
    match a
    case Open(v) => Plain(v)
    case Search(v) => Plain(v) && !Prefixed(v, "for")
    case Click(v) => Plain(v) && !Prefixed(v, "on")
    case Type(v, t) => Unquoted(v) && Unquoted(t)
    case Hover(v) => Plain(v) && !Prefixed(v, "over")
    case Select(v, t) => Unquoted(v) && Unquoted(t)
    case Wait(_) => true
    case Scroll(d) => d == "up" || d == "down"
    case Verify(v) => Plain(v)
  }

  /** A command word, one space, and a value. */
  function CommandText(w: string, v: string): string {
    w + " " + v
  }

  /** The canonical `cmd "v" kw "t"` line. */
  function PairLine(cmd: string, v: string, kw: string, t: string): string {
    cmd + " \"" + v + "\" " + kw + " \"" + t + "\""
  }

  /** A non-empty lower-case word of ASCII letters. */
  predicate Word(w: string) {
    w != [] && forall k :: 0 <= k < |w| ==> IsLower(w[k])
  }

  /** The canonical instruction line for an action. */
  function Format(a: Action): string {
    match a
    case Open(v) => CommandText("open", v)
    case Search(v) => CommandText("search", v)
    case Click(v) => CommandText("click", v)
    case Type(v, t) => PairLine("type", v, "into", t)
    case Hover(v) => CommandText("hover", v)
    case Select(v, t) => PairLine("select", v, "from", t)
    case Wait(n) => CommandText("wait", NatToString(n))
    case Scroll(d) => CommandText("scroll", d)
    case Verify(v) => CommandText("verify", v)
  }

  /** A lower-case command word followed by one space and a plain value. */
  lemma CommandLine(w: string, v: string)
    requires Word(w) && Plain(v)
    ensures var line := CommandText(w, v);
      && Strip(line) == line && StripNumber(line) == line
      && Prefixed(line, w) && DropCommand(line, w) == v
      && Lower(line)[..|w|] == w
  {
    CommandLineClean(w, v);
    CommandLineDrop(w, v);
  }

  lemma CommandLineClean(w: string, v: string)
    requires Word(w) && Plain(v)
    ensures var line := CommandText(w, v);
      Strip(line) == line && StripNumber(line) == line
  {
    var line := CommandText(w, v);
    assert line[0] == w[0] && line[|line| - 1] == v[|v| - 1];
    StripTrimmed(line);
  }

  lemma CommandLineDrop(w: string, v: string)
    requires Word(w) && Plain(v)
    ensures var line := CommandText(w, v);
      Prefixed(line, w) && DropCommand(line, w) == v && Lower(line)[..|w|] == w
  {
    var line := CommandText(w, v);
    LowerNoUpper(w);
    assert line[..|w|] == w;
    LowerPrefix(line, w);
    assert WordAt(line, w, 0);
    assert line[|w|] == ' ' && line[|w| + 1] == v[0];
    assert SpaceRun(line, |w| + 1) == 0;
    assert SpaceRun(line, |w|) == 1;
    assert line[|w| + 1..] == v;
  }

  /** A string that starts with a lower-case word still starts with it once lower-cased. */
  lemma LowerPrefix(s: string, w: string)
    requires |w| <= |s| && s[..|w|] == w && Lower(w) == w
    ensures Lower(s)[..|w|] == w
  {
    forall k | 0 <= k < |w| ensures Lower(s)[k] == w[k] {
      assert s[k] == w[k];
      assert Lower(w)[k] == ToLower(w[k]);
    }
  }

  /** A plain value comes out of `CleanValue` unchanged. */
  lemma CleanPlain(v: string)
    requires Plain(v)
    ensures CleanValue(v) == v
  {
    StripTrimmed(v);
    StripCharNoop(v, '"');
    StripCharNoop(v, '\'');
  }

  /** Every well-formed action survives printing and parsing its line. */
  lemma ParseFormat(a: Action)
    requires WellFormed(a)
    ensures ParseLine(Format(a)) == Some(a)
  {
    match a
    case Open(v) => OpenRoundTrip(v);
    case Search(v) => SearchRoundTrip(v);
    case Click(v) => ClickRoundTrip(v);
    case Type(v, t) => TypeRoundTrip(v, t);
    case Hover(v) => HoverRoundTrip(v);
    case Select(v, t) => SelectRoundTrip(v, t);
    case Wait(n) => WaitRoundTrip(n);
    case Scroll(d) => ScrollRoundTrip(d);
    case Verify(v) => VerifyRoundTrip(v);
  }

  /** A line that is already stripped and unnumbered goes straight to extraction. */
  lemma ParseCleanLine(line: string)
    requires line != [] && Strip(line) == line && StripNumber(line) == line
    ensures ParseLine(line) == Extract(line)
  {
  }

  lemma ExtractOpen(clean: string)
    requires Dispatch(Lower(clean)) == OpenCommand
    ensures Extract(clean) == Some(Open(CleanValue(DropFirstCommand(clean, OpenWords))))
  {
  }

  lemma ExtractSearch(clean: string)
    requires Dispatch(Lower(clean)) == SearchCommand
    ensures Extract(clean) == Some(Search(CleanValue(DropCommandThen(clean, "search", "for"))))
  {
  }

  lemma ExtractClick(clean: string)
    requires Dispatch(Lower(clean)) == ClickCommand
    ensures Extract(clean) == Some(Click(CleanValue(DropCommandThen(clean, "click", "on"))))
  {
  }

  lemma ExtractHover(clean: string)
    requires Dispatch(Lower(clean)) == HoverCommand
    ensures Extract(clean) == Some(Hover(CleanValue(DropCommandThen(clean, "hover", "over"))))
  {
  }

  lemma ExtractVerify(clean: string)
    requires Dispatch(Lower(clean)) == VerifyCommand
    ensures Extract(clean) == Some(Verify(CleanValue(DropFirstCommand(clean, VerifyWords))))
  {
  }

  lemma ExtractScroll(clean: string)
    requires Dispatch(Lower(clean)) == ScrollCommand
    ensures Extract(clean) == Some(Scroll(if Contains(Lower(clean), "up") then "up" else "down"))
  {
  }

  lemma ExtractWait(clean: string)
    requires Dispatch(Lower(clean)) == WaitCommand && WaitFrom(clean, 0).Some?
    ensures Extract(clean) == Some(Wait(WaitFrom(clean, 0).value))
  {
  }

  lemma ExtractType(clean: string)
    requires Dispatch(Lower(clean)) == TypeCommand && PairFrom(clean, 0, "type", "into").Some?
    ensures Extract(clean) == Some(Type(PairFrom(clean, 0, "type", "into").value.0, PairFrom(clean, 0, "type", "into").value.1))
  {
  }

  lemma ExtractSelect(clean: string)
    requires Dispatch(Lower(clean)) == SelectCommand && PairFrom(clean, 0, "select", "from").Some?
    ensures Extract(clean) == Some(Select(PairFrom(clean, 0, "select", "from").value.0, PairFrom(clean, 0, "select", "from").value.1))
  {
  }

  /** A string does not start with a word whose first character differs from its own. */
  lemma NotStartsWith(s: string, p: string, i: nat)
    requires i < |s| && i < |p| && s[i] != p[i]
    ensures !StartsWith(s, p)
  {
    if |p| <= |s| {
      assert s[..|p|][i] == s[i];
    }
  }

  /** The command words of the canonical lines are lower-case words. */
  lemma CommandWords()
    ensures Word("open") && Word("search") && Word("click") && Word("hover")
    ensures Word("verify") && Word("scroll") && Word("wait")
    ensures Word("type") && Word("select") && Word("into") && Word("from")
  {
  }

  lemma OpenRoundTrip(v: string)
    requires Plain(v)
    ensures ParseLine(CommandText("open", v)) == Some(Open(v))
  {
    var line := CommandText("open", v);
    OpenLine(v);
    ParseCleanLine(line);
    ExtractOpen(line);
    CleanPlain(v);
  }

  lemma OpenLine(v: string)
    requires Plain(v)
    ensures var line := CommandText("open", v);
      && line != [] && Strip(line) == line && StripNumber(line) == line
      && Dispatch(Lower(line)) == OpenCommand && DropFirstCommand(line, OpenWords) == v
  {
    CommandWords();
    CommandLine("open", v);
    assert OpenWords[0] == "open";
  }

  lemma SearchRoundTrip(v: string)
    requires Plain(v) && !Prefixed(v, "for")
    ensures ParseLine(CommandText("search", v)) == Some(Search(v))
  {
    var line := CommandText("search", v);
    SearchLine(v);
    ParseCleanLine(line);
    ExtractSearch(line);
    CleanPlain(v);
  }

  lemma SearchLine(v: string)
    requires Plain(v) && !Prefixed(v, "for")
    ensures var line := CommandText("search", v);
      && line != [] && Strip(line) == line && StripNumber(line) == line
      && Dispatch(Lower(line)) == SearchCommand && DropCommandThen(line, "search", "for") == v
  {
    CommandWords();
    CommandLine("search", v);
    var lower := Lower(CommandText("search", v));
    assert lower[0] == 's';
    NotStartsWith(lower, "open", 0);
    NotStartsWith(lower, "goto", 0);
    NotStartsWith(lower, "navigate to", 0);

  }

  lemma ClickRoundTrip(v: string)
    requires Plain(v) && !Prefixed(v, "on")
    ensures ParseLine(CommandText("click", v)) == Some(Click(v))
  {
    var line := CommandText("click", v);
    ClickLine(v);
    ParseCleanLine(line);
    ExtractClick(line);
    CleanPlain(v);
  }

  lemma ClickLine(v: string)
    requires Plain(v) && !Prefixed(v, "on")
    ensures var line := CommandText("click", v);
      && line != [] && Strip(line) == line && StripNumber(line) == line
      && Dispatch(Lower(line)) == ClickCommand && DropCommandThen(line, "click", "on") == v
  {
    CommandWords();
    CommandLine("click", v);
    var lower := Lower(CommandText("click", v));
    assert lower[0] == 'c';
    NotStartsWith(lower, "open", 0);
    NotStartsWith(lower, "goto", 0);
    NotStartsWith(lower, "navigate to", 0);
    NotStartsWith(lower, "search", 0);

  }

  lemma HoverRoundTrip(v: string)
    requires Plain(v) && !Prefixed(v, "over")
    ensures ParseLine(CommandText("hover", v)) == Some(Hover(v))
  {
    var line := CommandText("hover", v);
    HoverLine(v);
    ParseCleanLine(line);
    ExtractHover(line);
    CleanPlain(v);
  }

  lemma HoverLine(v: string)
    requires Plain(v) && !Prefixed(v, "over")
    ensures var line := CommandText("hover", v);
      && line != [] && Strip(line) == line && StripNumber(line) == line
      && Dispatch(Lower(line)) == HoverCommand && DropCommandThen(line, "hover", "over") == v
  {
    CommandWords();
    CommandLine("hover", v);
    var lower := Lower(CommandText("hover", v));
    assert lower[0] == 'h';
    NotStartsWith(lower, "open", 0);
    NotStartsWith(lower, "goto", 0);
    NotStartsWith(lower, "navigate to", 0);
    NotStartsWith(lower, "search", 0);
    NotStartsWith(lower, "click", 0);
    NotStartsWith(lower, "type", 0);

  }

  lemma VerifyRoundTrip(v: string)
    requires Plain(v)
    ensures ParseLine(CommandText("verify", v)) == Some(Verify(v))
  {
    var line := CommandText("verify", v);
    VerifyLine(v);
    ParseCleanLine(line);
    ExtractVerify(line);
    CleanPlain(v);
  }

  lemma VerifyLine(v: string)
    requires Plain(v)
    ensures var line := CommandText("verify", v);
      && line != [] && Strip(line) == line && StripNumber(line) == line
      && Dispatch(Lower(line)) == VerifyCommand && DropFirstCommand(line, VerifyWords) == v
  {
    var line := CommandText("verify", v);
    CommandWords();
    CommandLine("verify", v);
    assert Dispatch(Lower(line)) == VerifyCommand by {
      VerifyDispatch(Lower(line));
    }
    assert VerifyWords[0] == "verify";
  }

  /** A lower-cased line starting with `verify` takes the verify branch. */
  lemma VerifyDispatch(lower: string)
    requires |lower| >= 6 && lower[..6] == "verify"
    ensures Dispatch(lower) == VerifyCommand
  {
    NotStartsWith(lower, "open", 0);
    NotStartsWith(lower, "goto", 0);
    NotStartsWith(lower, "navigate to", 0);
    NotStartsWith(lower, "search", 0);
    NotStartsWith(lower, "click", 0);
    NotStartsWith(lower, "type", 0);
    NotStartsWith(lower, "hover", 0);
    NotStartsWith(lower, "select", 0);
    NotStartsWith(lower, "wait", 0);
    NotStartsWith(lower, "scroll", 0);
    assert OccursAt(lower, "verify", 0);
  }

  lemma ScrollRoundTrip(d: string)
    requires d == "up" || d == "down"
    ensures ParseLine(CommandText("scroll", d)) == Some(Scroll(d))
  {
    var line := CommandText("scroll", d);
    ScrollLine(d);
    ScrollUp(d);
    ParseCleanLine(line);
    ExtractScroll(line);
  }

  lemma ScrollLine(d: string)
    requires d == "up" || d == "down"
    ensures var line := CommandText("scroll", d);
      && line != [] && Strip(line) == line && StripNumber(line) == line
      && Dispatch(Lower(line)) == ScrollCommand
  {
    var line := CommandText("scroll", d);
    CommandWords();
    CommandLine("scroll", d);
    assert Dispatch(Lower(line)) == ScrollCommand by {
      ScrollDispatch(Lower(line));
    }
  }

  /** A lower-cased line starting with `scroll` takes the scroll branch. */
  lemma ScrollDispatch(lower: string)
    requires |lower| >= 6 && lower[..6] == "scroll"
    ensures Dispatch(lower) == ScrollCommand
  {
    assert lower[0] == 's' && lower[1] == 'c';
    NotStartsWith(lower, "open", 0);
    NotStartsWith(lower, "goto", 0);
    NotStartsWith(lower, "navigate to", 0);
    NotStartsWith(lower, "click", 0);
    NotStartsWith(lower, "type", 0);
    NotStartsWith(lower, "hover", 0);
    NotStartsWith(lower, "wait", 0);
    NotStartsWith(lower, "search", 1);
    NotStartsWith(lower, "select", 1);
  }

  /** The canonical scroll line mentions "up" only for the upward direction. */
  lemma ScrollUp(d: string)
    requires d == "up" || d == "down"
    ensures Contains(Lower(CommandText("scroll", d)), "up") <==> d == "up"
  {
    var line := CommandText("scroll", d);
    LowerNoUpper(line);
    if d == "up" {
      assert line[7..9] == d;
      assert OccursAt(line, "up", 7);
    } else {
      forall i | 0 <= i <= |line| ensures !OccursAt(line, "up", i) {
        if i + 2 <= |line| {
          assert line[i..i + 2][0] == line[i];
        }
      }
    }
  }


  lemma WaitRoundTrip(n: nat)
    ensures ParseLine(CommandText("wait", NatToString(n))) == Some(Wait(n))
  {
    var digits := NatToString(n);
    var line := CommandText("wait", digits);
    DigitsPlain(digits);
    WaitLine(digits);
    ParseCleanLine(line);
    ExtractWait(line);
    DigitsOfNatToString(n);
  }

  lemma DigitsPlain(digits: string)
    requires digits != [] && AllDigits(digits)
    ensures Plain(digits)
  {
    assert IsDigit(digits[0]) && IsDigit(digits[|digits| - 1]);
    forall k | 0 <= k < |digits| ensures digits[k] != '\n' {
      assert IsDigit(digits[k]);
    }
  }

  /** `wait <digits>` yields the value of the digits. */
  lemma WaitLine(digits: string)
    requires Plain(digits) && AllDigits(digits)
    ensures var line := CommandText("wait", digits);
      && line != [] && Strip(line) == line && StripNumber(line) == line
      && Dispatch(Lower(line)) == WaitCommand && WaitFrom(line, 0) == Some(DigitsValue(digits))
  {
    var line := CommandText("wait", digits);
    CommandWords();
    CommandLine("wait", digits);
    assert Dispatch(Lower(line)) == WaitCommand by {
      WaitDispatch(Lower(line));
    }
    assert WaitFrom(line, 0) == Some(DigitsValue(digits)) by {
      WaitDigits(line, digits);
    }
  }

  /** A lower-cased line starting with `wait` takes the wait branch. */
  lemma WaitDispatch(lower: string)
    requires |lower| >= 4 && lower[..4] == "wait"
    ensures Dispatch(lower) == WaitCommand
  {
    assert lower[0] == 'w';
    NotStartsWith(lower, "open", 0);
    NotStartsWith(lower, "goto", 0);
    NotStartsWith(lower, "navigate to", 0);
    NotStartsWith(lower, "search", 0);
    NotStartsWith(lower, "click", 0);
    NotStartsWith(lower, "type", 0);
    NotStartsWith(lower, "hover", 0);
    NotStartsWith(lower, "select", 0);
  }

  /** `wait`, one space and digits: the search for `wait\s+(\d+)` takes all the digits. */
  lemma WaitDigits(line: string, digits: string)
    requires digits != [] && AllDigits(digits)
    requires Prefixed(line, "wait") && |line| == 5 + |digits| && line[4] == ' ' && line[5..] == digits
    ensures WaitFrom(line, 0) == Some(DigitsValue(digits))
  {
    assert IsDigit(line[5]);
    assert SpaceRun(line, 4) == 1;
    forall k | 5 <= k < |line| ensures IsDigit(line[k]) {
      assert line[k] == digits[k - 5];
    }
    DigitRunAll(line, 5);
    assert line[5..|line|] == digits;
  }



  // ---------------------------------------------------------------- quoted pairs

  lemma {:induction false} LazyGroupSkip(s: string, q: nat, e: nat, e': nat, kw: string)
    requires q + 1 < e <= e' <= |s|
    requires forall k :: e <= k < e' ==> !IsQuote(s[k])
    ensures LazyGroup(s, q, e, kw) == LazyGroup(s, q, e', kw)
    decreases e' - e
  {
    if e < e' {
      LazyGroupSkip(s, q, e + 1, e', kw);
    }
  }

  /** `s` ends, from `i` on, with ` kw "t"`. */
  predicate TailLayout(s: string, i: nat, kw: string, t: string) {
    && i + |kw| + 4 + |t| == |s|
    && s[i] == ' ' && s[i + 1..i + 1 + |kw|] == kw
    && s[i + 1 + |kw|] == ' ' && s[i + 2 + |kw|] == '"'
    && s[i + 3 + |kw|..|s| - 1] == t && s[|s| - 1] == '"'
  }

  /** `s` is laid out as `cmd "v" kw "t"`. */
  predicate PairLayout(s: string, cmd: string, v: string, kw: string, t: string) {
    && |cmd| + 3 + |v| <= |s|
    && s[..|cmd|] == cmd && s[|cmd|] == ' ' && s[|cmd| + 1] == '"'
    && s[|cmd| + 2..|cmd| + 2 + |v|] == v && s[|cmd| + 2 + |v|] == '"'
    && TailLayout(s, |cmd| + 3 + |v|, kw, t)
  }

  /** The tail `\s+kw\s+["'](.+?)["']` laid out from `i` yields `t`. */
  lemma TailMatches(s: string, i: nat, kw: string, t: string)
    requires Word(kw) && Unquoted(t) && TailLayout(s, i, kw, t)
    ensures Tail(s, i, kw) == Some(t)
  {
    assert s[i + 1] == kw[0];
    assert SpaceRun(s, i) == 1;
    LowerNoUpper(kw);
    assert WordAt(s, kw, i + 1);
    var j := i + 1 + |kw|;
    assert SpaceRun(s, j) == 1;
    forall k | j + 3 <= k < |s| - 1 ensures !IsQuote(s[k]) {
      assert s[k] == t[k - j - 2];
    }
    assert QuoteFrom(s, j + 3) == Some(|s| - 1);
  }

  /** Where the pieces of a canonical pair line sit. */
  lemma PairLineLayout(cmd: string, v: string, kw: string, t: string)
    ensures PairLayout(PairLine(cmd, v, kw, t), cmd, v, kw, t)
  {
    var s := PairLine(cmd, v, kw, t);
    var e := |cmd| + 2 + |v|;
    var i := e + 1;
    assert s == cmd + " \"" + v + "\" " + kw + " \"" + t + "\"";
    assert s[..|cmd|] == cmd;
    assert s[|cmd| + 2..e] == v;
    assert s[i + 1..i + 1 + |kw|] == kw;
    assert s[i + 3 + |kw|..|s| - 1] == t;
  }

  /** A line opening with `cmd "` reaches the lazy first group right after that quote. */
  lemma PairOpens(s: string, cmd: string, kw: string)
    requires Word(cmd) && |cmd| + 2 <= |s|
    requires s[..|cmd|] == cmd && s[|cmd|] == ' ' && s[|cmd| + 1] == '"'
    ensures PairAt(s, 0, cmd, kw) == LazyGroup(s, |cmd| + 1, |cmd| + 3, kw)
  {
    LowerNoUpper(cmd);
    assert s[0..|cmd|] == cmd;
    assert WordAt(s, cmd, 0);
    assert SpaceRun(s, |cmd|) == 1;
  }

  /** The lazy group closes at the first quote after which the tail matches. */
  lemma GroupCloses(s: string, q: nat, e: nat, kw: string, t: string)
    requires q + 2 <= e < |s| && IsQuote(s[e]) && Tail(s, e + 1, kw) == Some(t)
    requires forall k :: q + 2 <= k < e ==> !IsQuote(s[k])
    ensures LazyGroup(s, q, q + 2, kw) == Some((s[q + 1..e], t))
  {
    LazyGroupSkip(s, q, q + 2, e, kw);
  }

  /** A copy of an unquoted value inside `s` holds no quote. */
  lemma NoQuoteInCopy(s: string, i: nat, v: string)
    requires Unquoted(v) && i + |v| <= |s| && s[i..i + |v|] == v
    ensures forall k :: i <= k < i + |v| ==> !IsQuote(s[k])
  {
    forall k | i <= k < i + |v| ensures !IsQuote(s[k]) {
      assert s[k] == v[k - i];
    }
  }

  /** A line laid out as `cmd "v" kw "t"` matches the pair pattern at its start. */
  lemma PairMatches(s: string, cmd: string, v: string, kw: string, t: string)
    requires Word(cmd) && Word(kw) && Unquoted(v) && Unquoted(t)
    requires PairLayout(s, cmd, v, kw, t)
    ensures PairFrom(s, 0, cmd, kw) == Some((v, t))
  {
    PairOpens(s, cmd, kw);
    PairGroupMatches(s, cmd, v, kw, t);
  }

  /** In such a line the lazy first group closes on the quote after `v`. */
  lemma PairGroupMatches(s: string, cmd: string, v: string, kw: string, t: string)
    requires Word(cmd) && Word(kw) && Unquoted(v) && Unquoted(t)
    requires PairLayout(s, cmd, v, kw, t)
    ensures LazyGroup(s, |cmd| + 1, |cmd| + 3, kw) == Some((v, t))
  {
    NoQuoteInCopy(s, |cmd| + 2, v);
    TailMatches(s, |cmd| + 3 + |v|, kw, t);
    GroupCloses(s, |cmd| + 1, |cmd| + 2 + |v|, kw, t);
  }

  /** The canonical pair line yields its two quoted values. */
  lemma PairRoundTrip(cmd: string, v: string, kw: string, t: string)
    requires Word(cmd) && Word(kw) && Unquoted(v) && Unquoted(t)
    ensures PairFrom(PairLine(cmd, v, kw, t), 0, cmd, kw) == Some((v, t))
  {
    PairLineLayout(cmd, v, kw, t);
    PairMatches(PairLine(cmd, v, kw, t), cmd, v, kw, t);
  }

  /** A lower-cased line starting with `type` takes the `type` branch. */
  lemma TypeDispatch(lower: string)
    requires |lower| >= 4 && lower[..4] == "type"
    ensures Dispatch(lower) == TypeCommand
  {
    assert lower[0] == 't';
    NotStartsWith(lower, "open", 0);
    NotStartsWith(lower, "goto", 0);
    NotStartsWith(lower, "navigate to", 0);
    NotStartsWith(lower, "search", 0);
    NotStartsWith(lower, "click", 0);
  }

  /** A lower-cased line starting with `select` takes the `select` branch. */
  lemma SelectDispatch(lower: string)
    requires |lower| >= 6 && lower[..6] == "select"
    ensures Dispatch(lower) == SelectCommand
  {
    assert lower[0] == 's' && lower[2] == 'l';
    NotStartsWith(lower, "open", 0);
    NotStartsWith(lower, "goto", 0);
    NotStartsWith(lower, "navigate to", 0);
    NotStartsWith(lower, "search", 2);
    NotStartsWith(lower, "click", 0);
    NotStartsWith(lower, "type", 0);
    NotStartsWith(lower, "hover", 0);
  }

  /** A canonical `type` line is clean and takes the `type` branch. */
  lemma TypeLine(v: string, t: string)
    ensures var line := PairLine("type", v, "into", t);
      && line != [] && Strip(line) == line && StripNumber(line) == line
      && Dispatch(Lower(line)) == TypeCommand
  {
    var line := PairLine("type", v, "into", t);
    assert Word("type");
    PairLineClean("type", v, "into", t);
    TypeDispatch(Lower(line));
  }

  lemma TypeRoundTrip(v: string, t: string)
    requires Unquoted(v) && Unquoted(t)
    ensures ParseLine(PairLine("type", v, "into", t)) == Some(Type(v, t))
  {
    var line := PairLine("type", v, "into", t);
    TypeLine(v, t);
    assert Word("type") && Word("into");
    PairRoundTrip("type", v, "into", t);
    ParseCleanLine(line);
    ExtractType(line);
  }

  /** A canonical `select` line is clean and takes the `select` branch. */
  lemma SelectLine(v: string, t: string)
    ensures var line := PairLine("select", v, "from", t);
      && line != [] && Strip(line) == line && StripNumber(line) == line
      && Dispatch(Lower(line)) == SelectCommand
  {
    var line := PairLine("select", v, "from", t);
    assert Word("select");
    PairLineClean("select", v, "from", t);
    SelectDispatch(Lower(line));
  }

  lemma SelectRoundTrip(v: string, t: string)
    requires Unquoted(v) && Unquoted(t)
    ensures ParseLine(PairLine("select", v, "from", t)) == Some(Select(v, t))
  {
    var line := PairLine("select", v, "from", t);
    SelectLine(v, t);
    assert Word("select") && Word("from");
    PairRoundTrip("select", v, "from", t);
    ParseCleanLine(line);
    ExtractSelect(line);
  }

  /** A canonical pair line is already stripped and carries no step number; its command word is lower case. */
  lemma PairLineClean(cmd: string, v: string, kw: string, t: string)
    requires Word(cmd)
    ensures var line := PairLine(cmd, v, kw, t);
      Strip(line) == line && StripNumber(line) == line && Lower(line)[..|cmd|] == cmd
  {
    var line := PairLine(cmd, v, kw, t);
    PairLineLayout(cmd, v, kw, t);
    assert line[0] == cmd[0];
    assert Strip(line) == line by {
      StripTrimmed(line);
    }
    assert Lower(line)[..|cmd|] == cmd by {
      LowerNoUpper(cmd);
      LowerPrefix(line, cmd);
    }
  }

  // ---------------------------------------------------------------- whole texts

  /** The canonical instruction text for a list of actions: their lines joined by newlines. */
  function FormatAll(actions: seq<Action>): string {
    Join(FormatLines(actions), '\n')
  }

  function FormatLines(actions: seq<Action>): (lines: seq<string>)
    ensures |lines| == |actions|
    ensures forall k :: 0 <= k < |actions| ==> lines[k] == Format(actions[k])
  {
    seq(|actions|, k requires 0 <= k < |actions| => Format(actions[k]))
  }

  lemma CommandTextOneLine(w: string, v: string)
    requires '\n' !in w && '\n' !in v
    ensures '\n' !in CommandText(w, v)
  {
  }

  lemma PairLineOneLine(cmd: string, v: string, kw: string, t: string)
    requires '\n' !in cmd && '\n' !in v && '\n' !in kw && '\n' !in t
    ensures '\n' !in PairLine(cmd, v, kw, t)
  {
  }

  /** The canonical line of a well-formed action is a single line. */
  lemma FormatOneLine(a: Action)
    requires WellFormed(a)
    ensures '\n' !in Format(a)
  {
    CommandWords();
    match a
    case Open(v) => CommandTextOneLine("open", v);
    case Search(v) => CommandTextOneLine("search", v);
    case Click(v) => CommandTextOneLine("click", v);
    case Type(v, t) => PairLineOneLine("type", v, "into", t);
    case Hover(v) => CommandTextOneLine("hover", v);
    case Select(v, t) => PairLineOneLine("select", v, "from", t);
    case Wait(n) =>
      var digits := NatToString(n);
      forall k | 0 <= k < |digits| ensures digits[k] != '\n' {
        assert IsDigit(digits[k]);
      }
      CommandTextOneLine("wait", digits);
    case Scroll(d) => CommandTextOneLine("scroll", d);
    case Verify(v) => CommandTextOneLine("verify", v);
  }

  lemma ParseFormattedLines(actions: seq<Action>)
    requires forall k :: 0 <= k < |actions| ==> WellFormed(actions[k])
    ensures Collect(ParseLine, FormatLines(actions)) == actions
  {
    var lines := FormatLines(actions);
    forall k | 0 <= k < |lines| ensures ParseLine(lines[k]) == Some(actions[k]) {
      ParseFormat(actions[k]);
    }
    CollectEach(ParseLine, lines, actions);
  }

  /** Parsing the canonical text of well-formed actions gives the actions back. */
  lemma ParseFormatAll(actions: seq<Action>)
    requires forall k :: 0 <= k < |actions| ==> WellFormed(actions[k])
    ensures Parse(FormatAll(actions)) == actions
  {
    if actions == [] {
      assert Split("", '\n') == [""];
      assert Strip("") == [];
    } else {
      var lines := FormatLines(actions);
      forall k | 0 <= k < |lines| ensures '\n' !in lines[k] {
        FormatOneLine(actions[k]);
      }
      SplitJoin(lines, '\n');
      ParseFormattedLines(actions);
    }
  }

  // ---------------------------------------------------------------- dropped lines

  /** A `type` or `select` line with no quote anywhere yields no step. */
  lemma {:induction false} PairNeedsQuotes(s: string, p: nat, cmd: string, kw: string)
    requires forall k :: 0 <= k < |s| ==> !IsQuote(s[k])
    ensures PairFrom(s, p, cmd, kw) == None
    decreases |s| - p
  {
    if p < |s| {
      PairNeedsQuotes(s, p + 1, cmd, kw);
    }
  }

  /** When no alternative opens the line, `^(w1|w2|…)\s+` removes nothing. */
  lemma {:induction false} DropNothing(s: string, words: seq<string>)
    requires forall k :: 0 <= k < |words| ==> !Prefixed(s, words[k])
    ensures DropFirstCommand(s, words) == s
  {
    if words != [] {
      assert !Prefixed(s, words[0]);
      DropNothing(s, words[1..]);
    }
  }

  /**
   * A verify keyword found later in the line selects the verify branch but is
   * not removed: the whole line, cleaned, becomes the value.
   */
  lemma VerifyKeepsLine(clean: string)
    requires Dispatch(Lower(clean)) == VerifyCommand
    requires forall k :: 0 <= k < |VerifyWords| ==> !Prefixed(clean, VerifyWords[k])
    ensures Extract(clean) == Some(Verify(CleanValue(clean)))
  {
    DropNothing(clean, VerifyWords);
  }

  /** A `wait` line with no digit anywhere yields no step. */
  lemma {:induction false} WaitNeedsDigits(s: string, p: nat)
    requires forall k :: 0 <= k < |s| ==> !IsDigit(s[k])
    ensures WaitFrom(s, p) == None
    decreases |s| - p
  {
    if p < |s| {
      WaitNeedsDigits(s, p + 1);
    }
  }
}
