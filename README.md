# Web-test agent core, modelled in Dafny

The system is an agent that turns a plain-English test instruction into
browser steps, runs them with self-healing element lookup, and summarises the
run. The path is `parse_instruction`, then `generate_playwright_steps`, then
`run_test`, then `generate_report` (see `backend/agent/graph.py`). This project
models each of these stages in Dafny and proves what each one promises:

- **Text** (`text.dfy`): the Python string operations the core relies on.
  These are `strip`, `strip(c)`, `lower`, `upper`, `title`, `startswith`, `in`,
  `split`, `join`, `str(int)` and `int(str)`, over ASCII characters.
- **Dom** (`dom.dfy`): a page's locator query. A selector either throws or
  matches a list of elements. Elements have attributes and are visible or
  not. `page.locator(s).all()` is a function parameter rather than a browser.
- **DomMapper** (`dom_mapper.dfy`): `find_element`. Methods build the selector
  list, de-duplicate it and scan it. Each method is proved equal to a
  specification function, and lemmas state the selector priorities and scan
  semantics.
- **Healing** (`healing.dfy`): `heal_element`. The candidate loop overwrites
  a signature map. After it come the `difflib.get_close_matches(n=1, cutoff=0.3)`
  choice and the substring fallback.
- **Parser** (`parser.dfy`): `parse_instruction`. Lines are split, stripped
  and de-numbered, then dispatched on their lower-cased prefix. The regular
  expressions are modelled by hand. Canonical lines are proved to parse back
  to the actions they were formatted from.
- **Generator** (`generator.dfy`): `generate_playwright_steps`. It normalises
  URLs, keeps the five emitted kinds and drops the others.
- **Steps** (`steps.dfy`): parsed actions, code steps and result records.
- **Execution** (`execution.dfy`): the specification of `run_test`. The page,
  the browser's failures and the clock are an explicit `Browser` oracle. One
  function per step type gives the attempt's logs, browser commands and
  outcome. `Tries` is the three-attempt retry, `StepOf` is one step and
  `RunUpTo` is the step loop, with a fatal error that ends the run.
- **Executor** (`executor.dfy`): class `Runner`, holding the mutable
  `results`, `logs` and `commands` lists. One method per step type and the
  retry loop are proved against the Execution functions. `RunTest` is proved
  equal to `RunTestResult`.
- **ExecutionProps** (`execution_props.dfy`): lemmas about the run. They cover
  one record per step, retries, step numbering, the fatal paths, the
  find-then-heal order and each step type's outcome.
- **Reporter** (`reporter.dfy`): the `generate_report` summary. It also holds
  the run status that `backend/database.py` stores.

## Model

| member | source | states |
|---|---|---|
| Text.Lower | backend/agent/parser.py:14 | `str.lower`: same length, each character lower-cased, other characters unchanged |
| Text.LowerIdempotent | backend/utils/dom_mapper.py:10 | lower-casing twice is lower-casing once, so a lower-case variant never adds a second lower variant |
| Text.LowerAppend | backend/agent/parser.py:14 | lower-casing distributes over concatenation |
| Text.Upper | backend/agent/executor.py:354 | `str.upper`: same length, each character upper-cased |
| Text.TitleFrom | backend/utils/dom_mapper.py:9 | `str.title` changes only the case of letters, never length or other characters |
| Text.TitleAtFirstLetter | backend/utils/dom_mapper.py:9 | `str.title` upper-cases the first cased letter |
| Text.TitleDiffersFromLower | backend/utils/dom_mapper.py:9-10 | when a description is not all lower case, its title and lower forms differ, so the lower variant is never a duplicate of the title one |
| Text.SpacePreserved | backend/utils/dom_mapper.py:35 | a case variant holds a space exactly when the description does |
| Text.Strip | backend/agent/parser.py:8 | `str.strip()` never lengthens and leaves no white space at either end |
| Text.StripSlice | backend/agent/parser.py:8 | `str.strip()` is the slice between a prefix of white space and a suffix of white space: only outer white space goes |
| Text.StripEmpty | backend/agent/parser.py:9 | a line strips to empty exactly when it is all whitespace, i.e. it is skipped |
| Text.StripTrimmed | backend/utils/healing.py:24-31 | stripping an already-trimmed string changes nothing |
| Text.SpaceJoinAllSpace | backend/utils/healing.py:31 | fields joined by spaces are blank exactly when every field is blank |
| Text.StripChar | backend/agent/parser.py:20 | `str.strip(c)` never lengthens and leaves no `c` at either end |
| Text.StripCharSlice | backend/agent/parser.py:20 | `str.strip(c)` is the slice between a prefix of `c`s and a suffix of `c`s: only outer copies of `c` go |
| Text.StripCharNoop | backend/agent/parser.py:20 | stripping a quote from a value with none at its ends changes nothing |
| Text.Split | backend/agent/parser.py:5 | `str.split("\n")` yields at least one piece, and no piece holds the separator |
| Text.JoinSplit | backend/agent/parser.py:5 | joining the pieces of a split gives back the text |
| Text.SplitJoin | backend/agent/parser.py:5 | splitting joined separator-free lines gives back the lines |
| Text.SplitAppend | backend/agent/parser.py:5 | splitting `x + sep + y` is splitting `x` then `y` |
| Text.NatToString | backend/agent/executor.py:25 | `str(n)` is a non-empty digit string without a leading zero |
| Text.DigitsOfNatToString | backend/agent/executor.py:25 | the digits of `str(n)` denote `n` |
| Text.ParseInt | backend/agent/executor.py:228 | `int(s)` succeeds exactly when the stripped string is an optional sign and then one or more ASCII digits; the value is the digits' value, negated for `-` |
| Text.ParseIntToString | backend/agent/executor.py:228-229 | `int(str(i)) == i` for every integer, negative ones included |
| Text.Escaped | backend/agent/executor.py:228 | `repr`'s escaping never shortens and leaves a string without quote or backslash unchanged |
| Text.EscapedRoundTrip | backend/agent/executor.py:228 | `repr`'s escaping reads back as the original string |
| Text.Repr | backend/agent/executor.py:228 | `repr(s)` (in `int`'s error message) is `s` escaped between two equal quotes, double exactly when `s` holds a single quote and no double quote |
| Text.ParseNonNegative | backend/agent/executor.py:228 | `int(str(n)) == n` |
| Text.ParseDigits | backend/agent/parser.py:59 | `int` of a digit string is its decimal value |
| DomMapper.Lift | backend/utils/dom_mapper.py:17-24 | the exact selectors enter the list as present (non-`None`) entries, in order |
| DomMapper.ExactStrategies | backend/utils/dom_mapper.py:16-24 | six exact selectors per variant |
| DomMapper.LooseStrategies | backend/utils/dom_mapper.py:27-36 | six loose slots per variant |
| DomMapper.FirstVisibleIndex | backend/utils/dom_mapper.py:56-58 | the index of the first visible match: every earlier one is hidden |
| DomMapper.FindElement | backend/utils/dom_mapper.py:3-67 | `find_element` returns exactly `Resolve` over the final selector list |
| DomMapper.BuildStrategies | backend/utils/dom_mapper.py:12-36 | the list holds every exact selector of every variant before every loose one |
| DomMapper.CleanStrategies | backend/utils/dom_mapper.py:38-44 | the seen-set loop computes `Dedupe` |
| DomMapper.Scan | backend/utils/dom_mapper.py:49-67 | the scan with early return and fallback equals `Resolve` |
| DomMapper.ScanStopsAtVisible | backend/utils/dom_mapper.py:56-58 | the first visible match of the first selector that has one is returned |
| DomMapper.FirstVisibleInMiddle | backend/utils/dom_mapper.py:56-58 | hidden matches before a visible one are passed over |
| DomMapper.FoundSplit | backend/utils/dom_mapper.py:51-64 | the matches seen are those of the selectors before the i-th, then the i-th's own, then those after it |
| DomMapper.FirstVisibleIndexAppend | backend/utils/dom_mapper.py:56-58 | the first visible match of a concatenation is in the first part when it has one |
| DomMapper.FirstVisibleIs | backend/utils/dom_mapper.py:56-58 | a visible element preceded only by hidden ones is the first visible match |
| DomMapper.VariantsShape | backend/utils/dom_mapper.py:8-10 | the description comes first, there are at most three variants, all of its length and all distinct |
| DomMapper.VariantSpaces | backend/utils/dom_mapper.py:8-10 | every variant holds a space exactly when the description does |
| DomMapper.DedupeMembers | backend/utils/dom_mapper.py:41-44 | the cleaned list holds exactly the present, non-empty selectors |
| DomMapper.DedupeNoDuplicates | backend/utils/dom_mapper.py:41-44 | the cleaned list has no duplicates |
| DomMapper.DedupeShorter | backend/utils/dom_mapper.py:41-44 | de-duplication never lengthens the list |
| DomMapper.DedupeIsFirstOccurrences | backend/utils/dom_mapper.py:38-44 | de-duplication keeps first occurrences, in order (independent definition) |
| DomMapper.DedupeAppend | backend/utils/dom_mapper.py:38-44 | de-duplicating `a + b` extends that of `a` only with entries of `b` not in `a` |
| DomMapper.ExactStrategiesMembers | backend/utils/dom_mapper.py:16-24 | every exact entry comes from some variant's exact tier |
| DomMapper.LooseStrategiesMembers | backend/utils/dom_mapper.py:27-36 | every loose entry comes from some variant's loose tier |
| DomMapper.LooseStrategiesHas | backend/utils/dom_mapper.py:27-36 | every slot of every variant's loose tier is in the loose list |
| DomMapper.ExactNotLoose | backend/utils/dom_mapper.py:16-36 | no exact selector of one variant coincides with a loose selector of a variant of the same length |
| DomMapper.ExactBeforeLoose | backend/utils/dom_mapper.py:14-36 | after de-duplication, exact selectors still precede loose ones |
| DomMapper.IdOnlyWithoutSpace | backend/utils/dom_mapper.py:35 | a variant's `#id` selector is tried exactly when the description has no space |
| DomMapper.IdPresentWithoutSpace | backend/utils/dom_mapper.py:35 | without a space, each variant's `#id` selector is in the list |
| DomMapper.IdMeansNoSpace | backend/utils/dom_mapper.py:35 | any `#`-selector in the list implies the description has no space |
| DomMapper.ExactNoHash | backend/utils/dom_mapper.py:16-24 | no exact selector starts with `#` |
| DomMapper.LooseHash | backend/utils/dom_mapper.py:27-36 | the only loose `#` selector is the ID slot of a space-free variant |
| DomMapper.StrategiesShape | backend/utils/dom_mapper.py:38-47 | the final list ends with the raw description, has at most 12 selectors per variant plus one, and no duplicate before the raw description |
| DomMapper.FoundAppend | backend/utils/dom_mapper.py:51-64 | the matches over `a + b` are those over `a` then over `b` |
| DomMapper.FirstVisibleAppend | backend/utils/dom_mapper.py:51-58 | the first visible match over `a + b` is in `a` when `a` has one |
| DomMapper.ResolveFirstVisible | backend/utils/dom_mapper.py:56-58 | the result is the first visible match in scan order |
| DomMapper.ResolveNothingVisible | backend/utils/dom_mapper.py:60-67 | with nothing visible, the first match of all is returned, or nothing when there is no match |
| DomMapper.ResolveSkipsThrowing | backend/utils/dom_mapper.py:63-64 | a selector whose query throws does not change the result |
| DomMapper.ResolveSound | backend/utils/dom_mapper.py:49-67 | a returned element is a match of some selector in the list |
| DomMapper.FoundSound | backend/utils/dom_mapper.py:51-62 | every match seen belongs to some selector in the list |
| Healing.Field | backend/utils/healing.py:24-28 | a field is the stripped attribute, or empty when the attribute is missing |
| Healing.SignatureEmpty | backend/utils/healing.py:31-33 | a signature is empty exactly when all five fields are blank |
| Healing.TrimmedBlank | backend/utils/healing.py:24-28 | a stripped field is blank exactly when empty |
| Healing.SignatureLowerCase | backend/utils/healing.py:31 | signatures are lower case |
| Healing.KeptSignatures | backend/utils/healing.py:18-39 | one optional signature per element, kept only for visible elements whose attributes can be read and whose signature is non-empty |
| Healing.ElementMap | backend/utils/healing.py:33-37 | the map's keys are exactly the candidates |
| Healing.StrLessTransitive | backend/utils/healing.py:44 | string order (the tie-break of `get_close_matches`) is transitive |
| Healing.StrLessIrreflexive | backend/utils/healing.py:44 | string order is irreflexive |
| Healing.OutranksTransitive | backend/utils/healing.py:44 | the (score, string) ranking is transitive |
| Healing.CloseMatch | backend/utils/healing.py:44-49 | `get_close_matches(n=1, cutoff=0.3)`: nothing exactly when no candidate reaches the cut-off, else a candidate reaching it that no other outranks |
| Healing.CloseMatchKeepsOrder | backend/utils/healing.py:44 | the best-so-far is not outranked by any earlier candidate reaching the cut-off |
| Healing.FirstContaining | backend/utils/healing.py:52-55 | nothing exactly when no candidate contains the target, else a candidate containing it |
| Healing.HealElement | backend/utils/healing.py:4-58 | `heal_element` returns exactly `Heal` |
| Healing.CollectCandidates | backend/utils/healing.py:18-39 | the loop builds the candidate list and the last-write-wins map |
| Healing.SubstringFallback | backend/utils/healing.py:52-55 | the fallback loop returns the first candidate containing the target |
| Healing.FirstContainingIs | backend/utils/healing.py:52-55 | the first candidate containing the target is the one returned |
| Healing.ElementMapLast | backend/utils/healing.py:37 | a signature maps to the last kept element carrying it |
| Healing.HealSound | backend/utils/healing.py:4-58 | a healed element is one of the scanned elements, visible, readable and with a non-empty signature |
| Healing.HealLastWins | backend/utils/healing.py:37 | a healed element is the last one carrying its signature |
| Healing.HealPicksBest | backend/utils/healing.py:44-49 | when some candidate reaches the cut-off, the element of the best-ranked one is returned |
| Healing.HealSubstringFallback | backend/utils/healing.py:52-55 | with no close match, the element of the first candidate containing the target is returned |
| Healing.HealNone | backend/utils/healing.py:57-58 | healing fails exactly when every candidate is below the cut-off and none contains the target |
| Healing.CandidatesKept | backend/utils/healing.py:33-37 | a signature is a candidate exactly when some element was kept under it |
| Parser.SpaceRun | backend/agent/parser.py:12 | `\s*` consumes the maximal run of whitespace |
| Parser.DigitRun | backend/agent/parser.py:12 | `\d+` consumes the maximal run of digits |
| Parser.DropCommand | backend/agent/parser.py:18 | removing a command word leaves a suffix of the line |
| Parser.DropFirstCommand | backend/agent/parser.py:18 | removing the first matching command word of `open|goto|navigate to` (or of the verify words) leaves a suffix of the line |
| Parser.DropCommandThen | backend/agent/parser.py:24 | removing the command word and an optional following word leaves a suffix of the line |
| Parser.CleanValue | backend/agent/parser.py:18-20 | the cleaned value is a piece of its input with no single quote at either end |
| Parser.Tail | backend/agent/parser.py:37 | the second group `(.+?)`, when the tail matches, is non-empty |
| Parser.LazyGroup | backend/agent/parser.py:37 | both groups, when the pattern matches, are non-empty |
| Parser.PairAt | backend/agent/parser.py:37 | both groups of a match at one position are non-empty |
| Parser.PairFrom | backend/agent/parser.py:37 | both groups `re.search` returns are non-empty |
| Parser.StripNumber | backend/agent/parser.py:12 | removing the leading number leaves a suffix, and a line not starting with a digit is unchanged |
| Parser.QuoteFrom | backend/agent/parser.py:37 | finds the first quote at or after a position, or reports that there is none |
| Parser.ParseInstruction | backend/agent/parser.py:3-73 | the line loop computes `Parse` |
| Parser.CollectAppend | backend/agent/parser.py:7-71 | the actions of `a + b` are those of `a` then `b` |
| Parser.CollectNone | backend/agent/parser.py:9 | lines that yield no action contribute nothing |
| Parser.CollectEach | backend/agent/parser.py:7-71 | lines yielding one action each produce those actions in order |
| Parser.ParseConcat | backend/agent/parser.py:5-7 | parsing two texts joined by a newline is parsing each |
| Parser.BlankTextNoSteps | backend/agent/parser.py:8-9 | a text of blank lines yields no steps |
| Parser.DigitRunAll | backend/agent/parser.py:12 | an all-digit tail is consumed entirely |
| Parser.DigitRunUpTo | backend/agent/parser.py:12 | the digit run stops at the first non-digit |
| Parser.StripNumberNumbered | backend/agent/parser.py:11-12 | `"<n>. rest"` loses exactly its number, dot and space when `rest` does not start with whitespace |
| Parser.LowerPrefix | backend/agent/parser.py:14-16 | a lower-case command word stays a prefix after lower-casing |
| Parser.CleanPlain | backend/agent/parser.py:18-20 | a trimmed, unquoted value survives the strip and quote removal |
| Parser.ParseFormat | backend/agent/parser.py:7-71 | every well-formed action's canonical line parses back to that action |
| Parser.ParseCleanLine | backend/agent/parser.py:8-12 | a clean, unnumbered line parses as its extraction |
| Parser.Extract | backend/agent/parser.py:11-71 | a line yields no step exactly when no branch applies or the `type`/`select`/`wait` pattern fails; otherwise the step is of the branch's kind, one-value steps copy a piece of the line with no single quote at its ends, pair steps have non-empty value and target, and a scroll goes `up` exactly when `up` occurs in the line |
| Parser.Branch | backend/agent/parser.py:16-71 | each branch of the chain yields a step of its own kind, and none exactly for no command or a failed `type`/`select`/`wait` pattern |
| Parser.BranchValues | backend/agent/parser.py:16-71 | the values a branch yields are copied out of the line; pair values are non-empty; scroll is `up` or `down` |
| Parser.NotStartsWith | backend/agent/parser.py:16-67 | differing first characters rule out a prefix, so the dispatch order is decided |
| Parser.OpenRoundTrip | backend/agent/parser.py:16-21 | `open v` parses to `open v` |
| Parser.SearchRoundTrip | backend/agent/parser.py:23-27 | `search v` parses to `search v` |
| Parser.ClickRoundTrip | backend/agent/parser.py:29-33 | `click v` parses to `click v` |
| Parser.HoverRoundTrip | backend/agent/parser.py:42-46 | `hover v` parses to `hover v` |
| Parser.VerifyRoundTrip | backend/agent/parser.py:67-71 | `verify v` parses to `verify v` |
| Parser.VerifyDispatch | backend/agent/parser.py:67 | a line starting `verify` that matches no earlier command is a verify line |
| Parser.ScrollRoundTrip | backend/agent/parser.py:61-65 | `scroll up` and `scroll down` parse to their direction |
| Parser.ScrollDispatch | backend/agent/parser.py:61 | a line starting `scroll` dispatches to scroll |
| Parser.ScrollUp | backend/agent/parser.py:64 | `up` occurs in `scroll d` exactly when `d` is `up` |
| Parser.WaitRoundTrip | backend/agent/parser.py:55-59 | `wait <n>` parses to `wait n` |
| Parser.DigitsPlain | backend/agent/parser.py:57 | a digit string is a plain value |
| Parser.WaitDispatch | backend/agent/parser.py:55 | a line starting `wait` dispatches to wait |
| Parser.WaitDigits | backend/agent/parser.py:57-59 | `wait\s+(\d+)` captures the whole number after the space |
| Parser.LazyGroupSkip | backend/agent/parser.py:37 | the lazy group `(.+?)` skips closing quotes not followed by the keyword |
| Parser.TailMatches | backend/agent/parser.py:37 | the tail `\s+into\s+["'](.+?)["']` matches the canonical layout |
| Parser.PairLineLayout | backend/agent/parser.py:37 | the canonical `cmd "v" kw "t"` line has the layout the pattern needs |
| Parser.PairOpens | backend/agent/parser.py:37 | the pattern's first group opens after the command, space and quote |
| Parser.GroupCloses | backend/agent/parser.py:37 | the first group closes at the first quote followed by the keyword tail |
| Parser.NoQuoteInCopy | backend/agent/parser.py:37 | an unquoted value contributes no quote to the line |
| Parser.PairMatches | backend/agent/parser.py:37-39 | the search finds both groups of the canonical line |
| Parser.PairGroupMatches | backend/agent/parser.py:37-39 | the lazy group stops exactly at the end of the value |
| Parser.PairRoundTrip | backend/agent/parser.py:37-39 | the pair pattern gives back the value and the target |
| Parser.TypeDispatch | backend/agent/parser.py:35 | a line starting `type` dispatches to type |
| Parser.SelectDispatch | backend/agent/parser.py:48 | a line starting `select` dispatches to select |
| Parser.TypeRoundTrip | backend/agent/parser.py:35-40 | `type "v" into "t"` parses to `type v t` |
| Parser.SelectRoundTrip | backend/agent/parser.py:48-53 | `select "v" from "t"` parses to `select v t` |
| Parser.FormatLines | backend/agent/parser.py:5-7 | one canonical line per action, in order |
| Parser.CommandTextOneLine | backend/agent/parser.py:5 | a canonical command line has no newline |
| Parser.PairLineOneLine | backend/agent/parser.py:5 | a canonical pair line has no newline |
| Parser.FormatOneLine | backend/agent/parser.py:5 | no canonical line has a newline |
| Parser.ParseFormattedLines | backend/agent/parser.py:7-71 | parsing the canonical lines gives back the actions |
| Parser.ParseFormatAll | backend/agent/parser.py:3-73 | `parse_instruction` of the newline-joined canonical lines gives back every well-formed action list |
| Parser.PairNeedsQuotes | backend/agent/parser.py:37-40 | without quotes a `type`/`select` line matches nothing and is dropped |
| Parser.DropNothing | backend/agent/parser.py:69 | when no command word opens the line, the command removal changes nothing |
| Parser.VerifyKeepsLine | backend/agent/parser.py:67-71 | a `check`-style line that does not start with a command word keeps its whole text as the value |
| Parser.WaitNeedsDigits | backend/agent/parser.py:57-58 | a `wait` line without digits is dropped |
| Generator.WithScheme | backend/agent/generator.py:7-8 | values not starting with `http` get `https://` in front, others are kept |
| Generator.WithDomain | backend/agent/generator.py:9-10 | values without a dot get `.com` appended, others are kept |
| Generator.NormalizeUrlNormalized | backend/agent/generator.py:5-12 | a normalised URL starts with `http` and has a dot |
| Generator.NormalizedFixed | backend/agent/generator.py:5-12 | a URL already starting with `http` and holding a dot is unchanged |
| Generator.NormalizeUrlIdempotent | backend/agent/generator.py:5-12 | normalising twice is normalising once |
| Generator.NormalizeUrlKeepsValue | backend/agent/generator.py:5-12 | the value appears unchanged inside the URL, after the scheme when one was added |
| Generator.StepFor | backend/agent/generator.py:4-25 | only open, search, click, type and verify yield a step; open becomes `goto` with the normalised URL, search, click and verify keep their kind and value, and type keeps its value and target |
| Generator.GeneratePlaywrightSteps | backend/agent/generator.py:1-27 | the loop computes `Generate` |
| Generator.GenerateAppend | backend/agent/generator.py:4 | generation distributes over concatenation |
| Generator.GenerateNoLonger | backend/agent/generator.py:1-27 | never more steps than actions |
| Generator.GenerateKinds | backend/agent/generator.py:1-27 | every step has one of the five emitted types and a value |
| Generator.DropsUnhandled | backend/agent/generator.py:4-25 | hover, select, wait and scroll actions are dropped in place |
| Generator.KeepsHandled | backend/agent/generator.py:4-25 | handled actions keep their position |
| Generator.OpenBecomesGoto | backend/agent/generator.py:5-13 | `open v` becomes one `goto` with the normalised URL |
| Reporter.CountPassed | backend/agent/reporter.py:9 | the passed count is at most the number of results |
| Reporter.CountPassedIndices | backend/agent/reporter.py:9 | the passed count is the number of positions holding a record whose status is exactly `PASS` |
| Reporter.GenerateReport | backend/agent/reporter.py:8-32 | total is the number of results, passed is the number of PASS records, failed the rest; the percentage is passed/total·100 (0 for no steps) and lies in 0..100; steps and logs are carried through |
| Reporter.CountPassedAppend | backend/agent/reporter.py:9 | counting distributes over concatenation |
| Reporter.CountPassedAll | backend/agent/reporter.py:9-10 | passed equals total exactly when every record passed |
| Reporter.AllPassedHundred | backend/agent/reporter.py:12-21 | a non-empty all-pass run reports 100 per cent and no failures |
| Reporter.RunStatus | backend/database.py:31 | the stored status is PASS or FAIL |
| Reporter.RunStatusOfReport | backend/database.py:31 | a run is stored as PASS exactly when it has steps and all passed |
| Execution.RecordsOf | backend/agent/executor.py:78-344 | an attempt appends at most one record, exactly when it succeeds |
| Execution.Consent | backend/agent/executor.py:66-76 | the banner clicked is a label whose element is found and visible; when none is clicked, no label's was |
| Execution.ConsentFirst | backend/agent/executor.py:67-74 | the label clicked is the first one whose element is found and visible: every earlier label's is missing or hidden |
| Execution.Healed | backend/utils/healing.py:13-58 | a healed element is one the healer query yields, and visible; a throwing query heals nothing |
| Execution.Locate | backend/agent/executor.py:91-99 | the finder's element when it has one; otherwise the healer's, which is visible and one of the healer query's; nothing when the healer query throws |
| Execution.FatalStays | backend/agent/executor.py:364-372 | once a fatal error occurs the run does not change |
| Executor.Runner.constructor | backend/agent/executor.py:12-13 | a run starts with no results, logs or commands |
| Executor.Runner.Log | backend/agent/executor.py:15-17 | `log` appends one line and nothing else |
| Executor.Runner.Issue | backend/agent/executor.py:59-344 | a browser command is recorded and nothing else |
| Executor.Runner.Append | backend/agent/executor.py:78-344 | `results.append` adds one record and ends the attempt |
| Executor.Runner.TakeScreenshot | backend/agent/executor.py:24-32 | the screenshot logs and the file name or failure are those of `Snap` |
| Executor.Runner.DismissConsent | backend/agent/executor.py:65-76 | clicks the first found and visible consent button, only it, and logs it |
| Executor.Runner.RunGoto | backend/agent/executor.py:59-86 | a `goto` attempt performs exactly `GotoAttempt` |
| Executor.Runner.LookUp | backend/agent/executor.py:89-103 | find-then-heal: the finder's element, else the healer's, with the matching logs; a healer query that throws is reported with its error |
| Executor.Runner.RunClick | backend/agent/executor.py:88-123 | a `click` attempt performs exactly `ClickAttempt` |
| Executor.Runner.RunType | backend/agent/executor.py:126-156 | a `type` attempt performs exactly `TypeAttempt` |
| Executor.Runner.RunHover | backend/agent/executor.py:159-183 | a `hover` attempt performs exactly `HoverAttempt` |
| Executor.Runner.RunSelect | backend/agent/executor.py:186-224 | a `select` attempt performs exactly `SelectAttempt` |
| Executor.Runner.Choose | backend/agent/executor.py:196-222 | native or click-to-select option choice performs exactly `ChooseAttempt` |
| Executor.Runner.RunWait | backend/agent/executor.py:227-236 | a `wait` attempt performs exactly `WaitAttempt` |
| Executor.Runner.RunScroll | backend/agent/executor.py:239-250 | a `scroll` attempt performs exactly `ScrollAttempt` |
| Executor.Runner.FindSearchBox | backend/agent/executor.py:256-286 | the discovery tiers log what `DiscoveryLogs` says and find a box exactly when `HasSearchBox` |
| Executor.Runner.FillSearchBox | backend/agent/executor.py:289-316 | filling and submitting performs exactly `FillAttempt` |
| Executor.Runner.RunSearch | backend/agent/executor.py:253-316 | a `search` attempt performs exactly `SearchAttempt` |
| Executor.Runner.RunVerify | backend/agent/executor.py:319-344 | a `verify` attempt performs exactly `VerifyAttempt` |
| Executor.Runner.RunAttempt | backend/agent/executor.py:57-344 | one attempt dispatches on the step type and performs exactly `AttemptOf` |
| Executor.Runner.TryAttempt | backend/agent/executor.py:56-58 | attempt `k` of a step runs on the page of that attempt |
| Executor.Runner.RunTries | backend/agent/executor.py:51-349 | the retry loop performs exactly `Tries`: each attempt's logs and commands, the `Step n attempt k failed` line after each raise, the first record, and the last error |
| Executor.Runner.RunStep | backend/agent/executor.py:51-360 | one step performs exactly `StepOf` |
| Executor.Runner.EndStep | backend/agent/executor.py:51-360 | the attempts, then the exhausted log and FAIL record (or the escaping `KeyError` for a missing type) when none recorded |
| Executor.Runner.TakeStep | backend/agent/executor.py:51-360 | one step of the loop ends as the run's description of that step says |
| Executor.Runner.RunSteps | backend/agent/executor.py:51-360 | the step loop performs exactly `RunUpTo` over every step |
| Executor.RunTest | backend/agent/executor.py:11-374 | `run_test` returns exactly `RunTestResult` and issues exactly `RunCommands` |
| ExecutionProps.OneRecordPerStep | backend/agent/executor.py:51-360 | without a fatal error, step `j` leaves exactly one record, its own |
| ExecutionProps.RunGrows | backend/agent/executor.py:51-360 | results, logs and commands only grow from step to step |
| ExecutionProps.AtMostThreeAttempts | backend/agent/executor.py:54-56 | only the first three attempts matter |
| ExecutionProps.FirstRecordWins | backend/agent/executor.py:56-349 | a step's record is that of its first attempt that records; no earlier attempt recorded |
| ExecutionProps.AllAttemptsRaise | backend/agent/executor.py:346-349 | when all three attempts raise, each attempt's logs are followed by its `Step n attempt i failed` line, the commands of all three are kept, nothing is recorded and the third error is the last error |
| ExecutionProps.AllFallThrough | backend/agent/executor.py:56-349 | attempts of an unknown type leave nothing and keep the last error |
| ExecutionProps.AttemptRecordNumbered | backend/agent/executor.py:78-344 | every record an attempt appends carries its step number |
| ExecutionProps.StepRecordNumbered | backend/agent/executor.py:51-360 | a finished step's record carries its step number |
| ExecutionProps.UnknownTypeFallsThrough | backend/agent/executor.py:59-344 | an unknown step type matches no branch in any attempt |
| ExecutionProps.UnknownTypeFails | backend/agent/executor.py:351-360 | an unknown step type ends in a FAIL record with error `None` and the upper-cased type |
| ExecutionProps.MissingTypeRaises | backend/agent/executor.py:59 | a step without a type raises `KeyError('type')` in every attempt |
| ExecutionProps.MissingTypeIsFatal | backend/agent/executor.py:346-354 | a missing type fails three times and then raises outside the retry loop |
| ExecutionProps.VerifyNoRetry | backend/agent/executor.py:319-344 | a verify step always ends on its first attempt |
| ExecutionProps.RunRecordsNumbered | backend/agent/executor.py:51-374 | without fatal errors, the run returns one record per step, numbered 1..n |
| ExecutionProps.ResultShape | backend/agent/executor.py:11-374 | the result is either one SYSTEM/Playwright FAIL record or one record per step, numbered 1..n |
| ExecutionProps.MissingTypeEndsRun | backend/agent/executor.py:364-372 | a step without a type ends the run with one SYSTEM record, and the logs stop after that step |
| ExecutionProps.LaunchFailure | backend/agent/executor.py:34-49 | a failed launch returns one SYSTEM record, no logs and no commands |
| ExecutionProps.FinderBeforeHealer | backend/agent/executor.py:89-103 | when the finder finds the element, the healer is never consulted |
| ExecutionProps.HealerOnMiss | backend/agent/executor.py:95-103 | when the finder misses, the healer's answer is used and logged |
| ExecutionProps.ClickOutcome | backend/agent/executor.py:88-123 | a click passes exactly when an element is located and the click succeeds; a throwing healer query raises its error, a missing element raises its message |
| ExecutionProps.TypeOutcome | backend/agent/executor.py:126-156 | a type clicks then fills, passes exactly when located and not failing; a throwing healer query raises its error, a missing element raises its message |
| ExecutionProps.HoverOutcome | backend/agent/executor.py:159-183 | a hover passes exactly when located and not failing; a throwing healer query raises its error, a missing element raises its message |
| ExecutionProps.SelectOutcome | backend/agent/executor.py:186-224 | a `<select>` gets the option selected, a wrapper its inner `<select>`, a custom dropdown a click and then the option's click; passes exactly when dropdown and, for custom ones, option are found; a throwing healer query raises its error |
| ExecutionProps.GotoOutcome | backend/agent/executor.py:59-86 | navigation comes first, the consent click follows only when found, and it passes exactly when navigation succeeds |
| ExecutionProps.VerifyAlwaysRecords | backend/agent/executor.py:319-344 | verify always records; PASS exactly when the URL contains `google` or `search`, or the lower-cased value occurs in the lower-cased title or content; FAIL with an error otherwise |
| ExecutionProps.SearchOutcome | backend/agent/executor.py:253-316 | no search box raises; it passes exactly when a box is found and filling succeeds |
| ExecutionProps.ScrollDirection | backend/agent/executor.py:241-242 | the wheel delta is 700 exactly for `down`, -700 otherwise |
| ExecutionProps.ScrollOutcome | backend/agent/executor.py:239-250 | a scroll turns the wheel once and passes exactly when it succeeds |
| ExecutionProps.WaitOutcome | backend/agent/executor.py:227-236 | a wait passes exactly when the value is a non-negative integer; a non-integer raises `int`'s error |
| ExecutionProps.WaitSeconds | backend/agent/executor.py:227-236 | `wait n` pauses n seconds and records `ns` |
| ExecutionProps.DigitsBeforeUnderscore | backend/agent/executor.py:25 | digit prefixes ending at an underscore are equal |
| ExecutionProps.ScreenshotNamesDistinct | backend/agent/executor.py:25 | equal screenshot names come from the same step number |

## Left out

- Playwright, the browser and `time.sleep` are not modelled as code. The page's
  locator queries, visibility, attributes, the failures of browser commands
  and the clock are inputs (`Page`, `Env`, `Browser`). Browser actions and
  the `wait` step's sleep become entries of the `commands` list (`Pause`).
- Not recorded in `commands`: the hover's two-second sleep, the custom
  dropdown's one-second sleep, the scroll's one-second sleep, the two-second
  sleep before a retry, every `wait_for_load_state`, the search trigger's
  click, the `evaluate`/`count` probes of a select and of the search box, and
  the search box's click, fill and Enter. They change nothing the model
  observes.
- The page is fixed within one attempt. Changes between attempts are
  modelled, because each attempt gets its own `Env`.
- An attempt's `env.failure` is the error of one browser command: `goto`,
  the click of a click or type, the hover, the scroll, the selection or the
  custom dropdown's click, and the search box's fill. Every other command of
  the attempt succeeds in the model: the consent click, the fill after a
  type's click, the option click, the select's `evaluate`/`count` probes and
  the search trigger's click.
- VerifyAttempt: `page.title()` and `page.content()` never fail in the model;
  the attempt always records PASS or FAIL.
- Find: a locator whose `is_visible()` raises inside `find_element`'s `try`
  abandons the rest of that selector's matches; the model's visibility is a
  total function, so this case does not arise.
- Healed: an element whose attribute reads raise, which the source's
  per-element `try` skips, is modelled as `attrs(e) == None`; an
  `is_visible()` that raises is modelled as a hidden element, which the healer
  skips in the same way. Only the finder's different handling of that raise
  is not modelled (see the `Find:` line).
- ParseInt: models ASCII digits, ASCII white space and one sign; Python's
  underscores between digits (`1_000`) and Unicode digits are not accepted.
- Repr: escapes only the backslash and the chosen quote; Python's escapes of
  control and non-printable characters are not modelled.
- Executor.Runner.FillSearchBox: the search box's click, fill and Enter are
  not recorded in `commands`. The search discovery tiers are kept as flags on
  `SearchBox`, not as selector lookups.
- `difflib.SequenceMatcher.ratio` is an abstract function parameter. Only
  the cut-off, the single best match and the tie-break order of
  `get_close_matches` are modelled.
- String operations are modelled on ASCII. Python's Unicode `lower`,
  `title` and `isspace` are not modelled.
- `time.time()` in screenshot names is `Camera.clock`, an input.
- The screenshot folder's creation (`os.makedirs`, before the `try`) is
  assumed to succeed; if it raised, `run_test` would raise instead of
  returning the SYSTEM record that ResultShape describes.
- The JSON file write in `generate_report` and the PDF report
  (`generate_pdf_report`) are file I/O and are not modelled.
- Reporter.GenerateReport: the percentage is the exact ratio, without
  `round(..., 2)`'s floating-point rounding.
- `backend/agent/llm_agent.py` is not part of this model.
- `backend/agent/graph.py` only chains the stages. The generator never emits
  hover, select, wait or scroll steps, so the executor's branches for them
  are modelled but are unreachable from the graph.
- The consent labels and the search trigger word are passed in as `Config`.
  `Defaults` holds the values in the source, and `RunTest` uses it.
- `find_element`'s `timeout` argument has no effect in the source and is
  accepted and ignored.
- The `print` calls in `heal_element` are console output and are not
  modelled.
