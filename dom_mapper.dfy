/**
 * The selector strategy engine (`find_element`): from a target description
 * it builds an ordered, de-duplicated list of selector strings -- an exact
 * tier for every casing variant, then a loose tier for every variant, then
 * the raw description -- and scans it against the page, returning the first
 * visible match or, failing that, the first match seen at all.
 */
module DomMapper {
  import opened Wrappers
  import opened Text
  import opened Dom

  // ---------------------------------------------------------------- candidates

  /** The casing variants: the original, then its title case and its lower case when they differ from it. */
  function Variants(selector: string): seq<string> {
    [selector]
    + (if Title(selector) != selector then [Title(selector)] else [])
    + (if Lower(selector) != selector then [Lower(selector)] else [])
  }

  /** The exact-match selectors for one variant, in priority order. */
  function ExactTier(v: string): seq<string> {
    [ "text='" + v + "'",
      "a:text-is('" + v + "')",
      "button:text-is('" + v + "')",
      "[aria-label='" + v + "']",
      "[placeholder='" + v + "']",
      "input[value='" + v + "']" ]
  }

  /** The loose selectors for one variant; the ID slot is `None` when the variant holds a space. */
  function LooseTier(v: string): seq<Option<string>> {
    [ Some("button:has-text('" + v + "')"),
      Some("a:has-text('" + v + "')"),
      Some("input[name*='" + v + "']"),
      Some("text=" + v),
      Some("[data-testid='" + v + "']"),
      if ' ' !in v then Some("#" + v) else None ]
  }

  function Lift(xs: seq<string>): (r: seq<Option<string>>)
    ensures |r| == |xs| && forall k :: 0 <= k < |xs| ==> r[k] == Some(xs[k])
  {
    seq(|xs|, k requires 0 <= k < |xs| => Some(xs[k]))
  }

  /** The exact tiers of all variants, one variant after the other. */
  function ExactStrategies(vs: seq<string>): (r: seq<Option<string>>)
    ensures |r| == 6 * |vs|
  {
    if vs == [] then [] else ExactStrategies(vs[..|vs| - 1]) + Lift(ExactTier(vs[|vs| - 1]))
  }

  /** The loose tiers of all variants, one variant after the other. */
  function LooseStrategies(vs: seq<string>): (r: seq<Option<string>>)
    ensures |r| == 6 * |vs|
  {
    if vs == [] then [] else LooseStrategies(vs[..|vs| - 1]) + LooseTier(vs[|vs| - 1])
  }

  /** The strategy list before cleaning: every exact tier, then every loose tier. */
  function RawStrategies(selector: string): seq<Option<string>> {
    ExactStrategies(Variants(selector)) + LooseStrategies(Variants(selector))
  }

  /** Python truthiness of a slot: `None` and `""` are dropped by `if s`. */
  predicate Truthy(x: Option<string>) {
    x.Some? && x.value != ""
  }

  /** The cleaning pass: keep truthy slots whose string has not been kept before. */
  function Dedupe(xs: seq<Option<string>>): seq<string> {
    if xs == [] then []
    else
      var kept := Dedupe(xs[..|xs| - 1]);
      var x := xs[|xs| - 1];
      if Truthy(x) && x.value !in kept then kept + [x.value] else kept
  }

  function Cleaned(selector: string): seq<string> {
    Dedupe(RawStrategies(selector))
  }

  /** The final strategy list: the cleaned list followed by the raw description. */
  function Strategies(selector: string): seq<string> {
    Cleaned(selector) + [selector]
  }

  // ---------------------------------------------------------------- scan

  /** Every match, strategy by strategy in list order; a strategy that throws contributes nothing. */
  function Found(query: string -> Query, strategies: seq<string>): seq<ElementId> {
    if strategies == [] then []
    else Found(query, strategies[..|strategies| - 1]) + MatchesOf(query(strategies[|strategies| - 1]))
  }

  /** The position of the first visible element of `ids`, or `|ids|` when none is visible. */
  function FirstVisibleIndex(ids: seq<ElementId>, visible: ElementId -> bool): (k: nat)
    ensures k <= |ids|
    ensures forall j :: 0 <= j < k ==> !visible(ids[j])
    ensures k < |ids| ==> visible(ids[k])
  {
    if ids == [] || visible(ids[0]) then 0 else 1 + FirstVisibleIndex(ids[1..], visible)
  }

  /** The first visible element of `ids`. */
  function FirstVisible(ids: seq<ElementId>, visible: ElementId -> bool): Option<ElementId> {
    var k := FirstVisibleIndex(ids, visible);
    if k < |ids| then Some(ids[k]) else None
  }

  /** What the scan returns: the first visible match, else the first match, else nothing. */
  function Resolve(query: string -> Query, visible: ElementId -> bool, strategies: seq<string>): Option<ElementId> {
    var found := Found(query, strategies);
    if FirstVisible(found, visible).Some? then FirstVisible(found, visible)
    else if found == [] then None
    else Some(found[0])
  }

  /** `find_element(page, selector, timeout)`; the page is `query` with `visible`, and `timeout` is unused. */
  method FindElement(query: string -> Query, visible: ElementId -> bool, selector: string, timeout: int)
    returns (r: Option<ElementId>)
    ensures r == Resolve(query, visible, Strategies(selector))
  {
    var variations := [selector];
    if Title(selector) != selector { variations := variations + [Title(selector)]; }
    if Lower(selector) != selector { variations := variations + [Lower(selector)]; }
    assert variations == Variants(selector);

    var strategies := BuildStrategies(variations);
    var cleaned := CleanStrategies(strategies);
    cleaned := cleaned + [selector];
    r := Scan(query, visible, cleaned);
  }

  /** The two loops that extend the strategy list: every exact tier, then every loose tier. */
  method BuildStrategies(variations: seq<string>) returns (strategies: seq<Option<string>>)
    ensures strategies == ExactStrategies(variations) + LooseStrategies(variations)
  {
    strategies := [];
    for i := 0 to |variations|
      invariant strategies == ExactStrategies(variations[..i])
    {
      assert variations[..i + 1][..i] == variations[..i];
      strategies := strategies + Lift(ExactTier(variations[i]));
    }
    assert variations[..|variations|] == variations;
    ghost var exact := strategies;
    for i := 0 to |variations|
      invariant strategies == exact + LooseStrategies(variations[..i])
    {
      assert variations[..i + 1][..i] == variations[..i];
      strategies := strategies + LooseTier(variations[i]);
    }
  }

  /** The cleaning loop: a `seen` set and a list built in place. */
  method CleanStrategies(strategies: seq<Option<string>>) returns (cleaned: seq<string>)
    ensures cleaned == Dedupe(strategies)
  {
    var seen: set<string> := {};
    cleaned := [];
    for i := 0 to |strategies|
      invariant cleaned == Dedupe(strategies[..i])
      invariant forall x :: x in seen <==> x in cleaned
    {
      assert strategies[..i + 1][..i] == strategies[..i];
      var s := strategies[i];
      if Truthy(s) && s.value !in seen {
        cleaned := cleaned + [s.value];
        seen := seen + {s.value};
      }
    }
    assert strategies[..|strategies|] == strategies;
  }

  /** The scan: return the first visible match, remembering the first match of all as the fallback. */
  method Scan(query: string -> Query, visible: ElementId -> bool, strategies: seq<string>) returns (r: Option<ElementId>)
    ensures r == Resolve(query, visible, strategies)
  {
    var best: Option<ElementId> := None;
    for i := 0 to |strategies|
      invariant FirstVisible(Found(query, strategies[..i]), visible).None?
      invariant best == if Found(query, strategies[..i]) == [] then None else Some(Found(query, strategies[..i])[0])
    {
      assert strategies[..i + 1][..i] == strategies[..i];
      var before := Found(query, strategies[..i]);
      var q := query(strategies[i]);
      if q.Matches? {
        var locs := q.ids;
        for j := 0 to |locs|
          invariant forall k :: 0 <= k < j ==> !visible(locs[k])
          invariant best == if before + locs[..j] == [] then None else Some((before + locs[..j])[0])
        {
          if visible(locs[j]) {
            ScanStopsAtVisible(query, visible, strategies, i, j);
            return Some(locs[j]);
          }
          if best == None {
            best := Some(locs[j]);
          }
        }
        assert locs[..|locs|] == locs;
      }
      FirstVisibleAppend(before, MatchesOf(q), visible);
    }
    assert strategies[..|strategies|] == strategies;
    r := best;
  }

  /** The scan may stop at the first visible match of strategy `i` once nothing earlier was visible. */
  lemma ScanStopsAtVisible(query: string -> Query, visible: ElementId -> bool, strategies: seq<string>, i: nat, j: nat)
    requires i < |strategies| && query(strategies[i]).Matches?
    requires j < |query(strategies[i]).ids| && visible(query(strategies[i]).ids[j])
    requires FirstVisible(Found(query, strategies[..i]), visible).None?
    requires forall k :: 0 <= k < j ==> !visible(query(strategies[i]).ids[k])
    ensures Resolve(query, visible, strategies) == Some(query(strategies[i]).ids[j])
  {
    FoundSplit(query, strategies, i);
    FirstVisibleInMiddle(Found(query, strategies[..i]), query(strategies[i]).ids, Found(query, strategies[i + 1..]), visible, j);
  }

  lemma FirstVisibleInMiddle(before: seq<ElementId>, locs: seq<ElementId>, rest: seq<ElementId>, visible: ElementId -> bool, j: nat)
    requires FirstVisible(before, visible).None?
    requires j < |locs| && visible(locs[j]) && forall k :: 0 <= k < j ==> !visible(locs[k])
    ensures FirstVisible(before + locs + rest, visible) == Some(locs[j])
  {
    FirstVisibleIs(locs, visible, j);
    FirstVisibleIndexAppend(locs, rest, visible);
    FirstVisibleIndexAppend(before, locs + rest, visible);
    assert before + locs + rest == before + (locs + rest);
    assert (before + (locs + rest))[|before| + j] == locs[j];
  }

  /** The matches of all strategies, split around strategy `i`. */
  lemma FoundSplit(query: string -> Query, strategies: seq<string>, i: nat)
    requires i < |strategies|
    ensures Found(query, strategies)
         == Found(query, strategies[..i]) + MatchesOf(query(strategies[i])) + Found(query, strategies[i + 1..])
  {
    var a, post := strategies[..i + 1], strategies[i + 1..];
    calc {
      Found(query, strategies);
      { assert strategies == a + post; }
      Found(query, a + post);
      { FoundAppend(query, a, post); }
      Found(query, a) + Found(query, post);
      { assert a[..|a| - 1] == strategies[..i]; }
      Found(query, strategies[..i]) + MatchesOf(query(strategies[i])) + Found(query, post);
    }
  }

  lemma {:induction false} FirstVisibleIndexAppend(a: seq<ElementId>, b: seq<ElementId>, visible: ElementId -> bool)
    ensures FirstVisibleIndex(a + b, visible)
         == if FirstVisibleIndex(a, visible) < |a| then FirstVisibleIndex(a, visible) else |a| + FirstVisibleIndex(b, visible)
  {
    if a != [] {
      FirstVisibleIndexAppend(a[1..], b, visible);
      assert (a + b)[1..] == a[1..] + b;
    } else {
      assert a + b == b;
    }
  }

  /** A visible element with only invisible ones before it is the first visible one. */
  lemma FirstVisibleIs(ids: seq<ElementId>, visible: ElementId -> bool, k: nat)
    requires k < |ids| && visible(ids[k])
    requires forall j :: 0 <= j < k ==> !visible(ids[j])
    ensures FirstVisibleIndex(ids, visible) == k && FirstVisible(ids, visible) == Some(ids[k])
  {
  }

  // ---------------------------------------------------------------- lemmas: candidates

  /**
   * There are one to three variants, the original first, all of the same
   * length and pairwise distinct.
   */
  lemma VariantsShape(selector: string)
    ensures var vs := Variants(selector);
      && 1 <= |vs| <= 3 && vs[0] == selector
      && (forall k :: 0 <= k < |vs| ==> |vs[k]| == |selector|)
      && (forall k, m :: 0 <= k < m < |vs| ==> vs[k] != vs[m])
  {
    if Lower(selector) != selector {
      TitleDiffersFromLower(selector);
    }
  }

  /** Every variant holds a space exactly when the description does. */
  lemma VariantSpaces(selector: string, v: string)
    requires v in Variants(selector)
    ensures ' ' in v <==> ' ' in selector
  {
    SpacePreserved(selector);
  }

  lemma {:induction false} DedupeMembers(xs: seq<Option<string>>)
    ensures forall x :: x in Dedupe(xs) <==> Some(x) in xs && x != ""
  {
    if xs != [] {
      DedupeMembers(xs[..|xs| - 1]);
      assert xs == xs[..|xs| - 1] + [xs[|xs| - 1]];
    }
  }

  predicate NoDuplicates(s: seq<string>) {
    forall i, j :: 0 <= i < j < |s| ==> s[i] != s[j]
  }

  lemma {:induction false} DedupeNoDuplicates(xs: seq<Option<string>>)
    ensures NoDuplicates(Dedupe(xs))
  {
    if xs != [] {
      DedupeNoDuplicates(xs[..|xs| - 1]);
    }
  }

  lemma DedupeShorter(xs: seq<Option<string>>)
    ensures |Dedupe(xs)| <= |xs|
  {
  }

  /**
   * Reference definition of the cleaned list: the strings of the truthy
   * slots that do not occur at an earlier slot, in slot order.
   */
  function FirstOccurrences(xs: seq<Option<string>>): seq<string> {
    if xs == [] then []
    else
      var last := xs[|xs| - 1];
      FirstOccurrences(xs[..|xs| - 1])
      + (if Truthy(last) && last !in xs[..|xs| - 1] then [last.value] else [])
  }

  /** The seen-set pass computes exactly the first-occurrence subsequence. */
  lemma {:induction false} DedupeIsFirstOccurrences(xs: seq<Option<string>>)
    ensures Dedupe(xs) == FirstOccurrences(xs)
  {
    if xs != [] {
      var init := xs[..|xs| - 1];
      DedupeIsFirstOccurrences(init);
      DedupeMembers(init);
    }
  }

  /** Cleaning `a + b` keeps the cleaning of `a` as a prefix; what follows comes from `b` and not from `a`. */
  lemma {:induction false} DedupeAppend(a: seq<Option<string>>, b: seq<Option<string>>)
    ensures |Dedupe(a)| <= |Dedupe(a + b)|
    ensures Dedupe(a + b)[..|Dedupe(a)|] == Dedupe(a)
    ensures forall k :: |Dedupe(a)| <= k < |Dedupe(a + b)| ==> Some(Dedupe(a + b)[k]) in b && Some(Dedupe(a + b)[k]) !in a
  {
    if b == [] {
      assert a + b == a;
    } else {
      var b' := b[..|b| - 1];
      DedupeAppend(a, b');
      assert (a + b)[..|a + b| - 1] == a + b';
      DedupeMembers(a);
      DedupeMembers(a + b');
    }
  }

  lemma {:induction false} ExactStrategiesMembers(vs: seq<string>, x: Option<string>)
    requires x in ExactStrategies(vs)
    ensures exists k :: 0 <= k < |vs| && x.Some? && x.value in ExactTier(vs[k])
  {
    var init := vs[..|vs| - 1];
    if x in ExactStrategies(init) {
      ExactStrategiesMembers(init, x);
      var k :| 0 <= k < |init| && x.Some? && x.value in ExactTier(init[k]);
      assert vs[k] == init[k];
    } else {
      var xs := ExactTier(vs[|vs| - 1]);
      var i :| 0 <= i < |xs| && x == Lift(xs)[i];
      assert x.value in ExactTier(vs[|vs| - 1]);
    }
  }

  lemma {:induction false} LooseStrategiesMembers(vs: seq<string>, x: Option<string>)
    requires x in LooseStrategies(vs)
    ensures exists k :: 0 <= k < |vs| && x in LooseTier(vs[k])
  {
    var init := vs[..|vs| - 1];
    if x in LooseStrategies(init) {
      LooseStrategiesMembers(init, x);
      var k :| 0 <= k < |init| && x in LooseTier(init[k]);
      assert vs[k] == init[k];
    }
  }

  lemma {:induction false} LooseStrategiesHas(vs: seq<string>, k: nat, x: Option<string>)
    requires k < |vs| && x in LooseTier(vs[k])
    ensures x in LooseStrategies(vs)
  {
    if k < |vs| - 1 {
      LooseStrategiesHas(vs[..|vs| - 1], k, x);
    }
  }

  /** No exact selector of one variant is a loose selector of a variant of the same length. */
  lemma ExactNotLoose(v: string, w: string, x: string)
    requires |v| == |w| && x in ExactTier(v)
    ensures Some(x) !in LooseTier(w)
  {
    var e := ExactTier(v);
    var l := LooseTier(w);
    assert e[0][0] == 't' && |e[0]| == |v| + 7;
    assert e[1][0] == 'a' && e[1][2] == 't';
    assert e[2][0] == 'b' && e[2][7] == 't';
    assert e[3][0] == '[' && e[3][1] == 'a';
    assert e[4][0] == '[' && e[4][1] == 'p';
    assert e[5][0] == 'i' && e[5][6] == 'v';
    assert l[0].value[0] == 'b' && l[0].value[7] == 'h';
    assert l[1].value[0] == 'a' && l[1].value[2] == 'h';
    assert l[2].value[0] == 'i' && l[2].value[6] == 'n';
    assert l[3].value[0] == 't' && |l[3].value| == |w| + 5;
    assert l[4].value[0] == '[' && l[4].value[1] == 'd';
    assert l[5].Some? ==> l[5].value[0] == '#';
  }

  /**
   * In the cleaned list every exact-tier selector (of any variant) comes
   * before every loose-tier selector (of any variant).
   */
  lemma ExactBeforeLoose(selector: string, i: nat, j: nat)
    requires i < |Cleaned(selector)| && j < |Cleaned(selector)|
    requires Some(Cleaned(selector)[i]) in ExactStrategies(Variants(selector))
    requires Some(Cleaned(selector)[j]) in LooseStrategies(Variants(selector))
    ensures i < j
  {
    var vs := Variants(selector);
    var a := ExactStrategies(vs);
    var b := LooseStrategies(vs);
    var c := Cleaned(selector);
    VariantsShape(selector);
    DedupeAppend(a, b);
    DedupeMembers(a);
    var n := |Dedupe(a)|;
    if j < n {
      assert c[j] == Dedupe(a)[j];
      ExactStrategiesMembers(vs, Some(c[j]));
      var k :| 0 <= k < |vs| && c[j] in ExactTier(vs[k]);
      LooseStrategiesMembers(vs, Some(c[j]));
      var m :| 0 <= m < |vs| && Some(c[j]) in LooseTier(vs[m]);
      ExactNotLoose(vs[k], vs[m], c[j]);
      assert false;
    }
    assert i < n;
  }

  /** The `#id` selector of a variant is in the cleaned list exactly when the description has no space. */
  lemma IdOnlyWithoutSpace(selector: string, v: string)
    requires v in Variants(selector)
    ensures ("#" + v) in Cleaned(selector) <==> ' ' !in selector
  {
    if ' ' !in selector {
      IdPresentWithoutSpace(selector, v);
    }
    if ("#" + v) in Cleaned(selector) {
      IdMeansNoSpace(selector, "#" + v);
    }
  }

  lemma IdPresentWithoutSpace(selector: string, v: string)
    requires v in Variants(selector) && ' ' !in selector
    ensures ("#" + v) in Cleaned(selector)
  {
    var vs := Variants(selector);
    var a := ExactStrategies(vs);
    var b := LooseStrategies(vs);
    var id := "#" + v;
    VariantSpaces(selector, v);
    var k :| 0 <= k < |vs| && vs[k] == v;
    assert LooseTier(v)[5] == Some(id);
    LooseStrategiesHas(vs, k, Some(id));
    assert Some(id) in a + b;
    DedupeMembers(a + b);
  }

  /** Only the ID slot produces a selector starting with `#`, and it is filled only without a space. */
  lemma IdMeansNoSpace(selector: string, id: string)
    requires id in Cleaned(selector) && |id| > 0 && id[0] == '#'
    ensures ' ' !in selector
  {
    var vs := Variants(selector);
    var a := ExactStrategies(vs);
    var b := LooseStrategies(vs);
    DedupeMembers(a + b);
    assert Some(id) in a + b;
    if Some(id) in a {
      ExactStrategiesMembers(vs, Some(id));
      var k :| 0 <= k < |vs| && id in ExactTier(vs[k]);
      ExactNoHash(vs[k], id);
    } else {
      LooseStrategiesMembers(vs, Some(id));
      var m :| 0 <= m < |vs| && Some(id) in LooseTier(vs[m]);
      LooseHash(vs[m], id);
      VariantSpaces(selector, vs[m]);
    }
  }

  /** No exact selector starts with `#`. */
  lemma ExactNoHash(v: string, x: string)
    requires x in ExactTier(v)
    ensures |x| > 0 && x[0] != '#'
  {
    var e := ExactTier(v);
    assert e[0][0] == 't' && e[1][0] == 'a' && e[2][0] == 'b';
    assert e[3][0] == '[' && e[4][0] == '[' && e[5][0] == 'i';
  }

  /** The only loose selector starting with `#` is the ID slot, filled only for a variant without a space. */
  lemma LooseHash(w: string, x: string)
    requires Some(x) in LooseTier(w) && |x| > 0 && x[0] == '#'
    ensures ' ' !in w
  {
    var l := LooseTier(w);
    assert l[0].value[0] == 'b' && l[1].value[0] == 'a' && l[2].value[0] == 'i';
    assert l[3].value[0] == 't' && l[4].value[0] == '[';
  }

  /**
   * The final list ends with the raw description, so it is never empty; the
   * part before it has no duplicates and no more than twelve selectors per
   * variant.
   */
  lemma StrategiesShape(selector: string)
    ensures var s := Strategies(selector);
      && |s| >= 1 && s[|s| - 1] == selector
      && |s| <= 12 * |Variants(selector)| + 1
      && NoDuplicates(Cleaned(selector))
      && (forall x :: x in Cleaned(selector) <==> Some(x) in RawStrategies(selector) && x != "")
  {
    DedupeShorter(RawStrategies(selector));
    DedupeNoDuplicates(RawStrategies(selector));
    DedupeMembers(RawStrategies(selector));
  }

  // ---------------------------------------------------------------- lemmas: scan

  lemma {:induction false} FoundAppend(query: string -> Query, a: seq<string>, b: seq<string>)
    ensures Found(query, a + b) == Found(query, a) + Found(query, b)
  {
    if b != [] {
      FoundAppend(query, a, b[..|b| - 1]);
      assert (a + b)[..|a + b| - 1] == a + b[..|b| - 1];
    } else {
      assert a + b == a;
    }
  }

  lemma {:induction false} FirstVisibleAppend(a: seq<ElementId>, b: seq<ElementId>, visible: ElementId -> bool)
    ensures FirstVisible(a + b, visible) == if FirstVisible(a, visible).Some? then FirstVisible(a, visible) else FirstVisible(b, visible)
  {
    if a != [] {
      FirstVisibleAppend(a[1..], b, visible);
      assert (a + b)[1..] == a[1..] + b;
    } else {
      assert a + b == b;
    }
  }

  /**
   * A visible match wins: the result is the first visible element in the
   * order strategies are listed and matches are returned.
   */
  lemma ResolveFirstVisible(query: string -> Query, visible: ElementId -> bool, strategies: seq<string>, k: nat)
    requires var found := Found(query, strategies);
      k < |found| && visible(found[k]) && forall j :: 0 <= j < k ==> !visible(found[j])
    ensures Resolve(query, visible, strategies) == Some(Found(query, strategies)[k])
  {
    var found := Found(query, strategies);
    var r := FirstVisible(found, visible);
    var k' :| 0 <= k' < |found| && found[k'] == r.value && visible(found[k'])
              && forall j :: 0 <= j < k' ==> !visible(found[j]);
    assert k' == k;
  }

  /** With nothing visible, the result is the first match of any strategy, or nothing when none matched. */
  lemma ResolveNothingVisible(query: string -> Query, visible: ElementId -> bool, strategies: seq<string>)
    requires forall e :: e in Found(query, strategies) ==> !visible(e)
    ensures var found := Found(query, strategies);
      Resolve(query, visible, strategies) == if found == [] then None else Some(found[0])
  {
  }

  /** A strategy whose query throws is skipped: removing it does not change the result. */
  lemma ResolveSkipsThrowing(query: string -> Query, visible: ElementId -> bool, before: seq<string>, s: string, after: seq<string>)
    requires query(s).Throws?
    ensures Resolve(query, visible, before + [s] + after) == Resolve(query, visible, before + after)
  {
    FoundAppend(query, before + [s], after);
    FoundAppend(query, before, [s]);
    FoundAppend(query, before, after);
    assert Found(query, [s]) == Found(query, []) + MatchesOf(query(s));
    assert Found(query, before + [s]) == Found(query, before);
  }

  /** Whatever is returned was matched by one of the strategies. */
  lemma {:induction false} ResolveSound(query: string -> Query, visible: ElementId -> bool, strategies: seq<string>)
    requires Resolve(query, visible, strategies).Some?
    ensures exists s :: s in strategies && Resolve(query, visible, strategies).value in MatchesOf(query(s))
  {
    var e := Resolve(query, visible, strategies).value;
    FoundSound(query, strategies, e);
  }

  lemma {:induction false} FoundSound(query: string -> Query, strategies: seq<string>, e: ElementId)
    requires e in Found(query, strategies)
    ensures exists s :: s in strategies && e in MatchesOf(query(s))
  {
    var init := strategies[..|strategies| - 1];
    if e in Found(query, init) {
      FoundSound(query, init, e);
      var s :| s in init && e in MatchesOf(query(s));
      assert s in strategies;
    } else {
      assert strategies[|strategies| - 1] in strategies;
    }
  }
}
