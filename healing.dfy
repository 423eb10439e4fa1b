/**
 * The fuzzy healing resolver (`heal_element`): every visible, readable
 * interactive element gets a lower-cased signature built from its text and
 * descriptive attributes; the element whose signature is most similar to the
 * target (similarity at least 0.3) is returned, else the first whose
 * signature contains the lower-cased target, else nothing.
 *
 * The similarity measure (`difflib`'s ratio) is a parameter: only the
 * cut-off, the arg-max and the substring fallback are modelled.
 */
module Healing {
  import opened Wrappers
  import opened Text
  import opened Dom

  /** The similarity cut-off given to `difflib.get_close_matches`. */
  const Cutoff: real := 0.3

  // ---------------------------------------------------------------- signatures

  /** `(x or "").strip()` */
  function Field(x: Option<string>): (r: string)
    ensures Trimmed(r)
    ensures x.None? ==> r == ""
    ensures x.Some? ==> r == Strip(x.value)
  {
    if x.Some? then Strip(x.value) else ""
  }

  /** The text, aria-label, placeholder, value and title fields joined by single spaces. */
  function Joined(a: Attributes): string {
    Field(a.text) + " " + Field(a.ariaLabel) + " " + Field(a.placeholder) + " " + Field(a.value) + " " + Field(a.title)
  }

  /** The element signature: the joined fields, outer-stripped and lower-cased. */
  function Signature(a: Attributes): string {
    Lower(Strip(Joined(a)))
  }

  /** The signature is empty exactly when all five fields are missing or blank. */
  lemma SignatureEmpty(a: Attributes)
    ensures Signature(a) == "" <==>
      Field(a.text) == "" && Field(a.ariaLabel) == "" && Field(a.placeholder) == ""
      && Field(a.value) == "" && Field(a.title) == ""
  {
    var f1, f2, f3, f4, f5 := Field(a.text), Field(a.ariaLabel), Field(a.placeholder), Field(a.value), Field(a.title);
    StripEmpty(Joined(a));
    SpaceJoinAllSpace(f1 + " " + f2 + " " + f3 + " " + f4, f5);
    SpaceJoinAllSpace(f1 + " " + f2 + " " + f3, f4);
    SpaceJoinAllSpace(f1 + " " + f2, f3);
    SpaceJoinAllSpace(f1, f2);
    TrimmedBlank(f1);
    TrimmedBlank(f2);
    TrimmedBlank(f3);
    TrimmedBlank(f4);
    TrimmedBlank(f5);
  }

  /** A trimmed string is all white space only when it is empty. */
  lemma TrimmedBlank(f: string)
    requires Trimmed(f)
    ensures AllSpace(f) <==> f == ""
  {
  }

  /** A signature is already lower case. */
  lemma SignatureLowerCase(a: Attributes)
    ensures Lower(Signature(a)) == Signature(a)
  {
    LowerIdempotent(Strip(Joined(a)));
  }

  // ---------------------------------------------------------------- candidates

  /** The signature under which an element becomes a candidate: it must be visible, readable and not blank. */
  function CandidateSignature(e: ElementId, visible: ElementId -> bool, attrs: ElementId -> Option<Attributes>): Option<string> {
    if !visible(e) || attrs(e).None? then None
    else if Signature(attrs(e).value) == "" then None
    else Some(Signature(attrs(e).value))
  }

  /** The signature each element is kept under, position by position (`None` where it is skipped). */
  function KeptSignatures(elements: seq<ElementId>, visible: ElementId -> bool, attrs: ElementId -> Option<Attributes>): (sigs: seq<Option<string>>)
    ensures |sigs| == |elements|
    ensures forall i :: 0 <= i < |elements| ==> sigs[i] == CandidateSignature(elements[i], visible, attrs)
  {
    seq(|elements|, i requires 0 <= i < |elements| => CandidateSignature(elements[i], visible, attrs))
  }

  /** The `candidates` list: the kept signatures in scan order (repeats kept). */
  function Candidates(sigs: seq<Option<string>>): seq<string> {
    if sigs == [] then []
    else
      var init := Candidates(sigs[..|sigs| - 1]);
      match sigs[|sigs| - 1]
      case Some(sig) => init + [sig]
      case None => init
  }

  /** The `element_map` dict: a later element with the same signature overwrites an earlier one. */
  function ElementMap(elements: seq<ElementId>, sigs: seq<Option<string>>): (m: map<string, ElementId>)
    requires |sigs| == |elements|
    ensures forall sig :: sig in m <==> sig in Candidates(sigs)
  {
    if sigs == [] then map[]
    else
      var n := |sigs| - 1;
      var init := ElementMap(elements[..n], sigs[..n]);
      match sigs[n]
      case Some(sig) => init[sig := elements[n]]
      case None => init
  }

  // ---------------------------------------------------------------- difflib

  /** Python's string order: code point by code point, a proper prefix first. */
  predicate StrLess(a: string, b: string) {
    if a == [] then b != []
    else if b == [] then false
    else if a[0] != b[0] then a[0] < b[0]
    else StrLess(a[1..], b[1..])
  }

  lemma {:induction false} StrLessTransitive(a: string, b: string, c: string)
    requires StrLess(a, b) && StrLess(b, c)
    ensures StrLess(a, c)
  {
    if a != [] && b != [] && c != [] && a[0] == b[0] && b[0] == c[0] {
      StrLessTransitive(a[1..], b[1..], c[1..]);
    }
  }

  lemma {:induction false} StrLessIrreflexive(a: string)
    ensures !StrLess(a, a)
  {
    if a != [] {
      StrLessIrreflexive(a[1..]);
    }
  }

  /** `(score(x), x) > (score(y), y)`, the tuple order `heapq.nlargest` ranks matches by. */
  predicate Outranks(x: string, y: string, word: string, ratio: (string, string) -> real) {
    ratio(x, word) > ratio(y, word) || (ratio(x, word) == ratio(y, word) && StrLess(y, x))
  }

  lemma OutranksTransitive(x: string, y: string, z: string, word: string, ratio: (string, string) -> real)
    requires Outranks(x, y, word, ratio) && Outranks(y, z, word, ratio)
    ensures Outranks(x, z, word, ratio)
  {
    if ratio(x, word) == ratio(y, word) && ratio(y, word) == ratio(z, word) {
      StrLessTransitive(z, y, x);
    }
  }

  /**
   * `difflib.get_close_matches(word, candidates, n=1, cutoff=0.3)`: among
   * the candidates scoring at least the cut-off, the one no other outranks.
   */
  function CloseMatch(word: string, candidates: seq<string>, ratio: (string, string) -> real): (r: Option<string>)
    ensures r.None? <==> forall c :: c in candidates ==> ratio(c, word) < Cutoff
    ensures r.Some? ==> r.value in candidates && ratio(r.value, word) >= Cutoff
    ensures r.Some? ==> forall c :: c in candidates && ratio(c, word) >= Cutoff ==> !Outranks(c, r.value, word, ratio)
  {
    if candidates == [] then None
    else
      var init := candidates[..|candidates| - 1];
      var c := candidates[|candidates| - 1];
      var best := CloseMatch(word, init, ratio);
      assert candidates == init + [c];
      if ratio(c, word) < Cutoff then best
      else if best.None? then
        StrLessIrreflexive(c);
        Some(c)
      else if Outranks(c, best.value, word, ratio) then
        CloseMatchKeepsOrder(word, init, ratio, best.value, c);
        Some(c)
      else best
  }

  lemma CloseMatchKeepsOrder(word: string, init: seq<string>, ratio: (string, string) -> real, best: string, c: string)
    requires Outranks(c, best, word, ratio)
    requires forall x :: x in init && ratio(x, word) >= Cutoff ==> !Outranks(x, best, word, ratio)
    ensures forall x :: x in init + [c] && ratio(x, word) >= Cutoff ==> !Outranks(x, c, word, ratio)
  {
    forall x | x in init + [c] && ratio(x, word) >= Cutoff ensures !Outranks(x, c, word, ratio) {
      if x == c {
        StrLessIrreflexive(c);
      } else if Outranks(x, c, word, ratio) {
        OutranksTransitive(x, c, best, word, ratio);
      }
    }
  }

  /** The first candidate that contains `word`. */
  function FirstContaining(candidates: seq<string>, word: string): (r: Option<string>)
    ensures r.None? <==> forall i :: 0 <= i < |candidates| ==> !Contains(candidates[i], word)
    ensures r.Some? ==> exists i :: 0 <= i < |candidates| && candidates[i] == r.value && Contains(r.value, word)
                          && forall j :: 0 <= j < i ==> !Contains(candidates[j], word)
  {
    if candidates == [] then None
    else if Contains(candidates[0], word) then Some(candidates[0])
    else
      var r := FirstContaining(candidates[1..], word);
      assert forall i :: 1 <= i < |candidates| ==> candidates[i] == candidates[1..][i - 1];
      r
  }

  // ---------------------------------------------------------------- resolution

  /** What `heal_element` returns. */
  function Heal(elements: seq<ElementId>, visible: ElementId -> bool, attrs: ElementId -> Option<Attributes>,
                target: string, ratio: (string, string) -> real): Option<ElementId>
  {
    var sigs := KeptSignatures(elements, visible, attrs);
    var candidates := Candidates(sigs);
    var elementMap := ElementMap(elements, sigs);
    var word := Lower(target);
    match CloseMatch(word, candidates, ratio)
    case Some(key) => Some(elementMap[key])
    case None =>
      match FirstContaining(candidates, word)
      case Some(key) => Some(elementMap[key])
      case None => None
  }

  /** `heal_element(page, target_text)`; the page is given by its interactive elements, `visible` and `attrs`. */
  method HealElement(elements: seq<ElementId>, visible: ElementId -> bool, attrs: ElementId -> Option<Attributes>,
                     target: string, ratio: (string, string) -> real)
    returns (r: Option<ElementId>)
    ensures r == Heal(elements, visible, attrs, target, ratio)
  {
    var candidates, elementMap := CollectCandidates(elements, visible, attrs);
    var word := Lower(target);
    var matches := CloseMatch(word, candidates, ratio);
    if matches.Some? {
      return Some(elementMap[matches.value]);
    }
    var key := SubstringFallback(candidates, word);
    if key.Some? {
      return Some(elementMap[key.value]);
    }
    return None;
  }

  /** The scan over the interactive elements that fills `candidates` and `element_map`. */
  method CollectCandidates(elements: seq<ElementId>, visible: ElementId -> bool, attrs: ElementId -> Option<Attributes>)
    returns (candidates: seq<string>, elementMap: map<string, ElementId>)
    ensures candidates == Candidates(KeptSignatures(elements, visible, attrs))
    ensures elementMap == ElementMap(elements, KeptSignatures(elements, visible, attrs))
  {
    ghost var sigs := KeptSignatures(elements, visible, attrs);
    candidates := [];
    elementMap := map[];
    for i := 0 to |elements|
      invariant candidates == Candidates(sigs[..i])
      invariant elementMap == ElementMap(elements[..i], sigs[..i])
    {
      assert sigs[..i + 1][..i] == sigs[..i];
      assert elements[..i + 1][..i] == elements[..i];
      var el := elements[i];
      assert sigs[i] == CandidateSignature(el, visible, attrs);
      if !visible(el) {
        continue;
      }
      match attrs(el)
      case None =>
        continue;
      case Some(a) =>
        var signature := Signature(a);
        if signature != "" {
          candidates := candidates + [signature];
          elementMap := elementMap[signature := el];
        }
    }
    assert sigs[..|elements|] == sigs;
    assert elements[..|elements|] == elements;
  }

  /** The loop that returns the first candidate containing the lower-cased target. */
  method SubstringFallback(candidates: seq<string>, word: string) returns (r: Option<string>)
    ensures r == FirstContaining(candidates, word)
  {
    for i := 0 to |candidates|
      invariant forall j :: 0 <= j < i ==> !Contains(candidates[j], word)
    {
      if Contains(candidates[i], word) {
        FirstContainingIs(candidates, word, i);
        return Some(candidates[i]);
      }
    }
    return None;
  }

  lemma FirstContainingIs(candidates: seq<string>, word: string, i: nat)
    requires i < |candidates| && Contains(candidates[i], word)
    requires forall j :: 0 <= j < i ==> !Contains(candidates[j], word)
    ensures FirstContaining(candidates, word) == Some(candidates[i])
  {
    var r := FirstContaining(candidates, word);
    var k :| 0 <= k < |candidates| && candidates[k] == r.value && Contains(r.value, word)
             && forall j :: 0 <= j < k ==> !Contains(candidates[j], word);
    assert k == i;
  }

  // ---------------------------------------------------------------- lemmas

  /** Position `i` is the last one kept under signature `sig`. */
  predicate LastKept(sigs: seq<Option<string>>, sig: string, i: int) {
    && 0 <= i < |sigs|
    && sigs[i] == Some(sig)
    && forall j :: i < j < |sigs| ==> sigs[j] != Some(sig)
  }

  /** A signature in the map belongs to the last element kept under that signature. */
  lemma {:induction false} ElementMapLast(elements: seq<ElementId>, sigs: seq<Option<string>>, sig: string)
    requires |sigs| == |elements| && sig in ElementMap(elements, sigs)
    ensures exists i :: LastKept(sigs, sig, i) && elements[i] == ElementMap(elements, sigs)[sig]
  {
    var n := |sigs| - 1;
    if sigs[n] == Some(sig) {
      assert LastKept(sigs, sig, n);
    } else {
      ElementMapLast(elements[..n], sigs[..n], sig);
      var i :| LastKept(sigs[..n], sig, i) && elements[..n][i] == ElementMap(elements[..n], sigs[..n])[sig];
      assert LastKept(sigs, sig, i) by {
        forall j | i < j < |sigs| ensures sigs[j] != Some(sig) {
          if j < n { assert sigs[j] == sigs[..n][j]; }
        }
      }
    }
  }

  /** Whatever is returned is one of the elements, visible, readable and with a non-blank signature. */
  lemma HealSound(elements: seq<ElementId>, visible: ElementId -> bool, attrs: ElementId -> Option<Attributes>,
                  target: string, ratio: (string, string) -> real)
    requires Heal(elements, visible, attrs, target, ratio).Some?
    ensures var e := Heal(elements, visible, attrs, target, ratio).value;
      e in elements && visible(e) && attrs(e).Some? && Signature(attrs(e).value) != ""
  {
    var sigs := KeptSignatures(elements, visible, attrs);
    var candidates := Candidates(sigs);
    var word := Lower(target);
    var key := if CloseMatch(word, candidates, ratio).Some? then CloseMatch(word, candidates, ratio).value
               else FirstContaining(candidates, word).value;
    ElementMapLast(elements, sigs, key);
    var i :| LastKept(sigs, key, i) && elements[i] == ElementMap(elements, sigs)[key];
    assert CandidateSignature(elements[i], visible, attrs) == Some(key);
  }

  /** The healed element is the last one kept under the chosen signature. */
  lemma HealLastWins(elements: seq<ElementId>, visible: ElementId -> bool, attrs: ElementId -> Option<Attributes>,
                     target: string, ratio: (string, string) -> real)
    requires Heal(elements, visible, attrs, target, ratio).Some?
    ensures exists i :: (
      && 0 <= i < |elements| && elements[i] == Heal(elements, visible, attrs, target, ratio).value
      && CandidateSignature(elements[i], visible, attrs).Some?
      && forall j :: i < j < |elements| ==> CandidateSignature(elements[j], visible, attrs) != CandidateSignature(elements[i], visible, attrs))
  {
    var sigs := KeptSignatures(elements, visible, attrs);
    var candidates := Candidates(sigs);
    var word := Lower(target);
    var key := if CloseMatch(word, candidates, ratio).Some? then CloseMatch(word, candidates, ratio).value
               else FirstContaining(candidates, word).value;
    ElementMapLast(elements, sigs, key);
    var i :| LastKept(sigs, key, i) && elements[i] == ElementMap(elements, sigs)[key];
    assert forall j :: i < j < |elements| ==> sigs[j] == CandidateSignature(elements[j], visible, attrs);
  }

  /**
   * When some signature scores at least the cut-off, the element of the
   * best-ranked such signature is returned.
   */
  lemma HealPicksBest(elements: seq<ElementId>, visible: ElementId -> bool, attrs: ElementId -> Option<Attributes>,
                      target: string, ratio: (string, string) -> real)
    requires exists c :: c in Candidates(KeptSignatures(elements, visible, attrs)) && ratio(c, Lower(target)) >= Cutoff
    ensures exists best :: (
      && best in Candidates(KeptSignatures(elements, visible, attrs)) && ratio(best, Lower(target)) >= Cutoff
      && (forall c :: c in Candidates(KeptSignatures(elements, visible, attrs)) && ratio(c, Lower(target)) >= Cutoff
            ==> !Outranks(c, best, Lower(target), ratio))
      && Heal(elements, visible, attrs, target, ratio) == Some(ElementMap(elements, KeptSignatures(elements, visible, attrs))[best]))
  {
    var best := CloseMatch(Lower(target), Candidates(KeptSignatures(elements, visible, attrs)), ratio).value;
    assert best in Candidates(KeptSignatures(elements, visible, attrs));
  }

  /**
   * When no signature reaches the cut-off, the element of the first
   * signature containing the lower-cased target is returned, if any.
   */
  lemma HealSubstringFallback(elements: seq<ElementId>, visible: ElementId -> bool, attrs: ElementId -> Option<Attributes>,
                              target: string, ratio: (string, string) -> real, i: nat)
    requires var candidates := Candidates(KeptSignatures(elements, visible, attrs));
      && (forall c :: c in candidates ==> ratio(c, Lower(target)) < Cutoff)
      && i < |candidates| && Contains(candidates[i], Lower(target))
      && forall j :: 0 <= j < i ==> !Contains(candidates[j], Lower(target))
    ensures var candidates := Candidates(KeptSignatures(elements, visible, attrs));
      Heal(elements, visible, attrs, target, ratio) == Some(ElementMap(elements, KeptSignatures(elements, visible, attrs))[candidates[i]])
  {
    FirstContainingIs(Candidates(KeptSignatures(elements, visible, attrs)), Lower(target), i);
  }

  /** Nothing is returned exactly when no signature reaches the cut-off and none contains the target. */
  lemma HealNone(elements: seq<ElementId>, visible: ElementId -> bool, attrs: ElementId -> Option<Attributes>,
                 target: string, ratio: (string, string) -> real)
    ensures var candidates := Candidates(KeptSignatures(elements, visible, attrs));
      Heal(elements, visible, attrs, target, ratio).None? <==>
        forall i :: 0 <= i < |candidates| ==> ratio(candidates[i], Lower(target)) < Cutoff && !Contains(candidates[i], Lower(target))
  {
  }

  /** A signature is a candidate exactly when some position is kept under it. */
  lemma {:induction false} CandidatesKept(sigs: seq<Option<string>>, sig: string)
    ensures sig in Candidates(sigs) <==> Some(sig) in sigs
  {
    if sigs != [] {
      var n := |sigs| - 1;
      CandidatesKept(sigs[..n], sig);
      assert sigs == sigs[..n] + [sigs[n]];
    }
  }
}
