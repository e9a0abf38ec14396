/**
 * `activateDetailsTab`: find the record page's Details tab by trying five
 * selectors in priority order, each over its matches in document order, and
 * take the first visible match; then click it unless it is already active.
 * The page is what `querySelectorAll` returns for each selector, and each
 * match carries its visibility, its `aria-selected` attribute and the class
 * list of its closest `li` ancestor.
 */
module DetailsTab {
  import opened Wrappers

  datatype TabCandidate = TabCandidate(
    visible: bool,
    ariaSelected: Option<string>,
    parentLiClasses: Option<seq<string>>)

  /** The matches of each selector; a selector missing from the map matches nothing. */
  type Page = map<string, seq<TabCandidate>>

  /** What the function does: nothing, since no tab was found; nothing, since
   *  the tab found (match `index` of selector `selector`) is already active;
   *  or one click on it. */
  datatype Decision = NotFound | AlreadyActive(selector: nat, index: nat) | Click(selector: nat, index: nat)

  /** The selectors, in the order they are tried. */
  function Selectors(): seq<string> {
    [ "li[title=\"Details\"] > a",
      "a[data-label=\"Details\"]",
      "a[title=\"Details\"]",
      "div[role=\"tablist\"] a[data-tab-value=\"detailTab\"]",
      "button[title=\"Details\"]" ]
  }

  function Candidates(page: Page, selector: string): seq<TabCandidate> {
    if selector in page then page[selector] else []
  }

  /** `aria-selected="true"`, or a parent `li` with class `slds-is-active` or `active`. */
  predicate IsActive(c: TabCandidate) {
    c.ariaSelected == Some("true")
    || (c.parentLiClasses.Some? && ("slds-is-active" in c.parentLiClasses.value || "active" in c.parentLiClasses.value))
  }

  ghost predicate NoneVisible(cs: seq<TabCandidate>) {
    forall i :: 0 <= i < |cs| ==> !cs[i].visible
  }

  /** Match `i` of selector `s` is visible, and no match before it (in an
   *  earlier selector, or earlier in the same one) is. */
  ghost predicate FirstVisible(page: Page, s: int, i: int) {
    && 0 <= s < |Selectors()|
    && (forall s' :: 0 <= s' < s ==> NoneVisible(Candidates(page, Selectors()[s'])))
    && 0 <= i < |Candidates(page, Selectors()[s])|
    && Candidates(page, Selectors()[s])[i].visible
    && (forall i' :: 0 <= i' < i ==> !Candidates(page, Selectors()[s])[i'].visible)
  }

  /** The search over one selector's matches: the first visible one. */
  method FindVisible(candidates: seq<TabCandidate>) returns (found: Option<nat>)
    ensures found.None? <==> NoneVisible(candidates)
    ensures found.Some? ==>
      found.value < |candidates| && candidates[found.value].visible
      && forall i' :: 0 <= i' < found.value ==> !candidates[i'].visible
  {
    found := None;
    var i := 0;
    while i < |candidates|
      invariant 0 <= i <= |candidates|
      invariant forall i' :: 0 <= i' < i ==> !candidates[i'].visible
    {
      if candidates[i].visible {
        found := Some(i);
        break;
      }
      i := i + 1;
    }
  }

  method ActivateDetailsTab(page: Page) returns (d: Decision)
    ensures d.NotFound? <==> forall s :: 0 <= s < |Selectors()| ==> NoneVisible(Candidates(page, Selectors()[s]))
    ensures !d.NotFound? ==> FirstVisible(page, d.selector, d.index)
    ensures !d.NotFound? ==>
      (d.Click? <==> !IsActive(Candidates(page, Selectors()[d.selector])[d.index]))
  {
    var selectors := Selectors();
    var tab: Option<(nat, nat)> := None;
    var s := 0;
    while s < |selectors|
      invariant 0 <= s <= |selectors|
      invariant forall s' :: 0 <= s' < s ==> NoneVisible(Candidates(page, selectors[s']))
    {
      var found := FindVisible(Candidates(page, selectors[s]));
      if found.Some? {
        tab := Some((s, found.value));
        break;
      }
      s := s + 1;
    }
    if tab.None? {
      return NotFound;
    }
    var sel := tab.value.0;
    var idx := tab.value.1;
    var el := Candidates(page, selectors[sel])[idx];
    var isAriaSelected := el.ariaSelected == Some("true");
    var isLiActive := el.parentLiClasses.Some?
      && ("slds-is-active" in el.parentLiClasses.value || "active" in el.parentLiClasses.value);
    if isAriaSelected || isLiActive {
      return AlreadyActive(sel, idx);
    }
    return Click(sel, idx);
  }

  /** At most one match is the first visible one. */
  lemma FirstVisibleUnique(page: Page, s: int, i: int, s': int, i': int)
    requires FirstVisible(page, s, i) && FirstVisible(page, s', i')
    ensures s == s' && i == i'
  {
  }

  /** A visible match of a higher-priority selector always beats every match
   *  of a lower one. */
  lemma EarlierSelectorWins(page: Page, s: int, i: int, t: int, j: int)
    requires FirstVisible(page, t, j)
    requires 0 <= s < |Selectors()| && 0 <= i < |Candidates(page, Selectors()[s])|
    requires Candidates(page, Selectors()[s])[i].visible
    ensures t <= s
  {
  }
}
