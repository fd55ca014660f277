/**
 The viewport section tracker of the portfolio page: which of the six page
 sections holds the vertical midpoint of the viewport.

 The rendered document is abstracted to a `Layout`: a map from an element id
 to the element's document-relative extent. An id that is not a key stands for
 `document.getElementById(id)` returning null.
 */
module SectionTracker {

  datatype Option<T> = None | Some(value: T)

  /** The navigable sections, in the order the tracker scans them. */
  const SectionIds: seq<string> := ["home", "about", "experience", "skills", "projects", "contact"]

  /** The section that is active when the page is first rendered. */
  const InitialSection: string := "home"

  /** `offsetTop` and `offsetHeight` of a rendered section, in whole CSS pixels. */
  datatype Extent = Extent(top: int, height: int)

  type Layout = map<string, Extent>

  /** The point probed on a scroll: `scrollY` plus half of `innerHeight`, divided exactly. */
  function Probe(scrollY: real, innerHeight: int): (p: real)
    ensures innerHeight >= 0 ==> scrollY <= p <= scrollY + innerHeight as real
  {
    scrollY + innerHeight as real / 2.0
  }

  /** The half-open containment test `top <= p < top + height`. */
  predicate Contains(e: Extent, p: real): (r: bool)
    ensures r ==> e.height > 0
  {
    p >= e.top as real && p < (e.top + e.height) as real
  }

  /** Section `id` is rendered and its extent holds the probe. */
  predicate Hit(layout: Layout, id: string, p: real)
  {
    id in layout && Contains(layout[id], p)
  }

  /** The index of the first id in `ids` that is rendered and holds the probe. */
  function FirstMatch(layout: Layout, ids: seq<string>, p: real): (r: Option<nat>)
    ensures r.Some? ==> r.value < |ids| && Hit(layout, ids[r.value], p)
    ensures r.Some? ==> forall j :: 0 <= j < r.value ==> !Hit(layout, ids[j], p)
    ensures r.None? ==> forall j :: 0 <= j < |ids| ==> !Hit(layout, ids[j], p)
    decreases |ids|
  {
    if ids == [] then None
    else if Hit(layout, ids[0], p) then Some(0)
    else
      match FirstMatch(layout, ids[1..], p)
      case None => None
      case Some(k) => Some(k + 1)
  }

  /** The active section after one scroll evaluation, starting from `current`. */
  function NextActive(layout: Layout, p: real, current: string): (r: string)
    ensures r == current || (r in SectionIds && Hit(layout, r, p))
  {
    match FirstMatch(layout, SectionIds, p)
    case None => current
    case Some(k) => SectionIds[k]
  }

  /** No two sections share an id. */
  lemma SectionIdsDistinct()
    ensures forall i, j :: 0 <= i < j < |SectionIds| ==> SectionIds[i] != SectionIds[j]
  {
  }

  /** `FirstMatch` picks index `k` exactly when `k` holds the probe and no earlier id does. */
  lemma FirstMatchIsLowest(layout: Layout, ids: seq<string>, p: real, k: nat)
    requires k < |ids|
    ensures FirstMatch(layout, ids, p) == Some(k)
        <==> Hit(layout, ids[k], p) && forall j :: 0 <= j < k ==> !Hit(layout, ids[j], p)
  {
  }

  /** A scroll selects the lowest-indexed section holding the probe. */
  lemma NextActiveIsFirstHit(layout: Layout, p: real, current: string, k: nat)
    requires k < |SectionIds|
    requires Hit(layout, SectionIds[k], p)
    requires forall j :: 0 <= j < k ==> !Hit(layout, SectionIds[j], p)
    ensures NextActive(layout, p, current) == SectionIds[k]
  {
  }

  /** On overlapping extents the earlier section wins and the later one is not chosen. */
  lemma EarlierSectionWins(layout: Layout, p: real, current: string, i: nat, j: nat)
    requires i < j < |SectionIds|
    requires Hit(layout, SectionIds[i], p) && Hit(layout, SectionIds[j], p)
    ensures NextActive(layout, p, current) != SectionIds[j]
  {
    SectionIdsDistinct();
  }

  /** A section without an element is never activated by a scroll. */
  lemma AbsentSectionSkipped(layout: Layout, p: real, current: string, id: string)
    requires id !in layout && id != current
    ensures NextActive(layout, p, current) != id
  {
  }

  /** When no rendered section holds the probe the active section is unchanged. */
  lemma NoHitKeepsActive(layout: Layout, p: real, current: string)
    requires forall id :: id in SectionIds ==> !Hit(layout, id, p)
    ensures NextActive(layout, p, current) == current
  {
  }

  /** Containment is half-open: the top edge is inside, the bottom edge is not. */
  lemma HalfOpenExtent(e: Extent)
    ensures e.height > 0 ==> Contains(e, e.top as real)
    ensures !Contains(e, (e.top + e.height) as real)
  {
  }

  /** A scroll keeps the active section among the six section ids. */
  lemma NextActiveStaysInSections(layout: Layout, p: real, current: string)
    requires current in SectionIds
    ensures NextActive(layout, p, current) in SectionIds
  {
  }
}
