/** The page's scroll spy: on every scroll event it samples the viewport and
    the sections' layout, and marks as active the first tracked section whose
    vertical extent contains a probe point one third down the viewport. The
    sidebar highlights the active section; its buttons navigate by smooth
    scrolling. */
module ScrollSpy {
  import opened Wrappers

  /** Vertical extent of a rendered section: offsetTop and offsetHeight, in CSS pixels. */
  datatype Box = Box(top: real, height: real)

  /** The live document as `getElementById` sees it: an id with no element is absent. */
  type Document = map<string, Box>

  /** One sample taken by the scroll handler. */
  datatype Sample = Sample(scrollY: real, windowHeight: real, doc: Document)

  /** The tracked section ids, in the order the handler scans them. */
  const SectionIds: seq<string> :=
    ["hero", "introduction", "map-section", "timeline-section", "intro", "rise", "culture", "vienna", "fall"]

  /** The sidebar's navigation items, in display order. */
  const SidebarIds: seq<string> :=
    ["hero", "introduction", "map-section", "timeline-section", "intro", "rise", "culture", "vienna", "fall"]

  /** The active section before the first scroll event. */
  const InitialActive: string := "hero"

  predicate Distinct(s: seq<string>) {
    forall i, j :: 0 <= i < j < |s| ==> s[i] != s[j]
  }

  /** The vertical coordinate classified: one third of the way down the viewport. */
  function Probe(scrollY: real, windowHeight: real): (r: real)
    ensures windowHeight >= 0.0 ==> scrollY <= r <= scrollY + windowHeight
    ensures (scrollY + windowHeight) - r == 2.0 * (r - scrollY)
  {
    scrollY + windowHeight / 3.0
  }

  /** The probe lies inside the viewport, twice as far from its bottom edge as from its top. */
  lemma ProbeOneThirdDown(scrollY: real, windowHeight: real)
    requires windowHeight >= 0.0
    ensures scrollY <= Probe(scrollY, windowHeight) <= scrollY + windowHeight
    ensures (scrollY + windowHeight) - Probe(scrollY, windowHeight) == 2.0 * (Probe(scrollY, windowHeight) - scrollY)
  {
  }

  /** A box contains a point when the point lies in the half-open interval [top, top + height). */
  predicate Contains(b: Box, p: real) {
    b.top <= p < b.top + b.height
  }

  /** The element with this id exists and contains the point. */
  predicate Hits(doc: Document, id: string, p: real) {
    id in doc && Contains(doc[id], p)
  }

  /** Reference definition: position k holds the first id in `ids` that the point hits. */
  ghost predicate IsFirstHit(ids: seq<string>, doc: Document, p: real, k: int) {
    && 0 <= k < |ids|
    && Hits(doc, ids[k], p)
    && forall j :: 0 <= j < k ==> !Hits(doc, ids[j], p)
  }

  /** Position of the first id in `ids` whose element contains the point, if any. */
  function FirstHit(ids: seq<string>, doc: Document, p: real): (r: Option<nat>)
    ensures r.Some? ==> IsFirstHit(ids, doc, p, r.value)
    ensures r.None? <==> forall j :: 0 <= j < |ids| ==> !Hits(doc, ids[j], p)
  {
    if |ids| == 0 then None
    else if Hits(doc, ids[0], p) then Some(0)
    else
      match FirstHit(ids[1..], doc, p)
      case None => None
      case Some(k) => Some(k + 1)
  }

  /** The section the point selects among `ids`, if any. */
  function Classify(ids: seq<string>, doc: Document, p: real): (r: Option<string>)
    ensures r.Some? ==> exists k :: IsFirstHit(ids, doc, p, k) && ids[k] == r.value
    ensures r.None? <==> forall j :: 0 <= j < |ids| ==> !Hits(doc, ids[j], p)
  {
    match FirstHit(ids, doc, p)
    case None => None
    case Some(k) => Some(ids[k])
  }

  /** The active section after one scroll event: the classified section, or
      the previous one when nothing contains the probe. */
  function NextActive(active: string, s: Sample): (r: string)
    ensures forall k :: IsFirstHit(SectionIds, s.doc, Probe(s.scrollY, s.windowHeight), k) ==> r == SectionIds[k]
    ensures (forall j :: 0 <= j < |SectionIds| ==> !Hits(s.doc, SectionIds[j], Probe(s.scrollY, s.windowHeight))) ==> r == active
  {
    Classify(SectionIds, s.doc, Probe(s.scrollY, s.windowHeight)).GetOr(active)
  }

  /** The scroll handler as written: scan the ids in order, skip missing
      elements, stop at the first enclosing one; update only on a match. */
  method HandleScroll(active: string, scrollY: real, windowHeight: real, doc: Document) returns (next: string)
    ensures next == NextActive(active, Sample(scrollY, windowHeight, doc))
  {
    var scrollPosition := scrollY + windowHeight / 3.0;
    next := active;
    var i := 0;
    while i < |SectionIds|
      invariant 0 <= i <= |SectionIds|
      invariant forall j :: 0 <= j < i ==> !Hits(doc, SectionIds[j], scrollPosition)
    {
      var section := SectionIds[i];
      if section in doc {
        var element := doc[section];
        if scrollPosition >= element.top && scrollPosition < element.top + element.height {
          next := section;
          return;
        }
      }
      i := i + 1;
    }
  }

  /** Classification over a list is decided by its head, then its tail. */
  lemma ClassifyCons(ids: seq<string>, doc: Document, p: real)
    requires |ids| > 0
    ensures Hits(doc, ids[0], p) ==> Classify(ids, doc, p) == Some(ids[0])
    ensures !Hits(doc, ids[0], p) ==> Classify(ids, doc, p) == Classify(ids[1..], doc, p)
  {
  }

  /** When two tracked sections overlap at the probe, the one listed first
      wins, whatever their sizes: the later one is never selected. */
  lemma FirstListedWins(active: string, s: Sample, i: nat, j: nat)
    requires i < j < |SectionIds|
    requires Hits(s.doc, SectionIds[i], Probe(s.scrollY, s.windowHeight))
    requires Hits(s.doc, SectionIds[j], Probe(s.scrollY, s.windowHeight))
    ensures NextActive(active, s) != SectionIds[j]
    ensures exists k :: 0 <= k <= i && NextActive(active, s) == SectionIds[k]
  {
    var p := Probe(s.scrollY, s.windowHeight);
    var k := FirstHit(SectionIds, s.doc, p).value;
    assert k <= i;
    assert NextActive(active, s) == SectionIds[k];
  }

  /** A probe exactly at a section's top selects it, unless a section listed
      earlier also contains the probe. */
  lemma TopEdgeIncluded(active: string, s: Sample, i: nat)
    requires i < |SectionIds|
    requires SectionIds[i] in s.doc
    requires s.doc[SectionIds[i]].height > 0.0
    requires Probe(s.scrollY, s.windowHeight) == s.doc[SectionIds[i]].top
    requires forall j :: 0 <= j < i ==> !Hits(s.doc, SectionIds[j], Probe(s.scrollY, s.windowHeight))
    ensures NextActive(active, s) == SectionIds[i]
  {
    assert IsFirstHit(SectionIds, s.doc, Probe(s.scrollY, s.windowHeight), i);
  }

  /** A probe exactly at a section's bottom edge (top + height) never selects it. */
  lemma BottomEdgeExcluded(ids: seq<string>, doc: Document, id: string)
    requires id in doc
    ensures Classify(ids, doc, doc[id].top + doc[id].height) != Some(id)
  {
  }

  /** An id whose element is missing is never selected. */
  lemma MissingNeverSelected(ids: seq<string>, doc: Document, p: real, id: string)
    requires id !in doc
    ensures Classify(ids, doc, p) != Some(id)
  {
  }

  /** The ids of `ids` whose element exists, in order. */
  function Present(ids: seq<string>, doc: Document): (r: seq<string>)
    ensures |r| <= |ids|
    ensures forall j :: 0 <= j < |r| ==> r[j] in doc
  {
    if |ids| == 0 then []
    else if ids[0] in doc then [ids[0]] + Present(ids[1..], doc)
    else Present(ids[1..], doc)
  }

  /** Skipping missing elements is the same as scanning only the ids that
      exist: missing ids never change the outcome. */
  lemma {:induction false} MissingIdsSkipped(ids: seq<string>, doc: Document, p: real)
    ensures Classify(ids, doc, p) == Classify(Present(ids, doc), doc, p)
    decreases |ids|
  {
    if |ids| > 0 {
      ClassifyCons(ids, doc, p);
      MissingIdsSkipped(ids[1..], doc, p);
      if ids[0] in doc {
        var q := Present(ids, doc);
        assert q == [ids[0]] + Present(ids[1..], doc);
        assert q[1..] == Present(ids[1..], doc);
        ClassifyCons(q, doc, p);
      }
    }
  }

  /** Handling the same sample twice changes nothing the second time. */
  lemma NextActiveIdempotent(active: string, s: Sample)
    ensures NextActive(NextActive(active, s), s) == NextActive(active, s)
  {
  }

  /** The active section after a sequence of scroll samples, starting from `active`. */
  function Track(active: string, samples: seq<Sample>): (r: string)
    ensures r == active || r in SectionIds
    decreases |samples|
  {
    if |samples| == 0 then active
    else NextActive(Track(active, samples[..|samples| - 1]), samples[|samples| - 1])
  }

  /** A sample whose probe no tracked section contains. */
  predicate Misses(s: Sample) {
    forall j :: 0 <= j < |SectionIds| ==> !Hits(s.doc, SectionIds[j], Probe(s.scrollY, s.windowHeight))
  }

  /** Samples that miss every section leave the last classified section active. */
  lemma {:induction false} MissesRetainActive(active: string, samples: seq<Sample>, misses: seq<Sample>)
    requires forall m :: 0 <= m < |misses| ==> Misses(misses[m])
    ensures Track(active, samples + misses) == Track(active, samples)
    decreases |misses|
  {
    if |misses| > 0 {
      var all := samples + misses;
      var front := misses[..|misses| - 1];
      assert all[..|all| - 1] == samples + front;
      assert all[|all| - 1] == misses[|misses| - 1];
      MissesRetainActive(active, samples, front);
    } else {
      assert samples + misses == samples;
    }
  }

  /** Starting from a tracked id, the active section is always a tracked id. */
  lemma {:induction false} TrackStaysTracked(active: string, samples: seq<Sample>)
    requires active in SectionIds
    ensures Track(active, samples) in SectionIds
    decreases |samples|
  {
    if |samples| > 0 {
      TrackStaysTracked(active, samples[..|samples| - 1]);
    }
  }

  /** The tracked ids are pairwise distinct and are exactly the sidebar's ids, in order. */
  lemma SidebarMatchesSpy()
    ensures Distinct(SectionIds)
    ensures SidebarIds == SectionIds
  {
  }

  /** Sidebar positions whose dot is highlighted for a given active section. */
  function HighlightedDots(active: string): (r: set<nat>)
    ensures forall i, j :: i in r && j in r ==> i == j
    ensures active in SidebarIds <==> r != {}
    ensures forall i :: i in r ==> i < |SidebarIds| && SidebarIds[i] == active
  {
    SidebarMatchesSpy();
    var r := set i: nat | i < |SidebarIds| && SidebarIds[i] == active;
    assert forall k :: 0 <= k < |SidebarIds| && SidebarIds[k] == active ==> k as nat in r;
    r
  }

  /** Whatever the scrolling, exactly one sidebar dot is highlighted. */
  lemma ExactlyOneDot(samples: seq<Sample>)
    ensures exists k :: HighlightedDots(Track(InitialActive, samples)) == {k}
  {
    var a := Track(InitialActive, samples);
    TrackStaysTracked(InitialActive, samples);
    SidebarMatchesSpy();
    var k :| 0 <= k < |SidebarIds| && SidebarIds[k] == a;
    assert HighlightedDots(a) == {k};
  }

  /** The element `scrollIntoView` is called on, or None when the id has no
      element and navigation does nothing. */
  function ScrollToSection(doc: Document, id: string): (r: Option<Box>)
    ensures r.None? <==> id !in doc
    ensures r.Some? ==> id in doc && r.value == doc[id]
  {
    if id in doc then Some(doc[id]) else None
  }

  /** Navigation and the scroll spy agree: once smooth scrolling has brought a
      section's top to the top of the viewport, the spy selects that section,
      provided it is taller than a third of the viewport and no earlier-listed
      section contains the probe. */
  lemma NavigationThenSpy(active: string, doc: Document, windowHeight: real, i: nat)
    requires i < |SectionIds|
    requires ScrollToSection(doc, SectionIds[i]).Some?
    requires 0.0 <= windowHeight
    requires windowHeight / 3.0 < ScrollToSection(doc, SectionIds[i]).value.height
    requires forall j :: 0 <= j < i ==>
      !Hits(doc, SectionIds[j], ScrollToSection(doc, SectionIds[i]).value.top + windowHeight / 3.0)
    ensures NextActive(active, Sample(ScrollToSection(doc, SectionIds[i]).value.top, windowHeight, doc)) == SectionIds[i]
  {
    var b := doc[SectionIds[i]];
    assert IsFirstHit(SectionIds, doc, Probe(b.top, windowHeight), i);
  }

  /** A scroll offset of 1000 in a 900-pixel viewport probes 1300, which lies
      in a section spanning 1200 to 2200. */
  lemma ScenarioIntroActive(active: string)
    ensures NextActive(active, Sample(1000.0, 900.0, map["hero" := Box(0.0, 900.0), "intro" := Box(1200.0, 1000.0)])) == "intro"
  {
    var doc := map["hero" := Box(0.0, 900.0), "intro" := Box(1200.0, 1000.0)];
    assert Probe(1000.0, 900.0) == 1300.0;
    assert IsFirstHit(SectionIds, doc, 1300.0, 4);
  }
}
