/** The horizontally scrolling timeline carousel: a fixed list of event
    cards, each linking to a page section, with left and right arrows that
    appear only when there is room to scroll that way. */
module Timeline {
  import opened Wrappers
  import Assets
  import ScrollSpy

  datatype Event = Event(year: string, title: string, shortDesc: string, imageKey: string, targetId: string)

  /** The event cards, in display order. The 1923 card reuses the 1914 image. */
  const Events: seq<Event> := [
    Event("1299", "Gründung", "Osman I. vereint die anatolischen Stämme.", "timeline_1299", "intro"),
    Event("1453", "Konstantinopel", "Die Eroberung der unbesiegbaren Stadt.", "timeline_1453", "rise"),
    Event("1520", "Goldenes Zeitalter", "Süleyman der Prächtige regiert.", "timeline_1520", "culture"),
    Event("1683", "Wien", "Das Ende der Expansion in Europa.", "timeline_1683", "vienna"),
    Event("1923", "Republik", "Der Untergang und Atatürks Reformen.", "timeline_1914", "fall")
  ]

  /** Scroll geometry of the card container, in CSS pixels. */
  datatype Container = Container(scrollLeft: real, scrollWidth: real, clientWidth: real)

  /** Which arrows are shown. */
  datatype Arrows = Arrows(showLeft: bool, showRight: bool)

  datatype Direction = Left | Right

  /** Arrows before the first measurement: left hidden, right shown. */
  const InitialArrows: Arrows := Arrows(false, true)

  /** Slack, in pixels, before an arrow counts the container as scrolled to an end. */
  const EdgeSlack: real := 10.0

  /** Horizontal offset, in pixels, of one arrow click: roughly one card. */
  const ScrollAmount: real := 300.0

  /** How far the content can scroll horizontally. */
  function MaxScroll(c: Container): real {
    c.scrollWidth - c.clientWidth
  }

  /** Re-measures the arrows; with no container mounted they stay as they were. */
  function CheckScroll(prev: Arrows, container: Option<Container>): (r: Arrows)
    ensures container.None? ==> r == prev
    ensures container.Some? ==> (r.showLeft <==> container.value.scrollLeft > EdgeSlack)
    ensures container.Some? ==> (r.showRight <==> container.value.scrollLeft < MaxScroll(container.value) - EdgeSlack)
  {
    match container
    case None => prev
    case Some(c) =>
      Arrows(c.scrollLeft > 10.0, c.scrollLeft < c.scrollWidth - c.clientWidth - 10.0)
  }

  /** The arrows hide near the ends: at the start the left arrow is hidden,
      at the far end the right arrow is hidden, and content that overflows
      by at most the slack never shows the right arrow from the start. */
  lemma ArrowsHideAtEnds(prev: Arrows, c: Container)
    ensures 0.0 <= c.scrollLeft <= EdgeSlack ==> !CheckScroll(prev, Some(c)).showLeft
    ensures c.scrollLeft >= MaxScroll(c) - EdgeSlack ==> !CheckScroll(prev, Some(c)).showRight
    ensures MaxScroll(c) <= EdgeSlack && c.scrollLeft >= 0.0 ==> !CheckScroll(prev, Some(c)).showRight
  {
  }

  /** When the content overflows by more than twice the slack, at least one
      arrow is always shown. */
  lemma OverflowShowsAnArrow(prev: Arrows, c: Container)
    requires MaxScroll(c) > 2.0 * EdgeSlack
    ensures CheckScroll(prev, Some(c)).showLeft || CheckScroll(prev, Some(c)).showRight
  {
  }

  /** Scrolling further right can reveal the left arrow and hide the right
      one, never the reverse. */
  lemma ArrowsMonotone(prev: Arrows, c: Container, d: real)
    requires d >= 0.0
    ensures CheckScroll(prev, Some(c)).showLeft ==>
      CheckScroll(prev, Some(c.(scrollLeft := c.scrollLeft + d))).showLeft
    ensures CheckScroll(prev, Some(c.(scrollLeft := c.scrollLeft + d))).showRight ==>
      CheckScroll(prev, Some(c)).showRight
  {
  }

  /** The initial arrows are what a measurement of an overflowing container
      at rest would give, so the first measurement does not flicker. */
  lemma InitialArrowsMatchRest(prev: Arrows, scrollWidth: real, clientWidth: real)
    requires scrollWidth - clientWidth > EdgeSlack
    ensures CheckScroll(prev, Some(Container(0.0, scrollWidth, clientWidth))) == InitialArrows
  {
  }

  /** The horizontal offset an arrow click requests, or None when no
      container is mounted. */
  function ScrollRequest(container: Option<Container>, dir: Direction): (r: Option<real>)
    ensures r.Some? <==> container.Some?
    ensures r.Some? ==> (r.value > 0.0 <==> dir == Right)
    ensures r.Some? ==> r.value == ScrollAmount || r.value == -ScrollAmount
  {
    if container.Some? then
      Some(if dir == Right then 300.0 else -300.0)
    else None
  }

  /** Where a requested offset leaves the container once the browser clamps
      the scroll position to [0, MaxScroll] (snap points not modelled). */
  function ScrollTarget(c: Container, offset: real): (r: real)
    requires 0.0 <= c.scrollLeft <= MaxScroll(c)
    ensures 0.0 <= r <= MaxScroll(c)
    ensures offset >= 0.0 ==> c.scrollLeft <= r
    ensures offset <= 0.0 ==> r <= c.scrollLeft
  {
    var t := c.scrollLeft + offset;
    if t < 0.0 then 0.0 else if t > MaxScroll(c) then MaxScroll(c) else t
  }

  /** An arrow is shown only when clicking it really moves the content that
      way: by the full step, or by more than the slack to the end. */
  lemma ShownArrowMoves(prev: Arrows, c: Container, dir: Direction)
    requires 0.0 <= c.scrollLeft <= MaxScroll(c)
    ensures dir == Right && CheckScroll(prev, Some(c)).showRight ==>
      ScrollTarget(c, ScrollRequest(Some(c), dir).value) > c.scrollLeft + EdgeSlack
    ensures dir == Left && CheckScroll(prev, Some(c)).showLeft ==>
      ScrollTarget(c, ScrollRequest(Some(c), dir).value) < c.scrollLeft - EdgeSlack
  {
  }

  /** Every card links to a tracked section: the five cards link, in order,
      to the last five tracked sections. Every card's image resolves to its
      own placeholder rather than the fallback. */
  lemma EventsLinkToSections()
    ensures |Events| + 4 == |ScrollSpy.SectionIds|
    ensures forall e :: 0 <= e < |Events| ==> Events[e].targetId == ScrollSpy.SectionIds[e + 4]
    ensures forall e :: 0 <= e < |Events| ==> Assets.Resolves(Events[e].imageKey)
  {
    forall e | 0 <= e < |Events|
      ensures Assets.Resolves(Events[e].imageKey)
    {
      Assets.CaptionedKeyResolves(Events[e].imageKey);
    }
  }
}
