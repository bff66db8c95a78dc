# Ottoman Empire presentation site — verified model of its decision rules

The site is a single long page about the Ottoman Empire: a hero image, an
introduction, an interactive territory map, a timeline carousel and several
narrative sections, with a sidebar that tracks the scroll position and a
light/dark theme toggle. Its logic is a handful of small decision rules inside
React components. This project lifts each rule into a pure Dafny function and
proves what the page relies on.

- `ScrollSpy` (App.tsx, components/SidebarNav.tsx) is the scroll spy. The probe
  point lies one third of the way down the viewport. The active section is the
  first tracked id, in list order, whose element exists and whose half-open
  interval `[offsetTop, offsetTop + offsetHeight)` contains the probe. When no
  section matches, the previous active section is kept. This module also
  covers the sidebar's id list and `scrollToSection`.
- `ThemeState` (App.tsx) holds the startup theme decision from the stored
  preference and the system colour scheme. It also holds the toggle and the
  `dark` class rule.
- `EraMap` (components/OttomanMap.tsx) covers the era and map-phase tables,
  the `find`-with-fallback phase lookup and `indexOf`. It also covers the
  slider and marker inputs, the marker positions, which spread evenly by
  index, and the opaque image layer.
- `Timeline` (components/Timeline.tsx) covers the event cards, the two arrow
  predicates and the ±300 px scroll step.
- `Assets` (assets.ts) covers the placeholder URL builder, the asset table and
  `getAsset` with its `||` fallback.
- `Wrappers` is a small `Option` type. It stands for a missing element, an
  absent stored value or a JavaScript `undefined`.

Everything the browser supplies becomes a plain input:
- element geometry, as a `Document` map from id to box (a missing id means no
  element);
- `scrollY` and `innerHeight`;
- the container's `scrollLeft`, `scrollWidth` and `clientWidth`;
- the stored theme string and the `prefers-color-scheme: light` flag.

Pixel quantities are Dafny `real`s.

Three behaviours of the code are easy to misread, and the model follows the code:
- An out-of-range slider index is not an error. `eras[index]` yields
  `undefined`, which `SliderYear` models as `None`. The range input and the
  per-era markers never produce such an index (`Admissible`).
- A probe at a section's bottom edge does not select that section. It selects
  the next one only if that section starts exactly there and no earlier-listed
  section contains the probe.
- The fact-grid section and the first narrative section do not share an id.
  They are `introduction` and `intro`, and the tracked ids are pairwise
  distinct (`ScrollSpy.SidebarMatchesSpy`).

## Model

| member | source | states |
|---|---|---|
| ScrollSpy.ProbeOneThirdDown | App.tsx:43 | the probe lies inside the viewport, twice as far from its bottom as from its top |
| ScrollSpy.Probe | App.tsx:43 | the probe point lies within the viewport for a non-negative height, twice as far from its bottom edge as from its top |
| ScrollSpy.FirstHit | App.tsx:45-52 | the returned position is the first id whose element exists and contains the probe; None exactly when no id does |
| ScrollSpy.Classify | App.tsx:45-52 | the selected id is the first hit in list order; None iff no listed element contains the probe |
| ScrollSpy.NextActive | App.tsx:45-54 | the new active section is the first hit when there is one, and the previous active section otherwise |
| ScrollSpy.HandleScroll | App.tsx:37-55 | the loop with its skip-missing and break-on-match steps computes exactly NextActive |
| ScrollSpy.FirstListedWins | App.tsx:45-52 | when two sections overlap at the probe, the later-listed one is never selected and the result lies at or before the earlier one |
| ScrollSpy.TopEdgeIncluded | App.tsx:49 | a probe equal to a section's offsetTop selects it, unless an earlier-listed section contains the probe |
| ScrollSpy.BottomEdgeExcluded | App.tsx:49 | a probe equal to offsetTop + offsetHeight never selects that section |
| ScrollSpy.MissingNeverSelected | App.tsx:46-47 | an id with no element is never selected |
| ScrollSpy.MissingIdsSkipped | App.tsx:45-48 | scanning all ids gives the same result as scanning only the ids whose element exists |
| ScrollSpy.NextActiveIdempotent | App.tsx:45-54 | handling the same sample twice changes nothing the second time |
| ScrollSpy.MissesRetainActive | App.tsx:45-54 | samples that miss every section leave the last classified section active |
| ScrollSpy.Track | App.tsx:37-57 | after any sequence of scroll events, the active section is the starting one or one of the tracked ids |
| ScrollSpy.TrackStaysTracked | App.tsx:42-54 | starting from a tracked id, the active section is a tracked id after any sequence of scroll samples |
| ScrollSpy.SidebarMatchesSpy | components/SidebarNav.tsx:10-20 | the sidebar ids equal the tracked ids in the same order, and they are pairwise distinct |
| ScrollSpy.HighlightedDots | components/SidebarNav.tsx:37 | at most one dot satisfies `activeSection === item.id`, and one does exactly when the active section is a sidebar id |
| ScrollSpy.ExactlyOneDot | components/SidebarNav.tsx:36-40 | from the initial section "hero", after any scrolling exactly one sidebar dot is highlighted |
| ScrollSpy.ScrollToSection | App.tsx:61-66 | navigation targets the element with that id, and is a no-op exactly when no such element exists |
| ScrollSpy.NavigationThenSpy | App.tsx:61-66 | once a section's top reaches the viewport top, the spy selects it if it is taller than a third of the viewport and no earlier section contains the probe |
| ScrollSpy.ScenarioIntroActive | App.tsx:43-52 | scrollY 1000 in a 900 px viewport probes 1300, so the section spanning 1200..2200 becomes active |
| ThemeState.Parse | App.tsx:19 | a stored string is accepted as a theme exactly when it is "dark" or "light" |
| ThemeState.Name | App.tsx:32 | a theme is stored as "dark" or "light", and the stored name parses back to that theme |
| ThemeState.NameParseRoundTrip | App.tsx:19-32 | the stored name of a theme reads back as that theme, and only a theme's own name parses |
| ThemeState.Startup | App.tsx:14-24 | a stored "light"/"dark" is adopted; otherwise the theme is light iff the system prefers light, and dark if not |
| ThemeState.Toggle | App.tsx:68-70 | toggling always changes the theme |
| ThemeState.ToggleInvolution | App.tsx:68-70 | toggling twice is the identity, and toggling is injective |
| ThemeState.PersistedThemeRestored | App.tsx:17-33 | the theme written to storage is the theme the next startup chooses, whatever the system prefers |
| ThemeState.ToggleFlipsDarkClass | App.tsx:26-31 | each toggle flips the `dark` class on the document root |
| ThemeState.DarkClass | App.tsx:27-31 | the root carries the `dark` class exactly when the stored theme name is "dark" |
| EraMap.EraTable | components/OttomanMap.tsx:16-71 | seven strictly ascending era years, with phase i having year eras[i]; phase ids are distinct, and the initial year is the first era |
| EraMap.FindPhase | components/OttomanMap.tsx:74 | find returns a phase of the list with the requested year; None exactly when no phase has it |
| EraMap.ActivePhase | components/OttomanMap.tsx:74 | the shown phase has the selected year when it is an era, and is the last phase (1923) otherwise |
| EraMap.IndexOf | components/OttomanMap.tsx:77 | indexOf returns the first position of the value, and -1 exactly when it is absent |
| EraMap.CurrentIndex | components/OttomanMap.tsx:77 | the slider position of a year is in range and points at that year, and it is -1 exactly for years that are not eras |
| EraMap.SliderYear | components/OttomanMap.tsx:133-134 | eras[index] is an era year for an index in range, and undefined outside it |
| EraMap.IndexOfAscending | components/OttomanMap.tsx:77 | in a strictly ascending list, the position of the i-th element is i |
| EraMap.SliderRoundTrip | components/OttomanMap.tsx:126-135 | slider positions and era years correspond one to one in both directions |
| EraMap.Step | components/OttomanMap.tsx:132-144 | a slider change or marker click selects an era year whose slider position is the input's index |
| EraMap.YearAfter | components/OttomanMap.tsx:16-144 | the selected year starts at 1299 and is always an era, and the last input sets the slider position |
| EraMap.SelectedYearIsEra | components/OttomanMap.tsx:132-144 | after any inputs the year is an era, the slider index is valid and the phase fallback never fires |
| EraMap.UnknownYearFallsBack | components/OttomanMap.tsx:74-77 | year 2000 shows the 1923 phase and has slider index -1 |
| EraMap.MarkerPercent | components/OttomanMap.tsx:150 | every marker lies between 0% and 100% of the slider width |
| EraMap.MarkersEvenlySpaced | components/OttomanMap.tsx:150 | consecutive markers are 100/6 percent apart regardless of the year gaps; the first is at 0%, the last at 100% and 1683 at 50% |
| EraMap.ExactlyOneOpaqueLayer | components/OttomanMap.tsx:111-119 | for every year exactly one image layer, the active phase's, is opaque |
| EraMap.Opaque | components/OttomanMap.tsx:118 | a listed phase's layer is opaque exactly when it is the active phase |
| EraMap.PhaseKeysFollowIds | components/OttomanMap.tsx:21-71 | every phase's asset key is "map_" followed by its id |
| EraMap.PhaseImagesResolve | components/OttomanMap.tsx:114 | every phase image resolves to its own placeholder, never to the fallback |
| EraMap.ScenarioFirstEra | components/OttomanMap.tsx:132-135 | slider position 0 shows 1299 with its configured caption and its map image |
| Timeline.CheckScroll | components/Timeline.tsx:61-67 | the left arrow shows iff scrollLeft > 10 and the right iff scrollLeft < scrollWidth - clientWidth - 10; with no container the arrows are unchanged |
| Timeline.ArrowsHideAtEnds | components/Timeline.tsx:64-65 | the left arrow is hidden at the start, the right arrow at the far end, and the right arrow when there is no real overflow |
| Timeline.OverflowShowsAnArrow | components/Timeline.tsx:64-65 | when content overflows by more than 20 px, at least one arrow is shown |
| Timeline.ArrowsMonotone | components/Timeline.tsx:64-65 | scrolling right can only reveal the left arrow and hide the right one |
| Timeline.InitialArrowsMatchRest | components/Timeline.tsx:58-59 | the initial arrows (left hidden, right shown) equal a measurement of an overflowing container at rest |
| Timeline.ScrollRequest | components/Timeline.tsx:75-83 | a click requests +300 px to the right or -300 px to the left, and nothing without a container |
| Timeline.ScrollTarget | components/Timeline.tsx:78-81 | after the browser clamps a requested offset, the position stays within [0, scrollWidth - clientWidth] and moves in the requested direction |
| Timeline.ShownArrowMoves | components/Timeline.tsx:64-81 | clicking a shown arrow moves the content that way by more than the 10 px slack |
| Timeline.EventsLinkToSections | components/Timeline.tsx:14-50 | the five cards link, in order, to the last five tracked sections, and each card image resolves without the fallback |
| Assets.Placeholder | assets.ts:13 | the URL is the fixed prefix followed by the caption, and the caption can be read back |
| Assets.PlaceholderText | assets.ts:13 | reading a caption back succeeds exactly for URLs that start with the placeholder prefix |
| Assets.PlaceholderInjective | assets.ts:13 | distinct captions give distinct URLs |
| Assets.CaptionedKeyResolves | assets.ts:15-65 | every captioned key resolves to its own placeholder URL |
| Assets.GetAsset | assets.ts:67-69 | a key with a non-empty entry yields that entry; any other key yields the hero entry |
| Assets.TableShape | assets.ts:15-65 | the hero entry is empty, and every other entry is a placeholder URL |
| Assets.GetAssetEmptyIff | assets.ts:18-69 | a lookup yields "" exactly for unknown keys and for "hero"; every other result is a placeholder URL |
| Assets.HeroFallsBack | assets.ts:18 | "hero" falls back because its entry is empty, and the lookup yields "" |

## Left out

- DOM plumbing is replaced by plain inputs and outputs. This covers
  `document.getElementById`, the `offsetTop`/`offsetHeight` reads,
  `window.scrollY`/`innerHeight`, and the container's scroll metrics.
  `scrollIntoView`/`scrollBy` animations become the request they issue.
  Smooth scrolling is not modelled.
- Timeline.ScrollTarget: models the browser's clamping of `scrollBy` to
  [0, scrollWidth - clientWidth] but not the container's mandatory snap points
  (components/Timeline.tsx:114). A click therefore ends on a card's snap point
  rather than exactly 300 px away, and the model does not say which one.
- Listener subscription and teardown are lifecycle plumbing with no decision
  logic: the scroll listener (App.tsx:57-58), the resize listener
  (components/Timeline.tsx:71-72) and the `IntersectionObserver` in
  components/BentoCard.tsx.
- The `localStorage` and `matchMedia` calls and the `classList` mutation are
  side effects (App.tsx:18-32). Only the decision rule is modelled, over an
  optional stored string and a boolean.
- Image `onError` fallbacks (App.tsx:120-125, components/BentoCard.tsx:71) are
  browser callbacks.
- JSX markup, CSS classes and animation are presentation only.
- components/Section.tsx, components/CulturalAnalysis.tsx,
  components/InteractiveHistorian.tsx and types.ts are not part of this model.
  They are presentational, static content or type declarations.
  components/SidebarNav.tsx enters only through its id list and its highlight
  rule.
- `(assets as any)[key]` can also reach prototype members such as
  `"toString"`. The model treats the table as a finite map, so such keys fall
  back like any unknown key.
- Floating-point rounding of `windowHeight / 3` and of the marker percentage
  is not modelled: both are exact `real` arithmetic.
- EraMap.FindPhase: states that the found phase has the requested year, not
  that it is the first such phase. The phase years are pairwise distinct
  (EraMap.EraTable), so at most one phase can match.
- EraMap.Step: requires an index in range. The range input and the markers
  cannot produce any other index. The out-of-range case is modelled separately
  by EraMap.SliderYear.
- Assets.GetAsset: totality is by construction, because the function has no
  precondition. No separate lemma states it.
- The 1923 timeline card uses the `timeline_1914` image. This is modelled as
  written.
