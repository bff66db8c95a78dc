/** The interactive territory map: a slider and a row of era markers select
    one of seven era years; the selected year picks the map phase whose
    caption is shown and whose image layer is the only opaque one. */
module EraMap {
  import opened Wrappers
  import Assets

  datatype MapPhase = MapPhase(id: string, name: string, year: int, description: string, assetKey: string)

  /** The selectable era years. */
  const Eras: seq<int> := [1299, 1451, 1566, 1683, 1800, 1914, 1923]

  /** The map phases, one per era, in the same order. */
  const MapPhases: seq<MapPhase> := [
    MapPhase("1299", "1299: Die Gründung", 1299,
      "Der Anfang: Ein kleines Fürstentum in Bithynien unter Osman I.", "map_1299"),
    MapPhase("1451", "1451: Vor dem Sturm", 1451,
      "Expansion in Rumelien (Balkan) und Anatolien, Konstantinopel ist umzingelt.", "map_1451"),
    MapPhase("1566", "1566: Süleyman I.", 1566,
      "Das Goldene Zeitalter: Herrschaft über Ungarn, Nordafrika und den Nahen Osten.", "map_1566"),
    MapPhase("1683", "1683: Maximale Ausdehnung", 1683,
      "Der Zenit vor Wien. Das Reich umfasst weite Teile dreier Kontinente.", "map_1683"),
    MapPhase("1800", "1800: Der Rückzug", 1800,
      "Verluste gegen Russland (Krim) und Österreich (Ungarn). Der Niedergang beginnt.", "map_1800"),
    MapPhase("1914", "1914: Vor dem Weltkrieg", 1914,
      "Verlust fast aller europäischen Gebiete und Nordafrikas (\"Der kranke Mann am Bosporus\").", "map_1914"),
    MapPhase("1923", "1923: Republik Türkei", 1923,
      "Nach dem Befreiungskrieg: Die Grenzen der modernen Türkei (Vertrag von Lausanne).", "map_1923")
  ]

  /** The selected year when the map first renders. */
  const InitialYear: int := 1299

  predicate StrictlyAscending(s: seq<int>) {
    forall i, j :: 0 <= i < j < |s| ==> s[i] < s[j]
  }

  /** The era table: seven strictly ascending years, each phase at the
      position of its year, phase ids pairwise distinct. */
  lemma EraTable()
    ensures |Eras| == 7 && StrictlyAscending(Eras)
    ensures |MapPhases| == |Eras|
    ensures forall i :: 0 <= i < |Eras| ==> MapPhases[i].year == Eras[i]
    ensures forall i, j :: 0 <= i < j < |MapPhases| ==> MapPhases[i].id != MapPhases[j].id
    ensures InitialYear == Eras[0]
  {
  }

  /** `Array.prototype.find` over the phases by year. */
  function FindPhase(phases: seq<MapPhase>, year: int): (r: Option<MapPhase>)
    ensures r.None? <==> forall i :: 0 <= i < |phases| ==> phases[i].year != year
    ensures r.Some? ==> r.value in phases && r.value.year == year
  {
    if |phases| == 0 then None
    else if phases[0].year == year then Some(phases[0])
    else FindPhase(phases[1..], year)
  }

  /** The phase shown for a year: the phase with that year, or the last
      phase when there is none. */
  function ActivePhase(year: int): (r: MapPhase)
    ensures r in MapPhases
    ensures year in Eras ==> r.year == year
    ensures year !in Eras ==> r == MapPhases[|MapPhases| - 1]
  {
    EraTable();
    FindPhase(MapPhases, year).GetOr(MapPhases[|MapPhases| - 1])
  }

  /** `Array.prototype.indexOf`: the first position of `x`, or -1. */
  function IndexOf(s: seq<int>, x: int): (r: int)
    ensures -1 <= r < |s|
    ensures r == -1 <==> x !in s
    ensures r >= 0 ==> s[r] == x && forall j :: 0 <= j < r ==> s[j] != x
  {
    if |s| == 0 then -1
    else if s[0] == x then 0
    else
      var k := IndexOf(s[1..], x);
      if k == -1 then -1 else k + 1
  }

  /** The slider position shown for a year. */
  function CurrentIndex(year: int): (r: int)
    ensures -1 <= r < |Eras|
    ensures r == -1 <==> year !in Eras
    ensures r >= 0 ==> Eras[r] == year
  {
    IndexOf(Eras, year)
  }

  /** `eras[index]`: the year at a slider position, or None (`undefined`)
      outside the table. */
  function SliderYear(index: int): (r: Option<int>)
    ensures r.Some? <==> 0 <= index < |Eras|
    ensures r.Some? ==> r.value in Eras
  {
    if 0 <= index < |Eras| then Some(Eras[index]) else None
  }

  /** In a strictly ascending sequence, the position of the i-th element is i. */
  lemma IndexOfAscending(s: seq<int>, i: nat)
    requires StrictlyAscending(s)
    requires i < |s|
    ensures IndexOf(s, s[i]) == i
  {
  }

  /** Slider positions and era years correspond one to one. */
  lemma SliderRoundTrip(index: int, year: int)
    ensures 0 <= index < |Eras| ==> CurrentIndex(SliderYear(index).value) == index
    ensures year in Eras ==> SliderYear(CurrentIndex(year)) == Some(year)
  {
    EraTable();
    if 0 <= index < |Eras| {
      IndexOfAscending(Eras, index);
    }
  }

  /** What the user can do: move the slider, or click an era marker. */
  datatype Input = Slide(index: int) | ClickMarker(index: int)

  /** The range input is bounded to [0, |Eras| - 1] in steps of one, and one
      marker is rendered per era, so every input carries an index in range. */
  predicate Admissible(e: Input) {
    0 <= e.index < |Eras|
  }

  /** The year selected after an input: both the slider's change handler and
      a marker's click handler select the era at the input's position. */
  function Step(e: Input): (r: int)
    requires Admissible(e)
    ensures r in Eras
    ensures CurrentIndex(r) == e.index
  {
    SliderRoundTrip(e.index, 0);
    match e
    case Slide(index) => SliderYear(index).value
    case ClickMarker(index) => Eras[index]
  }

  /** The selected year after a sequence of inputs. */
  function YearAfter(inputs: seq<Input>): (r: int)
    requires forall k :: 0 <= k < |inputs| ==> Admissible(inputs[k])
    ensures r in Eras
    ensures |inputs| == 0 ==> r == InitialYear
    ensures |inputs| > 0 ==> CurrentIndex(r) == inputs[|inputs| - 1].index
  {
    if |inputs| == 0 then InitialYear else Step(inputs[|inputs| - 1])
  }

  /** The selected year is always an era year: the slider shows a valid
      position and the last-phase fallback never fires from user input. */
  lemma SelectedYearIsEra(inputs: seq<Input>)
    requires forall k :: 0 <= k < |inputs| ==> Admissible(inputs[k])
    ensures YearAfter(inputs) in Eras
    ensures 0 <= CurrentIndex(YearAfter(inputs)) < |Eras|
    ensures ActivePhase(YearAfter(inputs)).year == YearAfter(inputs)
  {
  }

  /** A year outside the table shows the last phase, 1923. */
  lemma UnknownYearFallsBack()
    ensures ActivePhase(2000).year == 1923
    ensures CurrentIndex(2000) == -1
  {
    EraTable();
  }

  /** Horizontal position of a marker, in percent of the slider's width:
      proportional to its index, not to its year. */
  function MarkerPercent(index: nat): (r: real)
    requires index < |Eras|
    ensures 0.0 <= r <= 100.0
  {
    (index as real / (|Eras| - 1) as real) * 100.0
  }

  /** Markers are evenly spaced from 0% to 100% regardless of the gaps
      between years; 1683, the middle era, sits at exactly 50%. */
  lemma MarkersEvenlySpaced(i: nat)
    requires i + 1 < |Eras|
    ensures MarkerPercent(i + 1) - MarkerPercent(i) == 100.0 / 6.0
    ensures MarkerPercent(0) == 0.0 && MarkerPercent(|Eras| - 1) == 100.0
    ensures Eras[3] == 1683 && MarkerPercent(3) == 50.0
  {
  }

  /** Whether a phase's image layer is opaque for the selected year. */
  predicate Opaque(phase: MapPhase, year: int): (b: bool)
    ensures phase in MapPhases ==> (b <==> phase == ActivePhase(year))
  {
    EraTable();
    phase.id == ActivePhase(year).id
  }

  /** For every year exactly one image layer is opaque: the active phase's. */
  lemma ExactlyOneOpaqueLayer(year: int)
    ensures exists k :: 0 <= k < |MapPhases| && MapPhases[k] == ActivePhase(year) && Opaque(MapPhases[k], year)
    ensures forall i, j ::
      0 <= i < |MapPhases| && 0 <= j < |MapPhases| && Opaque(MapPhases[i], year) && Opaque(MapPhases[j], year)
      ==> i == j
  {
    EraTable();
    var a := ActivePhase(year);
    var k :| 0 <= k < |MapPhases| && MapPhases[k] == a;
    assert Opaque(MapPhases[k], year);
  }

  /** Every phase's image key is `map_` followed by its id. */
  lemma PhaseKeysFollowIds()
    ensures forall i :: 0 <= i < |MapPhases| ==> MapPhases[i].assetKey == "map_" + MapPhases[i].id
  {
  }

  /** Every phase's image key resolves to its own placeholder image, never to
      the fallback. */
  lemma PhaseImagesResolve()
    ensures forall i :: 0 <= i < |MapPhases| ==>
      Assets.GetAsset(MapPhases[i].assetKey) == Assets.Placeholder(MapPhases[i].assetKey)
  {
    forall i | 0 <= i < |MapPhases|
      ensures Assets.GetAsset(MapPhases[i].assetKey) == Assets.Placeholder(MapPhases[i].assetKey)
    {
      var key := MapPhases[i].assetKey;
      assert key in Assets.Captions && Assets.Captions[key] == key;
      Assets.CaptionedKeyResolves(key);
    }
  }

  /** The slider at position 0 shows 1299, its caption and its map image. */
  lemma ScenarioFirstEra()
    ensures SliderYear(0) == Some(1299)
    ensures ActivePhase(1299).description == "Der Anfang: Ein kleines Fürstentum in Bithynien unter Osman I."
    ensures Assets.GetAsset(ActivePhase(1299).assetKey) == Assets.Placeholder("map_1299")
  {
    PhaseImagesResolve();
  }
}
