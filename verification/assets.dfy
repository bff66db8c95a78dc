/** Central asset table of the site: a fixed map from asset key to image URL,
    and the lookup every component uses to resolve a key. */
module Assets {
  import opened Wrappers

  /** The URL prefix of every placeholder image. */
  const PlaceholderPrefix: string := "https://placehold.co/1920x1080/000000/000000.png?text="

  /** A placeholder image URL carrying `text` as its caption. */
  function Placeholder(text: string): (r: string)
    ensures |r| == |PlaceholderPrefix| + |text|
    ensures PlaceholderText(r) == Some(text)
  {
    assert (PlaceholderPrefix + text)[..|PlaceholderPrefix|] == PlaceholderPrefix;
    assert (PlaceholderPrefix + text)[|PlaceholderPrefix|..] == text;
    PlaceholderPrefix + text
  }

  /** The caption of a placeholder URL, or None when `url` is not one. */
  function PlaceholderText(url: string): (r: Option<string>)
    ensures r.Some? ==> PlaceholderPrefix + r.value == url
    ensures r.None? ==> forall t :: PlaceholderPrefix + t != url
  {
    if |PlaceholderPrefix| <= |url| && url[..|PlaceholderPrefix|] == PlaceholderPrefix then
      assert PlaceholderPrefix + url[|PlaceholderPrefix|..] == url;
      Some(url[|PlaceholderPrefix|..])
    else
      assert forall t :: (PlaceholderPrefix + t)[..|PlaceholderPrefix|] == PlaceholderPrefix;
      None
  }

  /** Distinct captions give distinct URLs. */
  lemma PlaceholderInjective(a: string, b: string)
    ensures Placeholder(a) == Placeholder(b) <==> a == b
  {
    if Placeholder(a) == Placeholder(b) {
      assert Some(a) == PlaceholderText(Placeholder(a)) == PlaceholderText(Placeholder(b)) == Some(b);
    }
  }

  /** Captions of the placeholder entries of the asset table, by asset key. */
  const Captions: map<string, string> := map[
    "intro_bg" := "intro",
    "osman" := "osman",
    "bursa" := "bursa",
    "cannon" := "cannon",
    "ships" := "ships",
    "hagia_sophia" := "hagia",
    "culture_bg" := "culture",
    "vienna_gold" := "vienna_gold",
    "vienna_tunnels" := "vienna_tunnels",
    "vienna_treaty" := "vienna_treaty",
    "fall_bg" := "fall",
    "ataturk" := "ataturk",
    "timeline_1299" := "t1",
    "timeline_1453" := "t2",
    "timeline_1520" := "t3",
    "timeline_1683" := "t4",
    "timeline_1914" := "t5",
    "map_1299" := "map_1299",
    "map_1451" := "map_1451",
    "map_1566" := "map_1566",
    "map_1683" := "map_1683",
    "map_1800" := "map_1800",
    "map_1914" := "map_1914",
    "map_1923" := "map_1923",
    "map_1300" := "map_1300",
    "map_1520" := "map_1520",
    "map_modern_borders" := "modern_borders_overlay"
  ]

  /** The asset table: every captioned key maps to its placeholder URL, and
      the hero image is deliberately left empty. */
  const AssetTable: map<string, string> :=
    (map k | k in Captions :: Placeholder(Captions[k]))["hero" := ""]

  /** A key that resolves to its own image: present with a non-empty URL
      (the empty string is the only falsy string). */
  predicate Resolves(key: string) {
    key in AssetTable && AssetTable[key] != ""
  }

  /** Resolves a key; an unknown key or an empty entry yields the hero entry.
      Total: no key makes it fail. */
  function GetAsset(key: string): (r: string)
    ensures Resolves(key) ==> r == AssetTable[key]
    ensures !Resolves(key) ==> r == AssetTable["hero"]
  {
    if key in AssetTable then
      (if AssetTable[key] != "" then AssetTable[key] else AssetTable["hero"])
    else AssetTable["hero"]
  }

  /** A captioned key resolves to its own placeholder image. */
  lemma CaptionedKeyResolves(key: string)
    requires key in Captions
    ensures Resolves(key)
    ensures GetAsset(key) == Placeholder(Captions[key])
  {
    assert key != "hero";
    assert AssetTable[key] == Placeholder(Captions[key]);
  }

  /** The hero entry is the only empty one; every other entry is a placeholder URL. */
  lemma TableShape()
    ensures AssetTable["hero"] == ""
    ensures forall k :: k in AssetTable && k != "hero" ==> PlaceholderText(AssetTable[k]).Some?
  {
    forall k | k in AssetTable && k != "hero"
      ensures PlaceholderText(AssetTable[k]).Some?
    {
      assert AssetTable[k] == Placeholder(Captions[k]);
    }
  }

  /** Because the fallback entry is itself empty, a lookup yields the empty
      string exactly for unknown keys and for "hero"; every other key yields a
      placeholder URL. */
  lemma GetAssetEmptyIff(key: string)
    ensures GetAsset(key) == "" <==> key !in AssetTable || key == "hero"
    ensures GetAsset(key) != "" ==> PlaceholderText(GetAsset(key)).Some?
  {
    assert AssetTable["hero"] == "";
    if key in AssetTable && key != "hero" {
      var url := Placeholder(Captions[key]);
      assert AssetTable[key] == url;
      assert |url| > 0;
      assert GetAsset(key) == url;
    }
  }

  /** "hero" itself falls back: its entry is empty, so the fallback is taken. */
  lemma HeroFallsBack()
    ensures !Resolves("hero") && GetAsset("hero") == ""
  {
  }
}
