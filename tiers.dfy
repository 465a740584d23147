/**
 * The effect tags a light configuration may name, and the capability tiers
 * that say which tags a given kind of light accepts.
 */
module Tiers {
  import opened Wrappers

  /** One variant per tag of the effects schema. */
  datatype Kind =
    | Lambda | Random | Strobe | Flicker
    | FastLedLambda | FastLedRainbow | FastLedColorWipe | FastLedScan
    | FastLedTwinkle | FastLedRandomTwinkle | FastLedFireworks | FastLedFlicker

  /** The configuration key that selects the variant. */
  function TagName(k: Kind): string {
    match k
    case Lambda => "lambda"
    case Random => "random"
    case Strobe => "strobe"
    case Flicker => "flicker"
    case FastLedLambda => "fastled_lambda"
    case FastLedRainbow => "fastled_rainbow"
    case FastLedColorWipe => "fastled_color_wipe"
    case FastLedScan => "fastled_scan"
    case FastLedTwinkle => "fastled_twinkle"
    case FastLedRandomTwinkle => "fastled_random_twinkle"
    case FastLedFireworks => "fastled_fireworks"
    case FastLedFlicker => "fastled_flicker"
  }

  /** The variant a configuration key selects, if the schema knows the key. */
  function KindOf(tag: string): (r: Option<Kind>)
    ensures r.Some? ==> TagName(r.value) == tag
  {
    if tag == "lambda" then Some(Lambda)
    else if tag == "random" then Some(Random)
    else if tag == "strobe" then Some(Strobe)
    else if tag == "flicker" then Some(Flicker)
    else if tag == "fastled_lambda" then Some(FastLedLambda)
    else if tag == "fastled_rainbow" then Some(FastLedRainbow)
    else if tag == "fastled_color_wipe" then Some(FastLedColorWipe)
    else if tag == "fastled_scan" then Some(FastLedScan)
    else if tag == "fastled_twinkle" then Some(FastLedTwinkle)
    else if tag == "fastled_random_twinkle" then Some(FastLedRandomTwinkle)
    else if tag == "fastled_fireworks" then Some(FastLedFireworks)
    else if tag == "fastled_flicker" then Some(FastLedFlicker)
    else None
  }

  /** Tag names are distinct, so a key names at most one variant and every variant is reachable. */
  lemma KindOfTagName(k: Kind)
    ensures KindOf(TagName(k)) == Some(k)
  {
    match k
    case Lambda =>
    case Random =>
    case Strobe =>
    case Flicker =>
    case FastLedLambda =>
    case FastLedRainbow =>
    case FastLedColorWipe =>
    case FastLedScan =>
    case FastLedTwinkle =>
    case FastLedRandomTwinkle =>
    case FastLedFireworks =>
    case FastLedFlicker =>
  }

  // The capability tiers: each list is the previous one with more tags appended.
  const BinaryEffects: seq<string> := [TagName(Lambda), TagName(Strobe)]
  const MonochromaticEffects: seq<string> := BinaryEffects + [TagName(Flicker)]
  const RgbEffects: seq<string> := MonochromaticEffects + [TagName(Random)]
  const FastledEffects: seq<string> := RgbEffects + [
    TagName(FastLedLambda), TagName(FastLedRainbow), TagName(FastLedColorWipe),
    TagName(FastLedScan), TagName(FastLedTwinkle), TagName(FastLedRandomTwinkle),
    TagName(FastLedFireworks), TagName(FastLedFlicker)]

  /** `small` is `big` cut short, and `big` adds at least one tag `small` lacks. */
  predicate StrictPrefix(small: seq<string>, big: seq<string>) {
    |small| < |big| && big[..|small|] == small && big[|small|] !in small
  }

  /** The tiers are nested prefixes, each accepting a strict superset of the one below. */
  lemma TiersNested()
    ensures StrictPrefix(BinaryEffects, MonochromaticEffects)
    ensures StrictPrefix(MonochromaticEffects, RgbEffects)
    ensures StrictPrefix(RgbEffects, FastledEffects)
    ensures forall t :: t in BinaryEffects ==> t in MonochromaticEffects
    ensures forall t :: t in MonochromaticEffects ==> t in RgbEffects
    ensures forall t :: t in RgbEffects ==> t in FastledEffects
  {
  }

  /** The position of each variant's tag in the widest tier. */
  function TierIndex(k: Kind): (i: nat)
    ensures i < 12
  {
    match k
    case Lambda => 0 case Strobe => 1 case Flicker => 2 case Random => 3
    case FastLedLambda => 4 case FastLedRainbow => 5 case FastLedColorWipe => 6
    case FastLedScan => 7 case FastLedTwinkle => 8 case FastLedRandomTwinkle => 9
    case FastLedFireworks => 10 case FastLedFlicker => 11
  }

  /** The variant each position of the widest tier names. */
  function TierKind(i: nat): (k: Kind)
    requires i < 12
    ensures TierIndex(k) == i
  {
    [Lambda, Strobe, Flicker, Random, FastLedLambda, FastLedRainbow, FastLedColorWipe,
     FastLedScan, FastLedTwinkle, FastLedRandomTwinkle, FastLedFireworks, FastLedFlicker][i]
  }

  /** Position i of the widest tier is the tag of the i-th variant. */
  lemma FastledTierPositions()
    ensures |FastledEffects| == 12
    ensures forall i :: 0 <= i < 12 ==> FastledEffects[i] == TagName(TierKind(i))
  {
  }

  /** Every variant's tag sits in the widest tier, at the variant's position. */
  lemma EveryTagListed(k: Kind)
    ensures TierIndex(k) < |FastledEffects| && FastledEffects[TierIndex(k)] == TagName(k)
  {
    FastledTierPositions();
    assert TierKind(TierIndex(k)) == k by {
      match k
      case Lambda => case Strobe => case Flicker => case Random =>
      case FastLedLambda => case FastLedRainbow => case FastLedColorWipe =>
      case FastLedScan => case FastLedTwinkle => case FastLedRandomTwinkle =>
      case FastLedFireworks => case FastLedFlicker =>
    }
  }

  /** The widest tier lists exactly the tags of the effects schema, each once. */
  lemma FastledTierIsEverything()
    ensures forall k :: TagName(k) in FastledEffects
    ensures forall t :: t in FastledEffects ==> KindOf(t).Some?
    ensures forall i, j :: 0 <= i < j < |FastledEffects| ==> FastledEffects[i] != FastledEffects[j]
  {
    FastledTierPositions();
    forall k ensures TagName(k) in FastledEffects {
      EveryTagListed(k);
    }
    forall t | t in FastledEffects ensures KindOf(t).Some? {
      var i :| 0 <= i < 12 && FastledEffects[i] == t;
      KindOfTagName(TierKind(i));
    }
    forall i, j | 0 <= i < j < |FastledEffects| ensures FastledEffects[i] != FastledEffects[j] {
      KindOfTagName(TierKind(i));
      KindOfTagName(TierKind(j));
      assert TierIndex(TierKind(i)) != TierIndex(TierKind(j));
    }
  }
}
