/** The character editor (src/components/game/AvatarCustomizer.tsx): option
    cycling with wrap-around, single-field updates, level-based unlock counts
    and the colour swatch split. */
module AvatarCustomizer {
  /** `AvatarConfig`, seven numeric choices. */
  datatype Config = Config(body: int, hair: int, hairColor: int, outfit: int,
                           outfitColor: int, accessory: int, background: int)

  /** `keyof AvatarConfig`. */
  datatype Field = Body | Hair | HairColor | Outfit | OutfitColor | Accessory | Background

  const DefaultAvatar := Config(0, 0, 0, 0, 0, 0, 0)

  /** `config[key]`. */
  function Get(c: Config, f: Field): int {
    match f
    case Body => c.body
    case Hair => c.hair
    case HairColor => c.hairColor
    case Outfit => c.outfit
    case OutfitColor => c.outfitColor
    case Accessory => c.accessory
    case Background => c.background
  }

  /** `{ ...config, [key]: value }`: the named field reads `v`, every other
      field is unchanged. */
  function Set(c: Config, f: Field, v: int): (r: Config)
    ensures Get(r, f) == v
    ensures forall g :: g != f ==> Get(r, g) == Get(c, g)
  {
    match f
    case Body => c.(body := v)
    case Hair => c.(hair := v)
    case HairColor => c.(hairColor := v)
    case Outfit => c.(outfit := v)
    case OutfitColor => c.(outfitColor := v)
    case Accessory => c.(accessory := v)
    case Background => c.(background := v)
  }

  /** A config is determined by its seven fields. */
  lemma ConfigExtensional(a: Config, b: Config)
    requires forall f :: Get(a, f) == Get(b, f)
    ensures a == b
  {
    assert Get(a, Body) == Get(b, Body) && Get(a, Hair) == Get(b, Hair);
    assert Get(a, HairColor) == Get(b, HairColor) && Get(a, Outfit) == Get(b, Outfit);
    assert Get(a, OutfitColor) == Get(b, OutfitColor) && Get(a, Accessory) == Get(b, Accessory);
    assert Get(a, Background) == Get(b, Background);
  }

  /** Writing back the value a field already has changes nothing. */
  lemma SetSame(c: Config, f: Field)
    ensures Set(c, f, Get(c, f)) == c
  {
    ConfigExtensional(Set(c, f, Get(c, f)), c);
  }

  /** The step of `cycleOption`: add the direction, then wrap below 0 to
      `max - 1` and at or above `max` to 0, in that order. */
  function Cycle(current: int, max: int, direction: int): (next: int)
    requires direction == 1 || direction == -1
    ensures max >= 1 ==> 0 <= next < max
    ensures max >= 1 && 0 <= current + direction < max ==> next == current + direction
  {
    var n := current + direction;
    var n1 := if n < 0 then max - 1 else n;
    if n1 >= max then 0 else n1
  }

  /** Wrap-around at both ends. */
  lemma CycleWraps(max: int)
    requires max >= 1
    ensures Cycle(max - 1, max, 1) == 0
    ensures Cycle(0, max, -1) == max - 1
  {
  }

  /** A value out of range (an option locked at the current level) is pulled
      back into range by one step either way. */
  lemma CycleFromLocked(current: int, max: int)
    requires max >= 1 && current >= max
    ensures Cycle(current, max, 1) == 0
    ensures current > max ==> Cycle(current, max, -1) == 0
    ensures current == max ==> Cycle(current, max, -1) == max - 1
  {
  }

  /** Backward undoes forward and forward undoes backward on `[0, max)`. */
  lemma CycleInverse(c: int, max: int)
    requires 0 <= c < max
    ensures Cycle(Cycle(c, max, 1), max, -1) == c
    ensures Cycle(Cycle(c, max, -1), max, 1) == c
  {
  }

  const HairStyleCount := 4
  const OutfitStyleCount := 4
  const AccessoryCount := 6
  /** The sizes of `HAIR_COLORS` and `OUTFIT_COLORS` (src/components/game/Avatar.tsx). */
  const HairColorCount := 8
  const OutfitColorCount := 8

  function Min(a: int, b: int): int {
    if a <= b then a else b
  }

  /** `Math.min(HAIR_STYLES.length, 2 + Math.floor(userLevel / 5))`; Dafny's
      division by a positive divisor is `Math.floor` of the quotient. */
  function UnlockedHairs(level: int): (u: int)
    ensures u <= HairStyleCount
  {
    Min(HairStyleCount, 2 + level / 5)
  }

  function UnlockedOutfits(level: int): (u: int)
    ensures u <= OutfitStyleCount
  {
    Min(OutfitStyleCount, 2 + level / 5)
  }

  function UnlockedAccessories(level: int): (u: int)
    ensures u <= AccessoryCount
  {
    Min(AccessoryCount, 2 + level / 3)
  }

  function UnlockedHairColors(level: int): (u: int)
    ensures u <= HairColorCount
  {
    Min(HairColorCount, 3 + level / 3)
  }

  function UnlockedOutfitColors(level: int): (u: int)
    ensures u <= OutfitColorCount
  {
    Min(OutfitColorCount, 3 + level / 3)
  }

  lemma DivMonotone(a: int, b: int, d: int)
    requires d > 0 && a <= b
    ensures a / d <= b / d
  {
    var qa, qb := a / d, b / d;
    assert a == qa * d + a % d;
    assert b == qb * d + b % d;
    if qa > qb {
      MulMono(d, qb + 1, qa);
    }
  }

  lemma MulMono(n: int, a: int, b: int)
    requires n >= 0 && a <= b
    ensures n * a <= n * b
  {
    assert n * b - n * a == n * (b - a);
  }

  /** Reaching a higher level never locks anything. */
  lemma UnlocksMonotone(l1: int, l2: int)
    requires l1 <= l2
    ensures UnlockedHairs(l1) <= UnlockedHairs(l2)
    ensures UnlockedOutfits(l1) <= UnlockedOutfits(l2)
    ensures UnlockedAccessories(l1) <= UnlockedAccessories(l2)
    ensures UnlockedHairColors(l1) <= UnlockedHairColors(l2)
    ensures UnlockedOutfitColors(l1) <= UnlockedOutfitColors(l2)
  {
    DivMonotone(l1, l2, 5);
    DivMonotone(l1, l2, 3);
  }

  /** The level from which each list is fully unlocked, and below which it
      is not. */
  lemma FullUnlockThresholds(level: int)
    ensures UnlockedHairs(level) == HairStyleCount <==> level >= 10
    ensures UnlockedOutfits(level) == OutfitStyleCount <==> level >= 10
    ensures UnlockedAccessories(level) == AccessoryCount <==> level >= 12
    ensures UnlockedHairColors(level) == HairColorCount <==> level >= 15
    ensures UnlockedOutfitColors(level) == OutfitColorCount <==> level >= 15
  {
    if level >= 10 { DivMonotone(10, level, 5); } else { DivMonotone(level, 9, 5); }
    if level >= 12 { DivMonotone(12, level, 3); } else { DivMonotone(level, 11, 3); }
    if level >= 15 { DivMonotone(15, level, 3); } else { DivMonotone(level, 14, 3); }
  }

  /** At the default level 1 two styles, two accessories and three colours
      are open. */
  lemma LevelOneUnlocks()
    ensures UnlockedHairs(1) == 2 && UnlockedOutfits(1) == 2 && UnlockedAccessories(1) == 2
    ensures UnlockedHairColors(1) == 3 && UnlockedOutfitColors(1) == 3
  {
  }

  /** A colour button: its React key, the palette index it shows, and whether
      it can be clicked. */
  datatype Swatch = Swatch(key: int, colorIndex: nat, enabled: bool)

  /** `Array.prototype.slice` normalises a start or end index `k` against the
      length: negative counts from the end, and both are clamped. */
  function SliceIndex(k: int, len: nat): (r: nat)
    ensures r <= len
    ensures 0 <= k <= len ==> r == k
  {
    if k < 0 then (if len + k < 0 then 0 else len + k)
    else if k > len then len
    else k
  }

  /** `palette.slice(0, u)` as enabled buttons keyed by `i`, followed by
      `palette.slice(u)` as disabled buttons keyed by `i + u`. */
  function Swatches(len: nat, u: int): (r: seq<Swatch>)
    ensures |r| == len
  {
    var cut := SliceIndex(u, len);
    seq(cut, i requires 0 <= i < cut => Swatch(i, i, true))
      + seq(len - cut, i requires 0 <= i < len - cut => Swatch(i + u, cut + i, false))
  }

  /** Every colour of the palette is drawn exactly once and in palette order;
      those below the unlock count are the enabled ones, and for a
      non-negative unlock count every key equals the colour's index. */
  lemma SwatchesPartition(len: nat, u: int)
    ensures forall j :: 0 <= j < len ==> Swatches(len, u)[j].colorIndex == j
    ensures forall j :: 0 <= j < len ==> (Swatches(len, u)[j].enabled <==> j < SliceIndex(u, len))
    ensures u >= 0 ==> forall j :: 0 <= j < len ==> Swatches(len, u)[j].key == j
  {
    var cut := SliceIndex(u, len);
    var r := Swatches(len, u);
    forall j | 0 <= j < len
      ensures r[j].colorIndex == j && (r[j].enabled <==> j < cut)
      ensures u >= 0 ==> r[j].key == j
    {
      if j >= cut {
        assert r[j] == Swatch(j - cut + u, j, false);
        if u >= 0 && u < len {
          assert cut == u;
        }
      }
    }
  }

  /** The swatches of the two colour palettes at a given level. */
  lemma ColorSwatchesAtLevel(level: int)
    requires level >= 0
    ensures forall j :: 0 <= j < HairColorCount ==>
              (Swatches(HairColorCount, UnlockedHairColors(level))[j].enabled <==> j < UnlockedHairColors(level))
    ensures forall j :: 0 <= j < OutfitColorCount ==>
              (Swatches(OutfitColorCount, UnlockedOutfitColors(level))[j].enabled <==> j < UnlockedOutfitColors(level))
  {
    SwatchesPartition(HairColorCount, UnlockedHairColors(level));
    SwatchesPartition(OutfitColorCount, UnlockedOutfitColors(level));
  }

  class Customizer {
    /** The `userLevel` prop, 1 when absent. */
    const userLevel: int
    var config: Config
    var open: bool
    /** The configs passed to `onSave`, oldest first. */
    var saved: seq<Config>

    constructor(currentConfig: Config, userLevel0: int)
      ensures userLevel == userLevel0 && config == currentConfig && !open && saved == []
    {
      userLevel := userLevel0;
      config := currentConfig;
      open := false;
      saved := [];
    }

    /** `updateConfig(key, value)`. */
    method UpdateConfig(f: Field, value: int)
      modifies this
      ensures Get(config, f) == value
      ensures forall g :: g != f ==> Get(config, g) == Get(old(config), g)
      ensures open == old(open) && saved == old(saved)
    {
      config := Set(config, f, value);
    }

    /** `cycleOption(key, max, direction)`. */
    method CycleOption(f: Field, max: int, direction: int)
      modifies this
      requires direction == 1 || direction == -1
      ensures Get(config, f) == Cycle(Get(old(config), f), max, direction)
      ensures max >= 1 ==> 0 <= Get(config, f) < max
      ensures forall g :: g != f ==> Get(config, g) == Get(old(config), g)
      ensures open == old(open) && saved == old(saved)
    {
      var current := Get(config, f);
      var next := current + direction;
      if next < 0 {
        next := max - 1;
      }
      if next >= max {
        next := 0;
      }
      config := Set(config, f, next);
    }

    /** A click on the enabled hair colour swatch `i`. */
    method PickHairColor(i: int)
      modifies this
      requires 0 <= i < SliceIndex(UnlockedHairColors(userLevel), HairColorCount)
      ensures config.hairColor == i && 0 <= config.hairColor < HairColorCount
      ensures forall g :: g != HairColor ==> Get(config, g) == Get(old(config), g)
      ensures open == old(open) && saved == old(saved)
    {
      UpdateConfig(HairColor, i);
    }

    /** `handleSave`: the current config goes to `onSave` and the dialog closes. */
    method HandleSave()
      modifies this
      ensures saved == old(saved) + [config] && config == old(config) && !open
    {
      saved := saved + [config];
      open := false;
    }
  }
}
