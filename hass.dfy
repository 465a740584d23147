/**
 * `core_to_hass_config`: the Home Assistant discovery payload of a light.
 * Starting from the MQTT component's payload, it announces the light's
 * colour capabilities and, when the light has effects, lists their names.
 */
module Hass {
  import opened Wrappers
  import opened EffectSchema
  import Validation

  /** A value in the discovery payload. */
  datatype HassValue = Flag(on: bool) | Str(text: string) | List(items: seq<string>)

  type HassConfig = map<string, HassValue>

  /** The effects' names, one per effect, in configuration order; an elementwise map, its ensures exposed for the prover. */
  function EffectNames(effects: seq<Effect>): (names: seq<string>)
    ensures |names| == |effects|
    ensures forall i :: 0 <= i < |effects| ==> names[i] == NameOf(effects[i])
  {
    seq(|effects|, i requires 0 <= i < |effects| => NameOf(effects[i]))
  }

  /** The effect list the payload already holds, or none. */
  function ExistingList(ret: HassConfig): seq<string> {
    if "effect_list" in ret && ret["effect_list"].List? then ret["effect_list"].items else []
  }

  /** Announces capability `key` when the light has it. */
  function SetFlag(ret: HassConfig, key: string, on: bool): (r: HassConfig)
    requires key != "effect_list"
    ensures forall k :: k in r <==> k in ret || (on && k == key)
    ensures on ==> r[key] == Flag(true)
    ensures forall k :: k in ret && !(on && k == key) ==> r[k] == ret[k]
    ensures ExistingList(r) == ExistingList(ret)
  {
    if on then ret[key := Flag(true)] else ret
  }

  /** Whether `key` is a capability the light announces, given which capabilities it has. */
  predicate Announced(key: string, brightness: bool, rgb: bool, colorTemp: bool, whiteValue: bool) {
    || (brightness && key == "brightness") || (rgb && key == "rgb")
    || (colorTemp && key == "color_temp") || (whiteValue && key == "white_value")
  }

  /** Whether `key` is one the effects add: none for a light without effects. */
  predicate EffectKey(key: string, effects: seq<Effect>) {
    effects != [] && (key == "effect" || key == "effect_list")
  }

  /** The MQTT payload with each capability the light has announced as true, and nothing else changed. */
  function Flagged(ret: HassConfig, brightness: bool, rgb: bool, colorTemp: bool, whiteValue: bool): (f: HassConfig)
    ensures forall key :: key in f <==> key in ret || Announced(key, brightness, rgb, colorTemp, whiteValue)
    ensures forall key :: Announced(key, brightness, rgb, colorTemp, whiteValue) ==> f[key] == Flag(true)
    ensures forall key :: key in ret && !Announced(key, brightness, rgb, colorTemp, whiteValue) ==> f[key] == ret[key]
    ensures ExistingList(f) == ExistingList(ret)
  {
    var b := SetFlag(ret, "brightness", brightness);
    var r := SetFlag(b, "rgb", rgb);
    var c := SetFlag(r, "color_temp", colorTemp);
    SetFlag(c, "white_value", whiteValue)
  }

  /** The payload once the effects are listed: `effect` announced, their names appended to `effect_list`. */
  function WithEffects(ret: HassConfig, names: seq<string>): (w: HassConfig)
    ensures forall key :: key in w <==> key in ret || key == "effect" || key == "effect_list"
    ensures "effect" in w && "effect_list" in w
    ensures w["effect"] == Flag(true) && w["effect_list"] == List(ExistingList(ret) + names)
    ensures forall key :: key in ret && key != "effect" && key != "effect_list" ==> w[key] == ret[key]
  {
    ret["effect" := Flag(true)]["effect_list" := List(ExistingList(ret) + names)]
  }

  /** Listing one more name on a payload that already lists effects. */
  lemma WithOneMore(ret: HassConfig, names: seq<string>, name: string)
    ensures WithEffects(ret, names)["effect" := Flag(true)]["effect_list" := List(ExistingList(ret) + names + [name])]
         == WithEffects(ret, names + [name])
  {
    assert ExistingList(ret) + names + [name] == ExistingList(ret) + (names + [name]);
  }

  /**
   * The discovery payload built on the MQTT payload `ret`: each capability
   * the light has is announced as true; a light with effects announces
   * `effect` and appends its effect names to `effect_list`; every other key
   * keeps its value.
   */
  function Discovery(ret: HassConfig, effects: seq<Effect>, brightness: bool, rgb: bool, colorTemp: bool, whiteValue: bool)
    : (d: HassConfig)
    ensures forall key :: key in d <==>
              key in ret || Announced(key, brightness, rgb, colorTemp, whiteValue) || EffectKey(key, effects)
    ensures forall key :: Announced(key, brightness, rgb, colorTemp, whiteValue) ==> d[key] == Flag(true)
    ensures effects != [] ==>
      "effect" in d && "effect_list" in d &&
      d["effect"] == Flag(true) && d["effect_list"] == List(ExistingList(ret) + EffectNames(effects))
    ensures forall key :: key in ret && !Announced(key, brightness, rgb, colorTemp, whiteValue) && !EffectKey(key, effects)
              ==> d[key] == ret[key]
  {
    var flagged := Flagged(ret, brightness, rgb, colorTemp, whiteValue);
    if effects == [] then flagged else WithEffects(flagged, EffectNames(effects))
  }

  /**
   * Builds the discovery payload; None when the MQTT component publishes no
   * discovery payload.
   */
  method CoreToHassConfig(base: Option<HassConfig>, effects: seq<Effect>,
                          brightness: bool := true, rgb: bool := true, colorTemp: bool := true,
                          whiteValue: bool := true)
    returns (r: Option<HassConfig>)
    requires base.Some? && effects != [] && "effect_list" in base.value ==> base.value["effect_list"].List?
    ensures r.None? <==> base.None?
    ensures r.Some? ==> r.value == Discovery(base.value, effects, brightness, rgb, colorTemp, whiteValue)
  {
    if base.None? {
      return None;
    }
    var ret := base.value;
    if brightness {
      ret := ret["brightness" := Flag(true)];
    }
    if rgb {
      ret := ret["rgb" := Flag(true)];
    }
    if colorTemp {
      ret := ret["color_temp" := Flag(true)];
    }
    if whiteValue {
      ret := ret["white_value" := Flag(true)];
    }
    assert ret == Flagged(base.value, brightness, rgb, colorTemp, whiteValue);
    ret := ListEffects(ret, effects);
    return Some(ret);
  }

  /** Marks `effect` and appends each effect's name to `effect_list`, creating the list on first use. */
  method ListEffects(flagged: HassConfig, effects: seq<Effect>) returns (ret: HassConfig)
    requires effects != [] && "effect_list" in flagged ==> flagged["effect_list"].List?
    ensures ret == if effects == [] then flagged else WithEffects(flagged, EffectNames(effects))
  {
    ret := flagged;
    for i := 0 to |effects|
      invariant ret == if i == 0 then flagged else WithEffects(flagged, EffectNames(effects[..i]))
    {
      ghost var before := EffectNames(effects[..i]);
      ret := ret["effect" := Flag(true)];
      var names := if "effect_list" in ret then ret["effect_list"].items else [];
      assert names == ExistingList(flagged) + before;
      ret := ret["effect_list" := List(names + [NameOf(effects[i])])];
      assert EffectNames(effects[..i + 1]) == before + [NameOf(effects[i])];
      if i > 0 {
        WithOneMore(flagged, before, NameOf(effects[i]));
      } else {
        assert before + [NameOf(effects[i])] == [NameOf(effects[i])];
        assert names == ExistingList(flagged);
      }
    }
    assert effects[..|effects|] == effects;
  }

  /** On a payload without an effect list, effects with distinct names are each listed once, in order. */
  lemma DistinctNamesListedOnce(effects: seq<Effect>, ret: HassConfig,
                                brightness: bool, rgb: bool, colorTemp: bool, whiteValue: bool)
    requires effects != [] && "effect_list" !in ret && Validation.DistinctNames(effects)
    ensures var list := Discovery(ret, effects, brightness, rgb, colorTemp, whiteValue)["effect_list"].items;
      && |list| == |effects|
      && (forall i :: 0 <= i < |list| ==> list[i] == NameOf(effects[i]))
      && (forall i, j :: 0 <= i < j < |list| ==> list[i] != list[j])
  {
    assert ExistingList(ret) == [];
  }

  /**
   * For effects the validator accepted, on a payload without an effect list,
   * the announced list names every entry once, in order, without repeats:
   * its i-th name is the name of the effect entry i validated to.
   */
  lemma ValidatedEffectsListedOnce(allowed: seq<string>, value: seq<Validation.RawEntry>, autoId: nat -> string,
                                   ret: HassConfig, brightness: bool, rgb: bool, colorTemp: bool, whiteValue: bool)
    requires Validation.Validated(allowed, value, autoId).Ok? && value != []
    requires "effect_list" !in ret
    ensures var effects := Validation.Validated(allowed, value, autoId).value;
      var list := Discovery(ret, effects, brightness, rgb, colorTemp, whiteValue)["effect_list"].items;
      && |list| == |value|
      && (forall i, j :: 0 <= i < j < |list| ==> list[i] != list[j])
      && (forall i :: 0 <= i < |list| ==> list[i] == NameOf(effects[i]))
      && (forall i :: 0 <= i < |list| ==>
            && Validation.CheckEntry(allowed, i, value[i], autoId(i)).Ok?
            && list[i] == NameOf(Validation.CheckEntry(allowed, i, value[i], autoId(i)).value))
  {
    var effects := Validation.Validated(allowed, value, autoId).value;
    Validation.ValidatedSound(allowed, value, autoId);
    DistinctNamesListedOnce(effects, ret, brightness, rgb, colorTemp, whiteValue);
  }
}
