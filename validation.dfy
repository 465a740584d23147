/**
 * The validator of a light's `effects:` list: each entry must be a mapping
 * with exactly one key, that key must be allowed for the light's tier, its
 * body must satisfy the tag's schema, and the resulting names must be unique.
 */
module Validation {
  import opened Wrappers
  import opened Tiers
  import opened EffectSchema

  /**
   * The body under an effect's key: a falsy value (null, an empty mapping), a
   * mapping, or any other truthy value (a number, a string, a list).
   */
  datatype RawBody = Falsy | Body(fields: Conf) | Other

  /** One entry of the `effects:` list as loaded: a mapping (its items in order) or anything else. */
  datatype RawEntry = NotMapping | Mapping(items: seq<(string, RawBody)>)

  /** `effect[key] or {}`: a falsy body becomes the empty mapping. */
  function BodyOrEmpty(b: RawBody): Conf
    requires !b.Other?
  {
    match b
    case Falsy => map[]
    case Body(m) => m
  }

  /**
   * An entry the checks let through: a one-key mapping whose key is an allowed,
   * known tag and whose body that tag's schema accepts.
   */
  predicate EntryAccepted(allowed: seq<string>, entry: RawEntry) {
    && entry.Mapping? && |entry.items| == 1
    && entry.items[0].0 in allowed
    && KindOf(entry.items[0].0).Some?
    && !entry.items[0].1.Other?
    && Accepts(Schema(KindOf(entry.items[0].0).value), BodyOrEmpty(entry.items[0].1))
  }

  /** The checks made of the entry at position i, in the order the validator makes them. */
  function CheckEntry(allowed: seq<string>, i: nat, entry: RawEntry, autoId: string): (r: Result<Effect, Error>)
    ensures r.Ok? ==> r.value.Valid()
    ensures r.Ok? ==> entry.Mapping? && |entry.items| == 1 && entry.items[0].0 in allowed
    ensures r.Ok? ==> TagName(r.value.kind) == entry.items[0].0
    ensures r.Ok? <==> EntryAccepted(allowed, entry)
    ensures r.Ok? ==> ApplySchema(r.value.kind, BodyOrEmpty(entry.items[0].1), autoId) == Ok(r.value.conf)
    ensures entry.NotMapping? ==> r == Err(NotADict)
    ensures entry.Mapping? && |entry.items| > 1 ==> r == Err(MultipleEffects)
    ensures entry.Mapping? && |entry.items| == 0 ==> r == Err(NoEffect(i))
    ensures entry.Mapping? && |entry.items| == 1 && entry.items[0].0 !in allowed ==>
              r == Err(NotAllowed(entry.items[0].0))
    ensures entry.Mapping? && |entry.items| == 1 && entry.items[0].0 in allowed && entry.items[0].1.Other? ==>
              r == Err(SchemaInvalid(entry.items[0].0))
  {
    match entry
    case NotMapping => Err(NotADict)
    case Mapping(items) =>
      if |items| > 1 then Err(MultipleEffects)
      else if |items| == 0 then Err(NoEffect(i))
      else
        var key := items[0].0;
        if key !in allowed then Err(NotAllowed(key))
        else
          match KindOf(key)
          case None => Err(SchemaInvalid(key))
          case Some(k) =>
            if items[0].1.Other? then Err(SchemaInvalid(key))
            else match ApplySchema(k, BodyOrEmpty(items[0].1), autoId)
            case Err(e) => Err(e)
            case Ok(conf) => Ok(Effect(k, conf))
  }

  /** The names of validated effects collected so far. */
  function NameSet(effects: seq<Effect>): set<string> {
    set j | 0 <= j < |effects| :: NameOf(effects[j])
  }

  predicate DistinctNames(effects: seq<Effect>) {
    forall i, j :: 0 <= i < j < |effects| ==> NameOf(effects[i]) != NameOf(effects[j])
  }

  /** The per-entry checks, entry i checked with the identifier generated for it; an elementwise map, its ensures exposed for the prover. */
  function Checks(allowed: seq<string>, value: seq<RawEntry>, autoId: nat -> string): (c: seq<Result<Effect, Error>>)
    ensures |c| == |value|
    ensures forall i :: 0 <= i < |value| ==> c[i] == CheckEntry(allowed, i, value[i], autoId(i))
  {
    seq(|value|, i requires 0 <= i < |value| => CheckEntry(allowed, i, value[i], autoId(i)))
  }

  /**
   * Folds the per-entry checks from the front, keeping the names seen so far:
   * the first failing check, or the first repeated name, decides the error.
   */
  function Collect(checks: seq<Result<Effect, Error>>): (r: Result<seq<Effect>, Error>)
    ensures r.Ok? ==> |r.value| == |checks|
    decreases |checks|
  {
    if checks == [] then Ok([])
    else
      var n := |checks| - 1;
      match Collect(checks[..n])
      case Err(e) => Err(e)
      case Ok(prev) =>
        match checks[n]
        case Err(e) => Err(e)
        case Ok(effect) =>
          if NameOf(effect) in NameSet(prev) then Err(DuplicateName(NameOf(effect)))
          else Ok(prev + [effect])
  }

  /** The validator's verdict on the entries of an `effects:` list. */
  function Validated(allowed: seq<string>, value: seq<RawEntry>, autoId: nat -> string): Result<seq<Effect>, Error> {
    Collect(Checks(allowed, value, autoId))
  }

  /** Once a prefix fails, the whole list fails with the same error. */
  lemma {:induction false} ErrorSticks(checks: seq<Result<Effect, Error>>, j: nat)
    requires j <= |checks|
    requires Collect(checks[..j]).Err?
    ensures Collect(checks) == Collect(checks[..j])
  {
    if j < |checks| {
      var n := |checks| - 1;
      assert checks[..n][..j] == checks[..j];
      ErrorSticks(checks[..n], j);
    } else {
      assert checks[..j] == checks;
    }
  }

  lemma NameSetSnoc(effects: seq<Effect>, e: Effect)
    ensures NameSet(effects + [e]) == NameSet(effects) + {NameOf(e)}
  {
    var s := effects + [e];
    assert forall j :: 0 <= j < |effects| ==> s[j] == effects[j];
    assert s[|effects|] == e;
  }

  /**
   * The loop of the validator: it keeps the names seen so far in a set and
   * the validated entries in a list, and stops at the first bad entry.
   */
  method ValidateEffects(allowed: seq<string>, value: seq<RawEntry>, autoId: nat -> string)
    returns (r: Result<seq<Effect>, Error>)
    ensures r == Validated(allowed, value, autoId)
  {
    ghost var checks := Checks(allowed, value, autoId);
    var names: set<string> := {};
    var ret: seq<Effect> := [];
    var i := 0;
    while i < |value|
      invariant 0 <= i <= |value|
      invariant Collect(checks[..i]) == Ok(ret)
      invariant names == NameSet(ret)
    {
      assert checks[..i + 1][..i] == checks[..i];
      assert checks[i] == CheckEntry(allowed, i, value[i], autoId(i));
      var effect := value[i];
      if effect.NotMapping? {
        r := Err(NotADict);
        ErrorSticks(checks, i + 1);
        return;
      }
      if |effect.items| > 1 {
        r := Err(MultipleEffects);
        ErrorSticks(checks, i + 1);
        return;
      }
      if |effect.items| == 0 {
        r := Err(NoEffect(i));
        ErrorSticks(checks, i + 1);
        return;
      }
      var key := effect.items[0].0;
      if key !in allowed {
        r := Err(NotAllowed(key));
        ErrorSticks(checks, i + 1);
        return;
      }
      var kind := KindOf(key);
      if kind.None? {
        r := Err(SchemaInvalid(key));
        ErrorSticks(checks, i + 1);
        return;
      }
      if effect.items[0].1.Other? {
        assert checks[i] == Err(SchemaInvalid(key));
        r := Err(SchemaInvalid(key));
        ErrorSticks(checks, i + 1);
        return;
      }
      var body := BodyOrEmpty(effect.items[0].1);
      var conf := ApplySchema(kind.value, body, autoId(i));
      if conf.Err? {
        r := Err(conf.error);
        ErrorSticks(checks, i + 1);
        return;
      }
      var validated := Effect(kind.value, conf.value);
      var name := NameOf(validated);
      if name in names {
        r := Err(DuplicateName(name));
        ErrorSticks(checks, i + 1);
        return;
      }
      NameSetSnoc(ret, validated);
      names := names + {name};
      ret := ret + [validated];
      i := i + 1;
    }
    assert checks[..i] == checks;
    r := Ok(ret);
  }

  /** On success the fold returns the checked entries themselves, in order, with distinct names. */
  lemma {:induction false} CollectSound(checks: seq<Result<Effect, Error>>)
    ensures var r := Collect(checks);
      r.Ok? ==>
        && |r.value| == |checks|
        && (forall i :: 0 <= i < |checks| ==> checks[i] == Ok(r.value[i]))
        && DistinctNames(r.value)
  {
    if checks != [] {
      var n := |checks| - 1;
      CollectSound(checks[..n]);
      var r := Collect(checks);
      if r.Ok? {
        var prev := Collect(checks[..n]).value;
        var effect := checks[n].value;
        assert r.value == prev + [effect];
        forall i | 0 <= i < n
          ensures NameOf(r.value[i]) != NameOf(effect)
        {
          assert NameOf(prev[i]) in NameSet(prev);
        }
      }
    }
  }

  /** Conversely, passing checks with distinct names are collected as they are. */
  lemma {:induction false} CollectComplete(checks: seq<Result<Effect, Error>>, effects: seq<Effect>)
    requires |effects| == |checks|
    requires forall i :: 0 <= i < |checks| ==> checks[i] == Ok(effects[i])
    requires DistinctNames(effects)
    ensures Collect(checks) == Ok(effects)
  {
    if checks != [] {
      var n := |checks| - 1;
      CollectComplete(checks[..n], effects[..n]);
      assert NameOf(effects[n]) !in NameSet(effects[..n]);
      assert effects[..n] + [effects[n]] == effects;
    }
  }

  /** On success: one validated entry per input entry, in input order, with pairwise distinct names. */
  lemma ValidatedSound(allowed: seq<string>, value: seq<RawEntry>, autoId: nat -> string)
    ensures var r := Validated(allowed, value, autoId);
      r.Ok? ==>
        && |r.value| == |value|
        && (forall i :: 0 <= i < |value| ==> CheckEntry(allowed, i, value[i], autoId(i)) == Ok(r.value[i]))
        && DistinctNames(r.value)
  {
    CollectSound(Checks(allowed, value, autoId));
  }

  /** If every entry passes its checks and the names are distinct, validation returns exactly those entries. */
  lemma ValidatedComplete(allowed: seq<string>, value: seq<RawEntry>, autoId: nat -> string, effects: seq<Effect>)
    requires |effects| == |value|
    requires forall i :: 0 <= i < |value| ==> CheckEntry(allowed, i, value[i], autoId(i)) == Ok(effects[i])
    requires DistinctNames(effects)
    ensures Validated(allowed, value, autoId) == Ok(effects)
  {
    CollectComplete(Checks(allowed, value, autoId), effects);
  }

  /** Entries the validator refuses before looking at the schema. */
  predicate Malformed(allowed: seq<string>, entry: RawEntry) {
    entry.NotMapping? || |entry.items| != 1 || entry.items[0].0 !in allowed
  }

  /**
   * An entry that is not a mapping, has several keys, has none, or has a key
   * outside the light's tier (even a tag another tier accepts) fails the whole list.
   */
  lemma BadEntryRejected(allowed: seq<string>, value: seq<RawEntry>, autoId: nat -> string, i: nat)
    requires i < |value| && Malformed(allowed, value[i])
    ensures Validated(allowed, value, autoId).Err?
  {
    ValidatedSound(allowed, value, autoId);
  }

  /** An allowed tag whose body is a truthy value other than a mapping (`- strobe: 5`) fails the whole list. */
  lemma ScalarBodyRejected(allowed: seq<string>, value: seq<RawEntry>, autoId: nat -> string, i: nat, tag: string)
    requires i < |value| && value[i] == Mapping([(tag, Other)])
    ensures Validated(allowed, value, autoId).Err?
  {
    ValidatedSound(allowed, value, autoId);
  }

  /** Two entries with the same resolved name fail at the second, with the repeated name. */
  lemma {:induction false} DuplicateRejectedAtSecond(checks: seq<Result<Effect, Error>>, i: nat, j: nat)
    requires i < j < |checks|
    requires Collect(checks[..j]).Ok? && checks[j].Ok?
    requires NameOf(checks[j].value) == NameOf(Collect(checks[..j]).value[i])
    ensures Collect(checks) == Err(DuplicateName(NameOf(checks[j].value)))
  {
    var prev := Collect(checks[..j]).value;
    CollectSound(checks[..j]);
    assert NameOf(prev[i]) in NameSet(prev);
    assert checks[..j + 1][..j] == checks[..j];
    ErrorSticks(checks, j + 1);
  }

  /** A bare `- strobe:` entry passes its checks under the default name "Strobe". */
  lemma BareStrobeChecks(allowed: seq<string>, i: nat, id: string)
    requires "strobe" in allowed
    ensures CheckEntry(allowed, i, Mapping([("strobe", Falsy)]), id).Ok?
    ensures NameOf(CheckEntry(allowed, i, Mapping([("strobe", Falsy)]), id).value) == "Strobe"
  {
    EmptyBodyAccepted(Strobe, id);
    NameDefaulted(Strobe, map[], id);
    KindOfTagName(Strobe);
  }

  /** Two entries that pass their checks under the same name fail at the second. */
  lemma SameNameTwice(allowed: seq<string>, first: RawEntry, second: RawEntry, autoId: nat -> string)
    requires CheckEntry(allowed, 0, first, autoId(0)).Ok?
    requires CheckEntry(allowed, 1, second, autoId(1)).Ok?
    requires NameOf(CheckEntry(allowed, 0, first, autoId(0)).value) == NameOf(CheckEntry(allowed, 1, second, autoId(1)).value)
    ensures Validated(allowed, [first, second], autoId)
         == Err(DuplicateName(NameOf(CheckEntry(allowed, 1, second, autoId(1)).value)))
  {
    var checks := Checks(allowed, [first, second], autoId);
    OneCheckCollected(checks[..1]);
    DuplicateRejectedAtSecond(checks, 0, 1);
  }

  lemma OneCheckCollected(checks: seq<Result<Effect, Error>>)
    requires |checks| == 1 && checks[0].Ok?
    ensures Collect(checks) == Ok([checks[0].value])
  {
    assert checks[..0] == [];
    assert Collect(checks[..0]) == Ok([]);
    assert NameSet([]) == {};
    assert [] + [checks[0].value] == [checks[0].value];
  }

  /** Two bare `- strobe:` entries clash on the default name "Strobe", at the second entry. */
  lemma StrobeTwiceRejected(allowed: seq<string>, entry: RawEntry, autoId: nat -> string)
    requires "strobe" in allowed
    requires entry == Mapping([("strobe", Falsy)])
    ensures Validated(allowed, [entry, entry], autoId) == Err(DuplicateName("Strobe"))
  {
    BareStrobeChecks(allowed, 0, autoId(0));
    BareStrobeChecks(allowed, 1, autoId(1));
    SameNameTwice(allowed, entry, entry, autoId);
  }
}
