/**
 * The actor document of the Sacramento RPG system (module/documents/actor.mjs): derived
 * statistics for characters and NPCs, the pain-to-health guard run before an update is
 * committed, and the roll-data view with its formula shortcuts.
 */
module Actor {
  import opened Wrappers

  // ---------------------------------------------------------------------------------------
  // Data model: the actor's `system` record
  // ---------------------------------------------------------------------------------------

  /** One ability (fis, vel, int or cor): its value and the modifier derived from it. */
  datatype Ability = Ability(value: Option<int>, mod: Option<int>)

  /** A current/maximum track: `system.health` or `system.pain`. */
  datatype Track = Track(value: Option<int>, max: Option<int>)

  /** A numeric attribute record such as `attributes.moviment`. */
  datatype Stat = Stat(value: Option<int>)

  /** A boolean attribute record (`attributes.isSpecial`). */
  datatype Flag = Flag(value: Option<bool>)

  /** The attribute records the rules read or write; each one may be missing. */
  datatype Attributes = Attributes(
    moviment: Option<Stat>,
    antecedents: Option<Stat>,
    actions: Option<Stat>,
    defense: Option<Stat>,
    cr: Option<Stat>,
    isSpecial: Option<Flag>,
    level: Option<Stat>)

  /** The actor's `system` record: abilities by key, attributes, and the two tracks. */
  datatype SystemData = SystemData(
    abilities: map<string, Ability>,
    attributes: Attributes,
    health: Option<Track>,
    pain: Option<Track>)

  /** How a preparation pass ended: normally, or by throwing. */
  datatype Outcome = Completed | Threw(fault: Fault)

  // ---------------------------------------------------------------------------------------
  // Field access with JavaScript's defaulting rules
  // ---------------------------------------------------------------------------------------

  /** A numeric field with a fallback: an absent field and a field holding 0 both give `d`. */
  function OrFalsy(o: Option<int>, d: int): (r: int)
    ensures o.Some? && o.value != 0 ==> r == o.value
    ensures o.None? || o.value == 0 ==> r == d
  {
    if o.Some? && o.value != 0 then o.value else d
  }

  /** The value of an attribute record, absent when the record is. */
  function StatValue(o: Option<Stat>): Option<int>
  {
    if o.Some? then o.value.value else None
  }

  /** The score of an ability: its value, 0 when the ability or its value is missing or 0. */
  function Score(s: SystemData, key: string): (v: int)
    ensures key in s.abilities && s.abilities[key].value.Some? && s.abilities[key].value.value != 0
            ==> v == s.abilities[key].value.value
    ensures key !in s.abilities || s.abilities[key].value.None? || s.abilities[key].value.value == 0 ==> v == 0
  {
    OrFalsy(if key in s.abilities then s.abilities[key].value else None, 0)
  }

  /** The challenge rating (NdC), 1 when the rating or its value is missing or 0. */
  function ChallengeRating(s: SystemData): (ndc: int)
    ensures ndc != 0
    ensures StatValue(s.attributes.cr).Some? && StatValue(s.attributes.cr).value != 0
            ==> ndc == StatValue(s.attributes.cr).value
    ensures StatValue(s.attributes.cr).None? || StatValue(s.attributes.cr).value == 0 ==> ndc == 1
  {
    OrFalsy(StatValue(s.attributes.cr), 1)
  }

  /** Whether an NPC is special: false when the flag or its value is missing. */
  predicate IsSpecial(s: SystemData)
  {
    s.attributes.isSpecial.Some? && s.attributes.isSpecial.value.value == Some(true)
  }

  /** Sets the maximum of a resource track, when the track exists. */
  function WithMax(t: Option<Track>, m: int): Option<Track>
  {
    if t.Some? then Some(t.value.(max := Some(m))) else None
  }

  /** Sets the value of a record, when the record exists. */
  function WithValue(a: Option<Stat>, v: int): Option<Stat>
  {
    if a.Some? then Some(a.value.(value := Some(v))) else None
  }

  /** The ability with its modifier set to its value (a missing value leaves a missing modifier). */
  function WithMod(a: Ability): Ability
  {
    a.(mod := a.value)
  }

  // ---------------------------------------------------------------------------------------
  // Derived statistics
  // ---------------------------------------------------------------------------------------

  /**
   * The character rules: health.max = 6 + fis, moviment = 2 + vel, antecedents = 4 + int,
   * actions accumulate cor onto their previous value, and every modifier mirrors its ability's value.
   * Records that are missing stay missing.
   */
  function CharacterDerived(s: SystemData): (r: SystemData)
    ensures r.health.Some? <==> s.health.Some?
    ensures r.health.Some? ==>
              r.health.value.max == Some(6 + Score(s, "fis")) && r.health.value.value == s.health.value.value
    ensures r.attributes.moviment.Some? <==> s.attributes.moviment.Some?
    ensures r.attributes.moviment.Some? ==> StatValue(r.attributes.moviment) == Some(2 + Score(s, "vel"))
    ensures r.attributes.antecedents.Some? <==> s.attributes.antecedents.Some?
    ensures r.attributes.antecedents.Some?
            ==> StatValue(r.attributes.antecedents) == Some(4 + Score(s, "int"))
    ensures r.attributes.actions.Some? <==> s.attributes.actions.Some?
    ensures r.attributes.actions.Some?
            ==> StatValue(r.attributes.actions)
                == Some(OrFalsy(StatValue(s.attributes.actions), 0) + Score(s, "cor"))
    ensures r.abilities.Keys == s.abilities.Keys
    ensures forall k :: k in r.abilities ==>
              r.abilities[k].value == s.abilities[k].value && r.abilities[k].mod == s.abilities[k].value
    ensures r.pain == s.pain
    ensures r.attributes.(moviment := None, antecedents := None, actions := None)
            == s.attributes.(moviment := None, antecedents := None, actions := None)
  {
    var a := s.attributes;
    SystemData(
      map k | k in s.abilities :: WithMod(s.abilities[k]),
      a.(moviment := WithValue(a.moviment, 2 + Score(s, "vel")),
         antecedents := WithValue(a.antecedents, 4 + Score(s, "int")),
         actions := WithValue(a.actions, OrFalsy(StatValue(a.actions), 0) + Score(s, "cor"))),
      WithMax(s.health, 6 + Score(s, "fis")),
      s.pain)
  }

  /** The NPC rules that hold for every NPC: pain.max = 6 and defense = 5. */
  function NpcCommon(s: SystemData): (r: SystemData)
    ensures r.pain.Some? <==> s.pain.Some?
    ensures r.pain.Some? ==> r.pain.value == s.pain.value.(max := Some(6))
    ensures r.attributes.defense.Some? <==> s.attributes.defense.Some?
    ensures r.attributes.defense.Some? ==> r.attributes.defense.value == s.attributes.defense.value.(value := Some(5))
    ensures r.abilities == s.abilities && r.health == s.health
    ensures r.attributes.(defense := None) == s.attributes.(defense := None)
  {
    s.(pain := WithMax(s.pain, 6),
       attributes := s.attributes.(defense := WithValue(s.attributes.defense, 5)))
  }

  /**
   * The NPC rules: pain.max = 6 and defense = 5 on the records that exist; a special NPC has
   * health.max = 6·NdC and NdC + 3 actions, a common one 3·NdC and NdC + 1. Health is written
   * without a presence check, so an NPC without a health record throws after the common rules
   * have been applied, leaving health and actions as they were.
   */
  function NpcDerived(s: SystemData): (r: SystemData)
    ensures r.abilities == s.abilities
    ensures r.pain.Some? <==> s.pain.Some?
    ensures r.pain.Some? ==> r.pain.value.max == Some(6) && r.pain.value.value == s.pain.value.value
    ensures r.attributes.defense.Some? <==> s.attributes.defense.Some?
    ensures r.attributes.defense.Some? ==> StatValue(r.attributes.defense) == Some(5)
    ensures r.health.Some? <==> s.health.Some?
    ensures s.health.Some? && IsSpecial(s) ==> r.health.value.max == Some(ChallengeRating(s) * 6)
    ensures s.health.Some? && !IsSpecial(s) ==> r.health.value.max == Some(ChallengeRating(s) * 3)
    ensures r.health.Some? ==> r.health.value.value == s.health.value.value
    ensures r.attributes.actions.Some? <==> s.attributes.actions.Some?
    ensures s.health.Some? && r.attributes.actions.Some?
            ==> StatValue(r.attributes.actions)
                == Some(ChallengeRating(s) + (if IsSpecial(s) then 3 else 1))
    ensures s.health.None? ==> r.attributes.actions == s.attributes.actions
    ensures r.attributes.(defense := None, actions := None)
            == s.attributes.(defense := None, actions := None)
  {
    var c := NpcCommon(s);
    var ndc := ChallengeRating(s);
    if s.health.None? then c
    else if IsSpecial(s) then
      c.(health := WithMax(c.health, ndc * 6),
         attributes := c.attributes.(actions := WithValue(c.attributes.actions, ndc + 3)))
    else
      c.(health := WithMax(c.health, ndc * 3),
         attributes := c.attributes.(actions := WithValue(c.attributes.actions, ndc + 1)))
  }

  /** Whether the NPC pass throws: it writes `health.max` without checking for a health record. */
  predicate NpcThrows(s: SystemData)
  {
    s.health.None?
  }

  /** `n` successive character preparation passes. */
  function PrepareTimes(s: SystemData, n: nat): SystemData
  {
    if n == 0 then s else CharacterDerived(PrepareTimes(s, n - 1))
  }

  /**
   * Re-running the character pass leaves health, moviment, antecedents and the abilities as
   * one pass left them: those rules are assignments.
   */
  lemma CharacterAssignmentsStable(s: SystemData)
    ensures CharacterDerived(CharacterDerived(s)).health == CharacterDerived(s).health
    ensures CharacterDerived(CharacterDerived(s)).attributes.moviment == CharacterDerived(s).attributes.moviment
    ensures CharacterDerived(CharacterDerived(s)).attributes.antecedents
            == CharacterDerived(s).attributes.antecedents
    ensures CharacterDerived(CharacterDerived(s)).abilities == CharacterDerived(s).abilities
  {
    var r1 := CharacterDerived(s);
    var r2 := CharacterDerived(r1);
    assert forall k :: k in s.abilities ==> Score(r1, k) == Score(s, k);
    assert r2.abilities == r1.abilities;
  }

  /**
   * The actions rule accumulates: after `n` passes the actions value is its original value
   * (0 when absent) plus `n` times cor.
   */
  lemma {:induction false} ActionsAccumulate(s: SystemData, n: nat)
    requires s.attributes.actions.Some?
    requires n > 0
    ensures PrepareTimes(s, n).attributes.actions.Some?
    ensures StatValue(PrepareTimes(s, n).attributes.actions)
            == Some(OrFalsy(StatValue(s.attributes.actions), 0) + n * Score(s, "cor"))
    ensures Score(PrepareTimes(s, n), "cor") == Score(s, "cor")
  {
    var c := Score(s, "cor");
    if n == 1 {
      ScoreKept(s, "cor");
    } else {
      ActionsAccumulate(s, n - 1);
      var prev := PrepareTimes(s, n - 1);
      ScoreKept(prev, "cor");
      var v := OrFalsy(StatValue(s.attributes.actions), 0) + (n - 1) * c;
      assert OrFalsy(StatValue(prev.attributes.actions), 0) == v;
      assert (n - 1) * c + c == n * c;
    }
  }

  /** The character pass leaves every ability's score as it was. */
  lemma ScoreKept(s: SystemData, key: string)
    ensures Score(CharacterDerived(s), key) == Score(s, key)
  {
  }

  /** Hence the character pass is not idempotent when cor is non-zero and actions exist. */
  lemma CharacterNotIdempotent(s: SystemData)
    requires s.attributes.actions.Some?
    requires Score(s, "cor") != 0
    ensures CharacterDerived(CharacterDerived(s)) != CharacterDerived(s)
  {
    ActionsAccumulate(s, 1);
    ActionsAccumulate(s, 2);
  }

  /** The NPC rules are all assignments, so a second pass changes nothing. */
  lemma NpcIdempotent(s: SystemData)
    ensures NpcDerived(NpcDerived(s)) == NpcDerived(s)
  {
  }

  // ---------------------------------------------------------------------------------------
  // The pain-to-health guard
  // ---------------------------------------------------------------------------------------

  const PainValueKey: string := "system.pain.value"
  const HealthValueKey: string := "system.health.value"

  /** Whether the current health is positive; an absent health value counts as not positive. */
  predicate LosesHealth(s: SystemData)
    requires s.health.Some?
  {
    s.health.value.value.Some? && s.health.value.value.value > 0
  }

  /**
   * The pending change set after the guard: when the change drives pain to 0 or below, pain is
   * reset to its maximum (6 when the maximum is absent or 0) and, if the current health is
   * positive, health drops by exactly one; every other key is left alone. Reading the health
   * or pain record of an actor that has none throws.
   */
  function GuardChanges(s: SystemData, changed: map<string, int>): (r: Result<map<string, int>, Fault>)
    ensures PainValueKey !in changed || changed[PainValueKey] > 0 ==> r == Success(changed)
    ensures PainValueKey in changed && changed[PainValueKey] <= 0 && (s.health.None? || s.pain.None?)
            ==> r == Failure(TypeError)
    ensures PainValueKey in changed && changed[PainValueKey] <= 0 && s.health.Some? && s.pain.Some? ==>
              && r.Success?
              && r.value.Keys == changed.Keys + (if LosesHealth(s) then {HealthValueKey} else {})
              && r.value[PainValueKey] == OrFalsy(s.pain.value.max, 6)
              && (LosesHealth(s) ==> r.value[HealthValueKey] == s.health.value.value.value - 1)
              && (forall k :: k in changed && k != PainValueKey && (k != HealthValueKey || !LosesHealth(s))
                    ==> r.value[k] == changed[k])
  {
    if PainValueKey !in changed || changed[PainValueKey] > 0 then Success(changed)
    else if s.health.None? || s.pain.None? then Failure(TypeError)
    else
      var life := s.health.value.value;
      var withHealth := if LosesHealth(s) then changed[HealthValueKey := life.value - 1] else changed;
      Success(withHealth[PainValueKey := OrFalsy(s.pain.value.max, 6)])
  }

  /**
   * The guard is idempotent: its output run through the guard again comes back unchanged,
   * because the health it writes is computed from the stored record, not from the change set.
   */
  lemma {:induction false} GuardIdempotent(s: SystemData, changed: map<string, int>)
    requires GuardChanges(s, changed).Success?
    ensures GuardChanges(s, GuardChanges(s, changed).value) == GuardChanges(s, changed)
  {
    var once := GuardChanges(s, changed).value;
    if PainValueKey in changed && changed[PainValueKey] <= 0 {
      var twice := GuardChanges(s, once);
      if once[PainValueKey] <= 0 {
        assert twice.Success?;
        assert twice.value.Keys == once.Keys;
        assert forall k :: k in once ==> twice.value[k] == once[k];
        assert twice.value == once;
      }
    }
  }

  /** An actor record with no abilities or attributes and the given health and pain tracks. */
  function TracksOnly(health: Track, pain: Track): SystemData
  {
    SystemData(map[], Attributes(None, None, None, None, None, None, None), Some(health), Some(pain))
  }

  /** Pain driven to 0 with 3 health and maximum pain 6: pain resets to 6, health drops to 2. */
  lemma GuardLosesOneHealth()
    ensures GuardChanges(TracksOnly(Track(Some(3), Some(10)), Track(Some(4), Some(6))), map[PainValueKey := 0])
            == Success(map[PainValueKey := 6, HealthValueKey := 2])
  {
    var r := GuardChanges(TracksOnly(Track(Some(3), Some(10)), Track(Some(4), Some(6))), map[PainValueKey := 0]);
    assert PainValueKey[7] != HealthValueKey[7];
    assert r.value == map[PainValueKey := 6, HealthValueKey := 2];
  }

  /** Pain driven below 0 at 0 health: pain resets, health is not touched. */
  lemma GuardAtZeroHealth()
    ensures GuardChanges(TracksOnly(Track(Some(0), Some(10)), Track(Some(1), Some(6))), map[PainValueKey := -2])
            == Success(map[PainValueKey := 6])
  {
    var r := GuardChanges(TracksOnly(Track(Some(0), Some(10)), Track(Some(1), Some(6))), map[PainValueKey := -2]);
    assert r.value == map[PainValueKey := 6];
  }

  // ---------------------------------------------------------------------------------------
  // Roll data
  // ---------------------------------------------------------------------------------------

  /** A value stored under a top-level key of the roll data. */
  datatype RollValue =
    | AbilitiesValue(abilities: map<string, Ability>)
    | AttributesValue(attributes: Attributes)
    | TrackValue(track: Track)
    | AbilityValue(ability: Ability)
    | Number(n: int)

  type RollData = map<string, RollValue>

  /** A shallow copy of the system record, one key per present field. */
  function SystemEntries(s: SystemData): (r: RollData)
    ensures r.Keys == {"abilities", "attributes"} + (if s.health.Some? then {"health"} else {})
                      + (if s.pain.Some? then {"pain"} else {})
    ensures r["abilities"] == AbilitiesValue(s.abilities) && r["attributes"] == AttributesValue(s.attributes)
    ensures s.health.Some? ==> r["health"] == TrackValue(s.health.value)
    ensures s.pain.Some? ==> r["pain"] == TrackValue(s.pain.value)
  {
    var base := map["abilities" := AbilitiesValue(s.abilities), "attributes" := AttributesValue(s.attributes)];
    var withHealth := if s.health.Some? then base["health" := TrackValue(s.health.value)] else base;
    if s.pain.Some? then withHealth["pain" := TrackValue(s.pain.value)] else withHealth
  }

  /** Every ability of `data.abilities` copied to the top level under its own key. */
  function AbilityShortcuts(data: RollData): (r: RollData)
    ensures "abilities" in data && data["abilities"].AbilitiesValue? ==>
              var abilities := data["abilities"].abilities;
              && r.Keys == data.Keys + abilities.Keys
              && (forall k :: k in abilities ==> r[k] == AbilityValue(abilities[k]))
              && (forall k :: k in data && k !in abilities ==> r[k] == data[k])
    ensures !("abilities" in data && data["abilities"].AbilitiesValue?) ==> r == data
  {
    if "abilities" in data && data["abilities"].AbilitiesValue? then
      var abilities := data["abilities"].abilities;
      data + map k | k in abilities :: AbilityValue(abilities[k])
    else data
  }

  /** A `lvl` entry holding the level's value (0 when it has none), present only when the level record is. */
  function LevelShortcut(data: RollData): (r: RollData)
    requires "attributes" in data
    ensures var a := data["attributes"];
            && r.Keys == data.Keys + (if a.AttributesValue? && a.attributes.level.Some? then {"lvl"} else {})
            && (forall k :: k in data && k != "lvl" ==> r[k] == data[k])
            && (a.AttributesValue? && a.attributes.level.Some? ==> r["lvl"] == Number(a.attributes.level.value.value.GetOr(0)))
    ensures var a := data["attributes"];
            !(a.AttributesValue? && a.attributes.level.Some?) ==> r == data
  {
    var a := data["attributes"];
    if a.AttributesValue? && a.attributes.level.Some? then
      data["lvl" := Number(a.attributes.level.value.value.GetOr(0))]
    else data
  }

  /** An `ndc` entry holding the challenge rating's value (0 when it has none), present only when the rating record is. */
  function NdcShortcut(data: RollData): (r: RollData)
    requires "attributes" in data
    ensures var a := data["attributes"];
            && r.Keys == data.Keys + (if a.AttributesValue? && a.attributes.cr.Some? then {"ndc"} else {})
            && (forall k :: k in data && k != "ndc" ==> r[k] == data[k])
            && (a.AttributesValue? && a.attributes.cr.Some? ==> r["ndc"] == Number(a.attributes.cr.value.value.GetOr(0)))
    ensures var a := data["attributes"];
            !(a.AttributesValue? && a.attributes.cr.Some?) ==> r == data
  {
    var a := data["attributes"];
    if a.AttributesValue? && a.attributes.cr.Some? then
      data["ndc" := Number(a.attributes.cr.value.value.GetOr(0))]
    else data
  }

  /**
   * Whether a character's roll data gets a `lvl` entry: a level record exists and no ability
   * named `attributes` has replaced the attributes entry before the level is looked up.
   */
  predicate LevelAdded(s: SystemData)
  {
    "attributes" !in s.abilities && s.attributes.level.Some?
  }

  /**
   * The roll data of an actor of type `kind`: the system copy, plus for a character every ability
   * under its own key and `lvl` when a level record exists, plus for an NPC `ndc` when a
   * challenge-rating record exists.
   */
  function RollDataOf(kind: string, s: SystemData): (r: RollData)
    ensures kind != "character" && kind != "npc" ==> r == SystemEntries(s)
    ensures kind == "character" ==>
              && r.Keys == SystemEntries(s).Keys + s.abilities.Keys + (if LevelAdded(s) then {"lvl"} else {})
              && (forall k :: k in SystemEntries(s) && k !in s.abilities ==> r[k] == SystemEntries(s)[k])
              && (forall k :: k in s.abilities && !(k == "lvl" && LevelAdded(s)) ==> r[k] == AbilityValue(s.abilities[k]))
              && (LevelAdded(s) ==> r["lvl"] == Number(s.attributes.level.value.value.GetOr(0)))
    ensures kind == "npc" ==>
              && r.Keys == SystemEntries(s).Keys + (if s.attributes.cr.Some? then {"ndc"} else {})
              && (forall k :: k in SystemEntries(s) ==> r[k] == SystemEntries(s)[k])
              && (s.attributes.cr.Some? ==> r["ndc"] == Number(s.attributes.cr.value.value.GetOr(0)))
  {
    var data := SystemEntries(s);
    if kind == "character" then CharacterRollShape(s); LevelShortcut(AbilityShortcuts(data))
    else if kind == "npc" then NpcRollShape(s); NdcShortcut(data)
    else data
  }

  /**
   * The character branch of the roll data: the abilities overwrite the system entries of the
   * same name, and `lvl` overwrites an ability of that name.
   */
  lemma CharacterRollShape(s: SystemData)
    ensures "attributes" in AbilityShortcuts(SystemEntries(s))
    ensures var r := LevelShortcut(AbilityShortcuts(SystemEntries(s)));
            && r.Keys == SystemEntries(s).Keys + s.abilities.Keys + (if LevelAdded(s) then {"lvl"} else {})
            && (forall k :: k in SystemEntries(s) && k !in s.abilities ==> r[k] == SystemEntries(s)[k])
            && (forall k :: k in s.abilities && !(k == "lvl" && LevelAdded(s)) ==> r[k] == AbilityValue(s.abilities[k]))
            && (LevelAdded(s) ==> r["lvl"] == Number(s.attributes.level.value.value.GetOr(0)))
  {
    var d := SystemEntries(s);
    assert d["abilities"].abilities == s.abilities;
    var a := AbilityShortcuts(d);
    assert a.Keys == d.Keys + s.abilities.Keys;
    if "attributes" in s.abilities {
      assert a["attributes"] == AbilityValue(s.abilities["attributes"]);
    } else {
      assert a["attributes"] == AttributesValue(s.attributes);
    }
    assert "lvl" !in d;
  }

  /** The NPC branch of the roll data: the challenge rating over the system copy. */
  lemma NpcRollShape(s: SystemData)
    ensures var d := SystemEntries(s);
            var r := NdcShortcut(d);
            && r.Keys == d.Keys + (if s.attributes.cr.Some? then {"ndc"} else {})
            && (forall k :: k in d ==> r[k] == d[k])
            && (s.attributes.cr.Some? ==> r["ndc"] == Number(s.attributes.cr.value.value.GetOr(0)))
  {
    var d := SystemEntries(s);
    assert "ndc" !in d;
  }

  /**
   * The `@ndc` shortcut and the derived statistics disagree on an NPC whose challenge rating is
   * 0: the statistics use NdC 1 while the shortcut reads 0.
   */
  lemma NdcShortcutDisagrees(s: SystemData)
    requires s.attributes.cr == Some(Stat(Some(0)))
    ensures ChallengeRating(s) == 1
    ensures RollDataOf("npc", s)["ndc"] == Number(0)
  {
  }

  // ---------------------------------------------------------------------------------------
  // The actor document
  // ---------------------------------------------------------------------------------------

  /** An actor: its type tag and its `system` record, which the preparation passes update in place. */
  class ActorDocument {
    var kind: string
    var system: SystemData

    constructor (kind: string, system: SystemData)
      ensures this.kind == kind && this.system == system
    {
      this.kind := kind;
      this.system := system;
    }

    /** `prepareDerivedData`: the character pass, then the NPC pass; the type tag picks one. */
    method PrepareDerivedData() returns (outcome: Outcome)
      modifies this
      ensures kind == old(kind)
      ensures kind == "character" ==> system == CharacterDerived(old(system)) && outcome == Completed
      ensures kind == "npc" ==>
                system == NpcDerived(old(system))
                && (outcome == Threw(TypeError) <==> NpcThrows(old(system)))
                && (outcome == Completed <==> !NpcThrows(old(system)))
      ensures kind != "character" && kind != "npc" ==> system == old(system) && outcome == Completed
    {
      PrepareCharacterData();
      outcome := PrepareNpcData();
    }

    /** `_prepareCharacterData`: applies the character rules when the actor is a character. */
    method PrepareCharacterData()
      modifies this
      ensures kind == old(kind)
      ensures system == if kind == "character" then CharacterDerived(old(system)) else old(system)
    {
      if kind != "character" {
        return;
      }
      var fis := Score(system, "fis");
      var vel := Score(system, "vel");
      var intel := Score(system, "int");
      var cor := Score(system, "cor");

      if system.health.Some? {
        system := system.(health := Some(system.health.value.(max := Some(6 + fis))));
      }
      var attributes := system.attributes;
      if attributes.moviment.Some? {
        attributes := attributes.(moviment := Some(attributes.moviment.value.(value := Some(2 + vel))));
      }
      if attributes.antecedents.Some? {
        attributes := attributes.(antecedents := Some(attributes.antecedents.value.(value := Some(4 + intel))));
      }
      if attributes.actions.Some? {
        var prior := OrFalsy(attributes.actions.value.value, 0);
        attributes := attributes.(actions := Some(attributes.actions.value.(value := Some(prior + cor))));
      }
      system := system.(attributes := attributes);
      MirrorModifiers();
    }

    /** The `for` loop over the abilities: every modifier takes its ability's value. */
    method MirrorModifiers()
      modifies this
      ensures kind == old(kind)
      ensures system == old(system).(abilities := map k | k in old(system).abilities :: WithMod(old(system).abilities[k]))
    {
      ghost var before := system;
      var todo := system.abilities.Keys;
      while todo != {}
        invariant kind == old(kind)
        invariant todo <= before.abilities.Keys
        invariant system.abilities.Keys == before.abilities.Keys
        invariant system.(abilities := before.abilities) == before
        invariant forall k :: k in before.abilities && k !in todo
                    ==> system.abilities[k] == WithMod(before.abilities[k])
        invariant forall k :: k in todo ==> system.abilities[k] == before.abilities[k]
        decreases todo
      {
        var k :| k in todo;
        system := system.(abilities := system.abilities[k := WithMod(system.abilities[k])]);
        todo := todo - {k};
      }
    }

    /**
     * `_prepareNpcData`: applies the NPC rules when the actor is an NPC. An NPC without a health
     * record throws, after pain and defense have already been written.
     */
    method PrepareNpcData() returns (outcome: Outcome)
      modifies this
      ensures kind == old(kind)
      ensures kind != "npc" ==> system == old(system) && outcome == Completed
      ensures kind == "npc" ==>
                system == NpcDerived(old(system))
                && outcome == if NpcThrows(old(system)) then Threw(TypeError) else Completed
    {
      outcome := Completed;
      if kind != "npc" {
        return;
      }
      var ndc := OrFalsy(StatValue(system.attributes.cr), 1);
      var isSpecial := system.attributes.isSpecial.Some? && system.attributes.isSpecial.value.value == Some(true);

      if system.pain.Some? {
        system := system.(pain := Some(system.pain.value.(max := Some(6))));
      }
      if system.attributes.defense.Some? {
        system := system.(attributes := system.attributes.(defense := Some(system.attributes.defense.value.(value := Some(5)))));
      }

      if system.health.None? {
        outcome := Threw(TypeError);
        return;
      }
      if isSpecial {
        system := system.(health := Some(system.health.value.(max := Some(ndc * 6))));
        if system.attributes.actions.Some? {
          system := system.(attributes := system.attributes.(actions := Some(system.attributes.actions.value.(value := Some(ndc + 3)))));
        }
      } else {
        system := system.(health := Some(system.health.value.(max := Some(ndc * 3))));
        if system.attributes.actions.Some? {
          system := system.(attributes := system.attributes.(actions := Some(system.attributes.actions.value.(value := Some(ndc + 1)))));
        }
      }
    }

    /**
     * `_preUpdate`: amends the pending change set before it is committed. Reads the stored
     * record; changes nothing on the actor.
     */
    method PreUpdate(changed: map<string, int>) returns (result: Result<map<string, int>, Fault>)
      ensures result == GuardChanges(system, changed)
    {
      if PainValueKey !in changed {
        return Success(changed);
      }
      var newPain := changed[PainValueKey];
      var amended := changed;
      if newPain <= 0 {
        if system.health.None? {
          return Failure(TypeError);
        }
        var currentLife := system.health.value.value;
        if system.pain.None? {
          return Failure(TypeError);
        }
        var maxPain := OrFalsy(system.pain.value.max, 6);
        if currentLife.Some? && currentLife.value > 0 {
          amended := amended[HealthValueKey := currentLife.value - 1];
        }
        amended := amended[PainValueKey := maxPain];
      }
      return Success(amended);
    }

    /** `getRollData`: the system copy with the character or NPC shortcuts added. */
    method GetRollData() returns (data: RollData)
      ensures data == RollDataOf(kind, system)
    {
      data := SystemEntries(system);
      data := CharacterRollData(data);
      data := NpcRollData(data);
    }

    /** `_getCharacterRollData`: for a character, the ability and level shortcuts. */
    method CharacterRollData(data: RollData) returns (out: RollData)
      requires "attributes" in data
      ensures out == if kind == "character" then LevelShortcut(AbilityShortcuts(data)) else data
    {
      out := data;
      if kind != "character" {
        return;
      }
      if "abilities" in out && out["abilities"].AbilitiesValue? {
        var abilities := out["abilities"].abilities;
        var todo := abilities.Keys;
        while todo != {}
          invariant todo <= abilities.Keys
          invariant out == data + map k | k in abilities.Keys - todo :: AbilityValue(abilities[k])
          decreases todo
        {
          var k :| k in todo;
          out := out[k := AbilityValue(abilities[k])];
          todo := todo - {k};
        }
        assert abilities.Keys - todo == abilities.Keys;
      }
      var attributes := out["attributes"];
      if attributes.AttributesValue? && attributes.attributes.level.Some? {
        out := out["lvl" := Number(attributes.attributes.level.value.value.GetOr(0))];
      }
    }

    /** `_getNpcRollData`: for an NPC, the challenge-rating shortcut. */
    method NpcRollData(data: RollData) returns (out: RollData)
      requires "attributes" in data
      ensures out == if kind == "npc" then NdcShortcut(data) else data
    {
      out := data;
      if kind != "npc" {
        return;
      }
      var attributes := out["attributes"];
      if attributes.AttributesValue? && attributes.attributes.cr.Some? {
        out := out["ndc" := Number(attributes.attributes.cr.value.value.GetOr(0))];
      }
    }
  }
}
