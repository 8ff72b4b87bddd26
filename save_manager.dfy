/**
 * The save coordinator (SaveManager.cs).
 *
 * Saving captures every live entity's adapters into a save file and writes its JSON to a
 * slot; loading reads a slot, parses it, swaps to the recorded scene when needed, and hands
 * each saved component record back to the adapter of the same type on the entity of the
 * same id, counting what was restored and what was missing.
 *
 * The live scene is a value: a sequence of entities, each with its ordered adapters.  An
 * adapter is described by what it does when called: its type name, what `CaptureState`
 * gave (a state, null, or an exception), and whether `RestoreState` throws.  Restores are
 * reported as a trace of the calls made, in order, instead of changing adapter objects.
 * JsonUtility is a pair of function values per format; reflection's `GetNestedType("State")`
 * is a table from adapter type name to its nested state type name.  The coordinator is
 * generic in `S`, the type of captured state objects.
 */
module SaveManager {
  import opened Wrappers
  import opened Collections
  import SaveSystem

  // ===== Slots =====

  /** `Mathf.Clamp(slot, 1, 3)`: every public slot operation acts on slot 1, 2 or 3. */
  function ClampSlot(slot: int): (r: int)
    ensures 1 <= r <= 3
    ensures 1 <= slot <= 3 ==> r == slot
    ensures slot < 1 ==> r == 1
    ensures slot > 3 ==> r == 3
  {
    if slot < 1 then 1 else if slot > 3 then 3 else slot
  }

  function Distance(a: int, b: int): nat
  {
    if a < b then b - a else a - b
  }

  /** Out-of-range requests land on the nearest slot, and clamping twice changes nothing. */
  lemma ClampSlotNearest(slot: int)
    ensures ClampSlot(ClampSlot(slot)) == ClampSlot(slot)
    ensures ClampSlot(4) == 3 && ClampSlot(0) == 1
    ensures forall s :: 1 <= s <= 3 ==> Distance(ClampSlot(slot), slot) <= Distance(s, slot)
  {
  }

  // ===== File schema =====

  const Version := "1.1"

  datatype ComponentRecord = ComponentRecord(typeName: string, json: string)

  datatype EntityRecord = EntityRecord(id: string, name: string, components: seq<ComponentRecord>)

  datatype SaveFile = SaveFile(version: string, sceneName: string, savedUnixTime: int, entries: seq<EntityRecord>)

  // ===== The live scene =====

  /** What one `CaptureState` call did. */
  datatype CaptureOutcome<S> = Captured(state: S) | ReturnedNull | CaptureThrew

  /** One `ISaveable` adapter on an entity. */
  datatype Saveable<S> = Saveable(typeName: string, capture: CaptureOutcome<S>, restoreThrows: bool)

  /** A `SaveableEntity` with its id, its object name and its adapters in component order. */
  datatype LiveEntity<S> = LiveEntity(id: string, name: string, saveables: seq<Saveable<S>>)

  /** Reflection: adapter type name to the name of its nested `State` type, when it has one. */
  type StateTypes = map<string, string>

  /** JsonUtility for one adapter state: `ToJson`, and `FromJson(json, stateType)`, which may throw. */
  datatype StateCodec<!S> = StateCodec(toJson: S -> string, fromJson: (string, string) -> Outcome<S>)

  /** What `JsonUtility.FromJson<SaveFile>` did. */
  datatype ParseResult = Parsed(file: SaveFile) | ParsedNull | ParseThrew

  /** JsonUtility for the save file. */
  datatype FileCodec = FileCodec(toJson: SaveFile -> string, fromJson: string -> ParseResult)

  /** The assumed JsonUtility oracle: writing a file gives non-empty text that parses back to it. */
  ghost predicate FileRoundTrips(c: FileCodec)
  {
    forall f :: c.toJson(f) != "" && c.fromJson(c.toJson(f)) == Parsed(f)
  }

  // ===== Capture =====

  predicate IsCaptured<S>(a: Saveable<S>)
  {
    a.capture.Captured?
  }

  predicate HasCapture<S>(e: LiveEntity<S>)
  {
    exists j :: 0 <= j < |e.saveables| && IsCaptured(e.saveables[j])
  }

  function RecordOf<S>(a: Saveable<S>, toJson: S -> string): ComponentRecord
    requires IsCaptured(a)
  {
    ComponentRecord(a.typeName, toJson(a.capture.state))
  }

  /** The component records one entity contributes, adapter by adapter. */
  function ComponentRecords<S>(ss: seq<Saveable<S>>, toJson: S -> string): seq<ComponentRecord>
  {
    if ss == [] then []
    else
      var a := ss[|ss| - 1];
      ComponentRecords(ss[..|ss| - 1], toJson) + (if IsCaptured(a) then [RecordOf(a, toJson)] else [])
  }

  /** The entity records of a scene, entity by entity; an entity without records is dropped. */
  function EntityRecords<S>(ents: seq<LiveEntity<S>>, toJson: S -> string): seq<EntityRecord>
  {
    if ents == [] then []
    else
      var e := ents[|ents| - 1];
      var cs := ComponentRecords(e.saveables, toJson);
      EntityRecords(ents[..|ents| - 1], toJson) + (if cs != [] then [EntityRecord(e.id, e.name, cs)] else [])
  }

  /**
   * `Capture()`: version "1.1", the active scene, the save time, and the entity records.
   * `DateTimeOffset.UtcNow.ToUnixTimeSeconds()` is the parameter `now`.
   */
  method Capture<S>(sceneName: string, now: int, ents: seq<LiveEntity<S>>, toJson: S -> string)
    returns (file: SaveFile)
    ensures file.version == Version && file.sceneName == sceneName && file.savedUnixTime == now
    ensures file.entries == EntityRecords(ents, toJson)
  {
    var list: seq<EntityRecord> := [];
    var i := 0;
    while i < |ents|
      invariant i <= |ents|
      invariant list == EntityRecords(ents[..i], toJson)
    {
      assert ents[..i + 1][..i] == ents[..i];
      var ent := ents[i];
      var comps := ent.saveables;
      if |comps| != 0 {
        var records: seq<ComponentRecord> := [];
        var j := 0;
        while j < |comps|
          invariant j <= |comps|
          invariant records == ComponentRecords(comps[..j], toJson)
        {
          assert comps[..j + 1][..j] == comps[..j];
          match comps[j].capture {
            case Captured(x) =>
              records := records + [ComponentRecord(comps[j].typeName, toJson(x))];
            case ReturnedNull =>
            case CaptureThrew =>
          }
          j := j + 1;
        }
        assert comps[..j] == comps;
        if |records| > 0 {
          list := list + [EntityRecord(ent.id, ent.name, records)];
        }
      } else {
        assert comps == [];
      }
      i := i + 1;
    }
    assert ents[..i] == ents;
    file := SaveFile(Version, sceneName, now, list);
  }

  /**
   * An entity's records are exactly those of its adapters whose capture returned a state,
   * in adapter order, each tagged with that adapter's type name: a null or throwing
   * adapter contributes nothing and does not stop its siblings.
   */
  lemma {:induction false} ComponentRecordsAreKept<S>(ss: seq<Saveable<S>>, toJson: S -> string)
    ensures |ComponentRecords(ss, toJson)| == |Kept(ss, IsCaptured)|
    ensures forall k :: 0 <= k < |Kept(ss, IsCaptured)| ==>
      ComponentRecords(ss, toJson)[k] == RecordOf(ss[Kept(ss, IsCaptured)[k]], toJson)
    decreases |ss|
  {
    if ss != [] {
      var pre := ss[..|ss| - 1];
      ComponentRecordsAreKept(pre, toJson);
      var kp := Kept(pre, IsCaptured);
      forall k | 0 <= k < |kp|
        ensures ss[kp[k]] == pre[kp[k]]
      {
      }
    }
  }

  /** An entity yields records exactly when one of its adapters captured a state. */
  lemma {:induction false} ComponentRecordsEmpty<S>(ss: seq<Saveable<S>>, toJson: S -> string)
    ensures ComponentRecords(ss, toJson) != [] <==> exists j :: 0 <= j < |ss| && IsCaptured(ss[j])
    decreases |ss|
  {
    if ss != [] {
      var pre := ss[..|ss| - 1];
      ComponentRecordsEmpty(pre, toJson);
      if exists j :: 0 <= j < |pre| && IsCaptured(pre[j]) {
        var j :| 0 <= j < |pre| && IsCaptured(pre[j]);
        assert ss[j] == pre[j];
      }
      if exists j :: 0 <= j < |ss| && IsCaptured(ss[j]) {
        var j :| 0 <= j < |ss| && IsCaptured(ss[j]);
        if j < |pre| {
          assert pre[j] == ss[j];
        }
      }
    }
  }

  /**
   * The file's entries are exactly the entities with at least one captured adapter, in
   * scene order, each with its id, its name and its component records.
   */
  lemma {:induction false} EntityRecordsAreKept<S>(ents: seq<LiveEntity<S>>, toJson: S -> string)
    ensures |EntityRecords(ents, toJson)| == |Kept(ents, HasCapture)|
    ensures forall k :: 0 <= k < |Kept(ents, HasCapture)| ==>
      var e := ents[Kept(ents, HasCapture)[k]];
      EntityRecords(ents, toJson)[k] == EntityRecord(e.id, e.name, ComponentRecords(e.saveables, toJson))
    decreases |ents|
  {
    if ents != [] {
      var n := |ents| - 1;
      var pre := ents[..n];
      var last := ents[n];
      var cs := ComponentRecords(last.saveables, toJson);
      EntityRecordsAreKept(pre, toJson);
      ComponentRecordsEmpty(last.saveables, toJson);
      var kp := Kept(pre, HasCapture);
      forall k | 0 <= k < |kp|
        ensures ents[kp[k]] == pre[kp[k]]
      {
      }
      if cs != [] {
        assert Kept(ents, HasCapture) == kp + [n];
        assert EntityRecords(ents, toJson) == EntityRecords(pre, toJson) + [EntityRecord(last.id, last.name, cs)];
      } else {
        assert Kept(ents, HasCapture) == kp;
        assert EntityRecords(ents, toJson) == EntityRecords(pre, toJson);
      }
    }
  }

  /** Every saved entity has at least one component record. */
  lemma {:induction false} EntriesNonEmpty<S>(ents: seq<LiveEntity<S>>, toJson: S -> string)
    ensures forall r :: r in EntityRecords(ents, toJson) ==> r.components != []
    decreases |ents|
  {
    if ents != [] {
      EntriesNonEmpty(ents[..|ents| - 1], toJson);
    }
  }

  // ===== Restore =====

  function TypeName<S>(a: Saveable<S>): string
  {
    a.typeName
  }

  function EntityId<S>(e: LiveEntity<S>): string
  {
    e.id
  }

  /** What happened to one component record of a found entity. */
  datatype ComponentOutcome<S> =
    | ComponentMissing                        // no adapter of the recorded type
    | NoStateType                             // the adapter has no nested State type
    | DecodeThrew                             // FromJson threw
    | RestoreThrew(adapter: nat, state: S)    // RestoreState was called and threw
    | Restored(adapter: nat, state: S)        // RestoreState was called and returned

  /** What happened to one saved entry. */
  datatype EntryOutcome<S> = EntityMissing | EntityFound(entity: nat, components: seq<ComponentOutcome<S>>)

  /** The four counters of the restore summary. */
  datatype Summary = Summary(restoredEntities: nat, restoredComponents: nat, missingEntities: nat, missingComponents: nat)

  /** The externally visible steps of a load, in order. */
  datatype Step<S> = ResetToGameplay | LoadScene(name: string) | RestoreState(entity: nat, adapter: nat, state: S)

  /** One component record against the adapters of the entity it was found on. */
  function ComponentOutcomeOf<S>(c: ComponentRecord, ss: seq<Saveable<S>>, stateTypes: StateTypes, codec: StateCodec<S>)
    : ComponentOutcome<S>
  {
    var byType := LastIndexBy(ss, TypeName);
    if c.typeName !in byType then ComponentMissing
    else
      var j := byType[c.typeName];
      if ss[j].typeName !in stateTypes then NoStateType
      else match codec.fromJson(c.json, stateTypes[ss[j].typeName])
        case Threw => DecodeThrew
        case Returned(x) => if ss[j].restoreThrows then RestoreThrew(j, x) else Restored(j, x)
  }

  function ComponentOutcomes<S>(cs: seq<ComponentRecord>, ss: seq<Saveable<S>>, stateTypes: StateTypes, codec: StateCodec<S>)
    : (r: seq<ComponentOutcome<S>>)
    ensures |r| == |cs|
  {
    if cs == [] then []
    else ComponentOutcomes(cs[..|cs| - 1], ss, stateTypes, codec) + [ComponentOutcomeOf(cs[|cs| - 1], ss, stateTypes, codec)]
  }

  /** One saved entry against the live scene. */
  function EntryOutcomeOf<S>(entry: EntityRecord, live: seq<LiveEntity<S>>, stateTypes: StateTypes, codec: StateCodec<S>)
    : EntryOutcome<S>
  {
    var lookup := LastIndexBy(live, EntityId);
    if entry.id !in lookup then EntityMissing
    else EntityFound(lookup[entry.id], ComponentOutcomes(entry.components, live[lookup[entry.id]].saveables, stateTypes, codec))
  }

  /** Every saved entry against the live scene, in file order. */
  function RestorePlan<S>(entries: seq<EntityRecord>, live: seq<LiveEntity<S>>, stateTypes: StateTypes, codec: StateCodec<S>)
    : (r: seq<EntryOutcome<S>>)
    ensures |r| == |entries|
  {
    if entries == [] then []
    else RestorePlan(entries[..|entries| - 1], live, stateTypes, codec) + [EntryOutcomeOf(entries[|entries| - 1], live, stateTypes, codec)]
  }

  predicate IsRestored<S>(o: ComponentOutcome<S>)
  {
    o.Restored?
  }

  predicate IsMissing<S>(o: ComponentOutcome<S>)
  {
    o.ComponentMissing?
  }

  function Plus(a: Summary, b: Summary): Summary
  {
    Summary(a.restoredEntities + b.restoredEntities, a.restoredComponents + b.restoredComponents,
            a.missingEntities + b.missingEntities, a.missingComponents + b.missingComponents)
  }

  /**
   * What one entry adds to the counters: a missing entity counts once; a found one adds its
   * restored and missing components, and counts as restored when at least one component was.
   * A missing State type, a FromJson exception or a RestoreState exception counts nowhere.
   */
  function EntrySummary<S>(o: EntryOutcome<S>): Summary
  {
    match o
    case EntityMissing => Summary(0, 0, 1, 0)
    case EntityFound(_, cs) =>
      var n := Count(cs, IsRestored);
      Summary(if n > 0 then 1 else 0, n, 0, Count(cs, IsMissing))
  }

  function Tally<S>(outs: seq<EntryOutcome<S>>): Summary
  {
    if outs == [] then Summary(0, 0, 0, 0)
    else Plus(Tally(outs[..|outs| - 1]), EntrySummary(outs[|outs| - 1]))
  }

  /** The `RestoreState` calls made for one entity's components, in record order. */
  function ComponentSteps<S>(i: nat, cs: seq<ComponentOutcome<S>>): seq<Step<S>>
  {
    if cs == [] then []
    else
      var o := cs[|cs| - 1];
      ComponentSteps(i, cs[..|cs| - 1]) +
        (if o.RestoreThrew? || o.Restored? then [RestoreState(i, o.adapter, o.state)] else [])
  }

  /** The `RestoreState` calls made for one entry: none when its entity is missing. */
  function EntrySteps<S>(o: EntryOutcome<S>): seq<Step<S>>
  {
    if o.EntityFound? then ComponentSteps(o.entity, o.components) else []
  }

  function Steps<S>(outs: seq<EntryOutcome<S>>): seq<Step<S>>
  {
    if outs == [] then []
    else Steps(outs[..|outs| - 1]) + EntrySteps(outs[|outs| - 1])
  }

  lemma ComponentOutcomesSnoc<S>(cs: seq<ComponentRecord>, c: ComponentRecord, ss: seq<Saveable<S>>, stateTypes: StateTypes, codec: StateCodec<S>)
    ensures ComponentOutcomes(cs + [c], ss, stateTypes, codec) ==
            ComponentOutcomes(cs, ss, stateTypes, codec) + [ComponentOutcomeOf(c, ss, stateTypes, codec)]
  {
    assert (cs + [c])[..|cs|] == cs;
  }

  lemma ComponentStepsSnoc<S>(i: nat, cs: seq<ComponentOutcome<S>>, o: ComponentOutcome<S>)
    ensures ComponentSteps(i, cs + [o]) ==
            ComponentSteps(i, cs) + (if o.RestoreThrew? || o.Restored? then [RestoreState(i, o.adapter, o.state)] else [])
  {
    assert (cs + [o])[..|cs|] == cs;
  }

  lemma RestorePlanSnoc<S>(entries: seq<EntityRecord>, e: EntityRecord, live: seq<LiveEntity<S>>, stateTypes: StateTypes, codec: StateCodec<S>)
    ensures RestorePlan(entries + [e], live, stateTypes, codec) ==
            RestorePlan(entries, live, stateTypes, codec) + [EntryOutcomeOf(e, live, stateTypes, codec)]
  {
    assert (entries + [e])[..|entries|] == entries;
  }

  lemma TallySnoc<S>(outs: seq<EntryOutcome<S>>, o: EntryOutcome<S>)
    ensures Tally(outs + [o]) == Plus(Tally(outs), EntrySummary(o))
  {
    assert (outs + [o])[..|outs|] == outs;
  }

  lemma StepsSnoc<S>(outs: seq<EntryOutcome<S>>, o: EntryOutcome<S>)
    ensures Steps(outs + [o]) == Steps(outs) + EntrySteps(o)
  {
    assert (outs + [o])[..|outs|] == outs;
  }

  /** The inner loop of the restore pass: one found entity's component records. */
  method RestoreEntity<S>(entry: EntityRecord, ent: LiveEntity<S>, i: nat, stateTypes: StateTypes, codec: StateCodec<S>)
    returns (restored: nat, missing: nat, steps: seq<Step<S>>)
    ensures restored == Count(ComponentOutcomes(entry.components, ent.saveables, stateTypes, codec), IsRestored)
    ensures missing == Count(ComponentOutcomes(entry.components, ent.saveables, stateTypes, codec), IsMissing)
    ensures steps == ComponentSteps(i, ComponentOutcomes(entry.components, ent.saveables, stateTypes, codec))
  {
    var byType := BuildLastIndex(ent.saveables, TypeName);
    var comps := entry.components;
    restored, missing, steps := 0, 0, [];
    ghost var outs: seq<ComponentOutcome<S>> := [];
    var m := 0;
    while m < |comps|
      invariant m <= |comps|
      invariant outs == ComponentOutcomes(comps[..m], ent.saveables, stateTypes, codec)
      invariant restored == Count(outs, IsRestored) && missing == Count(outs, IsMissing)
      invariant steps == ComponentSteps(i, outs)
    {
      ghost var o := ComponentOutcomeOf(comps[m], ent.saveables, stateTypes, codec);
      ComponentOutcomesStep(comps, m, ent.saveables, stateTypes, codec);
      CountSnoc(outs, o, IsRestored);
      CountSnoc(outs, o, IsMissing);
      ComponentStepsSnoc(i, outs, o);
      var r, mi, st := RestoreComponent(comps[m], ent.saveables, byType, i, stateTypes, codec);
      restored, missing, steps := restored + r, missing + mi, steps + st;
      outs := outs + [o];
      m := m + 1;
    }
    assert comps[..m] == comps;
  }

  /** The outcomes of the first `m + 1` records extend those of the first `m` by record `m`'s. */
  lemma ComponentOutcomesStep<S>(cs: seq<ComponentRecord>, m: nat, ss: seq<Saveable<S>>, stateTypes: StateTypes, codec: StateCodec<S>)
    requires m < |cs|
    ensures ComponentOutcomes(cs[..m + 1], ss, stateTypes, codec) ==
            ComponentOutcomes(cs[..m], ss, stateTypes, codec) + [ComponentOutcomeOf(cs[m], ss, stateTypes, codec)]
  {
    assert cs[..m + 1][..m] == cs[..m];
  }

  /**
   * One component record of a found entity: a type the entity lacks counts as missing; an
   * adapter without a nested State type, or a record FromJson rejects, counts nowhere; an
   * adapter that is handed the decoded state counts as restored unless `RestoreState` throws.
   */
  method RestoreComponent<S>(comp: ComponentRecord, ss: seq<Saveable<S>>, byType: map<string, nat>, i: nat,
                             stateTypes: StateTypes, codec: StateCodec<S>)
    returns (restored: nat, missing: nat, steps: seq<Step<S>>)
    requires byType == LastIndexBy(ss, TypeName)
    ensures var o := ComponentOutcomeOf(comp, ss, stateTypes, codec);
      restored == (if IsRestored(o) then 1 else 0) && missing == (if IsMissing(o) then 1 else 0) &&
      steps == (if o.RestoreThrew? || o.Restored? then [RestoreState(i, o.adapter, o.state)] else [])
  {
    restored, missing, steps := 0, 0, [];
    if comp.typeName !in byType {
      missing := 1;
    } else {
      var j := byType[comp.typeName];
      var target := ss[j];
      if target.typeName in stateTypes {
        match codec.fromJson(comp.json, stateTypes[target.typeName]) {
          case Threw =>
          case Returned(x) =>
            steps := [RestoreState(i, j, x)];
            if !target.restoreThrows {
              restored := 1;
            }
        }
      }
    }
  }

  /**
   * One pass of the restore loop: an entry whose id the lookup lacks counts as a missing
   * entity; otherwise its records are restored onto the entity found, which counts as
   * restored when at least one of them was.
   */
  method RestoreEntry<S>(entry: EntityRecord, live: seq<LiveEntity<S>>, lookup: map<string, nat>, stateTypes: StateTypes, codec: StateCodec<S>)
    returns (here: Summary, steps: seq<Step<S>>)
    requires lookup == LastIndexBy(live, EntityId)
    ensures here == EntrySummary(EntryOutcomeOf(entry, live, stateTypes, codec))
    ensures steps == EntrySteps(EntryOutcomeOf(entry, live, stateTypes, codec))
  {
    if entry.id !in lookup {
      here, steps := Summary(0, 0, 1, 0), [];
    } else {
      var i := lookup[entry.id];
      var restored, missing;
      restored, missing, steps := RestoreEntity(entry, live[i], i, stateTypes, codec);
      here := Summary(if restored > 0 then 1 else 0, restored, 0, missing);
    }
  }

  /**
   * The restore part of `LoadSceneAndRestore`, once the target scene is live: the id
   * lookup, then every saved entry against it, with the four counters and the calls made.
   */
  method RestoreEntries<S>(entries: seq<EntityRecord>, live: seq<LiveEntity<S>>, stateTypes: StateTypes, codec: StateCodec<S>)
    returns (summary: Summary, steps: seq<Step<S>>)
    ensures summary == Tally(RestorePlan(entries, live, stateTypes, codec))
    ensures steps == Steps(RestorePlan(entries, live, stateTypes, codec))
  {
    var lookup := BuildLastIndex(live, EntityId);
    summary, steps := Summary(0, 0, 0, 0), [];
    ghost var outs: seq<EntryOutcome<S>> := [];
    var k := 0;
    while k < |entries|
      invariant k <= |entries|
      invariant outs == RestorePlan(entries[..k], live, stateTypes, codec)
      invariant summary == Tally(outs) && steps == Steps(outs)
    {
      ghost var o := PlanStep(entries, k, live, stateTypes, codec);
      TallySnoc(outs, o);
      StepsSnoc(outs, o);
      var here, stepsHere := RestoreEntry(entries[k], live, lookup, stateTypes, codec);
      summary, steps := Plus(summary, here), steps + stepsHere;
      outs := outs + [o];
      k := k + 1;
    }
    assert entries[..k] == entries;
  }

  /** The outcome of entry `k`, and how the plan grows by it. */
  lemma PlanStep<S>(entries: seq<EntityRecord>, k: nat, live: seq<LiveEntity<S>>, stateTypes: StateTypes, codec: StateCodec<S>)
    returns (o: EntryOutcome<S>)
    requires k < |entries|
    ensures o == EntryOutcomeOf(entries[k], live, stateTypes, codec)
    ensures RestorePlan(entries[..k + 1], live, stateTypes, codec) == RestorePlan(entries[..k], live, stateTypes, codec) + [o]
  {
    o := EntryOutcomeOf(entries[k], live, stateTypes, codec);
    assert entries[..k + 1] == entries[..k] + [entries[k]];
    RestorePlanSnoc(entries[..k], entries[k], live, stateTypes, codec);
  }

  /** The ids present in the live scene. */
  function LiveIds<S>(live: seq<LiveEntity<S>>): set<string>
  {
    set i | 0 <= i < |live| :: live[i].id
  }

  /**
   * An entry's entity is missing exactly when no live entity has its id; otherwise it is
   * the LAST live entity with that id, so an earlier duplicate is never restored.
   */
  lemma EntryLookupLastWins<S>(entry: EntityRecord, live: seq<LiveEntity<S>>, stateTypes: StateTypes, codec: StateCodec<S>)
    ensures EntryOutcomeOf(entry, live, stateTypes, codec).EntityMissing? <==> entry.id !in LiveIds(live)
    ensures EntryOutcomeOf(entry, live, stateTypes, codec).EntityFound? ==>
      var i := EntryOutcomeOf(entry, live, stateTypes, codec).entity;
      i < |live| && live[i].id == entry.id && forall j :: i < j < |live| ==> live[j].id != entry.id
  {
    LastIndexByCharacterised(live, EntityId);
    var lookup := LastIndexBy(live, EntityId);
    if entry.id in LiveIds(live) {
      var i :| 0 <= i < |live| && live[i].id == entry.id;
      assert EntityId(live[i]) in lookup;
    }
    if entry.id in lookup {
      var i := lookup[entry.id];
      forall j | i < j < |live|
        ensures live[j].id != entry.id
      {
        assert EntityId(live[j]) in lookup && j <= lookup[EntityId(live[j])];
      }
    }
  }

  /**
   * A record's component is missing exactly when the entity has no adapter of the recorded
   * type; otherwise the adapter used is the LAST one of that type, and a state type, a
   * successful decode and a restore that returns are all needed for it to count as restored.
   */
  lemma ComponentLookupLastWins<S>(c: ComponentRecord, ss: seq<Saveable<S>>, stateTypes: StateTypes, codec: StateCodec<S>)
    ensures ComponentOutcomeOf(c, ss, stateTypes, codec).ComponentMissing? <==>
      forall j :: 0 <= j < |ss| ==> ss[j].typeName != c.typeName
    ensures ComponentOutcomeOf(c, ss, stateTypes, codec).Restored? ==>
      var j := ComponentOutcomeOf(c, ss, stateTypes, codec).adapter;
      j < |ss| && ss[j].typeName == c.typeName && (forall l :: j < l < |ss| ==> ss[l].typeName != c.typeName) &&
      c.typeName in stateTypes && !ss[j].restoreThrows &&
      codec.fromJson(c.json, stateTypes[c.typeName]) == Returned(ComponentOutcomeOf(c, ss, stateTypes, codec).state)
  {
    LastIndexByCharacterised(ss, TypeName);
    var byType := LastIndexBy(ss, TypeName);
    if exists j :: 0 <= j < |ss| && ss[j].typeName == c.typeName {
      var j :| 0 <= j < |ss| && ss[j].typeName == c.typeName;
      assert TypeName(ss[j]) in byType;
    }
    if c.typeName in byType {
      var j := byType[c.typeName];
      forall l | j < l < |ss|
        ensures ss[l].typeName != c.typeName
      {
        assert TypeName(ss[l]) in byType && l <= byType[TypeName(ss[l])];
      }
    }
  }

  /** How many entries have an id no live entity carries. */
  function AbsentEntries<S>(entries: seq<EntityRecord>, live: seq<LiveEntity<S>>): nat
  {
    if entries == [] then 0
    else AbsentEntries(entries[..|entries| - 1], live) + (if entries[|entries| - 1].id !in LiveIds(live) then 1 else 0)
  }

  /** The total number of component records in a list of entries. */
  function ComponentTotal(entries: seq<EntityRecord>): nat
  {
    if entries == [] then 0
    else ComponentTotal(entries[..|entries| - 1]) + |entries[|entries| - 1].components|
  }

  /**
   * The counters: `missingEntities` is the number of entries whose id is absent from the
   * scene; each entry is either missing or possibly restored; and no record is counted
   * both restored and missing.
   */
  lemma {:induction false} TallyCounts<S>(entries: seq<EntityRecord>, live: seq<LiveEntity<S>>, stateTypes: StateTypes, codec: StateCodec<S>)
    ensures Tally(RestorePlan(entries, live, stateTypes, codec)).missingEntities == AbsentEntries(entries, live)
    ensures Tally(RestorePlan(entries, live, stateTypes, codec)).missingEntities +
            Tally(RestorePlan(entries, live, stateTypes, codec)).restoredEntities <= |entries|
    ensures Tally(RestorePlan(entries, live, stateTypes, codec)).restoredComponents +
            Tally(RestorePlan(entries, live, stateTypes, codec)).missingComponents <= ComponentTotal(entries)
    decreases |entries|
  {
    if entries != [] {
      var pre := entries[..|entries| - 1];
      var last := entries[|entries| - 1];
      TallyCounts(pre, live, stateTypes, codec);
      var plan := RestorePlan(entries, live, stateTypes, codec);
      assert plan[..|plan| - 1] == RestorePlan(pre, live, stateTypes, codec);
      EntryLookupLastWins(last, live, stateTypes, codec);
      var o := EntryOutcomeOf(last, live, stateTypes, codec);
      if o.EntityFound? {
        OutcomeCountsDisjoint(o.components);
      }
    }
  }

  /** A component outcome is never both restored and missing. */
  lemma {:induction false} OutcomeCountsDisjoint<S>(cs: seq<ComponentOutcome<S>>)
    ensures Count(cs, IsRestored) + Count(cs, IsMissing) <= |cs|
    decreases |cs|
  {
    if cs != [] {
      OutcomeCountsDisjoint(cs[..|cs| - 1]);
    }
  }

  /** Entities must be told apart by id for a round trip. */
  predicate DistinctIds<S>(live: seq<LiveEntity<S>>)
  {
    forall a, b :: 0 <= a < b < |live| ==> live[a].id != live[b].id
  }

  /** An entity's adapters must be told apart by type for a round trip. */
  predicate DistinctTypes<S>(ss: seq<Saveable<S>>)
  {
    forall a, b :: 0 <= a < b < |ss| ==> ss[a].typeName != ss[b].typeName
  }

  /**
   * Every captured adapter has a nested State type, its state survives JsonUtility, and
   * its `RestoreState` returns normally.
   */
  ghost predicate Restorable<S>(ss: seq<Saveable<S>>, stateTypes: StateTypes, codec: StateCodec<S>)
  {
    forall j :: 0 <= j < |ss| && IsCaptured(ss[j]) ==>
      ss[j].typeName in stateTypes && !ss[j].restoreThrows &&
      codec.fromJson(codec.toJson(ss[j].capture.state), stateTypes[ss[j].typeName]) == Returned(ss[j].capture.state)
  }

  /** A restore call that hands an adapter back exactly the state it captured. */
  ghost predicate RestoresOwnState<S>(live: seq<LiveEntity<S>>, s: Step<S>)
  {
    s.RestoreState? && s.entity < |live| && s.adapter < |live[s.entity].saveables| &&
    live[s.entity].saveables[s.adapter].capture == Captured(s.state)
  }

  /** Every step of a trace is a restore call giving an adapter back its own captured state. */
  ghost predicate AllRestoreOwnState<S>(live: seq<LiveEntity<S>>, steps: seq<Step<S>>)
  {
    forall s :: s in steps ==> RestoresOwnState(live, s)
  }

  lemma AllRestoreOwnStateAppend<S>(live: seq<LiveEntity<S>>, a: seq<Step<S>>, b: seq<Step<S>>)
    requires AllRestoreOwnState(live, a) && AllRestoreOwnState(live, b)
    ensures AllRestoreOwnState(live, a + b)
  {
  }

  lemma ComponentRecordsPrefix<S>(ss: seq<Saveable<S>>, n: nat, toJson: S -> string)
    requires 0 < n <= |ss|
    ensures ComponentRecords(ss[..n], toJson) ==
      ComponentRecords(ss[..n - 1], toJson) + (if IsCaptured(ss[n - 1]) then [RecordOf(ss[n - 1], toJson)] else [])
  {
    assert ss[..n][..n - 1] == ss[..n - 1];
  }

  /** A captured adapter's own record, restored onto its entity, reaches that same adapter. */
  lemma CapturedRecordRestored<S>(ss: seq<Saveable<S>>, j: nat, stateTypes: StateTypes, codec: StateCodec<S>)
    requires j < |ss| && IsCaptured(ss[j])
    requires DistinctTypes(ss) && Restorable(ss, stateTypes, codec)
    ensures ComponentOutcomeOf(RecordOf(ss[j], codec.toJson), ss, stateTypes, codec) == Restored(j, ss[j].capture.state)
  {
    LastIndexOfDistinct(ss, TypeName, j);
  }

  /** The round trip for the records of the first `n` adapters of entity `i`. */
  ghost predicate ComponentsPrefixRoundTrips<S>(live: seq<LiveEntity<S>>, i: nat, n: nat, stateTypes: StateTypes, codec: StateCodec<S>)
    requires i < |live| && n <= |live[i].saveables|
  {
    var outs := ComponentOutcomes(ComponentRecords(live[i].saveables[..n], codec.toJson), live[i].saveables, stateTypes, codec);
    Count(outs, IsRestored) == |outs| && Count(outs, IsMissing) == 0 &&
    AllRestoreOwnState(live, ComponentSteps(i, outs))
  }

  /** The component round trip extends from the first `n - 1` adapters to the first `n`. */
  lemma ComponentsRoundTripStep<S>(live: seq<LiveEntity<S>>, i: nat, n: nat, stateTypes: StateTypes, codec: StateCodec<S>)
    requires i < |live| && 0 < n <= |live[i].saveables|
    requires DistinctTypes(live[i].saveables) && Restorable(live[i].saveables, stateTypes, codec)
    requires ComponentsPrefixRoundTrips(live, i, n - 1, stateTypes, codec)
    ensures ComponentsPrefixRoundTrips(live, i, n, stateTypes, codec)
  {
    var ss := live[i].saveables;
    ComponentRecordsPrefix(ss, n, codec.toJson);
    var a := ss[n - 1];
    if IsCaptured(a) {
      var recs := ComponentRecords(ss[..n - 1], codec.toJson);
      var outs := ComponentOutcomes(recs, ss, stateTypes, codec);
      var c := RecordOf(a, codec.toJson);
      ComponentOutcomesSnoc(recs, c, ss, stateTypes, codec);
      CapturedRecordRestored(ss, n - 1, stateTypes, codec);
      assert ComponentRecords(ss[..n], codec.toJson) == recs + [c];
      var o := Restored(n - 1, a.capture.state);
      CountSnoc(outs, o, IsRestored);
      CountSnoc(outs, o, IsMissing);
      ComponentStepsSnoc(i, outs, o);
      AllRestoreOwnStateAppend(live, ComponentSteps(i, outs), [RestoreState(i, n - 1, a.capture.state)]);
    } else {
      assert ComponentRecords(ss[..n], codec.toJson) == ComponentRecords(ss[..n - 1], codec.toJson);
    }
  }

  /** One entity's records, restored onto the same entity: every record is restored. */
  lemma {:induction false} ComponentsRoundTrip<S>(live: seq<LiveEntity<S>>, i: nat, n: nat, stateTypes: StateTypes, codec: StateCodec<S>)
    requires i < |live| && n <= |live[i].saveables|
    requires DistinctTypes(live[i].saveables) && Restorable(live[i].saveables, stateTypes, codec)
    ensures var outs := ComponentOutcomes(ComponentRecords(live[i].saveables[..n], codec.toJson), live[i].saveables, stateTypes, codec);
      Count(outs, IsRestored) == |outs| && Count(outs, IsMissing) == 0 &&
      AllRestoreOwnState(live, ComponentSteps(i, outs))
    decreases n
  {
    if n > 0 {
      ComponentsRoundTrip(live, i, n - 1, stateTypes, codec);
      assert ComponentsPrefixRoundTrips(live, i, n - 1, stateTypes, codec);
      ComponentsRoundTripStep(live, i, n, stateTypes, codec);
      assert ComponentsPrefixRoundTrips(live, i, n, stateTypes, codec);
    }
  }

  lemma ComponentTotalSnoc(entries: seq<EntityRecord>, r: EntityRecord)
    ensures ComponentTotal(entries + [r]) == ComponentTotal(entries) + |r.components|
  {
    assert (entries + [r])[..|entries|] == entries;
  }

  lemma EntityRecordsPrefix<S>(ents: seq<LiveEntity<S>>, n: nat, toJson: S -> string)
    requires 0 < n <= |ents|
    ensures var e := ents[n - 1];
      var cs := ComponentRecords(e.saveables, toJson);
      EntityRecords(ents[..n], toJson) ==
        EntityRecords(ents[..n - 1], toJson) + (if cs != [] then [EntityRecord(e.id, e.name, cs)] else [])
  {
    assert ents[..n][..n - 1] == ents[..n - 1];
  }

  /**
   * An entity's own entry, restored onto the same scene, finds that entity, restores all of
   * its records and gives each adapter back its own state.
   */
  lemma EntityRoundTrip<S>(live: seq<LiveEntity<S>>, i: nat, stateTypes: StateTypes, codec: StateCodec<S>)
    requires i < |live| && DistinctIds(live)
    requires DistinctTypes(live[i].saveables) && Restorable(live[i].saveables, stateTypes, codec)
    requires ComponentRecords(live[i].saveables, codec.toJson) != []
    ensures var cs := ComponentRecords(live[i].saveables, codec.toJson);
      var o := EntryOutcomeOf(EntityRecord(live[i].id, live[i].name, cs), live, stateTypes, codec);
      EntrySummary(o) == Summary(1, |cs|, 0, 0) && AllRestoreOwnState(live, EntrySteps(o))
  {
    var ss := live[i].saveables;
    LastIndexOfDistinct(live, EntityId, i);
    assert ss[..|ss|] == ss;
    ComponentsRoundTrip(live, i, |ss|, stateTypes, codec);
  }

  /** Restoring `entries` restores every entry and record, and every call gives an adapter its own state. */
  ghost predicate PlanRoundTrips<S>(entries: seq<EntityRecord>, live: seq<LiveEntity<S>>, stateTypes: StateTypes, codec: StateCodec<S>)
  {
    var plan := RestorePlan(entries, live, stateTypes, codec);
    Tally(plan) == Summary(|entries|, ComponentTotal(entries), 0, 0) &&
    AllRestoreOwnState(live, Steps(plan))
  }

  /** The round trip for the entries captured from the first `n` live entities. */
  ghost predicate PrefixRoundTrips<S>(live: seq<LiveEntity<S>>, n: nat, stateTypes: StateTypes, codec: StateCodec<S>)
    requires n <= |live|
  {
    PlanRoundTrips(EntityRecords(live[..n], codec.toJson), live, stateTypes, codec)
  }

  /** An entry that restores fully, appended to entries that do, keeps the round trip. */
  lemma PlanRoundTripsSnoc<S>(entries: seq<EntityRecord>, r: EntityRecord, live: seq<LiveEntity<S>>, stateTypes: StateTypes, codec: StateCodec<S>)
    requires PlanRoundTrips(entries, live, stateTypes, codec)
    requires var o := EntryOutcomeOf(r, live, stateTypes, codec);
      EntrySummary(o) == Summary(1, |r.components|, 0, 0) && AllRestoreOwnState(live, EntrySteps(o))
    ensures PlanRoundTrips(entries + [r], live, stateTypes, codec)
  {
    var plan := RestorePlan(entries, live, stateTypes, codec);
    var o := EntryOutcomeOf(r, live, stateTypes, codec);
    var plan' := RestorePlan(entries + [r], live, stateTypes, codec);
    RestorePlanSnoc(entries, r, live, stateTypes, codec);
    assert plan' == plan + [o];
    TallySnoc(plan, o);
    ComponentTotalSnoc(entries, r);
    assert Tally(plan') == Summary(|entries + [r]|, ComponentTotal(entries + [r]), 0, 0);
    StepsSnoc(plan, o);
    AllRestoreOwnStateAppend(live, Steps(plan), EntrySteps(o));
    assert AllRestoreOwnState(live, Steps(plan'));
  }

  /** The round trip extends from the first `n - 1` entities to the first `n`. */
  lemma PrefixRoundTripsStep<S>(live: seq<LiveEntity<S>>, n: nat, stateTypes: StateTypes, codec: StateCodec<S>)
    requires 0 < n <= |live|
    requires DistinctIds(live)
    requires DistinctTypes(live[n - 1].saveables) && Restorable(live[n - 1].saveables, stateTypes, codec)
    requires PrefixRoundTrips(live, n - 1, stateTypes, codec)
    ensures PrefixRoundTrips(live, n, stateTypes, codec)
  {
    EntityRecordsPrefix(live, n, codec.toJson);
    var e := live[n - 1];
    var cs := ComponentRecords(e.saveables, codec.toJson);
    var entries := EntityRecords(live[..n - 1], codec.toJson);
    if cs != [] {
      var r := EntityRecord(e.id, e.name, cs);
      assert EntityRecords(live[..n], codec.toJson) == entries + [r];
      EntityRoundTrip(live, n - 1, stateTypes, codec);
      PlanRoundTripsSnoc(entries, r, live, stateTypes, codec);
    } else {
      assert EntityRecords(live[..n], codec.toJson) == entries;
    }
  }

  /**
   * Capture followed by restore onto the same scene: when entity ids and adapter types are
   * distinct and every captured state round-trips, every saved entry and every saved record
   * is restored, nothing is missing, and every restore call gives an adapter back the state
   * it captured.
   */
  lemma {:induction false} CaptureRestoreRoundTrip<S>(live: seq<LiveEntity<S>>, n: nat, stateTypes: StateTypes, codec: StateCodec<S>)
    requires n <= |live|
    requires DistinctIds(live)
    requires forall i :: 0 <= i < |live| ==>
      DistinctTypes(live[i].saveables) && Restorable(live[i].saveables, stateTypes, codec)
    ensures PrefixRoundTrips(live, n, stateTypes, codec)
    decreases n
  {
    if n > 0 {
      CaptureRestoreRoundTrip(live, n - 1, stateTypes, codec);
      PrefixRoundTripsStep(live, n, stateTypes, codec);
    }
  }

  // ===== Scenes =====

  /** The index of the last `c` in `s`, or -1. */
  function LastIndexOf(s: string, c: char): (r: int)
    ensures -1 <= r < |s|
    ensures r >= 0 ==> s[r] == c
    ensures forall j :: r < j < |s| ==> s[j] != c
  {
    if s == [] then -1
    else if s[|s| - 1] == c then |s| - 1
    else LastIndexOf(s[..|s| - 1], c)
  }

  /** `Path.GetFileName`: what follows the last directory separator. */
  function FileName(path: string): string
  {
    path[LastIndexOf(path, SaveSystem.DirectorySeparator) + 1..]
  }

  /** `Path.GetFileNameWithoutExtension`: the file name up to its last '.', if it has one. */
  function FileNameWithoutExtension(path: string): (r: string)
    ensures SaveSystem.DirectorySeparator !in r
  {
    var name := FileName(path);
    var dot := LastIndexOf(name, '.');
    if dot < 0 then name else name[..dot]
  }

  /** The upper-case form of a letter under ordinal case folding, for ASCII letters. */
  function UpperAscii(c: char): char
  {
    if 'a' <= c <= 'z' then (c as int - 32) as char else c
  }

  /** `string.Equals(a, b, StringComparison.OrdinalIgnoreCase)`, on ASCII case. */
  predicate EqualsIgnoreCase(a: string, b: string)
  {
    |a| == |b| && forall i :: 0 <= i < |a| ==> UpperAscii(a[i]) == UpperAscii(b[i])
  }

  function UpperString(s: string): (r: string)
    ensures |r| == |s| && forall i :: 0 <= i < |s| ==> r[i] == UpperAscii(s[i])
  {
    if s == [] then [] else [UpperAscii(s[0])] + UpperString(s[1..])
  }

  /** Whether some build scene's file name matches `name`, ignoring case. */
  predicate SceneInBuild(name: string, buildScenePaths: seq<string>)
  {
    exists i :: 0 <= i < |buildScenePaths| && EqualsIgnoreCase(FileNameWithoutExtension(buildScenePaths[i]), name)
  }

  /** `SceneExistsInBuildSettings`: the scan of the build list. */
  method SceneExistsInBuildSettings(name: string, buildScenePaths: seq<string>) returns (b: bool)
    ensures b <==> SceneInBuild(name, buildScenePaths)
  {
    var i := 0;
    while i < |buildScenePaths|
      invariant i <= |buildScenePaths|
      invariant forall j :: 0 <= j < i ==> !EqualsIgnoreCase(FileNameWithoutExtension(buildScenePaths[j]), name)
    {
      var sceneName := FileNameWithoutExtension(buildScenePaths[i]);
      if EqualsIgnoreCase(sceneName, name) {
        return true;
      }
      i := i + 1;
    }
    return false;
  }

  /** The build-list check ignores case: a name and its upper-case form are found alike. */
  lemma SceneInBuildIgnoresCase(name: string, buildScenePaths: seq<string>)
    ensures SceneInBuild(name, buildScenePaths) <==> SceneInBuild(UpperString(name), buildScenePaths)
  {
    forall c: char
      ensures UpperAscii(UpperAscii(c)) == UpperAscii(c)
    {
    }
    forall i | 0 <= i < |buildScenePaths|
      ensures EqualsIgnoreCase(FileNameWithoutExtension(buildScenePaths[i]), name) <==>
              EqualsIgnoreCase(FileNameWithoutExtension(buildScenePaths[i]), UpperString(name))
    {
    }
  }

  lemma LastIndexOfAt(s: string, c: char, k: nat)
    requires k < |s| && s[k] == c
    requires forall j :: k < j < |s| ==> s[j] != c
    ensures LastIndexOf(s, c) == k
  {
  }

  /** A scene file found under a directory is matched by its bare name, in any case. */
  lemma SceneFoundByFileName(dir: string, scene: string, buildScenePaths: seq<string>, i: nat)
    requires i < |buildScenePaths| && buildScenePaths[i] == dir + "/" + scene + ".unity"
    requires '/' !in scene && '.' !in scene
    ensures SceneInBuild(scene, buildScenePaths) && SceneInBuild(UpperString(scene), buildScenePaths)
  {
    var p := buildScenePaths[i];
    var name := scene + ".unity";
    assert p == dir + "/" + name;
    forall j | |dir| < j < |p|
      ensures p[j] == name[j - |dir| - 1] && p[j] != '/'
    {
    }
    LastIndexOfAt(p, '/', |dir|);
    assert FileName(p) == name;
    forall j | |scene| < j < |name|
      ensures name[j] != '.'
    {
      assert name[j] == ".unity"[j - |scene|];
    }
    LastIndexOfAt(name, '.', |scene|);
    assert FileNameWithoutExtension(p) == scene;
    assert EqualsIgnoreCase(FileNameWithoutExtension(p), scene);
    SceneInBuildIgnoresCase(scene, buildScenePaths);
  }

  // ===== Load =====

  /** How a `LoadFromSlot` call ends. */
  datatype LoadResult = NoSave | ParseFailed | ParsedToNull | SceneNotInBuild | Loaded(summary: Summary)

  /**
   * `LoadFromSlot` followed by `LoadSceneAndRestore`, given what the slot read returned:
   * gameplay state is reset first in every case; an absent or empty slot, a parse exception
   * or a null parse stops there; a recorded scene that differs from the active one is
   * loaded if the build list has it and stops the load if not; then gameplay state is reset
   * again and every entry is restored onto `live`, the entities present at that point.
   */
  function LoadPlan<S>(json: Option<string>, files: FileCodec, codec: StateCodec<S>, stateTypes: StateTypes,
                       activeScene: string, buildScenePaths: seq<string>, live: seq<LiveEntity<S>>)
    : (r: (LoadResult, seq<Step<S>>))
  {
    if json.None? || json.value == "" then (NoSave, [ResetToGameplay])
    else match files.fromJson(json.value)
      case ParseThrew => (ParseFailed, [ResetToGameplay])
      case ParsedNull => (ParsedToNull, [ResetToGameplay])
      case Parsed(f) =>
        var plan := RestorePlan(f.entries, live, stateTypes, codec);
        if f.sceneName != "" && activeScene != f.sceneName then
          if !SceneInBuild(f.sceneName, buildScenePaths) then (SceneNotInBuild, [ResetToGameplay])
          else (Loaded(Tally(plan)), [ResetToGameplay, LoadScene(f.sceneName), ResetToGameplay] + Steps(plan))
        else (Loaded(Tally(plan)), [ResetToGameplay, ResetToGameplay] + Steps(plan))
  }

  /**
   * Every load resets gameplay state first, even one that finds nothing; a load that
   * stops early makes no restore call; and one that restores resets again right before.
   */
  lemma LoadResetsFirst<S>(json: Option<string>, files: FileCodec, codec: StateCodec<S>, stateTypes: StateTypes,
                           activeScene: string, buildScenePaths: seq<string>, live: seq<LiveEntity<S>>)
    ensures var (result, trace) := LoadPlan(json, files, codec, stateTypes, activeScene, buildScenePaths, live);
      trace != [] && trace[0] == ResetToGameplay &&
      (!result.Loaded? <==> trace == [ResetToGameplay]) &&
      (json.None? || json.value == "" ==> result == NoSave) &&
      (result.Loaded? ==>
        exists k :: 1 <= k < |trace| && trace[k] == ResetToGameplay && forall l :: 0 <= l < k ==> !trace[l].RestoreState?)
  {
    var (result, trace) := LoadPlan(json, files, codec, stateTypes, activeScene, buildScenePaths, live);
    if result.Loaded? {
      var f := files.fromJson(json.value).file;
      if f.sceneName != "" && activeScene != f.sceneName {
        assert trace[2] == ResetToGameplay;
      } else {
        assert trace[1] == ResetToGameplay;
      }
    }
  }

  /** A recorded scene that is neither empty, nor active, nor in the build list restores nothing. */
  lemma UnknownSceneStopsLoad<S>(json: string, files: FileCodec, codec: StateCodec<S>, stateTypes: StateTypes,
                                 activeScene: string, buildScenePaths: seq<string>, live: seq<LiveEntity<S>>)
    requires json != "" && files.fromJson(json).Parsed?
    requires var name := files.fromJson(json).file.sceneName;
      name != "" && name != activeScene && !SceneInBuild(name, buildScenePaths)
    ensures LoadPlan(Some(json), files, codec, stateTypes, activeScene, buildScenePaths, live) == (SceneNotInBuild, [ResetToGameplay])
  {
  }

  /**
   * Saving a scene to a slot and loading the same slot while that scene is active restores
   * every saved entry and record, with nothing missing, and each call gives an adapter back
   * the state it captured; between the two resets nothing else happens.
   */
  lemma SaveThenLoadRoundTrip<S>(store: SaveSystem.Files, dataDir: string, slot: int, files: FileCodec,
                                 codec: StateCodec<S>, stateTypes: StateTypes, scene: string, now: int,
                                 buildScenePaths: seq<string>, live: seq<LiveEntity<S>>)
    requires FileRoundTrips(files)
    requires DistinctIds(live)
    requires forall i :: 0 <= i < |live| ==>
      DistinctTypes(live[i].saveables) && Restorable(live[i].saveables, stateTypes, codec)
    ensures var entries := EntityRecords(live, codec.toJson);
      var json := files.toJson(SaveFile(Version, scene, now, entries));
      var (result, trace) := LoadPlan(SaveSystem.ReadSlot(SaveSystem.WrittenSlot(store, dataDir, ClampSlot(slot), json), dataDir, ClampSlot(slot)),
                                      files, codec, stateTypes, scene, buildScenePaths, live);
      result == Loaded(Summary(|entries|, ComponentTotal(entries), 0, 0)) &&
      trace[..2] == [ResetToGameplay, ResetToGameplay] &&
      forall k :: 2 <= k < |trace| ==> RestoresOwnState(live, trace[k])
  {
    var entries := EntityRecords(live, codec.toJson);
    var json := files.toJson(SaveFile(Version, scene, now, entries));
    SaveSystem.ReadAfterWrite(store, dataDir, ClampSlot(slot), json);
    assert live[..|live|] == live;
    CaptureRestoreRoundTrip(live, |live|, stateTypes, codec);
  }

  // ===== The public API =====

  /** `SaveToSlot`: capture the scene and write its JSON to the clamped slot. */
  method SaveToSlot<S>(store: SaveSystem.SlotStore, slot: int, files: FileCodec, codec: StateCodec<S>,
                       activeScene: string, now: int, live: seq<LiveEntity<S>>)
    modifies store
    ensures store.files == SaveSystem.WrittenSlot(old(store.files), store.persistentDataPath, ClampSlot(slot),
                                                 files.toJson(SaveFile(Version, activeScene, now, EntityRecords(live, codec.toJson))))
  {
    var s := ClampSlot(slot);
    var data := Capture(activeScene, now, live, codec.toJson);
    var json := files.toJson(data);
    store.Write(s, json);
  }

  /** `LoadFromSlot`, run through to the end of the restore. */
  method LoadFromSlot<S>(store: SaveSystem.SlotStore, slot: int, files: FileCodec, codec: StateCodec<S>,
                         stateTypes: StateTypes, activeScene: string, buildScenePaths: seq<string>,
                         live: seq<LiveEntity<S>>)
    returns (result: LoadResult, trace: seq<Step<S>>)
    ensures (result, trace) == LoadPlan(SaveSystem.ReadSlot(store.files, store.persistentDataPath, ClampSlot(slot)),
                                        files, codec, stateTypes, activeScene, buildScenePaths, live)
  {
    var s := ClampSlot(slot);
    var json := store.Read(s);
    result, trace := LoadJson(json, files, codec, stateTypes, activeScene, buildScenePaths, live);
  }

  /** What `LoadFromSlot` does with the text the slot read returned. */
  method LoadJson<S>(json: Option<string>, files: FileCodec, codec: StateCodec<S>, stateTypes: StateTypes,
                     activeScene: string, buildScenePaths: seq<string>, live: seq<LiveEntity<S>>)
    returns (result: LoadResult, trace: seq<Step<S>>)
    ensures (result, trace) == LoadPlan(json, files, codec, stateTypes, activeScene, buildScenePaths, live)
  {
    trace := [ResetToGameplay];
    if json.None? || json.value == "" {
      return NoSave, trace;
    }
    var parsed := files.fromJson(json.value);
    match parsed {
      case ParseThrew =>
        return ParseFailed, trace;
      case ParsedNull =>
        return ParsedToNull, trace;
      case Parsed(data) =>
        var summary, steps;
        if data.sceneName != "" && activeScene != data.sceneName {
          var found := SceneExistsInBuildSettings(data.sceneName, buildScenePaths);
          if !found {
            return SceneNotInBuild, trace;
          }
          summary, steps := RestoreEntries(data.entries, live, stateTypes, codec);
          trace := [ResetToGameplay, LoadScene(data.sceneName), ResetToGameplay] + steps;
        } else {
          summary, steps := RestoreEntries(data.entries, live, stateTypes, codec);
          trace := [ResetToGameplay, ResetToGameplay] + steps;
        }
        result := Loaded(summary);
    }
  }

  /** `DeleteSlot`: the clamped slot's file is removed. */
  method DeleteSlot(store: SaveSystem.SlotStore, slot: int)
    modifies store
    ensures store.files == SaveSystem.DeletedSlot(old(store.files), store.persistentDataPath, ClampSlot(slot))
  {
    store.Delete(ClampSlot(slot));
  }

  /** `SlotExists`: whether the clamped slot's file exists. */
  method SlotExists(store: SaveSystem.SlotStore, slot: int) returns (b: bool)
    ensures b <==> SaveSystem.GetSlotPath(store.persistentDataPath, ClampSlot(slot)) in store.files
  {
    b := store.Exists(ClampSlot(slot));
  }

  /** The unix-second range `DateTimeOffset.FromUnixTimeSeconds` accepts (years 1 to 9999). */
  const MinUnixTime := -62135596800
  const MaxUnixTime := 253402300799

  /**
   * `GetSlotSavedTime`, given what the slot read returned: no time for an absent or empty
   * slot, the saved unix time otherwise.  Nothing catches a parse exception, a null parse
   * (whose field access throws) or a time outside the `DateTimeOffset` range, so those
   * escape to the caller.
   */
  function SavedTime(json: Option<string>, files: FileCodec): (r: Outcome<Option<int>>)
    ensures r == Returned(None) <==> json.None? || json.value == ""
    ensures r.Returned? && r.value.Some? ==>
      json.Some? && files.fromJson(json.value).Parsed? &&
      r.value.value == files.fromJson(json.value).file.savedUnixTime &&
      MinUnixTime <= r.value.value <= MaxUnixTime
    ensures r.Threw? <==>
      (json.Some? && json.value != "" &&
       (files.fromJson(json.value).Parsed? ==> !(MinUnixTime <= files.fromJson(json.value).file.savedUnixTime <= MaxUnixTime)))
  {
    if json.None? || json.value == "" then Returned(None)
    else match files.fromJson(json.value)
      case Parsed(f) =>
        if MinUnixTime <= f.savedUnixTime <= MaxUnixTime then Returned(Some(f.savedUnixTime)) else Threw
      case _ => Threw
  }

  method GetSlotSavedTime(store: SaveSystem.SlotStore, slot: int, files: FileCodec) returns (r: Outcome<Option<int>>)
    ensures r == SavedTime(SaveSystem.ReadSlot(store.files, store.persistentDataPath, ClampSlot(slot)), files)
  {
    var json := store.Read(ClampSlot(slot));
    if json.None? || json.value == "" {
      return Returned(None);
    }
    var data := files.fromJson(json.value);
    match data {
      case Parsed(f) =>
        if MinUnixTime <= f.savedUnixTime <= MaxUnixTime {
          r := Returned(Some(f.savedUnixTime));
        } else {
          r := Threw;
        }
      case ParsedNull =>
        r := Threw;
      case ParseThrew =>
        r := Threw;
    }
  }

  /**
   * The time a save records is read back: after saving at `now` (within the calendar
   * range) the slot's saved time is `now`.
   */
  lemma SavedTimeAfterSave(store: SaveSystem.Files, dataDir: string, slot: int, files: FileCodec, file: SaveFile)
    requires FileRoundTrips(files)
    requires MinUnixTime <= file.savedUnixTime <= MaxUnixTime
    ensures SavedTime(SaveSystem.ReadSlot(SaveSystem.WrittenSlot(store, dataDir, ClampSlot(slot), files.toJson(file)), dataDir, ClampSlot(slot)), files)
         == Returned(Some(file.savedUnixTime))
  {
    SaveSystem.ReadAfterWrite(store, dataDir, ClampSlot(slot), files.toJson(file));
  }
}
