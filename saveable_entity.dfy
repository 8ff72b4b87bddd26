/**
 * The entity identity component (SaveableEntity.cs): a serialized string id that links a
 * saved entry to the live object.  In the editor every enable or inspector validation calls
 * `RegisterOrRefresh`, which hands out a new id when the current one is empty or already in
 * the editor-wide set of used ids, and records the id as used.
 *
 * `Guid.NewGuid().ToString("N")` is a parameter `guid`; the model asks of it only what a
 * fresh GUID gives: it is not empty and not yet in the used set.
 */
module SaveableEntity {

  /** The editor-wide, static `usedIds` hash set. */
  class IdRegistry {
    var usedIds: set<string>

    constructor ()
      ensures usedIds == {}
    {
      usedIds := {};
    }
  }

  class SaveableEntity {
    var uniqueId: string

    constructor (uniqueId: string)
      ensures this.uniqueId == uniqueId
    {
      this.uniqueId := uniqueId;
    }

    /** The read-only `UniqueId` property. */
    function UniqueId(): (id: string)
      reads this
      ensures id == uniqueId
    {
      uniqueId
    }

    /**
     * Keeps the id when it is set and not yet used, otherwise takes the fresh GUID; either
     * way the id ends up registered, and it was not registered before the call.
     */
    method RegisterOrRefresh(reg: IdRegistry, guid: string)
      requires guid != "" && guid !in reg.usedIds
      modifies this, reg
      ensures uniqueId == NextId(old(uniqueId), old(reg.usedIds), guid)
      ensures reg.usedIds == old(reg.usedIds) + {uniqueId}
      ensures uniqueId != "" && uniqueId !in old(reg.usedIds)
    {
      if uniqueId == "" || uniqueId in reg.usedIds {
        uniqueId := guid;
      }
      reg.usedIds := reg.usedIds + {uniqueId};
    }
  }

  /** The id `RegisterOrRefresh` leaves on an entity whose id was `id`. */
  function NextId(id: string, used: set<string>, guid: string): (r: string)
    requires guid != "" && guid !in used
    ensures r != "" && r !in used
    ensures id != "" && id !in used ==> r == id
    ensures id == "" || id in used ==> r == guid
  {
    if id == "" || id in used then guid else id
  }

  /**
   * The id an owner-aware registry would leave: one that remembers which entity registered
   * each id and hands out a new id only when the current one is empty or belongs to another
   * entity.
   */
  function NextIdOwned(id: string, owners: map<string, nat>, self: nat, guid: string): (r: string)
    requires guid != "" && guid !in owners
    ensures r != ""
    ensures r in owners ==> owners[r] == self
    ensures id != "" && (id !in owners || owners[id] == self) ==> r == id
  {
    if id == "" || (id in owners && owners[id] != self) then guid else id
  }

  /** Which refresh rule a registration follows: the source's, or the owner-aware one. */
  datatype Rule = AsWritten | OwnerAware

  /**
   * The ids of a scene's entities (by index) and the registry, which maps each used id
   * to the entity that last registered it; the source's set is the map's key set.
   */
  datatype Registry = Registry(ids: seq<string>, owners: map<string, nat>)

  /** One `RegisterOrRefresh` call: the entity it runs on and the GUID it would take. */
  datatype Call = Call(entity: nat, guid: string)

  predicate CanCall(r: Registry, c: Call)
  {
    c.entity < |r.ids| && c.guid != "" && c.guid !in r.owners
  }

  function Register(rule: Rule, r: Registry, c: Call): (r': Registry)
    requires CanCall(r, c)
    ensures |r'.ids| == |r.ids|
  {
    var id := r.ids[c.entity];
    var next := match rule
      case AsWritten => NextId(id, r.owners.Keys, c.guid)
      case OwnerAware => NextIdOwned(id, r.owners, c.entity, c.guid);
    Registry(r.ids[c.entity := next], r.owners[next := c.entity])
  }

  /** Replaying calls in order; each call's GUID must be fresh when it is made. */
  predicate Playable(rule: Rule, r: Registry, calls: seq<Call>)
    decreases |calls|, 0
  {
    calls == [] ||
    (Playable(rule, r, calls[..|calls| - 1]) && CanCall(Replay(rule, r, calls[..|calls| - 1]), calls[|calls| - 1]))
  }

  function Replay(rule: Rule, r: Registry, calls: seq<Call>): (r': Registry)
    requires Playable(rule, r, calls)
    ensures |r'.ids| == |r.ids|
    decreases |calls|, 1
  {
    if calls == [] then r
    else Register(rule, Replay(rule, r, calls[..|calls| - 1]), calls[|calls| - 1])
  }

  /** The entities a call sequence has touched. */
  function Touched(calls: seq<Call>): set<nat>
  {
    set c | c in calls :: c.entity
  }

  /**
   * Under either rule, after any sequence of calls every touched entity has a registered id
   * owned by it, so no two touched entities share an id.
   */
  lemma {:induction false} TouchedIdsDistinct(rule: Rule, r: Registry, calls: seq<Call>)
    requires Playable(rule, r, calls)
    ensures forall e :: e in Touched(calls) ==>
      e < |r.ids| && Replay(rule, r, calls).ids[e] in Replay(rule, r, calls).owners &&
      Replay(rule, r, calls).owners[Replay(rule, r, calls).ids[e]] == e
    ensures forall e, f :: e in Touched(calls) && f in Touched(calls) && e != f ==>
      Replay(rule, r, calls).ids[e] != Replay(rule, r, calls).ids[f]
    decreases |calls|
  {
    if calls != [] {
      var pre := calls[..|calls| - 1];
      var c := calls[|calls| - 1];
      TouchedIdsDistinct(rule, r, pre);
      var s := Replay(rule, r, pre);
      var s' := Register(rule, s, c);
      assert calls == pre + [c];
      assert Touched(calls) == Touched(pre) + {c.entity};
      var next := s'.ids[c.entity];
      assert next !in s.owners || s.owners[next] == c.entity;
      forall e | e in Touched(calls)
        ensures e < |r.ids| && s'.ids[e] in s'.owners && s'.owners[s'.ids[e]] == e
      {
        if e != c.entity {
          assert e in Touched(pre);
          assert s'.ids[e] == s.ids[e];
          assert s.ids[e] != next;
        }
      }
    }
  }

  /**
   * As written, a second call on the same entity always replaces the id the first call
   * registered: the entity's own registration counts as "already used".
   */
  lemma SecondCallReplacesId(r: Registry, e: nat, g1: string, g2: string)
    requires CanCall(r, Call(e, g1))
    requires CanCall(Register(AsWritten, r, Call(e, g1)), Call(e, g2))
    ensures Register(AsWritten, Register(AsWritten, r, Call(e, g1)), Call(e, g2)).ids[e] == g2
    ensures Register(AsWritten, r, Call(e, g1)).ids[e] != g2
  {
  }

  /** An owner-aware registry keeps an id across repeated calls on the same entity. */
  lemma OwnerAwareIsStable(r: Registry, e: nat, g1: string, g2: string)
    requires CanCall(r, Call(e, g1))
    requires CanCall(Register(OwnerAware, r, Call(e, g1)), Call(e, g2))
    ensures Register(OwnerAware, Register(OwnerAware, r, Call(e, g1)), Call(e, g2)).ids[e] ==
            Register(OwnerAware, r, Call(e, g1)).ids[e]
  {
  }
}
