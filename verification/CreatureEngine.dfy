/** Ending and transforming creatures step by step, as the engine does it in place. */
module CreatureEngine {
  import opened Json
  import opened Revisions
  import opened Sequences
  import opened Texts
  import opened Creatures

  class Engine {
    var state: State

    constructor (s: State)
      ensures state == s
    {
      state := s;
    }

    /** Takes the tokens out of the scene, of its covers, and of every combat and encounter. */
    method Unlink(a: Actor, linked: seq<Id>, now: int)
      modifies this
      ensures state == Unlinked(old(state), a, linked, now)
    {
      var removed := Filter(state.tokens, IsLinked(linked));
      state := state.(tokens := Filter(state.tokens, Not(IsLinked(linked))));
      var combats := state.combats;
      for n := 0 to |combats|
        invariant |combats| == |state.combats|
        invariant forall k :: 0 <= k < n ==> combats[k] == CutCombat(state.combats[k], a, linked, now)
        invariant forall k :: n <= k < |combats| ==> combats[k] == state.combats[k]
      {
        combats := combats[n := CutCombat(combats[n], a, linked, now)];
      }
      var encounters := CutEncounters(state.encounters, a, linked, now);
      var scenes := CutScenes(state.scenes, removed, linked, now);
      state := state.(combats := combats, encounters := encounters, scenes := scenes);
    }

    /** A failure part-way leaves what was restored so far, but touches nothing else. */
    method RevertInPlace(i: nat, shift: Shift, now: int) returns (ok: bool)
      requires i < |state.actors|
      modifies this
      ensures ok <==> Reverted(old(state), i, shift, now).Done?
      ensures ok ==> Done(state) == Reverted(old(state), i, shift, now)
      ensures state.tokens == old(state).tokens && state.encounters == old(state).encounters
        && state.scenes == old(state).scenes
    {
      var a := state.actors[i];
      state := state.(actors :=
        state.actors[i := a.(shape := shift.actor, updatedAt := NextRevision(a.updatedAt, now))]);
      var items, itemsOk := PutItemsBack(state.items, shift.items, a.campaignId, now);
      state := state.(items := items);
      if !itemsOk { return false; }
      var combats, turnsOk := PutTurnsBack(state.combats, shift.combatants, a.campaignId, now);
      state := state.(combats := combats);
      ok := turnsOk;
    }

    /** A transformation that fails changes nothing. */
    method TransformActor(req: Request, recordId: Id, now: int) returns (ok: bool)
      modifies this
      ensures ok <==> Transform(old(state), req, recordId, now).Done?
      ensures ok ==> Done(state) == Transform(old(state), req, recordId, now)
      ensures !ok ==> state == old(state)
    {
      var i := ActorIndex(state.actors, req.targetActorId, req.campaignId);
      if i.None? || req.preserveHp.None? || req.suppressItems.None? { return false; }
      var a := state.actors[i.value];
      var combats, turns, shifted := ShiftCombatInPlace(state.combats, req, a.id, now);
      state := state.(combats := combats);
      if !shifted { return false; }
      var shift := Shift(a.shape, Remembered(state.items, a, req.suppressItems.value), turns);
      var record := Creature(recordId, Transformation, Active, LinkedTokens(state.tokens, a.id), Some(shift), now);
      var shape :=
        Shape(Trim(req.name), Trim(req.actorType), req.image, Data(ShiftedBody(req, a.shape.data.body), Some(record)));
      state := state.(actors :=
        state.actors[i.value := a.(shape := shape, updatedAt := NextRevision(a.updatedAt, now))]);
      if req.suppressItems.value {
        var items := SuppressItems(state.items, a.id, recordId, now);
        state := state.(items := items);
      }
      ok := true;
    }

    method EndCreature(i: nat, reason: Status, expired: bool, now: int) returns (ok: bool)
      requires i < |state.actors|
      modifies this
      ensures ok <==> End(old(state), i, reason, expired, now).Done?
      ensures ok ==> Done(state) == End(old(state), i, reason, expired, now)
    {
      var a := state.actors[i];
      var record := a.shape.data.record;
      if record.None? || record.value.status != Active { return false; }
      if reason == Expired && !expired { return false; }
      if record.value.kind == Transformation && record.value.shift.Some? {
        ok := RevertInPlace(i, record.value.shift.value, now);
        return;
      }
      Unlink(a, record.value.linkedTokenIds, now);
      if record.value.kind == Companion {
        var dismissed := record.value.(status := Dismissed, linkedTokenIds := [], updatedAt := now);
        var shape := a.shape.(data := a.shape.data.(record := Some(dismissed)));
        state := state.(actors := state.actors[i := a.(shape := shape, updatedAt := NextRevision(a.updatedAt, now))]);
      } else {
        state := state.(items := Filter(state.items, Not(HeldBy(a))), actors := Filter(state.actors, Not(IsActor(a))));
      }
      ok := true;
    }
  }

  /** Shifts the actor's turns in the requested combat; a failure leaves every combat as it was. */
  method ShiftCombatInPlace(given: seq<Combat>, req: Request, actorId: Id, now: int)
    returns (combats: seq<Combat>, turns: seq<TurnShape>, ok: bool)
    ensures ok <==> ShiftCombat(given, req, actorId, now).Some?
    ensures ok ==> ShiftCombat(given, req, actorId, now) == Some((combats, turns))
    ensures !ok ==> combats == given
  {
    combats, turns, ok := given, [], true;
    if req.combatId.None? { return; }
    var k := CombatIndex(combats, req.combatId.value, req.campaignId);
    if k.None? { return combats, [], false; }
    var c := combats[k.value];
    var cs: seq<Combatant>;
    cs, turns, ok := ShiftInPlace(c.id, c.combatants, actorId, req.initiative);
    if ok && turns != [] {
      combats := combats[k.value :=
        c.(combatants := TurnOrder(cs, c.manual), updatedAt := NextRevision(c.updatedAt, now))];
    }
  }

  method SuppressItems(given: seq<Item>, actorId: Id, recordId: Id, now: int) returns (items: seq<Item>)
    ensures items == Map(given, (x: Item) => if x.actorId == Some(actorId) then Suppressed(x, recordId, now) else x)
  {
    items := given;
    for n := 0 to |items|
      invariant |items| == |given|
      invariant forall k :: 0 <= k < n ==>
        items[k] == (if given[k].actorId == Some(actorId) then Suppressed(given[k], recordId, now) else given[k])
      invariant forall k :: n <= k < |items| ==> items[k] == given[k]
    {
      if items[n].actorId == Some(actorId) { items := items[n := Suppressed(items[n], recordId, now)]; }
    }
  }

  method CutEncounters(given: seq<Encounter>, a: Actor, linked: seq<Id>, now: int) returns (es: seq<Encounter>)
    ensures es == Map(given, e => CutEncounter(e, a, linked, now))
  {
    es := given;
    for n := 0 to |es|
      invariant |es| == |given|
      invariant forall k :: 0 <= k < n ==> es[k] == CutEncounter(given[k], a, linked, now)
      invariant forall k :: n <= k < |es| ==> es[k] == given[k]
    {
      es := es[n := CutEncounter(es[n], a, linked, now)];
    }
  }

  method CutScenes(given: seq<Scene>, removed: seq<Token>, linked: seq<Id>, now: int) returns (xs: seq<Scene>)
    ensures xs == Map(given, x => CutScene(x, removed, linked, now))
  {
    xs := given;
    for n := 0 to |xs|
      invariant |xs| == |given|
      invariant forall k :: 0 <= k < n ==> xs[k] == CutScene(given[k], removed, linked, now)
      invariant forall k :: n <= k < |xs| ==> xs[k] == given[k]
    {
      xs := xs[n := CutScene(xs[n], removed, linked, now)];
    }
  }

  lemma {:induction false} RestoreItemsPrefix(items: seq<Item>, shapes: seq<ItemShape>, n: nat, campaignId: Id,
    now: int)
    requires n <= |shapes| && RestoreItems(items, shapes[..n], campaignId, now).None?
    ensures RestoreItems(items, shapes, campaignId, now).None?
  {
    if n < |shapes| {
      assert shapes[..|shapes| - 1][..n] == shapes[..n];
      RestoreItemsPrefix(items, shapes[..|shapes| - 1], n, campaignId, now);
    } else {
      assert shapes[..n] == shapes;
    }
  }

  method PutItemsBack(given: seq<Item>, shapes: seq<ItemShape>, campaignId: Id, now: int)
    returns (items: seq<Item>, ok: bool)
    ensures ok <==> RestoreItems(given, shapes, campaignId, now).Some?
    ensures ok ==> Some(items) == RestoreItems(given, shapes, campaignId, now)
  {
    items := given;
    for n := 0 to |shapes|
      invariant Some(items) == RestoreItems(given, shapes[..n], campaignId, now)
    {
      assert shapes[..n + 1][..n] == shapes[..n];
      var i := ItemIndex(items, shapes[n].id, campaignId);
      if i.None? {
        RestoreItemsPrefix(given, shapes, n + 1, campaignId, now);
        return items, false;
      }
      items := items[i.value := RestoreItem(items[i.value], shapes[n], now)];
    }
    assert shapes[..|shapes|] == shapes;
    ok := true;
  }

  lemma {:induction false} RestoreTurnsPrefix(combats: seq<Combat>, turns: seq<TurnShape>, n: nat, campaignId: Id,
    now: int)
    requires n <= |turns| && RestoreTurns(combats, turns[..n], campaignId, now).None?
    ensures RestoreTurns(combats, turns, campaignId, now).None?
  {
    if n < |turns| {
      assert turns[..|turns| - 1][..n] == turns[..n];
      RestoreTurnsPrefix(combats, turns[..|turns| - 1], n, campaignId, now);
    } else {
      assert turns[..n] == turns;
    }
  }

  method PutTurnsBack(given: seq<Combat>, turns: seq<TurnShape>, campaignId: Id, now: int)
    returns (combats: seq<Combat>, ok: bool)
    ensures ok <==> RestoreTurns(given, turns, campaignId, now).Some?
    ensures ok ==> Some(combats) == RestoreTurns(given, turns, campaignId, now)
  {
    combats := given;
    for n := 0 to |turns|
      invariant Some(combats) == RestoreTurns(given, turns[..n], campaignId, now)
    {
      assert turns[..n + 1][..n] == turns[..n];
      var k := CombatIndex(combats, turns[n].combatId, campaignId);
      if k.None? {
        RestoreTurnsPrefix(given, turns, n + 1, campaignId, now);
        return combats, false;
      }
      var i := CombatantIndex(combats[k.value].combatants, turns[n].combatantId);
      if i.None? {
        RestoreTurnsPrefix(given, turns, n + 1, campaignId, now);
        return combats, false;
      }
      combats := combats[k.value := RestoreTurn(combats[k.value], i.value, turns[n].initiative, now)];
    }
    assert turns[..|turns|] == turns;
    ok := true;
  }

  lemma {:induction false} ShiftTurnsPrefix(cs: seq<Combatant>, actorId: Id, init: Initiative, n: nat, m: nat)
    requires n <= m <= |cs| && ShiftTurns(cs, actorId, init, n).None?
    ensures ShiftTurns(cs, actorId, init, m).None?
  {
    if n < m { ShiftTurnsPrefix(cs, actorId, init, n, m - 1); }
  }

  /** Once an initiative was found, giving it to a combatant leaves one to be found. */
  lemma {:induction false} InitiativeStays(init: Initiative, cs: seq<Combatant>, n: nat, value: int)
    requires n < |cs| && NewInitiative(init, cs).Some?
    ensures NewInitiative(init, cs[n := cs[n].(initiative := value)]).Some?
    decreases |cs|
  {
    if init.Shared? && cs[0].actorId != Some(init.sourceActorId) {
      if n > 0 {
        InitiativeStays(init, cs[1..], n - 1, value);
        assert cs[n := cs[n].(initiative := value)][1..] == cs[1..][n - 1 := cs[n].(initiative := value)];
      } else {
        assert cs[n := cs[n].(initiative := value)][1..] == cs[1..];
      }
    }
  }

  lemma TurnsOneMore(combatId: Id, cs: seq<Combatant>, n: nat, actorId: Id)
    requires n < |cs|
    ensures TurnsOf(combatId, cs[..n + 1], actorId)
            == TurnsOf(combatId, cs[..n], actorId) + if cs[n].actorId == Some(actorId) then
              [TurnShape(combatId, cs[n].id, cs[n].initiative)] else []
  {
    FilterOneMore(cs, n, OfActor(actorId));
  }

  /** Gives the actor's combatants their new initiative, remembering the old one. */
  method ShiftInPlace(combatId: Id, given: seq<Combatant>, actorId: Id, init: Initiative)
    returns (cs: seq<Combatant>, turns: seq<TurnShape>, ok: bool)
    ensures ok <==> ShiftTurns(given, actorId, init, |given|).Some?
    ensures ok ==> Some(cs) == ShiftTurns(given, actorId, init, |given|) && turns == TurnsOf(combatId, given, actorId)
    ensures !ok ==> cs == given
  {
    cs, turns := given, [];
    for n := 0 to |given|
      invariant if turns == [] then cs == given else NewInitiative(init, cs).Some?
      invariant Some(cs) == ShiftTurns(given, actorId, init, n)
      invariant forall k :: n <= k < |cs| ==> cs[k] == given[k]
      invariant turns == TurnsOf(combatId, given[..n], actorId)
    {
      TurnsOneMore(combatId, given, n, actorId);
      if given[n].actorId == Some(actorId) {
        turns := turns + [TurnShape(combatId, cs[n].id, cs[n].initiative)];
        var value := NewInitiative(init, cs);
        if value.None? {
          ShiftTurnsPrefix(given, actorId, init, n + 1, |given|);
          return cs, turns, false;
        }
        InitiativeStays(init, cs, n, value.value);
        cs := cs[n := cs[n].(initiative := value.value)];
      }
    }
    assert given[..|given|] == given;
    ok := true;
  }
}
