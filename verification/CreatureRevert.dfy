/** Reverting a transformation gives back what was there before it. */
module CreatureRevert {
  import opened Json
  import opened Sequences
  import opened Creatures
  import opened CreatureWrites
  import opened CreatureTurns

  // ----- Items -----

  function FindShape(shapes: seq<ItemShape>, id: Id): (r: Option<ItemShape>)
    ensures r.Some? ==> r.value in shapes && r.value.id == id
    ensures r.None? ==> forall x <- shapes :: x.id != id
  {
    if shapes == [] then None
    else if shapes[|shapes| - 1].id == id then Some(shapes[|shapes| - 1])
    else FindShape(shapes[..|shapes| - 1], id)
  }

  /** The item as the shapes remember it. */
  function AsRemembered(x: Item, shapes: seq<ItemShape>): Item {
    var shape := FindShape(shapes, x.id);
    if shape.None? then x else x.(actorId := shape.value.actorId, data := shape.value.data)
  }

  predicate SameItem(x: Item, y: Item) { x.(updatedAt := 0) == y.(updatedAt := 0) }

  predicate HasItem(items: seq<Item>, id: Id, campaignId: Id) {
    exists x <- items :: x.id == id && x.campaignId == campaignId
  }

  ghost predicate ItemsAsRemembered(items: seq<Item>, after: seq<Item>, shapes: seq<ItemShape>) {
    |after| == |items| && forall j :: 0 <= j < |items| ==> SameItem(after[j], AsRemembered(items[j], shapes))
  }

  lemma StillHasItem(items: seq<Item>, after: seq<Item>, shapes: seq<ItemShape>, id: Id, campaignId: Id)
    requires ItemsAsRemembered(items, after, shapes)
    ensures HasItem(after, id, campaignId) <==> HasItem(items, id, campaignId)
  {
    forall j | 0 <= j < |items| ensures after[j].id == items[j].id && after[j].campaignId == items[j].campaignId {
      assert SameItem(after[j], AsRemembered(items[j], shapes));
    }
    if HasItem(items, id, campaignId) {
      var j :| 0 <= j < |items| && items[j].id == id && items[j].campaignId == campaignId;
      assert after[j] in after;
    }
    if HasItem(after, id, campaignId) {
      var j :| 0 <= j < |after| && after[j].id == id && after[j].campaignId == campaignId;
      assert items[j] in items;
    }
  }

  lemma OneMoreRemembered(items: seq<Item>, mid: seq<Item>, shapes: seq<ItemShape>, k: nat, now: int)
    requires shapes != [] && UniqueItems(items) && ItemsAsRemembered(items, mid, shapes[..|shapes| - 1])
    requires k < |mid| && mid[k].id == shapes[|shapes| - 1].id
    ensures ItemsAsRemembered(items, mid[k := RestoreItem(mid[k], shapes[|shapes| - 1], now)], shapes)
  {
    var first, last := shapes[..|shapes| - 1], shapes[|shapes| - 1];
    var after := mid[k := RestoreItem(mid[k], last, now)];
    assert SameItem(mid[k], AsRemembered(items[k], first));
    forall j | 0 <= j < |items| ensures SameItem(after[j], AsRemembered(items[j], shapes)) {
      assert SameItem(mid[j], AsRemembered(items[j], first));
      assert j != k ==> items[j].id != items[k].id;
    }
  }

  /** Restoring works exactly when every remembered item is in the campaign, and gives the items
      as they are remembered. */
  lemma {:induction false} RestoresRemembered(items: seq<Item>, shapes: seq<ItemShape>, campaignId: Id, now: int)
    requires UniqueItems(items)
    ensures RestoreItems(items, shapes, campaignId, now).Some?
      <==> forall x <- shapes :: HasItem(items, x.id, campaignId)
    ensures RestoreItems(items, shapes, campaignId, now).Some?
      ==> ItemsAsRemembered(items, RestoreItems(items, shapes, campaignId, now).value, shapes)
  {
    if shapes != [] {
      var first, last := shapes[..|shapes| - 1], shapes[|shapes| - 1];
      assert shapes == first + [last];
      RestoresRemembered(items, first, campaignId, now);
      var before := RestoreItems(items, first, campaignId, now);
      if before.Some? {
        StillHasItem(items, before.value, first, last.id, campaignId);
        var k := ItemIndex(before.value, last.id, campaignId);
        if k.Some? {
          assert before.value[k.value] in before.value;
          OneMoreRemembered(items, before.value, shapes, k.value, now);
        }
      }
    }
  }

  lemma RememberedShapes(items: seq<Item>, a: Actor, x: Item)
    requires UniqueItems(items) && x in items
    ensures FindShape(Remembered(items, a, true), x.id) == if HeldBy(a)(x) then Some(ItemShape(x.id, x.actorId, x.data))
      else None
  {
    var held, shapes := Filter(items, HeldBy(a)), Remembered(items, a, true);
    forall k | 0 <= k < |shapes| && shapes[k].id == x.id
      ensures HeldBy(a)(x) && shapes[k] == ItemShape(x.id, x.actorId, x.data) {
      assert shapes[k].id == held[k].id && held[k] in held && held[k] in items;
      SoleItem(items, held[k], x);
    }
    if HeldBy(a)(x) {
      var k :| 0 <= k < |held| && held[k] == x;
      assert shapes[k] in shapes && shapes[k].id == x.id;
    }
  }

  lemma SoleItem(items: seq<Item>, x: Item, y: Item)
    requires UniqueItems(items) && x in items && y in items && x.id == y.id
    ensures x == y
  {
    var i :| 0 <= i < |items| && items[i] == x;
    var j :| 0 <= j < |items| && items[j] == y;
    assert i == j;
  }

  function Suppressing(a: Actor, recordId: Id, now: int): Item -> Item {
    (x: Item) => if x.actorId == Some(a.id) then Suppressed(x, recordId, now) else x
  }

  ghost predicate ItemsBack(before: seq<Item>, after: seq<Item>) {
    |after| == |before| && forall j :: 0 <= j < |before| ==> SameItem(after[j], before[j])
  }

  /** Suppressed items come back as they were, if the actor holds items of its campaign only. */
  lemma SuppressedItemsReturn(items: seq<Item>, a: Actor, recordId: Id, now: int, later: int)
    requires UniqueItems(items)
    ensures var r :=
      RestoreItems(Map(items, Suppressing(a, recordId, now)), Remembered(items, a, true), a.campaignId, later);
      && (r.Some? <==> forall x <- items :: HeldBy(a)(x) ==> x.campaignId == a.campaignId)
      && (r.Some? ==> ItemsBack(items, r.value))
  {
    var u, shapes := Map(items, Suppressing(a, recordId, now)), Remembered(items, a, true);
    assert UniqueItems(u) by {
      forall i, j | 0 <= i < j < |u| ensures u[i].id != u[j].id { assert items[i].id != items[j].id; }
    }
    RestoresRemembered(u, shapes, a.campaignId, later);
    HeldAreThere(items, u, a);
    var r := RestoreItems(u, shapes, a.campaignId, later);
    if r.Some? {
      forall j | 0 <= j < |items| ensures SameItem(r.value[j], items[j]) {
        assert SameItem(r.value[j], AsRemembered(u[j], shapes));
        assert items[j] in items && u[j].id == items[j].id;
        RememberedShapes(items, a, items[j]);
      }
    }
  }

  lemma HeldAreThere(items: seq<Item>, u: seq<Item>, a: Actor)
    requires UniqueItems(items) && |u| == |items|
    requires forall j :: 0 <= j < |items| ==> u[j].id == items[j].id && u[j].campaignId == items[j].campaignId
    ensures (forall x <- Remembered(items, a, true) :: HasItem(u, x.id, a.campaignId))
            <==> forall x <- items :: HeldBy(a)(x) ==> x.campaignId == a.campaignId
  {
    var held, shapes := Filter(items, HeldBy(a)), Remembered(items, a, true);
    forall k | 0 <= k < |held| ensures HasItem(u, shapes[k].id, a.campaignId) <==> held[k].campaignId == a.campaignId {
      assert held[k] in items && shapes[k].id == held[k].id;
      var j :| 0 <= j < |items| && items[j] == held[k];
      if held[k].campaignId == a.campaignId { assert u[j] in u; }
      if HasItem(u, shapes[k].id, a.campaignId) {
        var m :| 0 <= m < |u| && u[m].id == shapes[k].id && u[m].campaignId == a.campaignId;
        assert m == j;
      }
    }
    forall x <- items | HeldBy(a)(x) ensures exists k :: 0 <= k < |held| && held[k] == x {}
    if forall x <- shapes :: HasItem(u, x.id, a.campaignId) {
      forall x <- items | HeldBy(a)(x) ensures x.campaignId == a.campaignId {
        var k :| 0 <= k < |held| && held[k] == x;
        assert shapes[k] in shapes;
      }
    }
  }

  // ----- Combats -----

  ghost predicate AllIn(turns: seq<TurnShape>, combatId: Id) { forall t <- turns :: t.combatId == combatId }

  /** A combat with the same combatants, in the same order or, unless the order is manual, in
      turn order. */
  ghost predicate SameCombat(c: Combat, d: Combat) {
    && d.id == c.id && d.campaignId == c.campaignId && d.turnIndex == c.turnIndex && d.manual == c.manual
    && (d.combatants == c.combatants || d.combatants == TurnOrder(c.combatants, c.manual))
  }

  ghost predicate CombatsBack(before: seq<Combat>, after: seq<Combat>) {
    |after| == |before| && forall k :: 0 <= k < |before| ==> SameCombat(before[k], after[k])
  }

  /** The combats with one of them given other combatants. */
  ghost predicate OnlyCombatants(combats: seq<Combat>, after: seq<Combat>, k: nat, cs: seq<Combatant>) {
    && k < |combats| && |after| == |combats| && (forall j :: 0 <= j < |combats| && j != k ==> after[j] == combats[j])
    && after[k].(updatedAt := 0) == combats[k].(combatants := cs, updatedAt := 0)
  }

  lemma {:induction false} CombatIndexStays(combats: seq<Combat>, after: seq<Combat>, id: Id, campaignId: Id)
    requires |after| == |combats| && forall j :: 0 <= j < |combats| ==>
      after[j].id == combats[j].id && after[j].campaignId == combats[j].campaignId
    ensures CombatIndex(after, id, campaignId) == CombatIndex(combats, id, campaignId)
  {
    if combats != [] {
      CombatIndexStays(combats[1..], after[1..], id, campaignId);
    }
  }

  lemma OnlyCombatantsIndex(combats: seq<Combat>, after: seq<Combat>, k: nat, cs: seq<Combatant>, id: Id,
    campaignId: Id)
    requires OnlyCombatants(combats, after, k, cs)
    ensures CombatIndex(after, id, campaignId) == CombatIndex(combats, id, campaignId)
    ensures after[k].combatants == cs && after[k].manual == combats[k].manual
  {
    var a, b := after[k].(updatedAt := 0), combats[k].(combatants := cs, updatedAt := 0);
    assert a.id == b.id && a.campaignId == b.campaignId && a.manual == b.manual && a.combatants == b.combatants;
    CombatIndexStays(combats, after, id, campaignId);
  }

  /** Restoring turns of one combat restores its list and nothing else. */
  lemma {:induction false} RestoreTurnsOfOne(combats: seq<Combat>, turns: seq<TurnShape>, id: Id, campaignId: Id,
    now: int)
    requires AllIn(turns, id) && CombatIndex(combats, id, campaignId).Some?
    requires RestoreList(combats[CombatIndex(combats, id, campaignId).value].combatants, turns,
      combats[CombatIndex(combats, id, campaignId).value].manual).Some?
    ensures var k := CombatIndex(combats, id, campaignId).value;
      var r := RestoreTurns(combats, turns, campaignId, now);
      r.Some? && OnlyCombatants(combats, r.value, k, RestoreList(combats[k].combatants, turns, combats[k].manual).value)
  {
    if turns != [] {
      var k, first, t := CombatIndex(combats, id, campaignId).value, turns[..|turns| - 1], turns[|turns| - 1];
      assert t in turns && forall u <- first :: u in turns;
      RestoreTurnsOfOne(combats, first, id, campaignId, now);
      var mid := RestoreTurns(combats, first, campaignId, now).value;
      OnlyCombatantsIndex(combats, mid, k, RestoreList(combats[k].combatants, first, combats[k].manual).value, id,
        campaignId);
    }
  }

  ghost predicate ApartInside(combats: seq<Combat>) { forall c <- combats :: UniqueCombatants(c.combatants) }

  /** The shifted turns come back, in order. */
  lemma ShiftedTurnsReturn(combats: seq<Combat>, req: Request, actorId: Id, now: int, later: int)
    requires ShiftCombat(combats, req, actorId, now).Some? && ApartInside(combats)
    ensures var (u, turns) := ShiftCombat(combats, req, actorId, now).value;
      var r := RestoreTurns(u, turns, req.campaignId, later);
      r.Some? && CombatsBack(combats, r.value)
  {
    var (u, turns) := ShiftCombat(combats, req, actorId, now).value;
    if turns != [] {
      var k := CombatIndex(combats, req.combatId.value, req.campaignId).value;
      var c := combats[k];
      var shifted := ShiftTurns(c.combatants, actorId, req.initiative, |c.combatants|).value;
      ShiftTurnsShifts(c.combatants, actorId, req.initiative, |c.combatants|);
      ShiftThenRestore(c.id, c.combatants, shifted, actorId, c.manual);
      CombatIndexStays(combats, u, c.id, req.campaignId);
      TurnsInCombat(c.id, c.combatants, actorId);
      RestoreTurnsOfOne(u, turns, c.id, req.campaignId, later);
      OneCombatBack(combats, u, RestoreTurns(u, turns, req.campaignId, later).value, k);
    }
  }

  lemma TurnsInCombat(combatId: Id, cs: seq<Combatant>, actorId: Id)
    ensures AllIn(TurnsOf(combatId, cs, actorId), combatId)
  {}

  lemma OneCombatBack(combats: seq<Combat>, u: seq<Combat>, after: seq<Combat>, k: nat)
    requires k < |combats| && |u| == |combats| && (forall j :: 0 <= j < |combats| && j != k ==> u[j] == combats[j])
    requires u[k].(updatedAt := 0) == combats[k].(combatants := u[k].combatants, updatedAt := 0)
    requires OnlyCombatants(u, after, k, TurnOrder(combats[k].combatants, combats[k].manual))
    ensures CombatsBack(combats, after)
  {
    forall j | 0 <= j < |combats| ensures SameCombat(combats[j], after[j]) {
      if j == k {
        var a, b := after[k].(updatedAt := 0), u[k].(updatedAt := 0);
        assert a.id == b.id && a.campaignId == b.campaignId && a.manual == b.manual && a.turnIndex == b.turnIndex;
        assert a.combatants == after[k].combatants;
      }
    }
  }

  // ----- Everything -----

  /** Apart from revisions and, unless it is manual, the turn order, everything is as it was. */
  ghost predicate BackAgain(before: State, after: State) {
    && after.tokens == before.tokens && after.encounters == before.encounters && after.scenes == before.scenes
    && |after.actors| == |before.actors|
    && (forall k :: 0 <= k < |before.actors| ==> after.actors[k].(updatedAt := 0) == before.actors[k].(updatedAt := 0))
    && ItemsBack(before.items, after.items) && CombatsBack(before.combats, after.combats)
  }

  lemma TransformedActor(s: State, req: Request, recordId: Id, now: int)
    returns (i: nat, shift: Shift)
    requires Transform(s, req, recordId, now).Done?
    ensures var u := Transform(s, req, recordId, now).state;
      && i < |s.actors| == |u.actors| && ActorIndex(s.actors, req.targetActorId, req.campaignId) == Some(i)
      && u.actors[i].campaignId == s.actors[i].campaignId == req.campaignId
      && u.actors[i].shape.data.record.Some?
      && u.actors[i].shape.data.record.value.kind == Transformation
        && u.actors[i].shape.data.record.value.status == Active
      && u.actors[i].shape.data.record.value.shift == Some(shift) && shift.actor == s.actors[i].shape
      && shift.items == Remembered(s.items, s.actors[i], req.suppressItems == Some(true))
      && ShiftCombat(s.combats, req, s.actors[i].id, now) == Some((u.combats, shift.combatants))
      && u.items == (if req.suppressItems == Some(true) then Map(s.items, Suppressing(s.actors[i], recordId, now))
        else s.items)
      && u.actors == s.actors[i := u.actors[i]] && u.actors[i].id == s.actors[i].id
      && u.tokens == s.tokens && u.encounters == s.encounters && u.scenes == s.scenes
  {
    i := ActorIndex(s.actors, req.targetActorId, req.campaignId).value;
    var a := s.actors[i];
    var combats := ShiftCombat(s.combats, req, a.id, now).value;
    shift := Shift(a.shape, Remembered(s.items, a, req.suppressItems.value), combats.1);
    var u := Transform(s, req, recordId, now).state;
    if req.suppressItems.value { assert u.items == Map(s.items, Suppressing(a, recordId, now)); }
  }

  lemma NothingRemembered(items: seq<Item>, campaignId: Id, now: int)
    ensures RestoreItems(items, [], campaignId, now) == Some(items) && ItemsBack(items, items)
  {}

  /** Reverting an untouched transformation works exactly when the items it suppressed are of
      the actor's campaign, and then gives back the actor, its items, every initiative and the
      turn order, apart from revisions. */
  lemma RevertUndoesTransform(s: State, req: Request, recordId: Id, now: int, reason: Status, expired: bool, later: int)
    requires Transform(s, req, recordId, now).Done? && UniqueItems(s.items) && ApartInside(s.combats)
    requires reason == Expired ==> expired
    ensures var u, i :=
      Transform(s, req, recordId, now).state, ActorIndex(s.actors, req.targetActorId, req.campaignId).value;
      && i < |u.actors|
      && (End(u, i, reason, expired, later).Done?
          <==> (req.suppressItems == Some(true) ==> forall x <- s.items :: HeldBy(s.actors[i])(x) ==>
            x.campaignId == req.campaignId))
      && (End(u, i, reason, expired, later).Done? ==> BackAgain(s, End(u, i, reason, expired, later).state))
  {
    var u := Transform(s, req, recordId, now).state;
    var i, shift := TransformedActor(s, req, recordId, now);
    ShiftedTurnsReturn(s.combats, req, s.actors[i].id, now, later);
    if req.suppressItems == Some(true) {
      SuppressedItemsReturn(s.items, s.actors[i], recordId, now, later);
    } else {
      NothingRemembered(s.items, req.campaignId, later);
    }
    assert End(u, i, reason, expired, later) == Reverted(u, i, shift, later);
  }

  /** The failure does occur: the suppressed item is of another campaign, so the actor cannot
      be reverted. */
  lemma ForeignItemBlocksRevert() returns (s: State, req: Request)
    ensures |s.actors| == 1 && UniqueItems(s.items) && Transform(s, req, "ccr", 0).Done?
    ensures End(Transform(s, req, "ccr", 0).state, 0, Dismissed, false, 1).Failed?
  {
    var a := Actor("act", "camp", Shape("Wolf", "beast", None, Data(Object([]), None)), 0);
    var x := Item("item", "other", Some("act"), Object([]), 0);
    s := State([a], [x], [], [], [], []);
    req := Request("act", "camp", None, Independent(None), "Bear", "beast", None, Object([]), Some(false), Some(true));
    assert ActorIndex(s.actors, "act", "camp") == Some(0);
    assert HeldBy(s.actors[0])(x) && x in s.items && x.campaignId != req.campaignId;
    RevertUndoesTransform(s, req, "ccr", 0, Dismissed, false, 1);
  }

  /** A combat that was in turn order, or whose order is manual, is back exactly. */
  lemma SortedOrderReturns(c: Combat, d: Combat)
    requires SameCombat(c, d) && UniqueCombatants(c.combatants) && (c.manual || SortedBy(c.combatants, ActsBefore))
    ensures d.(updatedAt := c.updatedAt) == c
  {
    if !c.manual { SortedAlike(c.combatants, c.combatants); }
  }
}
