/** What transforming an actor changes, record by record, and that reverting only goes forward. */
module CreatureShapes {
  import opened Json
  import opened Sequences
  import opened StablePrinterMeaning
  import opened Texts
  import opened Revisions
  import opened Creatures
  import opened CreatureEnding
  import opened CreatureTurns

  // ----- The actor's data -----

  /** The ledgers an actor keeps in every shape, and its hit points if asked to. */
  ghost predicate CarriedOver(key: string, preserveHp: bool) {
    key == "resources" || key == "spellSlots" || key == "pactSlots" || key == "rulesEngine"
    || (preserveHp && key == "hp")
  }

  ghost predicate BodyFor(next: Value, from: Value, preserveHp: bool, body: Value) {
    if !next.Object? || !from.Object? then body == next
    else
      && body.Object?
      && forall key :: Member(body.fields, key) ==
           if CarriedOver(key, preserveHp) && Member(from.fields, key).Some? then Member(from.fields, key)
           else Member(next.fields, key)
  }

  lemma {:induction false} SetFieldMember(fields: seq<Field>, key: string, value: Value, k: string)
    requires value != Undefined
    ensures Member(SetField(fields, key, value), k) == if k == key then Some(value) else Member(fields, k)
  {
    if fields != [] && fields[0].key != key {
      SetFieldMember(fields[1..], key, value, k);
      assert SetField(fields, key, value)[1..] == SetField(fields[1..], key, value);
    } else if fields != [] {
      assert SetField(fields, key, value)[1..] == fields[1..];
    } else {
      assert [Field(key, value)][1..] == [];
    }
  }

  lemma {:induction false} CarryAllMember(next: Value, from: Value, keys: seq<string>, k: string)
    requires next.Object? && from.Object?
    ensures var r := CarryAll(next, from, keys);
      r.Object? && Member(r.fields, k) ==
        if k in keys && Member(from.fields, k).Some? then Member(from.fields, k) else Member(next.fields, k)
  {
    if keys != [] {
      var first, last := keys[..|keys| - 1], keys[|keys| - 1];
      CarryAllMember(next, from, first, k);
      assert keys == first + [last];
      var m := Member(from.fields, last);
      if m.Some? { SetFieldMember(CarryAll(next, from, first).fields, last, m.value, k); }
    }
  }

  lemma ShiftedBodyFor(req: Request, from: Value)
    ensures BodyFor(req.data, from, req.preserveHp == Some(true), ShiftedBody(req, from))
  {
    var preserveHp := req.preserveHp == Some(true);
    var keys := if preserveHp then LEDGERS + ["hp"] else LEDGERS;
    if req.data.Object? && from.Object? {
      forall key ensures key in keys <==> CarriedOver(key, preserveHp) {}
      forall key { CarryAllMember(req.data, from, keys, key); }
    } else {
      NothingCarried(req.data, from, keys);
    }
  }

  lemma {:induction false} NothingCarried(next: Value, from: Value, keys: seq<string>)
    requires !next.Object? || !from.Object?
    ensures CarryAll(next, from, keys) == next
  {
    if keys != [] && from.Object? { NothingCarried(next, from, keys[..|keys| - 1]); }
  }

  // ----- The items -----

  ghost predicate SuppressedItem(x: Item, y: Item, recordId: Id, now: int) {
    && y == Item(x.id, x.campaignId, None, y.data, y.updatedAt) && Revised(x.updatedAt, y.updatedAt, now)
    && if !x.data.Object? then y.data == x.data
       else
         && y.data.Object?
         && forall key :: Member(y.data.fields, key) ==
              if key == "dnd5eTransformationSuppressedBy" then Some(Text(recordId)) else Member(x.data.fields, key)
  }

  lemma SuppressedIs(x: Item, recordId: Id, now: int)
    ensures SuppressedItem(x, Suppressed(x, recordId, now), recordId, now)
  {
    NextIsRevised(x.updatedAt, now);
    if x.data.Object? {
      forall key { SetFieldMember(x.data.fields, "dnd5eTransformationSuppressedBy", Text(recordId), key); }
    }
  }

  // ----- The turns -----

  /** The initiative the request gives: its own, or that of the first combatant of another actor. */
  ghost predicate GivesInitiative(init: Initiative, cs: seq<Combatant>, value: int) {
    match init
    case Independent(v) => v == Some(value)
    case Shared(source) =>
      exists m :: 0 <= m < |cs| && cs[m].actorId == Some(source) && cs[m].initiative == value
        && forall k :: 0 <= k < m ==> cs[k].actorId != Some(source)
  }

  ghost predicate GivesNone(init: Initiative, cs: seq<Combatant>) {
    match init
    case Independent(v) => v == None
    case Shared(source) => forall x <- cs :: x.actorId != Some(source)
  }

  /** Every combatant of the actor has the value, and the others are as they were. */
  ghost predicate GivenTo(cs: seq<Combatant>, r: seq<Combatant>, actorId: Id, value: int, n: nat) {
    && |r| == |cs|
    && forall k :: 0 <= k < |cs| ==>
         r[k] == if k < n && cs[k].actorId == Some(actorId) then cs[k].(initiative := value) else cs[k]
  }

  lemma {:induction false} InitiativeOfIs(cs: seq<Combatant>, source: Id)
    ensures match InitiativeOf(cs, source)
      case Some(v) => GivesInitiative(Shared(source), cs, v)
      case None => GivesNone(Shared(source), cs)
  {
    if cs != [] && cs[0].actorId != Some(source) {
      InitiativeOfIs(cs[1..], source);
      if InitiativeOf(cs[1..], source).Some? {
        var v := InitiativeOf(cs[1..], source).value;
        var m :| 0 <= m < |cs[1..]| && cs[1..][m].actorId == Some(source) && cs[1..][m].initiative == v
          && forall k :: 0 <= k < m ==> cs[1..][k].actorId != Some(source);
        assert cs[m + 1].actorId == Some(source) && cs[m + 1].initiative == v;
        forall k | 0 <= k < m + 1 ensures cs[k].actorId != Some(source) { assert k > 0 ==> cs[k] == cs[1..][k - 1]; }
      }
    }
  }

  lemma NewInitiativeIs(init: Initiative, cs: seq<Combatant>)
    ensures match NewInitiative(init, cs)
      case Some(v) => GivesInitiative(init, cs, v)
      case None => GivesNone(init, cs)
  {
    if init.Shared? { InitiativeOfIs(cs, init.sourceActorId); }
  }

  lemma {:induction false} InitiativeKept(cs: seq<Combatant>, source: Id, k: nat, value: int)
    requires k < |cs| && InitiativeOf(cs, source) == Some(value)
    ensures InitiativeOf(cs[k := cs[k].(initiative := value)], source) == Some(value)
  {
    var r := cs[k := cs[k].(initiative := value)];
    if cs[0].actorId != Some(source) {
      if k == 0 {
        assert r[1..] == cs[1..];
      } else {
        InitiativeKept(cs[1..], source, k - 1, value);
        assert r[1..] == cs[1..][k - 1 := cs[k].(initiative := value)];
      }
    }
  }

  ghost predicate ActsIn(cs: seq<Combatant>, actorId: Id, n: nat) {
    exists k :: 0 <= k < n <= |cs| && cs[k].actorId == Some(actorId)
  }

  lemma {:induction false} ShiftGives(cs: seq<Combatant>, actorId: Id, init: Initiative, n: nat)
    requires n <= |cs|
    ensures var r := ShiftTurns(cs, actorId, init, n);
      && (r.None? <==> ActsIn(cs, actorId, n) && NewInitiative(init, cs).None?)
      && (r.Some? && !ActsIn(cs, actorId, n) ==> r.value == cs)
      && (r.Some? && ActsIn(cs, actorId, n) ==>
            && GivenTo(cs, r.value, actorId, NewInitiative(init, cs).value, n)
            && NewInitiative(init, r.value) == NewInitiative(init, cs))
  {
    if n > 0 {
      ShiftGives(cs, actorId, init, n - 1);
      var before := ShiftTurns(cs, actorId, init, n - 1);
      assert ActsIn(cs, actorId, n) <==> ActsIn(cs, actorId, n - 1) || cs[n - 1].actorId == Some(actorId);
      if before.Some? && cs[n - 1].actorId == Some(actorId) {
        assert NewInitiative(init, before.value) == NewInitiative(init, cs);
        if init.Shared? && NewInitiative(init, cs).Some? {
          InitiativeKept(before.value, init.sourceActorId, n - 1, NewInitiative(init, cs).value);
        }
      }
    }
  }

  /** In place if the order is manual; otherwise by initiative, higher first, then by id. */
  ghost predicate Ordered(cs: seq<Combatant>, r: seq<Combatant>, manual: bool) {
    if manual then r == cs
    else
      && multiset(r) == multiset(cs)
      && forall i, j :: 0 <= i < j < |r| ==>
           || r[i].initiative > r[j].initiative
           || (r[i].initiative == r[j].initiative && (r[i].id == r[j].id || Less(r[i].id, r[j].id)))
  }

  lemma TurnOrderOrders(cs: seq<Combatant>, manual: bool)
    ensures Ordered(cs, TurnOrder(cs, manual), manual)
  {
    ActsBeforeOrders();
    SortBySorts(cs, ActsBefore);
    var r := SortBy(cs, ActsBefore);
    forall i, j | 0 <= i < j < |r|
      ensures r[i].initiative > r[j].initiative
        || (r[i].initiative == r[j].initiative && (r[i].id == r[j].id || Less(r[i].id, r[j].id)))
    {
      assert ActsBefore(r[i], r[j]);
      LeqIsLexicographic(r[i].id, r[j].id);
    }
  }

  /** The combat with the actor's combatants on the new initiative, in order again. */
  ghost predicate CombatShifted(c: Combat, d: Combat, actorId: Id, init: Initiative, now: int) {
    && d == Combat(c.id, c.campaignId, d.combatants, c.turnIndex, c.manual, d.updatedAt)
    && Revised(c.updatedAt, d.updatedAt, now)
    && exists value, shifted ::
         && GivesInitiative(init, c.combatants, value) && GivenTo(c.combatants, shifted, actorId, value, |c.combatants|)
         && Ordered(shifted, d.combatants, c.manual)
  }

  ghost predicate FirstCombat(combats: seq<Combat>, id: Id, campaignId: Id, k: nat) {
    && k < |combats| && combats[k].id == id && combats[k].campaignId == campaignId
    && forall j :: 0 <= j < k ==> !(combats[j].id == id && combats[j].campaignId == campaignId)
  }

  ghost predicate Acts(c: Combat, actorId: Id) { exists x <- c.combatants :: x.actorId == Some(actorId) }

  /** Only the requested combat changes, and only if the actor takes part. */
  ghost predicate CombatsShifted(combats: seq<Combat>, after: seq<Combat>, req: Request, actorId: Id, now: int) {
    && |after| == |combats|
    && forall k: nat :: k < |combats| ==>
         if
           && req.combatId.Some? && FirstCombat(combats, req.combatId.value, req.campaignId, k)
           && Acts(combats[k], actorId)
         then CombatShifted(combats[k], after[k], actorId, req.initiative, now)
         else after[k] == combats[k]
  }

  /** No such combat, or the actor takes part and there is no initiative for it. */
  ghost predicate CannotShift(combats: seq<Combat>, req: Request, actorId: Id) {
    && req.combatId.Some?
    && forall k: nat :: FirstCombat(combats, req.combatId.value, req.campaignId, k) ==>
         Acts(combats[k], actorId) && GivesNone(req.initiative, combats[k].combatants)
  }

  lemma ActsIs(c: Combat, actorId: Id)
    ensures ActsIn(c.combatants, actorId, |c.combatants|) <==> Acts(c, actorId)
    ensures TurnsOf(c.id, c.combatants, actorId) == [] <==> !Acts(c, actorId)
  {
    if Acts(c, actorId) {
      var x :| x in c.combatants && x.actorId == Some(actorId);
      var k :| 0 <= k < |c.combatants| && c.combatants[k] == x;
      assert OfActor(actorId)(x) && x in Filter(c.combatants, OfActor(actorId));
    }
    var acting := Filter(c.combatants, OfActor(actorId));
    if acting != [] { assert acting[0] in acting; }
  }

  function ShiftedCombat(c: Combat, req: Request, actorId: Id, now: int): Option<Combat> {
    var shifted := ShiftTurns(c.combatants, actorId, req.initiative, |c.combatants|);
    if shifted.None? then None
    else Some(c.(combatants := TurnOrder(shifted.value, c.manual), updatedAt := NextRevision(c.updatedAt, now)))
  }

  lemma CombatShifts(c: Combat, req: Request, actorId: Id, now: int)
    ensures var d := ShiftedCombat(c, req, actorId, now);
      && (d.None? <==> Acts(c, actorId) && GivesNone(req.initiative, c.combatants))
      && (d.Some? && Acts(c, actorId) ==> CombatShifted(c, d.value, actorId, req.initiative, now))
  {
    var shifted := ShiftTurns(c.combatants, actorId, req.initiative, |c.combatants|);
    ActsIs(c, actorId);
    ShiftGives(c.combatants, actorId, req.initiative, |c.combatants|);
    NewInitiativeIs(req.initiative, c.combatants);
    if shifted.Some? { TurnOrderOrders(shifted.value, c.manual); }
    NextIsRevised(c.updatedAt, now);
  }

  lemma CombatsShift(combats: seq<Combat>, req: Request, actorId: Id, now: int)
    ensures var r := ShiftCombat(combats, req, actorId, now);
      && (r.None? <==> CannotShift(combats, req, actorId))
      && (r.Some? ==> CombatsShifted(combats, r.value.0, req, actorId, now))
  {
    if req.combatId.Some? {
      var k := CombatIndex(combats, req.combatId.value, req.campaignId);
      if k.Some? {
        assert FirstCombat(combats, req.combatId.value, req.campaignId, k.value);
        ActsIs(combats[k.value], actorId);
        CombatShifts(combats[k.value], req, actorId, now);
      } else {
        forall j: nat ensures !FirstCombat(combats, req.combatId.value, req.campaignId, j) {
          if j < |combats| { assert combats[j] in combats; }
        }
      }
    }
  }

  // ----- What is remembered -----

  ghost predicate RemembersTokens(tokens: seq<Token>, actorId: Id, ids: seq<Id>) {
    exists held: seq<Token> ::
      && Thinned(tokens, held, (t: Token) => t.actorId == Some(actorId))
      && |ids| == |held| && forall k :: 0 <= k < |held| ==> ids[k] == held[k].id
  }

  ghost predicate RemembersItems(items: seq<Item>, actorId: Id, shapes: seq<ItemShape>) {
    exists held: seq<Item> ::
      && Thinned(items, held, (x: Item) => x.actorId == Some(actorId))
      && |shapes| == |held|
      && forall k :: 0 <= k < |held| ==> shapes[k] == ItemShape(held[k].id, held[k].actorId, held[k].data)
  }

  ghost predicate RemembersTurns(c: Combat, actorId: Id, turns: seq<TurnShape>) {
    exists acting: seq<Combatant> ::
      && Thinned(c.combatants, acting, (x: Combatant) => x.actorId == Some(actorId))
      && |turns| == |acting|
      && forall k :: 0 <= k < |acting| ==> turns[k] == TurnShape(c.id, acting[k].id, acting[k].initiative)
  }

  /** All the actor held, and the turns it had in the requested combat. */
  ghost predicate Remembers(s: State, req: Request, a: Actor, shift: Shift) {
    && shift.actor == a.shape
    && (if req.suppressItems == Some(true) then RemembersItems(s.items, a.id, shift.items) else shift.items == [])
    && (req.combatId.None? ==> shift.combatants == [])
    && forall k: nat :: req.combatId.Some? && FirstCombat(s.combats, req.combatId.value, req.campaignId, k) ==>
         RemembersTurns(s.combats[k], a.id, shift.combatants)
  }

  lemma TokensRemembered(tokens: seq<Token>, actorId: Id)
    ensures RemembersTokens(tokens, actorId, LinkedTokens(tokens, actorId))
  {
    FilterThins(tokens, (t: Token) => t.actorId == Some(actorId));
  }

  lemma ItemsRemembered(items: seq<Item>, a: Actor)
    ensures RemembersItems(items, a.id, Remembered(items, a, true)) && Remembered(items, a, false) == []
  {
    FilterLeaves(items, HeldBy(a), (x: Item) => x.actorId == Some(a.id));
  }

  lemma TurnsRemembered(c: Combat, actorId: Id)
    ensures RemembersTurns(c, actorId, TurnsOf(c.id, c.combatants, actorId))
  {
    FilterLeaves(c.combatants, OfActor(actorId), (x: Combatant) => x.actorId == Some(actorId));
  }

  lemma ShiftTurnsRemembered(combats: seq<Combat>, req: Request, actorId: Id, now: int, k: nat)
    requires ShiftCombat(combats, req, actorId, now).Some? && req.combatId.Some?
    requires FirstCombat(combats, req.combatId.value, req.campaignId, k)
    ensures RemembersTurns(combats[k], actorId, ShiftCombat(combats, req, actorId, now).value.1)
  {
    assert CombatIndex(combats, req.combatId.value, req.campaignId) == Some(k);
    TurnsRemembered(combats[k], actorId);
  }

  lemma ShiftRemembers(s: State, req: Request, a: Actor, now: int, turns: seq<TurnShape>)
    requires ShiftCombat(s.combats, req, a.id, now).Some? && turns == ShiftCombat(s.combats, req, a.id, now).value.1
    requires req.suppressItems.Some?
    ensures Remembers(s, req, a, Shift(a.shape, Remembered(s.items, a, req.suppressItems.value), turns))
  {
    ItemsRemembered(s.items, a);
    forall k: nat | req.combatId.Some? && FirstCombat(s.combats, req.combatId.value, req.campaignId, k)
      ensures RemembersTurns(s.combats[k], a.id, turns)
    {
      ShiftTurnsRemembered(s.combats, req, a.id, now, k);
    }
  }

  // ----- The whole transformation -----

  /** The actor in its new shape, with its ledgers, and a record of what it was. */
  ghost predicate ActorTransformed(s: State, req: Request, recordId: Id, now: int, a: Actor, b: Actor) {
    && b == Actor(a.id, a.campaignId, b.shape, b.updatedAt) && Revised(a.updatedAt, b.updatedAt, now)
    && b.shape == Shape(Trim(req.name), Trim(req.actorType), req.image, b.shape.data)
    && BodyFor(req.data, a.shape.data.body, req.preserveHp == Some(true), b.shape.data.body)
    && b.shape.data.record.Some?
    && var r := b.shape.data.record.value;
       && r == Creature(recordId, Transformation, Active, r.linkedTokenIds, r.shift, now) && r.shift.Some?
       && RemembersTokens(s.tokens, a.id, r.linkedTokenIds) && Remembers(s, req, a, r.shift.value)
  }

  ghost predicate Transformed(s: State, t: State, req: Request, recordId: Id, now: int, i: nat)
    requires i < |s.actors|
  {
    var a := s.actors[i];
    && |t.actors| == |s.actors| && (forall k :: 0 <= k < |s.actors| && k != i ==> t.actors[k] == s.actors[k])
    && ActorTransformed(s, req, recordId, now, a, t.actors[i])
    && |t.items| == |s.items|
    && (forall k :: 0 <= k < |s.items| ==>
          if req.suppressItems == Some(true) && s.items[k].actorId == Some(a.id)
          then SuppressedItem(s.items[k], t.items[k], recordId, now)
          else t.items[k] == s.items[k])
    && CombatsShifted(s.combats, t.combats, req, a.id, now)
    && t.tokens == s.tokens && t.encounters == s.encounters && t.scenes == s.scenes
  }

  ghost predicate FirstActor(actors: seq<Actor>, id: Id, campaignId: Id, i: nat) {
    && i < |actors| && actors[i].id == id && actors[i].campaignId == campaignId
    && forall k :: 0 <= k < i ==> !(actors[k].id == id && actors[k].campaignId == campaignId)
  }

  lemma ActorTransforms(s: State, req: Request, recordId: Id, now: int, i: nat)
    requires Transform(s, req, recordId, now).Done?
    requires ActorIndex(s.actors, req.targetActorId, req.campaignId) == Some(i)
    ensures var t := Transform(s, req, recordId, now).state;
      && |t.actors| == |s.actors| && (forall k :: 0 <= k < |s.actors| && k != i ==> t.actors[k] == s.actors[k])
      && ActorTransformed(s, req, recordId, now, s.actors[i], t.actors[i])
  {
    var a := s.actors[i];
    ShiftedBodyFor(req, a.shape.data.body);
    TokensRemembered(s.tokens, a.id);
    ShiftRemembers(s, req, a, now, ShiftCombat(s.combats, req, a.id, now).value.1);
    NextIsRevised(a.updatedAt, now);
  }

  lemma ItemsTransform(s: State, req: Request, recordId: Id, now: int, i: nat)
    requires Transform(s, req, recordId, now).Done?
    requires ActorIndex(s.actors, req.targetActorId, req.campaignId) == Some(i)
    ensures var t := Transform(s, req, recordId, now).state;
      |t.items| == |s.items| && forall k :: 0 <= k < |s.items| ==>
        if req.suppressItems == Some(true) && s.items[k].actorId == Some(s.actors[i].id)
        then SuppressedItem(s.items[k], t.items[k], recordId, now)
        else t.items[k] == s.items[k]
  {
    forall k | 0 <= k < |s.items| { SuppressedIs(s.items[k], recordId, now); }
  }

  /** A transformation fails exactly when there is no such actor, the request leaves something
      open, or the actor's turns cannot be shifted. Otherwise the actor has the requested shape
      with the ledgers it keeps and remembers what it was, what it held is suppressed if asked,
      its turns are shifted, and all else stays. */
  lemma TransformChanges(s: State, req: Request, recordId: Id, now: int)
    ensures Transform(s, req, recordId, now).Failed? <==>
      || req.preserveHp.None? || req.suppressItems.None?
      || forall i: nat :: FirstActor(s.actors, req.targetActorId, req.campaignId, i) ==>
           CannotShift(s.combats, req, s.actors[i].id)
    ensures Transform(s, req, recordId, now).Done? ==>
      exists i: nat :: FirstActor(s.actors, req.targetActorId, req.campaignId, i)
        && Transformed(s, Transform(s, req, recordId, now).state, req, recordId, now, i)
  {
    var i := ActorIndex(s.actors, req.targetActorId, req.campaignId);
    if i.Some? {
      assert FirstActor(s.actors, req.targetActorId, req.campaignId, i.value);
      CombatsShift(s.combats, req, s.actors[i.value].id, now);
      if Transform(s, req, recordId, now).Done? {
        ActorTransforms(s, req, recordId, now, i.value);
        ItemsTransform(s, req, recordId, now, i.value);
        assert Transformed(s, Transform(s, req, recordId, now).state, req, recordId, now, i.value);
      }
    } else {
      forall k: nat ensures !FirstActor(s.actors, req.targetActorId, req.campaignId, k) {
        if k < |s.actors| { assert s.actors[k] in s.actors; }
      }
    }
  }

  // ----- Reverting -----

  /** A record that reverting wrote has a later revision, not before now. */
  ghost predicate Advanced(before: int, after: int, now: int) { before < after && now <= after }

  lemma {:induction false} ItemsAdvance(items: seq<Item>, shapes: seq<ItemShape>, campaignId: Id, now: int)
    requires RestoreItems(items, shapes, campaignId, now).Some?
    ensures var r := RestoreItems(items, shapes, campaignId, now).value;
      |r| == |items| && forall k :: 0 <= k < |items| ==>
        r[k] == items[k] || Advanced(items[k].updatedAt, r[k].updatedAt, now)
  {
    if shapes != [] { ItemsAdvance(items, shapes[..|shapes| - 1], campaignId, now); }
  }

  lemma {:induction false} CombatsAdvance(combats: seq<Combat>, turns: seq<TurnShape>, campaignId: Id, now: int)
    requires RestoreTurns(combats, turns, campaignId, now).Some?
    ensures var r := RestoreTurns(combats, turns, campaignId, now).value;
      |r| == |combats| && forall k :: 0 <= k < |combats| ==>
        r[k] == combats[k] || Advanced(combats[k].updatedAt, r[k].updatedAt, now)
  {
    if turns != [] { CombatsAdvance(combats, turns[..|turns| - 1], campaignId, now); }
  }

  /** Reverting gives the actor exactly the remembered shape, and every record it writes a new
      revision. */
  lemma RevertAdvances(s: State, i: nat, shift: Shift, now: int)
    requires i < |s.actors| && Reverted(s, i, shift, now).Done?
    ensures var a, t := s.actors[i], Reverted(s, i, shift, now).state;
      && |t.actors| == |s.actors| && (forall k :: 0 <= k < |s.actors| && k != i ==> t.actors[k] == s.actors[k])
      && t.actors[i] == Actor(a.id, a.campaignId, shift.actor, t.actors[i].updatedAt)
      && Revised(a.updatedAt, t.actors[i].updatedAt, now)
      && |t.items| == |s.items| && |t.combats| == |s.combats|
      && (forall k :: 0 <= k < |s.items| ==>
            t.items[k] == s.items[k] || Advanced(s.items[k].updatedAt, t.items[k].updatedAt, now))
      && (forall k :: 0 <= k < |s.combats| ==>
            t.combats[k] == s.combats[k] || Advanced(s.combats[k].updatedAt, t.combats[k].updatedAt, now))
      && t.tokens == s.tokens && t.encounters == s.encounters && t.scenes == s.scenes
  {
    ItemsAdvance(s.items, shift.items, s.actors[i].campaignId, now);
    CombatsAdvance(s.combats, shift.combatants, s.actors[i].campaignId, now);
    NextIsRevised(s.actors[i].updatedAt, now);
  }
}
