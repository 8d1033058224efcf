/** What ending a creature takes away and what it leaves, record by record. */
module CreatureEnding {
  import opened Json
  import opened Sequences
  import opened Revisions
  import opened Creatures

  /** A new revision: now, or the next one when the record is already that far. */
  ghost predicate Revised(before: int, after: int, now: int) {
    before < after && now <= after && (after == now || after == before + 1)
  }

  ghost predicate Leaves(x: Combatant, a: Actor, linked: seq<Id>) { x.tokenId in linked || x.actorId == Some(a.id) }

  /** The turn that is on after some combatants left: the same place, or the last when there is no such place. */
  ghost predicate TurnKept(turn: int, count: nat, next: int) {
    && (0 <= turn < count ==> next == turn)
    && (turn >= count > 0 ==> next == count - 1)
    && (turn < 0 || count == 0 ==> next == 0)
  }

  ghost predicate CombatLeft(c: Combat, d: Combat, a: Actor, linked: seq<Id>, now: int) {
    if c.campaignId == a.campaignId && exists x <- c.combatants :: Leaves(x, a, linked) then
      && d == Combat(c.id, c.campaignId, d.combatants, d.turnIndex, c.manual, d.updatedAt)
      && Thinned(c.combatants, d.combatants, x => !Leaves(x, a, linked))
      && TurnKept(c.turnIndex, |d.combatants|, d.turnIndex)
      && Revised(c.updatedAt, d.updatedAt, now)
    else d == c
  }

  ghost predicate EncounterLeft(e: Encounter, f: Encounter, a: Actor, linked: seq<Id>, now: int) {
    if e.campaignId == a.campaignId && exists id <- e.tokenIds :: id in linked then
      && f == Encounter(e.id, e.campaignId, f.tokenIds, f.updatedAt)
      && Thinned(e.tokenIds, f.tokenIds, id => id !in linked)
      && Revised(e.updatedAt, f.updatedAt, now)
    else f == e
  }

  ghost predicate Touches(v: Cover, linked: seq<Id>) { v.sourceTokenId in linked || v.targetTokenId in linked }

  /** Covers go only from a scene that held one of the creature's tokens. */
  ghost predicate SceneLeft(x: Scene, y: Scene, tokens: seq<Token>, linked: seq<Id>, now: int) {
    if (exists t <- tokens :: t.id in linked && t.sceneId == x.id) && exists v <- x.covers :: Touches(v, linked) then
      && y == Scene(x.id, y.covers, y.updatedAt)
      && Thinned(x.covers, y.covers, v => !Touches(v, linked))
      && Revised(x.updatedAt, y.updatedAt, now)
    else y == x
  }

  /** The companion stays as it is, but dismissed and without tokens. */
  ghost predicate DismissedActor(a: Actor, b: Actor, record: Creature, now: int) {
    && b == Actor(a.id, a.campaignId, b.shape, b.updatedAt) && Revised(a.updatedAt, b.updatedAt, now)
    && b.shape == Shape(a.shape.name, a.shape.actorType, a.shape.image, b.shape.data)
    && b.shape.data
       == Data(a.shape.data.body, Some(Creature(record.id, record.kind, Dismissed, [], record.shift, now)))
  }

  ghost predicate CreatureLeft(s: State, t: State, i: nat, record: Creature, now: int)
    requires i < |s.actors|
  {
    var a := s.actors[i];
    if record.kind == Companion then
      && t.items == s.items && |t.actors| == |s.actors|
      && (forall k :: 0 <= k < |s.actors| && k != i ==> t.actors[k] == s.actors[k])
      && DismissedActor(a, t.actors[i], record, now)
    else
      && Thinned(s.items, t.items, (x: Item) => x.actorId != Some(a.id))
      && Thinned(s.actors, t.actors, (x: Actor) => x.id != a.id)
  }

  ghost predicate Ended(s: State, t: State, i: nat, record: Creature, now: int)
    requires i < |s.actors|
  {
    var a, linked := s.actors[i], record.linkedTokenIds;
    && CreatureLeft(s, t, i, record, now)
    && Thinned(s.tokens, t.tokens, (x: Token) => x.id !in linked)
    && |t.combats| == |s.combats| && |t.encounters| == |s.encounters| && |t.scenes| == |s.scenes|
    && (forall k :: 0 <= k < |s.combats| ==> CombatLeft(s.combats[k], t.combats[k], a, linked, now))
    && (forall k :: 0 <= k < |s.encounters| ==> EncounterLeft(s.encounters[k], t.encounters[k], a, linked, now))
    && (forall k :: 0 <= k < |s.scenes| ==> SceneLeft(s.scenes[k], t.scenes[k], s.tokens, linked, now))
  }

  // ----- Collection by collection -----

  lemma NextIsRevised(before: int, now: int)
    ensures Revised(before, NextRevision(before, now), now)
  {}

  lemma CombatCut(c: Combat, a: Actor, linked: seq<Id>, now: int)
    ensures CombatLeft(c, CutCombat(c, a, linked, now), a, linked, now)
  {
    ShorterIff(c.combatants, Stays(a, linked));
    FilterLeaves(c.combatants, Stays(a, linked), x => !Leaves(x, a, linked));
    NextIsRevised(c.updatedAt, now);
  }

  lemma EncounterCut(e: Encounter, a: Actor, linked: seq<Id>, now: int)
    ensures EncounterLeft(e, CutEncounter(e, a, linked, now), a, linked, now)
  {
    FilterLeaves(e.tokenIds, Outside(linked), id => id !in linked);
    NextIsRevised(e.updatedAt, now);
  }

  lemma SceneCut(x: Scene, tokens: seq<Token>, linked: seq<Id>, now: int)
    ensures SceneLeft(x, CutScene(x, Filter(tokens, IsLinked(linked)), linked, now), tokens, linked, now)
  {
    ShorterIff(x.covers, Uncovered(linked));
    FilterLeaves(x.covers, Uncovered(linked), v => !Touches(v, linked));
    NextIsRevised(x.updatedAt, now);
  }

  lemma CreatureCut(s: State, i: nat, record: Creature, now: int)
    requires i < |s.actors|
    ensures CreatureLeft(s, EndLinked(s, i, record, now), i, record, now)
  {
    var a := s.actors[i];
    FilterLeaves(s.items, Not(HeldBy(a)), (x: Item) => x.actorId != Some(a.id));
    FilterLeaves(s.actors, Not(IsActor(a)), (x: Actor) => x.id != a.id);
    NextIsRevised(a.updatedAt, now);
  }

  /** Ending any creature but a remembered transformation succeeds exactly when it is active and,
      to expire, has run out. Its tokens leave, what hangs on them leaves with them, and all else
      stays as it was and in order. */
  lemma EndLeaves(s: State, i: nat, reason: Status, expired: bool, now: int)
    requires i < |s.actors| && s.actors[i].shape.data.record.Some?
    requires var r := s.actors[i].shape.data.record.value; r.kind != Transformation || r.shift.None?
    ensures var r, done := s.actors[i].shape.data.record.value, End(s, i, reason, expired, now);
      && (done.Done? <==> r.status == Active && (reason == Expired ==> expired))
      && (done.Done? ==> Ended(s, done.state, i, r, now))
  {
    var a, r := s.actors[i], s.actors[i].shape.data.record.value;
    var t, linked := EndLinked(s, i, r, now), r.linkedTokenIds;
    CreatureCut(s, i, r, now);
    FilterLeaves(s.tokens, Not(IsLinked(linked)), (x: Token) => x.id !in linked);
    forall k | 0 <= k < |s.combats| ensures CombatLeft(s.combats[k], t.combats[k], a, linked, now) {
      CombatCut(s.combats[k], a, linked, now);
    }
    forall k | 0 <= k < |s.encounters| ensures EncounterLeft(s.encounters[k], t.encounters[k], a, linked, now) {
      EncounterCut(s.encounters[k], a, linked, now);
    }
    forall k | 0 <= k < |s.scenes| ensures SceneLeft(s.scenes[k], t.scenes[k], s.tokens, linked, now) {
      SceneCut(s.scenes[k], s.tokens, linked, now);
    }
  }
}
