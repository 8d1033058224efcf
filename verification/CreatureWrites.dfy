/** Ending a creature: what it writes, and what it leaves behind. */
module CreatureWrites {
  import opened Json
  import opened Sequences
  import opened Creatures

  function ActorId(x: Actor): Id { x.id }
  function ItemId(x: Item): Id { x.id }
  function TokenId(x: Token): Id { x.id }
  function CombatId(x: Combat): Id { x.id }
  function EncounterId(x: Encounter): Id { x.id }
  function SceneId(x: Scene): Id { x.id }

  // ----- The revisions a lifecycle change depends on -----

  datatype Revisions = Revisions(
    actors: map<Id, int>, items: map<Id, int>, tokens: map<Id, int>, combats: map<Id, int>, scenes: map<Id, int>,
    encounters: map<Id, int>)

  function Selected<T>(rs: seq<T>, ids: set<Id>, id: T -> Id, revision: T -> int): (m: map<Id, int>)
    ensures forall k :: k in m <==> k in ids && exists x <- rs :: id(x) == k
  {
    if rs == [] then map[]
    else
      var before, x := Selected(rs[..|rs| - 1], ids, id, revision), rs[|rs| - 1];
      assert rs == rs[..|rs| - 1] + [x];
      if id(x) in ids then before[id(x) := revision(x)] else before
  }

  predicate Involves(c: Combat, a: Actor, linked: seq<Id>) {
    c.campaignId == a.campaignId && exists x <- c.combatants :: x.tokenId in linked || x.actorId == Some(a.id)
  }

  predicate Mentions(e: Encounter, a: Actor, linked: seq<Id>) {
    e.campaignId == a.campaignId && exists t <- e.tokenIds :: t in linked
  }

  function ListedItems(s: State, a: Actor, record: Creature): set<Id> {
    (if record.kind == Summon then set x | x in s.items && x.actorId == Some(a.id) :: x.id else {})
    + (if record.shift.Some? then set x | x in record.shift.value.items :: x.id else {})
  }

  function ListedCombats(s: State, a: Actor, record: Creature): set<Id> {
    (set c | c in s.combats && Involves(c, a, record.linkedTokenIds) :: c.id)
    + (if record.shift.Some? then set t | t in record.shift.value.combatants :: t.combatId else {})
  }

  function LifecycleRevisions(s: State, a: Actor): Revisions {
    if a.shape.data.record.None? then Revisions(map[], map[], map[], map[], map[], map[])
    else
      var record := a.shape.data.record.value;
      var linked := record.linkedTokenIds;
      Revisions(
        Selected(s.actors, {a.id}, ActorId, (x: Actor) => x.updatedAt),
        Selected(s.items, ListedItems(s, a, record), ItemId, (x: Item) => x.updatedAt),
        Selected(s.tokens, (set t | t in linked), TokenId, (x: Token) => x.updatedAt),
        Selected(s.combats, ListedCombats(s, a, record), CombatId, (x: Combat) => x.updatedAt),
        Selected(s.scenes, (set t | t in s.tokens && t.id in linked :: t.sceneId), SceneId, (x: Scene) => x.updatedAt),
        Selected(s.encounters, (set e | e in s.encounters && Mentions(e, a, linked) :: e.id), EncounterId,
          (x: Encounter) => x.updatedAt))
  }

  // ----- What is written -----

  /** Every record that was changed, removed or added is listed. */
  ghost predicate Written<T(!new)>(before: seq<T>, after: seq<T>, id: T -> Id, listed: map<Id, int>) {
    && (forall x <- before :: x !in after ==> id(x) in listed)
    && (forall x <- after :: x !in before ==> id(x) in listed)
  }

  ghost predicate WritesListed(s: State, t: State, r: Revisions) {
    && Written(s.actors, t.actors, ActorId, r.actors) && Written(s.items, t.items, ItemId, r.items)
    && Written(s.tokens, t.tokens, TokenId, r.tokens) && Written(s.combats, t.combats, CombatId, r.combats)
    && Written(s.encounters, t.encounters, EncounterId, r.encounters) && Written(s.scenes, t.scenes, SceneId, r.scenes)
  }

  lemma MapWritten<T(!new)>(before: seq<T>, f: T -> T, id: T -> Id, listed: map<Id, int>)
    requires forall x <- before :: f(x) != x ==> id(f(x)) == id(x) && id(x) in listed
    ensures Written(before, Map(before, f), id, listed)
  {
    var after := Map(before, f);
    forall x <- before | x !in after ensures id(x) in listed {
      var i :| 0 <= i < |before| && before[i] == x;
      assert after[i] == f(x);
    }
    forall y <- after | y !in before ensures id(y) in listed {
      var i :| 0 <= i < |after| && after[i] == y;
      assert y == f(before[i]);
    }
  }

  lemma FilterWritten<T(!new)>(before: seq<T>, keep: T -> bool, id: T -> Id, listed: map<Id, int>)
    requires forall x <- before :: !keep(x) ==> id(x) in listed
    ensures Written(before, Filter(before, keep), id, listed)
  {}

  lemma UpdateWritten<T(!new)>(before: seq<T>, i: nat, y: T, id: T -> Id, listed: map<Id, int>)
    requires i < |before| && id(y) == id(before[i]) && id(y) in listed
    ensures Written(before, before[i := y], id, listed)
  {
    forall k | 0 <= k < |before| && k != i ensures before[k] in before[i := y] {
      assert before[i := y][k] == before[k];
    }
  }

  lemma CombatsWritten(s: State, a: Actor, record: Creature, now: int)
    requires a.shape.data.record == Some(record)
    ensures Written(s.combats, Map(s.combats, c => CutCombat(c, a, record.linkedTokenIds, now)), CombatId,
      LifecycleRevisions(s, a).combats)
  {
    var linked, listed := record.linkedTokenIds, LifecycleRevisions(s, a).combats;
    forall c <- s.combats | CutCombat(c, a, linked, now) != c ensures c.id in listed {
      ShorterIff(c.combatants, Stays(a, linked));
      assert Involves(c, a, linked);
      assert CombatId(c) == c.id && c.id in ListedCombats(s, a, record);
    }
    MapWritten(s.combats, c => CutCombat(c, a, linked, now), CombatId, listed);
  }

  lemma EncountersWritten(s: State, a: Actor, record: Creature, now: int)
    requires a.shape.data.record == Some(record)
    ensures Written(s.encounters, Map(s.encounters, e => CutEncounter(e, a, record.linkedTokenIds, now)), EncounterId,
      LifecycleRevisions(s, a).encounters)
  {
    var linked, listed := record.linkedTokenIds, LifecycleRevisions(s, a).encounters;
    forall e <- s.encounters | CutEncounter(e, a, linked, now) != e ensures e.id in listed {
      assert Mentions(e, a, linked) && EncounterId(e) == e.id;
    }
    MapWritten(s.encounters, e => CutEncounter(e, a, linked, now), EncounterId, listed);
  }

  lemma ScenesWritten(s: State, a: Actor, record: Creature, now: int)
    requires a.shape.data.record == Some(record)
    ensures var removed := Filter(s.tokens, IsLinked(record.linkedTokenIds));
      Written(s.scenes, Map(s.scenes, x => CutScene(x, removed, record.linkedTokenIds, now)), SceneId,
        LifecycleRevisions(s, a).scenes)
  {
    var linked, listed := record.linkedTokenIds, LifecycleRevisions(s, a).scenes;
    var removed := Filter(s.tokens, IsLinked(linked));
    forall x <- s.scenes | CutScene(x, removed, linked, now) != x ensures x.id in listed {
      var t :| t in removed && t.sceneId == x.id;
      assert t in s.tokens && t.id in linked && SceneId(x) == x.id;
    }
    MapWritten(s.scenes, x => CutScene(x, removed, linked, now), SceneId, listed);
  }

  lemma TokensWritten(s: State, a: Actor, record: Creature)
    requires a.shape.data.record == Some(record)
    ensures Written(s.tokens, Filter(s.tokens, Not(IsLinked(record.linkedTokenIds))), TokenId,
      LifecycleRevisions(s, a).tokens)
  {
    forall t <- s.tokens | t.id in record.linkedTokenIds ensures TokenId(t) in LifecycleRevisions(s, a).tokens {
      assert TokenId(t) == t.id;
    }
    FilterWritten(s.tokens, Not(IsLinked(record.linkedTokenIds)), TokenId, LifecycleRevisions(s, a).tokens);
  }

  /** The actor's items that go are listed, unless the record is a transformation that remembers nothing. */
  lemma HeldItemsWritten(s: State, a: Actor, record: Creature)
    requires a.shape.data.record == Some(record) && UniqueItems(s.items)
    requires record.kind != Companion && (record.kind == Transformation ==> record.shift.None?)
    ensures Written(s.items, Filter(s.items, Not(HeldBy(a))), ItemId, LifecycleRevisions(s, a).items)
            <==> record.kind == Summon || forall x <- s.items :: !HeldBy(a)(x)
  {
    var listed, after := LifecycleRevisions(s, a).items, Filter(s.items, Not(HeldBy(a)));
    if record.kind == Summon {
      forall x <- s.items | HeldBy(a)(x) ensures ItemId(x) in listed {
        assert ItemId(x) == x.id && x.id in ListedItems(s, a, record);
      }
      FilterWritten(s.items, Not(HeldBy(a)), ItemId, listed);
    } else {
      assert listed.Keys == {} by { assert ListedItems(s, a, record) == {}; }
      if forall x <- s.items :: !HeldBy(a)(x) {
        FilterWritten(s.items, Not(HeldBy(a)), ItemId, listed);
      } else {
        var x :| x in s.items && HeldBy(a)(x);
        assert x !in after && ItemId(x) !in listed;
      }
    }
  }

  ghost predicate UniqueItems(items: seq<Item>) { forall i, j :: 0 <= i < j < |items| ==> items[i].id != items[j].id }

  // ----- Reverting a transformation -----

  /** Position by position the same records, changed only where the id is one of `ids`. */
  ghost predicate Pointwise<T(!new)>(before: seq<T>, after: seq<T>, id: T -> Id, ids: set<Id>) {
    |after| == |before| && forall k :: 0 <= k < |before| ==>
      id(after[k]) == id(before[k]) && (after[k] == before[k] || id(before[k]) in ids)
  }

  lemma PointwiseWritten<T(!new)>(before: seq<T>, after: seq<T>, id: T -> Id, ids: set<Id>, listed: map<Id, int>)
    requires Pointwise(before, after, id, ids) && forall x <- before :: id(x) in ids ==> id(x) in listed
    ensures Written(before, after, id, listed)
  {
    forall x <- before | x !in after ensures id(x) in listed {
      var k :| 0 <= k < |before| && before[k] == x;
      assert after[k] in after;
    }
    forall x <- after | x !in before ensures id(x) in listed {
      var k :| 0 <= k < |after| && after[k] == x;
      assert before[k] in before;
    }
  }

  lemma PointwiseUpdate<T(!new)>(before: seq<T>, mid: seq<T>, k: nat, y: T, id: T -> Id, ids: set<Id>, more: set<Id>)
    requires Pointwise(before, mid, id, ids) && k < |mid| && id(y) == id(mid[k]) && id(y) in more && ids <= more
    ensures Pointwise(before, mid[k := y], id, more)
  {
    assert id(mid[k]) == id(before[k]);
  }

  function ShapeIds(shapes: seq<ItemShape>): set<Id> { set x | x in shapes :: x.id }

  lemma {:induction false} RestoredItemsPointwise(items: seq<Item>, shapes: seq<ItemShape>, campaignId: Id, now: int)
    requires RestoreItems(items, shapes, campaignId, now).Some?
    ensures Pointwise(items, RestoreItems(items, shapes, campaignId, now).value, ItemId, ShapeIds(shapes))
  {
    if shapes != [] {
      var first, last := shapes[..|shapes| - 1], shapes[|shapes| - 1];
      RestoredItemsPointwise(items, first, campaignId, now);
      var mid := RestoreItems(items, first, campaignId, now).value;
      var k := ItemIndex(mid, last.id, campaignId).value;
      assert last in shapes && forall x <- first :: x in shapes;
      PointwiseUpdate(items, mid, k, RestoreItem(mid[k], last, now), ItemId, ShapeIds(first), ShapeIds(shapes));
    }
  }

  function TurnCombats(turns: seq<TurnShape>): set<Id> { set t | t in turns :: t.combatId }

  lemma {:induction false} RestoredTurnsPointwise(combats: seq<Combat>, turns: seq<TurnShape>, campaignId: Id, now: int)
    requires RestoreTurns(combats, turns, campaignId, now).Some?
    ensures Pointwise(combats, RestoreTurns(combats, turns, campaignId, now).value, CombatId, TurnCombats(turns))
  {
    if turns != [] {
      var first, last := turns[..|turns| - 1], turns[|turns| - 1];
      RestoredTurnsPointwise(combats, first, campaignId, now);
      var mid := RestoreTurns(combats, first, campaignId, now).value;
      var k := CombatIndex(mid, last.combatId, campaignId).value;
      var i := CombatantIndex(mid[k].combatants, last.combatantId).value;
      assert last in turns && forall t <- first :: t in turns;
      PointwiseUpdate(combats, mid, k, RestoreTurn(mid[k], i, last.initiative, now), CombatId, TurnCombats(first),
        TurnCombats(turns));
    }
  }

  lemma RevertedWritesListed(s: State, i: nat, record: Creature, shift: Shift, now: int)
    requires i < |s.actors| && s.actors[i].shape.data.record == Some(record) && record.shift == Some(shift)
    requires Reverted(s, i, shift, now).Done?
    ensures WritesListed(s, Reverted(s, i, shift, now).state, LifecycleRevisions(s, s.actors[i]))
  {
    var a, t, r := s.actors[i], Reverted(s, i, shift, now).state, LifecycleRevisions(s, s.actors[i]);
    assert ActorId(a) in r.actors;
    UpdateWritten(s.actors, i, t.actors[i], ActorId, r.actors);
    RestoredItemsPointwise(s.items, shift.items, a.campaignId, now);
    forall x <- s.items | ItemId(x) in ShapeIds(shift.items) ensures ItemId(x) in r.items {
      assert ItemId(x) in ListedItems(s, a, record);
    }
    PointwiseWritten(s.items, t.items, ItemId, ShapeIds(shift.items), r.items);
    RestoredTurnsPointwise(s.combats, shift.combatants, a.campaignId, now);
    forall c <- s.combats | CombatId(c) in TurnCombats(shift.combatants) ensures CombatId(c) in r.combats {
      assert CombatId(c) in ListedCombats(s, a, record);
    }
    PointwiseWritten(s.combats, t.combats, CombatId, TurnCombats(shift.combatants), r.combats);
  }

  lemma LinkedWritesListed(s: State, i: nat, record: Creature, now: int)
    requires i < |s.actors| && s.actors[i].shape.data.record == Some(record) && UniqueItems(s.items)
    requires record.kind == Transformation ==> record.shift.None?
    ensures WritesListed(s, EndLinked(s, i, record, now), LifecycleRevisions(s, s.actors[i]))
            <==> !(record.kind == Transformation && exists x <- s.items :: HeldBy(s.actors[i])(x))
  {
    var a, t, r := s.actors[i], EndLinked(s, i, record, now), LifecycleRevisions(s, s.actors[i]);
    TokensWritten(s, a, record);
    CombatsWritten(s, a, record, now);
    EncountersWritten(s, a, record, now);
    ScenesWritten(s, a, record, now);
    assert ActorId(a) in r.actors;
    if record.kind == Companion {
      UpdateWritten(s.actors, i, t.actors[i], ActorId, r.actors);
    } else {
      ActorsWritten(s, i, record);
      HeldItemsWritten(s, a, record);
    }
  }

  lemma ActorsWritten(s: State, i: nat, record: Creature)
    requires i < |s.actors| && s.actors[i].shape.data.record == Some(record)
    ensures Written(s.actors, Filter(s.actors, Not(IsActor(s.actors[i]))), ActorId,
      LifecycleRevisions(s, s.actors[i]).actors)
  {
    var a := s.actors[i];
    forall x <- s.actors | IsActor(a)(x) ensures ActorId(x) in LifecycleRevisions(s, a).actors {
      assert ActorId(x) in {a.id};
    }
    FilterWritten(s.actors, Not(IsActor(a)), ActorId, LifecycleRevisions(s, a).actors);
  }

  /** Ending a creature writes only records whose revisions its lifecycle lists, except when it
      is a transformation that remembers nothing and the actor holds items: exactly then it
      removes items that are not listed. */
  lemma EndWritesListedIff(s: State, i: nat, reason: Status, expired: bool, now: int)
    requires i < |s.actors| && End(s, i, reason, expired, now).Done? && UniqueItems(s.items)
    ensures var a, t := s.actors[i], End(s, i, reason, expired, now).state;
      WritesListed(s, t, LifecycleRevisions(s, a))
      <==> !(a.shape.data.record.value.kind == Transformation && a.shape.data.record.value.shift.None? &&
            exists x <- s.items :: HeldBy(a)(x))
  {
    var record := s.actors[i].shape.data.record.value;
    if record.kind == Transformation && record.shift.Some? {
      RevertedWritesListed(s, i, record, record.shift.value, now);
    } else {
      LinkedWritesListed(s, i, record, now);
    }
  }

  /** The exception does occur: an item goes that no revision guards. */
  lemma ForgottenItemIsUnlisted() returns (s: State)
    ensures |s.actors| == 1 && UniqueItems(s.items) && End(s, 0, Dismissed, false, 0).Done?
    ensures !WritesListed(s, End(s, 0, Dismissed, false, 0).state, LifecycleRevisions(s, s.actors[0]))
  {
    var record := Creature("ccr", Transformation, Active, [], None, 0);
    var a := Actor("act", "camp", Shape("Wolf", "beast", None, Data(Object([]), Some(record))), 0);
    var x := Item("item", "camp", Some("act"), Object([]), 0);
    s := State([a], [x], [], [], [], []);
    assert HeldBy(a)(x) && x in s.items;
    EndWritesListedIff(s, 0, Dismissed, false, 0);
  }

  // ----- The revision check -----

  function FirstWithId<T>(rs: seq<T>, id: T -> Id, k: Id): (r: Option<T>)
    ensures r.Some? ==> r.value in rs && id(r.value) == k
    ensures r.None? ==> forall x <- rs :: id(x) != k
  {
    if rs == [] then None else if id(rs[0]) == k then Some(rs[0]) else FirstWithId(rs[1..], id, k)
  }

  /** The records required are there with the revisions required, which are those expected. */
  predicate Matches<T>(rs: seq<T>, id: T -> Id, revision: T -> int, expected: map<Id, int>, required: map<Id, int>) {
    forall k <- required :: k in expected && expected[k] == required[k]
      && FirstWithId(rs, id, k).Some? && revision(FirstWithId(rs, id, k).value) == required[k]
  }

  predicate RevisionsMatch(s: State, expected: Revisions, required: Revisions) {
    && Matches(s.actors, ActorId, (x: Actor) => x.updatedAt, expected.actors, required.actors)
    && Matches(s.items, ItemId, (x: Item) => x.updatedAt, expected.items, required.items)
    && Matches(s.tokens, TokenId, (x: Token) => x.updatedAt, expected.tokens, required.tokens)
    && Matches(s.combats, CombatId, (x: Combat) => x.updatedAt, expected.combats, required.combats)
    && Matches(s.scenes, SceneId, (x: Scene) => x.updatedAt, expected.scenes, required.scenes)
    && Matches(s.encounters, EncounterId, (x: Encounter) => x.updatedAt, expected.encounters, required.encounters)
  }

  ghost predicate Unique<T>(rs: seq<T>, id: T -> Id) { forall i, j :: 0 <= i < j < |rs| ==> id(rs[i]) != id(rs[j]) }

  /** Every record that changes or goes still has the revision the caller expected. */
  ghost predicate Expected<T(!new)>(before: seq<T>, after: seq<T>, id: T -> Id, revision: T -> int,
    expected: map<Id, int>)
  {
    forall x <- before :: x !in after ==> id(x) in expected && expected[id(x)] == revision(x)
  }

  lemma MatchCovers<T(!new)>(
    before: seq<T>, after: seq<T>, id: T -> Id, revision: T -> int, expected: map<Id, int>, required: map<Id, int>)
    requires Written(before, after, id, required) && Matches(before, id, revision, expected, required)
      && Unique(before, id)
    ensures Expected(before, after, id, revision, expected)
  {
    forall x <- before | x !in after ensures id(x) in expected && expected[id(x)] == revision(x) {
      var y := FirstWithId(before, id, id(x)).value;
      var i :| 0 <= i < |before| && before[i] == x;
      var j :| 0 <= j < |before| && before[j] == y;
      assert i == j;
    }
  }

  ghost predicate UniqueIds(s: State) {
    && Unique(s.actors, ActorId) && Unique(s.items, ItemId) && Unique(s.tokens, TokenId) && Unique(s.combats, CombatId)
    && Unique(s.scenes, SceneId) && Unique(s.encounters, EncounterId)
  }

  /** A passed revision check covers the whole write set: whatever ending the creature changes
      or removes has the revision the caller saw. Only a transformation that remembers nothing
      is excepted, when its actor holds items. */
  lemma PassedCheckCoversWrites(s: State, i: nat, reason: Status, expired: bool, now: int, expected: Revisions)
    requires i < |s.actors| && End(s, i, reason, expired, now).Done? && UniqueIds(s)
    requires RevisionsMatch(s, expected, LifecycleRevisions(s, s.actors[i]))
    requires var record := s.actors[i].shape.data.record.value;
      !(record.kind == Transformation && record.shift.None? && exists x <- s.items :: HeldBy(s.actors[i])(x))
    ensures var t := End(s, i, reason, expired, now).state;
      && Expected(s.actors, t.actors, ActorId, (x: Actor) => x.updatedAt, expected.actors)
      && Expected(s.items, t.items, ItemId, (x: Item) => x.updatedAt, expected.items)
      && Expected(s.tokens, t.tokens, TokenId, (x: Token) => x.updatedAt, expected.tokens)
      && Expected(s.combats, t.combats, CombatId, (x: Combat) => x.updatedAt, expected.combats)
      && Expected(s.scenes, t.scenes, SceneId, (x: Scene) => x.updatedAt, expected.scenes)
      && Expected(s.encounters, t.encounters, EncounterId, (x: Encounter) => x.updatedAt, expected.encounters)
  {
    var t, r := End(s, i, reason, expired, now).state, LifecycleRevisions(s, s.actors[i]);
    assert UniqueItems(s.items) by {
      forall j, k | 0 <= j < k < |s.items| ensures s.items[j].id != s.items[k].id {
        assert ItemId(s.items[j]) != ItemId(s.items[k]);
      }
    }
    EndWritesListedIff(s, i, reason, expired, now);
    MatchCovers(s.actors, t.actors, ActorId, (x: Actor) => x.updatedAt, expected.actors, r.actors);
    MatchCovers(s.items, t.items, ItemId, (x: Item) => x.updatedAt, expected.items, r.items);
    MatchCovers(s.tokens, t.tokens, TokenId, (x: Token) => x.updatedAt, expected.tokens, r.tokens);
    MatchCovers(s.combats, t.combats, CombatId, (x: Combat) => x.updatedAt, expected.combats, r.combats);
    MatchCovers(s.scenes, t.scenes, SceneId, (x: Scene) => x.updatedAt, expected.scenes, r.scenes);
    MatchCovers(s.encounters, t.encounters, EncounterId, (x: Encounter) => x.updatedAt, expected.encounters,
      r.encounters);
  }

  // ----- What is left behind -----

  predicate TurnInRange(c: Combat) { 0 <= c.turnIndex && (c.turnIndex == 0 || c.turnIndex < |c.combatants|) }

  lemma CutCombatForgets(c: Combat, a: Actor, linked: seq<Id>, now: int)
    requires c.campaignId == a.campaignId
    ensures var d := CutCombat(c, a, linked, now);
      && (forall x <- d.combatants :: x.tokenId !in linked && x.actorId != Some(a.id))
      && (TurnInRange(c) || d != c ==> TurnInRange(d))
  {
    ShorterIff(c.combatants, Stays(a, linked));
  }

  lemma CutSceneForgets(x: Scene, removed: seq<Token>, linked: seq<Id>, now: int)
    requires exists t <- removed :: t.sceneId == x.id
    ensures forall v <- CutScene(x, removed, linked, now).covers ::
      v.sourceTokenId !in linked && v.targetTokenId !in linked
  {
    ShorterIff(x.covers, Uncovered(linked));
  }

  ghost predicate CombatForgets(c: Combat, a: Actor, linked: seq<Id>) {
    c.campaignId == a.campaignId ==> forall x <- c.combatants :: x.tokenId !in linked && x.actorId != Some(a.id)
  }

  ghost predicate EncounterForgets(e: Encounter, a: Actor, linked: seq<Id>) {
    e.campaignId == a.campaignId ==> forall id <- e.tokenIds :: id !in linked
  }

  ghost predicate SceneForgets(x: Scene, s: State, linked: seq<Id>) {
    HeldToken(s, x.id, linked) ==> forall v <- x.covers :: v.sourceTokenId !in linked && v.targetTokenId !in linked
  }

  predicate HeldToken(s: State, sceneId: Id, linked: seq<Id>) {
    exists t <- s.tokens :: t.sceneId == sceneId && t.id in linked
  }

  lemma CombatsForget(s: State, a: Actor, linked: seq<Id>, now: int)
    ensures forall c <- Unlinked(s, a, linked, now).combats :: CombatForgets(c, a, linked)
    ensures (forall c <- s.combats :: TurnInRange(c))
      ==> forall c <- Unlinked(s, a, linked, now).combats :: TurnInRange(c)
  {
    forall c <- s.combats | c.campaignId == a.campaignId
      ensures CombatForgets(CutCombat(c, a, linked, now), a, linked)
        && (TurnInRange(c) ==> TurnInRange(CutCombat(c, a, linked, now))) {
      CutCombatForgets(c, a, linked, now);
    }
  }

  lemma ScenesForget(s: State, a: Actor, linked: seq<Id>, now: int)
    ensures forall x <- Unlinked(s, a, linked, now).scenes :: SceneForgets(x, s, linked)
  {
    var removed := Filter(s.tokens, IsLinked(linked));
    forall x <- s.scenes ensures SceneForgets(CutScene(x, removed, linked, now), s, linked) {
      if HeldToken(s, x.id, linked) {
        var t :| t in s.tokens && t.sceneId == x.id && t.id in linked;
        assert IsLinked(linked)(t) && t in removed;
        CutSceneForgets(x, removed, linked, now);
      }
    }
  }

  /** After a creature other than a transformation has ended, no token of it is left, no combat
      or encounter of its campaign mentions them, no scene that held one has a cover at one,
      and turns stay in range. */
  lemma NothingMentionsRemoved(s: State, i: nat, record: Creature, now: int)
    requires i < |s.actors|
    ensures var a, t, linked := s.actors[i], EndLinked(s, i, record, now), record.linkedTokenIds;
      && (forall x <- t.tokens :: x.id !in linked)
      && (forall c <- t.combats :: CombatForgets(c, a, linked))
      && (forall e <- t.encounters :: EncounterForgets(e, a, linked))
      && (forall x <- t.scenes :: SceneForgets(x, s, linked))
      && ((forall c <- s.combats :: TurnInRange(c)) ==> forall c <- t.combats :: TurnInRange(c))
  {
    var a, linked := s.actors[i], record.linkedTokenIds;
    CombatsForget(s, a, linked, now);
    ScenesForget(s, a, linked, now);
    forall e <- s.encounters ensures EncounterForgets(CutEncounter(e, a, linked, now), a, linked) {}
  }
}
