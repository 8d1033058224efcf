/** Importing an exported selection: which references the import finds missing. */
module ExportReferences {
  import opened Json
  import opened ExportClosure

  // ----- What the import validates -----

  function UpdateKeys(a: Action): set<Key> { Many(Actors, a.actorUpdateIds) + Many(Actors, a.effectActorIds) }

  function CheckedActionKeys(a: Action): set<Key> {
    One(Actors, a.actorId) + Many(Actors, a.targetActorIds) + Many(Items, a.itemIds) + UpdateKeys(a)
  }

  /** References that must resolve for the record to be accepted. */
  function Checked(r: Record): set<Key> {
    match r
    case Scene(_, _, w, a) => One(Worlds, w) + One(Assets, a)
    case Token(_, s, a, i) => {(Scenes, s)} + One(Actors, a) + One(Assets, i)
    case Actor(_, _, w, i) => One(Worlds, w) + One(Assets, i)
    case Item(_, _, w, a) => One(Worlds, w) + One(Actors, a)
    case Journal(_, _, w, p, _) => One(Worlds, w) + One(Journals, p)
    case Encounter(_, _, w, t, p) => One(Worlds, w) + Many(Tokens, t) + Many(Actors, p)
    case Combat(_, _, e, cs, xs) =>
      One(Encounters, e)
      + (set i, k | 0 <= i < |cs| && k in CombatantKeys(cs[i]) :: k)
      + (set i, k | 0 <= i < |xs| && k in CheckedActionKeys(xs[i]) :: k)
    case CampaignSession(_, _, s, e, j) => Many(Scenes, s) + Many(Encounters, e) + One(Journals, j)
    case ChatMessage(_, _, s, r, _) => One(Scenes, s) + One(Rolls, r)
    case _ => {}
  }

  function FindRecord(rs: seq<Record>, id: Id): (r: Option<Record>)
    ensures r.Some? ==> r.value in rs && r.value.id == id
    ensures r.None? ==> forall x :: x in rs ==> x.id != id
  {
    if rs == [] then None else if rs[0].id == id then Some(rs[0]) else FindRecord(rs[1..], id)
  }

  /** Existing records win over incoming ones. */
  function RecordFor(existing: State, archive: State, k: Key): Option<Record> {
    var r := FindRecord(Records(existing, k.0), k.1);
    if r.Some? then r else FindRecord(Records(archive, k.0), k.1)
  }

  /** The campaign of a record; a token belongs to its scene's. */
  function CampaignFor(existing: State, archive: State, k: Key): Option<Id> {
    var r := RecordFor(existing, archive, k);
    if r.None? then None
    else if r.value.Token? then
      var s := RecordFor(existing, archive, (Scenes, r.value.sceneId));
      if s.None? || s.value.Token? then None else Some(s.value.campaignId)
    else Some(r.value.campaignId)
  }

  ghost predicate NoMissing(existing: State, archive: State) {
    forall c, r, k :: r in Records(archive, c) && k in Checked(r) ==> CampaignFor(existing, archive, k).Some?
  }

  // ----- Exports of complete campaigns -----

  /** Collections hold records of their own kind. */
  ghost predicate Typed(s: State) {
    forall c, r :: r in Records(s, c) ==> (r.Token? <==> c == Tokens)
  }

  ghost predicate ScenesPresent(s: State) {
    forall r :: r in Records(s, Tokens) && r.Token? ==> (Scenes, r.sceneId) in Keys(s)
  }

  /** Every reference of the source resolves inside it. */
  ghost predicate Complete(source: State) {
    forall c, r, k :: r in Records(source, c) && k in Checked(r) + Follow(r) ==> k in Keys(source)
  }

  /** The references the import checks and the export does not follow: the actors that the
      actions of exported combats updated or affected. */
  ghost predicate ActionActorsResolve(existing: State, archive: State) {
    forall r, i, k :: r in Records(archive, Combats) && r.Combat? && 0 <= i < |r.actions|
      && k in UpdateKeys(r.actions[i])
      ==> k in Keys(existing) + Keys(archive)
  }

  lemma CheckedIsFollowed(r: Record, k: Key)
    requires k in Checked(r)
    ensures k in Follow(r) || (r.Combat? && exists i :: 0 <= i < |r.actions| && k in UpdateKeys(r.actions[i]))
  {
    if r.Combat? && k !in One(Encounters, r.encounterId) {
      if i :| 0 <= i < |r.combatants| && k in CombatantKeys(r.combatants[i]) {
      } else {
        var i :| 0 <= i < |r.actions| && k in CheckedActionKeys(r.actions[i]);
        if k !in UpdateKeys(r.actions[i]) { assert k in ActionKeys(r.actions[i]); }
      }
    }
  }

  /** What the export follows and the import does not check: everything in world records, world
      relations and overrides, who may see a journal, what a message replies to, and the rolls of
      combat actions. */
  ghost predicate OnlyFollowed(r: Record, k: Key) {
    || r.WorldRecord? || r.WorldRelation? || r.CalculationOverride?
    || (r.Journal? && k.0 == Actors) || (r.ChatMessage? && k.0 == Chat) || (r.Combat? && k.0 == Rolls)
  }

  /** The actor was updated or affected by an action of the combat. */
  ghost predicate Updates(r: Record, k: Key) {
    r.Combat? && k.0 == Actors && exists a <- r.actions :: k.1 in a.actorUpdateIds || k.1 in a.effectActorIds
  }

  lemma CombatChecks(r: Record, k: Key)
    requires r.Combat?
    ensures k in Checked(r) <==>
      || k in One(Encounters, r.encounterId)
      || (exists x <- r.combatants :: k in CombatantKeys(x)) || (exists a <- r.actions :: k in CheckedActionKeys(a))
  {
    if x :| x in r.combatants && k in CombatantKeys(x) {
      var i :| 0 <= i < |r.combatants| && r.combatants[i] == x;
      assert k in CombatantKeys(r.combatants[i]);
    }
    if a :| a in r.actions && k in CheckedActionKeys(a) {
      var i :| 0 <= i < |r.actions| && r.actions[i] == a;
      assert k in CheckedActionKeys(r.actions[i]);
    }
  }

  lemma ActionChecks(a: Action, k: Key)
    ensures k in CheckedActionKeys(a) <==>
      || (k in ActionKeys(a) && k.0 != Rolls) || (k.0 == Actors && (k.1 in a.actorUpdateIds || k.1 in a.effectActorIds))
  {}

  lemma CombatChecksAre(r: Record, k: Key)
    requires r.Combat?
    ensures k in Checked(r) <==> (k in Follow(r) && k.0 != Rolls) || Updates(r, k)
  {
    CombatChecks(r, k);
    CombatFollowsAre(r, k);
    forall x <- r.combatants { CombatantRefers(x, k); }
    forall a <- r.actions { ActionChecks(a, k); }
    forall a <- r.actions { ActionRefers(a, k); }
  }

  /** The import checks exactly what the export follows, apart from that, and besides the actors
      that combat actions updated or affected. */
  lemma CheckedIs(r: Record, k: Key)
    ensures k in Checked(r) <==> (Refers(r, k) && !OnlyFollowed(r, k)) || Updates(r, k)
  {
    FollowIs(r, k);
    if r.Combat? { CombatChecksAre(r, k); }
  }

  /** The import finds a record exactly when it is there already or comes with the archive. */
  lemma PresentIsFound(existing: State, archive: State, k: Key)
    ensures RecordFor(existing, archive, k).Some? <==> k in Keys(existing) + Keys(archive)
  {
    KeysByIds(existing, k);
    KeysByIds(archive, k);
    FindById(Records(existing, k.0), k.1);
    FindById(Records(archive, k.0), k.1);
  }

  lemma FindById(rs: seq<Record>, id: Id)
    ensures FindRecord(rs, id).Some? <==> id in Ids(rs)
  {
    if id in Ids(rs) { var i :| 0 <= i < |rs| && rs[i].id == id; }
  }

  lemma PresentResolves(existing: State, archive: State, k: Key)
    requires Typed(existing) && Typed(archive) && ScenesPresent(existing) && ScenesPresent(archive)
    requires k in Keys(existing) + Keys(archive)
    ensures CampaignFor(existing, archive, k).Some?
  {
    PresentIsFound(existing, archive, k);
    var r := RecordFor(existing, archive, k).value;
    if r.Token? {
      var s := if r in Records(existing, k.0) then existing else archive;
      assert r in Records(s, Tokens);
      var j :| 0 <= j < |s[Scenes]| && s[Scenes][j].id == r.sceneId;
      assert s[Scenes][j] in Records(s, Scenes);
    }
  }

  /** A selection closed by the export misses a reference on import exactly when an actor
      updated or affected by an action of an exported combat is neither exported nor there. */
  lemma ExportMissesOnlyActionActors(source: State, data: State, existing: State)
    requires UniqueIds(source) && Selects(data, source) && Closed(source, Keys(data))
    requires Typed(source) && Complete(source) && Typed(existing) && ScenesPresent(existing)
    requires forall r :: r in Records(source, Combats) ==> r.Combat?
    requires forall c, r :: r in Records(source, c) && r.Combat? ==> c == Combats
    ensures NoMissing(existing, data) <==> ActionActorsResolve(existing, data)
  {
    SelectionTyped(data, source);
    if NoMissing(existing, data) { NoMissingResolves(existing, data); }
    if ActionActorsResolve(existing, data) {
      forall c, r, k | r in Records(data, c) && k in Checked(r) ensures CampaignFor(existing, data, k).Some? {
        CheckedResolves(source, data, existing, c, r, k);
      }
    }
  }

  lemma UpdatesAreChecked(r: Record, i: nat, k: Key)
    requires r.Combat? && i < |r.actions| && k in UpdateKeys(r.actions[i])
    ensures k in Checked(r)
  {
    assert k in CheckedActionKeys(r.actions[i]);
  }

  lemma NoMissingResolves(existing: State, data: State)
    requires NoMissing(existing, data)
    ensures ActionActorsResolve(existing, data)
  {
    forall r, i, k | r in Records(data, Combats) && r.Combat? && 0 <= i < |r.actions| && k in UpdateKeys(r.actions[i])
      ensures k in Keys(existing) + Keys(data)
    {
      UpdatesAreChecked(r, i, k);
      assert CampaignFor(existing, data, k).Some?;
      PresentIsFound(existing, data, k);
    }
  }

  lemma SelectionTyped(data: State, source: State)
    requires Selects(data, source) && Closed(source, Keys(data)) && Typed(source) && Complete(source)
    ensures Typed(data) && ScenesPresent(data)
  {
    forall c, r | r in Records(data, c) ensures r.Token? <==> c == Tokens { SelectedRecord(data, source, c, r); }
    forall r | r in Records(data, Tokens) && r.Token? ensures (Scenes, r.sceneId) in Keys(data) {
      SelectedRecord(data, source, Tokens, r);
      assert (Scenes, r.sceneId) in Checked(r) + Follow(r);
      FollowedIsSelected(data, source, Tokens, r, (Scenes, r.sceneId));
    }
  }

  lemma CheckedResolves(source: State, data: State, existing: State, c: Coll, r: Record, k: Key)
    requires Selects(data, source) && Closed(source, Keys(data)) && Typed(source) && Complete(source)
    requires Typed(data) && ScenesPresent(data) && Typed(existing) && ScenesPresent(existing)
    requires forall c, r :: r in Records(source, c) && r.Combat? ==> c == Combats
    requires ActionActorsResolve(existing, data)
    requires r in Records(data, c) && k in Checked(r)
    ensures CampaignFor(existing, data, k).Some?
  {
    SelectedRecord(data, source, c, r);
    CheckedIsFollowed(r, k);
    if k in Follow(r) {
      assert k in Checked(r) + Follow(r);
      FollowedIsSelected(data, source, c, r, k);
    }
    PresentResolves(existing, data, k);
  }

  lemma SelectedRecord(data: State, source: State, c: Coll, r: Record)
    requires Selects(data, source) && r in Records(data, c)
    ensures r in Records(source, c)
  {
    var i :| 0 <= i < |data[c]| && data[c][i] == r;
    assert data[c][i] in Records(source, c);
  }

  lemma PulledIn(source: State, s: set<Key>, m: Key, r: Record, k: Key)
    requires Closed(source, s) && k in Keys(source) && m in s && Holds(source, m, r) && Refers(r, k)
    ensures k in s
  {
    assert ByReference(source, s, k);
    assert Pulled(source, s, k);
  }

  lemma FollowedIsSelected(data: State, source: State, c: Coll, r: Record, k: Key)
    requires Selects(data, source) && Closed(source, Keys(data))
    requires r in Records(data, c) && k in Follow(r) && k in Keys(source)
    ensures k in Keys(data)
  {
    var m := (c, r.id);
    assert Holds(source, m, r) by { SelectedRecord(data, source, c, r); }
    assert m in Keys(data) by { var i :| 0 <= i < |data[c]| && data[c][i] == r; }
    assert Refers(r, k) by { FollowIs(r, k); }
    PulledIn(source, Keys(data), m, r, k);
  }

  /** The gap is real: a combat whose action affected an actor that is not otherwise
      mentioned is exported without it. */
  lemma AffectedActorIsLeftOut() returns (source: State, data: State)
    ensures UniqueIds(source) && Selects(data, source) && Complete(source)
    ensures Closed(source, Keys(data)) && !NoMissing(map[], data)
  {
    var a := Actor("a", "c", None, None);
    var fight := Combat("f", "c", None, [], [Action(None, [], [], None, [], ["a"])]);
    source := map[Actors := [a], Combats := [fight]];
    data := map[Combats := [fight]];
    var k: Key := (Actors, "a");
    OnlyUpdates(fight, "a");
    assert fight in Records(data, Combats) && CampaignFor(map[], data, k).None?;
    assert Follow(a) == {};
    forall t ensures !Pulled(source, Keys(data), t) {
      forall m, r | Holds(source, m, r) ensures !Refers(r, t) { FollowIs(r, t); }
    }
    assert source[Actors][0].id == "a";
    assert k in Keys(source);
    forall c, r, m | r in Records(source, c) && m in Checked(r) + Follow(r) ensures m in Keys(source) {}
  }

  /** A combat whose one action only lists an affected actor mentions that actor alone. */
  lemma OnlyUpdates(fight: Record, id: Id)
    requires fight.Combat? && fight.encounterId.None? && fight.combatants == []
      && fight.actions == [Action(None, [], [], None, [], [id])]
    ensures Checked(fight) == {(Actors, id)} && Follow(fight) == {}
  {
    var k: Key := (Actors, id);
    assert k in UpdateKeys(fight.actions[0]) && k in CheckedActionKeys(fight.actions[0]);
    forall m | m in Checked(fight) ensures m == k {
      var i :| 0 <= i < |fight.actions| && m in CheckedActionKeys(fight.actions[i]);
      assert fight.actions[i] == fight.actions[0];
    }
  }
}
