/** Exporting a selection of a campaign together with everything it refers to. */
module ExportClosure {
  import opened Json

  type Id = string

  datatype Coll =
    | Worlds | WorldRecords | WorldRelations | Scenes | Tokens | Actors | CalculationOverrides | Items
    | Journals | Encounters | Combats | CampaignSessions | Chat | Rolls | Assets

  type Key = (Coll, Id)

  datatype Combatant = Combatant(tokenId: Id, actorId: Option<Id>)

  datatype Action = Action(
    actorId: Option<Id>, targetActorIds: seq<Id>, itemIds: seq<Id>, rollId: Option<Id>,
    actorUpdateIds: seq<Id>, effectActorIds: seq<Id>)

  /** A record of each collection with its reference fields. */
  datatype Record =
    | World(id: Id, campaignId: Id)
    | WorldRecord(id: Id, campaignId: Id, inWorld: Id)
    | WorldRelation(id: Id, campaignId: Id, inWorld: Id, sourceRecordId: Id, targetRecordId: Id)
    | Scene(id: Id, campaignId: Id, worldId: Option<Id>, backgroundAssetId: Option<Id>)
    | Token(id: Id, sceneId: Id, actorId: Option<Id>, imageAssetId: Option<Id>)
    | Actor(id: Id, campaignId: Id, worldId: Option<Id>, imageAssetId: Option<Id>)
    | CalculationOverride(id: Id, campaignId: Id, ofActor: Id)
    | Item(id: Id, campaignId: Id, worldId: Option<Id>, actorId: Option<Id>)
    | Journal(id: Id, campaignId: Id, worldId: Option<Id>, parentId: Option<Id>, visibleToActorIds: seq<Id>)
    | Encounter(id: Id, campaignId: Id, worldId: Option<Id>, tokenIds: seq<Id>, partyActorIds: seq<Id>)
    | Combat(id: Id, campaignId: Id, encounterId: Option<Id>, combatants: seq<Combatant>, actions: seq<Action>)
    | CampaignSession(id: Id, campaignId: Id, sceneIds: seq<Id>, encounterIds: seq<Id>, recapJournalId: Option<Id>)
    | ChatMessage(id: Id, campaignId: Id, inScene: Option<Id>, rollId: Option<Id>, replyToMessageId: Option<Id>)
    | Roll(id: Id, campaignId: Id)
    | Asset(id: Id, campaignId: Id)

  type State = map<Coll, seq<Record>>

  function Records(s: State, c: Coll): seq<Record> { if c in s then s[c] else [] }

  // ----- The references the export follows -----

  function One(c: Coll, id: Option<Id>): set<Key> { if id.Some? then {(c, id.value)} else {} }

  function Many(c: Coll, ids: seq<Id>): set<Key> { set id | id in ids :: (c, id) }

  function ActionKeys(a: Action): set<Key> {
    One(Actors, a.actorId) + Many(Actors, a.targetActorIds) + Many(Items, a.itemIds) + One(Rolls, a.rollId)
  }

  function CombatantKeys(c: Combatant): set<Key> { {(Tokens, c.tokenId)} + One(Actors, c.actorId) }

  function Follow(r: Record): set<Key> {
    match r
    case World(_, _) => {}
    case WorldRecord(_, _, w) => {(Worlds, w)}
    case WorldRelation(_, _, w, s, t) => {(Worlds, w), (WorldRecords, s), (WorldRecords, t)}
    case Scene(_, _, w, a) => One(Worlds, w) + One(Assets, a)
    case Token(_, s, a, i) => {(Scenes, s)} + One(Actors, a) + One(Assets, i)
    case Actor(_, _, w, i) => One(Worlds, w) + One(Assets, i)
    case CalculationOverride(_, _, a) => {(Actors, a)}
    case Item(_, _, w, a) => One(Worlds, w) + One(Actors, a)
    case Journal(_, _, w, p, v) => One(Worlds, w) + One(Journals, p) + Many(Actors, v)
    case Encounter(_, _, w, t, p) => One(Worlds, w) + Many(Tokens, t) + Many(Actors, p)
    case Combat(_, _, e, cs, xs) =>
      One(Encounters, e)
      + (set i, k | 0 <= i < |cs| && k in CombatantKeys(cs[i]) :: k)
      + (set i, k | 0 <= i < |xs| && k in ActionKeys(xs[i]) :: k)
    case CampaignSession(_, _, s, e, j) => Many(Scenes, s) + Many(Encounters, e) + One(Journals, j)
    case ChatMessage(_, _, s, r, m) => One(Scenes, s) + One(Rolls, r) + One(Chat, m)
    case Roll(_, _) => {}
    case Asset(_, _) => {}
  }

  // ----- Selections as sets of keys -----

  function Keys(s: State): set<Key> {
    set c, i | c in s && 0 <= i < |s[c]| :: (c, s[c][i].id)
  }

  ghost predicate UniqueIds(s: State) {
    forall c, i, j {:trigger s[c][i].id, s[c][j].id} :: c in s && 0 <= i < j < |s[c]| ==> s[c][i].id != s[c][j].id
  }

  /** `data` holds copies of records of `source`, each at most once. */
  ghost predicate Selects(data: State, source: State) {
    && UniqueIds(data)
    && forall c, i {:trigger data[c][i]} :: c in data && 0 <= i < |data[c]| ==> data[c][i] in Records(source, c)
  }

  ghost predicate Holds(source: State, k: Key, r: Record) {
    r in Records(source, k.0) && r.id == k.1
  }

  /** What an export follows, collection by collection. */
  ghost predicate Refers(r: Record, k: Key) {
    var (c, id) := k;
    match c
    case Worlds =>
      || (r.WorldRecord? && r.inWorld == id) || (r.WorldRelation? && r.inWorld == id)
      || ((r.Scene? || r.Actor? || r.Item? || r.Journal? || r.Encounter?) && r.worldId == Some(id))
    case WorldRecords => r.WorldRelation? && (r.sourceRecordId == id || r.targetRecordId == id)
    case Scenes =>
      || (r.Token? && r.sceneId == id) || (r.ChatMessage? && r.inScene == Some(id))
      || (r.CampaignSession? && id in r.sceneIds)
    case Tokens => (r.Encounter? && id in r.tokenIds) || (r.Combat? && exists x <- r.combatants :: x.tokenId == id)
    case Actors =>
      || (r.CalculationOverride? && r.ofActor == id) || ((r.Token? || r.Item?) && r.actorId == Some(id))
      || (r.Journal? && id in r.visibleToActorIds) || (r.Encounter? && id in r.partyActorIds)
      || (r.Combat? && exists x <- r.combatants :: x.actorId == Some(id))
      || (r.Combat? && exists a <- r.actions :: a.actorId == Some(id) || id in a.targetActorIds)
    case Items => r.Combat? && exists a <- r.actions :: id in a.itemIds
    case Journals => (r.Journal? && r.parentId == Some(id)) || (r.CampaignSession? && r.recapJournalId == Some(id))
    case Encounters => (r.CampaignSession? && id in r.encounterIds) || (r.Combat? && r.encounterId == Some(id))
    case Rolls =>
      (r.ChatMessage? && r.rollId == Some(id)) || (r.Combat? && exists a <- r.actions :: a.rollId == Some(id))
    case Chat => r.ChatMessage? && r.replyToMessageId == Some(id)
    case Assets =>
      (r.Scene? && r.backgroundAssetId == Some(id)) || ((r.Token? || r.Actor?) && r.imageAssetId == Some(id))
    case _ => false
  }

  lemma CombatFollowsAre(r: Record, k: Key)
    requires r.Combat?
    ensures k in Follow(r) <==>
      || k in One(Encounters, r.encounterId)
      || (exists x <- r.combatants :: k in CombatantKeys(x)) || (exists a <- r.actions :: k in ActionKeys(a))
  {
    if x :| x in r.combatants && k in CombatantKeys(x) {
      var i :| 0 <= i < |r.combatants| && r.combatants[i] == x;
      assert k in CombatantKeys(r.combatants[i]);
    }
    if a :| a in r.actions && k in ActionKeys(a) {
      var i :| 0 <= i < |r.actions| && r.actions[i] == a;
      assert k in ActionKeys(r.actions[i]);
    }
  }

  lemma CombatantRefers(x: Combatant, k: Key)
    ensures k in CombatantKeys(x) <==> (k.0 == Tokens && x.tokenId == k.1) || (k.0 == Actors && x.actorId == Some(k.1))
  {}

  lemma ActionRefers(a: Action, k: Key)
    ensures k in ActionKeys(a) <==>
      || (k.0 == Actors && (a.actorId == Some(k.1) || k.1 in a.targetActorIds))
      || (k.0 == Items && k.1 in a.itemIds) || (k.0 == Rolls && a.rollId == Some(k.1))
  {}

  lemma CombatRefers(r: Record, k: Key)
    requires r.Combat?
    ensures k in Follow(r) <==> Refers(r, k)
  {
    CombatFollowsAre(r, k);
    forall x <- r.combatants { CombatantRefers(x, k); }
    forall a <- r.actions { ActionRefers(a, k); }
  }

  /** A record's references are those its fields hold. */
  lemma FollowIs(r: Record, k: Key)
    ensures k in Follow(r) <==> Refers(r, k)
  {
    if r.Combat? { CombatRefers(r, k); }
  }

  ghost predicate ByReference(source: State, s: set<Key>, k: Key) {
    exists m, r :: m in s && Holds(source, m, r) && Refers(r, k)
  }

  ghost predicate BetweenSelected(source: State, s: set<Key>, k: Key, r: Record) {
    && k.0 == WorldRelations && Holds(source, k, r) && r.WorldRelation?
    && (WorldRecords, r.sourceRecordId) in s && (WorldRecords, r.targetRecordId) in s
  }

  ghost predicate OfSelected(source: State, s: set<Key>, k: Key, r: Record) {
    k.0 == CalculationOverrides && Holds(source, k, r) && r.CalculationOverride? && (Actors, r.ofActor) in s
  }

  /** Selected records drag along the source records they refer to, world relations between
      two selected world records, and overrides of selected actors. */
  ghost predicate Pulled(source: State, s: set<Key>, k: Key) {
    || ByReference(source, s, k)
    || (exists r :: BetweenSelected(source, s, k, r))
    || (exists r :: OfSelected(source, s, k, r))
  }

  ghost predicate Closed(source: State, s: set<Key>) {
    forall k {:trigger Pulled(source, s, k)} :: k in Keys(source) && Pulled(source, s, k) ==> k in s
  }

  /** Nothing was selected that some closed selection of the source could do without. */
  ghost predicate Needed(source: State, from: set<Key>, s: set<Key>) {
    forall t {:trigger Closed(source, t)} :: from <= t && Closed(source, t) ==> s <= t
  }

  // ----- One extension -----

  datatype Rule = Forward(c: Coll) | RelationsBetween | OverridesOf

  function Target(rule: Rule): Coll {
    match rule case Forward(c) => c case RelationsBetween => WorldRelations case OverridesOf => CalculationOverrides
  }

  function WantedByReference(data: State, c: Coll): set<Id> {
    set d, i, k | d in data && 0 <= i < |data[d]| && k in Follow(data[d][i]) && k.0 == c :: k.1
  }

  function WantedRelations(relations: seq<Record>, keys: set<Key>): set<Id> {
    set i | 0 <= i < |relations| && relations[i].WorldRelation?
      && (WorldRecords, relations[i].sourceRecordId) in keys && (WorldRecords, relations[i].targetRecordId) in keys
      :: relations[i].id
  }

  function WantedOverrides(overrides: seq<Record>, keys: set<Key>): set<Id> {
    set i | 0 <= i < |overrides| && overrides[i].CalculationOverride? && (Actors, overrides[i].ofActor) in keys
      :: overrides[i].id
  }

  /** The ids a rule asks for, given what is selected. */
  function Wanted(data: State, source: State, rule: Rule): set<Id> {
    match rule
    case Forward(c) => WantedByReference(data, c)
    case RelationsBetween => WantedRelations(Records(source, WorldRelations), Keys(data))
    case OverridesOf => WantedOverrides(Records(source, CalculationOverrides), Keys(data))
  }

  lemma WantedIsPulled(data: State, source: State, rule: Rule, id: Id)
    requires Selects(data, source) && id in Wanted(data, source, rule)
    ensures Pulled(source, Keys(data), (Target(rule), id))
  {
    var k := (Target(rule), id);
    match rule {
      case Forward(c) =>
        var d, i, m :| d in data && 0 <= i < |data[d]| && m in Follow(data[d][i]) && m.0 == c && m.1 == id;
        FollowIs(data[d][i], k);
        assert (d, data[d][i].id) in Keys(data) && Holds(source, (d, data[d][i].id), data[d][i]);
      case RelationsBetween =>
        var rs := Records(source, WorldRelations);
        var i :| 0 <= i < |rs| && rs[i].WorldRelation? && rs[i].id == id
          && (WorldRecords, rs[i].sourceRecordId) in Keys(data) && (WorldRecords, rs[i].targetRecordId) in Keys(data);
        assert BetweenSelected(source, Keys(data), k, rs[i]);
      case OverridesOf =>
        var rs := Records(source, CalculationOverrides);
        var i :| 0 <= i < |rs| && rs[i].CalculationOverride? && rs[i].id == id && (Actors, rs[i].ofActor) in Keys(data);
        assert OfSelected(source, Keys(data), k, rs[i]);
    }
  }

  lemma ReferenceIsWanted(data: State, source: State, k: Key)
    requires Selects(data, source) && UniqueIds(source) && ByReference(source, Keys(data), k)
    ensures k.1 in Wanted(data, source, Forward(k.0))
  {
    var m, r :| m in Keys(data) && Holds(source, m, r) && Refers(r, k);
    FollowIs(r, k);
    var i :| m.0 in data && 0 <= i < |data[m.0]| && data[m.0][i].id == m.1;
    assert data[m.0][i] in Records(source, m.0);
    SameRecord(source, m, r, data[m.0][i]);
  }

  lemma RelationIsWanted(data: State, source: State, k: Key, r: Record)
    requires BetweenSelected(source, Keys(data), k, r)
    ensures k.1 in Wanted(data, source, RelationsBetween)
  {
    var i :| 0 <= i < |Records(source, WorldRelations)| && Records(source, WorldRelations)[i] == r;
  }

  lemma OverrideIsWanted(data: State, source: State, k: Key, r: Record)
    requires OfSelected(source, Keys(data), k, r)
    ensures k.1 in Wanted(data, source, OverridesOf)
  {
    var i :| 0 <= i < |Records(source, CalculationOverrides)| && Records(source, CalculationOverrides)[i] == r;
  }

  lemma SameRecord(source: State, k: Key, a: Record, b: Record)
    requires UniqueIds(source) && Holds(source, k, a) && Holds(source, k, b)
    ensures a == b
  {
    var i :| 0 <= i < |source[k.0]| && source[k.0][i] == a;
    var j :| 0 <= j < |source[k.0]| && source[k.0][j] == b;
  }

  /** The source records with a wanted id that are not selected yet, in source order. */
  function Additions(rs: seq<Record>, wanted: set<Id>, existing: set<Id>): (r: seq<Record>)
    ensures forall x :: x in r <==> x in rs && x.id in wanted && x.id !in existing
  {
    if rs == [] then []
    else (if rs[0].id in wanted && rs[0].id !in existing then [rs[0]] else []) + Additions(rs[1..], wanted, existing)
  }

  ghost predicate Extends(before: State, after: State) {
    && before.Keys <= after.Keys
    && forall c :: c in before ==> before[c] <= after[c]
  }

  /** What a rule has nothing left to add to. */
  ghost predicate Satisfied(data: State, source: State, rule: Rule) {
    forall id :: id in Wanted(data, source, rule) && (Target(rule), id) in Keys(source)
      ==> (Target(rule), id) in Keys(data)
  }

  function Ids(rs: seq<Record>): set<Id> {
    set i | 0 <= i < |rs| :: rs[i].id
  }

  lemma KeysByIds(s: State, k: Key)
    ensures k in Keys(s) <==> k.1 in Ids(Records(s, k.0))
  {
    if k in Keys(s) {
      var i :| 0 <= i < |s[k.0]| && s[k.0][i].id == k.1;
      assert Records(s, k.0)[i].id == k.1;
    }
    if k.1 in Ids(Records(s, k.0)) {
      var i :| 0 <= i < |Records(s, k.0)| && Records(s, k.0)[i].id == k.1;
    }
  }

  /** Exactly the wanted source records of one collection were selected besides. */
  ghost predicate Gains(data: State, after: State, source: State, c: Coll, wanted: set<Id>) {
    forall k :: k in Keys(after) <==> k in Keys(data) || (k in Keys(source) && k.0 == c && k.1 in wanted)
  }

  /** Appends the wanted source records that are missing; says whether there were any. */
  method AddRecordsById(data: State, source: State, c: Coll, wanted: set<Id>) returns (after: State, changed: bool)
    requires Selects(data, source) && UniqueIds(source)
    ensures Selects(after, source) && Extends(data, after) && Gains(data, after, source, c, wanted)
    ensures if changed then Keys(after) != Keys(data) else after == data
  {
    after, changed := data, false;
    var target := Records(data, c);
    var additions := Additions(Records(source, c), wanted, Ids(target));
    AppendGains(data, source, c, wanted, additions);
    if |additions| == 0 {
      NothingGained(data, source, c, wanted, additions);
      return;
    }
    after := data[c := target + additions];
    changed := true;
    AppendSelects(data, source, c, wanted, additions);
    assert additions[0] in additions;
    KeysByIds(data, (c, additions[0].id));
    KeysByIds(source, (c, additions[0].id));
    assert additions[0].id in Ids(Records(source, c)) by {
      var i :| 0 <= i < |Records(source, c)| && Records(source, c)[i] == additions[0];
    }
  }

  lemma AppendGains(data: State, source: State, c: Coll, wanted: set<Id>, additions: seq<Record>)
    requires additions == Additions(Records(source, c), wanted, Ids(Records(data, c)))
    ensures Gains(data, data[c := Records(data, c) + additions], source, c, wanted)
  {
    var after := data[c := Records(data, c) + additions];
    forall k ensures k in Keys(after) <==> k in Keys(data) || (k in Keys(source) && k.0 == c && k.1 in wanted) {
      KeysByIds(after, k);
      KeysByIds(data, k);
      KeysByIds(source, k);
      if k.0 == c { AppendedIds(Records(data, c), Records(source, c), wanted, additions, k.1); }
    }
  }

  lemma AppendedIds(rs: seq<Record>, source: seq<Record>, wanted: set<Id>, additions: seq<Record>, id: Id)
    requires additions == Additions(source, wanted, Ids(rs))
    ensures id in Ids(rs + additions) <==> id in Ids(rs) || (id in Ids(source) && id in wanted)
  {
    var all := rs + additions;
    if id in Ids(all) {
      var i :| 0 <= i < |all| && all[i].id == id;
      if i < |rs| {
        assert rs[i].id == id;
      } else {
        assert additions[i - |rs|] in additions;
        var j :| 0 <= j < |source| && source[j] == additions[i - |rs|];
      }
    }
    if id in Ids(rs) {
      var i :| 0 <= i < |rs| && rs[i].id == id;
      assert all[i].id == id;
    } else if id in Ids(source) && id in wanted {
      var j :| 0 <= j < |source| && source[j].id == id;
      assert source[j] in additions;
      var i :| 0 <= i < |additions| && additions[i] == source[j];
      assert all[|rs| + i].id == id;
    }
  }

  lemma NothingGained(data: State, source: State, c: Coll, wanted: set<Id>, additions: seq<Record>)
    requires additions == Additions(Records(source, c), wanted, Ids(Records(data, c))) == []
    requires Gains(data, data[c := Records(data, c) + additions], source, c, wanted)
    ensures Gains(data, data, source, c, wanted)
  {
    var after := data[c := Records(data, c) + additions];
    assert Records(data, c) + additions == Records(data, c);
    forall k ensures k in Keys(after) <==> k in Keys(data) {
      KeysByIds(after, k);
      KeysByIds(data, k);
    }
  }

  ghost predicate UniqueIn(rs: seq<Record>) {
    forall i, j {:trigger rs[i].id, rs[j].id} :: 0 <= i < j < |rs| ==> rs[i].id != rs[j].id
  }

  lemma {:induction false} AdditionsUnique(rs: seq<Record>, wanted: set<Id>, existing: set<Id>)
    requires UniqueIn(rs)
    ensures UniqueIn(Additions(rs, wanted, existing))
  {
    if rs != [] {
      var rest := rs[1..];
      assert UniqueIn(rest) by {
        forall i, j | 0 <= i < j < |rest| ensures rest[i].id != rest[j].id { assert rs[i + 1].id != rs[j + 1].id; }
      }
      AdditionsUnique(rest, wanted, existing);
      forall x | x in Additions(rest, wanted, existing) ensures x.id != rs[0].id {
        var m :| 0 <= m < |rest| && rest[m] == x;
        assert rs[0].id != rs[m + 1].id;
      }
    }
  }

  lemma AppendUnique(rs: seq<Record>, source: seq<Record>, wanted: set<Id>)
    requires UniqueIn(rs) && UniqueIn(source)
    ensures UniqueIn(rs + Additions(source, wanted, Ids(rs)))
  {
    var more := Additions(source, wanted, Ids(rs));
    AdditionsUnique(source, wanted, Ids(rs));
    var all := rs + more;
    forall i, j | 0 <= i < j < |all| ensures all[i].id != all[j].id {
      if j < |rs| { assert rs[i].id != rs[j].id; }
      else if |rs| <= i { assert more[i - |rs|].id != more[j - |rs|].id; }
      else { assert more[j - |rs|] in more && rs[i].id in Ids(rs); }
    }
  }

  lemma UniqueCollections(s: State)
    ensures UniqueIds(s) <==> forall c :: c in s ==> UniqueIn(s[c])
  {
    if UniqueIds(s) {
      forall c | c in s ensures UniqueIn(s[c]) {
        forall i, j | 0 <= i < j < |s[c]| ensures s[c][i].id != s[c][j].id {}
      }
    }
    if forall c :: c in s ==> UniqueIn(s[c]) {
      forall c: Coll, i: int, j: int | c in s && 0 <= i < j < |s[c]| ensures s[c][i].id != s[c][j].id {
        assert UniqueIn(s[c]);
      }
    }
  }

  lemma AppendSelects(data: State, source: State, c: Coll, wanted: set<Id>, additions: seq<Record>)
    requires Selects(data, source) && UniqueIds(source)
    requires additions == Additions(Records(source, c), wanted, Ids(Records(data, c)))
    ensures Selects(data[c := Records(data, c) + additions], source)
  {
    var after := data[c := Records(data, c) + additions];
    UniqueCollections(data);
    UniqueCollections(source);
    UniqueCollections(after);
    AppendUnique(Records(data, c), Records(source, c), wanted);
    forall d, i | d in after && 0 <= i < |after[d]| ensures after[d][i] in Records(source, d) {
      if d != c { assert data[d][i] in Records(source, d); }
      else if i < |Records(data, c)| { assert data[c][i] in Records(source, c); }
      else { assert after[c][i] in additions; }
    }
  }

  // ----- The fixpoint -----

  ghost predicate Reached(from: State, data: State, source: State) {
    && Selects(data, source)
    && Extends(from, data)
    && Keys(from) <= Keys(data) <= Keys(source)
    && Needed(source, Keys(from), Keys(data))
  }

  lemma SelectedKeys(data: State, source: State)
    requires Selects(data, source)
    ensures Keys(data) <= Keys(source)
  {
    forall k | k in Keys(data) ensures k in Keys(source) {
      var i :| 0 <= i < |data[k.0]| && data[k.0][i].id == k.1;
      assert data[k.0][i] in Records(source, k.0);
      var j :| 0 <= j < |source[k.0]| && source[k.0][j] == data[k.0][i];
      assert source[k.0][j].id == k.1;
    }
  }

  lemma PulledByMore(source: State, s: set<Key>, t: set<Key>, k: Key)
    requires s <= t && Pulled(source, s, k)
    ensures Pulled(source, t, k)
  {
    if ByReference(source, s, k) {
      var m, r :| m in s && Holds(source, m, r) && Refers(r, k);
      assert m in t;
    } else if r :| BetweenSelected(source, s, k, r) {
      assert BetweenSelected(source, t, k, r);
    } else {
      var r :| OfSelected(source, s, k, r);
      assert OfSelected(source, t, k, r);
    }
  }

  /** Where a round that began at `start` has got to. */
  ghost predicate InRound(from: State, start: State, data: State, source: State, changed: bool) {
    Reached(from, data, source) && if changed then Keys(start) < Keys(data) else data == start
  }

  method Apply(ghost from: State, ghost start: State, data: State, source: State, rule: Rule, changed: bool)
    returns (after: State, nowChanged: bool)
    requires UniqueIds(source) && InRound(from, start, data, source, changed)
    ensures InRound(from, start, after, source, nowChanged)
    ensures !nowChanged ==> !changed && Satisfied(start, source, rule)
  {
    var added;
    after, added := AddRecordsById(data, source, Target(rule), Wanted(data, source, rule));
    nowChanged := added || changed;
    SelectedKeys(after, source);
    forall t | Keys(from) <= t && Closed(source, t) ensures Keys(after) <= t {
      forall k | k in Keys(after) ensures k in t {
        if k !in Keys(data) {
          WantedIsPulled(data, source, rule, k.1);
          PulledByMore(source, Keys(data), t, k);
        }
      }
    }
  }

  /** The rules in the order the export applies them. */
  const RULES: seq<Rule> :=
    [Forward(Worlds), Forward(WorldRecords), RelationsBetween, Forward(Scenes), Forward(Tokens), Forward(Actors),
     OverridesOf, Forward(Items), Forward(Journals), Forward(Encounters), Forward(Rolls), Forward(Chat),
       Forward(Assets)]

  ghost predicate AllSatisfied(data: State, source: State) {
    forall rule <- RULES :: Satisfied(data, source, rule)
  }

  /** One round applies every rule once. */
  method ApplyAll(ghost from: State, data: State, source: State, rules: seq<Rule>) returns (after: State, changed: bool)
    requires UniqueIds(source) && Reached(from, data, source)
    ensures InRound(from, data, after, source, changed)
    ensures !changed ==> forall rule <- rules :: Satisfied(data, source, rule)
  {
    after, changed := data, false;
    for n := 0 to |rules|
      invariant InRound(from, data, after, source, changed)
      invariant !changed ==> forall i :: 0 <= i < n ==> Satisfied(data, source, rules[i])
    {
      var rule := rules[n];
      after, changed := Apply(from, data, after, source, rule, changed);
      if !changed { assert Satisfied(data, source, rule); }
    }
  }

  /** Grows the selection until nothing is missing. The result is the least selection that
      contains the original one and is closed under the followed references; old records
      keep their places. */
  method CloseRecordDependencies(data: State, source: State) returns (closed: State)
    requires UniqueIds(source) && Selects(data, source)
    ensures Selects(closed, source) && Extends(data, closed)
    ensures Keys(data) <= Keys(closed) && Closed(source, Keys(closed)) && Needed(source, Keys(data), Keys(closed))
  {
    closed := data;
    SelectedKeys(data, source);
    var changed := true;
    while changed
      invariant Reached(data, closed, source)
      invariant !changed ==> AllSatisfied(closed, source)
      decreases Keys(source) - Keys(closed), changed
    {
      closed, changed := ApplyAll(data, closed, source, RULES);
    }
    SatisfiedIsClosed(closed, source);
  }

  lemma CombatFollows(r: Record, k: Key)
    requires r.Combat? && k in Follow(r)
    ensures k.0 in {Encounters, Tokens, Actors, Items, Rolls}
  {
  }

  /** Every collection a reference leads to has a rule. */
  lemma FollowedHaveRules(r: Record, k: Key)
    requires k in Follow(r)
    ensures Forward(k.0) in RULES
  {
    if r.Combat? { CombatFollows(r, k); }
    if k.0 in {WorldRelations, CalculationOverrides, Combats, CampaignSessions} { assert false; }
    RuleOf(k.0);
  }

  lemma RuleOf(c: Coll)
    requires c !in {WorldRelations, CalculationOverrides, Combats, CampaignSessions}
    ensures Forward(c) in RULES
  {
  }

  lemma ReferenceHasRule(source: State, s: set<Key>, k: Key)
    requires ByReference(source, s, k)
    ensures Forward(k.0) in RULES
  {
    var m, r :| m in s && Holds(source, m, r) && Refers(r, k);
    FollowIs(r, k);
    FollowedHaveRules(r, k);
  }

  lemma ReferencedIsIn(data: State, source: State, k: Key)
    requires UniqueIds(source) && Selects(data, source) && Satisfied(data, source, Forward(k.0))
    requires k in Keys(source) && ByReference(source, Keys(data), k)
    ensures k in Keys(data)
  {
    ReferenceIsWanted(data, source, k);
    assert Target(Forward(k.0)) == k.0;
  }

  lemma RelationIsIn(data: State, source: State, k: Key, r: Record)
    requires UniqueIds(source) && Selects(data, source) && AllSatisfied(data, source)
    requires k in Keys(source) && BetweenSelected(source, Keys(data), k, r)
    ensures k in Keys(data)
  {
    RelationIsWanted(data, source, k, r);
    assert RULES[2] == RelationsBetween && Satisfied(data, source, RelationsBetween) && Target(RelationsBetween) == k.0;
  }

  lemma OverrideIsIn(data: State, source: State, k: Key, r: Record)
    requires UniqueIds(source) && Selects(data, source) && AllSatisfied(data, source)
    requires k in Keys(source) && OfSelected(source, Keys(data), k, r)
    ensures k in Keys(data)
  {
    OverrideIsWanted(data, source, k, r);
    assert RULES[6] == OverridesOf && Satisfied(data, source, OverridesOf) && Target(OverridesOf) == k.0;
  }

  lemma SatisfiedIsClosed(data: State, source: State)
    requires UniqueIds(source) && Selects(data, source) && AllSatisfied(data, source)
    ensures Closed(source, Keys(data))
  {
    forall k | k in Keys(source) && Pulled(source, Keys(data), k) ensures k in Keys(data) {
      if ByReference(source, Keys(data), k) {
        ReferenceHasRule(source, Keys(data), k);
        ReferencedIsIn(data, source, k);
      } else if r :| BetweenSelected(source, Keys(data), k, r) {
        RelationIsIn(data, source, k, r);
      } else {
        var r :| OfSelected(source, Keys(data), k, r);
        OverrideIsIn(data, source, k, r);
      }
    }
  }
}
