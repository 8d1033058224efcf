/** Duplicating scenes with their tokens, actors, items, overrides and encounters. */
module SceneDuplication {
  import opened Json
  import opened IdRegeneration
  import opened Texts
  import opened Sequences

  datatype Result<+T> = Ok(value: T) | Refused(why: Refusal)

  datatype Refusal = BadOperationId | BadSourceCount | RepeatedSource | UnknownScene | BadName
    | OutsideToken | ForeignActor | AlreadyExists | ForeignReference | UnknownCampaign | StoreFailed

  const MAX_SOURCES := 100
  const MAX_NAME := 160

  /** The collections whose records a duplication copies. */
  const COPIED: set<Coll> := {"scenes", "tokens", "actors", "items", "calculationOverrides", "encounters"}

  datatype Annotation = Annotation(id: Id, sceneId: Id, groupId: Option<Id>, affectedTokenIds: seq<Id>, body: Value)
  datatype Terrain = Terrain(id: Id, sceneId: Id, body: Value)
  datatype Cover = Cover(id: Id, sceneId: Id, sourceTokenId: Id, targetTokenId: Id, body: Value)

  datatype Scene = Scene(
    id: Id, campaignId: Id, name: string, active: bool, sortOrder: int,
    annotations: seq<Annotation>, terrain: seq<Terrain>, covers: seq<Cover>, body: Value)
  datatype Token = Token(id: Id, sceneId: Id, actorId: Option<Id>, body: Value)
  datatype Actor = Actor(id: Id, campaignId: Id, name: string, body: Value)
  datatype Item = Item(id: Id, actorId: Option<Id>, body: Value)
  datatype Override = Override(id: Id, actorId: Id, cleared: bool, body: Value)
  datatype Encounter = Encounter(id: Id, campaignId: Id, name: string, tokenIds: seq<Id>, body: Value)
  datatype Campaign = Campaign(id: Id, updatedAt: int)

  datatype State = State(
    campaigns: seq<Campaign>, scenes: seq<Scene>, tokens: seq<Token>, actors: seq<Actor>, items: seq<Item>,
    overrides: seq<Override>, encounters: seq<Encounter>, auditIds: seq<Id>)

  datatype Source = Source(sceneId: Id, name: Option<string>)
  datatype Request = Request(operationId: string, sources: seq<Source>)

  /** Ids derived from the operation and what is copied, as a digest gives them. */
  datatype Naming = Naming(
    record: (string, Coll, Id) -> Id,
    nested: (string, string, Id, Id) -> Id,
    audit: string -> Id)

  function SceneId(x: Scene): Id { x.id }
  function TokenId(x: Token): Id { x.id }
  function ActorId(x: Actor): Id { x.id }
  function ItemId(x: Item): Id { x.id }
  function OverrideId(x: Override): Id { x.id }
  function EncounterId(x: Encounter): Id { x.id }

  predicate Distinct(ids: seq<Id>) { forall i, j :: 0 <= i < j < |ids| ==> ids[i] != ids[j] }

  ghost predicate UniqueIds(s: State) {
    && Distinct(Map(s.scenes, SceneId)) && Distinct(Map(s.tokens, TokenId)) && Distinct(Map(s.actors, ActorId))
    && Distinct(Map(s.items, ItemId)) && Distinct(Map(s.overrides, OverrideId))
    && Distinct(Map(s.encounters, EncounterId))
  }

  // ----- The request -----

  predicate OperationIdChar(c: char) {
    'A' <= c <= 'Z' || 'a' <= c <= 'z' || '0' <= c <= '9' || c == ':' || c == '_' || c == '-'
  }

  predicate OperationIdFits(op: string) {
    1 <= |op| <= MAX_NAME && forall i :: 0 <= i < |op| ==> OperationIdChar(op[i])
  }

  /** A scene to copy and the name of its copy. */
  datatype Chosen = Chosen(scene: Scene, name: string)

  function ChosenScene(x: Chosen): Scene { x.scene }

  function SourceIds(sources: seq<Source>): (ids: seq<Id>)
    ensures |ids| == |sources| && forall i :: 0 <= i < |sources| ==> ids[i] == sources[i].sceneId
  {
    if sources == [] then [] else [sources[0].sceneId] + SourceIds(sources[1..])
  }

  function FindScene(scenes: seq<Scene>, id: Id, campaignId: Id): (r: Option<Scene>)
    ensures r.Some? ==> r.value in scenes && r.value.id == id && r.value.campaignId == campaignId
  {
    if scenes == [] then None
    else if scenes[0].id == id && scenes[0].campaignId == campaignId then Some(scenes[0])
    else FindScene(scenes[1..], id, campaignId)
  }

  function Choose(scenes: seq<Scene>, sources: seq<Source>, campaignId: Id): (r: Result<seq<Chosen>>)
    ensures r.Ok? ==> |r.value| == |sources| && forall i :: 0 <= i < |sources| ==>
      r.value[i].scene in scenes && r.value[i].scene.id == sources[i].sceneId
        && r.value[i].scene.campaignId == campaignId
  {
    if sources == [] then Ok([])
    else
      var found := FindScene(scenes, sources[0].sceneId, campaignId);
      if found.None? then Refused(UnknownScene)
      else
        var name := if sources[0].name.None? then found.value.name + " Copy" else Trim(sources[0].name.value);
        if name == "" || |name| > MAX_NAME then Refused(BadName)
        else
          var rest := Choose(scenes, sources[1..], campaignId);
          if rest.Refused? then rest else Ok([Chosen(found.value, name)] + rest.value)
  }

  // ----- What is selected -----

  datatype Selection = Selection(
    scenes: seq<Chosen>, tokens: seq<Token>, actors: seq<Actor>, items: seq<Item>,
    overrides: seq<Override>, encounters: seq<Encounter>)

  lemma {:induction false} FilterDistinct<T>(s: seq<T>, keep: T -> bool, id: T -> Id)
    requires Distinct(Map(s, id))
    ensures Distinct(Map(Filter(s, keep), id))
  {
    if s != [] {
      assert Map(s, id)[1..] == Map(s[1..], id);
      FilterDistinct(s[1..], keep, id);
      var rest, all := Filter(s[1..], keep), Map(s, id);
      forall j | 0 <= j < |rest| ensures id(rest[j]) != id(s[0]) {
        assert rest[j] in s[1..];
        var k :| 1 <= k < |s| && s[k] == rest[j];
        assert all[0] != all[k];
      }
      assert Map([s[0]] + rest, id) == [id(s[0])] + Map(rest, id);
      assert forall j :: 0 <= j < |rest| ==> Map(rest, id)[j] != id(s[0]);
    }
  }

  predicate Given(o: Option<Id>) { o.Some? && o.value != "" }

  /** The actors of the tokens, in order of first mention, each once. */
  function ActorIds(tokens: seq<Token>): (ids: seq<Id>)
    ensures Distinct(ids)
    ensures forall t <- tokens :: Given(t.actorId) ==> t.actorId.value in ids
  {
    if tokens == [] then []
    else
      var before, t := ActorIds(tokens[..|tokens| - 1]), tokens[|tokens| - 1];
      if !Given(t.actorId) || t.actorId.value in before then before else before + [t.actorId.value]
  }

  function FindActor(actors: seq<Actor>, id: Id, campaignId: Id): (r: Option<Actor>)
    ensures r.Some? ==> r.value in actors && r.value.id == id && r.value.campaignId == campaignId
  {
    if actors == [] then None
    else if actors[0].id == id && actors[0].campaignId == campaignId then Some(actors[0])
    else FindActor(actors[1..], id, campaignId)
  }

  function SourceActors(actors: seq<Actor>, ids: seq<Id>, campaignId: Id): (r: Option<seq<Actor>>)
    ensures r.Some? ==> Map(r.value, ActorId) == ids
    ensures r.Some? ==> forall a <- r.value :: a in actors && a.campaignId == campaignId
  {
    if ids == [] then Some([])
    else
      var a, rest := FindActor(actors, ids[0], campaignId), SourceActors(actors, ids[1..], campaignId);
      if a.None? || rest.None? then None
      else
        assert Map([a.value] + rest.value, ActorId) == ids;
        Some([a.value] + rest.value)
  }

  function FirstOutside(ids: seq<Id>, tokenIds: seq<Id>): (r: Option<Id>)
    ensures r.None? <==> forall t <- ids :: t in tokenIds
    ensures r.Some? ==> r.value in ids && r.value !in tokenIds
  {
    if ids == [] then None else if ids[0] !in tokenIds then Some(ids[0]) else FirstOutside(ids[1..], tokenIds)
  }

  /** Covers of the copied scenes point at copied tokens only; so do annotations, unless the
      first other token of one has the empty id. */
  predicate InternalTokens(scenes: seq<Chosen>, tokenIds: seq<Id>) {
    forall x <- scenes ::
      && (forall a <- x.scene.annotations :: !Given(FirstOutside(a.affectedTokenIds, tokenIds)))
      && (forall c <- x.scene.covers :: c.sourceTokenId in tokenIds && c.targetTokenId in tokenIds)
  }

  function Select(s: State, campaignId: Id, sources: seq<Source>): Result<Selection> {
    var ids, scenes := SourceIds(sources), Choose(s.scenes, sources, campaignId);
    if scenes.Refused? then Refused(scenes.why)
    else
      var tokens := Filter(s.tokens, OnScenes(ids));
      var tokenIds := Map(tokens, TokenId);
      if !InternalTokens(scenes.value, tokenIds) then Refused(OutsideToken)
      else
        var actorIds := ActorIds(tokens);
        var actors := SourceActors(s.actors, actorIds, campaignId);
        if actors.None? then Refused(ForeignActor)
        else Ok(Selection(scenes.value, tokens, actors.value,
          Filter(s.items, HeldBy(actorIds)), Filter(s.overrides, ActiveFor(actorIds)),
          Filter(s.encounters, WithinTokens(campaignId, tokenIds))))
  }

  function OnScenes(ids: seq<Id>): Token -> bool { (t: Token) => t.sceneId in ids }

  function HeldBy(actorIds: seq<Id>): Item -> bool { (x: Item) => Given(x.actorId) && x.actorId.value in actorIds }

  function ActiveFor(actorIds: seq<Id>): Override -> bool { (x: Override) => x.actorId in actorIds && !x.cleared }

  function WithinTokens(campaignId: Id, tokenIds: seq<Id>): Encounter -> bool {
    (e: Encounter) => e.campaignId == campaignId && e.tokenIds != [] && forall t <- e.tokenIds :: t in tokenIds
  }

  // ----- New ids -----

  function AddIds(m: IdMap, op: string, coll: Coll, ids: seq<Id>, naming: Naming): (r: IdMap)
    ensures forall s :: s in r <==> s in m || s in ids
    ensures forall s :: s in r ==> (s in m && r[s] == m[s]) || r[s] == naming.record(op, coll, s)
  {
    if ids == [] then m
    else AddIds(m, op, coll, ids[..|ids| - 1], naming)[ids[|ids| - 1] := naming.record(op, coll, ids[|ids| - 1])]
  }

  method AddRecordIds(m0: IdMap, op: string, coll: Coll, ids: seq<Id>, naming: Naming) returns (m: IdMap)
    ensures m == AddIds(m0, op, coll, ids, naming)
  {
    m := m0;
    for n := 0 to |ids|
      invariant m == AddIds(m0, op, coll, ids[..n], naming)
    {
      assert ids[..n + 1][..n] == ids[..n];
      m := m[ids[n] := naming.record(op, coll, ids[n])];
    }
    assert ids[..|ids|] == ids;
  }

  function SceneIds(scenes: seq<Chosen>): seq<Id> { Map(scenes, (x: Chosen) => x.scene.id) }

  function NewIds(x: Selection, op: string, naming: Naming): IdMap {
    var m1 := AddIds(map[], op, "scenes", SceneIds(x.scenes), naming);
    var m2 := AddIds(m1, op, "tokens", Map(x.tokens, TokenId), naming);
    var m3 := AddIds(m2, op, "actors", Map(x.actors, ActorId), naming);
    var m4 := AddIds(m3, op, "items", Map(x.items, ItemId), naming);
    var m5 := AddIds(m4, op, "calculationOverrides", Map(x.overrides, OverrideId), naming);
    AddIds(m5, op, "encounters", Map(x.encounters, EncounterId), naming)
  }

  ghost predicate AllIn(ids: seq<Id>, m: IdMap) { forall id <- ids :: id in m }

  /** Every selected record has a new id, and only those. */
  ghost predicate Covers(x: Selection, m: IdMap) {
    && AllIn(SceneIds(x.scenes), m) && AllIn(Map(x.tokens, TokenId), m) && AllIn(Map(x.actors, ActorId), m)
    && AllIn(Map(x.items, ItemId), m) && AllIn(Map(x.overrides, OverrideId), m)
    && AllIn(Map(x.encounters, EncounterId), m)
  }

  ghost predicate Selected(x: Selection, id: Id) {
    id in SceneIds(x.scenes) || id in Map(x.tokens, TokenId) || id in Map(x.actors, ActorId)
    || id in Map(x.items, ItemId) || id in Map(x.overrides, OverrideId) || id in Map(x.encounters, EncounterId)
  }

  /** The digest does not collide on the ids one operation copies, and never gives the empty id. */
  ghost predicate NoCollisions(naming: Naming, op: string, x: Selection) {
    && (forall c, d, a, b {:trigger naming.record(op, c, a), naming.record(op, d, b)} ::
          c in COPIED && d in COPIED && Selected(x, a) && Selected(x, b)
            && naming.record(op, c, a) == naming.record(op, d, b)
          ==> a == b)
    && (forall c, a {:trigger naming.record(op, c, a)} :: c in COPIED && Selected(x, a) ==>
      naming.record(op, c, a) != "")
  }

  /** Every new id is one the digest gives for this operation. */
  ghost predicate Derived(m: IdMap, op: string, naming: Naming) {
    forall s :: s in m ==> exists c :: c in COPIED && m[s] == naming.record(op, c, s)
  }

  lemma AddDerived(m: IdMap, op: string, coll: Coll, ids: seq<Id>, naming: Naming)
    requires Derived(m, op, naming) && coll in COPIED
    ensures Derived(AddIds(m, op, coll, ids, naming), op, naming)
  {}

  lemma NewIdsDerived(x: Selection, op: string, naming: Naming)
    ensures Derived(NewIds(x, op, naming), op, naming)
  {
    var m1 := AddIds(map[], op, "scenes", SceneIds(x.scenes), naming);
    var m2 := AddIds(m1, op, "tokens", Map(x.tokens, TokenId), naming);
    var m3 := AddIds(m2, op, "actors", Map(x.actors, ActorId), naming);
    var m4 := AddIds(m3, op, "items", Map(x.items, ItemId), naming);
    AddDerived(map[], op, "scenes", SceneIds(x.scenes), naming);
    AddDerived(m1, op, "tokens", Map(x.tokens, TokenId), naming);
    AddDerived(m2, op, "actors", Map(x.actors, ActorId), naming);
    AddDerived(m3, op, "items", Map(x.items, ItemId), naming);
    AddDerived(m4, op, "calculationOverrides", Map(x.overrides, OverrideId), naming);
    var m5 := AddIds(m4, op, "calculationOverrides", Map(x.overrides, OverrideId), naming);
    AddDerived(m5, op, "encounters", Map(x.encounters, EncounterId), naming);
  }

  lemma NewIdsCover(x: Selection, op: string, naming: Naming)
    ensures Covers(x, NewIds(x, op, naming))
    ensures forall s :: s in NewIds(x, op, naming) <==> Selected(x, s)
  {}

  predicate IdTaken(s: State, id: Id) {
    id in Map(s.scenes, SceneId) || id in Map(s.tokens, TokenId) || id in Map(s.actors, ActorId)
    || id in Map(s.items, ItemId) || id in Map(s.overrides, OverrideId) || id in Map(s.encounters, EncounterId)
    || id in s.auditIds
  }

  predicate IdsAvailable(s: State, m: IdMap) { forall id <- m.Values :: !IdTaken(s, id) }
}
