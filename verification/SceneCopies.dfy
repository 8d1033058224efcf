/** The copies a scene duplication makes, and what it does to the engine state. */
module SceneCopies {
  import opened Json
  import opened IdRegeneration
  import opened Revisions
  import opened SceneDuplication
  import opened Sequences

  datatype Prepared = Prepared(
    operationId: string, campaignId: Id, scenes: seq<Scene>, tokens: seq<Token>, actors: seq<Actor>,
    items: seq<Item>, overrides: seq<Override>, encounters: seq<Encounter>)

  function RenamedAll(m: IdMap, ids: seq<Id>): (r: seq<Id>)
    ensures |r| == |ids| && forall i :: 0 <= i < |ids| ==> r[i] == Renamed(m, ids[i])
  {
    seq(|ids|, i requires 0 <= i < |ids| => Renamed(m, ids[i]))
  }

  function RenamedOption(m: IdMap, o: Option<Id>): Option<Id> { if o.None? then o else Some(Renamed(m, o.value)) }

  /** What copying a scene needs to know besides the scene. */
  datatype Copying = Copying(op: string, m: IdMap, naming: Naming)

  function CopyGroup(c: Copying, scene: Id, group: Option<Id>): Option<Id> {
    var g := RenamedOption(c.m, group);
    if Given(g) then Some(c.naming.nested(c.op, "anngrp", scene, g.value)) else g
  }

  function CopyAnnotation(c: Copying, scene: Id, a: Annotation): Annotation {
    Annotation(c.naming.nested(c.op, "annotation", scene, Renamed(c.m, a.id)), Renamed(c.m, scene),
               CopyGroup(c, scene, a.groupId), RenamedAll(c.m, a.affectedTokenIds), Remap(a.body, c.m))
  }

  function CopyTerrain(c: Copying, scene: Id, t: Terrain): Terrain {
    Terrain(c.naming.nested(c.op, "terrain", scene, t.id), Renamed(c.m, scene), Remap(t.body, c.m))
  }

  function CopyCover(c: Copying, scene: Id, v: Cover): Cover {
    Cover(c.naming.nested(c.op, "cover", scene, v.id), Renamed(c.m, scene),
          Renamed(c.m, v.sourceTokenId), Renamed(c.m, v.targetTokenId), Remap(v.body, c.m))
  }

  function CopyToken(m: IdMap, t: Token): Token {
    Token(Renamed(m, t.id), Renamed(m, t.sceneId), RenamedOption(m, t.actorId), Remap(t.body, m))
  }

  function CopyActor(m: IdMap, a: Actor): Actor {
    Actor(Renamed(m, a.id), Renamed(m, a.campaignId), a.name + " Copy", Remap(a.body, m))
  }

  function CopyItem(m: IdMap, x: Item): Item {
    Item(Renamed(m, x.id), RenamedOption(m, x.actorId), Remap(x.body, m))
  }

  function CopyOverride(m: IdMap, x: Override): Override {
    Override(Renamed(m, x.id), Renamed(m, x.actorId), x.cleared, Remap(x.body, m))
  }

  function CopyEncounter(m: IdMap, e: Encounter): Encounter {
    Encounter(Renamed(m, e.id), Renamed(m, e.campaignId), e.name + " Copy", RenamedAll(m, e.tokenIds), Remap(e.body, m))
  }

  function CopyScene(c: Copying, x: Chosen, sortOrder: int): Scene {
    var s := x.scene;
    Scene(Renamed(c.m, s.id), Renamed(c.m, s.campaignId), x.name, false, sortOrder,
          Map(s.annotations, a => CopyAnnotation(c, s.id, a)), Map(s.terrain, t => CopyTerrain(c, s.id, t)),
          Map(s.covers, v => CopyCover(c, s.id, v)), Remap(s.body, c.m))
  }

  function CopyScenes(c: Copying, xs: seq<Chosen>, first: int): (r: seq<Scene>)
    ensures |r| == |xs| && forall i :: 0 <= i < |xs| ==> r[i] == CopyScene(c, xs[i], first + i)
  {
    seq(|xs|, i requires 0 <= i < |xs| => CopyScene(c, xs[i], first + i))
  }

  function HighestSortOrder(scenes: seq<Scene>, campaignId: Id): (r: int)
    ensures r >= 0 && forall s <- scenes :: s.campaignId == campaignId ==> s.sortOrder <= r
    ensures r > 0 ==> exists s <- scenes :: s.campaignId == campaignId && s.sortOrder == r
  {
    if scenes == [] then 0
    else
      var rest, s := HighestSortOrder(scenes[1..], campaignId), scenes[0];
      if s.campaignId == campaignId && s.sortOrder > rest then s.sortOrder else rest
  }

  function Copies(s: State, campaignId: Id, op: string, x: Selection, m: IdMap, naming: Naming): Prepared {
    Prepared(op, campaignId,
      CopyScenes(Copying(op, m, naming), x.scenes, HighestSortOrder(s.scenes, campaignId) + 1),
      Map(x.tokens, t => CopyToken(m, t)), Map(x.actors, a => CopyActor(m, a)), Map(x.items, y => CopyItem(m, y)),
      Map(x.overrides, o => CopyOverride(m, o)), Map(x.encounters, e => CopyEncounter(m, e)))
  }

  /** `shared` says whether the worlds, assets and uncopied actors the selection refers to
      belong to the campaign. */
  function Prepare(s: State, campaignId: Id, req: Request, naming: Naming,
    shared: (State, Selection) -> bool): Result<Prepared>
  {
    if !OperationIdFits(req.operationId) then Refused(BadOperationId)
    else if req.sources == [] || |req.sources| > MAX_SOURCES then Refused(BadSourceCount)
    else if !Distinct(SourceIds(req.sources)) then Refused(RepeatedSource)
    else
      var x := Select(s, campaignId, req.sources);
      if x.Refused? then Refused(x.why) else PrepareSelected(s, campaignId, req.operationId, x.value, naming, shared)
  }

  function PrepareSelected(s: State, campaignId: Id, op: string, x: Selection, naming: Naming,
    shared: (State, Selection) -> bool): Result<Prepared>
  {
    var m := NewIds(x, op, naming);
    if !IdsAvailable(s, m) then Refused(AlreadyExists)
    else if !shared(s, x) then Refused(ForeignReference)
    else Ok(Copies(s, campaignId, op, x, m, naming))
  }

  // ----- The same, step by step -----

  /** The group ids are looked up in a table filled as the groups are met. */
  method DuplicateAnnotations(c: Copying, scene: Scene) returns (r: seq<Annotation>)
    ensures r == Map(scene.annotations, a => CopyAnnotation(c, scene.id, a))
  {
    r := [];
    var groups: map<Id, Id> := map[];
    for n := 0 to |scene.annotations|
      invariant |r| == n
      invariant forall i :: 0 <= i < n ==> r[i] == CopyAnnotation(c, scene.id, scene.annotations[i])
      invariant forall g :: g in groups ==> groups[g] == c.naming.nested(c.op, "anngrp", scene.id, g)
    {
      var a := scene.annotations[n];
      var group := RenamedOption(c.m, a.groupId);
      if Given(group) {
        if group.value !in groups {
          groups := groups[group.value := c.naming.nested(c.op, "anngrp", scene.id, group.value)];
        }
        group := Some(groups[group.value]);
      }
      r := r + [Annotation(c.naming.nested(c.op, "annotation", scene.id, Renamed(c.m, a.id)), Renamed(c.m, scene.id),
                           group, RenamedAll(c.m, a.affectedTokenIds), Remap(a.body, c.m))];
    }
  }

  method DuplicateScenes(c: Copying, xs: seq<Chosen>, first: int) returns (r: seq<Scene>)
    ensures r == CopyScenes(c, xs, first)
  {
    r := [];
    for n := 0 to |xs|
      invariant |r| == n
      invariant forall i :: 0 <= i < n ==> r[i] == CopyScene(c, xs[i], first + i)
    {
      var s := xs[n].scene;
      var annotations := DuplicateAnnotations(c, s);
      r := r + [Scene(Renamed(c.m, s.id), Renamed(c.m, s.campaignId), xs[n].name, false, first + n, annotations,
                      Map(s.terrain, t => CopyTerrain(c, s.id, t)), Map(s.covers, v => CopyCover(c, s.id, v)),
                      Remap(s.body, c.m))];
      assert r[n] == CopyScene(c, xs[n], first + n);
    }
  }

  method AssignIds(x: Selection, op: string, naming: Naming) returns (m: IdMap)
    ensures m == NewIds(x, op, naming)
  {
    m := AddRecordIds(map[], op, "scenes", SceneIds(x.scenes), naming);
    m := AddRecordIds(m, op, "tokens", Map(x.tokens, TokenId), naming);
    m := AddRecordIds(m, op, "actors", Map(x.actors, ActorId), naming);
    m := AddRecordIds(m, op, "items", Map(x.items, ItemId), naming);
    m := AddRecordIds(m, op, "calculationOverrides", Map(x.overrides, OverrideId), naming);
    m := AddRecordIds(m, op, "encounters", Map(x.encounters, EncounterId), naming);
  }

  method MakeCopies(s: State, campaignId: Id, op: string, x: Selection, m: IdMap, naming: Naming) returns (p: Prepared)
    ensures p == Copies(s, campaignId, op, x, m, naming)
  {
    var scenes := DuplicateScenes(Copying(op, m, naming), x.scenes, HighestSortOrder(s.scenes, campaignId) + 1);
    p := Copies(s, campaignId, op, x, m, naming).(scenes := scenes);
  }

  method DuplicateSelected(s: State, campaignId: Id, op: string, x: Selection, naming: Naming,
    shared: (State, Selection) -> bool)
    returns (r: Result<Prepared>)
    ensures r == PrepareSelected(s, campaignId, op, x, naming, shared)
  {
    var m := AssignIds(x, op, naming);
    if !IdsAvailable(s, m) { return Refused(AlreadyExists); }
    if !shared(s, x) { return Refused(ForeignReference); }
    var copies := MakeCopies(s, campaignId, op, x, m, naming);
    r := Ok(copies);
  }

  /** Id by id, `to` is what the digest gives for `from`. */
  ghost predicate NamedAfter(op: string, naming: Naming, from: seq<Id>, to: seq<Id>) {
    |to| == |from| && forall i :: 0 <= i < |from| ==> exists c :: c in COPIED && to[i] == naming.record(op, c, from[i])
  }

  /** One copy for each selected record, in order: the scenes as requested, their tokens, the
      actors of those tokens as they are first met, what those hold, and whole encounters. */
  ghost predicate CopiesInOrder(s: State, campaignId: Id, req: Request, naming: Naming, p: Prepared) {
    var op, ids := req.operationId, SourceIds(req.sources);
    var tokens := Filter(s.tokens, OnScenes(ids));
    var actorIds := ActorIds(tokens);
    && NamedAfter(op, naming, ids, Map(p.scenes, SceneId))
    && NamedAfter(op, naming, Map(tokens, TokenId), Map(p.tokens, TokenId))
    && NamedAfter(op, naming, actorIds, Map(p.actors, ActorId))
    && NamedAfter(op, naming, Map(Filter(s.items, HeldBy(actorIds)), ItemId), Map(p.items, ItemId))
    && NamedAfter(op, naming, Map(Filter(s.overrides, ActiveFor(actorIds)), OverrideId), Map(p.overrides, OverrideId))
    && NamedAfter(op, naming, Map(Filter(s.encounters, WithinTokens(campaignId, Map(tokens, TokenId))), EncounterId),
      Map(p.encounters, EncounterId))
  }

  ghost predicate NoneTaken(s: State, ids: seq<Id>) { forall id <- ids :: !IdTaken(s, id) }

  /** No copy has an id that is in use. */
  ghost predicate CopiesAreNew(s: State, p: Prepared) {
    && NoneTaken(s, Map(p.scenes, SceneId)) && NoneTaken(s, Map(p.tokens, TokenId))
      && NoneTaken(s, Map(p.actors, ActorId))
    && NoneTaken(s, Map(p.items, ItemId)) && NoneTaken(s, Map(p.overrides, OverrideId))
    && NoneTaken(s, Map(p.encounters, EncounterId))
  }

  /** Some id derived for a selected record is in use. */
  ghost predicate Clashes(s: State, x: Selection, op: string, naming: Naming) {
    exists id :: Selected(x, id) && id in NewIds(x, op, naming) && IdTaken(s, NewIds(x, op, naming)[id])
  }

  lemma ClashesIff(s: State, x: Selection, op: string, naming: Naming)
    ensures IdsAvailable(s, NewIds(x, op, naming)) <==> !Clashes(s, x, op, naming)
  {
    var m := NewIds(x, op, naming);
    NewIdsCover(x, op, naming);
    if !IdsAvailable(s, m) {
      var v :| v in m.Values && IdTaken(s, v);
      var id :| id in m && m[id] == v;
      assert Selected(x, id);
    }
    if Clashes(s, x, op, naming) {
      var id :| Selected(x, id) && id in m && IdTaken(s, m[id]);
      assert m[id] in m.Values;
    }
  }

  /** If an id is one of the selected ones, its new name is one of the copies'. */
  ghost predicate Follows(m: IdMap, from: seq<Id>, to: seq<Id>) {
    |from| == |to| && forall i :: 0 <= i < |from| ==> to[i] == Renamed(m, from[i])
  }

  ghost predicate CopiesFollow(m: IdMap, x: Selection, p: Prepared) {
    && Follows(m, SceneIds(x.scenes), Map(p.scenes, SceneId))
      && Follows(m, Map(x.tokens, TokenId), Map(p.tokens, TokenId))
    && Follows(m, Map(x.actors, ActorId), Map(p.actors, ActorId))
      && Follows(m, Map(x.items, ItemId), Map(p.items, ItemId))
    && Follows(m, Map(x.overrides, OverrideId), Map(p.overrides, OverrideId))
    && Follows(m, Map(x.encounters, EncounterId), Map(p.encounters, EncounterId))
  }

  lemma CopyIdsFollow(s: State, campaignId: Id, op: string, x: Selection, m: IdMap, naming: Naming)
    ensures CopiesFollow(m, x, Copies(s, campaignId, op, x, m, naming))
  {}

  lemma SelectedParts(s: State, campaignId: Id, sources: seq<Source>, x: Selection)
    requires Select(s, campaignId, sources) == Ok(x)
    ensures SceneIds(x.scenes) == SourceIds(sources) && x.tokens == Filter(s.tokens, OnScenes(SourceIds(sources)))
    ensures var actorIds := ActorIds(x.tokens);
      && Map(x.actors, ActorId) == actorIds && x.items == Filter(s.items, HeldBy(actorIds))
      && x.overrides == Filter(s.overrides, ActiveFor(actorIds))
      && x.encounters == Filter(s.encounters, WithinTokens(campaignId, Map(x.tokens, TokenId)))
  {
    assert SceneIds(x.scenes) == SourceIds(sources);
  }

  /** A list of copies whose ids are the new ids of the records copied. */
  lemma RenamedAreNew(s: State, op: string, naming: Naming, m: IdMap, from: seq<Id>, to: seq<Id>)
    requires Derived(m, op, naming) && IdsAvailable(s, m) && AllIn(from, m)
    requires Follows(m, from, to)
    ensures NamedAfter(op, naming, from, to) && NoneTaken(s, to)
  {
    forall i | 0 <= i < |from|
      ensures !IdTaken(s, to[i]) && exists c :: c in COPIED && to[i] == naming.record(op, c, from[i])
    {
      assert from[i] in m && m[from[i]] in m.Values;
    }
  }

  lemma PreparedCopies(s: State, campaignId: Id, req: Request, x: Selection, naming: Naming)
    requires Select(s, campaignId, req.sources) == Ok(x) && IdsAvailable(s, NewIds(x, req.operationId, naming))
    ensures var p := Copies(s, campaignId, req.operationId, x, NewIds(x, req.operationId, naming), naming);
      CopiesInOrder(s, campaignId, req, naming, p) && CopiesAreNew(s, p)
  {
    var op := req.operationId;
    var m := NewIds(x, op, naming);
    var p := Copies(s, campaignId, op, x, m, naming);
    SelectedParts(s, campaignId, req.sources, x);
    CopyIdsFollow(s, campaignId, op, x, m, naming);
    CopiesNamed(s, op, naming, x, p);
  }

  lemma CopiesNamed(s: State, op: string, naming: Naming, x: Selection, p: Prepared)
    requires IdsAvailable(s, NewIds(x, op, naming)) && CopiesFollow(NewIds(x, op, naming), x, p)
    ensures NamedAfter(op, naming, SceneIds(x.scenes), Map(p.scenes, SceneId))
    ensures NamedAfter(op, naming, Map(x.tokens, TokenId), Map(p.tokens, TokenId))
    ensures NamedAfter(op, naming, Map(x.actors, ActorId), Map(p.actors, ActorId))
    ensures NamedAfter(op, naming, Map(x.items, ItemId), Map(p.items, ItemId))
    ensures NamedAfter(op, naming, Map(x.overrides, OverrideId), Map(p.overrides, OverrideId))
    ensures NamedAfter(op, naming, Map(x.encounters, EncounterId), Map(p.encounters, EncounterId))
    ensures CopiesAreNew(s, p)
  {
    var m := NewIds(x, op, naming);
    NewIdsCover(x, op, naming);
    NewIdsDerived(x, op, naming);
    RenamedAreNew(s, op, naming, m, SceneIds(x.scenes), Map(p.scenes, SceneId));
    RenamedAreNew(s, op, naming, m, Map(x.tokens, TokenId), Map(p.tokens, TokenId));
    RenamedAreNew(s, op, naming, m, Map(x.actors, ActorId), Map(p.actors, ActorId));
    RenamedAreNew(s, op, naming, m, Map(x.items, ItemId), Map(p.items, ItemId));
    RenamedAreNew(s, op, naming, m, Map(x.overrides, OverrideId), Map(p.overrides, OverrideId));
    RenamedAreNew(s, op, naming, m, Map(x.encounters, EncounterId), Map(p.encounters, EncounterId));
  }

  predicate WellFormed(req: Request) {
    OperationIdFits(req.operationId) && 0 < |req.sources| <= MAX_SOURCES && Distinct(SourceIds(req.sources))
  }

  lemma {:induction false} ChooseNeverClashes(scenes: seq<Scene>, sources: seq<Source>, campaignId: Id)
    ensures Choose(scenes, sources, campaignId) != Refused(AlreadyExists)
  {
    if sources != [] { ChooseNeverClashes(scenes, sources[1..], campaignId); }
  }

  lemma SelectNeverClashes(s: State, campaignId: Id, sources: seq<Source>)
    ensures Select(s, campaignId, sources) != Refused(AlreadyExists)
  {
    ChooseNeverClashes(s.scenes, sources, campaignId);
  }

  lemma SelectedIsCopied(s: State, campaignId: Id, op: string, x: Selection, naming: Naming,
    shared: (State, Selection) -> bool)
    requires PrepareSelected(s, campaignId, op, x, naming, shared).Ok?
    ensures var m := NewIds(x, op, naming);
      IdsAvailable(s, m)
        && PrepareSelected(s, campaignId, op, x, naming, shared).value == Copies(s, campaignId, op, x, m, naming)
  {}

  lemma SelectedClashes(s: State, campaignId: Id, op: string, x: Selection, naming: Naming,
    shared: (State, Selection) -> bool)
    ensures PrepareSelected(s, campaignId, op, x, naming, shared) == Refused(AlreadyExists)
      <==> Clashes(s, x, op, naming)
  {
    ClashesIff(s, x, op, naming);
  }

  /** A prepared duplication has one copy for each selected record, in order, under ids that
      nothing in the state has; it is refused as already done exactly when such an id is taken. */
  method PrepareSceneDuplication(s: State, campaignId: Id, req: Request, naming: Naming,
    shared: (State, Selection) -> bool)
    returns (r: Result<Prepared>)
    ensures r == Prepare(s, campaignId, req, naming, shared)
    ensures r.Ok? ==> CopiesInOrder(s, campaignId, req, naming, r.value) && CopiesAreNew(s, r.value)
    ensures r == Refused(AlreadyExists) <==>
      WellFormed(req) && Select(s, campaignId, req.sources).Ok?
      && Clashes(s, Select(s, campaignId, req.sources).value, req.operationId, naming)
  {
    if !OperationIdFits(req.operationId) { return Refused(BadOperationId); }
    if req.sources == [] || |req.sources| > MAX_SOURCES { return Refused(BadSourceCount); }
    if !Distinct(SourceIds(req.sources)) { return Refused(RepeatedSource); }
    var selected := Select(s, campaignId, req.sources);
    if selected.Refused? {
      SelectNeverClashes(s, campaignId, req.sources);
      return Refused(selected.why);
    }
    r := DuplicateSelected(s, campaignId, req.operationId, selected.value, naming, shared);
    SelectedClashes(s, campaignId, req.operationId, selected.value, naming, shared);
    if r.Ok? {
      SelectedIsCopied(s, campaignId, req.operationId, selected.value, naming, shared);
      PreparedCopies(s, campaignId, req, selected.value, naming);
    }
  }

  // ----- Committing -----

  function CampaignIndex(campaigns: seq<Campaign>, id: Id): (r: Option<nat>)
    ensures r.Some? ==> r.value < |campaigns| && campaigns[r.value].id == id
    ensures r.None? ==> forall c <- campaigns :: c.id != id
  {
    if campaigns == [] then None
    else if campaigns[0].id == id then Some(0)
    else
      var rest := CampaignIndex(campaigns[1..], id);
      if rest.None? then None else Some(rest.value + 1)
  }

  function Committed(s: State, p: Prepared, naming: Naming, now: int): State {
    var i := CampaignIndex(s.campaigns, p.campaignId);
    if i.None? then s
    else
      var c := s.campaigns[i.value];
      State(s.campaigns[i.value := c.(updatedAt := NextRevision(c.updatedAt, now))],
        s.scenes + p.scenes, s.tokens + p.tokens, s.actors + p.actors, s.items + p.items,
        s.overrides + p.overrides, s.encounters + p.encounters, s.auditIds + [naming.audit(p.operationId)])
  }

  class StateStore {
    var state: State

    constructor (s: State)
      ensures state == s
    {
      state := s;
    }

    /** `fails` says that writing the new state throws; the earlier state is then put back. */
    method Commit(p: Prepared, naming: Naming, now: int, fails: bool) returns (r: Result<Campaign>)
      modifies this
      ensures r.Refused? <==> fails || CampaignIndex(old(state).campaigns, p.campaignId).None?
      ensures r.Refused? ==> state == old(state)
      ensures r.Ok? ==> state == Committed(old(state), p, naming, now)
      ensures r.Ok? ==> r.value in state.campaigns && r.value.id == p.campaignId
      ensures r.Ok? ==> exists c <- old(state).campaigns :: c.id == p.campaignId && r.value.updatedAt > c.updatedAt
    {
      var before := state;
      var i := CampaignIndex(before.campaigns, p.campaignId);
      if i.None? { return Refused(UnknownCampaign); }
      var campaign := before.campaigns[i.value];
      campaign := campaign.(updatedAt := NextRevision(campaign.updatedAt, now));
      state := State(before.campaigns[i.value := campaign],
        before.scenes + p.scenes, before.tokens + p.tokens, before.actors + p.actors, before.items + p.items,
        before.overrides + p.overrides, before.encounters + p.encounters, before.auditIds
          + [naming.audit(p.operationId)]);
      if fails {
        state := before;
        return Refused(StoreFailed);
      }
      assert state.campaigns[i.value] == campaign;
      r := Ok(campaign);
    }
  }
}
