/** What the copies of a scene duplication carry over from their originals. */
module SceneCopyContents {
  import opened Json
  import opened IdRegeneration
  import opened SceneDuplication
  import opened SceneCopies
  import opened SceneDuplicationLaws
  import opened SceneSelection
  import opened Sequences

  // ----- Reading a copy back -----

  /** The id a name of the copy stands for in the original. */
  ghost function Back(m: IdMap, id: Id): Id
    requires Injective(m)
  {
    Renamed(Inverse(m), id)
  }

  ghost predicate BackAll(m: IdMap, ids: seq<Id>, copies: seq<Id>)
    requires Injective(m)
  {
    |copies| == |ids| && forall i :: 0 <= i < |ids| ==> Back(m, copies[i]) == ids[i]
  }

  ghost predicate BackOption(m: IdMap, o: Option<Id>, copy: Option<Id>)
    requires Injective(m)
  {
    match o
    case None => copy == None
    case Some(id) => copy.Some? && Back(m, copy.value) == id
  }

  ghost predicate BackValue(m: IdMap, v: Value, copy: Value)
    requires Injective(m)
  {
    Remap(copy, Inverse(m)) == v
  }

  ghost predicate TokenCopied(m: IdMap, t: Token, u: Token)
    requires Injective(m)
  {
    && t.id in m && u.id == m[t.id]
    && Back(m, u.sceneId) == t.sceneId && BackOption(m, t.actorId, u.actorId) && BackValue(m, t.body, u.body)
  }

  ghost predicate ActorCopied(m: IdMap, a: Actor, b: Actor)
    requires Injective(m)
  {
    && a.id in m && b.id == m[a.id]
    && Back(m, b.campaignId) == a.campaignId && b.name == a.name + " Copy" && BackValue(m, a.body, b.body)
  }

  ghost predicate ItemCopied(m: IdMap, x: Item, y: Item)
    requires Injective(m)
  {
    x.id in m && y.id == m[x.id] && BackOption(m, x.actorId, y.actorId) && BackValue(m, x.body, y.body)
  }

  ghost predicate OverrideCopied(m: IdMap, x: Override, y: Override)
    requires Injective(m)
  {
    && x.id in m && y.id == m[x.id]
    && Back(m, y.actorId) == x.actorId && y.cleared == x.cleared && BackValue(m, x.body, y.body)
  }

  ghost predicate EncounterCopied(m: IdMap, e: Encounter, f: Encounter)
    requires Injective(m)
  {
    && e.id in m && f.id == m[e.id]
    && Back(m, f.campaignId) == e.campaignId && f.name == e.name + " Copy"
    && BackAll(m, e.tokenIds, f.tokenIds) && BackValue(m, e.body, f.body)
  }

  /** Only a missing or an empty group stays what it is. */
  ghost predicate GroupCopied(c: Copying, scene: Id, g: Option<Id>, h: Option<Id>) {
    match g
    case None => h == None
    case Some(id) =>
      var renamed := if id in c.m then c.m[id] else id;
      h == Some(if renamed == "" then "" else c.naming.nested(c.op, "anngrp", scene, renamed))
  }

  ghost predicate AnnotationCopied(c: Copying, scene: Id, a: Annotation, b: Annotation)
    requires Injective(c.m)
  {
    && b.id == c.naming.nested(c.op, "annotation", scene, if a.id in c.m then c.m[a.id] else a.id)
    && Back(c.m, b.sceneId) == scene && GroupCopied(c, scene, a.groupId, b.groupId)
    && BackAll(c.m, a.affectedTokenIds, b.affectedTokenIds) && BackValue(c.m, a.body, b.body)
  }

  ghost predicate TerrainCopied(c: Copying, scene: Id, t: Terrain, u: Terrain)
    requires Injective(c.m)
  {
    && u.id == c.naming.nested(c.op, "terrain", scene, t.id)
    && Back(c.m, u.sceneId) == scene && BackValue(c.m, t.body, u.body)
  }

  ghost predicate CoverCopied(c: Copying, scene: Id, v: Cover, w: Cover)
    requires Injective(c.m)
  {
    && w.id == c.naming.nested(c.op, "cover", scene, v.id) && Back(c.m, w.sceneId) == scene
    && Back(c.m, w.sourceTokenId) == v.sourceTokenId && Back(c.m, w.targetTokenId) == v.targetTokenId
    && BackValue(c.m, v.body, w.body)
  }

  /** One annotation, terrain and cover for each of the original's, in order. */
  ghost predicate SceneCopied(c: Copying, s: Scene, name: string, r: Scene)
    requires Injective(c.m)
  {
    && s.id in c.m && r.id == c.m[s.id] && Back(c.m, r.campaignId) == s.campaignId
    && r.name == name && !r.active && BackValue(c.m, s.body, r.body)
    && |r.annotations| == |s.annotations| && |r.terrain| == |s.terrain| && |r.covers| == |s.covers|
    && (forall k :: 0 <= k < |s.annotations| ==> AnnotationCopied(c, s.id, s.annotations[k], r.annotations[k]))
    && (forall k :: 0 <= k < |s.terrain| ==> TerrainCopied(c, s.id, s.terrain[k], r.terrain[k]))
    && (forall k :: 0 <= k < |s.covers| ==> CoverCopied(c, s.id, s.covers[k], r.covers[k]))
  }

  // ----- Copies read back as their originals -----

  lemma BackIs(m: IdMap, id: Id)
    requires Injective(m) && forall a :: a in m ==> m[a] != id
    ensures Back(m, Renamed(m, id)) == id
  {
    RenameBack(m, id);
  }

  lemma BackAllAre(m: IdMap, ids: seq<Id>)
    requires Injective(m) && forall a :: a in m ==> m[a] !in ids
    ensures BackAll(m, ids, RenamedAll(m, ids))
  {
    forall i | 0 <= i < |ids| ensures Back(m, RenamedAll(m, ids)[i]) == ids[i] { BackIs(m, ids[i]); }
  }

  lemma BackOptionIs(m: IdMap, o: Option<Id>)
    requires Injective(m) && forall a :: a in m ==> !Names(o, m[a])
    ensures BackOption(m, o, RenamedOption(m, o))
  {
    if o.Some? { BackIs(m, o.value); }
  }

  lemma BackValueIs(m: IdMap, v: Value)
    requires Injective(m) && forall a :: a in m ==> m[a] !in Strings(v)
    ensures BackValue(m, v, Remap(v, m))
  {
    RemapBack(v, m);
  }

  lemma TokenReadsBack(m: IdMap, t: Token)
    requires Injective(m) && t.id in m && forall a :: a in m ==> !TokenMentions(t, m[a])
    ensures TokenCopied(m, t, CopyToken(m, t))
  {
    BackIs(m, t.sceneId);
    BackOptionIs(m, t.actorId);
    BackValueIs(m, t.body);
  }

  lemma ActorReadsBack(m: IdMap, a: Actor)
    requires Injective(m) && a.id in m && forall k :: k in m ==> !ActorMentions(a, m[k])
    ensures ActorCopied(m, a, CopyActor(m, a))
  {
    BackIs(m, a.campaignId);
    BackValueIs(m, a.body);
  }

  lemma ItemReadsBack(m: IdMap, x: Item)
    requires Injective(m) && x.id in m && forall k :: k in m ==> !ItemMentions(x, m[k])
    ensures ItemCopied(m, x, CopyItem(m, x))
  {
    BackOptionIs(m, x.actorId);
    BackValueIs(m, x.body);
  }

  lemma OverrideReadsBack(m: IdMap, x: Override)
    requires Injective(m) && x.id in m && forall k :: k in m ==> !OverrideMentions(x, m[k])
    ensures OverrideCopied(m, x, CopyOverride(m, x))
  {
    BackIs(m, x.actorId);
    BackValueIs(m, x.body);
  }

  lemma EncounterReadsBack(m: IdMap, e: Encounter)
    requires Injective(m) && e.id in m && forall k :: k in m ==> !EncounterMentions(e, m[k])
    ensures EncounterCopied(m, e, CopyEncounter(m, e))
  {
    BackIs(m, e.campaignId);
    BackAllAre(m, e.tokenIds);
    BackValueIs(m, e.body);
  }

  lemma AnnotationReadsBack(c: Copying, scene: Id, a: Annotation)
    requires Injective(c.m) && forall k :: k in c.m ==> c.m[k] != scene && !AnnotationMentions(a, c.m[k])
    ensures AnnotationCopied(c, scene, a, CopyAnnotation(c, scene, a))
  {
    BackIs(c.m, scene);
    BackAllAre(c.m, a.affectedTokenIds);
    BackValueIs(c.m, a.body);
  }

  lemma TerrainReadsBack(c: Copying, scene: Id, t: Terrain)
    requires Injective(c.m) && forall k :: k in c.m ==> c.m[k] != scene && !TerrainMentions(t, c.m[k])
    ensures TerrainCopied(c, scene, t, CopyTerrain(c, scene, t))
  {
    BackIs(c.m, scene);
    BackValueIs(c.m, t.body);
  }

  lemma CoverReadsBack(c: Copying, scene: Id, v: Cover)
    requires Injective(c.m) && forall k :: k in c.m ==> c.m[k] != scene && !CoverMentions(v, c.m[k])
    ensures CoverCopied(c, scene, v, CopyCover(c, scene, v))
  {
    BackIs(c.m, scene);
    BackIs(c.m, v.sourceTokenId);
    BackIs(c.m, v.targetTokenId);
    BackValueIs(c.m, v.body);
  }

  lemma SceneReadsBack(c: Copying, x: Chosen, sortOrder: int)
    requires Injective(c.m) && x.scene.id in c.m && forall k :: k in c.m ==> !SceneMentions(x.scene, c.m[k])
    ensures SceneCopied(c, x.scene, x.name, CopyScene(c, x, sortOrder))
  {
    var s := x.scene;
    BackIs(c.m, s.campaignId);
    BackValueIs(c.m, s.body);
    forall i | 0 <= i < |s.annotations|
      ensures AnnotationCopied(c, s.id, s.annotations[i], CopyAnnotation(c, s.id, s.annotations[i]))
    {
      assert s.annotations[i] in s.annotations;
      AnnotationReadsBack(c, s.id, s.annotations[i]);
    }
    forall i | 0 <= i < |s.terrain| ensures TerrainCopied(c, s.id, s.terrain[i], CopyTerrain(c, s.id, s.terrain[i])) {
      assert s.terrain[i] in s.terrain;
      TerrainReadsBack(c, s.id, s.terrain[i]);
    }
    forall i | 0 <= i < |s.covers| ensures CoverCopied(c, s.id, s.covers[i], CopyCover(c, s.id, s.covers[i])) {
      assert s.covers[i] in s.covers;
      CoverReadsBack(c, s.id, s.covers[i]);
    }
  }

  // ----- The copies -----

  ghost predicate SelectionMentions(x: Selection, id: Id) {
    || (exists c <- x.scenes :: SceneMentions(c.scene, id)) || (exists t <- x.tokens :: TokenMentions(t, id))
    || (exists a <- x.actors :: ActorMentions(a, id)) || (exists y <- x.items :: ItemMentions(y, id))
    || (exists o <- x.overrides :: OverrideMentions(o, id)) || (exists e <- x.encounters :: EncounterMentions(e, id))
  }

  /** No id the digest gives for a selected record occurs in a selected record. */
  ghost predicate NewNamesUnused(naming: Naming, op: string, x: Selection) {
    forall c, a {:trigger naming.record(op, c, a)} ::
      c in COPIED && Selected(x, a) ==> !SelectionMentions(x, naming.record(op, c, a))
  }

  /** The `i`-th copy of each collection is that of the `i`-th selected record. */
  ghost predicate Carried(c: Copying, x: Selection, p: Prepared)
    requires Injective(c.m)
  {
    && |p.scenes| == |x.scenes| && |p.tokens| == |x.tokens| && |p.actors| == |x.actors| && |p.items| == |x.items|
    && |p.overrides| == |x.overrides| && |p.encounters| == |x.encounters|
    && (forall i :: 0 <= i < |x.scenes| ==> SceneCopied(c, x.scenes[i].scene, x.scenes[i].name, p.scenes[i]))
    && (forall i :: 0 <= i < |x.tokens| ==> TokenCopied(c.m, x.tokens[i], p.tokens[i]))
    && (forall i :: 0 <= i < |x.actors| ==> ActorCopied(c.m, x.actors[i], p.actors[i]))
    && (forall i :: 0 <= i < |x.items| ==> ItemCopied(c.m, x.items[i], p.items[i]))
    && (forall i :: 0 <= i < |x.overrides| ==> OverrideCopied(c.m, x.overrides[i], p.overrides[i]))
    && (forall i :: 0 <= i < |x.encounters| ==> EncounterCopied(c.m, x.encounters[i], p.encounters[i]))
  }

  lemma ScenesCarried(c: Copying, x: Selection, first: int)
    requires Injective(c.m) && Covers(x, c.m) && forall k :: k in c.m ==> !SelectionMentions(x, c.m[k])
    ensures forall i :: 0 <= i < |x.scenes| ==>
      SceneCopied(c, x.scenes[i].scene, x.scenes[i].name, CopyScenes(c, x.scenes, first)[i])
  {
    forall i | 0 <= i < |x.scenes|
      ensures SceneCopied(c, x.scenes[i].scene, x.scenes[i].name, CopyScenes(c, x.scenes, first)[i])
    {
      assert x.scenes[i] in x.scenes && SceneIds(x.scenes)[i] in SceneIds(x.scenes);
      SceneReadsBack(c, x.scenes[i], first + i);
    }
  }

  lemma RecordsCarried(m: IdMap, x: Selection)
    requires Injective(m) && Covers(x, m) && forall k :: k in m ==> !SelectionMentions(x, m[k])
    ensures forall i :: 0 <= i < |x.tokens| ==> TokenCopied(m, x.tokens[i], CopyToken(m, x.tokens[i]))
    ensures forall i :: 0 <= i < |x.actors| ==> ActorCopied(m, x.actors[i], CopyActor(m, x.actors[i]))
    ensures forall i :: 0 <= i < |x.items| ==> ItemCopied(m, x.items[i], CopyItem(m, x.items[i]))
    ensures forall i :: 0 <= i < |x.overrides| ==> OverrideCopied(m, x.overrides[i], CopyOverride(m, x.overrides[i]))
    ensures forall i :: 0 <= i < |x.encounters| ==>
      EncounterCopied(m, x.encounters[i], CopyEncounter(m, x.encounters[i]))
  {
    forall i | 0 <= i < |x.tokens| ensures TokenCopied(m, x.tokens[i], CopyToken(m, x.tokens[i])) {
      assert x.tokens[i] in x.tokens && Map(x.tokens, TokenId)[i] in Map(x.tokens, TokenId);
      TokenReadsBack(m, x.tokens[i]);
    }
    forall i | 0 <= i < |x.actors| ensures ActorCopied(m, x.actors[i], CopyActor(m, x.actors[i])) {
      assert x.actors[i] in x.actors && Map(x.actors, ActorId)[i] in Map(x.actors, ActorId);
      ActorReadsBack(m, x.actors[i]);
    }
    forall i | 0 <= i < |x.items| ensures ItemCopied(m, x.items[i], CopyItem(m, x.items[i])) {
      assert x.items[i] in x.items && Map(x.items, ItemId)[i] in Map(x.items, ItemId);
      ItemReadsBack(m, x.items[i]);
    }
    forall i | 0 <= i < |x.overrides| ensures OverrideCopied(m, x.overrides[i], CopyOverride(m, x.overrides[i])) {
      assert x.overrides[i] in x.overrides && Map(x.overrides, OverrideId)[i] in Map(x.overrides, OverrideId);
      OverrideReadsBack(m, x.overrides[i]);
    }
    forall i | 0 <= i < |x.encounters| ensures EncounterCopied(m, x.encounters[i], CopyEncounter(m, x.encounters[i])) {
      assert x.encounters[i] in x.encounters && Map(x.encounters, EncounterId)[i] in Map(x.encounters, EncounterId);
      EncounterReadsBack(m, x.encounters[i]);
    }
  }

  lemma AllCarried(s: State, campaignId: Id, op: string, x: Selection, m: IdMap, naming: Naming)
    requires Injective(m) && Covers(x, m) && forall k :: k in m ==> !SelectionMentions(x, m[k])
    ensures Carried(Copying(op, m, naming), x, Copies(s, campaignId, op, x, m, naming))
  {
    ScenesCarried(Copying(op, m, naming), x, HighestSortOrder(s.scenes, campaignId) + 1);
    RecordsCarried(m, x);
  }

  lemma NewNamesFit(x: Selection, op: string, naming: Naming)
    requires NoCollisions(naming, op, x) && NewNamesUnused(naming, op, x)
    ensures var m := NewIds(x, op, naming);
      && NamedFor(x, op, naming, m) && Injective(m) && Covers(x, m)
      && forall k :: k in m ==> !SelectionMentions(x, m[k])
  {
    var m := NewIds(x, op, naming);
    NewIdsInjective(x, op, naming);
    NewIdsCover(x, op, naming);
    forall id
      ensures (id in m <==> Selected(x, id)) && (id in m ==> m[id] == naming.record(op, LastHolder(x, id), id))
    {
      NewIdIs(x, op, naming, id);
    }
    forall k | k in m ensures !SelectionMentions(x, m[k]) { assert LastHolder(x, k) in COPIED; }
  }

  /** A prepared duplication copies the requested scenes with all that belongs to them, and every
      copy, its new ids renamed back, is its original but for the members the duplication sets. */
  lemma CopiesCarryOriginals(s: State, campaignId: Id, req: Request, naming: Naming,
    shared: (State, Selection) -> bool)
    returns (x: Selection, m: IdMap)
    requires Prepare(s, campaignId, req, naming, shared).Ok?
    requires var y := Select(s, campaignId, req.sources).value;
      NoCollisions(naming, req.operationId, y) && NewNamesUnused(naming, req.operationId, y)
    ensures SelectedFor(s, campaignId, req.sources, x) && NamedFor(x, req.operationId, naming, m) && Injective(m)
    ensures Carried(Copying(req.operationId, m, naming), x, Prepare(s, campaignId, req, naming, shared).value)
  {
    x, m := PreparedParts(s, campaignId, req, naming, shared);
    SelectsFor(s, campaignId, req.sources, x);
    NewNamesFit(x, req.operationId, naming);
    AllCarried(s, campaignId, req.operationId, x, m, naming);
  }
}
