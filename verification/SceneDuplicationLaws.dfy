/** What a scene duplication guarantees about the state it leaves. */
module SceneDuplicationLaws {
  import opened Json
  import opened IdRegeneration
  import opened SceneDuplication
  import opened SceneCopies
  import opened Sequences

  // ----- The selection comes from the state -----

  lemma NewIdsInjective(x: Selection, op: string, naming: Naming)
    requires NoCollisions(naming, op, x)
    ensures var m := NewIds(x, op, naming); Injective(m) && forall a :: a in m ==> m[a] != ""
  {
    var m := NewIds(x, op, naming);
    NewIdsCover(x, op, naming);
    NewIdsDerived(x, op, naming);
    forall a, b | a in m && b in m && m[a] == m[b] ensures a == b {
      var c :| c in COPIED && m[a] == naming.record(op, c, a);
      var d :| d in COPIED && m[b] == naming.record(op, d, b);
    }
  }

  ghost predicate Among(ids: seq<Id>, all: seq<Id>) { forall id <- ids :: id in all }

  lemma SubsequenceIds<T>(sub: seq<T>, all: seq<T>, id: T -> Id)
    requires forall x <- sub :: x in all
    ensures Among(Map(sub, id), Map(all, id))
  {
    forall i | 0 <= i < |sub| ensures id(sub[i]) in Map(all, id) {
      assert sub[i] in all;
      var k :| 0 <= k < |all| && all[k] == sub[i];
      assert Map(all, id)[k] == id(sub[i]);
    }
  }

  /** The selected records are records of the state. */
  lemma SelectionKnown(s: State, campaignId: Id, sources: seq<Source>)
    requires Select(s, campaignId, sources).Ok?
    ensures var x := Select(s, campaignId, sources).value;
      && Among(SceneIds(x.scenes), Map(s.scenes, SceneId)) && Among(Map(x.tokens, TokenId), Map(s.tokens, TokenId))
      && Among(Map(x.actors, ActorId), Map(s.actors, ActorId)) && Among(Map(x.items, ItemId), Map(s.items, ItemId))
      && Among(Map(x.overrides, OverrideId), Map(s.overrides, OverrideId))
      && Among(Map(x.encounters, EncounterId), Map(s.encounters, EncounterId))
  {
    var x := Select(s, campaignId, sources).value;
    SubsequenceIds(x.tokens, s.tokens, TokenId);
    SubsequenceIds(x.actors, s.actors, ActorId);
    SubsequenceIds(x.items, s.items, ItemId);
    SubsequenceIds(x.overrides, s.overrides, OverrideId);
    SubsequenceIds(x.encounters, s.encounters, EncounterId);
    var scenes := Map(x.scenes, ChosenScene);
    assert forall i :: 0 <= i < |x.scenes| ==> scenes[i] == x.scenes[i].scene;
    SubsequenceIds(scenes, s.scenes, SceneId);
    assert SceneIds(x.scenes) == Map(scenes, SceneId);
  }

  lemma SelectedTaken(s: State, campaignId: Id, sources: seq<Source>, id: Id)
    requires Select(s, campaignId, sources).Ok? && Selected(Select(s, campaignId, sources).value, id)
    ensures IdTaken(s, id)
  {
    SelectionKnown(s, campaignId, sources);
  }

  /** What a prepared duplication is made of. */
  ghost predicate PreparedFrom(s: State, campaignId: Id, req: Request, naming: Naming, x: Selection, m: IdMap,
    p: Prepared)
  {
    && Distinct(SourceIds(req.sources)) && req.sources != []
    && Select(s, campaignId, req.sources) == Ok(x)
    && m == NewIds(x, req.operationId, naming)
    && IdsAvailable(s, m)
    && p == Copies(s, campaignId, req.operationId, x, m, naming)
  }

  lemma PreparedParts(s: State, campaignId: Id, req: Request, naming: Naming, shared: (State, Selection) -> bool)
    returns (x: Selection, m: IdMap)
    requires Prepare(s, campaignId, req, naming, shared).Ok?
    ensures PreparedFrom(s, campaignId, req, naming, x, m, Prepare(s, campaignId, req, naming, shared).value)
  {
    x := Select(s, campaignId, req.sources).value;
    m := NewIds(x, req.operationId, naming);
  }

  /** No new id is the id of a selected record. */
  lemma NewIdsAreNotSelected(s: State, campaignId: Id, req: Request, naming: Naming, x: Selection, m: IdMap,
    p: Prepared)
    requires PreparedFrom(s, campaignId, req, naming, x, m, p)
    ensures forall a, b :: a in m && b in m ==> m[a] != b
  {
    NewIdsCover(x, req.operationId, naming);
    forall a, b | a in m && b in m ensures m[a] != b {
      SelectedTaken(s, campaignId, req.sources, b);
      assert m[a] in m.Values;
    }
  }

  // ----- The copies refer to no selected record -----

  predicate Names(o: Option<Id>, id: Id) { o == Some(id) }

  predicate AnnotationMentions(a: Annotation, id: Id) {
    a.sceneId == id || id in a.affectedTokenIds || id in Strings(a.body)
  }

  predicate TerrainMentions(t: Terrain, id: Id) { t.sceneId == id || id in Strings(t.body) }

  predicate CoverMentions(c: Cover, id: Id) {
    c.sceneId == id || c.sourceTokenId == id || c.targetTokenId == id || id in Strings(c.body)
  }

  predicate SceneMentions(s: Scene, id: Id) {
    || s.id == id || s.campaignId == id || id in Strings(s.body)
    || (exists a <- s.annotations :: AnnotationMentions(a, id))
    || (exists t <- s.terrain :: TerrainMentions(t, id))
    || (exists c <- s.covers :: CoverMentions(c, id))
  }

  predicate TokenMentions(t: Token, id: Id) {
    t.id == id || t.sceneId == id || Names(t.actorId, id) || id in Strings(t.body)
  }

  predicate ActorMentions(a: Actor, id: Id) { a.id == id || a.campaignId == id || id in Strings(a.body) }

  predicate ItemMentions(x: Item, id: Id) { x.id == id || Names(x.actorId, id) || id in Strings(x.body) }

  predicate OverrideMentions(x: Override, id: Id) { x.id == id || x.actorId == id || id in Strings(x.body) }

  predicate EncounterMentions(e: Encounter, id: Id) {
    e.id == id || e.campaignId == id || id in e.tokenIds || id in Strings(e.body)
  }

  ghost predicate CopiesMention(p: Prepared, id: Id) {
    || (exists s <- p.scenes :: SceneMentions(s, id)) || (exists t <- p.tokens :: TokenMentions(t, id))
    || (exists a <- p.actors :: ActorMentions(a, id)) || (exists y <- p.items :: ItemMentions(y, id))
    || (exists o <- p.overrides :: OverrideMentions(o, id)) || (exists e <- p.encounters :: EncounterMentions(e, id))
  }

  lemma SceneCopyForgets(c: Copying, x: Chosen, sortOrder: int, id: Id)
    requires id in c.m && forall a :: a in c.m ==> c.m[a] != id
    ensures !SceneMentions(CopyScene(c, x, sortOrder), id)
  {
    var s, r := x.scene, CopyScene(c, x, sortOrder);
    CopyForgets(s.body, c.m, id);
    forall a <- r.annotations ensures !AnnotationMentions(a, id) {
      var i :| 0 <= i < |s.annotations| && a == CopyAnnotation(c, s.id, s.annotations[i]);
      CopyForgets(s.annotations[i].body, c.m, id);
    }
    forall t <- r.terrain ensures !TerrainMentions(t, id) {
      var i :| 0 <= i < |s.terrain| && t == CopyTerrain(c, s.id, s.terrain[i]);
      CopyForgets(s.terrain[i].body, c.m, id);
    }
    forall v <- r.covers ensures !CoverMentions(v, id) {
      var i :| 0 <= i < |s.covers| && v == CopyCover(c, s.id, s.covers[i]);
      CopyForgets(s.covers[i].body, c.m, id);
    }
  }

  lemma RecordCopiesForget(x: Selection, m: IdMap, id: Id)
    requires id in m && forall a :: a in m ==> m[a] != id
    ensures forall t <- x.tokens :: !TokenMentions(CopyToken(m, t), id)
    ensures forall a <- x.actors :: !ActorMentions(CopyActor(m, a), id)
    ensures forall y <- x.items :: !ItemMentions(CopyItem(m, y), id)
    ensures forall o <- x.overrides :: !OverrideMentions(CopyOverride(m, o), id)
    ensures forall e <- x.encounters :: !EncounterMentions(CopyEncounter(m, e), id)
  {
    forall v: Value ensures id !in Strings(Remap(v, m)) { CopyForgets(v, m, id); }
  }

  lemma CopiesForget(s: State, campaignId: Id, op: string, x: Selection, m: IdMap, naming: Naming, id: Id)
    requires id in m && forall a :: a in m ==> m[a] != id
    ensures !CopiesMention(Copies(s, campaignId, op, x, m, naming), id)
  {
    var p := Copies(s, campaignId, op, x, m, naming);
    RecordCopiesForget(x, m, id);
    forall r <- p.scenes ensures !SceneMentions(r, id) {
      var i :| 0 <= i < |p.scenes| && p.scenes[i] == r;
      SceneCopyForgets(Copying(op, m, naming), x.scenes[i], HighestSortOrder(s.scenes, campaignId) + 1 + i, id);
    }
  }

  /** No copy refers to any of the selected records. */
  lemma CopiesMentionNoSource(
    s: State, campaignId: Id, req: Request, naming: Naming, shared: (State, Selection) -> bool, id: Id)
    requires Prepare(s, campaignId, req, naming, shared).Ok?
    requires Selected(Select(s, campaignId, req.sources).value, id)
    ensures !CopiesMention(Prepare(s, campaignId, req, naming, shared).value, id)
  {
    var p := Prepare(s, campaignId, req, naming, shared).value;
    var x, m := PreparedParts(s, campaignId, req, naming, shared);
    NewIdsCover(x, req.operationId, naming);
    NewIdsAreNotSelected(s, campaignId, req, naming, x, m, p);
    CopiesForget(s, campaignId, req.operationId, x, m, naming, id);
  }

  // ----- The copies refer to each other as the originals did -----

  ghost predicate SceneTogether(r: Scene, tokens: seq<Id>) {
    && (forall a <- r.annotations :: a.sceneId == r.id && Among(a.affectedTokenIds, tokens))
    && (forall t <- r.terrain :: t.sceneId == r.id)
    && (forall v <- r.covers :: v.sceneId == r.id && v.sourceTokenId in tokens && v.targetTokenId in tokens)
  }

  /** Scene, actor and token references of the copies lead to copies. */
  ghost predicate Together(p: Prepared) {
    && (forall t <- p.tokens :: t.sceneId in Map(p.scenes, SceneId))
    && (forall t <- p.tokens :: Given(t.actorId) ==> t.actorId.value in Map(p.actors, ActorId))
    && (forall y <- p.items :: Given(y.actorId) && y.actorId.value in Map(p.actors, ActorId))
    && (forall o <- p.overrides :: o.actorId in Map(p.actors, ActorId) && !o.cleared)
    && (forall e <- p.encounters :: e.tokenIds != [] && Among(e.tokenIds, Map(p.tokens, TokenId)))
    && (forall s <- p.scenes :: SceneTogether(s, Map(p.tokens, TokenId)))
  }

  lemma FollowOne(m: IdMap, from: seq<Id>, to: seq<Id>, id: Id)
    requires Follows(m, from, to) && id in from
    ensures Renamed(m, id) in to
  {
    var i :| 0 <= i < |from| && from[i] == id;
    assert to[i] == Renamed(m, id);
  }

  lemma FollowAll(m: IdMap, from: seq<Id>, to: seq<Id>, ids: seq<Id>)
    requires Follows(m, from, to) && Among(ids, from)
    ensures Among(RenamedAll(m, ids), to)
  {
    forall i | 0 <= i < |ids| ensures RenamedAll(m, ids)[i] in to { FollowOne(m, from, to, ids[i]); }
  }

  /** The selection has everything its scenes, tokens and actors hold on to. */
  ghost predicate SelfContained(x: Selection) {
    var scenes, tokens, actors := SceneIds(x.scenes), Map(x.tokens, TokenId), Map(x.actors, ActorId);
    && (forall t <- x.tokens :: t.sceneId in scenes)
    && (forall t <- x.tokens :: Given(t.actorId) ==> t.actorId.value in actors)
    && (forall y <- x.items :: Given(y.actorId) && y.actorId.value in actors)
    && (forall o <- x.overrides :: o.actorId in actors && !o.cleared)
    && (forall e <- x.encounters :: e.tokenIds != [] && Among(e.tokenIds, tokens))
    && InternalTokens(x.scenes, tokens)
  }

  /** The first foreign token of no annotation has the empty id, and no token has the empty
      actor while a record without an id is selected. */
  ghost predicate WellNamed(x: Selection) {
    && (forall c <- x.scenes :: forall a <- c.scene.annotations ::
      FirstOutside(a.affectedTokenIds, Map(x.tokens, TokenId)) != Some(""))
    && (Selected(x, "") ==> forall t <- x.tokens :: t.actorId != Some(""))
  }

  lemma SelectionContained(s: State, campaignId: Id, sources: seq<Source>)
    requires Select(s, campaignId, sources).Ok?
    ensures SelfContained(Select(s, campaignId, sources).value)
    ensures SceneIds(Select(s, campaignId, sources).value.scenes) == SourceIds(sources)
  {
    var x := Select(s, campaignId, sources).value;
    assert SceneIds(x.scenes) == SourceIds(sources);
  }

  lemma TokensTogether(x: Selection, m: IdMap, scenes: seq<Id>, actors: seq<Id>)
    requires SelfContained(x) && ("" in m ==> forall t <- x.tokens :: t.actorId != Some(""))
    requires Follows(m, SceneIds(x.scenes), scenes) && Follows(m, Map(x.actors, ActorId), actors)
    ensures forall t <- x.tokens :: CopyToken(m, t).sceneId in scenes
    ensures forall t <- x.tokens :: Given(CopyToken(m, t).actorId) ==> CopyToken(m, t).actorId.value in actors
  {
    forall t <- x.tokens ensures CopyToken(m, t).sceneId in scenes {
      FollowOne(m, SceneIds(x.scenes), scenes, t.sceneId);
    }
    forall t <- x.tokens | Given(CopyToken(m, t).actorId) ensures CopyToken(m, t).actorId.value in actors {
      FollowOne(m, Map(x.actors, ActorId), actors, t.actorId.value);
    }
  }

  lemma HoldingsTogether(x: Selection, m: IdMap, actors: seq<Id>)
    requires SelfContained(x) && Follows(m, Map(x.actors, ActorId), actors) && forall a :: a in m ==> m[a] != ""
    ensures forall y <- x.items :: Given(CopyItem(m, y).actorId) && CopyItem(m, y).actorId.value in actors
    ensures forall o <- x.overrides :: CopyOverride(m, o).actorId in actors && !CopyOverride(m, o).cleared
  {
    forall y <- x.items ensures Given(CopyItem(m, y).actorId) && CopyItem(m, y).actorId.value in actors {
      FollowOne(m, Map(x.actors, ActorId), actors, y.actorId.value);
    }
    forall o <- x.overrides ensures CopyOverride(m, o).actorId in actors {
      FollowOne(m, Map(x.actors, ActorId), actors, o.actorId);
    }
  }

  lemma EncountersTogether(x: Selection, m: IdMap, tokens: seq<Id>)
    requires SelfContained(x) && Follows(m, Map(x.tokens, TokenId), tokens)
    ensures forall e <- x.encounters ::
      CopyEncounter(m, e).tokenIds != [] && Among(CopyEncounter(m, e).tokenIds, tokens)
  {
    forall e <- x.encounters ensures CopyEncounter(m, e).tokenIds != [] && Among(CopyEncounter(m, e).tokenIds, tokens) {
      FollowAll(m, Map(x.tokens, TokenId), tokens, e.tokenIds);
    }
  }

  lemma AnnotationTogether(c: Copying, scene: Scene, a: Annotation, from: seq<Id>, tokens: seq<Id>)
    requires Follows(c.m, from, tokens) && FirstOutside(a.affectedTokenIds, from).None?
    ensures Among(CopyAnnotation(c, scene.id, a).affectedTokenIds, tokens)
  {
    FollowAll(c.m, from, tokens, a.affectedTokenIds);
  }

  lemma CoverTogether(c: Copying, scene: Scene, v: Cover, from: seq<Id>, tokens: seq<Id>)
    requires Follows(c.m, from, tokens) && v.sourceTokenId in from && v.targetTokenId in from
    ensures CopyCover(c, scene.id, v).sourceTokenId in tokens && CopyCover(c, scene.id, v).targetTokenId in tokens
  {
    FollowOne(c.m, from, tokens, v.sourceTokenId);
    FollowOne(c.m, from, tokens, v.targetTokenId);
  }

  lemma SceneCopyTogether(c: Copying, x: Selection, i: nat, sortOrder: int, tokens: seq<Id>)
    requires i < |x.scenes| && SelfContained(x) && WellNamed(x) && Follows(c.m, Map(x.tokens, TokenId), tokens)
    ensures SceneTogether(CopyScene(c, x.scenes[i], sortOrder), tokens)
  {
    var s, from := x.scenes[i].scene, Map(x.tokens, TokenId);
    assert x.scenes[i] in x.scenes;
    var r := CopyScene(c, x.scenes[i], sortOrder);
    forall a <- r.annotations ensures a.sceneId == r.id && Among(a.affectedTokenIds, tokens) {
      var k :| 0 <= k < |s.annotations| && a == CopyAnnotation(c, s.id, s.annotations[k]);
      AnnotationTogether(c, s, s.annotations[k], from, tokens);
    }
    forall v <- r.covers ensures v.sceneId == r.id && v.sourceTokenId in tokens && v.targetTokenId in tokens {
      var k :| 0 <= k < |s.covers| && v == CopyCover(c, s.id, s.covers[k]);
      CoverTogether(c, s, s.covers[k], from, tokens);
    }
  }

  lemma ContainedCopiesTogether(s: State, campaignId: Id, op: string, x: Selection, m: IdMap, naming: Naming)
    requires SelfContained(x) && WellNamed(x) && forall a :: a in m ==> m[a] != "" && Selected(x, a)
    ensures Together(Copies(s, campaignId, op, x, m, naming))
  {
    var p := Copies(s, campaignId, op, x, m, naming);
    CopyIdsFollow(s, campaignId, op, x, m, naming);
    var scenes, tokens, actors := Map(p.scenes, SceneId), Map(p.tokens, TokenId), Map(p.actors, ActorId);
    TokensTogether(x, m, scenes, actors);
    HoldingsTogether(x, m, actors);
    EncountersTogether(x, m, tokens);
    forall r <- p.scenes ensures SceneTogether(r, tokens) {
      var i :| 0 <= i < |p.scenes| && p.scenes[i] == r;
      SceneCopyTogether(Copying(op, m, naming), x, i, HighestSortOrder(s.scenes, campaignId) + 1 + i, tokens);
    }
  }

  lemma {:induction false} ActorIdsGiven(tokens: seq<Token>)
    ensures "" !in ActorIds(tokens)
  {
    if tokens != [] { ActorIdsGiven(tokens[..|tokens| - 1]); }
  }

  /** An id that is not selected in a collection has no copy there. */
  lemma NotFollowed(m: IdMap, from: seq<Id>, to: seq<Id>, id: Id)
    requires Follows(m, from, to) && AllIn(from, m) && Injective(m) && (forall a :: a in m ==> m[a] != "")
    requires id !in from && (id in m || id == "")
    ensures Renamed(m, id) !in to
  {
    forall i | 0 <= i < |from| ensures to[i] != Renamed(m, id) { assert from[i] in m && to[i] == m[from[i]]; }
  }

  ghost predicate NewNames(x: Selection, m: IdMap) {
    Covers(x, m) && Injective(m) && (forall a :: a in m <==> Selected(x, a)) && (forall a :: a in m ==> m[a] != "")
  }

  lemma AnnotationWellNamed(c: Copying, x: Selection, scene: Scene, a: Annotation, tokens: seq<Id>)
    requires NewNames(x, c.m) && Follows(c.m, Map(x.tokens, TokenId), tokens)
    requires Among(CopyAnnotation(c, scene.id, a).affectedTokenIds, tokens)
    ensures FirstOutside(a.affectedTokenIds, Map(x.tokens, TokenId)) != Some("")
  {
    var ids := a.affectedTokenIds;
    if FirstOutside(ids, Map(x.tokens, TokenId)) == Some("") {
      var k :| 0 <= k < |ids| && ids[k] == "";
      assert RenamedAll(c.m, ids)[k] in RenamedAll(c.m, ids);
      NotFollowed(c.m, Map(x.tokens, TokenId), tokens, "");
    }
  }

  lemma SceneWellNamed(c: Copying, x: Selection, y: Chosen, sortOrder: int, tokens: seq<Id>)
    requires NewNames(x, c.m) && Follows(c.m, Map(x.tokens, TokenId), tokens)
    requires SceneTogether(CopyScene(c, y, sortOrder), tokens)
    ensures forall a <- y.scene.annotations :: FirstOutside(a.affectedTokenIds, Map(x.tokens, TokenId)) != Some("")
  {
    var r := CopyScene(c, y, sortOrder);
    forall j | 0 <= j < |y.scene.annotations|
      ensures FirstOutside(y.scene.annotations[j].affectedTokenIds, Map(x.tokens, TokenId)) != Some("")
    {
      assert r.annotations[j] in r.annotations;
      AnnotationWellNamed(c, x, y.scene, y.scene.annotations[j], tokens);
    }
  }

  lemma TokensWellNamed(x: Selection, m: IdMap, actors: seq<Id>)
    requires NewNames(x, m) && Follows(m, Map(x.actors, ActorId), actors)
      && Map(x.actors, ActorId) == ActorIds(x.tokens)
    requires forall t <- x.tokens :: Given(CopyToken(m, t).actorId) ==> CopyToken(m, t).actorId.value in actors
    ensures Selected(x, "") ==> forall t <- x.tokens :: t.actorId != Some("")
  {
    if Selected(x, "") {
      ActorIdsGiven(x.tokens);
      NotFollowed(m, Map(x.actors, ActorId), actors, "");
    }
  }

  lemma TogetherWellNamed(s: State, campaignId: Id, op: string, x: Selection, m: IdMap, naming: Naming)
    requires NewNames(x, m) && Map(x.actors, ActorId) == ActorIds(x.tokens)
    requires Together(Copies(s, campaignId, op, x, m, naming))
    ensures WellNamed(x)
  {
    var p := Copies(s, campaignId, op, x, m, naming);
    CopyIdsFollow(s, campaignId, op, x, m, naming);
    forall i | 0 <= i < |x.scenes|
      ensures forall a <- x.scenes[i].scene.annotations ::
        FirstOutside(a.affectedTokenIds, Map(x.tokens, TokenId)) != Some("")
    {
      assert p.scenes[i] in p.scenes;
      SceneWellNamed(Copying(op, m, naming), x, x.scenes[i], HighestSortOrder(s.scenes, campaignId) + 1 + i,
        Map(p.tokens, TokenId));
    }
    forall t <- x.tokens | Given(CopyToken(m, t).actorId)
      ensures CopyToken(m, t).actorId.value in Map(p.actors, ActorId) {
      var k :| 0 <= k < |x.tokens| && x.tokens[k] == t;
      assert p.tokens[k] in p.tokens && p.tokens[k] == CopyToken(m, t);
    }
    TokensWellNamed(x, m, Map(p.actors, ActorId));
  }

  /** Scene, actor and token references of the copies lead to copies, exactly when the
      selection is well named. */
  lemma CopiesStayTogether(s: State, campaignId: Id, req: Request, naming: Naming, shared: (State, Selection) -> bool)
    requires Prepare(s, campaignId, req, naming, shared).Ok?
    requires NoCollisions(naming, req.operationId, Select(s, campaignId, req.sources).value)
    ensures Together(Prepare(s, campaignId, req, naming, shared).value)
      <==> WellNamed(Select(s, campaignId, req.sources).value)
  {
    var x, m := PreparedParts(s, campaignId, req, naming, shared);
    NewIdsCover(x, req.operationId, naming);
    NewIdsInjective(x, req.operationId, naming);
    SelectionContained(s, campaignId, req.sources);
    SelectedActors(s, campaignId, req.sources);
    if WellNamed(x) {
      ContainedCopiesTogether(s, campaignId, req.operationId, x, m, naming);
    } else if Together(Copies(s, campaignId, req.operationId, x, m, naming)) {
      TogetherWellNamed(s, campaignId, req.operationId, x, m, naming);
    }
  }

  const UNNAMED :=
    Scene("scn", "camp", "Cave", false, 0, [Annotation("ann", "scn", None, ["", "tok"], Value.Null)], [], [],
      Value.Null)
  const UNNAMED_STATE := State([], [UNNAMED], [Token("tok", "other", None, Value.Null)], [], [], [], [], [])
  const UNNAMED_REQUEST := Request("op", [Source("scn", None)])
  const UNNAMED_SELECTION := Selection([Chosen(UNNAMED, "Cave Copy")], [], [], [], [], [])

  lemma UnnamedIsSelected()
    ensures Select(UNNAMED_STATE, "camp", [Source("scn", None)]) == Ok(UNNAMED_SELECTION)
  {
    var sources := [Source("scn", None)];
    assert SourceIds(sources) == ["scn"];
    assert FindScene(UNNAMED_STATE.scenes, "scn", "camp") == Some(UNNAMED);
    assert sources[1..] == [];
    assert "Cave" + " Copy" == "Cave Copy" && |"Cave Copy"| == 9;
    assert Choose(UNNAMED_STATE.scenes, [], "camp") == Ok([]);
    assert [Chosen(UNNAMED, "Cave Copy")] + [] == [Chosen(UNNAMED, "Cave Copy")];
    assert Choose(UNNAMED_STATE.scenes, sources, "camp") == Ok([Chosen(UNNAMED, "Cave Copy")]);
    assert Filter(UNNAMED_STATE.tokens, OnScenes(["scn"])) == [];
    assert Map<Token, Id>([], TokenId) == [];
    assert FirstOutside(["", "tok"], []) == Some("");
  }

  lemma UnnamedIsPrepared(naming: Naming)
    requires forall c <- COPIED :: naming.record("op", c, "scn") !in {"", "scn", "tok"}
    ensures IdsAvailable(UNNAMED_STATE, NewIds(UNNAMED_SELECTION, "op", naming))
    ensures NoCollisions(naming, "op", UNNAMED_SELECTION)
    ensures !WellNamed(UNNAMED_SELECTION)
  {
    var x := UNNAMED_SELECTION;
    assert SceneIds(x.scenes) == ["scn"];
    assert forall id :: Selected(x, id) <==> id == "scn";
    NewIdsCover(x, "op", naming);
    NewIdsDerived(x, "op", naming);
    assert FirstOutside(UNNAMED.annotations[0].affectedTokenIds, []) == Some("");
    assert x.scenes[0] in x.scenes && UNNAMED.annotations[0] in UNNAMED.annotations;
  }

  lemma PreparesSelection(s: State, req: Request, x: Selection, naming: Naming, shared: (State, Selection) -> bool)
    requires WellFormed(req) && Select(s, "camp", req.sources) == Ok(x)
    requires IdsAvailable(s, NewIds(x, req.operationId, naming)) && shared(s, x)
    ensures Prepare(s, "camp", req, naming, shared)
         == Ok(Copies(s, "camp", req.operationId, x, NewIds(x, req.operationId, naming), naming))
  {}

  lemma OneSourceWellFormed(req: Request)
    requires req == Request("op", [Source("scn", None)])
    ensures WellFormed(req)
  {}

  /** The exception does occur: an annotation that affects a token without an id and then one
      of another scene is copied, and its copy still refers to that token. */
  lemma UnnamedTokenIsLetThrough(naming: Naming, shared: (State, Selection) -> bool)
    requires forall c <- COPIED :: naming.record("op", c, "scn") !in {"", "scn", "tok"}
    requires forall t, x :: shared(t, x)
    ensures Prepare(UNNAMED_STATE, "camp", UNNAMED_REQUEST, naming, shared).Ok?
    ensures !Together(Prepare(UNNAMED_STATE, "camp", UNNAMED_REQUEST, naming, shared).value)
  {
    UnnamedIsSelected();
    UnnamedIsPrepared(naming);
    OneSourceWellFormed(UNNAMED_REQUEST);
    PreparesSelection(UNNAMED_STATE, UNNAMED_REQUEST, UNNAMED_SELECTION, naming, shared);
    CopiesStayTogether(UNNAMED_STATE, "camp", UNNAMED_REQUEST, naming, shared);
  }

  // ----- Ids stay unique -----

  lemma SelectionDistinct(s: State, campaignId: Id, sources: seq<Source>)
    requires Select(s, campaignId, sources).Ok? && UniqueIds(s) && Distinct(SourceIds(sources))
    ensures var x := Select(s, campaignId, sources).value;
      && Distinct(SceneIds(x.scenes)) && Distinct(Map(x.tokens, TokenId)) && Distinct(Map(x.actors, ActorId))
      && Distinct(Map(x.items, ItemId)) && Distinct(Map(x.overrides, OverrideId))
        && Distinct(Map(x.encounters, EncounterId))
  {
    var ids := SourceIds(sources);
    SelectionContained(s, campaignId, sources);
    var tokens := Filter(s.tokens, OnScenes(ids));
    FilterDistinct(s.tokens, OnScenes(ids), TokenId);
    var actorIds := ActorIds(tokens);
    FilterDistinct(s.items, HeldBy(actorIds), ItemId);
    FilterDistinct(s.overrides, ActiveFor(actorIds), OverrideId);
    FilterDistinct(s.encounters, WithinTokens(campaignId, Map(tokens, TokenId)), EncounterId);
  }

  /** Appending the renamed ids of records of the collection leaves its ids distinct. */
  lemma AppendDistinct(ids: seq<Id>, from: seq<Id>, to: seq<Id>, m: IdMap)
    requires Distinct(ids) && Distinct(from) && Follows(m, from, to) && AllIn(from, m) && Injective(m)
    requires forall a :: a in m ==> m[a] !in ids
    ensures Distinct(ids + to)
  {
    forall i, j | 0 <= i < j < |ids + to| ensures (ids + to)[i] != (ids + to)[j] {
      if j < |ids| {
      } else {
        var b := from[j - |ids|];
        assert b in m && to[j - |ids|] == m[b];
        if i >= |ids| {
          var a := from[i - |ids|];
          assert a in m && to[i - |ids|] == m[a];
        }
      }
    }
  }

  lemma AppendedIds<T>(xs: seq<T>, ys: seq<T>, id: T -> Id)
    ensures Map(xs + ys, id) == Map(xs, id) + Map(ys, id)
  {}

  lemma Available(s: State, m: IdMap, ids: seq<Id>)
    requires IdsAvailable(s, m) && forall id <- ids :: IdTaken(s, id)
    ensures forall a :: a in m ==> m[a] !in ids
  {
    forall a | a in m ensures m[a] !in ids { assert m[a] in m.Values; }
  }

  lemma AppendKeepsDistinct<T>(s: State, m: IdMap, xs: seq<T>, ys: seq<T>, from: seq<Id>, id: T -> Id)
    requires IdsAvailable(s, m) && (forall i <- Map(xs, id) :: IdTaken(s, i)) && Injective(m)
    requires Distinct(Map(xs, id)) && Distinct(from) && Follows(m, from, Map(ys, id)) && AllIn(from, m)
    ensures Distinct(Map(xs + ys, id))
  {
    Available(s, m, Map(xs, id));
    AppendDistinct(Map(xs, id), from, Map(ys, id), m);
    AppendedIds(xs, ys, id);
  }

  /** The ids of every copied collection stay distinct. */
  lemma DuplicationKeepsIdsUnique(
    s: State, campaignId: Id, req: Request, naming: Naming, shared: (State, Selection) -> bool, now: int)
    requires Prepare(s, campaignId, req, naming, shared).Ok?
      && NoCollisions(naming, req.operationId, Select(s, campaignId, req.sources).value) && UniqueIds(s)
    ensures UniqueIds(Committed(s, Prepare(s, campaignId, req, naming, shared).value, naming, now))
  {
    var p := Prepare(s, campaignId, req, naming, shared).value;
    var x, m := PreparedParts(s, campaignId, req, naming, shared);
    NewIdsCover(x, req.operationId, naming);
    NewIdsInjective(x, req.operationId, naming);
    SelectionDistinct(s, campaignId, req.sources);
    CopyIdsFollow(s, campaignId, req.operationId, x, m, naming);
    AppendKeepsDistinct(s, m, s.scenes, p.scenes, SceneIds(x.scenes), SceneId);
    AppendKeepsDistinct(s, m, s.tokens, p.tokens, Map(x.tokens, TokenId), TokenId);
    AppendKeepsDistinct(s, m, s.actors, p.actors, Map(x.actors, ActorId), ActorId);
    AppendKeepsDistinct(s, m, s.items, p.items, Map(x.items, ItemId), ItemId);
    AppendKeepsDistinct(s, m, s.overrides, p.overrides, Map(x.overrides, OverrideId), OverrideId);
    AppendKeepsDistinct(s, m, s.encounters, p.encounters, Map(x.encounters, EncounterId), EncounterId);
  }

  // ----- Sort order, annotation groups -----

  /** Inactive, later than all scenes of the campaign, one after the other from the first place that is free. */
  ghost predicate SortedLast(scenes: seq<Scene>, campaignId: Id, copies: seq<Scene>, i: nat)
    requires i < |copies|
  {
    && !copies[i].active
    && (forall r <- scenes :: r.campaignId == campaignId ==> r.sortOrder < copies[i].sortOrder)
    && (i > 0 ==> copies[i].sortOrder == copies[i - 1].sortOrder + 1)
    && (i == 0 && copies[0].sortOrder != 1 ==>
          exists r <- scenes :: r.campaignId == campaignId && copies[0].sortOrder == r.sortOrder + 1)
  }

  lemma CopiedScenesSortLast(scenes: seq<Scene>, campaignId: Id, c: Copying, xs: seq<Chosen>, i: nat)
    requires i < |xs|
    ensures SortedLast(scenes, campaignId, CopyScenes(c, xs, HighestSortOrder(scenes, campaignId) + 1), i)
  {}

  /** The copies come after every scene the campaign has, in the order of the request. */
  lemma CopiesSortLast(s: State, campaignId: Id, req: Request, naming: Naming, shared: (State, Selection) -> bool,
    i: nat)
    requires Prepare(s, campaignId, req, naming, shared).Ok? && i < |req.sources|
    ensures var p := Prepare(s, campaignId, req, naming, shared).value;
      |p.scenes| == |req.sources| && SortedLast(s.scenes, campaignId, p.scenes, i)
  {
    var x, m := PreparedParts(s, campaignId, req, naming, shared);
    CopiedScenesSortLast(s.scenes, campaignId, Copying(req.operationId, m, naming), x.scenes, i);
  }

  /** The digest does not collide on the annotation groups of a copied scene. */
  ghost predicate GroupsApart(c: Copying, scene: Scene) {
    forall a, b {:trigger CopyGroup(c, scene.id, a.groupId), CopyGroup(c, scene.id, b.groupId)} ::
      a in scene.annotations && b in scene.annotations
      && Given(RenamedOption(c.m, a.groupId)) && Given(RenamedOption(c.m, b.groupId))
      ==> CopyGroup(c, scene.id, a.groupId) != Some("")
          && (CopyGroup(c, scene.id, a.groupId) == CopyGroup(c, scene.id, b.groupId)
              ==> RenamedOption(c.m, a.groupId) == RenamedOption(c.m, b.groupId))
  }

  /** The group is the id of a selected record, and `h` is that record's new id. */
  predicate TakesNameOf(m: IdMap, g: Option<Id>, h: Option<Id>) {
    g.Some? && h.Some? && g.value in m && m[g.value] == h.value
  }

  lemma GroupsAreCopied(c: Copying, scene: Scene, a: Annotation, b: Annotation)
    requires Injective(c.m) && (forall k :: k in c.m ==> c.m[k] !in c.m && c.m[k] != "") && GroupsApart(c, scene)
    requires a in scene.annotations && b in scene.annotations
    ensures (CopyGroup(c, scene.id, a.groupId) == CopyGroup(c, scene.id, b.groupId) <==> a.groupId == b.groupId)
            <==> !TakesNameOf(c.m, a.groupId, b.groupId) && !TakesNameOf(c.m, b.groupId, a.groupId)
  {
    var g, h := RenamedOption(c.m, a.groupId), RenamedOption(c.m, b.groupId);
    assert CopyGroup(c, scene.id, a.groupId) == CopyGroup(c, scene.id, b.groupId) <==> g == h;
  }

  /** Two annotations of a copied scene are in one group exactly when their originals were,
      unless one group is named like a selected record and the other like its copy. */
  lemma GroupsArePreserved(
    s: State, campaignId: Id, req: Request, naming: Naming, shared: (State, Selection) -> bool,
    x: Selection, m: IdMap, p: Prepared, i: nat, j: nat, k: nat)
    requires Prepare(s, campaignId, req, naming, shared) == Ok(p) && Select(s, campaignId, req.sources) == Ok(x)
    requires m == NewIds(x, req.operationId, naming) && NoCollisions(naming, req.operationId, x)
    requires i < |x.scenes| && GroupsApart(Copying(req.operationId, m, naming), x.scenes[i].scene)
    requires j < |x.scenes[i].scene.annotations| && k < |x.scenes[i].scene.annotations|
    ensures |p.scenes| == |x.scenes| && |p.scenes[i].annotations| == |x.scenes[i].scene.annotations|
    ensures var was, now := x.scenes[i].scene.annotations, p.scenes[i].annotations;
      (now[j].groupId == now[k].groupId <==> was[j].groupId == was[k].groupId)
      <==> !TakesNameOf(m, was[j].groupId, was[k].groupId) && !TakesNameOf(m, was[k].groupId, was[j].groupId)
  {
    var y, m' := PreparedParts(s, campaignId, req, naming, shared);
    NewIdsAreNotSelected(s, campaignId, req, naming, x, m, p);
    NewIdsInjective(x, req.operationId, naming);
    AnnotationCopies(s, campaignId, req.operationId, x, m, naming, i);
    var scene := x.scenes[i].scene;
    GroupsAreCopied(Copying(req.operationId, m, naming), scene, scene.annotations[j], scene.annotations[k]);
  }

  lemma AnnotationCopies(s: State, campaignId: Id, op: string, x: Selection, m: IdMap, naming: Naming, i: nat)
    requires i < |x.scenes|
    ensures var c, scene, p := Copying(op, m, naming), x.scenes[i].scene, Copies(s, campaignId, op, x, m, naming);
      && |p.scenes| == |x.scenes| && |p.scenes[i].annotations| == |scene.annotations|
      && forall j :: 0 <= j < |scene.annotations| ==>
        p.scenes[i].annotations[j].groupId == CopyGroup(c, scene.id, scene.annotations[j].groupId)
  {}

  /** A scene with two annotations: one in a group named like the scene, one in a group named
      like its copy. */
  function Clashing(copy: Id): Scene {
    Scene("scn", "camp", "Cave", false, 0,
          [Annotation("ann1", "scn", Some("scn"), [], Value.Null),
            Annotation("ann2", "scn", Some(copy), [], Value.Null)],
          [], [], Value.Null)
  }

  function ClashingState(copy: Id): State { State([], [Clashing(copy)], [], [], [], [], [], []) }

  function ClashingSelection(copy: Id): Selection {
    Selection([Chosen(Clashing(copy), "Cave Copy")], [], [], [], [], [])
  }

  lemma ClashingIsSelected(copy: Id)
    ensures Select(ClashingState(copy), "camp", [Source("scn", None)]) == Ok(ClashingSelection(copy))
  {
    var s, sources := ClashingState(copy), [Source("scn", None)];
    assert SourceIds(sources) == ["scn"];
    assert FindScene(s.scenes, "scn", "camp") == Some(Clashing(copy));
    assert sources[1..] == [];
    assert "Cave" + " Copy" == "Cave Copy" && |"Cave Copy"| == 9;
    assert Choose(s.scenes, [], "camp") == Ok([]);
    assert [Chosen(Clashing(copy), "Cave Copy")] + [] == [Chosen(Clashing(copy), "Cave Copy")];
    assert Choose(s.scenes, sources, "camp") == Ok([Chosen(Clashing(copy), "Cave Copy")]);
    assert Map<Token, Id>([], TokenId) == [];
  }

  lemma ClashingNewIds(copy: Id, naming: Naming)
    requires copy == naming.record("op", "scenes", "scn") && copy != "scn"
    ensures var m := NewIds(ClashingSelection(copy), "op", naming);
      m == map["scn" := copy] && IdsAvailable(ClashingState(copy), m)
  {
    var x := ClashingSelection(copy);
    assert SceneIds(x.scenes) == ["scn"];
    assert ["scn"][..0] == [];
    assert AddIds(map[], op := "op", coll := "scenes", ids := ["scn"], naming := naming) == map["scn" := copy];
  }

  /** The exception does occur: two annotations of different groups are copied into one. */
  lemma GroupsAreMerged(naming: Naming, shared: (State, Selection) -> bool) returns (s: State, req: Request)
    requires naming.record("op", "scenes", "scn") !in {"", "scn"} && forall t, x :: shared(t, x)
    ensures |s.scenes| == 1 && |s.scenes[0].annotations| == 2
    ensures s.scenes[0].annotations[0].groupId != s.scenes[0].annotations[1].groupId
    ensures Prepare(s, "camp", req, naming, shared).Ok?
    ensures var p := Prepare(s, "camp", req, naming, shared).value;
      && |p.scenes| == 1 && |p.scenes[0].annotations| == 2
      && p.scenes[0].annotations[0].groupId == p.scenes[0].annotations[1].groupId
  {
    var copy := naming.record("op", "scenes", "scn");
    s, req := ClashingState(copy), Request("op", [Source("scn", None)]);
    var x := ClashingSelection(copy);
    var m := NewIds(x, "op", naming);
    ClashingNewIds(copy, naming);
    ClashingIsSelected(copy);
    OneSourceWellFormed(req);
    PreparesSelection(s, req, x, naming, shared);
    AnnotationCopies(s, "camp", "op", x, m, naming, 0);
  }

  // ----- Repeating a committed request -----

  lemma {:induction false} FindSceneStill(scenes: seq<Scene>, more: seq<Scene>, id: Id, campaignId: Id)
    requires FindScene(scenes, id, campaignId).Some?
    ensures FindScene(scenes + more, id, campaignId) == FindScene(scenes, id, campaignId)
  {
    if !(scenes[0].id == id && scenes[0].campaignId == campaignId) {
      FindSceneStill(scenes[1..], more, id, campaignId);
      assert (scenes + more)[1..] == scenes[1..] + more;
    }
  }

  lemma {:induction false} ChooseStill(scenes: seq<Scene>, more: seq<Scene>, sources: seq<Source>, campaignId: Id)
    requires Choose(scenes, sources, campaignId).Ok?
    ensures Choose(scenes + more, sources, campaignId) == Choose(scenes, sources, campaignId)
  {
    if sources != [] {
      FindSceneStill(scenes, more, sources[0].sceneId, campaignId);
      ChooseStill(scenes, more, sources[1..], campaignId);
    }
  }

  lemma {:induction false} FindActorStill(actors: seq<Actor>, more: seq<Actor>, id: Id, campaignId: Id)
    requires FindActor(actors, id, campaignId).Some?
    ensures FindActor(actors + more, id, campaignId) == FindActor(actors, id, campaignId)
  {
    if !(actors[0].id == id && actors[0].campaignId == campaignId) {
      FindActorStill(actors[1..], more, id, campaignId);
      assert (actors + more)[1..] == actors[1..] + more;
    }
  }

  lemma {:induction false} SourceActorsStill(actors: seq<Actor>, more: seq<Actor>, ids: seq<Id>, campaignId: Id)
    requires SourceActors(actors, ids, campaignId).Some?
    ensures SourceActors(actors + more, ids, campaignId) == SourceActors(actors, ids, campaignId)
  {
    if ids != [] {
      FindActorStill(actors, more, ids[0], campaignId);
      SourceActorsStill(actors, more, ids[1..], campaignId);
    }
  }

  /** The copies are not selected by the request that made them. */
  lemma CopiesAreNotSelected(s: State, campaignId: Id, op: string, sources: seq<Source>, x: Selection, m: IdMap,
    naming: Naming)
    requires Select(s, campaignId, sources) == Ok(x) && Covers(x, m) && forall a, b :: a in m && b in m ==> m[a] != b
    ensures var p := Copies(s, campaignId, op, x, m, naming);
      && (forall i :: 0 <= i < |p.tokens| ==> !OnScenes(SourceIds(sources))(p.tokens[i]))
      && (forall i :: 0 <= i < |p.items| ==> !HeldBy(Map(x.actors, ActorId))(p.items[i]))
      && (forall i :: 0 <= i < |p.overrides| ==> !ActiveFor(Map(x.actors, ActorId))(p.overrides[i]))
      && (forall i :: 0 <= i < |p.encounters| ==> !WithinTokens(campaignId, Map(x.tokens, TokenId))(p.encounters[i]))
  {
    SelectionContained(s, campaignId, sources);
    RecordCopiesNotSelected(x, m, SourceIds(sources));
    EncounterCopiesNotSelected(x, m, campaignId);
  }

  ghost predicate Fresh(x: Selection, m: IdMap) { Covers(x, m) && forall a, b :: a in m && b in m ==> m[a] != b }

  lemma RecordCopiesNotSelected(x: Selection, m: IdMap, ids: seq<Id>)
    requires SelfContained(x) && Fresh(x, m) && ids == SceneIds(x.scenes)
    ensures forall t <- x.tokens :: !OnScenes(ids)(CopyToken(m, t))
    ensures forall y <- x.items :: !HeldBy(Map(x.actors, ActorId))(CopyItem(m, y))
    ensures forall o <- x.overrides :: !ActiveFor(Map(x.actors, ActorId))(CopyOverride(m, o))
  {
    assert forall r :: Renamed(m, r) !in m;
  }

  lemma EncounterCopiesNotSelected(x: Selection, m: IdMap, campaignId: Id)
    requires SelfContained(x) && Fresh(x, m)
    ensures forall e <- x.encounters :: !WithinTokens(campaignId, Map(x.tokens, TokenId))(CopyEncounter(m, e))
  {
    forall e <- x.encounters ensures !WithinTokens(campaignId, Map(x.tokens, TokenId))(CopyEncounter(m, e)) {
      assert Renamed(m, e.tokenIds[0]) !in m;
      assert CopyEncounter(m, e).tokenIds[0] in CopyEncounter(m, e).tokenIds;
    }
  }

  lemma SelectedActors(s: State, campaignId: Id, sources: seq<Source>)
    requires Select(s, campaignId, sources).Ok?
    ensures var x := Select(s, campaignId, sources).value; Map(x.actors, ActorId) == ActorIds(x.tokens)
  {}

  /** Appending records that the request does not select changes nothing for it. */
  lemma SelectsStill(s: State, t: State, campaignId: Id, sources: seq<Source>, x: Selection, p: Prepared)
    requires Select(s, campaignId, sources) == Ok(x)
    requires t.scenes == s.scenes + p.scenes && t.actors == s.actors + p.actors
    requires Filter(t.tokens, OnScenes(SourceIds(sources))) == Filter(s.tokens, OnScenes(SourceIds(sources)))
    requires Filter(t.items, HeldBy(ActorIds(x.tokens))) == Filter(s.items, HeldBy(ActorIds(x.tokens)))
    requires Filter(t.overrides, ActiveFor(ActorIds(x.tokens))) == Filter(s.overrides, ActiveFor(ActorIds(x.tokens)))
    requires var w := WithinTokens(campaignId, Map(x.tokens, TokenId));
      Filter(t.encounters, w) == Filter(s.encounters, w)
    ensures Select(t, campaignId, sources) == Ok(x)
  {
    ChooseStill(s.scenes, p.scenes, sources, campaignId);
    SourceActorsStill(s.actors, p.actors, ActorIds(x.tokens), campaignId);
  }

  /** After the commit the same request selects the same records. */
  lemma SelectsTheSame(s: State, campaignId: Id, req: Request, naming: Naming, x: Selection, m: IdMap, p: Prepared,
    now: int)
    requires PreparedFrom(s, campaignId, req, naming, x, m, p)
    ensures Select(Committed(s, p, naming, now), campaignId, req.sources) == Ok(x)
  {
    var ids, actorIds, w :=
      SourceIds(req.sources), ActorIds(x.tokens), WithinTokens(campaignId, Map(x.tokens, TokenId));
    var t := Committed(s, p, naming, now);
    if t != s {
      NewIdsCover(x, req.operationId, naming);
      NewIdsAreNotSelected(s, campaignId, req, naming, x, m, p);
      CopiesAreNotSelected(s, campaignId, req.operationId, req.sources, x, m, naming);
      SelectedActors(s, campaignId, req.sources);
      assert Filter(t.tokens, OnScenes(ids)) == Filter(s.tokens, OnScenes(ids)) by {
        FilterIgnoresTail(s.tokens, p.tokens, OnScenes(ids));
      }
      assert Filter(t.items, HeldBy(actorIds)) == Filter(s.items, HeldBy(actorIds)) by {
        FilterIgnoresTail(s.items, p.items, HeldBy(actorIds));
      }
      assert Filter(t.overrides, ActiveFor(actorIds)) == Filter(s.overrides, ActiveFor(actorIds)) by {
        FilterIgnoresTail(s.overrides, p.overrides, ActiveFor(actorIds));
      }
      assert Filter(t.encounters, w) == Filter(s.encounters, w) by { FilterIgnoresTail(s.encounters, p.encounters, w); }
      SelectsStill(s, t, campaignId, req.sources, x, p);
    }
  }

  lemma SelectedScenes(s: State, campaignId: Id, sources: seq<Source>)
    requires Select(s, campaignId, sources).Ok?
    ensures |Select(s, campaignId, sources).value.scenes| == |sources|
  {}

  /** Once committed, the new ids are in use. */
  lemma CopiedIdsAreTaken(s: State, campaignId: Id, op: string, x: Selection, m: IdMap, naming: Naming, now: int)
    requires x.scenes != [] && AllIn(SceneIds(x.scenes), m) && CampaignIndex(s.campaigns, campaignId).Some?
    ensures !IdsAvailable(Committed(s, Copies(s, campaignId, op, x, m, naming), naming, now), m)
  {
    var p := Copies(s, campaignId, op, x, m, naming);
    var done, first := Committed(s, p, naming, now), x.scenes[0].scene.id;
    assert SceneIds(x.scenes)[0] == first && p.scenes[0].id == m[first];
    assert Map(done.scenes, SceneId)[|s.scenes|] == m[first];
    assert m[first] in m.Values && IdTaken(done, m[first]);
  }

  /** A committed request is refused when it is repeated. */
  lemma RepeatIsRefused(
    s: State, campaignId: Id, req: Request, naming: Naming, shared: (State, Selection) -> bool, now: int)
    requires Prepare(s, campaignId, req, naming, shared).Ok? && CampaignIndex(s.campaigns, campaignId).Some?
    ensures var done := Committed(s, Prepare(s, campaignId, req, naming, shared).value, naming, now);
      Prepare(done, campaignId, req, naming, shared) == Refused(AlreadyExists)
  {
    var p := Prepare(s, campaignId, req, naming, shared).value;
    var x, m := PreparedParts(s, campaignId, req, naming, shared);
    SelectsTheSame(s, campaignId, req, naming, x, m, p, now);
    SelectedScenes(s, campaignId, req.sources);
    NewIdsCover(x, req.operationId, naming);
    CopiedIdsAreTaken(s, campaignId, req.operationId, x, m, naming, now);
  }
}
