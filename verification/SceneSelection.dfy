/** What a scene duplication selects, and when it can. */
module SceneSelection {
  import opened Json
  import opened IdRegeneration
  import opened SceneDuplication
  import opened SceneCopies
  import opened SceneDuplicationLaws
  import opened Sequences
  import opened Texts

  // ----- What is selected -----

  /** The actors the tokens name, each once, in the order they are first named. */
  ghost predicate FirstNamed(tokens: seq<Token>, ids: seq<Id>) {
    && (forall id :: id in ids <==> id != "" && exists t <- tokens :: t.actorId == Some(id))
    && (forall i, j :: 0 <= i < j < |ids| ==> NamedEarlier(tokens, ids[i], ids[j]))
  }

  ghost predicate NamedEarlier(tokens: seq<Token>, id: Id, other: Id) {
    id != other && exists n :: NamedAt(tokens, id, other, n)
  }

  ghost predicate NamedAt(tokens: seq<Token>, id: Id, other: Id, n: int) {
    && 0 <= n < |tokens| && tokens[n].actorId == Some(id)
    && forall k :: 0 <= k <= n ==> tokens[k].actorId != Some(other)
  }

  lemma EarlierStays(q: seq<Token>, last: Token, id: Id, other: Id)
    requires NamedEarlier(q, id, other)
    ensures NamedEarlier(q + [last], id, other)
  {
    var n :| NamedAt(q, id, other, n);
    assert NamedAt(q + [last], id, other, n);
  }

  lemma NamedBeforeNew(q: seq<Token>, last: Token, id: Id, other: Id)
    requires id != other && (exists t <- q :: t.actorId == Some(id)) && forall t <- q :: t.actorId != Some(other)
    ensures NamedEarlier(q + [last], id, other)
  {
    var t :| t in q && t.actorId == Some(id);
    var n :| 0 <= n < |q| && q[n] == t;
    forall k | 0 <= k <= n ensures (q + [last])[k].actorId != Some(other) { assert q[k] in q; }
    assert NamedAt(q + [last], id, other, n);
  }

  lemma {:induction false} ActorIdsFirstNamed(tokens: seq<Token>)
    ensures FirstNamed(tokens, ActorIds(tokens))
  {
    if tokens != [] {
      var q, last, ids := tokens[..|tokens| - 1], tokens[|tokens| - 1], ActorIds(tokens);
      var before := ActorIds(q);
      ActorIdsFirstNamed(q);
      assert tokens == q + [last];
      forall i, j | 0 <= i < j < |ids| ensures NamedEarlier(tokens, ids[i], ids[j]) {
        if j < |before| {
          EarlierStays(q, last, before[i], before[j]);
        } else {
          assert ids[i] in before && ids[j] !in before;
          NamedBeforeNew(q, last, ids[i], ids[j]);
        }
      }
    }
  }

  /** The scene of the campaign that the request names, and the name its copy is to have. */
  ghost predicate ChosenFor(s: State, campaignId: Id, source: Source, x: Chosen) {
    && x.scene in s.scenes && x.scene.id == source.sceneId && x.scene.campaignId == campaignId
    && x.name == (match source.name case None => x.scene.name + " Copy" case Some(name) => Trim(name))
    && 1 <= |x.name| <= 160
  }

  ghost predicate HasActor(actors: seq<Actor>, id: Id) { exists a <- actors :: a.id == id }

  ghost predicate HasToken(tokens: seq<Token>, id: Id) { exists t <- tokens :: t.id == id }

  /** The requested scenes, their tokens, the actors of those, what those hold and what is
      overridden for them, and the encounters of those tokens only. */
  ghost predicate SelectedFor(s: State, campaignId: Id, sources: seq<Source>, x: Selection) {
    && |x.scenes| == |sources| && (forall i :: 0 <= i < |sources| ==> ChosenFor(s, campaignId, sources[i], x.scenes[i]))
    && Thinned(s.tokens, x.tokens, (t: Token) => exists source <- sources :: source.sceneId == t.sceneId)
    && FirstNamed(x.tokens, Map(x.actors, ActorId))
    && (forall a <- x.actors :: a in s.actors && a.campaignId == campaignId)
    && Thinned(s.items, x.items, (y: Item) => y.actorId.Some? && HasActor(x.actors, y.actorId.value))
    && Thinned(s.overrides, x.overrides, (o: Override) => !o.cleared && HasActor(x.actors, o.actorId))
    && Thinned(s.encounters, x.encounters, (e: Encounter) =>
         e.campaignId == campaignId && e.tokenIds != [] && forall id <- e.tokenIds :: HasToken(x.tokens, id))
  }

  lemma {:induction false} ChooseChooses(s: State, sources: seq<Source>, campaignId: Id)
    requires Choose(s.scenes, sources, campaignId).Ok?
    ensures var xs := Choose(s.scenes, sources, campaignId).value;
      |xs| == |sources| && forall i :: 0 <= i < |sources| ==> ChosenFor(s, campaignId, sources[i], xs[i])
  {
    if sources != [] {
      ChooseChooses(s, sources[1..], campaignId);
      var xs := Choose(s.scenes, sources, campaignId).value;
      assert ChosenFor(s, campaignId, sources[0], xs[0]);
      forall i | 1 <= i < |sources| ensures ChosenFor(s, campaignId, sources[i], xs[i]) {
        assert sources[i] == sources[1..][i - 1] && xs[i] == xs[1..][i - 1];
      }
    }
  }

  lemma HasIds(x: Selection, id: Id)
    ensures HasActor(x.actors, id) <==> id in Map(x.actors, ActorId)
    ensures HasToken(x.tokens, id) <==> id in Map(x.tokens, TokenId)
  {
    MapMembers(x.actors, ActorId, id);
    MapMembers(x.tokens, TokenId, id);
  }

  lemma OnScenesAre(sources: seq<Source>, t: Token)
    ensures OnScenes(SourceIds(sources))(t) <==> exists source <- sources :: source.sceneId == t.sceneId
  {
    if source :| source in sources && source.sceneId == t.sceneId {
      var i :| 0 <= i < |sources| && sources[i] == source;
      assert SourceIds(sources)[i] == t.sceneId;
    }
  }

  lemma TokensSelected(s: State, sources: seq<Source>)
    ensures Thinned(s.tokens, Filter(s.tokens, OnScenes(SourceIds(sources))),
      (t: Token) => exists source <- sources :: source.sceneId == t.sceneId)
  {
    forall t <- s.tokens { OnScenesAre(sources, t); }
    FilterLeaves(s.tokens, OnScenes(SourceIds(sources)),
      (t: Token) => exists source <- sources :: source.sceneId == t.sceneId);
  }

  lemma BelongingsSelected(s: State, x: Selection, actorIds: seq<Id>)
    requires "" !in actorIds && forall id :: HasActor(x.actors, id) <==> id in actorIds
    ensures Thinned(s.items, Filter(s.items, HeldBy(actorIds)),
      (y: Item) => y.actorId.Some? && HasActor(x.actors, y.actorId.value))
    ensures Thinned(s.overrides, Filter(s.overrides, ActiveFor(actorIds)),
      (o: Override) => !o.cleared && HasActor(x.actors, o.actorId))
  {
    FilterLeaves(s.items, HeldBy(actorIds), (y: Item) => y.actorId.Some? && HasActor(x.actors, y.actorId.value));
    FilterLeaves(s.overrides, ActiveFor(actorIds), (o: Override) => !o.cleared && HasActor(x.actors, o.actorId));
  }

  lemma EncountersSelected(s: State, campaignId: Id, x: Selection, tokenIds: seq<Id>)
    requires forall id :: HasToken(x.tokens, id) <==> id in tokenIds
    ensures Thinned(s.encounters, Filter(s.encounters, WithinTokens(campaignId, tokenIds)), (e: Encounter) =>
      e.campaignId == campaignId && e.tokenIds != [] && forall id <- e.tokenIds :: HasToken(x.tokens, id))
  {
    FilterLeaves(s.encounters, WithinTokens(campaignId, tokenIds), (e: Encounter) =>
      e.campaignId == campaignId && e.tokenIds != [] && forall id <- e.tokenIds :: HasToken(x.tokens, id));
  }

  lemma SelectsFor(s: State, campaignId: Id, sources: seq<Source>, x: Selection)
    requires Select(s, campaignId, sources) == Ok(x)
    ensures SelectedFor(s, campaignId, sources, x)
  {
    SelectedParts(s, campaignId, sources, x);
    ChooseChooses(s, sources, campaignId);
    ActorIdsFirstNamed(x.tokens);
    ActorIdsGiven(x.tokens);
    forall id
      ensures HasActor(x.actors, id) <==> id in ActorIds(x.tokens)
      ensures HasToken(x.tokens, id) <==> id in Map(x.tokens, TokenId)
    {
      HasIds(x, id);
    }
    TokensSelected(s, sources);
    BelongingsSelected(s, x, ActorIds(x.tokens));
    EncountersSelected(s, campaignId, x, Map(x.tokens, TokenId));
  }

  // ----- When there is a selection -----

  ghost predicate OnSources(sources: seq<Source>, t: Token) { exists source <- sources :: source.sceneId == t.sceneId }

  ghost predicate HasSourceToken(s: State, sources: seq<Source>, id: Id) {
    exists t <- s.tokens :: t.id == id && OnSources(sources, t)
  }

  /** Covers and annotations of the scene are about tokens of the requested scenes, or the first
      other token of an annotation has the empty id. */
  ghost predicate RefersInside(s: State, sources: seq<Source>, scene: Scene) {
    && (forall v <- scene.covers ::
          HasSourceToken(s, sources, v.sourceTokenId) && HasSourceToken(s, sources, v.targetTokenId))
    && (forall a <- scene.annotations, k | 0 <= k < |a.affectedTokenIds| ::
          HasSourceToken(s, sources, a.affectedTokenIds[k]) || EmptyOutside(s, sources, a.affectedTokenIds, k))
  }

  ghost predicate EmptyOutside(s: State, sources: seq<Source>, ids: seq<Id>, k: nat)
    requires k < |ids|
  {
    !HasSourceToken(s, sources, "") && exists j :: 0 <= j <= k && ids[j] == ""
  }

  ghost predicate Choosable(s: State, campaignId: Id, source: Source) {
    exists x :: ChosenFor(s, campaignId, source, x)
  }

  ghost predicate ActorOfCampaign(s: State, campaignId: Id, id: Id) {
    exists a <- s.actors :: a.id == id && a.campaignId == campaignId
  }

  /** The scenes are the campaign's and get proper names, so are the actors of their tokens, and
      they refer to no other tokens. */
  ghost predicate Selectable(s: State, campaignId: Id, sources: seq<Source>) {
    && (forall source <- sources :: Choosable(s, campaignId, source))
    && (forall t <- s.tokens :: OnSources(sources, t) && t.actorId.Some? && t.actorId.value != "" ==>
          ActorOfCampaign(s, campaignId, t.actorId.value))
    && (forall x <- s.scenes :: IsSource(sources, x) ==> RefersInside(s, sources, x))
  }

  lemma {:induction false} FindsScene(s: State, scenes: seq<Scene>, id: Id, campaignId: Id, x: Scene)
    requires x in scenes && x.id == id && x.campaignId == campaignId
    ensures FindScene(scenes, id, campaignId).Some?
  {
    if scenes[0] != x { FindsScene(s, scenes[1..], id, campaignId, x); }
  }

  lemma SoleScene(s: State, x: Scene, y: Scene)
    requires UniqueIds(s) && x in s.scenes && y in s.scenes && x.id == y.id
    ensures x == y
  {
    var i :| 0 <= i < |s.scenes| && s.scenes[i] == x;
    var j :| 0 <= j < |s.scenes| && s.scenes[j] == y;
    var ids := Map(s.scenes, SceneId);
    assert ids[i] == ids[j];
  }

  lemma ChoosableIff(s: State, source: Source, campaignId: Id)
    requires UniqueIds(s)
    ensures Choosable(s, campaignId, source) <==>
      var found := FindScene(s.scenes, source.sceneId, campaignId);
      found.Some? && ChosenFor(s, campaignId, source, Chosen(found.value,
        if source.name.None? then found.value.name + " Copy" else Trim(source.name.value)))
  {
    if x :| ChosenFor(s, campaignId, source, x) {
      FindsScene(s, s.scenes, source.sceneId, campaignId, x.scene);
      SoleScene(s, x.scene, FindScene(s.scenes, source.sceneId, campaignId).value);
    }
  }

  lemma {:induction false} ChooseIff(s: State, sources: seq<Source>, campaignId: Id)
    requires UniqueIds(s)
    ensures Choose(s.scenes, sources, campaignId).Ok? <==> forall source <- sources :: Choosable(s, campaignId, source)
  {
    if sources != [] {
      ChooseIff(s, sources[1..], campaignId);
      ChoosableIff(s, sources[0], campaignId);
      assert forall source :: source in sources <==> source == sources[0] || source in sources[1..];
    }
  }

  lemma {:induction false} FindsActor(actors: seq<Actor>, id: Id, campaignId: Id)
    ensures FindActor(actors, id, campaignId).Some? <==> exists a <- actors :: a.id == id && a.campaignId == campaignId
  {
    if actors != [] {
      FindsActor(actors[1..], id, campaignId);
      assert actors == [actors[0]] + actors[1..];
    }
  }

  lemma {:induction false} SourceActorsIff(s: State, ids: seq<Id>, campaignId: Id)
    ensures SourceActors(s.actors, ids, campaignId).Some? <==> forall id <- ids :: ActorOfCampaign(s, campaignId, id)
  {
    if ids != [] {
      assert forall id :: id in ids <==> id == ids[0] || id in ids[1..];
      FindsActor(s.actors, ids[0], campaignId);
      SourceActorsIff(s, ids[1..], campaignId);
      assert ids[0] in ids;
    }
  }

  lemma SourceTokensAre(s: State, sources: seq<Source>, id: Id)
    ensures id in Map(Filter(s.tokens, OnScenes(SourceIds(sources))), TokenId) <==> HasSourceToken(s, sources, id)
  {
    var tokens := Filter(s.tokens, OnScenes(SourceIds(sources)));
    forall t <- s.tokens ensures OnScenes(SourceIds(sources))(t) <==> OnSources(sources, t) { OnScenesAre(sources, t); }
    if t :| t in s.tokens && t.id == id && OnSources(sources, t) {
      var i :| 0 <= i < |tokens| && tokens[i] == t;
      assert Map(tokens, TokenId)[i] == id;
    }
    if id in Map(tokens, TokenId) {
      var i :| 0 <= i < |tokens| && Map(tokens, TokenId)[i] == id;
      assert tokens[i] in tokens;
    }
  }

  lemma {:induction false} FirstOutsideIs(ids: seq<Id>, tokenIds: seq<Id>)
    ensures match FirstOutside(ids, tokenIds)
      case None => forall id <- ids :: id in tokenIds
      case Some(id) => exists k: nat :: FirstOut(ids, tokenIds, k) && ids[k] == id
  {
    if ids != [] && ids[0] in tokenIds {
      FirstOutsideIs(ids[1..], tokenIds);
      assert ids == [ids[0]] + ids[1..];
      if FirstOutside(ids[1..], tokenIds).Some? {
        var k: nat :| FirstOut(ids[1..], tokenIds, k) && ids[1..][k] == FirstOutside(ids, tokenIds).value;
        forall j | 0 <= j < k + 1 ensures ids[j] in tokenIds { assert j > 0 ==> ids[j] == ids[1..][j - 1]; }
        assert FirstOut(ids, tokenIds, k + 1);
      }
    } else if ids != [] {
      assert FirstOut(ids, tokenIds, 0);
    }
  }

  ghost predicate FirstOut(ids: seq<Id>, tokenIds: seq<Id>, k: nat) {
    k < |ids| && ids[k] !in tokenIds && forall j :: 0 <= j < k ==> ids[j] in tokenIds
  }

  lemma AnnotationInside(s: State, sources: seq<Source>, ids: seq<Id>, tokenIds: seq<Id>)
    requires forall id :: id in tokenIds <==> HasSourceToken(s, sources, id)
    ensures !Given(FirstOutside(ids, tokenIds)) <==>
      forall k :: 0 <= k < |ids| ==> HasSourceToken(s, sources, ids[k]) || EmptyOutside(s, sources, ids, k)
  {
    FirstOutsideIs(ids, tokenIds);
    if FirstOutside(ids, tokenIds).Some? {
      var n: nat :| FirstOut(ids, tokenIds, n) && ids[n] == FirstOutside(ids, tokenIds).value;
      if ids[n] == "" {
        forall k | 0 <= k < |ids| ensures HasSourceToken(s, sources, ids[k]) || EmptyOutside(s, sources, ids, k) {
          assert k < n ==> ids[k] in tokenIds;
        }
      } else {
        forall j | 0 <= j <= n ensures ids[j] in tokenIds || ids[j] != "" {}
        assert !HasSourceToken(s, sources, ids[n]) && !EmptyOutside(s, sources, ids, n);
      }
    }
  }

  lemma SceneInside(s: State, sources: seq<Source>, scene: Scene, tokenIds: seq<Id>)
    requires forall id :: id in tokenIds <==> HasSourceToken(s, sources, id)
    ensures RefersInside(s, sources, scene) <==>
      && (forall a <- scene.annotations :: !Given(FirstOutside(a.affectedTokenIds, tokenIds)))
      && (forall c <- scene.covers :: c.sourceTokenId in tokenIds && c.targetTokenId in tokenIds)
  {
    forall a <- scene.annotations { AnnotationInside(s, sources, a.affectedTokenIds, tokenIds); }
  }

  ghost predicate IsSource(sources: seq<Source>, x: Scene) { exists source <- sources :: x.id == source.sceneId }

  lemma ChosenAreSources(s: State, campaignId: Id, sources: seq<Source>, x: Scene)
    requires UniqueIds(s) && Choose(s.scenes, sources, campaignId).Ok?
    ensures (exists y <- Choose(s.scenes, sources, campaignId).value :: y.scene == x)
      <==> x in s.scenes && IsSource(sources, x)
  {
    var xs := Choose(s.scenes, sources, campaignId).value;
    if x in s.scenes && IsSource(sources, x) {
      var source :| source in sources && x.id == source.sceneId;
      var i :| 0 <= i < |sources| && sources[i] == source;
      SoleScene(s, x, xs[i].scene);
      assert xs[i] in xs;
    }
    if y :| y in xs && y.scene == x {
      var i :| 0 <= i < |xs| && xs[i] == y;
      assert sources[i] in sources;
    }
  }

  lemma ScenesInside(s: State, campaignId: Id, sources: seq<Source>, tokenIds: seq<Id>)
    requires UniqueIds(s) && Choose(s.scenes, sources, campaignId).Ok?
    requires forall id :: id in tokenIds <==> HasSourceToken(s, sources, id)
    ensures InternalTokens(Choose(s.scenes, sources, campaignId).value, tokenIds) <==>
      forall x <- s.scenes :: IsSource(sources, x) ==> RefersInside(s, sources, x)
  {
    var xs := Choose(s.scenes, sources, campaignId).value;
    forall x: Scene
      ensures (exists y <- xs :: y.scene == x) <==> x in s.scenes && IsSource(sources, x)
      ensures RefersInside(s, sources, x) <==>
        && (forall a <- x.annotations :: !Given(FirstOutside(a.affectedTokenIds, tokenIds)))
        && (forall c <- x.covers :: c.sourceTokenId in tokenIds && c.targetTokenId in tokenIds)
    {
      ChosenAreSources(s, campaignId, sources, x);
      SceneInside(s, sources, x, tokenIds);
    }
  }

  lemma ActorsOfCampaign(s: State, campaignId: Id, sources: seq<Source>)
    ensures SourceActors(s.actors, ActorIds(Filter(s.tokens, OnScenes(SourceIds(sources)))), campaignId).Some? <==>
      forall t <- s.tokens :: OnSources(sources, t) && t.actorId.Some? && t.actorId.value != "" ==>
        ActorOfCampaign(s, campaignId, t.actorId.value)
  {
    var tokens := Filter(s.tokens, OnScenes(SourceIds(sources)));
    forall t <- s.tokens ensures OnScenes(SourceIds(sources))(t) <==> OnSources(sources, t) { OnScenesAre(sources, t); }
    ActorIdsFirstNamed(tokens);
    SourceActorsIff(s, ActorIds(tokens), campaignId);
  }

  /** Scenes can be selected exactly when that is so. */
  lemma SelectsIff(s: State, campaignId: Id, sources: seq<Source>)
    requires UniqueIds(s)
    ensures Select(s, campaignId, sources).Ok? <==> Selectable(s, campaignId, sources)
  {
    ChooseIff(s, sources, campaignId);
    ActorsOfCampaign(s, campaignId, sources);
    var tokenIds := Map(Filter(s.tokens, OnScenes(SourceIds(sources))), TokenId);
    forall id ensures id in tokenIds <==> HasSourceToken(s, sources, id) { SourceTokensAre(s, sources, id); }
    if Choose(s.scenes, sources, campaignId).Ok? { ScenesInside(s, campaignId, sources, tokenIds); }
  }

  // ----- The new ids -----

  /** The last of the collections, in the order they are copied, that has the id. */
  ghost function LastHolder(x: Selection, id: Id): Coll {
    if id in Map(x.encounters, EncounterId) then "encounters"
    else if id in Map(x.overrides, OverrideId) then "calculationOverrides"
    else if id in Map(x.items, ItemId) then "items"
    else if id in Map(x.actors, ActorId) then "actors"
    else if id in Map(x.tokens, TokenId) then "tokens"
    else "scenes"
  }

  /** Every selected record, and no other, gets the id the digest gives for it. */
  ghost predicate NamedFor(x: Selection, op: string, naming: Naming, m: IdMap) {
    forall id :: (id in m <==> Selected(x, id)) && (id in m ==> m[id] == naming.record(op, LastHolder(x, id), id))
  }

  lemma {:induction false} AddIdsAre(m: IdMap, op: string, coll: Coll, ids: seq<Id>, naming: Naming, id: Id)
    ensures var r := AddIds(m, op, coll, ids, naming);
      if id in ids then id in r && r[id] == naming.record(op, coll, id)
      else (id in r <==> id in m) && (id in m ==> r[id] == m[id])
  {
    if ids != [] {
      AddIdsAre(m, op, coll, ids[..|ids| - 1], naming, id);
      assert ids == ids[..|ids| - 1] + [ids[|ids| - 1]];
    }
  }

  lemma NewIdIs(x: Selection, op: string, naming: Naming, id: Id)
    ensures var m := NewIds(x, op, naming);
      && (id in m <==> Selected(x, id)) && (id in m ==> m[id] == naming.record(op, LastHolder(x, id), id))
  {
    var m1 := AddIds(map[], op, "scenes", SceneIds(x.scenes), naming);
    var m2 := AddIds(m1, op, "tokens", Map(x.tokens, TokenId), naming);
    var m3 := AddIds(m2, op, "actors", Map(x.actors, ActorId), naming);
    var m4 := AddIds(m3, op, "items", Map(x.items, ItemId), naming);
    var m5 := AddIds(m4, op, "calculationOverrides", Map(x.overrides, OverrideId), naming);
    AddIdsAre(map[], op, "scenes", SceneIds(x.scenes), naming, id);
    AddIdsAre(m1, op, "tokens", Map(x.tokens, TokenId), naming, id);
    AddIdsAre(m2, op, "actors", Map(x.actors, ActorId), naming, id);
    AddIdsAre(m3, op, "items", Map(x.items, ItemId), naming, id);
    AddIdsAre(m4, op, "calculationOverrides", Map(x.overrides, OverrideId), naming, id);
    AddIdsAre(m5, op, "encounters", Map(x.encounters, EncounterId), naming, id);
  }

  // ----- When a duplication is prepared -----

  /** Some record of the copied collections, or an audit record, has the id. */
  ghost predicate InUse(s: State, id: Id) {
    || (exists x <- s.scenes :: x.id == id) || (exists t <- s.tokens :: t.id == id)
    || (exists a <- s.actors :: a.id == id) || (exists y <- s.items :: y.id == id)
    || (exists o <- s.overrides :: o.id == id) || (exists e <- s.encounters :: e.id == id) || id in s.auditIds
  }

  lemma InUseIs(s: State, id: Id)
    ensures IdTaken(s, id) <==> InUse(s, id)
  {
    MapMembers(s.scenes, SceneId, id);
    MapMembers(s.tokens, TokenId, id);
    MapMembers(s.actors, ActorId, id);
    MapMembers(s.items, ItemId, id);
    MapMembers(s.overrides, OverrideId, id);
    MapMembers(s.encounters, EncounterId, id);
  }

  /** None of the ids that the selected records get is in use. */
  ghost predicate NewIdsFree(s: State, op: string, naming: Naming, x: Selection) {
    forall id :: Selected(x, id) ==> !InUse(s, naming.record(op, LastHolder(x, id), id))
  }

  lemma NewIdsFreeIff(s: State, op: string, naming: Naming, x: Selection)
    ensures IdsAvailable(s, NewIds(x, op, naming)) <==> NewIdsFree(s, op, naming, x)
  {
    var m := NewIds(x, op, naming);
    forall id
      ensures (id in m <==> Selected(x, id)) && (id in m ==> m[id] == naming.record(op, LastHolder(x, id), id))
    {
      NewIdIs(x, op, naming, id);
    }
    forall v ensures IdTaken(s, v) <==> InUse(s, v) { InUseIs(s, v); }
    if !IdsAvailable(s, m) {
      var v :| v in m.Values && IdTaken(s, v);
      var id :| id in m && m[id] == v;
      assert Selected(x, id);
    }
    if IdsAvailable(s, m) {
      forall id | Selected(x, id) ensures !InUse(s, naming.record(op, LastHolder(x, id), id)) {
        assert m[id] in m.Values;
      }
    }
  }

  ghost predicate RequestFits(req: Request) {
    && 1 <= |req.operationId| <= 160 && 1 <= |req.sources| <= 100
    && (forall c <- req.operationId ::
          'A' <= c <= 'Z' || 'a' <= c <= 'z' || '0' <= c <= '9' || c == ':' || c == '_' || c == '-')
    && (forall i, j :: 0 <= i < j < |req.sources| ==> req.sources[i].sceneId != req.sources[j].sceneId)
  }

  lemma FitsIff(req: Request)
    ensures WellFormed(req) <==> RequestFits(req)
  {
    OperationIdIs(req.operationId);
    SourcesDistinct(req.sources);
  }

  lemma PrepareSteps(s: State, campaignId: Id, req: Request, naming: Naming, shared: (State, Selection) -> bool)
    ensures Prepare(s, campaignId, req, naming, shared).Ok? <==>
      && WellFormed(req) && Select(s, campaignId, req.sources).Ok?
      && var x := Select(s, campaignId, req.sources).value;
         IdsAvailable(s, NewIds(x, req.operationId, naming)) && shared(s, x)
  {}

  /** A duplication is prepared exactly when the request is well-formed, the scenes can be
      selected, no new id is in use and the shared references are allowed. */
  lemma PreparesIff(s: State, campaignId: Id, req: Request, naming: Naming, shared: (State, Selection) -> bool)
    requires UniqueIds(s)
    ensures Prepare(s, campaignId, req, naming, shared).Ok? <==>
      && RequestFits(req) && Selectable(s, campaignId, req.sources) && Select(s, campaignId, req.sources).Ok?
      && var x := Select(s, campaignId, req.sources).value;
         NewIdsFree(s, req.operationId, naming, x) && shared(s, x)
  {
    FitsIff(req);
    PrepareSteps(s, campaignId, req, naming, shared);
    SelectsIff(s, campaignId, req.sources);
    if Select(s, campaignId, req.sources).Ok? {
      NewIdsFreeIff(s, req.operationId, naming, Select(s, campaignId, req.sources).value);
    }
  }

  lemma OperationIdIs(op: string)
    ensures OperationIdFits(op) <==> 1 <= |op| <= 160 && forall c <- op ::
      'A' <= c <= 'Z' || 'a' <= c <= 'z' || '0' <= c <= '9' || c == ':' || c == '_' || c == '-'
  {
    forall c <- op ensures exists i :: 0 <= i < |op| && op[i] == c {}
    forall i | 0 <= i < |op| ensures op[i] in op {}
  }

  lemma SourcesDistinct(sources: seq<Source>)
    ensures Distinct(SourceIds(sources)) <==>
      forall i, j :: 0 <= i < j < |sources| ==> sources[i].sceneId != sources[j].sceneId
  {
    var ids := SourceIds(sources);
    assert forall i :: 0 <= i < |ids| ==> ids[i] == sources[i].sceneId;
  }
}
