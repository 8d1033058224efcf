/** Controlled creatures: ending them, and transforming an actor and reverting it. */
module Creatures {
  import opened Json
  import opened Sequences
  import opened Revisions
  import opened StablePrinterMeaning
  import opened Texts

  type Id = string

  datatype Kind = Summon | Companion | Transformation
  datatype Status = Active | Dismissed | Expired | ConcentrationEnded

  /** An actor's data: what the rest of the engine keeps there, and the controlled-creature record. */
  datatype Data = Data(body: Value, record: Option<Creature>)

  datatype Creature = Creature(
    id: Id, kind: Kind, status: Status, linkedTokenIds: seq<Id>, shift: Option<Shift>, updatedAt: int)

  /** What a transformation remembers of the time before it. */
  datatype Shift = Shift(actor: Shape, items: seq<ItemShape>, combatants: seq<TurnShape>)

  datatype Shape = Shape(name: string, actorType: string, image: Option<Id>, data: Data)
  datatype ItemShape = ItemShape(id: Id, actorId: Option<Id>, data: Value)
  datatype TurnShape = TurnShape(combatId: Id, combatantId: Id, initiative: int)

  datatype Actor = Actor(id: Id, campaignId: Id, shape: Shape, updatedAt: int)
  datatype Item = Item(id: Id, campaignId: Id, actorId: Option<Id>, data: Value, updatedAt: int)
  datatype Token = Token(id: Id, sceneId: Id, actorId: Option<Id>, updatedAt: int)
  datatype Combatant = Combatant(id: Id, tokenId: Id, actorId: Option<Id>, initiative: int, body: Value)
  datatype Combat = Combat(id: Id, campaignId: Id, combatants: seq<Combatant>, turnIndex: int, manual: bool,
    updatedAt: int)
  datatype Encounter = Encounter(id: Id, campaignId: Id, tokenIds: seq<Id>, updatedAt: int)
  datatype Cover = Cover(id: Id, sourceTokenId: Id, targetTokenId: Id)
  datatype Scene = Scene(id: Id, covers: seq<Cover>, updatedAt: int)

  datatype State = State(
    actors: seq<Actor>, items: seq<Item>, tokens: seq<Token>, combats: seq<Combat>, encounters: seq<Encounter>,
    scenes: seq<Scene>)

  datatype Result = Done(state: State) | Failed

  // ----- Removing a creature's tokens -----

  function Stays(a: Actor, linked: seq<Id>): Combatant -> bool {
    (x: Combatant) => x.tokenId !in linked && x.actorId != Some(a.id)
  }

  function ClampTurn(turn: int, count: nat): int {
    var last := if count == 0 then 0 else count - 1;
    var low := if turn < last then turn else last;
    if low < 0 then 0 else low
  }

  function CutCombat(c: Combat, a: Actor, linked: seq<Id>, now: int): Combat {
    var next := Filter(c.combatants, Stays(a, linked));
    if c.campaignId != a.campaignId || |next| == |c.combatants| then c
    else c.(combatants := next, turnIndex := ClampTurn(c.turnIndex, |next|),
      updatedAt := NextRevision(c.updatedAt, now))
  }

  function Outside(linked: seq<Id>): Id -> bool { (id: Id) => id !in linked }

  function CutEncounter(e: Encounter, a: Actor, linked: seq<Id>, now: int): Encounter {
    if e.campaignId != a.campaignId || forall id <- e.tokenIds :: id !in linked then e
    else e.(tokenIds := Filter(e.tokenIds, Outside(linked)), updatedAt := NextRevision(e.updatedAt, now))
  }

  function Uncovered(linked: seq<Id>): Cover -> bool {
    (v: Cover) => v.sourceTokenId !in linked && v.targetTokenId !in linked
  }

  /** Only scenes that held a removed token are looked at. */
  function CutScene(s: Scene, removed: seq<Token>, linked: seq<Id>, now: int): Scene {
    var next := Filter(s.covers, Uncovered(linked));
    if (forall t <- removed :: t.sceneId != s.id) || |next| == |s.covers| then s
    else s.(covers := next, updatedAt := NextRevision(s.updatedAt, now))
  }

  function IsLinked(linked: seq<Id>): Token -> bool { (t: Token) => t.id in linked }

  function Unlinked(s: State, a: Actor, linked: seq<Id>, now: int): State {
    var removed := Filter(s.tokens, IsLinked(linked));
    s.(tokens := Filter(s.tokens, Not(IsLinked(linked))),
       combats := Map(s.combats, c => CutCombat(c, a, linked, now)),
       encounters := Map(s.encounters, e => CutEncounter(e, a, linked, now)),
       scenes := Map(s.scenes, x => CutScene(x, removed, linked, now)))
  }

  // ----- Ending a creature -----

  function HeldBy(a: Actor): Item -> bool { (x: Item) => x.actorId == Some(a.id) }

  function IsActor(a: Actor): Actor -> bool { (x: Actor) => x.id == a.id }

  /** A companion is dismissed and stays as an actor; any other creature goes with its items. */
  function EndLinked(s: State, i: nat, record: Creature, now: int): State
    requires i < |s.actors|
  {
    var a := s.actors[i];
    var cut := Unlinked(s, a, record.linkedTokenIds, now);
    if record.kind == Companion then
      var dismissed := record.(status := Dismissed, linkedTokenIds := [], updatedAt := now);
      cut.(actors :=
        s.actors[i :=
          a.(shape := a.shape.(data := a.shape.data.(record := Some(dismissed))),
            updatedAt := NextRevision(a.updatedAt, now))])
    else
      cut.(items := Filter(s.items, Not(HeldBy(a))), actors := Filter(s.actors, Not(IsActor(a))))
  }

  function ItemIndex(items: seq<Item>, id: Id, campaignId: Id): (r: Option<nat>)
    ensures r.Some? ==> r.value < |items| && items[r.value].id == id && items[r.value].campaignId == campaignId
    ensures r.None? ==> forall x <- items :: !(x.id == id && x.campaignId == campaignId)
  {
    if items == [] then None
    else if items[0].id == id && items[0].campaignId == campaignId then Some(0)
    else
      var rest := ItemIndex(items[1..], id, campaignId);
      if rest.None? then None else Some(rest.value + 1)
  }

  function RestoreItem(x: Item, shape: ItemShape, now: int): Item {
    x.(actorId := shape.actorId, data := shape.data, updatedAt := NextRevision(x.updatedAt, now))
  }

  function RestoreItems(items: seq<Item>, shapes: seq<ItemShape>, campaignId: Id, now: int): Option<seq<Item>> {
    if shapes == [] then Some(items)
    else
      var before := RestoreItems(items, shapes[..|shapes| - 1], campaignId, now);
      if before.None? then None
      else
        var shape := shapes[|shapes| - 1];
        var i := ItemIndex(before.value, shape.id, campaignId);
        if i.None? then None else Some(before.value[i.value := RestoreItem(before.value[i.value], shape, now)])
  }

  function CombatIndex(combats: seq<Combat>, id: Id, campaignId: Id): (r: Option<nat>)
    ensures r.Some? ==> r.value < |combats| && combats[r.value].id == id && combats[r.value].campaignId == campaignId
    ensures r.Some? ==> forall k :: 0 <= k < r.value ==> !(combats[k].id == id && combats[k].campaignId == campaignId)
    ensures r.None? ==> forall c <- combats :: !(c.id == id && c.campaignId == campaignId)
  {
    if combats == [] then None
    else if combats[0].id == id && combats[0].campaignId == campaignId then Some(0)
    else
      var rest := CombatIndex(combats[1..], id, campaignId);
      if rest.None? then None else Some(rest.value + 1)
  }

  function CombatantIndex(cs: seq<Combatant>, id: Id): (r: Option<nat>)
    ensures r.Some? ==> r.value < |cs| && cs[r.value].id == id
    ensures r.None? ==> forall x <- cs :: x.id != id
  {
    if cs == [] then None
    else if cs[0].id == id then Some(0)
    else
      var rest := CombatantIndex(cs[1..], id);
      if rest.None? then None else Some(rest.value + 1)
  }

  /** Turn order: initiative first, higher before lower, then the id. */
  predicate ActsBefore(x: Combatant, y: Combatant) {
    x.initiative > y.initiative || (x.initiative == y.initiative && Leq(x.id, y.id))
  }

  function TurnOrder(cs: seq<Combatant>, manual: bool): seq<Combatant> { if manual then cs else SortBy(cs, ActsBefore) }

  function RestoreTurn(c: Combat, i: nat, initiative: int, now: int): Combat
    requires i < |c.combatants|
  {
    c.(combatants := TurnOrder(c.combatants[i := c.combatants[i].(initiative := initiative)], c.manual),
       updatedAt := NextRevision(c.updatedAt, now))
  }

  function RestoreTurns(combats: seq<Combat>, turns: seq<TurnShape>, campaignId: Id, now: int): Option<seq<Combat>> {
    if turns == [] then Some(combats)
    else
      var before := RestoreTurns(combats, turns[..|turns| - 1], campaignId, now);
      if before.None? then None
      else
        var turn := turns[|turns| - 1];
        var k := CombatIndex(before.value, turn.combatId, campaignId);
        if k.None? then None
        else
          var i := CombatantIndex(before.value[k.value].combatants, turn.combatantId);
          if i.None? then None
          else Some(before.value[k.value := RestoreTurn(before.value[k.value], i.value, turn.initiative, now)])
  }

  function Reverted(s: State, i: nat, shift: Shift, now: int): Result
    requires i < |s.actors|
  {
    var a := s.actors[i];
    var items, combats :=
      RestoreItems(s.items, shift.items, a.campaignId, now),
        RestoreTurns(s.combats, shift.combatants, a.campaignId, now);
    if items.None? || combats.None? then Failed
    else
      Done(s.(actors := s.actors[i := a.(shape := shift.actor, updatedAt := NextRevision(a.updatedAt, now))],
              items := items.value, combats := combats.value))
  }

  /** `expired` is whether the record's duration has run out; it is asked only for that reason. */
  function End(s: State, i: nat, reason: Status, expired: bool, now: int): Result
    requires i < |s.actors|
  {
    var record := s.actors[i].shape.data.record;
    if record.None? || record.value.status != Active || (reason == Expired && !expired) then Failed
    else if record.value.kind == Transformation && record.value.shift.Some? then
      Reverted(s, i, record.value.shift.value, now)
    else Done(EndLinked(s, i, record.value, now))
  }

  // ----- Transforming an actor -----

  datatype Initiative = Independent(value: Option<int>) | Shared(sourceActorId: Id)

  /** `preserveHp` and `suppressItems` are absent when the request does not say. */
  datatype Request = Request(
    targetActorId: Id, campaignId: Id, combatId: Option<Id>, initiative: Initiative, name: string, actorType: string,
    image: Option<Id>, data: Value, preserveHp: Option<bool>, suppressItems: Option<bool>)

  function ActorIndex(actors: seq<Actor>, id: Id, campaignId: Id): (r: Option<nat>)
    ensures r.Some? ==> r.value < |actors| && actors[r.value].id == id && actors[r.value].campaignId == campaignId
    ensures r.Some? ==> forall k :: 0 <= k < r.value ==> !(actors[k].id == id && actors[k].campaignId == campaignId)
    ensures r.None? ==> forall a <- actors :: !(a.id == id && a.campaignId == campaignId)
  {
    if actors == [] then None
    else if actors[0].id == id && actors[0].campaignId == campaignId then Some(0)
    else
      var rest := ActorIndex(actors[1..], id, campaignId);
      if rest.None? then None else Some(rest.value + 1)
  }

  function OfActor(id: Id): Combatant -> bool { (x: Combatant) => x.actorId == Some(id) }

  function InitiativeOf(cs: seq<Combatant>, actorId: Id): Option<int> {
    if cs == [] then None else if cs[0].actorId == Some(actorId) then Some(cs[0].initiative)
      else InitiativeOf(cs[1..], actorId)
  }

  function NewInitiative(init: Initiative, cs: seq<Combatant>): Option<int> {
    match init
    case Independent(value) => value
    case Shared(source) => InitiativeOf(cs, source)
  }

  /** The first `n` combatants have been visited. */
  function ShiftTurns(cs: seq<Combatant>, actorId: Id, init: Initiative, n: nat): (r: Option<seq<Combatant>>)
    requires n <= |cs|
    ensures r.Some? ==> |r.value| == |cs|
  {
    if n == 0 then Some(cs)
    else
      var before := ShiftTurns(cs, actorId, init, n - 1);
      if before.None? || cs[n - 1].actorId != Some(actorId) then before
      else
        var value := NewInitiative(init, before.value);
        if value.None? then None else Some(before.value[n - 1 := before.value[n - 1].(initiative := value.value)])
  }

  function TurnsOf(combatId: Id, cs: seq<Combatant>, actorId: Id): seq<TurnShape> {
    Map(Filter(cs, OfActor(actorId)), (x: Combatant) => TurnShape(combatId, x.id, x.initiative))
  }

  /** A field of an object: replaced where it is, or added at the end. */
  function SetField(fields: seq<Field>, key: string, value: Value): seq<Field> {
    if fields == [] then [Field(key, value)]
    else if fields[0].key == key then [Field(key, value)] + fields[1..]
    else [fields[0]] + SetField(fields[1..], key, value)
  }

  function WithField(v: Value, key: string, value: Value): Value {
    if v.Object? then Object(SetField(v.fields, key, value)) else v
  }

  const LEDGERS: seq<string> := ["resources", "spellSlots", "pactSlots", "rulesEngine"]

  function CarryAll(next: Value, from: Value, keys: seq<string>): Value {
    if keys == [] || !from.Object? then next
    else
      var before, m := CarryAll(next, from, keys[..|keys| - 1]), Member(from.fields, keys[|keys| - 1]);
      if m.None? then before else WithField(before, keys[|keys| - 1], m.value)
  }

  function ShiftedBody(req: Request, from: Value): Value {
    CarryAll(req.data, from, if req.preserveHp == Some(true) then LEDGERS + ["hp"] else LEDGERS)
  }

  function Suppressed(x: Item, recordId: Id, now: int): Item {
    x.(actorId := None, data := WithField(x.data, "dnd5eTransformationSuppressedBy", Text(recordId)),
      updatedAt := NextRevision(x.updatedAt, now))
  }

  function Remembered(items: seq<Item>, a: Actor, suppress: bool): seq<ItemShape> {
    if suppress then Map(Filter(items, HeldBy(a)), (x: Item) => ItemShape(x.id, x.actorId, x.data)) else []
  }

  function LinkedTokens(tokens: seq<Token>, actorId: Id): seq<Id> {
    Map(Filter(tokens, (t: Token) => t.actorId == Some(actorId)), (t: Token) => t.id)
  }

  /** The combats after the transformed actor's turns were shifted, and what they were. */
  function ShiftCombat(combats: seq<Combat>, req: Request, actorId: Id, now: int): Option<(seq<Combat>, seq<TurnShape>)>
  {
    if req.combatId.None? then Some((combats, []))
    else
      var k := CombatIndex(combats, req.combatId.value, req.campaignId);
      if k.None? then None
      else
        var c := combats[k.value];
        var shifted, turns :=
          ShiftTurns(c.combatants, actorId, req.initiative, |c.combatants|), TurnsOf(c.id, c.combatants, actorId);
        if shifted.None? then None
        else if turns == [] then Some((combats, []))
        else Some((combats[k.value :=
          c.(combatants := TurnOrder(shifted.value, c.manual), updatedAt := NextRevision(c.updatedAt, now))], turns))
  }

  function Transform(s: State, req: Request, recordId: Id, now: int): Result {
    var i := ActorIndex(s.actors, req.targetActorId, req.campaignId);
    if i.None? || req.preserveHp.None? || req.suppressItems.None? then Failed
    else
      var a := s.actors[i.value];
      var combats := ShiftCombat(s.combats, req, a.id, now);
      if combats.None? then Failed
      else
        var shift := Shift(a.shape, Remembered(s.items, a, req.suppressItems.value), combats.value.1);
        var record := Creature(recordId, Transformation, Active, LinkedTokens(s.tokens, a.id), Some(shift), now);
        var shape :=
          Shape(Trim(req.name), Trim(req.actorType), req.image,
            Data(ShiftedBody(req, a.shape.data.body), Some(record)));
        Done(s.(actors := s.actors[i.value := a.(shape := shape, updatedAt := NextRevision(a.updatedAt, now))],
                items := if req.suppressItems.value then
                  Map(s.items, (x: Item) => if x.actorId == Some(a.id) then Suppressed(x, recordId, now) else x)
                    else s.items,
                combats := combats.value.0))
  }
}
