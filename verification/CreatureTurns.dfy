/** Reverting a transformation gives the combatants their initiative and the turn order back. */
module CreatureTurns {
  import opened Json
  import opened Sequences
  import opened Creatures

  ghost predicate UniqueCombatants(cs: seq<Combatant>) { forall i, j :: 0 <= i < j < |cs| ==> cs[i].id != cs[j].id }

  /** Gives the combatant with the turn's id the turn's initiative. */
  function SetTurn(t: TurnShape): Combatant -> Combatant {
    (x: Combatant) => if x.id == t.combatantId then x.(initiative := t.initiative) else x
  }

  function SetTurns(turns: seq<TurnShape>, x: Combatant): Combatant {
    if turns == [] then x else SetTurn(turns[|turns| - 1])(SetTurns(turns[..|turns| - 1], x))
  }

  function SetAll(turns: seq<TurnShape>, cs: seq<Combatant>): (r: seq<Combatant>)
    ensures |r| == |cs| && forall i :: 0 <= i < |cs| ==> r[i] == SetTurns(turns, cs[i])
  {
    seq(|cs|, i requires 0 <= i < |cs| => SetTurns(turns, cs[i]))
  }

  /** One combat's turns restored one after the other, sorting after each. */
  function RestoreList(cs: seq<Combatant>, turns: seq<TurnShape>, manual: bool): Option<seq<Combatant>> {
    if turns == [] then Some(cs)
    else
      var before := RestoreList(cs, turns[..|turns| - 1], manual);
      if before.None? then None
      else
        var i := CombatantIndex(before.value, turns[|turns| - 1].combatantId);
        if i.None? then None
        else Some(TurnOrder(before.value[i.value :=
          before.value[i.value].(initiative := turns[|turns| - 1].initiative)], manual))
  }

  // ----- Sorting keeps ids apart -----

  lemma {:induction false} InsertKeepsApart(x: Combatant, sorted: seq<Combatant>)
    requires UniqueCombatants(sorted) && forall y <- sorted :: y.id != x.id
    ensures UniqueCombatants(InsertBy(x, sorted, ActsBefore))
  {
    if sorted != [] && !ActsBefore(x, sorted[0]) {
      InsertKeepsApart(x, sorted[1..]);
      var rest := InsertBy(x, sorted[1..], ActsBefore);
      forall j | 0 <= j < |rest| ensures rest[j].id != sorted[0].id {
        assert rest[j] in multiset(rest);
        assert rest[j] == x || rest[j] in sorted[1..];
      }
    }
  }

  lemma {:induction false} SortKeepsApart(cs: seq<Combatant>)
    requires UniqueCombatants(cs)
    ensures UniqueCombatants(SortBy(cs, ActsBefore))
  {
    if cs != [] {
      SortKeepsApart(cs[1..]);
      forall y <- SortBy(cs[1..], ActsBefore) ensures y.id != cs[0].id {
        SortByMembers(cs[1..], ActsBefore, y);
        var k :| 1 <= k < |cs| && cs[k] == y;
      }
      InsertKeepsApart(cs[0], SortBy(cs[1..], ActsBefore));
    }
  }

  lemma ActsBeforeOrders()
    ensures Total(ActsBefore) && Transitive(ActsBefore)
  {
    forall x, y ensures ActsBefore(x, y) || ActsBefore(y, x) { LeqTotal(x.id, y.id); }
    forall x, y, z | ActsBefore(x, y) && ActsBefore(y, z) ensures ActsBefore(x, z) {
      if x.initiative == y.initiative == z.initiative { LeqTransitive(x.id, y.id, z.id); }
    }
  }

  lemma ApartHasNoTies(cs: seq<Combatant>)
    requires UniqueCombatants(cs)
    ensures NoTies(cs, ActsBefore)
  {
    forall x <- cs, y <- cs | ActsBefore(x, y) && ActsBefore(y, x) ensures x == y {
      LeqTotal(x.id, y.id);
      var i :| 0 <= i < |cs| && cs[i] == x;
      var j :| 0 <= j < |cs| && cs[j] == y;
      assert i == j;
    }
  }

  /** Combatants that are the same but for their order sort alike. */
  lemma SortedAlike(a: seq<Combatant>, b: seq<Combatant>)
    requires UniqueCombatants(a) && multiset(a) == multiset(b) && SortedBy(b, ActsBefore)
    ensures b == SortBy(a, ActsBefore)
  {
    ActsBeforeOrders();
    SortBySorts(a, ActsBefore);
    SortKeepsApart(a);
    ApartHasNoTies(SortBy(a, ActsBefore));
    SortedByUnique(SortBy(a, ActsBefore), b, ActsBefore);
  }

  // ----- Restoring a list -----

  lemma {:induction false} MapKeepsMultiset(a: seq<Combatant>, b: seq<Combatant>, f: Combatant -> Combatant)
    requires multiset(a) == multiset(b)
    ensures multiset(Map(a, f)) == multiset(Map(b, f))
  {
    assert |a| == |multiset(a)| == |multiset(b)| == |b|;
    if a != [] {
      assert a[0] in multiset(b);
      var k :| 0 <= k < |b| && b[k] == a[0];
      WithoutFirst(a);
      WithoutAt(b, k);
      MapKeepsMultiset(a[1..], b[..k] + b[k + 1..], f);
      MapSplit(a, 0, f);
      assert a[..0] + a[1..] == a[1..];
      MapSplit(b, k, f);
    }
  }

  lemma WithoutAt(b: seq<Combatant>, k: nat)
    requires k < |b|
    ensures multiset(b[..k] + b[k + 1..]) == multiset(b) - multiset([b[k]])
  {
    assert b == b[..k] + ([b[k]] + b[k + 1..]);
  }

  lemma MapSplit(b: seq<Combatant>, k: nat, f: Combatant -> Combatant)
    requires k < |b|
    ensures multiset(Map(b, f)) == multiset([f(b[k])]) + multiset(Map(b[..k] + b[k + 1..], f))
  {
    var x, y := Map(b[..k], f), Map(b[k + 1..], f);
    assert Map(b, f) == x + [f(b[k])] + y;
    assert Map(b[..k] + b[k + 1..], f) == x + y;
  }

  lemma UpdateIsSetTurn(cs: seq<Combatant>, t: TurnShape)
    requires UniqueCombatants(cs) && CombatantIndex(cs, t.combatantId).Some?
    ensures var i := CombatantIndex(cs, t.combatantId).value;
      cs[i := cs[i].(initiative := t.initiative)] == Map(cs, SetTurn(t))
  {
    var i := CombatantIndex(cs, t.combatantId).value;
    forall j | 0 <= j < |cs| ensures cs[i := cs[i].(initiative := t.initiative)][j] == SetTurn(t)(cs[j]) {
      assert j != i ==> cs[j].id != cs[i].id;
    }
  }

  predicate HasCombatant(cs: seq<Combatant>, id: Id) { exists x <- cs :: x.id == id }

  ghost predicate HasIds(cs: seq<Combatant>, turns: seq<TurnShape>) {
    forall t <- turns :: HasCombatant(cs, t.combatantId)
  }

  /** The list holds the combatants with their restored initiative, in place if the order is
      manual and sorted if it is not. */
  ghost predicate Restored(cs: seq<Combatant>, turns: seq<TurnShape>, manual: bool, r: seq<Combatant>) {
    && UniqueCombatants(r) && multiset(r) == multiset(SetAll(turns, cs))
    && (manual ==> r == SetAll(turns, cs))
    && (!manual && turns != [] ==> SortedBy(r, ActsBefore))
  }

  lemma MapKeepsApart(cs: seq<Combatant>, t: TurnShape)
    requires UniqueCombatants(cs)
    ensures UniqueCombatants(Map(cs, SetTurn(t)))
  {
    var r := Map(cs, SetTurn(t));
    forall i, j | 0 <= i < j < |r| ensures r[i].id != r[j].id { assert cs[i].id != cs[j].id; }
  }

  lemma RestoreOne(cs: seq<Combatant>, turns: seq<TurnShape>, manual: bool, mid: seq<Combatant>)
    requires turns != [] && Restored(cs, turns[..|turns| - 1], manual, mid)
    requires CombatantIndex(mid, turns[|turns| - 1].combatantId).Some?
    ensures Restored(cs, turns, manual, RestoreLast(mid, turns[|turns| - 1], manual))
  {
    var first, t := turns[..|turns| - 1], turns[|turns| - 1];
    UpdateIsSetTurn(mid, t);
    MapKeepsApart(mid, t);
    MapKeepsMultiset(mid, SetAll(first, cs), SetTurn(t));
    assert Map(SetAll(first, cs), SetTurn(t)) == SetAll(turns, cs);
    ActsBeforeOrders();
    SortKeepsApart(Map(mid, SetTurn(t)));
    SortBySorts(Map(mid, SetTurn(t)), ActsBefore);
  }

  lemma {:induction false} SetTurnsKeepsId(turns: seq<TurnShape>, x: Combatant)
    ensures SetTurns(turns, x).id == x.id
  {
    if turns != [] { SetTurnsKeepsId(turns[..|turns| - 1], x); }
  }

  lemma StillThere(cs: seq<Combatant>, turns: seq<TurnShape>, r: seq<Combatant>, id: Id)
    requires multiset(r) == multiset(SetAll(turns, cs)) && HasCombatant(cs, id)
    ensures CombatantIndex(r, id).Some?
  {
    var j :| 0 <= j < |cs| && cs[j].id == id;
    var y := SetAll(turns, cs)[j];
    SetTurnsKeepsId(turns, cs[j]);
    assert y in multiset(r) && y.id == id;
  }

  lemma RestoreStep(cs: seq<Combatant>, turns: seq<TurnShape>, manual: bool, mid: seq<Combatant>)
    requires turns != [] && HasIds(cs, turns) && Restored(cs, turns[..|turns| - 1], manual, mid)
    requires RestoreList(cs, turns[..|turns| - 1], manual) == Some(mid)
    ensures RestoreList(cs, turns, manual).Some? && Restored(cs, turns, manual, RestoreList(cs, turns, manual).value)
  {
    LastIsThere(cs, turns, mid);
    RestoreOne(cs, turns, manual, mid);
    RestoreListLast(cs, turns, manual, mid);
  }

  function RestoreLast(mid: seq<Combatant>, t: TurnShape, manual: bool): seq<Combatant>
    requires CombatantIndex(mid, t.combatantId).Some?
  {
    var i := CombatantIndex(mid, t.combatantId).value;
    TurnOrder(mid[i := mid[i].(initiative := t.initiative)], manual)
  }

  lemma RestoreListLast(cs: seq<Combatant>, turns: seq<TurnShape>, manual: bool, mid: seq<Combatant>)
    requires turns != [] && RestoreList(cs, turns[..|turns| - 1], manual) == Some(mid)
    requires CombatantIndex(mid, turns[|turns| - 1].combatantId).Some?
    ensures RestoreList(cs, turns, manual) == Some(RestoreLast(mid, turns[|turns| - 1], manual))
  {}

  lemma LastIsThere(cs: seq<Combatant>, turns: seq<TurnShape>, mid: seq<Combatant>)
    requires turns != [] && HasIds(cs, turns) && multiset(mid) == multiset(SetAll(turns[..|turns| - 1], cs))
    ensures CombatantIndex(mid, turns[|turns| - 1].combatantId).Some?
  {
    assert turns[|turns| - 1] in turns;
    StillThere(cs, turns[..|turns| - 1], mid, turns[|turns| - 1].combatantId);
  }

  lemma HasIdsPrefix(cs: seq<Combatant>, turns: seq<TurnShape>)
    requires turns != [] && HasIds(cs, turns)
    ensures HasIds(cs, turns[..|turns| - 1])
  {
    forall t <- turns[..|turns| - 1] ensures HasCombatant(cs, t.combatantId) { assert t in turns; }
  }

  lemma {:induction false} RestoreListRestores(cs: seq<Combatant>, turns: seq<TurnShape>, manual: bool)
    requires UniqueCombatants(cs) && HasIds(cs, turns)
    ensures RestoreList(cs, turns, manual).Some? && Restored(cs, turns, manual, RestoreList(cs, turns, manual).value)
  {
    if turns == [] {
      assert SetAll(turns, cs) == cs;
    } else {
      HasIdsPrefix(cs, turns);
      RestoreListRestores(cs, turns[..|turns| - 1], manual);
      RestoreStep(cs, turns, manual, RestoreList(cs, turns[..|turns| - 1], manual).value);
    }
  }

  // ----- Shifting and restoring -----

  /** Only the actor's combatants differ, and only in their initiative. */
  ghost predicate Shifted(cs: seq<Combatant>, r: seq<Combatant>, actorId: Id) {
    |r| == |cs| && forall j :: 0 <= j < |cs| ==>
      r[j].(initiative := 0) == cs[j].(initiative := 0) && (r[j] == cs[j] || cs[j].actorId == Some(actorId))
  }

  lemma {:induction false} ShiftTurnsShifts(cs: seq<Combatant>, actorId: Id, init: Initiative, n: nat)
    requires n <= |cs| && ShiftTurns(cs, actorId, init, n).Some?
    ensures Shifted(cs, ShiftTurns(cs, actorId, init, n).value, actorId)
  {
    if n > 0 { ShiftTurnsShifts(cs, actorId, init, n - 1); }
  }

  lemma {:induction false} SetTurnsTo(turns: seq<TurnShape>, x: Combatant, v: int)
    requires forall t <- turns :: t.combatantId == x.id ==> t.initiative == v
    ensures SetTurns(turns, x) == if exists t <- turns :: t.combatantId == x.id then x.(initiative := v) else x
  {
    if turns != [] {
      var first := turns[..|turns| - 1];
      assert turns == first + [turns[|turns| - 1]];
      SetTurnsTo(first, x, v);
    }
  }

  lemma TurnsAre(combatId: Id, cs: seq<Combatant>, actorId: Id, j: nat)
    requires UniqueCombatants(cs) && j < |cs|
    ensures forall t <- TurnsOf(combatId, cs, actorId) :: t.combatantId == cs[j].id ==> t.initiative == cs[j].initiative
    ensures (exists t <- TurnsOf(combatId, cs, actorId) :: t.combatantId == cs[j].id)
      <==> cs[j].actorId == Some(actorId)
  {
    var held, turns := Filter(cs, OfActor(actorId)), TurnsOf(combatId, cs, actorId);
    forall k | 0 <= k < |turns| && turns[k].combatantId == cs[j].id
      ensures held[k] == cs[j] && cs[j].actorId == Some(actorId) {
      assert held[k] in held && held[k] in cs && OfActor(actorId)(held[k]);
      var m :| 0 <= m < |cs| && cs[m] == held[k];
      assert m == j;
    }
    if cs[j].actorId == Some(actorId) {
      assert OfActor(actorId)(cs[j]) && cs[j] in cs && cs[j] in held;
      var k :| 0 <= k < |held| && held[k] == cs[j];
      assert turns[k] in turns;
    }
  }

  /** Setting the remembered initiatives undoes the shift. */
  lemma SetAllUndoesShift(combatId: Id, cs: seq<Combatant>, r: seq<Combatant>, actorId: Id)
    requires UniqueCombatants(cs) && Shifted(cs, r, actorId)
    ensures SetAll(TurnsOf(combatId, cs, actorId), r) == cs
  {
    var turns := TurnsOf(combatId, cs, actorId);
    forall j | 0 <= j < |cs| ensures SetTurns(turns, r[j]) == cs[j] {
      assert r[j].(initiative := 0).id == cs[j].(initiative := 0).id;
      assert r[j].id == cs[j].id;
      TurnsAre(combatId, cs, actorId, j);
      SetTurnsTo(turns, r[j], cs[j].initiative);
      assert r[j].(initiative := 0).(initiative := cs[j].initiative) == cs[j];
    }
  }

  lemma ShiftedApart(cs: seq<Combatant>, r: seq<Combatant>, actorId: Id)
    requires UniqueCombatants(cs) && Shifted(cs, r, actorId)
    ensures UniqueCombatants(r)
  {
    forall i, j | 0 <= i < j < |r| ensures r[i].id != r[j].id {
      assert cs[i].id != cs[j].id;
      assert r[i].(initiative := 0).id == r[i].id && r[j].(initiative := 0).id == r[j].id;
    }
  }

  lemma SetAllMultiset(turns: seq<TurnShape>, a: seq<Combatant>, b: seq<Combatant>)
    requires multiset(a) == multiset(b)
    ensures multiset(SetAll(turns, a)) == multiset(SetAll(turns, b))
  {
    var f: Combatant -> Combatant := x => SetTurns(turns, x);
    MapKeepsMultiset(a, b, f);
    assert Map(a, f) == SetAll(turns, a) && Map(b, f) == SetAll(turns, b);
  }

  lemma TurnsThere(combatId: Id, cs: seq<Combatant>, r: seq<Combatant>, actorId: Id)
    requires Shifted(cs, r, actorId)
    ensures HasIds(r, TurnsOf(combatId, cs, actorId))
  {
    var held, turns := Filter(cs, OfActor(actorId)), TurnsOf(combatId, cs, actorId);
    forall k | 0 <= k < |turns| ensures HasCombatant(r, turns[k].combatantId) {
      assert held[k] in held && held[k] in cs;
      var m :| 0 <= m < |cs| && cs[m] == held[k];
      assert r[m].(initiative := 0).id == cs[m].(initiative := 0).id;
      assert r[m] in r && r[m].id == turns[k].combatantId;
    }
  }

  /** The shifted and ordered list, restored, is the original one, in place if the order is
      manual and sorted if it is not. */
  lemma ShiftThenRestore(combatId: Id, cs: seq<Combatant>, shifted: seq<Combatant>, actorId: Id, manual: bool)
    requires UniqueCombatants(cs) && Shifted(cs, shifted, actorId) && TurnsOf(combatId, cs, actorId) != []
    ensures RestoreList(TurnOrder(shifted, manual), TurnsOf(combatId, cs, actorId), manual)
      == Some(TurnOrder(cs, manual))
  {
    var turns, ordered := TurnsOf(combatId, cs, actorId), TurnOrder(shifted, manual);
    ShiftedApart(cs, shifted, actorId);
    if !manual { SortKeepsApart(shifted); }
    TurnsThere(combatId, cs, shifted, actorId);
    forall t <- turns ensures HasCombatant(ordered, t.combatantId) {
      assert HasCombatant(shifted, t.combatantId);
      var x :| x in shifted && x.id == t.combatantId;
      if !manual { SortByMembers(shifted, ActsBefore, x); }
    }
    RestoreListRestores(ordered, turns, manual);
    SetAllUndoesShift(combatId, cs, shifted, actorId);
    SetAllMultiset(turns, ordered, shifted);
    if !manual { SortedAlike(cs, RestoreList(ordered, turns, manual).value); }
  }
}
