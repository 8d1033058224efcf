/** The shrinking fixpoint that withdraws planned deletes whose ids are still mentioned. */
module RecoveryReferences {
  import opened Json
  import opened RecoveryState

  datatype Inverse = Delete | Restore(before: Record)

  datatype RecordStep = RecordStep(coll: Coll, id: Id, inverse: Inverse, after: Record, settledAt: Option<int>) {
    function Key(): Key { (coll, id) }
  }

  datatype Reason = RecordChanged | AssetBytesChanged | ReferenceConflict

  datatype Outcome = Apply | Satisfied | Conflict(reason: Reason)

  datatype Decision = Decision(step: RecordStep, outcome: Outcome) {
    predicate PlansDelete() { outcome.Apply? && step.inverse.Delete? }
    predicate PlansRestore() { outcome.Apply? && step.inverse.Restore? }
  }

  ghost predicate UniqueKeys(ds: seq<Decision>) {
    forall i, j {:trigger ds[i].step.Key(), ds[j].step.Key()} ::
      0 <= i < j < |ds| ==> ds[i].step.Key() != ds[j].step.Key()
  }

  /** What planning guarantees of every step it decides to apply: its record is there. */
  ghost predicate Applicable(s: State, ds: seq<Decision>) {
    forall i {:trigger AppliesTo(s, ds[i])} :: 0 <= i < |ds| && ds[i].outcome.Apply? ==> AppliesTo(s, ds[i])
  }

  ghost predicate AppliesTo(s: State, d: Decision) {
    && d.step.coll in s
    && IndexOf(s[d.step.coll], d.step.id) < |s[d.step.coll]|
    && (d.step.inverse.Restore? ==> d.step.inverse.before.id == d.step.id)
  }

  // ----- Applying decisions one after the other, and all at once -----

  function StepState(s: State, d: Decision, active: set<Key>): State {
    var c := d.step.coll;
    if !d.outcome.Apply? then s
    else match d.step.inverse
      case Delete => if d.step.Key() in active then s[c := ApplyOne(Records(s, c), d.step.id, None)] else s
      case Restore(before) => s[c := ApplyOne(Records(s, c), d.step.id, Some(before))]
  }

  function WithDecisions(s: State, ds: seq<Decision>, active: set<Key>): State {
    if ds == [] then s else StepState(WithDecisions(s, ds[..|ds| - 1], active), ds[|ds| - 1], active)
  }

  function EffectOf(d: Decision, active: set<Key>): Effect {
    if d.PlansRestore() then map[d.step.Key() := Some(d.step.inverse.before)]
    else if d.PlansDelete() && d.step.Key() in active then map[d.step.Key() := None]
    else map[]
  }

  function Effects(ds: seq<Decision>, active: set<Key>): Effect {
    if ds == [] then map[] else Effects(ds[..|ds| - 1], active) + EffectOf(ds[|ds| - 1], active)
  }

  lemma {:induction false} EffectsOnly(ds: seq<Decision>, active: set<Key>, k: Key)
    requires k in Effects(ds, active)
    ensures exists i :: 0 <= i < |ds| && ds[i].step.Key() == k && k in EffectOf(ds[i], active)
  {
    var p, d := ds[..|ds| - 1], ds[|ds| - 1];
    if k in EffectOf(d, active) {
      assert ds[|ds| - 1].step.Key() == k;
    } else {
      assert k in Effects(p, active);
      EffectsOnly(p, active, k);
      var i :| 0 <= i < |p| && p[i].step.Key() == k && k in EffectOf(p[i], active);
      assert ds[i] == p[i];
    }
  }

  lemma {:induction false} EffectsAt(ds: seq<Decision>, active: set<Key>, i: nat)
    requires UniqueKeys(ds) && i < |ds|
    ensures ds[i].step.Key() in Effects(ds, active) <==> EffectOf(ds[i], active) != map[]
    ensures EffectOf(ds[i], active) != map[] ==>
      Effects(ds, active)[ds[i].step.Key()] == EffectOf(ds[i], active)[ds[i].step.Key()]
  {
    var p, d, k := ds[..|ds| - 1], ds[|ds| - 1], ds[i].step.Key();
    if i < |ds| - 1 {
      assert p[i] == ds[i];
      assert UniqueKeys(p);
      EffectsAt(p, active, i);
      assert k !in EffectOf(d, active);
    } else {
      LastIsNew(ds, active);
    }
  }

  lemma LastIsNew(ds: seq<Decision>, active: set<Key>)
    requires UniqueKeys(ds) && ds != []
    ensures ds[|ds| - 1].step.Key() !in Effects(ds[..|ds| - 1], active)
  {
    var p, k := ds[..|ds| - 1], ds[|ds| - 1].step.Key();
    assert forall i :: 0 <= i < |p| ==> p[i] == ds[i];
    if k in Effects(p, active) {
      EffectsOnly(p, active, k);
      assert false;
    }
  }

  /** The decision an effect comes from. */
  lemma EffectFrom(ds: seq<Decision>, active: set<Key>, k: Key) returns (d: Decision)
    requires UniqueKeys(ds) && k in Effects(ds, active)
    ensures d in ds && d.step.Key() == k && k in EffectOf(d, active) && Effects(ds, active)[k] == EffectOf(d, active)[k]
  {
    EffectsOnly(ds, active, k);
    var i :| 0 <= i < |ds| && ds[i].step.Key() == k && k in EffectOf(ds[i], active);
    EffectsAt(ds, active, i);
    d := ds[i];
  }

  /** The loop that splices, overwrites and pushes one step at a time has exactly the
      effect of all its steps at once, in whatever order they come. */
  lemma {:induction false} SequentialIsSimultaneous(s: State, ds: seq<Decision>, active: set<Key>)
    requires WellFormed(s) && UniqueKeys(ds) && Applicable(s, ds)
    ensures EffectKeepsIds(Effects(ds, active))
    ensures WithDecisions(s, ds, active) == RewriteState(s, Effects(ds, active))
  {
    if ds == [] {
      forall c | c in s ensures Rewrite(s[c], c, map[]) == s[c] { RewriteNone(s[c], c, map[]); }
    } else {
      var p, d := ds[..|ds| - 1], ds[|ds| - 1];
      PrefixApplicable(s, ds);
      SequentialIsSimultaneous(s, p, active);
      var e, f := Effects(p, active), EffectOf(d, active);
      if f == map[] {
        assert e + f == e;
      } else {
        LastIsNew(ds, active);
        assert AppliesTo(s, ds[|ds| - 1]);
        StepIsRewrite(s, d, active, e);
      }
    }
  }

  lemma PrefixApplicable(s: State, ds: seq<Decision>)
    requires UniqueKeys(ds) && Applicable(s, ds) && ds != []
    ensures UniqueKeys(ds[..|ds| - 1]) && Applicable(s, ds[..|ds| - 1])
  {
    var p := ds[..|ds| - 1];
    forall i | 0 <= i < |p| && p[i].outcome.Apply? ensures AppliesTo(s, p[i]) { assert AppliesTo(s, ds[i]); }
    forall i, j | 0 <= i < j < |p| ensures p[i].step.Key() != p[j].step.Key() {
      assert ds[i].step.Key() != ds[j].step.Key();
    }
  }

  /** A step changes its own collection only. */
  lemma StepOneCollection(s: State, d: Decision, active: set<Key>, inverse: Option<Record>)
    requires EffectOf(d, active) == map[d.step.Key() := inverse]
    ensures StepState(s, d, active) == s[d.step.coll := ApplyOne(Records(s, d.step.coll), d.step.id, inverse)]
  {
    assert d.step.Key() in EffectOf(d, active);
    assert EffectOf(d, active)[d.step.Key()] == inverse;
  }

  /** Rewriting one collection further is rewriting the state further. */
  lemma RewriteOneCollection(s: State, c: Coll, e: Effect, k: Key, inverse: Option<Record>)
    requires c in s && k.0 == c
    ensures RewriteState(s, e)[c := Rewrite(s[c], c, e + map[k := inverse])] == RewriteState(s, e + map[k := inverse])
  {
    forall c' | c' in s && c' != c ensures Rewrite(s[c'], c', e + map[k := inverse]) == Rewrite(s[c'], c', e) {
      RewriteElsewhere(s[c'], c', e, k, inverse);
    }
  }

  lemma StepIsRewrite(s: State, d: Decision, active: set<Key>, e: Effect)
    requires WellFormed(s) && AppliesTo(s, d) && EffectKeepsIds(e)
    requires EffectOf(d, active) != map[] && d.step.Key() !in e
    ensures StepState(RewriteState(s, e), d, active) == RewriteState(s, e + EffectOf(d, active))
  {
    var c, id := d.step.coll, d.step.id;
    var inverse := if d.PlansRestore() then Some(d.step.inverse.before) else None;
    assert EffectOf(d, active) == map[d.step.Key() := inverse];
    StepOneCollection(RewriteState(s, e), d, active, inverse);
    RewriteOneMore(s[c], c, e, id, inverse);
    RewriteOneCollection(s, c, e, d.step.Key(), inverse);
  }

  // ----- Consistent sets of deletes -----

  function PlannedDeletes(ds: seq<Decision>): set<Key> {
    set i | 0 <= i < |ds| && ds[i].PlansDelete() :: ds[i].step.Key()
  }

  /** After these deletes and all restores, nothing outside the operational collections
      mentions a deleted id. */
  ghost predicate Consistent(s: State, ds: seq<Decision>, deletes: set<Key>) {
    forall k :: k in deletes ==> !StateMentions(WithDecisions(s, ds, deletes), k.1)
  }

  /** The union of all consistent subsets of the planned deletes. */
  ghost function Survivors(s: State, ds: seq<Decision>): set<Key> {
    set k | k in PlannedDeletes(ds) &&
      exists e: set<Key> :: e <= PlannedDeletes(ds) && Consistent(s, ds, e) && k in e
  }

  /** Deleting less leaves more records, hence more mentions. */
  lemma FewerDeletesMentionMore(s: State, ds: seq<Decision>, small: set<Key>, large: set<Key>, id: Id)
    requires WellFormed(s) && UniqueKeys(ds) && Applicable(s, ds)
    requires small <= large
    ensures StateMentions(WithDecisions(s, ds, large), id) ==> StateMentions(WithDecisions(s, ds, small), id)
  {
    SequentialIsSimultaneous(s, ds, small);
    SequentialIsSimultaneous(s, ds, large);
    EffectsGrow(ds, small, large);
    if StateMentions(WithDecisions(s, ds, large), id) {
      var e, f := Effects(ds, small), Effects(ds, large);
      var c :| c in s && c !in OPERATIONAL && RecordsMention(RewriteState(s, f)[c], id);
      MentionCarries(s[c], c, e, f, id);
      assert RecordsMention(RewriteState(s, e)[c], id);
    }
  }

  lemma MentionCarries(rs: seq<Record>, c: Coll, e: Effect, f: Effect, id: Id)
    requires forall k :: k in e ==> k in f && e[k] == f[k]
    requires forall k :: k in f && k !in e ==> f[k].None?
    requires RecordsMention(Rewrite(rs, c, f), id)
    ensures RecordsMention(Rewrite(rs, c, e), id)
  {
    var a, b := Rewrite(rs, c, f), Rewrite(rs, c, e);
    var i :| 0 <= i < |a| && FieldsMention(a[i].fields, id);
    RewriteWider(rs, c, e, f, a[i]);
    var j :| 0 <= j < |b| && b[j] == a[i];
  }

  lemma {:induction false} EffectsGrow(ds: seq<Decision>, small: set<Key>, large: set<Key>)
    requires UniqueKeys(ds) && small <= large
    ensures forall k :: k in Effects(ds, small) ==>
      k in Effects(ds, large) && Effects(ds, small)[k] == Effects(ds, large)[k]
    ensures forall k :: k in Effects(ds, large) && k !in Effects(ds, small) ==> Effects(ds, large)[k].None?
  {
    forall k | k in Effects(ds, small)
      ensures k in Effects(ds, large) && Effects(ds, small)[k] == Effects(ds, large)[k]
    {
      EffectsOnly(ds, small, k);
      var i :| 0 <= i < |ds| && ds[i].step.Key() == k && k in EffectOf(ds[i], small);
      EffectsAt(ds, small, i);
      EffectsAt(ds, large, i);
    }
    forall k | k in Effects(ds, large) && k !in Effects(ds, small)
      ensures Effects(ds, large)[k].None?
    {
      EffectsOnly(ds, large, k);
      var i :| 0 <= i < |ds| && ds[i].step.Key() == k && k in EffectOf(ds[i], large);
      EffectsAt(ds, small, i);
      EffectsAt(ds, large, i);
    }
  }

  /** The survivors are consistent, and every consistent set of planned deletes is among them. */
  lemma SurvivorsGreatest(s: State, ds: seq<Decision>)
    requires WellFormed(s) && UniqueKeys(ds) && Applicable(s, ds)
    ensures Survivors(s, ds) <= PlannedDeletes(ds)
    ensures Consistent(s, ds, Survivors(s, ds))
    ensures forall e :: e <= PlannedDeletes(ds) && Consistent(s, ds, e) ==> e <= Survivors(s, ds)
  {
    var all := Survivors(s, ds);
    forall k | k in all ensures !StateMentions(WithDecisions(s, ds, all), k.1) {
      var e: set<Key> :| e <= PlannedDeletes(ds) && Consistent(s, ds, e) && k in e;
      assert e <= all;
      FewerDeletesMentionMore(s, ds, e, all, k.1);
    }
  }

  lemma GreatestIsSurvivors(s: State, ds: seq<Decision>, keys: set<Key>)
    requires WellFormed(s) && UniqueKeys(ds) && Applicable(s, ds)
    requires keys <= PlannedDeletes(ds) && Consistent(s, ds, keys) && CoversConsistent(s, ds, keys)
    ensures keys == Survivors(s, ds)
  {
    SurvivorsGreatest(s, ds);
  }

  ghost predicate CoversConsistent(s: State, ds: seq<Decision>, keys: set<Key>) {
    forall e {:trigger Consistent(s, ds, e)} :: e <= PlannedDeletes(ds) && Consistent(s, ds, e) ==> e <= keys
  }

  // ----- The loop -----

  /** Planned deletes outside `keep` turn into reference conflicts; nothing else changes. */
  function Mark(ds: seq<Decision>, keep: set<Key>): (r: seq<Decision>)
    ensures |r| == |ds|
  {
    seq(|ds|, i requires 0 <= i < |ds| =>
      if ds[i].PlansDelete() && ds[i].step.Key() !in keep then ds[i].(outcome := Conflict(ReferenceConflict))
      else ds[i])
  }

  lemma {:induction false} MarkedStateSame(s: State, ds: seq<Decision>, keep: set<Key>)
    ensures WithDecisions(s, Mark(ds, keep), keep) == WithDecisions(s, ds, keep)
  {
    if ds != [] {
      MarkedStateSame(s, ds[..|ds| - 1], keep);
      assert Mark(ds, keep)[..|ds| - 1] == Mark(ds[..|ds| - 1], keep);
    }
  }

  method StateWithRecordDecisions(s: State, ds: seq<Decision>, active: map<Key, nat>) returns (candidate: State)
    ensures candidate == WithDecisions(s, ds, active.Keys)
  {
    candidate := s;
    for n := 0 to |ds|
      invariant candidate == WithDecisions(s, ds[..n], active.Keys)
    {
      assert ds[..n + 1][..n] == ds[..n];
      var d := ds[n];
      if !d.outcome.Apply? { continue; }
      var collection := Records(candidate, d.step.coll);
      var index := IndexOf(collection, d.step.id);
      match d.step.inverse {
        case Delete =>
          if d.step.Key() in active {
            if index < |collection| { collection := collection[..index] + collection[index + 1..]; }
            candidate := candidate[d.step.coll := collection];
          }
        case Restore(before) =>
          collection := if index < |collection| then collection[index := before] else collection + [before];
          candidate := candidate[d.step.coll := collection];
      }
    }
    assert ds[..|ds|] == ds;
  }

  /** `active` points each still active delete at its decision. */
  ghost predicate Points(ds: seq<Decision>, active: map<Key, nat>) {
    forall k {:trigger active[k]} :: k in active
      ==> active[k] < |ds| && ds[active[k]].PlansDelete() && ds[active[k]].step.Key() == k
  }

  method ActiveDeletes(ds: seq<Decision>) returns (active: map<Key, nat>)
    ensures active.Keys == PlannedDeletes(ds) && Points(ds, active)
  {
    active := map[];
    for n := 0 to |ds|
      invariant active.Keys == PlannedDeletes(ds[..n]) && Points(ds, active)
    {
      PlannedDeletesStep(ds, n);
      ghost var was := active.Keys;
      if ds[n].PlansDelete() {
        active := active[ds[n].step.Key() := n];
        assert active.Keys == was + {ds[n].step.Key()};
      }
    }
    assert ds[..|ds|] == ds;
  }

  /** What every round keeps: the marked decisions are those of the active deletes, and no
      consistent set has lost a member. */
  ghost predicate Progress(s: State, ds: seq<Decision>, active: map<Key, nat>, marked: seq<Decision>) {
    && active.Keys <= PlannedDeletes(ds)
    && Points(ds, active)
    && marked == Mark(ds, active.Keys)
    && CoversConsistent(s, ds, active.Keys)
  }

  ghost predicate Unmentioned(candidate: State, keys: set<Key>) {
    forall k :: k in keys ==> !StateMentions(candidate, k.1)
  }

  /** Withdraws deletes round by round until none of the rest is mentioned: what is left
      is the greatest consistent set of the planned deletes. A round may visit the active
      deletes in any order. */
  method AddReferenceConflicts(s: State, ds: seq<Decision>) returns (marked: seq<Decision>)
    requires WellFormed(s) && UniqueKeys(ds) && Applicable(s, ds)
    ensures marked == Mark(ds, Survivors(s, ds))
  {
    marked := ds;
    var active := ActiveDeletes(ds);
    MarkAll(ds);
    var changed := true;
    while changed
      invariant Progress(s, ds, active, marked)
      invariant !changed ==> Consistent(s, ds, active.Keys)
      decreases |active|, changed
    {
      active, marked, changed := WithdrawMentioned(s, ds, active, marked);
    }
    GreatestIsSurvivors(s, ds, active.Keys);
  }

  method WithdrawMentioned(s: State, ghost ds: seq<Decision>, start: map<Key, nat>, before: seq<Decision>)
    returns (active: map<Key, nat>, marked: seq<Decision>, changed: bool)
    requires WellFormed(s) && UniqueKeys(ds) && Applicable(s, ds)
    requires Progress(s, ds, start, before)
    ensures Progress(s, ds, active, marked)
    ensures if changed then |active| < |start| else active == start && Consistent(s, ds, start.Keys)
  {
    active, marked, changed := start, before, false;
    var candidate := StateWithRecordDecisions(s, before, start);
    MarkedStateSame(s, ds, start.Keys);
    var todo := start.Keys;
    while todo != {}
      invariant Progress(s, ds, active, marked)
      invariant Visiting(candidate, start, active, todo, changed)
      decreases todo
    {
      var key :| key in todo;
      if StateMentions(candidate, key.1) {
        active, marked := Withdraw(s, ds, start.Keys, active, marked, key);
        changed := true;
      } else {
        VisitedUnmentioned(candidate, start, active, todo, changed, key);
      }
      todo := todo - {key};
    }
  }

  /** What holds while a round visits the active deletes: until one is withdrawn, those visited
      are not mentioned. */
  ghost predicate Visiting(candidate: State, start: map<Key, nat>, active: map<Key, nat>, todo: set<Key>, changed: bool)
  {
    && todo <= active.Keys <= start.Keys
    && if changed then |active| < |start| else active == start && Unmentioned(candidate, start.Keys - todo)
  }

  lemma VisitedUnmentioned(candidate: State, start: map<Key, nat>, active: map<Key, nat>, todo: set<Key>, changed: bool,
    key: Key)
    requires Visiting(candidate, start, active, todo, changed) && key in todo && !StateMentions(candidate, key.1)
    ensures Visiting(candidate, start, active, todo - {key}, changed)
  {}

  function Without(active: map<Key, nat>, key: Key): (r: map<Key, nat>)
    requires key in active
    ensures r.Keys == active.Keys - {key} && |r| == |active| - 1
    ensures forall k :: k in r ==> r[k] == active[k]
  {
    var r := active - {key};
    assert r.Keys == active.Keys - {key};
    assert |r.Keys| == |active.Keys| - 1;
    r
  }

  /** A mentioned delete belongs to no consistent set, so withdrawing it loses none. */
  method Withdraw(s: State, ghost ds: seq<Decision>, ghost start: set<Key>, active: map<Key, nat>,
    marked: seq<Decision>, key: Key)
    returns (less: map<Key, nat>, now: seq<Decision>)
    requires WellFormed(s) && UniqueKeys(ds) && Applicable(s, ds)
    requires Progress(s, ds, active, marked) && active.Keys <= start && key in active
    requires StateMentions(WithDecisions(s, ds, start), key.1)
    ensures less == Without(active, key) && Progress(s, ds, less, now)
  {
    less := Without(active, key);
    forall e | e <= PlannedDeletes(ds) && Consistent(s, ds, e) ensures e <= less.Keys {
      FewerDeletesMentionMore(s, ds, e, start, key.1);
    }
    MarkOneMore(ds, active.Keys, active[key]);
    now := marked[active[key] := marked[active[key]].(outcome := Conflict(ReferenceConflict))];
  }

  lemma PlannedDeletesStep(ds: seq<Decision>, n: nat)
    requires n < |ds|
    ensures PlannedDeletes(ds[..n + 1]) == PlannedDeletes(ds[..n]) + if ds[n].PlansDelete() then {ds[n].step.Key()}
      else {}
  {
    var a, b := ds[..n + 1], ds[..n];
    assert forall i :: 0 <= i < n ==> a[i] == b[i];
    assert a[n] == ds[n];
    forall k | k in PlannedDeletes(b) ensures k in PlannedDeletes(a) {
      var i :| 0 <= i < |b| && b[i].PlansDelete() && b[i].step.Key() == k;
      assert a[i].PlansDelete();
    }
  }

  lemma MarkAll(ds: seq<Decision>)
    ensures Mark(ds, PlannedDeletes(ds)) == ds
  {
  }

  lemma MarkOneMore(ds: seq<Decision>, keep: set<Key>, n: nat)
    requires UniqueKeys(ds) && n < |ds| && ds[n].PlansDelete()
    ensures Mark(ds, keep - {ds[n].step.Key()}) == Mark(ds, keep)[n := ds[n].(outcome := Conflict(ReferenceConflict))]
  {
  }
}
