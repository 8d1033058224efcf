/** Restoring archived asset files into an object store under a compensating journal. */
module AssetRestore {
  import opened Json

  type Bytes = seq<int>

  /** Where an object lives: the key a destination has by default, or one a provider made up. */
  datatype Ref = Default(asset: string) | Chosen(n: nat)

  type Objects = map<Ref, Bytes>

  function Read(o: Objects, r: Ref): Option<Bytes> {
    if r in o then Some(o[r]) else None
  }

  /** What a put that throws may leave behind: anything at the destination, or a stray
      object under a new key. */
  ghost predicate FailedPut(before: Objects, after: Objects, target: Ref) {
    && (forall r :: r in before && r != target ==> r in after && after[r] == before[r])
    && (forall r :: r in after && r !in before ==> r == target || r.Chosen?)
  }

  /** The outcomes of a put: stored under the default key or a new one, or thrown. */
  ghost predicate PutMay(fixedKeys: bool, before: Objects, after: Objects, target: Ref, body: Bytes,
    stored: Option<Ref>)
  {
    match stored
    case Some(key) =>
      && (key == target || (!fixedKeys && key.Chosen? && key !in before))
      && after == before[key := body]
    case None => FailedPut(before, after, target)
  }

  /** A delete that throws may or may not have removed the object. */
  ghost predicate DeleteMay(before: Objects, after: Objects, r: Ref, ok: bool) {
    after == before - {r} || (!ok && after == before)
  }

  class ObjectStore {
    /** The provider always stores a destination under its default key. */
    const fixedKeys: bool
    var objects: Objects
    /** How many calls have thrown. */
    ghost var thrown: nat

    /** Reads an object; may throw. */
    method Fetch(r: Ref) returns (body: Option<Option<Bytes>>)
      modifies this`thrown
      ensures body.Some? ==> body.value == Read(objects, r)
      ensures thrown == old(thrown) + if body.None? then 1 else 0
    {
      if * {
        thrown := thrown + 1;
        return None;
      }
      body := Some(if r in objects then Some(objects[r]) else None);
    }

    /** Stores under the default key or a new one; may throw, before or after writing. */
    method Put(target: Ref, body: Bytes) returns (stored: Option<Ref>)
      requires target.Default?
      modifies this
      ensures PutMay(fixedKeys, old(objects), objects, target, body, stored)
      ensures thrown == old(thrown) + if stored.None? then 1 else 0
    {
      var key := target;
      var n: nat := *;
      if !fixedKeys && Chosen(n) !in objects { key := Chosen(n); }
      if * {
        if * { objects := objects[key := body]; } else if * { objects := objects[target := []]; }
        thrown := thrown + 1;
        return None;
      }
      objects := objects[key := body];
      stored := Some(key);
    }

    /** May throw, before or after the object is gone. */
    method Delete(r: Ref) returns (ok: bool)
      modifies this
      ensures DeleteMay(old(objects), objects, r, ok)
      ensures thrown == old(thrown) + if ok then 0 else 1
    {
      if * { objects := objects - {r}; }
      if * {
        thrown := thrown + 1;
        return false;
      }
      objects := objects - {r};
      ok := true;
    }
  }

  datatype Entry = Entry(
    target: Ref, body: Bytes, previousBodyExisted: bool, previousBody: Option<Bytes>,
    attempted: bool, written: Option<Ref>)

  /** A store and the entries of a journal over it. */
  datatype Progress = Progress(objects: Objects, entries: seq<Entry>)

  // ----- What one call may do -----

  /** One entry is written: marked as attempted whatever the put does, with the key it returned. */
  ghost predicate Written(fixedKeys: bool, s: Progress, t: Progress, n: nat, stored: Option<Ref>) {
    && n < |s.entries| && !s.entries[n].attempted
    && PutMay(fixedKeys, s.objects, t.objects, s.entries[n].target, s.entries[n].body, stored)
    && t.entries == s.entries[n := s.entries[n].(attempted := true, written := stored)]
  }

  function KeyWritten(e: Entry): Ref {
    if e.written.Some? then e.written.value else e.target
  }

  /** The second half of undoing an entry: its old bytes are put at the destination, or the
      destination is emptied; `threw` says that a put of old bytes did. */
  ghost predicate PutBack(fixedKeys: bool, before: Objects, after: Objects, e: Entry, ok: bool, threw: bool) {
    if e.previousBodyExisted && e.previousBody.Some? then
      exists stored ::
        PutMay(fixedKeys, before, after, e.target, e.previousBody.value, stored) && ok == stored.Some? && threw == !ok
    else
      !threw && if e.written.Some? then DeleteMay(before, after, e.target, ok) else ok && after == before
  }

  /** One attempted entry is undone: what it wrote is deleted, then its old bytes are put back. */
  ghost predicate Undone(fixedKeys: bool, s: Progress, t: Progress, n: nat, ok: bool, threw: bool) {
    && n < |s.entries| && s.entries[n].attempted
    && (exists between, removed, restored ::
          && DeleteMay(s.objects, between, KeyWritten(s.entries[n]), removed)
          && PutBack(fixedKeys, between, t.objects, s.entries[n], restored, threw)
          && ok == (removed && restored))
    && t.entries == if ok then s.entries[n := s.entries[n].(attempted := false, written := None, previousBody := None)]
      else s.entries
  }

  /** The attempted ones of the first n entries are undone, last first; a failure goes on. */
  ghost predicate RolledBackTo(fixedKeys: bool, s: Progress, t: Progress, n: nat, ok: bool)
    decreases n
  {
    if n == 0 then t == s && ok
    else
      var k := n - 1;
      k < |s.entries|
      && if !s.entries[k].attempted then RolledBackTo(fixedKeys, s, t, k, ok)
         else exists m, done, threw, rest ::
           Undone(fixedKeys, s, m, k, done, threw) && RolledBackTo(fixedKeys, m, t, k, rest) && ok == (done && rest)
  }

  /** The first n entries are written in order; only the last put may have thrown. */
  ghost predicate WrittenTo(fixedKeys: bool, start: Progress, t: Progress, n: nat)
    decreases n
  {
    if n == 0 then t == start
    else
      var k := n - 1;
      exists m, stored ::
        WrittenTo(fixedKeys, start, m, k) && Written(fixedKeys, m, t, k, stored) && AllWritten(m, k)
  }

  ghost predicate AllWritten(s: Progress, n: nat) {
    n <= |s.entries| && forall i :: 0 <= i < n ==> s.entries[i].written.Some?
  }

  /** So many rollbacks in a row failed part-way. */
  ghost predicate FailedRollbacks(fixedKeys: bool, s: Progress, t: Progress, tries: nat)
    decreases tries
  {
    if tries == 0 then t == s
    else
      var k := tries - 1;
      exists m :: FailedRollbacks(fixedKeys, s, m, k) && RolledBackTo(fixedKeys, m, t, |m.entries|, false)
  }

  /** Where a journal can be that is neither committed nor rolled back. */
  ghost predicate Underway(fixedKeys: bool, start: Progress, t: Progress) {
    exists m, n, tries :: WrittenTo(fixedKeys, start, m, n) && FailedRollbacks(fixedKeys, m, t, tries)
  }

  /** A whole life of a journal that ends with a rollback that returns normally. */
  ghost predicate Run(fixedKeys: bool, start: Progress, end: Progress) {
    exists m :: Underway(fixedKeys, start, m) && RolledBackTo(fixedKeys, m, end, |m.entries|, true)
  }

  /** What is left to undo from s completes a rollback that started at `start`. */
  ghost predicate Continues(fixedKeys: bool, start: Progress, s: Progress, n: nat, clean: bool) {
    forall t, rest :: RolledBackTo(fixedKeys, s, t, n, rest)
      ==> RolledBackTo(fixedKeys, start, t, |start.entries|, clean && rest)
  }

  lemma ContinuesAfter(fixedKeys: bool, start: Progress, s: Progress, m: Progress, n: nat, clean: bool, done: bool,
    threw: bool)
    requires Continues(fixedKeys, start, s, n + 1, clean) && Undone(fixedKeys, s, m, n, done, threw)
    ensures Continues(fixedKeys, start, m, n, clean && done)
  {
    forall t, rest | RolledBackTo(fixedKeys, m, t, n, rest)
      ensures RolledBackTo(fixedKeys, start, t, |start.entries|, clean && done && rest)
    {
      assert RolledBackTo(fixedKeys, s, t, n + 1, done && rest);
    }
  }

  lemma ContinuesPast(fixedKeys: bool, start: Progress, s: Progress, n: nat, clean: bool)
    requires Continues(fixedKeys, start, s, n + 1, clean) && n < |s.entries| && !s.entries[n].attempted
    ensures Continues(fixedKeys, start, s, n, clean)
  {
    forall t, rest | RolledBackTo(fixedKeys, s, t, n, rest)
      ensures RolledBackTo(fixedKeys, start, t, |start.entries|, clean && rest)
    {
      assert RolledBackTo(fixedKeys, s, t, n + 1, rest);
    }
  }

  // ----- What every call keeps -----

  /** The state of one destination. It is `exposed` once a put wrote it or may have written
      it; until then it holds what it held before. An entry that is not, or no longer,
      attempted has its destination as before, unless the destination existed, was exposed,
      and the provider may have put its old bytes under another key. */
  ghost predicate EntryOk(fixedKeys: bool, e: Entry, before: Objects, now: Objects, exposed: set<Ref>) {
    && e.target.Default?
    && e.previousBodyExisted == (e.target in before)
    && (e.written.Some? ==> e.written.value == e.target || (e.written.value.Chosen? && e.written.value !in before))
    && (e.attempted && e.previousBodyExisted ==> e.previousBody == Some(before[e.target]))
    && (!e.attempted ==> e.written.None?)
    && (!e.attempted && (fixedKeys || e.target !in before) ==> Read(now, e.target) == Read(before, e.target))
    && (e.target !in exposed ==> Read(now, e.target) == Read(before, e.target))
    && (e.target !in exposed && e.attempted ==> e.written.Some? && e.written.value.Chosen?)
  }

  ghost predicate Settled(fixedKeys: bool, es: seq<Entry>, before: Objects, now: Objects, exposed: set<Ref>) {
    forall i {:trigger es[i]} :: 0 <= i < |es| ==> EntryOk(fixedKeys, es[i], before, now, exposed)
  }

  ghost predicate Distinct(es: seq<Entry>) {
    forall i, j {:trigger es[i].target, es[j].target} :: 0 <= i < j < |es| ==> es[i].target != es[j].target
  }

  ghost predicate IsDestination(es: seq<Entry>, r: Ref) {
    exists i :: 0 <= i < |es| && es[i].target == r
  }

  /** Objects that are no destination are as before, except for strays under new keys. */
  ghost predicate OthersKept(es: seq<Entry>, before: Objects, now: Objects) {
    && (forall r :: r in before && !IsDestination(es, r) ==> r in now && now[r] == before[r])
    && (forall r :: r in now && r !in before ==> IsDestination(es, r) || r.Chosen?)
  }

  ghost predicate Sound(fixedKeys: bool, s: Progress, before: Objects, exposed: set<Ref>) {
    Distinct(s.entries) && Settled(fixedKeys, s.entries, before, s.objects, exposed)
      && OthersKept(s.entries, before, s.objects)
  }

  /** Between two states of the store only one destination and new keys differ. */
  ghost predicate TouchesOnly(a: Objects, b: Objects, before: Objects, target: Ref) {
    && (forall r :: r != target && (r.Default? || r in before) ==> Read(a, r) == Read(b, r))
    && (forall r :: r in b && r !in a ==> r == target || r.Chosen?)
  }

  lemma TouchKeeps(fixedKeys: bool, s: Progress, t: Progress, before: Objects, n: nat,
    exposed: set<Ref>, more: set<Ref>)
    requires n < |s.entries| && Sound(fixedKeys, s, before, exposed) && more <= {s.entries[n].target}
    requires |t.entries| == |s.entries| && t.entries == s.entries[n := t.entries[n]]
    requires t.entries[n].target == s.entries[n].target
      && TouchesOnly(s.objects, t.objects, before, s.entries[n].target)
    requires EntryOk(fixedKeys, t.entries[n], before, t.objects, exposed + more)
    ensures Sound(fixedKeys, t, before, exposed + more)
  {
    forall i | 0 <= i < |t.entries| ensures EntryOk(fixedKeys, t.entries[i], before, t.objects, exposed + more) {
      if i != n {
        assert EntryOk(fixedKeys, s.entries[i], before, s.objects, exposed);
        assert s.entries[i].target != s.entries[n].target;
      }
    }
    assert Distinct(t.entries) by {
      forall i, j | 0 <= i < j < |t.entries| ensures t.entries[i].target != t.entries[j].target {
        assert s.entries[i].target != s.entries[j].target;
      }
    }
    SameDestinations(s.entries, t.entries);
    assert IsDestination(s.entries, s.entries[n].target);
    forall r | r in before && !IsDestination(s.entries, r) ensures r in t.objects && t.objects[r] == before[r] {
      assert Read(s.objects, r) == Read(t.objects, r);
    }
  }

  lemma SameDestinations(es: seq<Entry>, fs: seq<Entry>)
    requires |es| == |fs| && forall i :: 0 <= i < |es| ==> es[i].target == fs[i].target
    ensures forall r :: IsDestination(es, r) <==> IsDestination(fs, r)
  {
    forall r ensures IsDestination(es, r) <==> IsDestination(fs, r) {
      if i :| 0 <= i < |es| && es[i].target == r { assert fs[i].target == r; }
      if i :| 0 <= i < |fs| && fs[i].target == r { assert es[i].target == r; }
    }
  }

  lemma ChosenKept(fixedKeys: bool, s: Progress, before: Objects, exposed: set<Ref>)
    requires Sound(fixedKeys, s, before, exposed)
    ensures forall r :: r in before && r.Chosen? ==> r in s.objects
  {
    forall i | 0 <= i < |s.entries| ensures s.entries[i].target.Default? {
      assert EntryOk(fixedKeys, s.entries[i], before, s.objects, exposed);
    }
  }

  lemma PutTouches(fixedKeys: bool, before: Objects, a: Objects, b: Objects, target: Ref, body: Bytes,
    stored: Option<Ref>)
    requires PutMay(fixedKeys, a, b, target, body, stored) && target.Default?
    requires forall r :: r in before && r.Chosen? ==> r in a
    ensures TouchesOnly(a, b, before, target)
  {
  }

  /** What a put exposes: its destination, unless it returned another key. */
  function ExposedBy(target: Ref, stored: Option<Ref>): set<Ref> {
    if stored.Some? && stored.value != target then {} else {target}
  }

  lemma WriteKeeps(fixedKeys: bool, s: Progress, t: Progress, before: Objects, exposed: set<Ref>, n: nat,
    stored: Option<Ref>)
    requires Sound(fixedKeys, s, before, exposed) && Written(fixedKeys, s, t, n, stored)
    requires s.entries[n].previousBody == Read(before, s.entries[n].target)
    ensures Sound(fixedKeys, t, before, exposed + ExposedBy(s.entries[n].target, stored))
  {
    var e := s.entries[n];
    assert EntryOk(fixedKeys, e, before, s.objects, exposed);
    ChosenKept(fixedKeys, s, before, exposed);
    PutTouches(fixedKeys, before, s.objects, t.objects, e.target, e.body, stored);
    TouchKeeps(fixedKeys, s, t, before, n, exposed, ExposedBy(e.target, stored));
  }

  lemma UndoKeeps(fixedKeys: bool, s: Progress, t: Progress, before: Objects, exposed: set<Ref>, n: nat, ok: bool,
    threw: bool)
    requires Sound(fixedKeys, s, before, exposed) && Undone(fixedKeys, s, t, n, ok, threw)
    ensures Sound(fixedKeys, t, before, exposed + if threw then {s.entries[n].target} else {})
    ensures ok ==> !threw
  {
    var e := s.entries[n];
    assert EntryOk(fixedKeys, e, before, s.objects, exposed);
    ChosenKept(fixedKeys, s, before, exposed);
    var between, removed, restored :|
      && DeleteMay(s.objects, between, KeyWritten(e), removed)
      && PutBack(fixedKeys, between, t.objects, e, restored, threw)
      && ok == (removed && restored);
    DeleteTouches(fixedKeys, e, before, s.objects, between, exposed, removed);
    PutBackTouches(fixedKeys, before, between, t.objects, e, restored, threw);
    TouchesBoth(s.objects, between, t.objects, before, e.target);
    PutBackEntry(fixedKeys, e, before, s.objects, between, t.objects, exposed, removed, restored, threw);
    TouchKeeps(fixedKeys, s, t, before, n, exposed, if threw then {e.target} else {});
  }

  lemma TouchesBoth(a: Objects, b: Objects, c: Objects, before: Objects, target: Ref)
    requires TouchesOnly(a, b, before, target) && TouchesOnly(b, c, before, target)
    ensures TouchesOnly(a, c, before, target)
  {
  }

  lemma DeleteTouches(fixedKeys: bool, e: Entry, before: Objects, now: Objects, between: Objects,
    exposed: set<Ref>, removed: bool)
    requires EntryOk(fixedKeys, e, before, now, exposed) && DeleteMay(now, between, KeyWritten(e), removed)
    requires forall r :: r in before && r.Chosen? ==> r in now
    ensures TouchesOnly(now, between, before, e.target)
    ensures forall r :: r in before && r.Chosen? ==> r in between
  {
  }

  lemma PutBackTouches(fixedKeys: bool, before: Objects, between: Objects, after: Objects, e: Entry, ok: bool,
    threw: bool)
    requires PutBack(fixedKeys, between, after, e, ok, threw) && e.target.Default?
    requires forall r :: r in before && r.Chosen? ==> r in between
    ensures TouchesOnly(between, after, before, e.target)
  {
    if e.previousBodyExisted && e.previousBody.Some? {
      var stored :| PutMay(fixedKeys, between, after, e.target, e.previousBody.value, stored) && ok == stored.Some?
        && threw == !ok;
      PutTouches(fixedKeys, before, between, after, e.target, e.previousBody.value, stored);
    }
  }

  lemma PutBackEntry(fixedKeys: bool, e: Entry, before: Objects, now: Objects, between: Objects, after: Objects,
    exposed: set<Ref>,
                     removed: bool, restored: bool, threw: bool)
    requires EntryOk(fixedKeys, e, before, now, exposed) && e.attempted
    requires DeleteMay(now, between, KeyWritten(e), removed) && PutBack(fixedKeys, between, after, e, restored, threw)
    ensures EntryOk(fixedKeys,
      if removed && restored then e.(attempted := false, written := None, previousBody := None) else e,
                    before, after, exposed + if threw then {e.target} else {})
    ensures restored ==> !threw
  {
    if e.target !in exposed { assert Read(between, e.target) == Read(before, e.target); }
    if e.previousBodyExisted {
      var stored :| PutMay(fixedKeys, between, after, e.target, e.previousBody.value, stored)
        && restored == stored.Some? && threw == !restored;
    } else if removed && restored {
      assert Read(after, e.target) == None;
    }
  }

  lemma AllExact(fixedKeys: bool, s: Progress, before: Objects, exposed: set<Ref>)
    requires Sound(fixedKeys, s, before, exposed) && forall i :: 0 <= i < |s.entries| ==> !s.entries[i].attempted
    ensures forall e :: e in s.entries && (fixedKeys || e.target !in before || e.target !in exposed) ==>
      Read(s.objects, e.target) == Read(before, e.target)
  {
    forall i | 0 <= i < |s.entries| ensures EntryOk(fixedKeys, s.entries[i], before, s.objects, exposed) { }
  }

  // ----- The journal -----

  class Journal {
    const store: ObjectStore
    var entries: seq<Entry>
    var active: bool
    ghost const before: Objects
    ghost var exposed: set<Ref>

    ghost function Now(): Progress
      reads this, store
    {
      Progress(store.objects, entries)
    }

    ghost predicate Valid()
      reads this, store
    {
      Distinct(entries) && (active ==> Sound(store.fixedKeys, Now(), before, exposed))
    }

    /** Every destination that did not exist before, that no put exposed, or, with a
        provider of fixed keys, any at all, holds what it held before, byte for byte or by
        being absent. */
    ghost predicate Exact()
      reads this, store
    {
      forall i ::
        0 <= i < |entries| && (store.fixedKeys || entries[i].target !in before || entries[i].target !in exposed) ==>
        Read(store.objects, entries[i].target) == Read(before, entries[i].target)
    }

    constructor (store: ObjectStore, entries: seq<Entry>)
      requires Distinct(entries)
      requires forall i {:trigger entries[i]} :: 0 <= i < |entries| ==>
        entries[i].target.Default? && !entries[i].attempted && entries[i].written.None?
        && entries[i].previousBody == Read(store.objects, entries[i].target)
        && entries[i].previousBodyExisted == (entries[i].target in store.objects)
      ensures Valid() && this.store == store && this.entries == entries && active && before == store.objects
        && exposed == {}
    {
      this.store, this.entries, active := store, entries, true;
      before, exposed := store.objects, {};
    }

    method Commit()
      requires Valid()
      modifies this`active, this`entries
      ensures Valid() && !active && |entries| == |old(entries)|
      ensures forall i :: 0 <= i < |entries| ==> entries[i] == old(entries)[i].(previousBody := None)
    {
      active := false;
      for n := 0 to |entries|
        invariant !active && |entries| == |old(entries)|
        invariant forall i :: 0 <= i < |entries| ==> entries[i] == if i < n then old(entries)[i].(previousBody := None)
          else old(entries)[i]
      {
        entries := entries[n := entries[n].(previousBody := None)];
      }
    }

    /** Writes one entry's body; a throw leaves the entry marked as attempted. */
    method Write(n: nat) returns (ok: bool, ghost stored: Option<Ref>)
      requires Valid() && active && n < |entries| && !entries[n].attempted
      requires entries[n].previousBody == Read(before, entries[n].target)
      modifies this`entries, this`exposed, store
      ensures Valid() && Written(store.fixedKeys, old(Now()), Now(), n, stored)
      ensures ok == stored.Some? && store.thrown == old(store.thrown) + if ok then 0 else 1
      ensures var target := old(entries)[n].target;
        exposed == old(exposed) + if stored == None || stored == Some(target) then {target} else {}
    {
      ghost var was := Now();
      assert EntryOk(store.fixedKeys, entries[n], before, store.objects, exposed);
      entries := entries[n := entries[n].(attempted := true)];
      var key := store.Put(entries[n].target, entries[n].body);
      entries := entries[n := entries[n].(written := key)];
      ok, stored := key.Some?, key;
      assert Now().entries == was.entries[n := was.entries[n].(attempted := true, written := stored)];
      WriteKeeps(store.fixedKeys, was, Now(), before, exposed, n, stored);
      exposed := exposed + ExposedBy(was.entries[n].target, stored);
    }

    /** Removes what an attempted entry wrote and puts its old bytes back. Only a put of old
        bytes that throws exposes the destination anew. */
    method RollBackEntry(n: nat) returns (ok: bool, ghost threw: bool)
      requires Valid() && active && n < |entries| && entries[n].attempted
      modifies this`entries, this`exposed, store
      ensures Valid() && Undone(store.fixedKeys, old(Now()), Now(), n, ok, threw)
      ensures exposed == old(exposed) + if threw then {old(entries)[n].target} else {}
      ensures store.thrown >= old(store.thrown) && (ok <==> store.thrown == old(store.thrown))
    {
      var e := entries[n];
      ghost var was := Now();
      assert EntryOk(store.fixedKeys, e, before, store.objects, exposed);
      var removed := store.Delete(KeyWritten(e));
      ghost var between := store.objects;
      assert DeleteMay(was.objects, between, KeyWritten(e), removed);
      var restored := true;
      threw := false;
      if e.previousBodyExisted && e.previousBody.Some? {
        var stored := store.Put(e.target, e.previousBody.value);
        restored, threw := stored.Some?, stored.None?;
      } else if e.written.Some? {
        restored := store.Delete(e.target);
      }
      assert PutBack(store.fixedKeys, between, store.objects, e, restored, threw);
      ok := removed && restored;
      if ok { entries := entries[n := e.(attempted := false, written := None, previousBody := None)]; }
      assert e == was.entries[n];
      assert Undone(store.fixedKeys, was, Now(), n, ok, threw);
      UndoKeeps(store.fixedKeys, was, Now(), before, exposed, n, ok, threw);
      exposed := exposed + if threw then {e.target} else {};
    }

    /** Undoes every attempted entry, last first, and counts the failures. */
    method PerformRollback() returns (failures: nat)
      requires Valid() && active
      modifies this`entries, this`exposed, store
      ensures Valid() && |entries| == |old(entries)|
      ensures forall i :: 0 <= i < |entries| ==> entries[i].target == old(entries)[i].target
      ensures RolledBackTo(store.fixedKeys, old(Now()), Now(), |entries|, failures == 0)
      ensures failures == 0 ==> exposed == old(exposed) && forall i :: 0 <= i < |entries| ==> !entries[i].attempted
      ensures store.thrown >= old(store.thrown) && (failures == 0 <==> store.thrown == old(store.thrown))
    {
      failures := 0;
      var n := |entries|;
      ghost var was := Now();
      while n > 0
        invariant Valid() && 0 <= n <= |entries| == |was.entries|
        invariant forall i :: 0 <= i < |entries| ==> entries[i].target == was.entries[i].target
        invariant failures == 0 ==> exposed == old(exposed) && forall i :: n <= i < |entries| ==> !entries[i].attempted
        invariant Continues(store.fixedKeys, was, Now(), n, failures == 0)
        invariant store.thrown >= old(store.thrown) && (failures == 0 <==> store.thrown == old(store.thrown))
      {
        n := n - 1;
        ghost var s := Now();
        if entries[n].attempted {
          var done, threw := RollBackEntry(n);
          ContinuesAfter(store.fixedKeys, was, s, Now(), n, failures == 0, done, threw);
          if !done { failures := failures + 1; }
        } else {
          ContinuesPast(store.fixedKeys, was, s, n, failures == 0);
        }
      }
      assert RolledBackTo(store.fixedKeys, Now(), Now(), 0, true);
    }

    /** When it returns normally on an active journal, every destination is exactly as before
        the import if the provider uses the default keys, if the destination was absent, or
        if no put exposed it; a failed call can simply be repeated. */
    method Rollback() returns (ok: bool)
      requires Valid()
      modifies this`entries, this`exposed, this`active, store
      ensures Valid() && |entries| == |old(entries)|
      ensures forall i :: 0 <= i < |entries| ==> entries[i].target == old(entries)[i].target
      ensures !old(active) ==> ok && store.objects == old(store.objects) && entries == old(entries)
      ensures old(active) ==> RolledBackTo(store.fixedKeys, old(Now()), Now(), |entries|, ok)
      ensures old(active) && ok ==> !active && Exact() && OthersKept(entries, before, store.objects)
      ensures old(active) && ok ==> exposed == old(exposed)
      ensures !ok ==> active
      ensures store.thrown >= old(store.thrown) && (ok <==> store.thrown == old(store.thrown))
    {
      if !active { return true; }
      var failures := PerformRollback();
      if failures > 0 { return false; }
      AllExact(store.fixedKeys, Now(), before, exposed);
      active := false;
      ok := true;
    }
  }

  // ----- The whole restore -----

  datatype File = File(target: Ref, body: Bytes)

  datatype Outcome = NothingWritten | Restored | RolledBack | RollbackIncomplete

  function Fresh(f: File, o: Objects): Entry {
    Entry(f.target, f.body, f.target in o, Read(o, f.target), false, None)
  }

  /** A journal over the files as a restore starts it. */
  function Start(files: seq<File>, o: Objects): Progress {
    Progress(o, seq(|files|, i requires 0 <= i < |files| => Fresh(files[i], o)))
  }

  /** Reads every destination before the first write; a read that throws ends the restore, and so
      does a cancellation. */
  method Snapshot(store: ObjectStore, files: seq<File>) returns (entries: Option<seq<Entry>>, ghost cancelled: bool)
    modifies store`thrown
    ensures entries.Some? ==> entries.value == Start(files, store.objects).entries
    ensures entries.None? <==> cancelled || store.thrown > old(store.thrown)
    ensures store.thrown >= old(store.thrown)
  {
    cancelled := false;
    var es: seq<Entry> := [];
    for n := 0 to |files|
      invariant |es| == n && forall i :: 0 <= i < n ==> es[i] == Fresh(files[i], store.objects)
      invariant store.thrown == old(store.thrown)
    {
      if * { return None, true; }
      var previous := store.Fetch(files[n].target);
      if previous.None? { return None, false; }
      es := es + [Entry(files[n].target, files[n].body, previous.value.Some?, previous.value, false, None)];
    }
    entries := Some(es);
  }

  lemma UnderwayAfter(fixedKeys: bool, start: Progress, t: Progress, n: nat)
    requires WrittenTo(fixedKeys, start, t, n)
    ensures Underway(fixedKeys, start, t)
  {
    assert FailedRollbacks(fixedKeys, t, t, 0);
  }

  lemma UnderwayAgain(fixedKeys: bool, start: Progress, s: Progress, t: Progress)
    requires Underway(fixedKeys, start, s) && RolledBackTo(fixedKeys, s, t, |s.entries|, false)
    ensures Underway(fixedKeys, start, t)
  {
    var m, n: nat, tries: nat :| WrittenTo(fixedKeys, start, m, n) && FailedRollbacks(fixedKeys, m, s, tries);
    assert FailedRollbacks(fixedKeys, m, t, tries + 1);
  }

  ghost predicate DistinctFiles(files: seq<File>) {
    && (forall i :: 0 <= i < |files| ==> files[i].target.Default?)
    && (forall i, j {:trigger files[i].target, files[j].target} :: 0 <= i < j < |files| ==>
      files[i].target != files[j].target)
  }

  /** The first n files are written, the others untouched. */
  ghost predicate WrittenSoFar(fixedKeys: bool, files: seq<File>, before: Objects, s: Progress, n: nat) {
    && n <= |files| == |s.entries| && AllWritten(s, n)
    && (forall i :: 0 <= i < |files| ==> s.entries[i].target == files[i].target)
    && (forall i :: n <= i < |files| ==> s.entries[i] == Fresh(files[i], before))
    && AllStored(files, s, n)
    && WrittenTo(fixedKeys, Start(files, before), s, n)
  }

  lemma WrittenNext(fixedKeys: bool, files: seq<File>, before: Objects, s: Progress, t: Progress, n: nat,
    stored: Option<Ref>)
    requires DistinctFiles(files) && n < |files|
    requires WrittenSoFar(fixedKeys, files, before, s, n) && Written(fixedKeys, s, t, n, stored)
    ensures |t.entries| == |files| && forall i :: 0 <= i < |files| ==> t.entries[i].target == files[i].target
    ensures Underway(fixedKeys, Start(files, before), t)
    ensures stored.Some? ==> WrittenSoFar(fixedKeys, files, before, t, n + 1)
  {
    assert WrittenTo(fixedKeys, Start(files, before), t, n + 1);
    UnderwayAfter(fixedKeys, Start(files, before), t, n + 1);
    assert s.entries[n] == Fresh(files[n], before);
    if stored.Some? { StoredGrows(fixedKeys, files, s, t, n, stored); }
  }

  /** Writes the next file; a throw ends the restore, and so does a cancellation seen before
      or after the put. */
  method WriteFile(j: Journal, ghost files: seq<File>, n: nat) returns (ok: bool, ghost cancelled: bool)
    requires j.Valid() && j.active && DistinctFiles(files) && n < |files|
    requires WrittenSoFar(j.store.fixedKeys, files, j.before, j.Now(), n)
    modifies j`entries, j`exposed, j.store
    ensures j.Valid() && |files| == |j.entries|
    ensures forall i :: 0 <= i < |files| ==> j.entries[i].target == files[i].target
    ensures Underway(j.store.fixedKeys, Start(files, j.before), j.Now())
    ensures ok ==> WrittenSoFar(j.store.fixedKeys, files, j.before, j.Now(), n + 1)
    ensures j.store.thrown >= old(j.store.thrown) && (ok <==> !cancelled && j.store.thrown == old(j.store.thrown))
  {
    if * {
      UnderwayAfter(j.store.fixedKeys, Start(files, j.before), j.Now(), n);
      return false, true;
    }
    ghost var was := j.Now();
    assert j.entries[n] == Fresh(files[n], j.before);
    var done, stored := j.Write(n);
    WrittenNext(j.store.fixedKeys, files, j.before, was, j.Now(), n, stored);
    var stopped: bool := *;
    ok, cancelled := done && !stopped, stopped;
  }

  /** Writes the files in order until one fails or the restore is cancelled. */
  method WriteFiles(j: Journal, files: seq<File>) returns (ok: bool, ghost cancelled: bool)
    requires j.Valid() && j.active && DistinctFiles(files)
    requires j.Now() == Start(files, j.before)
    modifies j`entries, j`exposed, j.store
    ensures j.Valid() && |files| == |j.entries|
    ensures Underway(j.store.fixedKeys, Start(files, j.before), j.Now())
    ensures forall i :: 0 <= i < |files| ==> j.entries[i].target == files[i].target
    ensures ok ==> AllStored(files, j.Now(), |files|)
    ensures j.store.thrown >= old(j.store.thrown) && (ok <==> !cancelled && j.store.thrown == old(j.store.thrown))
  {
    var n := 0;
    ok, cancelled := true, false;
    while ok && n < |files|
      invariant j.Valid() && |files| == |j.entries|
      invariant forall i :: 0 <= i < |files| ==> j.entries[i].target == files[i].target
      invariant ok ==> WrittenSoFar(j.store.fixedKeys, files, j.before, j.Now(), n)
      invariant !ok ==> Underway(j.store.fixedKeys, Start(files, j.before), j.Now())
      invariant j.store.thrown >= old(j.store.thrown) && (ok <==> !cancelled && j.store.thrown == old(j.store.thrown))
    {
      ok, cancelled := WriteFile(j, files, n);
      n := n + 1;
    }
    if ok { UnderwayAfter(j.store.fixedKeys, Start(files, j.before), j.Now(), n); }
  }

  /** Unless a call throws or the restore is cancelled, it succeeds. Either nothing was written; or
      every file is stored; or, after a failure, everything was put back; or the journal says it could
      not be and stays active for another try. */
  method RestoreFiles(store: ObjectStore, files: seq<File>)
    returns (r: Outcome, journal: Journal?, ghost cancelled: bool)
    requires DistinctFiles(files)
    modifies store
    ensures r.Restored? <==> !cancelled && store.thrown == old(store.thrown)
    ensures r.NothingWritten? <==> journal == null
    ensures r.NothingWritten? ==> store.objects == old(store.objects)
    ensures journal != null ==> journal.store == store && journal.Valid() && journal.before == old(store.objects)
    ensures journal != null ==> |journal.entries| == |files|
    ensures journal != null ==> forall i :: 0 <= i < |files| ==> journal.entries[i].target == files[i].target
    ensures r.Restored? ==> journal.active && AllStored(files, journal.Now(), |files|)
    ensures journal != null && journal.active
      ==> Underway(store.fixedKeys, Start(files, old(store.objects)), journal.Now())
    ensures r.RolledBack? ==> Run(store.fixedKeys, Start(files, old(store.objects)), journal.Now())
    ensures r.RolledBack?
      ==> !journal.active && journal.Exact() && OthersKept(journal.entries, journal.before, store.objects)
    ensures r.RollbackIncomplete? ==> journal.active
  {
    var entries;
    entries, cancelled := Snapshot(store, files);
    if entries.None? { return NothingWritten, null, cancelled; }
    assert Distinct(entries.value) by {
      forall i, j | 0 <= i < j < |files| ensures entries.value[i].target != entries.value[j].target {
        assert files[i].target != files[j].target;
      }
    }
    var j := new Journal(store, entries.value);
    journal := j;
    var ok;
    ok, cancelled := WriteFiles(j, files);
    if ok { return Restored, j, cancelled; }
    ghost var was := j.Now();
    var undone := j.Rollback();
    if undone {
      assert Run(store.fixedKeys, Start(files, j.before), j.Now());
    } else {
      UnderwayAgain(store.fixedKeys, Start(files, j.before), was, j.Now());
    }
    r := if undone then RolledBack else RollbackIncomplete;
  }

  /** The first n files are in the store under the keys their entries remember. */
  ghost predicate AllStored(files: seq<File>, s: Progress, n: nat) {
    n <= |files| == |s.entries| && forall i {:trigger s.entries[i]} :: 0 <= i < n ==>
      StoredAt(files[i], s.entries[i], s.objects)
  }

  ghost predicate StoredAt(f: File, e: Entry, o: Objects) {
    && e.target == f.target && e.attempted && e.written.Some? && Read(o, e.written.value) == Some(f.body)
    && (e.written.value == e.target || e.written.value.Chosen?)
  }

  lemma StoredGrows(fixedKeys: bool, files: seq<File>, s: Progress, t: Progress, n: nat, stored: Option<Ref>)
    requires DistinctFiles(files) && n < |files| && AllStored(files, s, n) && Written(fixedKeys, s, t, n, stored)
    requires s.entries[n].target == files[n].target && s.entries[n].body == files[n].body && stored.Some?
    ensures AllStored(files, t, n + 1)
  {
    forall i | 0 <= i < n ensures StoredAt(files[i], t.entries[i], t.objects) {
      assert StoredAt(files[i], s.entries[i], s.objects);
      assert files[i].target != files[n].target;
    }
  }
}
