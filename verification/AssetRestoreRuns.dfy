/** Which destinations every run of a restore journal puts back, whatever the store does. */
module AssetRestoreRuns {
  import opened Json
  import opened AssetRestore

  // ----- What every run keeps -----

  function Targets(files: seq<File>): set<Ref> {
    set i | 0 <= i < |files| :: files[i].target
  }

  ghost predicate SameTargets(files: seq<File>, s: Progress) {
    |s.entries| == |files| && forall i :: 0 <= i < |files| ==> s.entries[i].target == files[i].target
  }

  ghost predicate Unwritten(files: seq<File>, before: Objects, s: Progress, n: nat) {
    |s.entries| == |files| && forall i :: n <= i < |files| ==> s.entries[i] == Fresh(files[i], before)
  }

  lemma StartSound(fixedKeys: bool, files: seq<File>, before: Objects)
    requires DistinctFiles(files)
    ensures Sound(fixedKeys, Start(files, before), before, Targets(files)) && SameTargets(files, Start(files, before))
  {
    var s := Start(files, before);
    forall i, j | 0 <= i < j < |files| ensures s.entries[i].target != s.entries[j].target {
      assert files[i].target != files[j].target;
    }
  }

  lemma {:induction false} WritesKeep(fixedKeys: bool, files: seq<File>, before: Objects, t: Progress, n: nat)
    requires DistinctFiles(files) && WrittenTo(fixedKeys, Start(files, before), t, n)
    ensures Sound(fixedKeys, t, before, Targets(files)) && SameTargets(files, t) && Unwritten(files, before, t, n)
    decreases n
  {
    StartSound(fixedKeys, files, before);
    if n > 0 {
      var k := n - 1;
      var m, stored :| WrittenTo(fixedKeys, Start(files, before), m, k) && Written(fixedKeys, m, t, k, stored)
        && AllWritten(m, k);
      WritesKeep(fixedKeys, files, before, m, k);
      assert m.entries[k] == Fresh(files[k], before);
      WriteKeeps(fixedKeys, m, t, before, Targets(files), k, stored);
      assert files[k].target in Targets(files);
      assert Targets(files) + ExposedBy(files[k].target, stored) == Targets(files);
    }
  }

  lemma UndoKeepsAll(fixedKeys: bool, files: seq<File>, before: Objects, s: Progress, m: Progress, k: nat, done: bool,
    threw: bool)
    requires Sound(fixedKeys, s, before, Targets(files)) && SameTargets(files, s)
      && Undone(fixedKeys, s, m, k, done, threw)
    ensures Sound(fixedKeys, m, before, Targets(files)) && SameTargets(files, m)
  {
    UndoKeeps(fixedKeys, s, m, before, Targets(files), k, done, threw);
    assert files[k].target in Targets(files);
    assert Targets(files) + (if threw then {s.entries[k].target} else {}) == Targets(files);
  }

  lemma {:induction false} RollbackKeeps(fixedKeys: bool, files: seq<File>, before: Objects, s: Progress, t: Progress,
    n: nat, ok: bool)
    requires Sound(fixedKeys, s, before, Targets(files)) && SameTargets(files, s)
      && RolledBackTo(fixedKeys, s, t, n, ok)
    ensures Sound(fixedKeys, t, before, Targets(files)) && SameTargets(files, t)
    decreases n
  {
    if n > 0 {
      var k := n - 1;
      if !s.entries[k].attempted {
        RollbackKeeps(fixedKeys, files, before, s, t, k, ok);
      } else {
        var m, done, threw, rest :|
          Undone(fixedKeys, s, m, k, done, threw) && RolledBackTo(fixedKeys, m, t, k, rest) && ok == (done && rest);
        UndoKeepsAll(fixedKeys, files, before, s, m, k, done, threw);
        RollbackKeeps(fixedKeys, files, before, m, t, k, rest);
      }
    }
  }

  lemma {:induction false} RollbackSettles(fixedKeys: bool, s: Progress, t: Progress, n: nat, ok: bool)
    requires RolledBackTo(fixedKeys, s, t, n, ok)
    ensures n <= |s.entries| == |t.entries|
    ensures forall i :: n <= i < |s.entries| ==> t.entries[i] == s.entries[i]
    ensures ok ==> forall i :: 0 <= i < n ==> !t.entries[i].attempted
    decreases n
  {
    if n > 0 {
      var k := n - 1;
      if !s.entries[k].attempted {
        RollbackSettles(fixedKeys, s, t, k, ok);
      } else {
        var m, done, threw, rest :|
          Undone(fixedKeys, s, m, k, done, threw) && RolledBackTo(fixedKeys, m, t, k, rest) && ok == (done && rest);
        RollbackSettles(fixedKeys, m, t, k, rest);
      }
    }
  }

  lemma {:induction false} FailuresKeep(fixedKeys: bool, files: seq<File>, before: Objects, s: Progress, t: Progress,
    tries: nat)
    requires Sound(fixedKeys, s, before, Targets(files)) && SameTargets(files, s)
      && FailedRollbacks(fixedKeys, s, t, tries)
    ensures Sound(fixedKeys, t, before, Targets(files)) && SameTargets(files, t)
    decreases tries
  {
    if tries > 0 {
      var k := tries - 1;
      var m :| FailedRollbacks(fixedKeys, s, m, k) && RolledBackTo(fixedKeys, m, t, |m.entries|, false);
      FailuresKeep(fixedKeys, files, before, s, m, k);
      RollbackKeeps(fixedKeys, files, before, m, t, |m.entries|, false);
    }
  }

  /** Whatever failed before, a destination is back if the provider uses the default keys or
      the destination was absent. */
  lemma RunPutsBack(fixedKeys: bool, files: seq<File>, before: Objects, end: Progress, i: nat)
    requires DistinctFiles(files) && i < |files| && Run(fixedKeys, Start(files, before), end)
    requires fixedKeys || files[i].target !in before
    ensures Read(end.objects, files[i].target) == Read(before, files[i].target)
  {
    var start := Start(files, before);
    var last :| Underway(fixedKeys, start, last) && RolledBackTo(fixedKeys, last, end, |last.entries|, true);
    var m, n: nat, tries: nat :| WrittenTo(fixedKeys, start, m, n) && FailedRollbacks(fixedKeys, m, last, tries);
    WritesKeep(fixedKeys, files, before, m, n);
    FailuresKeep(fixedKeys, files, before, m, last, tries);
    RollbackKeeps(fixedKeys, files, before, last, end, |last.entries|, true);
    RollbackSettles(fixedKeys, last, end, |last.entries|, true);
    AllExact(fixedKeys, end, before, Targets(files));
    assert end.entries[i] in end.entries;
  }

  // ----- A run that loses bytes -----

  /** Every put of the first n files stores under the default key. */
  function Stored(s: Progress, n: nat): (t: Progress)
    requires n <= |s.entries|
    ensures |t.entries| == |s.entries|
    decreases n
  {
    if n == 0 then s
    else
      var m := Stored(s, n - 1);
      var e := m.entries[n - 1];
      Progress(m.objects[e.target := e.body], m.entries[n - 1 := e.(attempted := true, written := Some(e.target))])
  }

  /** The first n entries are undone without a failure; the old bytes of entry k go under a
      key of the provider's choice, all others under their default keys. */
  function Reverted(s: Progress, n: nat, k: nat, c: nat): (t: Progress)
    requires n <= |s.entries|
    decreases n
  {
    if n == 0 then s
    else
      var e := s.entries[n - 1];
      if !e.attempted then Reverted(s, n - 1, k, c)
      else
        var gone := s.objects - {e.target};
        var key := if n - 1 == k then Chosen(c) else e.target;
        var objects := if e.previousBodyExisted && e.previousBody.Some? then gone[key := e.previousBody.value]
          else gone;
        Reverted(Progress(objects, s.entries[n - 1 := e.(attempted := false, written := None, previousBody := None)]),
          n - 1, k, c)
  }

  ghost predicate AtDefaultKeys(s: Progress, n: nat) {
    n <= |s.entries| && forall i :: 0 <= i < n ==>
      s.entries[i].target.Default? && (s.entries[i].attempted ==> s.entries[i].written == Some(s.entries[i].target))
  }

  lemma {:induction false} StoredEntries(files: seq<File>, before: Objects, n: nat)
    requires DistinctFiles(files) && n <= |files|
    ensures var t := Stored(Start(files, before), n);
      && SameTargets(files, t) && Unwritten(files, before, t, n)
      && (forall i :: 0 <= i < n ==>
        t.entries[i] == Fresh(files[i], before).(attempted := true, written := Some(files[i].target)))
      && (forall r :: r in t.objects && r.Chosen? ==> r in before)
  {
    if n > 0 { StoredEntries(files, before, n - 1); }
  }

  lemma {:induction false} StoredIsWritten(files: seq<File>, before: Objects, n: nat)
    requires DistinctFiles(files) && n <= |files|
    ensures WrittenTo(false, Start(files, before), Stored(Start(files, before), n), n)
  {
    if n > 0 {
      var m, t := Stored(Start(files, before), n - 1), Stored(Start(files, before), n);
      StoredIsWritten(files, before, n - 1);
      StoredEntries(files, before, n - 1);
      assert m.entries[n - 1] == Fresh(files[n - 1], before);
      assert AllWritten(m, n - 1);
      assert Written(false, m, t, n - 1, Some(files[n - 1].target));
    }
  }

  lemma {:induction false} RevertedIsRollback(s: Progress, n: nat, k: nat, c: nat)
    requires AtDefaultKeys(s, n) && (k < n ==> Chosen(c) !in s.objects)
    ensures RolledBackTo(false, s, Reverted(s, n, k, c), n, true)
    decreases n
  {
    if n > 0 {
      var e := s.entries[n - 1];
      if !e.attempted {
        RevertedIsRollback(s, n - 1, k, c);
      } else {
        var gone := s.objects - {e.target};
        var key := if n - 1 == k then Chosen(c) else e.target;
        var objects := if e.previousBodyExisted && e.previousBody.Some? then gone[key := e.previousBody.value]
          else gone;
        var m := Progress(objects, s.entries[n - 1 := e.(attempted := false, written := None, previousBody := None)]);
        assert DeleteMay(s.objects, gone, KeyWritten(e), true);
        if e.previousBodyExisted && e.previousBody.Some? {
          assert PutMay(false, gone, objects, e.target, e.previousBody.value, Some(key));
        } else {
          assert gone - {e.target} == gone;
        }
        assert PutBack(false, gone, objects, e, true, false);
        assert Undone(false, s, m, n - 1, true, false);
        RevertedIsRollback(m, n - 1, k, c);
      }
    }
  }

  /** Undoing other entries never brings back a destination that is gone. */
  lemma {:induction false} StaysGone(s: Progress, n: nat, k: nat, c: nat)
    requires Distinct(s.entries) && n <= k < |s.entries| && s.entries[k].target !in s.objects
    ensures s.entries[k].target !in Reverted(s, n, k, c).objects
    decreases n
  {
    if n > 0 {
      var e := s.entries[n - 1];
      assert e.target != s.entries[k].target;
      if !e.attempted {
        StaysGone(s, n - 1, k, c);
      } else {
        var gone := s.objects - {e.target};
        var objects := if e.previousBodyExisted && e.previousBody.Some? then gone[e.target := e.previousBody.value]
          else gone;
        StaysGone(Progress(objects, s.entries[n - 1 := e.(attempted := false, written := None, previousBody := None)]),
          n - 1, k, c);
      }
    }
  }

  /** Some key that a provider may choose is not in use. */
  lemma UnusedKey(keys: set<Ref>) returns (c: nat)
    ensures forall r :: r in keys && r.Chosen? ==> r.n < c
  {
    c := 0;
    var rest := keys;
    while rest != {}
      invariant rest <= keys && forall r :: r in keys - rest && r.Chosen? ==> r.n < c
      decreases rest
    {
      var r :| r in rest;
      if r.Chosen? && r.n >= c { c := r.n + 1; }
      rest := rest - {r};
    }
  }

  /** Undoing entry k with its old bytes under another key leaves its destination empty. */
  lemma RevertedLoses(s: Progress, k: nat, c: nat)
    requires Distinct(s.entries) && k < |s.entries| && s.entries[k].attempted && s.entries[k].target.Default?
    ensures s.entries[k].target !in Reverted(s, k + 1, k, c).objects
  {
    var e := s.entries[k];
    var gone := s.objects - {e.target};
    var objects := if e.previousBodyExisted && e.previousBody.Some? then gone[Chosen(c) := e.previousBody.value]
      else gone;
    var m := Progress(objects, s.entries[k := e.(attempted := false, written := None, previousBody := None)]);
    assert Distinct(m.entries) by {
      forall i, j | 0 <= i < j < |m.entries| ensures m.entries[i].target != m.entries[j].target {
        assert s.entries[i].target != s.entries[j].target;
      }
    }
    StaysGone(m, k, k, c);
  }

  /** Once files 0 to k are stored under their default keys, a rollback can succeed and lose
      the bytes of file k. */
  lemma SomeRollbackLoses(files: seq<File>, before: Objects, k: nat) returns (end: Progress)
    requires DistinctFiles(files) && k < |files| && files[k].target in before
    ensures RolledBackTo(false, Stored(Start(files, before), k + 1), end, |files|, true)
    ensures files[k].target !in end.objects
  {
    var m := Stored(Start(files, before), k + 1);
    StoredEntries(files, before, k + 1);
    var c := UnusedKey(before.Keys);
    assert Chosen(c) !in m.objects;
    end := Reverted(m, k + 1, k, c);
    RevertedIsRollback(m, k + 1, k, c);
    SkipUnattempted(false, m, end, k + 1, |files|, true);
    forall i, j | 0 <= i < j < |files| ensures m.entries[i].target != m.entries[j].target {
      assert files[i].target != files[j].target;
    }
    RevertedLoses(m, k, c);
  }

  /** Files 0 to k are stored under their default keys; the restore then stops, and its first
      rollback deletes them, puts the old bytes of file k under another key, and succeeds. */
  lemma SomeRunLoses(files: seq<File>, before: Objects, k: nat)
    requires DistinctFiles(files) && k < |files| && files[k].target in before
    ensures exists end :: Run(false, Start(files, before), end) && files[k].target !in end.objects
  {
    StoredIsWritten(files, before, k + 1);
    UnderwayAfter(false, Start(files, before), Stored(Start(files, before), k + 1), k + 1);
    var end := SomeRollbackLoses(files, before, k);
    assert Run(false, Start(files, before), end);
  }

  lemma {:induction false} SkipUnattempted(fixedKeys: bool, s: Progress, t: Progress, n: nat, upTo: nat, ok: bool)
    requires n <= upTo <= |s.entries| && RolledBackTo(fixedKeys, s, t, n, ok)
    requires forall i :: n <= i < upTo ==> !s.entries[i].attempted
    ensures RolledBackTo(fixedKeys, s, t, upTo, ok)
    decreases upTo
  {
    if n < upTo { SkipUnattempted(fixedKeys, s, t, n, upTo - 1, ok); }
  }

  /** A destination is put back by every run exactly when the provider uses the default keys
      or the destination did not exist. */
  lemma PutBackIff(fixedKeys: bool, files: seq<File>, before: Objects, k: nat)
    requires DistinctFiles(files) && k < |files|
    ensures (forall end :: Run(fixedKeys, Start(files, before), end) ==>
               Read(end.objects, files[k].target) == Read(before, files[k].target))
            <==> (fixedKeys || files[k].target !in before)
  {
    if fixedKeys || files[k].target !in before {
      forall end | Run(fixedKeys, Start(files, before), end)
        ensures Read(end.objects, files[k].target) == Read(before, files[k].target)
      {
        RunPutsBack(fixedKeys, files, before, end, k);
      }
    } else {
      SomeRunLoses(files, before, k);
      var end :| Run(false, Start(files, before), end) && files[k].target !in end.objects;
      assert Read(end.objects, files[k].target) != Read(before, files[k].target);
    }
  }

  ghost predicate PutsEverythingBack(files: seq<File>, before: Objects, end: Progress) {
    forall i {:trigger files[i]} :: 0 <= i < |files|
      ==> Read(end.objects, files[i].target) == Read(before, files[i].target)
  }

  /** No run loses bytes exactly when the provider uses the default keys or no destination
      existed. */
  lemma NoRunLosesIff(fixedKeys: bool, files: seq<File>, before: Objects)
    requires DistinctFiles(files)
    ensures (forall end :: Run(fixedKeys, Start(files, before), end) ==> PutsEverythingBack(files, before, end))
            <==> (fixedKeys || forall i :: 0 <= i < |files| ==> files[i].target !in before)
  {
    if fixedKeys || forall i :: 0 <= i < |files| ==> files[i].target !in before {
      forall end | Run(fixedKeys, Start(files, before), end) ensures PutsEverythingBack(files, before, end) {
        forall i | 0 <= i < |files| ensures Read(end.objects, files[i].target) == Read(before, files[i].target) {
          RunPutsBack(fixedKeys, files, before, end, i);
        }
      }
    } else {
      var k :| 0 <= k < |files| && files[k].target in before;
      SomeRunLoses(files, before, k);
      var end :| Run(false, Start(files, before), end) && files[k].target !in end.objects;
      assert Read(end.objects, files[k].target) != Read(before, files[k].target);
      assert !PutsEverythingBack(files, before, end);
    }
  }
}
