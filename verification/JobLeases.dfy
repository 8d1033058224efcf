/** Leasing background jobs to workers and moving jobs between statuses. */
module JobLeases {
  import opened Json

  type Name = string

  const MAX_LOGS := 100

  datatype Status = Queued | Running | Succeeded | Failed | Cancelled

  datatype Note = Leased(worker: Name) | Reclaimed(worker: Name) | Marked(status: Status)
  datatype Log = Log(at: int, warning: bool, note: Note)

  /** Who holds a job under which request; a `revision` of zero stands for an absent one. */
  datatype Hold = Hold(
    leasedBy: Option<Name>, requestId: Option<Name>, requestHash: Option<Name>, revision: nat,
    lastHeartbeatAt: Option<int>, dispatchStartedAt: Option<int>, expiresAt: Option<int>)

  datatype Ending = Ending(completedAt: Option<int>, cancelledAt: Option<int>, cancelledBy: Option<Name>)

  datatype Job = Job(
    kind: Name, status: Status, attempts: nat, maxAttempts: nat, queuedAt: int, startedAt: Option<int>,
    hold: Hold, updatedAt: int, updatedBy: Option<Name>, ending: Ending, logs: seq<Log>)

  datatype Lease = Lease(
    workerId: Name, leaseSeconds: nat, requestId: Name, requestHash: Name, adminUserId: Option<Name>,
    kinds: Option<set<Name>>)

  datatype LeaseResult = Granted(at: nat) | Replayed(at: nat) | Idle | Conflict

  predicate Terminal(s: Status) { s == Succeeded || s == Failed || s == Cancelled }

  function AppendLog(logs: seq<Log>, log: Log): seq<Log> {
    if |logs| < MAX_LOGS then logs + [log] else logs[|logs| + 1 - MAX_LOGS..] + [log]
  }

  /** The latest hundred entries are kept, in order, the new one last. */
  lemma LatestLogsKept(logs: seq<Log>, log: Log)
    ensures var r, all := AppendLog(logs, log), logs + [log];
      |r| <= MAX_LOGS && (|all| <= MAX_LOGS ==> r == all) && (|all| > MAX_LOGS ==> r == all[|all| - MAX_LOGS..])
  {}

  // ----- Which job is next -----

  predicate Expired(j: Job, now: int) { j.hold.expiresAt.Some? && j.hold.expiresAt.value <= now }

  predicate Eligible(j: Job, kinds: Option<set<Name>>, now: int) {
    && (kinds.None? || j.kind in kinds.value)
    && j.attempts < j.maxAttempts
    && (j.status == Queued || (j.status == Running && Expired(j, now)))
  }

  function FindRequest(jobs: seq<Job>, requestId: Name): (r: Option<nat>)
    ensures r.Some? ==> r.value < |jobs| && jobs[r.value].hold.requestId == Some(requestId)
    ensures r.Some? ==> forall i :: 0 <= i < r.value ==> jobs[i].hold.requestId != Some(requestId)
    ensures r.None? ==> forall i :: 0 <= i < |jobs| ==> jobs[i].hold.requestId != Some(requestId)
  {
    if jobs == [] then None
    else if jobs[0].hold.requestId == Some(requestId) then Some(0)
    else
      var rest := FindRequest(jobs[1..], requestId);
      if rest.None? then None else Some(rest.value + 1)
  }

  /** The longest queued eligible job, the first of them when there are several. */
  method NextJob(jobs: seq<Job>, kinds: Option<set<Name>>, now: int) returns (r: Option<nat>)
    ensures r == First(jobs, kinds, now)
  {
    r := None;
    for n := 0 to |jobs|
      invariant r.Some? ==> IsFirst(jobs[..n], kinds, now, r.value)
      invariant r.None? ==> forall i :: 0 <= i < n ==> !Eligible(jobs[i], kinds, now)
    {
      if Eligible(jobs[n], kinds, now) && (r.None? || jobs[n].queuedAt < jobs[r.value].queuedAt) {
        r := Some(n);
      }
    }
    assert jobs[..|jobs|] == jobs;
    FirstIsTheOne(jobs, kinds, now);
  }

  predicate IsFirst(jobs: seq<Job>, kinds: Option<set<Name>>, now: int, i: nat) {
    && i < |jobs| && Eligible(jobs[i], kinds, now)
    && (forall k :: 0 <= k < |jobs| && Eligible(jobs[k], kinds, now) ==> jobs[i].queuedAt <= jobs[k].queuedAt)
    && (forall k :: 0 <= k < i && Eligible(jobs[k], kinds, now) ==> jobs[i].queuedAt < jobs[k].queuedAt)
  }

  function First(jobs: seq<Job>, kinds: Option<set<Name>>, now: int): Option<nat> {
    if jobs == [] then None
    else
      var rest := First(jobs[1..], kinds, now);
      if Eligible(jobs[0], kinds, now)
        && (rest.None? || rest.value + 1 >= |jobs| || jobs[0].queuedAt <= jobs[rest.value + 1].queuedAt) then Some(0)
      else if rest.None? then None else Some(rest.value + 1)
  }

  /** `First` is the eligible job queued earliest, and nothing when there is none. */
  lemma {:induction false} FirstIsTheOne(jobs: seq<Job>, kinds: Option<set<Name>>, now: int)
    ensures First(jobs, kinds, now).Some? ==> IsFirst(jobs, kinds, now, First(jobs, kinds, now).value)
    ensures First(jobs, kinds, now).None? <==> forall i :: 0 <= i < |jobs| ==> !Eligible(jobs[i], kinds, now)
  {
    if jobs != [] {
      FirstIsTheOne(jobs[1..], kinds, now);
      var rest := First(jobs[1..], kinds, now);
      assert forall k :: 1 <= k < |jobs| ==> jobs[k] == jobs[1..][k - 1];
    }
  }

  // ----- The steps -----

  function HoldFor(h: Hold, input: Lease, now: int): Hold {
    Hold(Some(input.workerId), Some(input.requestId), Some(input.requestHash), h.revision + 1,
         Some(now), None, Some(now + input.leaseSeconds * 1000))
  }

  function GrantTo(j: Job, input: Lease, now: int): Job {
    var note := if j.status == Running then Reclaimed(input.workerId) else Leased(input.workerId);
    j.(status := Running,
       startedAt := if j.startedAt.Some? then j.startedAt else Some(now),
       attempts := j.attempts + 1,
       hold := HoldFor(j.hold, input, now),
       updatedAt := now,
       updatedBy := if Named(input.adminUserId) then input.adminUserId else j.updatedBy,
       logs := AppendLog(j.logs, Log(now, j.status == Running, note)))
  }

  predicate Named(o: Option<Name>) { o.Some? && o.value != "" }

  predicate SameLease(j: Job, input: Lease) {
    j.hold.leasedBy == Some(input.workerId) && j.hold.requestHash == Some(input.requestHash) && j.hold.revision != 0
  }

  function LeaseOutcome(jobs: seq<Job>, input: Lease, now: int): LeaseResult {
    var replay := FindRequest(jobs, input.requestId);
    if replay.Some? then if SameLease(jobs[replay.value], input) then Replayed(replay.value) else Conflict
    else
      var next := First(jobs, input.kinds, now);
      if next.None? then Idle else Granted(next.value)
  }

  function AfterLease(jobs: seq<Job>, input: Lease, now: int): seq<Job> {
    var r := LeaseOutcome(jobs, input, now);
    if r.Granted? && r.at < |jobs| then jobs[r.at := GrantTo(jobs[r.at], input, now)] else jobs
  }

  datatype TransitionError = NotAllowed | OnlyAdmins | NoAttemptsLeft

  predicate Allowed(from: Status, to: Status) {
    match from
    case Queued => to == Running || to == Cancelled
    case Running => Terminal(to)
    case _ => false
  }

  function TransitionProblem(j: Job, next: Status, admin: Option<Name>): Option<TransitionError> {
    if j.status == next then None
    else if !Allowed(j.status, next) then Some(NotAllowed)
    else if next == Cancelled && !Named(admin) then Some(OnlyAdmins)
    else if next == Running && j.attempts >= j.maxAttempts then Some(NoAttemptsLeft)
    else None
  }

  function EndingAt(e: Ending, next: Status, admin: Option<Name>, now: int): Ending {
    if next == Cancelled then Ending(Some(now), Some(now), admin)
    else if Terminal(next) then e.(completedAt := Some(now))
    else e
  }

  function Moved(j: Job, next: Status, admin: Option<Name>, now: int): Job {
    if j.status == next || TransitionProblem(j, next, admin).Some? then j
    else
      j.(status := next,
         startedAt := if next == Running then Some(now) else j.startedAt,
         attempts := if next == Running then j.attempts + 1 else j.attempts,
         ending := EndingAt(j.ending, next, admin, now),
         hold := if Terminal(next) then j.hold.(leasedBy := None, expiresAt := None, lastHeartbeatAt := None)
           else j.hold,
         logs := AppendLog(j.logs, Log(now, next == Failed || next == Cancelled, Marked(next))))
  }

  /** A finished job holds no lease and says when it finished; a cancelled one, who cancelled it. */
  predicate Released(j: Job) {
    && (Terminal(j.status)
      ==> j.hold.leasedBy.None? && j.hold.expiresAt.None? && j.hold.lastHeartbeatAt.None? && j.ending.completedAt.Some?)
    && (j.status == Cancelled ==> j.ending.cancelledAt == j.ending.completedAt && Named(j.ending.cancelledBy))
  }

  predicate Regular(j: Job) { j.attempts <= j.maxAttempts && Released(j) }

  /** At most one job carries a lease request, no job has used more attempts than it has, and
      finished jobs are released. */
  predicate Valid(jobs: seq<Job>) {
    && (forall i :: 0 <= i < |jobs| ==> Regular(jobs[i]))
    && (forall i, j :: 0 <= i < j < |jobs| ==> DifferentRequests(jobs[i], jobs[j]))
  }

  predicate DifferentRequests(a: Job, b: Job) { a.hold.requestId.Some? ==> a.hold.requestId != b.hold.requestId }

  lemma UpdateKeepsValid(jobs: seq<Job>, i: nat, j: Job)
    requires Valid(jobs) && i < |jobs| && Regular(j)
    requires j.hold.requestId == jobs[i].hold.requestId || forall k :: 0 <= k < |jobs| ==>
      jobs[k].hold.requestId != j.hold.requestId
    ensures Valid(jobs[i := j])
  {
    var after := jobs[i := j];
    forall a, b | 0 <= a < b < |jobs| ensures DifferentRequests(after[a], after[b]) {
      assert DifferentRequests(jobs[a], jobs[b]);
    }
  }

  method Grant(given: Job, input: Lease, now: int) returns (j: Job)
    ensures j == GrantTo(given, input, now)
  {
    var startedAt, updatedBy := given.startedAt, given.updatedBy;
    if startedAt.None? { startedAt := Some(now); }
    if Named(input.adminUserId) { updatedBy := input.adminUserId; }
    var reclaimed := given.status == Running;
    j := given.(status := Running, startedAt := startedAt, attempts := given.attempts + 1,
                hold := HoldFor(given.hold, input, now), updatedAt := now, updatedBy := updatedBy,
                logs := AppendLog(given.logs,
                  Log(now, reclaimed, if reclaimed then Reclaimed(input.workerId) else Leased(input.workerId))));
  }

  class JobQueue {
    var jobs: seq<Job>

    constructor (initial: seq<Job>)
      requires Valid(initial)
      ensures jobs == initial && Valid(jobs)
    {
      jobs := initial;
    }

    method LeaseNext(input: Lease, now: int) returns (r: LeaseResult)
      requires Valid(jobs)
      modifies this
      ensures r == LeaseOutcome(old(jobs), input, now)
      ensures jobs == AfterLease(old(jobs), input, now) && Valid(jobs)
      ensures !r.Granted? ==> jobs == old(jobs)
    {
      var replay := FindRequest(jobs, input.requestId);
      if replay.Some? {
        var j := jobs[replay.value];
        if j.hold.leasedBy != Some(input.workerId) || j.hold.requestHash != Some(input.requestHash)
          || j.hold.revision == 0 {
          return Conflict;
        }
        return Replayed(replay.value);
      }
      FirstIsTheOne(jobs, input.kinds, now);
      var next := NextJob(jobs, input.kinds, now);
      if next.None? { return Idle; }
      LeaseKeepsValid(jobs, input, now);
      var j := Grant(jobs[next.value], input, now);
      jobs := jobs[next.value := j];
      r := Granted(next.value);
    }

    method Transition(i: nat, next: Status, admin: Option<Name>, now: int) returns (problem: Option<TransitionError>)
      requires Valid(jobs) && i < |jobs|
      modifies this
      ensures problem == TransitionProblem(old(jobs)[i], next, admin)
      ensures jobs == old(jobs)[i := Moved(old(jobs)[i], next, admin, now)] && Valid(jobs)
    {
      var j := jobs[i];
      if j.status == next { return None; }
      if !Allowed(j.status, next) { return Some(NotAllowed); }
      if next == Cancelled && !Named(admin) { return Some(OnlyAdmins); }
      if next == Running && j.attempts >= j.maxAttempts { return Some(NoAttemptsLeft); }
      MovedProgresses(j, next, admin, now);
      UpdateKeepsValid(jobs, i, Moved(j, next, admin, now));
      j := Move(j, next, admin, now);
      jobs := jobs[i := j];
      problem := None;
    }
  }

  method Move(given: Job, next: Status, admin: Option<Name>, now: int) returns (j: Job)
    requires given.status != next && TransitionProblem(given, next, admin).None?
    ensures j == Moved(given, next, admin, now)
  {
    var ending, hold := given.ending, given.hold;
    if next == Succeeded || next == Failed { ending := ending.(completedAt := Some(now)); }
    if next == Cancelled { ending := Ending(Some(now), Some(now), admin); }
    if Terminal(next) { hold := hold.(leasedBy := None, expiresAt := None, lastHeartbeatAt := None); }
    var logs := AppendLog(given.logs, Log(now, next == Failed || next == Cancelled, Marked(next)));
    j := given.(status := next, ending := ending, hold := hold, logs := logs);
    if next == Running { j := j.(startedAt := Some(now), attempts := given.attempts + 1); }
  }

  lemma LeaseKeepsValid(jobs: seq<Job>, input: Lease, now: int)
    requires Valid(jobs)
    ensures Valid(AfterLease(jobs, input, now))
    ensures LeaseOutcome(jobs, input, now).Granted? ==> LeaseOutcome(jobs, input, now).at < |jobs|
  {
    FirstIsTheOne(jobs, input.kinds, now);
    var r := LeaseOutcome(jobs, input, now);
    if r.Granted? { UpdateKeepsValid(jobs, r.at, GrantTo(jobs[r.at], input, now)); }
  }

  /** Only a waiting job with attempts left, or one whose lease ran out, is granted: never a
      finished one, never one whose lease still runs. */
  lemma GrantsOnlyFree(jobs: seq<Job>, input: Lease, now: int)
    requires LeaseOutcome(jobs, input, now).Granted?
    ensures var k, after := LeaseOutcome(jobs, input, now).at, AfterLease(jobs, input, now);
      && IsFirst(jobs, input.kinds, now, k) && |after| == |jobs|
      && !Terminal(jobs[k].status) && jobs[k].attempts < jobs[k].maxAttempts
      && (jobs[k].status == Running ==> Expired(jobs[k], now))
      && after[k].attempts == jobs[k].attempts + 1 && after[k].hold.revision == jobs[k].hold.revision + 1
      && after[k].status == Running && SameLease(after[k], input) && after[k].hold.requestId == Some(input.requestId)
      && after[k].hold.expiresAt == Some(now + input.leaseSeconds * 1000)
      && (forall i :: 0 <= i < |jobs| && i != k ==>
        after[i] == jobs[i] && after[i].hold.requestId != Some(input.requestId))
  {
    FirstIsTheOne(jobs, input.kinds, now);
  }

  // ----- Who gets what -----

  /** The job is of a wanted kind, has attempts left, and nobody holds it: it waits, or the lease
      it runs under has ended. */
  ghost predicate Free(j: Job, input: Lease, now: int) {
    && (input.kinds.Some? ==> j.kind in input.kinds.value) && j.attempts < j.maxAttempts
    && match j.status
       case Queued => true
       case Running => j.hold.expiresAt.Some? && j.hold.expiresAt.value <= now
       case _ => false
  }

  /** A request that was used before is replayed for the worker and the wish it was used with and
      a conflict otherwise. A new one gets the free job that was queued first, the first in the
      list among several, and none exactly when no job is free. */
  lemma LeaseDecided(jobs: seq<Job>, input: Lease, now: int)
    ensures match LeaseOutcome(jobs, input, now)
      case Replayed(k) =>
        && k < |jobs| && jobs[k].hold.requestId == Some(input.requestId) && jobs[k].hold.revision != 0
        && jobs[k].hold.leasedBy == Some(input.workerId) && jobs[k].hold.requestHash == Some(input.requestHash)
      case Conflict =>
        exists k :: 0 <= k < |jobs| && jobs[k].hold.requestId == Some(input.requestId)
          && (jobs[k].hold.leasedBy == Some(input.workerId) && jobs[k].hold.requestHash == Some(input.requestHash)
              ==> jobs[k].hold.revision == 0)
      case Granted(k) =>
        && (forall i :: 0 <= i < |jobs| ==> jobs[i].hold.requestId != Some(input.requestId))
        && k < |jobs| && Free(jobs[k], input, now)
        && (forall i :: 0 <= i < |jobs| && Free(jobs[i], input, now) ==> jobs[k].queuedAt <= jobs[i].queuedAt)
        && (forall i :: 0 <= i < k && Free(jobs[i], input, now) ==> jobs[k].queuedAt < jobs[i].queuedAt)
      case Idle =>
        forall i :: 0 <= i < |jobs| ==>
          jobs[i].hold.requestId != Some(input.requestId) && !Free(jobs[i], input, now)
  {
    FirstIsTheOne(jobs, input.kinds, now);
    forall i | 0 <= i < |jobs| ensures Free(jobs[i], input, now) <==> Eligible(jobs[i], input.kinds, now) {}
  }

  /** The moves there are: waiting jobs start or are cancelled, running ones succeed, fail or are
      cancelled. Only an administrator cancels, and a start needs an attempt. */
  lemma TransitionDecided(j: Job, next: Status, admin: Option<Name>)
    ensures var moves := {(Queued, Running), (Queued, Cancelled), (Running, Succeeded), (Running, Failed),
                          (Running, Cancelled)};
      TransitionProblem(j, next, admin) ==
        if next == j.status then None
        else if (j.status, next) !in moves then Some(NotAllowed)
        else if next == Cancelled && (admin == None || admin == Some("")) then Some(OnlyAdmins)
        else if next == Running && !(j.attempts < j.maxAttempts) then Some(NoAttemptsLeft)
        else None
  {}

  // ----- Runs -----

  datatype Step =
    | LeaseStep(input: Lease, now: int)
    | MoveStep(i: nat, next: Status, admin: Option<Name>, now: int)

  function After(jobs: seq<Job>, step: Step): seq<Job> {
    match step
    case LeaseStep(input, now) => AfterLease(jobs, input, now)
    case MoveStep(i, next, admin, now) => if i < |jobs| then jobs[i := Moved(jobs[i], next, admin, now)] else jobs
  }

  function Run(jobs: seq<Job>, steps: seq<Step>): seq<Job>
    decreases |steps|
  {
    if steps == [] then jobs else Run(After(jobs, steps[0]), steps[1..])
  }

  predicate Grants(jobs: seq<Job>, step: Step) { step.LeaseStep? && LeaseOutcome(jobs, step.input, step.now).Granted? }

  function GrantCount(jobs: seq<Job>, steps: seq<Step>): nat
    decreases |steps|
  {
    if steps == [] then 0 else (if Grants(jobs, steps[0]) then 1 else 0) + GrantCount(After(jobs, steps[0]), steps[1..])
  }

  function Remaining(jobs: seq<Job>): int {
    if jobs == [] then 0 else jobs[0].maxAttempts - jobs[0].attempts + Remaining(jobs[1..])
  }

  lemma {:induction false} RemainingUpdated(jobs: seq<Job>, i: nat, j: Job)
    requires i < |jobs|
    ensures Remaining(jobs[i := j])
      == Remaining(jobs) - (jobs[i].maxAttempts - jobs[i].attempts) + (j.maxAttempts - j.attempts)
  {
    if i > 0 {
      RemainingUpdated(jobs[1..], i - 1, j);
      assert jobs[i := j][1..] == jobs[1..][i - 1 := j];
    }
  }

  lemma {:induction false} RemainingIsNatural(jobs: seq<Job>)
    requires Valid(jobs)
    ensures Remaining(jobs) >= 0
  {
    if jobs != [] { RemainingIsNatural(jobs[1..]); }
  }

  /** How a job may have changed over a run. */
  predicate Progressed(before: Job, after: Job) {
    && after.maxAttempts == before.maxAttempts && after.kind == before.kind && after.queuedAt == before.queuedAt
    && before.attempts <= after.attempts <= after.maxAttempts
    && before.hold.revision <= after.hold.revision
    && after.hold.revision - before.hold.revision <= after.attempts - before.attempts
    && (Terminal(before.status) ==> after == before)
    && (after.status == Queued ==> before.status == Queued)
  }

  lemma LeaseProgresses(jobs: seq<Job>, input: Lease, now: int)
    requires Valid(jobs)
    ensures var after := AfterLease(jobs, input, now);
      && Valid(after) && |after| == |jobs| && (forall k :: 0 <= k < |jobs| ==> Progressed(jobs[k], after[k]))
      && Remaining(after) <= Remaining(jobs) - if LeaseOutcome(jobs, input, now).Granted? then 1 else 0
  {
    LeaseKeepsValid(jobs, input, now);
    var r := LeaseOutcome(jobs, input, now);
    if r.Granted? {
      GrantsOnlyFree(jobs, input, now);
      RemainingUpdated(jobs, r.at, GrantTo(jobs[r.at], input, now));
    }
  }

  lemma MovedProgresses(j: Job, next: Status, admin: Option<Name>, now: int)
    requires Regular(j)
    ensures Regular(Moved(j, next, admin, now)) && Progressed(j, Moved(j, next, admin, now))
    ensures Moved(j, next, admin, now).hold.requestId == j.hold.requestId
  {}

  lemma MoveProgresses(jobs: seq<Job>, i: nat, next: Status, admin: Option<Name>, now: int)
    requires Valid(jobs) && i < |jobs|
    ensures var after := jobs[i := Moved(jobs[i], next, admin, now)];
      && Valid(after) && (forall k :: 0 <= k < |jobs| ==> Progressed(jobs[k], after[k]))
        && Remaining(after) <= Remaining(jobs)
  {
    MovedProgresses(jobs[i], next, admin, now);
    UpdateKeepsValid(jobs, i, Moved(jobs[i], next, admin, now));
    RemainingUpdated(jobs, i, Moved(jobs[i], next, admin, now));
  }

  lemma StepProgresses(jobs: seq<Job>, step: Step)
    requires Valid(jobs)
    ensures Valid(After(jobs, step)) && |After(jobs, step)| == |jobs|
    ensures forall k :: 0 <= k < |jobs| ==> Progressed(jobs[k], After(jobs, step)[k])
    ensures Remaining(After(jobs, step)) <= Remaining(jobs) - if Grants(jobs, step) then 1 else 0
  {
    match step
    case LeaseStep(input, now) => LeaseProgresses(jobs, input, now);
    case MoveStep(i, next, admin, now) => if i < |jobs| { MoveProgresses(jobs, i, next, admin, now); }
  }

  /** Over any run: attempts stay within their bound, a lease request stays with one job, finished
      jobs never change, lease revisions only grow, and each grant uses up an attempt. */
  lemma {:induction false} RunKeeps(jobs: seq<Job>, steps: seq<Step>)
    requires Valid(jobs)
    ensures Valid(Run(jobs, steps)) && |Run(jobs, steps)| == |jobs|
    ensures forall k :: 0 <= k < |jobs| ==> Progressed(jobs[k], Run(jobs, steps)[k])
    ensures GrantCount(jobs, steps) <= Remaining(jobs) - Remaining(Run(jobs, steps)) <= Remaining(jobs)
    decreases |steps|
  {
    RemainingIsNatural(jobs);
    if steps != [] {
      StepProgresses(jobs, steps[0]);
      RunKeeps(After(jobs, steps[0]), steps[1..]);
      var mid, end := After(jobs, steps[0]), Run(jobs, steps);
      RemainingIsNatural(end);
      forall k | 0 <= k < |jobs| ensures Progressed(jobs[k], end[k]) {
        assert Progressed(jobs[k], mid[k]) && Progressed(mid[k], end[k]);
      }
    }
  }

  /** Steps before `expiry` that do not move job `k`. */
  ghost predicate LeavesAlone(steps: seq<Step>, k: nat, expiry: int) {
    forall s <- steps :: if s.LeaseStep? then s.now < expiry else s.i != k
  }

  /** Until its lease runs out or its status is moved, a leased job stays exactly as it was
      granted, whatever other workers ask for. */
  lemma {:induction false} LeaseIsExclusive(jobs: seq<Job>, steps: seq<Step>, k: nat, expiry: int)
    requires Valid(jobs) && k < |jobs| && jobs[k].status == Running && jobs[k].hold.expiresAt == Some(expiry)
    requires LeavesAlone(steps, k, expiry)
    ensures |Run(jobs, steps)| == |jobs| && Run(jobs, steps)[k] == jobs[k]
    decreases |steps|
  {
    if steps != [] {
      var step := steps[0];
      assert step in steps;
      StepProgresses(jobs, step);
      if Grants(jobs, step) { GrantsOnlyFree(jobs, step.input, step.now); }
      LeaseIsExclusive(After(jobs, step), steps[1..], k, expiry);
    }
  }

  /** While the lease runs, asking again with the same request gives the same job and changes
      nothing; asking as another worker, or for something else, is a conflict. */
  lemma ReplayWhileLeased(jobs: seq<Job>, input: Lease, now: int, steps: seq<Step>, again: Lease, later: int)
    requires Valid(jobs) && LeaseOutcome(jobs, input, now).Granted?
    requires var k := LeaseOutcome(jobs, input, now).at; LeavesAlone(steps, k, now + input.leaseSeconds * 1000)
    requires again.requestId == input.requestId
    ensures var k, end := LeaseOutcome(jobs, input, now).at, Run(AfterLease(jobs, input, now), steps);
      var same := again.workerId == input.workerId && again.requestHash == input.requestHash;
      && LeaseOutcome(end, again, later) == (if same then Replayed(k) else Conflict)
      && AfterLease(end, again, later) == end
  {
    var k, granted := LeaseOutcome(jobs, input, now).at, AfterLease(jobs, input, now);
    LeaseKeepsValid(jobs, input, now);
    GrantsOnlyFree(jobs, input, now);
    LeaseIsExclusive(granted, steps, k, now + input.leaseSeconds * 1000);
    RunKeeps(granted, steps);
    var end := Run(granted, steps);
    var found := FindRequest(end, again.requestId);
    assert found == Some(k);
  }
}
