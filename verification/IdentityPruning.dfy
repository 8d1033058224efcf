/** Pruning and revoking sessions and password resets on the strength of a previewed digest. */
module IdentityPruning {
  import opened Json
  import opened OperatorTargets
  import opened Sequences

  const MS_PER_DAY := 86400000

  /** A time is absent when its text does not parse. */
  datatype Session = Session(id: string, userId: string, updatedAt: string, expiresAt: Option<int>,
    lastSeenAt: Option<int>)
  datatype Reset = Reset(id: string, userId: string, updatedAt: string, used: bool, expiresAt: Option<int>)
  datatype User = User(id: string, disabled: bool)

  datatype Reason = Expired | Stale | DisabledUser | UnknownUser

  datatype Report = Report(targetSetHash: string, matched: nat, removed: nat)
  datatype Result = Ok(report: Report) | Refused(why: Verdict)

  function SessionTarget(s: Session): Target { Target(s.id, s.updatedAt) }
  function ResetTarget(r: Reset): Target { Target(r.id, r.updatedAt) }

  function FindUser(users: seq<User>, id: string): Option<User> {
    if users == [] then None else if users[0].id == id then Some(users[0]) else FindUser(users[1..], id)
  }

  function Reasons(users: seq<User>, s: Session, staleDays: nat, now: int): set<Reason> {
    var user := FindUser(users, s.userId);
    var expired := s.expiresAt.None? || s.expiresAt.value <= now;
    var stale := !expired && s.lastSeenAt.Some? && now - s.lastSeenAt.value >= staleDays * MS_PER_DAY;
    (if expired then {Expired} else {}) + (if stale then {Stale} else {})
    + (if user.Some? && user.value.disabled then {DisabledUser} else {}) + (if user.None? then {UnknownUser} else {})
  }

  function AtRisk(users: seq<User>, staleDays: nat, reasons: set<Reason>, now: int): Session -> bool {
    (s: Session) => Reasons(users, s, staleDays, now) * reasons != {}
  }

  function PastExpiry(now: int): Session -> bool { (s: Session) => s.expiresAt.Some? && s.expiresAt.value <= now }

  function OfUser(userId: string): Session -> bool { (s: Session) => s.userId == userId }

  function Spent(includeUsed: bool, includeExpired: bool, now: int): Reset -> bool {
    (r: Reset) => (includeUsed && r.used) || (includeExpired && r.expiresAt.Some? && r.expiresAt.value <= now)
  }

  /** The digest tells records apart by id and by revision. */
  lemma TargetsTellApart(s: Session, t: Session, r: Reset, u: Reset)
    ensures SessionTarget(s) == SessionTarget(t) <==> s.id == t.id && s.updatedAt == t.updatedAt
    ensures ResetTarget(r) == ResetTarget(u) <==> r.id == u.id && r.updatedAt == u.updatedAt
  {}

  /** Why a session is at risk. A session whose expiry does not parse has expired; one that has
      expired is not stale. */
  ghost predicate IsAtRisk(users: seq<User>, s: Session, staleDays: nat, now: int, reason: Reason) {
    var live := s.expiresAt.Some? && now < s.expiresAt.value;
    match reason
    case Expired => !live
    case Stale => live && s.lastSeenAt.Some? && s.lastSeenAt.value + staleDays * 86400000 <= now
    case DisabledUser =>
      exists i :: 0 <= i < |users| && users[i].id == s.userId && users[i].disabled
        && forall k :: 0 <= k < i ==> users[k].id != s.userId
    case UnknownUser => forall u <- users :: u.id != s.userId
  }

  lemma {:induction false} FindUserIs(users: seq<User>, id: string)
    ensures match FindUser(users, id)
      case Some(u) =>
        exists i :: 0 <= i < |users| && users[i] == u && u.id == id && forall k :: 0 <= k < i ==> users[k].id != id
      case None => forall u <- users :: u.id != id
  {
    if users != [] && users[0].id != id {
      FindUserIs(users[1..], id);
      var u := FindUser(users[1..], id);
      if u.Some? {
        var i :| 0 <= i < |users[1..]| && users[1..][i] == u.value
          && forall k :: 0 <= k < i ==> users[1..][k].id != id;
        forall k | 0 <= k < i + 1 ensures users[k].id != id { assert k > 0 ==> users[k] == users[1..][k - 1]; }
        assert users[i + 1] == u.value;
      }
    }
  }

  lemma ReasonsAre(users: seq<User>, s: Session, staleDays: nat, now: int, reason: Reason)
    ensures reason in Reasons(users, s, staleDays, now) <==> IsAtRisk(users, s, staleDays, now, reason)
  {
    FindUserIs(users, s.userId);
  }

  lemma AtRiskIs(users: seq<User>, s: Session, staleDays: nat, reasons: set<Reason>, now: int)
    ensures AtRisk(users, staleDays, reasons, now)(s) <==>
      exists reason <- reasons :: IsAtRisk(users, s, staleDays, now, reason)
  {
    forall reason { ReasonsAre(users, s, staleDays, now, reason); }
    if reason :| reason in reasons && IsAtRisk(users, s, staleDays, now, reason) {
      assert reason in Reasons(users, s, staleDays, now) * reasons;
    }
    if AtRisk(users, staleDays, reasons, now)(s) {
      var reason :| reason in Reasons(users, s, staleDays, now) * reasons;
    }
  }

  /** What an execution under `expected` does to records of which `matched` are selected. */
  ghost predicate Executed<R>(
    before: seq<R>, after: seq<R>, matched: R -> bool, target: R -> Target,
    dryRun: bool, expected: Option<string>, sha: string -> string, r: Result)
  {
    var m := Filter(before, matched);
    var hash := TargetSetHash(Map(m, target), sha);
    && r == (if dryRun then Ok(Report(hash, |m|, 0))
             else if Check(expected, hash) == Proceed then Ok(Report(hash, |m|, |m|))
             else Refused(Check(expected, hash)))
    && after == (if !dryRun && r.Ok? then Filter(before, Not(matched)) else before)
  }

  /** Executing with a digest previewed for `previewed` either changes nothing or removes exactly
      the previewed (id, revision) pairs; and it does the latter whenever those are the pairs
      selected now. */
  lemma ExecutionRemovesPreviewed<R>(
    before: seq<R>, after: seq<R>, matched: R -> bool, target: R -> Target, sha: string -> string, r: Result,
    previewed: seq<Target>)
    requires Digest(sha) && UniqueIds(before, target)
    requires Executed(before, after, matched, target, false, Some(TargetSetHash(previewed, sha)), sha, r)
    ensures r.Ok? <==> multiset(previewed) == multiset(Map(Filter(before, matched), target))
    ensures r.Ok? ==> multiset(Map(before, target)) == multiset(previewed) + multiset(Map(after, target))
    ensures r.Refused? ==> after == before && r.why == TargetSetChanged
  {
    PreviewDecides(previewed, Map(Filter(before, matched), target), sha);
    RemovalIsExact(before, matched, target);
  }

  class IdentityStore {
    var users: seq<User>
    var sessions: seq<Session>
    var resets: seq<Reset>

    ghost predicate Valid()
      reads this
    {
      && (forall i, j :: 0 <= i < j < |sessions| ==> sessions[i].id != sessions[j].id)
      && (forall i, j :: 0 <= i < j < |resets| ==> resets[i].id != resets[j].id)
    }

    constructor (users: seq<User>, sessions: seq<Session>, resets: seq<Reset>)
      requires forall i, j :: 0 <= i < j < |sessions| ==> sessions[i].id != sessions[j].id
      requires forall i, j :: 0 <= i < j < |resets| ==> resets[i].id != resets[j].id
      ensures Valid() && this.users == users && this.sessions == sessions && this.resets == resets
    {
      this.users, this.sessions, this.resets := users, sessions, resets;
    }

    method RemoveSessions(matched: Session -> bool, dryRun: bool, expected: Option<string>, sha: string -> string)
      returns (r: Result)
      requires Valid()
      modifies this`sessions
      ensures Executed(old(sessions), sessions, matched, SessionTarget, dryRun, expected, sha, r)
      ensures Valid()
    {
      var m := Filter(sessions, matched);
      var hash := TargetSetHash(Map(m, SessionTarget), sha);
      if dryRun { return Ok(Report(hash, |m|, 0)); }
      var verdict := Check(expected, hash);
      if verdict != Proceed { return Refused(verdict); }
      RemovalIsExact(sessions, matched, SessionTarget);
      FilterKeepsUnique(sessions, Not(matched), SessionTarget);
      sessions := Filter(sessions, WithoutIds(IdsOf(m, SessionTarget), SessionTarget));
      r := Ok(Report(hash, |m|, |m|));
    }

    method PruneSessions(dryRun: bool, expected: Option<string>, now: int, sha: string -> string) returns (r: Result)
      requires Valid()
      modifies this`sessions
      ensures Executed(old(sessions), sessions, PastExpiry(now), SessionTarget, dryRun, expected, sha, r)
      ensures if r.Ok? && !dryRun
        then Thinned(old(sessions), sessions, (s: Session) => !(s.expiresAt.Some? && s.expiresAt.value <= now))
        else sessions == old(sessions)
      ensures Valid()
    {
      FilterLeaves(sessions, Not(PastExpiry(now)), (s: Session) => !(s.expiresAt.Some? && s.expiresAt.value <= now));
      r := RemoveSessions(PastExpiry(now), dryRun, expected, sha);
    }

    method RevokeRiskSessions(
      staleDays: nat, reasons: set<Reason>, dryRun: bool, expected: Option<string>, now: int, sha: string -> string)
      returns (r: Result)
      requires Valid()
      modifies this`sessions
      ensures Executed(old(sessions), sessions, AtRisk(users, staleDays, reasons, now), SessionTarget, dryRun, expected,
        sha, r)
      ensures var all := users;
        if r.Ok? && !dryRun
        then Thinned(old(sessions), sessions,
          (s: Session) => forall reason <- reasons :: !IsAtRisk(all, s, staleDays, now, reason))
        else sessions == old(sessions)
      ensures Valid()
    {
      ghost var all := users;
      forall s <- sessions { AtRiskIs(users, s, staleDays, reasons, now); }
      FilterLeaves(sessions, Not(AtRisk(users, staleDays, reasons, now)),
        (s: Session) => forall reason <- reasons :: !IsAtRisk(all, s, staleDays, now, reason));
      r := RemoveSessions(AtRisk(users, staleDays, reasons, now), dryRun, expected, sha);
    }

    method RevokeUserSessions(userId: string, expected: Option<string>, sha: string -> string) returns (r: Result)
      requires Valid()
      modifies this`sessions
      ensures Executed(old(sessions), sessions, OfUser(userId), SessionTarget, false, expected, sha, r)
      ensures if r.Ok? then Thinned(old(sessions), sessions, (s: Session) => s.userId != userId)
        else sessions == old(sessions)
      ensures Valid()
    {
      FilterLeaves(sessions, Not(OfUser(userId)), (s: Session) => s.userId != userId);
      r := RemoveSessions(OfUser(userId), false, expected, sha);
    }

    method PruneResets(
      includeUsed: bool, includeExpired: bool, dryRun: bool, expected: Option<string>, now: int, sha: string -> string)
      returns (r: Result)
      requires Valid()
      modifies this`resets
      ensures Executed(old(resets), resets, Spent(includeUsed, includeExpired, now), ResetTarget, dryRun, expected, sha,
        r)
      ensures if r.Ok? && !dryRun
        then Thinned(old(resets), resets, (x: Reset) =>
          (includeUsed ==> !x.used) && (includeExpired && x.expiresAt.Some? ==> now < x.expiresAt.value))
        else resets == old(resets)
      ensures Valid()
    {
      var matched := Spent(includeUsed, includeExpired, now);
      FilterLeaves(resets, Not(matched), (x: Reset) =>
        (includeUsed ==> !x.used) && (includeExpired && x.expiresAt.Some? ==> now < x.expiresAt.value));
      var m := Filter(resets, matched);
      var hash := TargetSetHash(Map(m, ResetTarget), sha);
      if dryRun { return Ok(Report(hash, |m|, 0)); }
      var verdict := Check(expected, hash);
      if verdict != Proceed { return Refused(verdict); }
      RemovalIsExact(resets, matched, ResetTarget);
      FilterKeepsUnique(resets, Not(matched), ResetTarget);
      resets := Filter(resets, WithoutIds(IdsOf(m, ResetTarget), ResetTarget));
      r := Ok(Report(hash, |m|, |m|));
    }
  }

  lemma {:induction false} FilterKeepsUnique<R>(rs: seq<R>, keep: R -> bool, target: R -> Target)
    requires UniqueIds(rs, target)
    ensures UniqueIds(Filter(rs, keep), target)
  {
    if rs != [] {
      FilterKeepsUnique(rs[1..], keep, target);
      var rest := Filter(rs[1..], keep);
      forall j | 0 <= j < |rest| ensures target(rest[j]).id != target(rs[0]).id {
        assert rest[j] in rs[1..];
        var k :| 1 <= k < |rs| && rs[k] == rest[j];
      }
    }
  }

  /** Where session pruning and risk revocation disagree: a session whose expiry does not parse
      is expired for the risk report and never pruned. */
  lemma UnparsedExpiry(users: seq<User>, s: Session, staleDays: nat, now: int)
    ensures Expired in Reasons(users, s, staleDays, now) <==> PastExpiry(now)(s) || s.expiresAt.None?
  {}

  /** Such a session goes when a previewed revocation of expired sessions is executed, and stays
      whatever pruning is executed. */
  lemma RevokedButNotPruned(sha: string -> string) returns (s: Session, hash: string)
    requires Digest(sha)
    ensures forall users, staleDays: nat, now ::
      Executed([s], [], AtRisk(users, staleDays, {Expired}, now), SessionTarget,
              false, Some(hash), sha, Ok(Report(hash, 1, 1)))
    ensures forall after, expected, now, r ::
              Executed([s], after, PastExpiry(now), SessionTarget, false, expected, sha, r) ==> after == [s]
  {
    s := Session("ses", "usr", "r1", None, None);
    hash := TargetSetHash([SessionTarget(s)], sha);
    PreviewDecides([SessionTarget(s)], [SessionTarget(s)], sha);
    forall users, staleDays: nat, now
      ensures Executed([s], [], AtRisk(users, staleDays, {Expired}, now), SessionTarget, false, Some(hash), sha,
        Ok(Report(hash, 1, 1)))
    {
      UnparsedExpiry(users, s, staleDays, now);
      var atRisk := AtRisk(users, staleDays, {Expired}, now);
      assert Expired in Reasons(users, s, staleDays, now) * {Expired};
      assert Filter([s], atRisk) == [s] && Filter([s], Not(atRisk)) == [];
      assert Map([s], SessionTarget) == [SessionTarget(s)];
    }
    forall after, expected, now, r | Executed([s], after, PastExpiry(now), SessionTarget, false, expected, sha, r)
      ensures after == [s]
    {
      assert Filter([s], Not(PastExpiry(now))) == [s];
    }
  }
}
