/** Deleting finished operational records, oldest first, on the strength of a previewed digest. */
module OperationalRetention {
  import opened Json
  import opened StablePrinter
  import opened Texts
  import opened Sequences

  const DEFAULT_BATCH := 100
  const MS_PER_DAY := 86400000

  datatype Class = Emails | Webhooks | Jobs

  /** A completion time as text, and as a number when it parses. */
  datatype Stamp = Stamp(text: string, ms: Option<int>)

  /** `terminal`: delivered, or for a job, a maintenance job that succeeded or was cancelled. */
  datatype Entry = Entry(id: string, terminal: bool, finishedAt: Option<Stamp>, cancelledAt: Option<Stamp>,
    updatedAt: Stamp)

  datatype Candidate = Candidate(recordClass: Class, id: string, completedAt: string)

  datatype Records = Records(emails: seq<Entry>, webhooks: seq<Entry>, jobs: seq<Entry>)

  datatype Request = Request(
    classes: seq<Class>, olderThanDays: int, batchSize: Option<int>, dryRun: bool,
    targetSetHash: Option<string>, reason: Option<string>)

  datatype Problem = InvalidRequest | TargetSetChanged
  datatype Result<+T> = Ok(value: T) | Refused(why: Problem)

  datatype Plan = Plan(candidates: seq<Candidate>, selected: seq<Candidate>, targetSetHash: string)

  function ClassName(c: Class): string {
    match c
    case Emails => "delivered_emails"
    case Webhooks => "delivered_webhooks"
    case Jobs => "maintenance_jobs"
  }

  /** `cancelledAt` is only ever present on jobs. */
  function CompletedAt(e: Entry): Stamp {
    if e.finishedAt.Some? then e.finishedAt.value else if e.cancelledAt.Some? then e.cancelledAt.value else e.updatedAt
  }

  predicate Eligible(e: Entry, cutoff: int) {
    e.terminal && CompletedAt(e).ms.Some? && CompletedAt(e).ms.value < cutoff
  }

  function Collect(recordClass: Class, es: seq<Entry>, cutoff: int): seq<Candidate> {
    if es == [] then []
    else
      var before, e := Collect(recordClass, es[..|es| - 1], cutoff), es[|es| - 1];
      if Eligible(e, cutoff) then before + [Candidate(recordClass, e.id, CompletedAt(e).text)] else before
  }

  method CollectEligible(recordClass: Class, es: seq<Entry>, cutoff: int) returns (cs: seq<Candidate>)
    ensures cs == Collect(recordClass, es, cutoff)
  {
    cs := [];
    for n := 0 to |es|
      invariant cs == Collect(recordClass, es[..n], cutoff)
    {
      assert es[..n + 1][..n] == es[..n];
      if Eligible(es[n], cutoff) { cs := cs + [Candidate(recordClass, es[n].id, CompletedAt(es[n]).text)]; }
    }
    assert es[..|es|] == es;
  }

  function Gathered(s: Records, classes: seq<Class>, cutoff: int): seq<Candidate> {
    (if Emails in classes then Collect(Emails, s.emails, cutoff) else [])
    + (if Webhooks in classes then Collect(Webhooks, s.webhooks, cutoff) else [])
    + (if Jobs in classes then Collect(Jobs, s.jobs, cutoff) else [])
  }

  predicate Before(a: Candidate, b: Candidate) {
    if a.completedAt != b.completedAt then Leq(a.completedAt, b.completedAt)
    else if a.recordClass != b.recordClass then Leq(ClassName(a.recordClass), ClassName(b.recordClass))
    else Leq(a.id, b.id)
  }

  function Candidates(s: Records, classes: seq<Class>, cutoff: int): seq<Candidate> {
    SortBy(Gathered(s, classes, cutoff), Before)
  }

  // ----- The digest -----

  function CandidateValue(c: Candidate): Value {
    Array([Value.Text(ClassName(c.recordClass)), Value.Text(c.id), Value.Text(c.completedAt)])
  }

  function HashCandidates(cs: seq<Candidate>, sha: string -> string): string {
    sha(StablePrinter.Text(Array(Map(cs, CandidateValue))))
  }

  ghost predicate NeverCollides(sha: string -> string) {
    forall a, b {:trigger sha(a), sha(b)} :: sha(a) == sha(b) ==> a == b
  }

  lemma CollapsedCandidate(c: Candidate)
    ensures Collapse(CandidateValue(c)) == CandidateValue(c)
  {
    var a, b, d := Value.Text(ClassName(c.recordClass)), Value.Text(c.id), Value.Text(c.completedAt);
    assert CollapseItems([d]) == [d];
    assert [b, d][1..] == [d] && CollapseItems([b, d]) == [b, d];
    assert [a, b, d][1..] == [b, d] && CollapseItems([a, b, d]) == [a, b, d];
  }

  lemma {:induction false} CollapsedCandidates(cs: seq<Candidate>)
    ensures CollapseItems(Map(cs, CandidateValue)) == Map(cs, CandidateValue)
  {
    if cs != [] {
      CollapsedCandidate(cs[0]);
      assert Map(cs, CandidateValue)[1..] == Map(cs[1..], CandidateValue);
      CollapsedCandidates(cs[1..]);
    }
  }

  lemma ClassNameInjective(a: Class, b: Class)
    ensures ClassName(a) == ClassName(b) ==> a == b
  {
    assert |ClassName(Emails)| == 16 && ClassName(Emails)[10] == 'e';
    assert |ClassName(Webhooks)| == 18;
    assert |ClassName(Jobs)| == 16 && ClassName(Jobs)[10] == 'e' && ClassName(Jobs)[0] == 'm'
      && ClassName(Emails)[0] == 'd';
  }

  /** The digest determines the list of candidates, order included. */
  lemma HashIdentifiesCandidates(a: seq<Candidate>, b: seq<Candidate>, sha: string -> string)
    requires NeverCollides(sha)
    ensures HashCandidates(a, sha) == HashCandidates(b, sha) <==> a == b
  {
    if HashCandidates(a, sha) == HashCandidates(b, sha) {
      var v, w := Array(Map(a, CandidateValue)), Array(Map(b, CandidateValue));
      Rest(StablePrinter.Text(v), "");
      Rest(StablePrinter.Text(w), "");
      TextUnambiguous(v, w, "", "");
      CollapsedCandidates(a);
      CollapsedCandidates(b);
      assert v.items != [Undefined] && w.items != [Undefined] by {
        if a != [] { assert v.items[0].Array?; }
        if b != [] { assert w.items[0].Array?; }
      }
      assert v == w;
      forall i | 0 <= i < |a| ensures a[i] == b[i] {
        assert CandidateValue(a[i]) == v.items[i] == w.items[i] == CandidateValue(b[i]);
        assert CandidateValue(a[i]).items[0] == CandidateValue(b[i]).items[0];
        assert CandidateValue(a[i]).items[1] == CandidateValue(b[i]).items[1];
        assert CandidateValue(a[i]).items[2] == CandidateValue(b[i]).items[2];
        ClassNameInjective(a[i].recordClass, b[i].recordClass);
      }
    }
  }

  // ----- Planning and applying -----

  function PlanRetention(s: Records, req: Request, now: int, sha: string -> string): Result<Plan> {
    var batch := BatchOf(req);
    if !(1 <= req.olderThanDays <= 3650) || !(1 <= batch <= 1000) || req.classes == [] then Refused(InvalidRequest)
    else
      var cs := Candidates(s, req.classes, now - req.olderThanDays * MS_PER_DAY);
      Ok(Plan(cs, FirstOf(cs, batch), HashCandidates(cs, sha)))
  }

  predicate ReasonGiven(reason: Option<string>) { reason.Some? && 10 <= |Trim(reason.value)| <= 500 }

  function Keep(recordClass: Class, es: seq<Entry>, selected: seq<Candidate>): (r: seq<Entry>)
    ensures forall e <- r :: e in es && !IsSelected(recordClass, e, selected)
  {
    if es == [] then []
    else (if IsSelected(recordClass, es[0], selected) then [] else [es[0]]) + Keep(recordClass, es[1..], selected)
  }

  predicate IsSelected(recordClass: Class, e: Entry, selected: seq<Candidate>) {
    exists c <- selected :: c.recordClass == recordClass && c.id == e.id
  }

  function Deleted(s: Records, selected: seq<Candidate>): Records {
    Records(Keep(Emails, s.emails, selected), Keep(Webhooks, s.webhooks, selected), Keep(Jobs, s.jobs, selected))
  }

  class OperationalRecords {
    var records: Records

    constructor (initial: Records)
      ensures records == initial
    {
      records := initial;
    }

    method Apply(req: Request, now: int, sha: string -> string) returns (r: Result<Plan>)
      modifies this
      ensures var plan := PlanRetention(old(records), req, now, sha);
        r == (if !Sensible(req) then Refused(InvalidRequest)
              else if req.dryRun then plan
              else if !(req.reason.Some? && 10 <= |Trim(req.reason.value)| <= 500) then Refused(InvalidRequest)
              else if req.targetSetHash != Some(plan.value.targetSetHash) || req.targetSetHash == Some("") then
                Refused(TargetSetChanged)
              else plan)
      ensures records == if r.Ok? && !req.dryRun then Deleted(old(records), r.value.selected) else old(records)
      ensures r.Ok? && !req.dryRun && UniqueRecords(old(records)) ==>
        OldestGone(old(records), records, req.classes, RequestedCutoff(req, now), RequestedBatch(req))
    {
      r := PlanRetention(records, req, now, sha);
      if r.Refused? || req.dryRun { return; }
      if !ReasonGiven(req.reason) { return Refused(InvalidRequest); }
      var hash := req.targetSetHash;
      if hash.None? || hash.value == "" || hash.value != r.value.targetSetHash { return Refused(TargetSetChanged); }
      if UniqueRecords(records) { RetentionDeletesOldest(records, req, now, sha, r.value); }
      var emails := Keep(Emails, records.emails, r.value.selected);
      var webhooks := Keep(Webhooks, records.webhooks, r.value.selected);
      var jobs := Keep(Jobs, records.jobs, r.value.selected);
      records := Records(emails, webhooks, jobs);
    }
  }

  // ----- What an execution deletes -----

  ghost predicate UniqueEntries(es: seq<Entry>) { forall i, j :: 0 <= i < j < |es| ==> es[i].id != es[j].id }

  lemma {:induction false} CollectedAre(recordClass: Class, es: seq<Entry>, cutoff: int, c: Candidate)
    ensures c in Collect(recordClass, es, cutoff)
      <==> exists e <- es :: Eligible(e, cutoff) && c == Candidate(recordClass, e.id, CompletedAt(e).text)
  {
    if es != [] {
      var last := es[|es| - 1];
      assert es == es[..|es| - 1] + [last];
      CollectedAre(recordClass, es[..|es| - 1], cutoff, c);
    }
  }

  function Of(s: Records, recordClass: Class): seq<Entry> {
    match recordClass
    case Emails => s.emails
    case Webhooks => s.webhooks
    case Jobs => s.jobs
  }

  lemma {:induction false} CollectedClass(recordClass: Class, es: seq<Entry>, cutoff: int)
    ensures forall c <- Collect(recordClass, es, cutoff) :: c.recordClass == recordClass
  {
    if es != [] { CollectedClass(recordClass, es[..|es| - 1], cutoff); }
  }

  lemma GatheredAre(s: Records, classes: seq<Class>, cutoff: int, c: Candidate)
    ensures c in Gathered(s, classes, cutoff)
      <==> c.recordClass in classes && c in Collect(c.recordClass, Of(s, c.recordClass), cutoff)
  {
    CollectedClass(Emails, s.emails, cutoff);
    CollectedClass(Webhooks, s.webhooks, cutoff);
    CollectedClass(Jobs, s.jobs, cutoff);
  }

  lemma CandidatesAre(s: Records, classes: seq<Class>, cutoff: int, c: Candidate)
    ensures c in Candidates(s, classes, cutoff) <==>
            c.recordClass in classes && exists e <- Of(s, c.recordClass) ::
              Eligible(e, cutoff) && c == Candidate(c.recordClass, e.id, CompletedAt(e).text)
  {
    CollectedAre(c.recordClass, Of(s, c.recordClass), cutoff, c);
    GatheredAre(s, classes, cutoff, c);
    SortByMembers(Gathered(s, classes, cutoff), Before, c);
  }

  lemma {:induction false} KeptAre(recordClass: Class, es: seq<Entry>, selected: seq<Candidate>, e: Entry)
    ensures e in Keep(recordClass, es, selected) <==> e in es && !IsSelected(recordClass, e, selected)
  {
    if es != [] {
      KeptAre(recordClass, es[1..], selected, e);
      assert es == [es[0]] + es[1..];
    }
  }

  /** The first candidates of a list. */
  function FirstOf(cs: seq<Candidate>, batch: int): (r: seq<Candidate>)
    requires 1 <= batch
    ensures forall c <- r :: c in cs
  {
    if |cs| <= batch then cs else cs[..batch]
  }

  function BatchOf(req: Request): int { if req.batchSize.None? then DEFAULT_BATCH else req.batchSize.value }

  /** With the digest of a previewed list, whatever happened in between, the list planned now is
      the previewed one, and its first entries are selected. */
  lemma PreviewedListIsPlanned(s: Records, req: Request, now: int, sha: string -> string, previewed: seq<Candidate>,
    plan: Plan)
    requires NeverCollides(sha) && PlanRetention(s, req, now, sha) == Ok(plan)
      && plan.targetSetHash == HashCandidates(previewed, sha)
    ensures BatchOf(req) >= 1 && plan.candidates == previewed && plan.selected == FirstOf(previewed, BatchOf(req))
  {
    HashIdentifiesCandidates(plan.candidates, previewed, sha);
  }

  /** A selected candidate with an entry's id is that entry's candidate. */
  lemma SelectedIsEntry(s: Records, classes: seq<Class>, cutoff: int, selected: seq<Candidate>, recordClass: Class,
    e: Entry)
    requires UniqueEntries(Of(s, recordClass)) && e in Of(s, recordClass)
    requires forall c <- selected :: c in Candidates(s, classes, cutoff)
    ensures IsSelected(recordClass, e, selected) <==> Candidate(recordClass, e.id, CompletedAt(e).text) in selected
  {
    forall c <- selected | c.recordClass == recordClass && c.id == e.id
      ensures c == Candidate(recordClass, e.id, CompletedAt(e).text) {
      CandidatesAre(s, classes, cutoff, c);
      var f :| f in Of(s, recordClass) && Eligible(f, cutoff) && c == Candidate(recordClass, f.id, CompletedAt(f).text);
      SameEntry(Of(s, recordClass), e, f);
    }
    var own := Candidate(recordClass, e.id, CompletedAt(e).text);
    assert own in selected ==> own.recordClass == recordClass && own.id == e.id;
  }

  /** The entry is deleted exactly when its candidate is selected. */
  ghost predicate GoesIffSelected(s: Records, selected: seq<Candidate>, recordClass: Class, e: Entry) {
    e !in Of(Deleted(s, selected), recordClass) <==> Candidate(recordClass, e.id, CompletedAt(e).text) in selected
  }

  lemma DeletedAre(
    s: Records, classes: seq<Class>, cutoff: int, batch: int, selected: seq<Candidate>, recordClass: Class, e: Entry)
    requires UniqueEntries(Of(s, recordClass)) && e in Of(s, recordClass)
    requires 1 <= batch && selected == FirstOf(Candidates(s, classes, cutoff), batch)
    ensures GoesIffSelected(s, selected, recordClass, e)
  {
    KeptAre(recordClass, Of(s, recordClass), selected, e);
    SelectedIsEntry(s, classes, cutoff, selected, recordClass, e);
  }

  ghost predicate Sensible(req: Request) {
    1 <= req.olderThanDays <= 3650 && 1 <= RequestedBatch(req) <= 1000 && req.classes != []
  }

  ghost function RequestedCutoff(req: Request, now: int): int { now - req.olderThanDays * 86400000 }

  ghost function RequestedBatch(req: Request): int {
    match req.batchSize
    case None => 100
    case Some(n) => n
  }

  lemma RequestedAre(req: Request, now: int)
    ensures now - req.olderThanDays * MS_PER_DAY == RequestedCutoff(req, now) && BatchOf(req) == RequestedBatch(req)
  {}

  lemma PlannedSelection(s: Records, req: Request, now: int, sha: string -> string, plan: Plan)
    requires PlanRetention(s, req, now, sha) == Ok(plan)
    ensures RequestedBatch(req) >= 1
    ensures plan.selected == FirstOf(Candidates(s, req.classes, RequestedCutoff(req, now)), RequestedBatch(req))
  {
    RequestedAre(req, now);
  }

  /** An execution deletes an entry exactly when its candidate is one of the plan's selected ones. */
  lemma RetentionDeletesSelected(s: Records, req: Request, now: int, sha: string -> string, plan: Plan,
    recordClass: Class, e: Entry)
    requires PlanRetention(s, req, now, sha) == Ok(plan) && UniqueEntries(Of(s, recordClass)) && e in Of(s, recordClass)
    ensures GoesIffSelected(s, plan.selected, recordClass, e)
  {
    PlannedSelection(s, req, now, sha, plan);
    DeletedAre(s, req.classes, RequestedCutoff(req, now), RequestedBatch(req), plan.selected, recordClass, e);
  }

  lemma SameEntry(es: seq<Entry>, e: Entry, f: Entry)
    requires UniqueEntries(es) && e in es && f in es && e.id == f.id
    ensures e == f
  {
    var i :| 0 <= i < |es| && es[i] == e;
    var j :| 0 <= j < |es| && es[j] == f;
    assert i == j;
  }

  // ----- The oldest qualified entries go -----

  /** The entry finished at `t`, or else was cancelled then, or else was last changed then. */
  ghost predicate Completed(e: Entry, t: Stamp) {
    || e.finishedAt == Some(t)
    || (e.finishedAt.None? && e.cancelledAt == Some(t))
    || (e.finishedAt.None? && e.cancelledAt.None? && e.updatedAt == t)
  }

  /** The request lets the entry go. */
  ghost predicate Qualifies(classes: seq<Class>, cutoff: int, c: Class, e: Entry) {
    && c in classes && e.terminal
    && exists t :: Completed(e, t) && t.ms.Some? && t.ms.value < cutoff
  }

  function Rank(c: Class): nat {
    match c
    case Emails => 0
    case Webhooks => 1
    case Jobs => 2
  }

  ghost predicate OlderAt(c: Class, e: Entry, t: Stamp, d: Class, f: Entry, u: Stamp) {
    || Less(t.text, u.text)
    || (t.text == u.text && (Rank(c) < Rank(d) || (c == d && Less(e.id, f.id))))
  }

  /** By the text of the completion time, then by class, then by id. */
  ghost predicate Older(c: Class, e: Entry, d: Class, f: Entry) {
    exists t, u :: Completed(e, t) && Completed(f, u) && OlderAt(c, e, t, d, f, u)
  }

  ghost predicate UniqueRecords(s: Records) { forall c: Class :: UniqueEntries(Of(s, c)) }

  ghost function Qualified(s: Records, classes: seq<Class>, cutoff: int): set<(Class, string)> {
    set c: Class, e | e in Of(s, c) && Qualifies(classes, cutoff, c, e) :: (c, e.id)
  }

  ghost function Gone(s: Records, t: Records): set<(Class, string)> {
    set c: Class, e | e in Of(s, c) && e !in Of(t, c) :: (c, e.id)
  }

  /** Of the entries that qualified, as many as the batch allows are gone, the oldest first; the
      others stay, in order. */
  ghost predicate OldestGone(s: Records, t: Records, classes: seq<Class>, cutoff: int, batch: int) {
    && Gone(s, t) <= Qualified(s, classes, cutoff)
    && |Gone(s, t)| == (if |Qualified(s, classes, cutoff)| <= batch then |Qualified(s, classes, cutoff)| else batch)
    && (forall c: Class :: Thinned(Of(s, c), Of(t, c), e => e in Of(t, c)))
    && (forall c: Class, e, d: Class, f :: OvertakenBy(s, t, classes, cutoff, c, e, d, f) ==> !Older(d, f, c, e))
  }

  /** `e` is gone and `f` stays although it qualified. */
  ghost predicate OvertakenBy(s: Records, t: Records, classes: seq<Class>, cutoff: int, c: Class, e: Entry, d: Class,
    f: Entry)
  {
    e in Of(s, c) && e !in Of(t, c) && f in Of(t, d) && Qualifies(classes, cutoff, d, f)
  }

  function KeyOf(c: Candidate): (Class, string) { (c.recordClass, c.id) }

  function CandidateOf(c: Class, e: Entry): Candidate { Candidate(c, e.id, CompletedAt(e).text) }

  lemma CompletedOnce(e: Entry, t: Stamp)
    ensures Completed(e, t) <==> t == CompletedAt(e)
  {}

  lemma QualifiesIff(classes: seq<Class>, cutoff: int, c: Class, e: Entry)
    ensures Qualifies(classes, cutoff, c, e) <==> c in classes && Eligible(e, cutoff)
  {
    CompletedOnce(e, CompletedAt(e));
  }

  lemma RanksOrderNames(a: Class, b: Class)
    ensures Rank(a) <= Rank(b) <==> Leq(ClassName(a), ClassName(b))
    ensures ClassName(a) == ClassName(b) ==> a == b
  {
    var e, w, j := ClassName(Emails), ClassName(Webhooks), ClassName(Jobs);
    assert e[..10] == w[..10] && LessAt(e, w, 10);
    assert LessAt(e, j, 0) && LessAt(w, j, 0);
    LeqIsLexicographic(e, w);
    LeqIsLexicographic(e, j);
    LeqIsLexicographic(w, j);
    LeqTotal(e, w);
    LeqTotal(e, j);
    LeqTotal(w, j);
    LeqTotal(e, e);
    LeqTotal(w, w);
    LeqTotal(j, j);
  }

  lemma OlderIff(c: Class, e: Entry, d: Class, f: Entry)
    ensures Older(c, e, d, f)
      <==> Before(CandidateOf(c, e), CandidateOf(d, f)) && CandidateOf(c, e) != CandidateOf(d, f)
  {
    CompletedOnce(e, CompletedAt(e));
    CompletedOnce(f, CompletedAt(f));
    LeqIsLexicographic(CompletedAt(e).text, CompletedAt(f).text);
    LeqIsLexicographic(e.id, f.id);
    RanksOrderNames(c, d);
    assert Older(c, e, d, f) <==> OlderAt(c, e, CompletedAt(e), d, f, CompletedAt(f)) by {
      if t, u :| Completed(e, t) && Completed(f, u) && OlderAt(c, e, t, d, f, u) {
        CompletedOnce(e, t);
        CompletedOnce(f, u);
      }
    }
  }

  lemma BeforeTransitive(a: Candidate, b: Candidate, c: Candidate)
    requires Before(a, b) && Before(b, c)
    ensures Before(a, c)
  {
    LeqTotal(a.completedAt, b.completedAt);
    LeqTotal(ClassName(a.recordClass), ClassName(b.recordClass));
    RanksOrderNames(a.recordClass, b.recordClass);
    if a.completedAt != b.completedAt && b.completedAt != c.completedAt {
      LeqTransitive(a.completedAt, b.completedAt, c.completedAt);
    } else if a.completedAt == b.completedAt == c.completedAt {
      if a.recordClass != b.recordClass && b.recordClass != c.recordClass {
        LeqTransitive(ClassName(a.recordClass), ClassName(b.recordClass), ClassName(c.recordClass));
      } else if a.recordClass == b.recordClass == c.recordClass {
        LeqTransitive(a.id, b.id, c.id);
      }
    }
  }

  lemma BeforeTotal(a: Candidate, b: Candidate)
    ensures Before(a, b) || Before(b, a)
    ensures Before(a, b) && Before(b, a) ==> a == b
  {
    LeqTotal(a.completedAt, b.completedAt);
    LeqTotal(ClassName(a.recordClass), ClassName(b.recordClass));
    RanksOrderNames(a.recordClass, b.recordClass);
    LeqTotal(a.id, b.id);
  }

  lemma CandidatesSorted(s: Records, classes: seq<Class>, cutoff: int)
    ensures SortedBy(Candidates(s, classes, cutoff), Before)
  {
    forall a, b ensures Before(a, b) || Before(b, a) { BeforeTotal(a, b); }
    forall a, b, c | Before(a, b) && Before(b, c) ensures Before(a, c) { BeforeTransitive(a, b, c); }
    SortBySorts(Gathered(s, classes, cutoff), Before);
  }

  // ----- Every qualified entry has one candidate -----

  lemma EntryOf(s: Records, classes: seq<Class>, cutoff: int, a: Candidate) returns (e: Entry)
    requires a in Candidates(s, classes, cutoff)
    ensures e in Of(s, a.recordClass) && a == CandidateOf(a.recordClass, e)
    ensures Qualifies(classes, cutoff, a.recordClass, e)
  {
    CandidatesAre(s, classes, cutoff, a);
    e :| e in Of(s, a.recordClass) && Eligible(e, cutoff) && a == Candidate(a.recordClass, e.id, CompletedAt(e).text);
    QualifiesIff(classes, cutoff, a.recordClass, e);
  }

  lemma HasCandidate(s: Records, classes: seq<Class>, cutoff: int, c: Class, e: Entry)
    requires e in Of(s, c) && Qualifies(classes, cutoff, c, e)
    ensures CandidateOf(c, e) in Candidates(s, classes, cutoff)
  {
    QualifiesIff(classes, cutoff, c, e);
    CandidatesAre(s, classes, cutoff, CandidateOf(c, e));
  }

  lemma {:induction false} CollectedOnce(c: Class, es: seq<Entry>, cutoff: int)
    requires UniqueEntries(es)
    ensures DistinctBy(Collect(c, es, cutoff), KeyOf)
  {
    if es != [] {
      var q, last := es[..|es| - 1], es[|es| - 1];
      CollectedOnce(c, q, cutoff);
      forall a <- Collect(c, q, cutoff) ensures a.id != last.id {
        CollectedAre(c, q, cutoff, a);
        var e :| e in q && Eligible(e, cutoff) && a == Candidate(c, e.id, CompletedAt(e).text);
        var i :| 0 <= i < |q| && q[i] == e;
        assert es[i].id != es[|es| - 1].id;
      }
    }
  }

  lemma GatheredOnce(s: Records, classes: seq<Class>, cutoff: int)
    requires UniqueRecords(s)
    ensures DistinctBy(Gathered(s, classes, cutoff), KeyOf)
  {
    assert UniqueEntries(Of(s, Emails)) && UniqueEntries(Of(s, Webhooks)) && UniqueEntries(Of(s, Jobs));
    CollectedOnce(Emails, s.emails, cutoff);
    CollectedOnce(Webhooks, s.webhooks, cutoff);
    CollectedOnce(Jobs, s.jobs, cutoff);
    CollectedClass(Emails, s.emails, cutoff);
    CollectedClass(Webhooks, s.webhooks, cutoff);
    CollectedClass(Jobs, s.jobs, cutoff);
  }

  lemma SameKeys(a: seq<Candidate>, b: seq<Candidate>)
    requires multiset(a) == multiset(b)
    ensures KeysOf(a, KeyOf) == KeysOf(b, KeyOf)
  {
    forall i | 0 <= i < |a| ensures KeyOf(a[i]) in KeysOf(b, KeyOf) {
      assert a[i] in multiset(b);
      var j :| 0 <= j < |b| && b[j] == a[i];
    }
    forall j | 0 <= j < |b| ensures KeyOf(b[j]) in KeysOf(a, KeyOf) {
      assert b[j] in multiset(a);
      var i :| 0 <= i < |a| && a[i] == b[j];
    }
  }

  lemma CandidateIsQualified(s: Records, classes: seq<Class>, cutoff: int, a: Candidate)
    requires a in Candidates(s, classes, cutoff)
    ensures KeyOf(a) in Qualified(s, classes, cutoff)
  {
    var e := EntryOf(s, classes, cutoff, a);
  }

  lemma KeyIn(cs: seq<Candidate>, a: Candidate)
    requires a in cs
    ensures KeyOf(a) in KeysOf(cs, KeyOf)
  {
    var i :| 0 <= i < |cs| && cs[i] == a;
  }

  lemma KeysAreQualified(s: Records, classes: seq<Class>, cutoff: int, cs: seq<Candidate>)
    requires cs == Candidates(s, classes, cutoff)
    ensures KeysOf(cs, KeyOf) == Qualified(s, classes, cutoff)
  {
    forall i | 0 <= i < |cs| ensures KeyOf(cs[i]) in Qualified(s, classes, cutoff) {
      CandidateIsQualified(s, classes, cutoff, cs[i]);
    }
    forall c: Class, e | e in Of(s, c) && Qualifies(classes, cutoff, c, e) ensures (c, e.id) in KeysOf(cs, KeyOf) {
      HasCandidate(s, classes, cutoff, c, e);
      KeyIn(cs, CandidateOf(c, e));
    }
  }

  lemma CandidatesOnce(s: Records, classes: seq<Class>, cutoff: int)
    requires UniqueRecords(s)
    ensures DistinctBy(Candidates(s, classes, cutoff), KeyOf)
  {
    GatheredOnce(s, classes, cutoff);
    CountKeys(Gathered(s, classes, cutoff), KeyOf);
    CountKeys(Candidates(s, classes, cutoff), KeyOf);
    SameKeys(Gathered(s, classes, cutoff), Candidates(s, classes, cutoff));
  }

  // ----- What goes -----

  lemma GoesIff(s: Records, classes: seq<Class>, cutoff: int, batch: int, c: Class, e: Entry)
    requires UniqueRecords(s) && 1 <= batch && e in Of(s, c)
    ensures var selected := FirstOf(Candidates(s, classes, cutoff), batch);
      e !in Of(Deleted(s, selected), c) <==> CandidateOf(c, e) in selected
  {
    var selected := FirstOf(Candidates(s, classes, cutoff), batch);
    assert UniqueEntries(Of(s, c));
    DeletedAre(s, classes, cutoff, batch, selected, c, e);
    assert GoesIffSelected(s, selected, c, e);
  }

  lemma GoneAreSelected(s: Records, classes: seq<Class>, cutoff: int, batch: int, selected: seq<Candidate>)
    requires UniqueRecords(s) && 1 <= batch && selected == FirstOf(Candidates(s, classes, cutoff), batch)
    ensures Gone(s, Deleted(s, selected)) == KeysOf(selected, KeyOf)
  {
    var t := Deleted(s, selected);
    forall c: Class, e | e in Of(s, c) && e !in Of(t, c) ensures (c, e.id) in KeysOf(selected, KeyOf) {
      GoesIff(s, classes, cutoff, batch, c, e);
      KeyIn(selected, CandidateOf(c, e));
    }
    forall i | 0 <= i < |selected| ensures KeyOf(selected[i]) in Gone(s, t) {
      var e := EntryOf(s, classes, cutoff, selected[i]);
      GoesIff(s, classes, cutoff, batch, selected[i].recordClass, e);
    }
  }

  lemma SelectedBeforeOthers(cs: seq<Candidate>, batch: int, a: Candidate, b: Candidate)
    requires 1 <= batch && SortedBy(cs, Before) && a in FirstOf(cs, batch) && b in cs && b !in FirstOf(cs, batch)
    ensures Before(a, b) && a != b
  {
    var i :| 0 <= i < |FirstOf(cs, batch)| && cs[i] == a;
    var j :| 0 <= j < |cs| && cs[j] == b;
    if j < |FirstOf(cs, batch)| { assert FirstOf(cs, batch)[j] == b; }
  }

  lemma OlderStay(s: Records, classes: seq<Class>, cutoff: int, batch: int, selected: seq<Candidate>, c: Class,
    e: Entry, d: Class, f: Entry)
    requires UniqueRecords(s) && 1 <= batch && selected == FirstOf(Candidates(s, classes, cutoff), batch)
    requires OvertakenBy(s, Deleted(s, selected), classes, cutoff, c, e, d, f)
    ensures !Older(d, f, c, e)
  {
    var a, b, cs := CandidateOf(c, e), CandidateOf(d, f), Candidates(s, classes, cutoff);
    assert a in selected by { GoesIff(s, classes, cutoff, batch, c, e); }
    assert b !in selected by {
      KeptAre(d, Of(s, d), selected, f);
      GoesIff(s, classes, cutoff, batch, d, f);
    }
    HasCandidate(s, classes, cutoff, d, f);
    assert Before(a, b) && a != b by {
      CandidatesSorted(s, classes, cutoff);
      SelectedBeforeOthers(cs, batch, a, b);
    }
    BeforeTotal(a, b);
    OlderIff(d, f, c, e);
  }

  lemma {:induction false} KeepIsFilter(c: Class, es: seq<Entry>, selected: seq<Candidate>, kept: Entry -> bool)
    requires forall e <- es :: kept(e) <==> !IsSelected(c, e, selected)
    ensures Keep(c, es, selected) == Filter(es, kept)
  {
    if es != [] {
      assert es[0] in es && forall e <- es[1..] :: e in es;
      KeepIsFilter(c, es[1..], selected, kept);
    }
  }

  lemma KeptInOrder(s: Records, selected: seq<Candidate>, c: Class)
    ensures var kept := Of(Deleted(s, selected), c); Thinned(Of(s, c), kept, e => e in kept)
  {
    var kept := Of(Deleted(s, selected), c);
    forall e <- Of(s, c) ensures e in kept <==> !IsSelected(c, e, selected) { KeptAre(c, Of(s, c), selected, e); }
    KeepIsFilter(c, Of(s, c), selected, e => e in kept);
    FilterThins(Of(s, c), e => e in kept);
  }

  lemma DistinctHead(cs: seq<Candidate>, batch: int)
    requires 1 <= batch && DistinctBy(cs, KeyOf)
    ensures |KeysOf(FirstOf(cs, batch), KeyOf)| == if |KeysOf(cs, KeyOf)| <= batch then |KeysOf(cs, KeyOf)| else batch
    ensures KeysOf(FirstOf(cs, batch), KeyOf) <= KeysOf(cs, KeyOf)
  {
    CountKeys(cs, KeyOf);
    CountKeys(FirstOf(cs, batch), KeyOf);
    forall i | 0 <= i < |FirstOf(cs, batch)| ensures KeyOf(FirstOf(cs, batch)[i]) in KeysOf(cs, KeyOf) {
      KeyIn(cs, FirstOf(cs, batch)[i]);
    }
  }

  lemma HeadDeletesOldest(s: Records, classes: seq<Class>, cutoff: int, batch: int, selected: seq<Candidate>)
    requires UniqueRecords(s) && 1 <= batch && selected == FirstOf(Candidates(s, classes, cutoff), batch)
    ensures OldestGone(s, Deleted(s, selected), classes, cutoff, batch)
  {
    var t, cs := Deleted(s, selected), Candidates(s, classes, cutoff);
    CandidatesOnce(s, classes, cutoff);
    KeysAreQualified(s, classes, cutoff, cs);
    GoneAreSelected(s, classes, cutoff, batch, selected);
    DistinctHead(cs, batch);
    forall c: Class ensures Thinned(Of(s, c), Of(t, c), e => e in Of(t, c)) { KeptInOrder(s, selected, c); }
    forall c: Class, e, d: Class, f | OvertakenBy(s, t, classes, cutoff, c, e, d, f) ensures !Older(d, f, c, e) {
      OlderStay(s, classes, cutoff, batch, selected, c, e, d, f);
    }
  }

  /** From request and records alone: what an execution deletes was completed more than the
      requested days ago, as much as the batch size allows goes, the rest stays in order, and
      nothing older than a deleted entry stays. */
  lemma RetentionDeletesOldest(s: Records, req: Request, now: int, sha: string -> string, plan: Plan)
    requires UniqueRecords(s) && PlanRetention(s, req, now, sha) == Ok(plan)
    ensures OldestGone(s, Deleted(s, plan.selected), req.classes, RequestedCutoff(req, now), RequestedBatch(req))
  {
    PlannedSelection(s, req, now, sha, plan);
    HeadDeletesOldest(s, req.classes, RequestedCutoff(req, now), RequestedBatch(req), plan.selected);
  }
}
