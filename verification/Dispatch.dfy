/** The dispatch loop of `run` (fleet/fleet.py): rounds of tickets handed to worker threads,
    where tickets whose files are taken come back as deferred and go into the next round.

    In a round the threads try their claims and finish in any order; claims and releases are
    whole effects on the table, which is what the claim protocol comes down to. A thread that
    raises -- the lock stays taken for all its tries -- ends the command, though not the round. */
module Dispatch {
  import opened Wrappers
  import opened Claims
  import ClaimSafety
  import opened Sequences

  datatype Job = Job(id: Id, scope: seq<File>)

  datatype Outcome = FixedUnverified | NoOp | ScopeViolation | Failed | Skipped | Deferred | Raised

  datatype Report = Report(job: Job, outcome: Outcome, cost: real)

  /** One round in progress. `reports` are in completion order. */
  datatype Round = Round(waiting: seq<Job>, running: seq<Job>, table: Table, reports: seq<Report>)

  /** A thread tries the claim of a waiting job, and gets the lock or gives up; or it ends a running one. */
  datatype Event = Try(k: nat, locked: bool) | Done(k: nat, outcome: Outcome, cost: real)

  function RemoveAt<T>(s: seq<T>, k: nat): seq<T>
    requires k < |s|
  {
    s[..k] + s[k + 1..]
  }

  predicate Possible(r: Round, e: Event) {
    match e
    case Try(k, _) => k < |r.waiting|
    case Done(k, outcome, cost) => k < |r.running| && !outcome.Deferred? && !outcome.Skipped? && cost >= 0.0
  }

  function Apply(r: Round, e: Event): Round
    requires Possible(r, e)
  {
    match e
    case Try(k, locked) =>
      var job := r.waiting[k];
      var rest := r.(waiting := RemoveAt(r.waiting, k));
      if job.scope == [] then rest.(reports := r.reports + [Report(job, Skipped, 0.0)])
      else if !locked then rest.(reports := r.reports + [Report(job, Outcome.Raised, 0.0)])
      else if Clash(r.table, job.id, job.scope) then rest.(reports := r.reports + [Report(job, Deferred, 0.0)])
      else rest.(running := r.running + [job], table := Take(r.table, job.id, job.scope))
    case Done(k, outcome, cost) =>
      var job := r.running[k];
      r.(running := RemoveAt(r.running, k), table := Drop(r.table, job.id),
         reports := r.reports + [Report(job, outcome, cost)])
  }

  /** The effect an event has on the claim table. */
  function EffectOf(r: Round, e: Event): Option<ClaimSafety.Effect>
    requires Possible(r, e)
  {
    match e
    case Try(k, locked) =>
      var job := r.waiting[k];
      if job.scope == [] || !locked then None
      else if Clash(r.table, job.id, job.scope) then Some(ClaimSafety.Denied(job.id, job.scope))
      else Some(ClaimSafety.Granted(job.id, job.scope))
    case Done(k, _, _) => Some(ClaimSafety.Returned(r.running[k].id))
  }

  lemma EventIsEffect(r: Round, e: Event)
    requires Possible(r, e)
    ensures match EffectOf(r, e)
      case Some(x) => ClaimSafety.Fits(r.table, x) && Apply(r, e).table == ClaimSafety.AfterEffect(r.table, x)
      case None => Apply(r, e).table == r.table
  {}

  predicate Complete(r: Round, es: seq<Event>)
    decreases |es|
  {
    if es == [] then r.waiting == [] && r.running == []
    else Possible(r, es[0]) && Complete(Apply(r, es[0]), es[1..])
  }

  function Finish(r: Round, es: seq<Event>): Round
    requires Complete(r, es)
    decreases |es|
  {
    if es == [] then r else Finish(Apply(r, es[0]), es[1..])
  }

  function Effects(r: Round, es: seq<Event>): seq<ClaimSafety.Effect>
    requires Complete(r, es)
    decreases |es|
  {
    if es == [] then []
    else (match EffectOf(r, es[0]) case Some(e) => [e] case None => []) + Effects(Apply(r, es[0]), es[1..])
  }

  /** A round does to the table what a list of whole calls of the claim protocol does to it, each
      granted or denied as the protocol would. */
  lemma {:induction false} EventsAreCalls(r: Round, es: seq<Event>)
    requires Complete(r, es)
    ensures ClaimSafety.AllFit(r.table, Effects(r, es))
    ensures Finish(r, es).table == ClaimSafety.AfterAll(r.table, Effects(r, es))
    decreases |es|
  {
    if es != [] {
      var later := Effects(Apply(r, es[0]), es[1..]);
      EventIsEffect(r, es[0]);
      EventsAreCalls(Apply(r, es[0]), es[1..]);
      match EffectOf(r, es[0])
      case Some(e) => assert ([e] + later)[1..] == later;
      case None => assert [] + later == later;
    }
  }

  function Start(foreign: Table, batch: seq<Job>): Round {
    Round(batch, [], foreign, [])
  }

  function Jobs(reports: seq<Report>): seq<Job> {
    if reports == [] then []
    else Jobs(reports[..|reports| - 1]) + [reports[|reports| - 1].job]
  }

  function DeferredJobs(reports: seq<Report>): seq<Job> {
    if reports == [] then []
    else
      var last := reports[|reports| - 1];
      DeferredJobs(reports[..|reports| - 1]) + if last.outcome.Deferred? then [last.job] else []
  }

  function FinishedReports(reports: seq<Report>): seq<Report> {
    if reports == [] then []
    else
      var last := reports[|reports| - 1];
      FinishedReports(reports[..|reports| - 1]) + if last.outcome.Deferred? then [] else [last]
  }

  /** None of the tickets owns a claim left in the table by somebody else. */
  predicate NotForeign(foreign: Table, jobs: seq<Job>) {
    forall j :: j in jobs ==> j.id !in foreign.Values
  }

  /** A foreign claim stands in the way of the job. */
  predicate Blocked(foreign: Table, job: Job) {
    Clash(foreign, job.id, job.scope)
  }

  // ------------------------------------------------------------ one round

  predicate ClaimedBy(running: seq<Job>, f: File, id: Id) {
    exists i :: 0 <= i < |running| && f in running[i].scope && running[i].id == id
  }

  /** The table holds the foreign claims and the claims of the running jobs, nothing else. */
  ghost predicate TableInv(foreign: Table, r: Round) {
    && (forall f :: f in foreign ==> f in r.table && r.table[f] == foreign[f])
    && (forall f :: f in r.table && f !in foreign ==> ClaimedBy(r.running, f, r.table[f]))
  }

  predicate NotStarted(outcome: Outcome) {
    outcome.Deferred? || outcome.Raised?
  }

  ghost predicate RoundInv(foreign: Table, batch: seq<Job>, r: Round) {
    && multiset(r.waiting) + multiset(r.running) + multiset(Jobs(r.reports)) == multiset(batch)
    && (forall j :: j in r.running ==> !Blocked(foreign, j))
    && (forall i :: 0 <= i < |r.reports| && Blocked(foreign, r.reports[i].job) ==> NotStarted(r.reports[i].outcome))
    && TableInv(foreign, r)
  }

  /** Unless everything is blocked from outside, somebody gets through. */
  ghost predicate Progress(r: Round) {
    r.running != [] || r.reports == [] || exists i :: 0 <= i < |r.reports| && !r.reports[i].outcome.Deferred?
  }

  lemma RemoveAtMultiset<T>(s: seq<T>, k: nat)
    requires k < |s|
    ensures multiset(RemoveAt(s, k)) + multiset{s[k]} == multiset(s)
  {
    assert s == s[..k] + [s[k]] + s[k + 1..];
  }

  /** The jobs of a round, wherever they are. */
  ghost function AllJobs(r: Round): multiset<Job> {
    multiset(r.waiting) + multiset(r.running) + multiset(Jobs(r.reports))
  }

  lemma EventJobs(foreign: Table, batch: seq<Job>, r: Round, e: Event)
    requires RoundInv(foreign, batch, r) && Possible(r, e)
    ensures AllJobs(Apply(r, e)) == multiset(batch)
  {
    MoveJob(r, e);
  }

  lemma MoveTried(r: Round, k: nat, locked: bool)
    requires Possible(r, Try(k, locked))
    ensures AllJobs(Apply(r, Try(k, locked))) == AllJobs(r)
  {
    var job, t := r.waiting[k], Apply(r, Try(k, locked));
    RemoveAtMultiset(r.waiting, k);
    if job.scope == [] || !locked || Clash(r.table, job.id, job.scope) {
      var outcome := if job.scope == [] then Skipped else if !locked then Outcome.Raised else Deferred;
      JobsSnoc(r.reports, Report(job, outcome, 0.0));
      assert Jobs(t.reports) == Jobs(r.reports) + [job];
    } else {
      assert t.running == r.running + [job];
    }
  }

  lemma MoveDone(r: Round, k: nat, outcome: Outcome, cost: real)
    requires Possible(r, Done(k, outcome, cost))
    ensures AllJobs(Apply(r, Done(k, outcome, cost))) == AllJobs(r)
  {
    RemoveAtMultiset(r.running, k);
    JobsSnoc(r.reports, Report(r.running[k], outcome, cost));
  }

  /** An event moves one job and loses none. */
  lemma MoveJob(r: Round, e: Event)
    requires Possible(r, e)
    ensures AllJobs(Apply(r, e)) == AllJobs(r)
  {
    match e
    case Try(k, locked) => MoveTried(r, k, locked);
    case Done(k, outcome, cost) => MoveDone(r, k, outcome, cost);
  }

  lemma EventTable(foreign: Table, r: Round, e: Event)
    requires TableInv(foreign, r) && NotForeign(foreign, r.running + r.waiting) && Possible(r, e)
    ensures TableInv(foreign, Apply(r, e))
  {
    var t := Apply(r, e);
    if e.Try? {
      assert r.waiting[e.k] in r.running + r.waiting;
      forall f | f in t.table && f !in foreign ensures ClaimedBy(t.running, f, t.table[f]) {
        var job := r.waiting[e.k];
        if |t.running| > |r.running| && f in job.scope {
          assert t.running[|r.running|] == job;
        } else {
          var i :| 0 <= i < |r.running| && f in r.running[i].scope && r.running[i].id == r.table[f];
          assert t.running[i] == r.running[i];
        }
      }
      forall f | f in foreign ensures f in t.table && t.table[f] == foreign[f] {
        assert foreign[f] in foreign.Values;
      }
    } else {
      assert r.running[e.k] in r.running + r.waiting;
      forall f | f in t.table && f !in foreign ensures ClaimedBy(t.running, f, t.table[f]) {
        var i :| 0 <= i < |r.running| && f in r.running[i].scope && r.running[i].id == r.table[f];
        assert t.running[if i < e.k then i else i - 1] == r.running[i];
      }
      forall f | f in foreign ensures f in t.table && t.table[f] == foreign[f] {
        assert foreign[f] in foreign.Values;
      }
    }
  }

  /** What is blocked from outside is not started. */
  lemma EventBlocked(foreign: Table, r: Round, e: Event)
    requires TableInv(foreign, r) && Possible(r, e)
    requires forall j :: j in r.running ==> !Blocked(foreign, j)
    requires forall i :: 0 <= i < |r.reports| && Blocked(foreign, r.reports[i].job) ==> NotStarted(r.reports[i].outcome)
    ensures var t := Apply(r, e);
      && (forall j :: j in t.running ==> !Blocked(foreign, j))
      && (forall i :: 0 <= i < |t.reports| && Blocked(foreign, t.reports[i].job) ==> NotStarted(t.reports[i].outcome))
  {
    if e.Try? && Blocked(foreign, r.waiting[e.k]) {
      var job := r.waiting[e.k];
      var f :| f in job.scope && f in foreign && foreign[f] != job.id;
      assert Clash(r.table, job.id, job.scope);
    } else if e.Done? {
      assert r.running[e.k] in r.running;
    }
  }

  lemma EventInv(foreign: Table, batch: seq<Job>, r: Round, e: Event)
    requires RoundInv(foreign, batch, r) && NotForeign(foreign, batch) && Possible(r, e)
    ensures RoundInv(foreign, batch, Apply(r, e))
  {
    EventJobs(foreign, batch, r, e);
    EventBlocked(foreign, r, e);
    forall j | j in r.running + r.waiting ensures j.id !in foreign.Values {
      assert j in multiset(batch);
    }
    EventTable(foreign, r, e);
  }

  /** Nobody is blocked from outside. */
  predicate NoneBlocked(foreign: Table, jobs: seq<Job>) {
    forall j :: j in jobs ==> !Blocked(foreign, j)
  }

  lemma EventProgress(foreign: Table, r: Round, e: Event)
    requires TableInv(foreign, r) && NoneBlocked(foreign, r.waiting) && Progress(r) && Possible(r, e)
    ensures Progress(Apply(r, e)) && NoneBlocked(foreign, Apply(r, e).waiting)
  {
    var t := Apply(r, e);
    if e.Done? {
      assert t.reports[|r.reports|] == Report(r.running[e.k], e.outcome, e.cost);
    } else if r.running == [] {
      if r.reports == [] {
        var job := r.waiting[e.k];
        assert !Blocked(foreign, job);
        assert forall f :: f in r.table ==> f in foreign;
        assert job.scope == [] ==> t.reports[0].outcome == Skipped;
        assert job.scope != [] && !e.locked ==> t.reports[0].outcome == Outcome.Raised;
      } else {
        var i :| 0 <= i < |r.reports| && !r.reports[i].outcome.Deferred?;
        assert t.reports[i] == r.reports[i];
      }
    }
  }

  lemma {:induction false} RoundResult(foreign: Table, batch: seq<Job>, r: Round, es: seq<Event>)
    requires RoundInv(foreign, batch, r) && NotForeign(foreign, batch) && Complete(r, es)
    ensures RoundInv(foreign, batch, Finish(r, es)) && Finish(r, es).waiting == [] && Finish(r, es).running == []
    ensures NoneBlocked(foreign, r.waiting) && Progress(r) ==> Progress(Finish(r, es))
    decreases |es|
  {
    if es != [] {
      EventInv(foreign, batch, r, es[0]);
      if NoneBlocked(foreign, r.waiting) && Progress(r) { EventProgress(foreign, r, es[0]); }
      RoundResult(foreign, batch, Apply(r, es[0]), es[1..]);
    }
  }

  lemma JobsSnoc(reports: seq<Report>, last: Report)
    ensures Jobs(reports + [last]) == Jobs(reports) + [last.job]
  {
    assert (reports + [last])[..|reports|] == reports;
  }

  lemma {:induction false} SplitReports(reports: seq<Report>)
    ensures multiset(Jobs(reports)) == multiset(DeferredJobs(reports)) + multiset(Jobs(FinishedReports(reports)))
    ensures |Jobs(reports)| == |reports|
    decreases |reports|
  {
    if reports != [] {
      var rest, last := reports[..|reports| - 1], reports[|reports| - 1];
      SplitReports(rest);
      assert Jobs(reports) == Jobs(rest) + [last.job];
      if last.outcome.Deferred? {
        assert DeferredJobs(reports) == DeferredJobs(rest) + [last.job];
        assert FinishedReports(reports) == FinishedReports(rest);
      } else {
        assert FinishedReports(reports) == FinishedReports(rest) + [last];
        JobsSnoc(FinishedReports(rest), last);
        assert DeferredJobs(reports) == DeferredJobs(rest);
      }
    }
  }

  lemma {:induction false} ReportsListed(reports: seq<Report>, i: nat)
    requires i < |reports|
    ensures if reports[i].outcome.Deferred? then reports[i].job in DeferredJobs(reports)
            else reports[i] in FinishedReports(reports)
  {
    if i < |reports| - 1 { ReportsListed(reports[..|reports| - 1], i); }
  }

  lemma {:induction false} JobListed(reports: seq<Report>, job: Job) returns (i: nat)
    requires job in Jobs(reports)
    ensures i < |reports| && reports[i].job == job
  {
    var n := |reports| - 1;
    if job == reports[n].job { i := n; } else { i := JobListed(reports[..n], job); }
  }

  lemma SomeFinish(foreign: Table, batch: seq<Job>, r: Round)
    requires multiset(DeferredJobs(r.reports)) + multiset(Jobs(FinishedReports(r.reports))) == multiset(batch)
    requires multiset(Jobs(r.reports)) == multiset(batch) && r.running == []
    requires NoneBlocked(foreign, batch) ==> Progress(r)
    ensures NoneBlocked(foreign, batch) && batch != [] ==> |DeferredJobs(r.reports)| < |batch|
  {
    var d, f := DeferredJobs(r.reports), FinishedReports(r.reports);
    SplitReports(f);
    assert |multiset(d)| + |multiset(Jobs(f))| == |multiset(batch)|;
    if NoneBlocked(foreign, batch) && batch != [] {
      SplitReports(r.reports);
      assert |multiset(Jobs(r.reports))| == |batch|;
      var i :| 0 <= i < |r.reports| && !r.reports[i].outcome.Deferred?;
      ReportsListed(r.reports, i);
    }
  }

  predicate NobodyRaised(reports: seq<Report>) {
    forall i :: 0 <= i < |reports| ==> !reports[i].outcome.Raised?
  }

  lemma BlockedDeferred(foreign: Table, batch: seq<Job>, r: Round)
    requires multiset(Jobs(r.reports)) == multiset(batch)
    requires forall i :: 0 <= i < |r.reports| && Blocked(foreign, r.reports[i].job) ==> NotStarted(r.reports[i].outcome)
    ensures NobodyRaised(r.reports) ==> forall j :: j in batch && Blocked(foreign, j) ==> j in DeferredJobs(r.reports)
  {
    forall j | NobodyRaised(r.reports) && j in batch && Blocked(foreign, j) ensures j in DeferredJobs(r.reports) {
      assert j in multiset(Jobs(r.reports));
      var i := JobListed(r.reports, j);
      ReportsListed(r.reports, i);
    }
  }

  lemma JobsOfMultiset(xs: seq<Job>, ys: seq<Job>)
    requires multiset(xs) <= multiset(ys)
    ensures |xs| <= |ys| && forall j :: j in xs ==> j in ys
  {
    assert |multiset(xs)| <= |multiset(ys)| by { assert multiset(ys) == multiset(xs) + (multiset(ys) - multiset(xs)); }
    forall j | j in xs ensures j in ys { assert j in multiset(xs); }
  }

  /** What a round leaves behind: every ticket is either done with or deferred, all claims are given
      back, a ticket blocked from outside is deferred unless some thread raised, and if none is
      blocked, at least one ticket is done with. */
  ghost predicate RoundDone(foreign: Table, batch: seq<Job>, r: Round) {
    && r.table == foreign
    && multiset(DeferredJobs(r.reports)) + multiset(Jobs(FinishedReports(r.reports))) == multiset(batch)
    && (NoneBlocked(foreign, batch) && batch != [] ==> |DeferredJobs(r.reports)| < |batch|)
    && (NobodyRaised(r.reports) ==> forall j :: j in batch && Blocked(foreign, j) ==> j in DeferredJobs(r.reports))
  }

  lemma EmptyRoundTable(foreign: Table, batch: seq<Job>, r: Round)
    requires RoundInv(foreign, batch, r) && r.running == []
    ensures r.table == foreign
  {
    assert forall f :: f in r.table ==> f in foreign;
  }

  lemma EmptyRoundJobs(foreign: Table, batch: seq<Job>, r: Round)
    requires RoundInv(foreign, batch, r) && r.waiting == [] && r.running == []
    ensures multiset(Jobs(r.reports)) == multiset(batch)
  {
    var none: seq<Job> := [];
    assert multiset(none) + multiset(none) + multiset(Jobs(r.reports)) == multiset(Jobs(r.reports));
  }

  lemma EmptyRoundDone(foreign: Table, batch: seq<Job>, r: Round)
    requires RoundInv(foreign, batch, r) && r.waiting == [] && r.running == []
    requires NoneBlocked(foreign, batch) ==> Progress(r)
    ensures RoundDone(foreign, batch, r)
  {
    EmptyRoundJobs(foreign, batch, r);
    SplitReports(r.reports);
    SomeFinish(foreign, batch, r);
    BlockedDeferred(foreign, batch, r);
    EmptyRoundTable(foreign, batch, r);
  }

  lemma StartInv(foreign: Table, batch: seq<Job>)
    ensures RoundInv(foreign, batch, Start(foreign, batch)) && Progress(Start(foreign, batch))
  {
    assert multiset(Jobs([])) == multiset{};
  }

  /** ... in whatever order its threads try and finish. */
  lemma OneRound(foreign: Table, batch: seq<Job>, es: seq<Event>)
    requires NotForeign(foreign, batch) && Complete(Start(foreign, batch), es)
    ensures RoundDone(foreign, batch, Finish(Start(foreign, batch), es))
  {
    StartInv(foreign, batch);
    RoundResult(foreign, batch, Start(foreign, batch), es);
    EmptyRoundDone(foreign, batch, Finish(Start(foreign, batch), es));
  }

  // ------------------------------------------------------------ the loop

  /** How a round's threads are scheduled: the order of their tries and ends. */
  type Schedule = (nat, seq<Job>) -> seq<Event>

  ghost predicate Scheduled(foreign: Table, schedule: Schedule) {
    forall n: nat, batch: seq<Job> :: Complete(Start(foreign, batch), schedule(n, batch))
  }

  /** A pool with a single thread. */
  function OneByOne(r: Round): (es: seq<Event>)
    ensures Complete(r, es)
    decreases |r.waiting|, |r.running|
  {
    if r.running != [] then [Done(0, NoOp, 0.0)] + OneByOne(Apply(r, Done(0, NoOp, 0.0)))
    else if r.waiting != [] then [Try(0, true)] + OneByOne(Apply(r, Try(0, true)))
    else []
  }

  lemma SomeScheduleExists(foreign: Table)
    ensures exists schedule :: Scheduled(foreign, schedule)
  {
    var schedule: Schedule := (n, batch) => OneByOne(Start(foreign, batch));
    assert Scheduled(foreign, schedule);
  }

  /** What is still pending after n rounds, if the command gets that far. */
  function Pending(foreign: Table, ts: seq<Job>, schedule: Schedule, n: nat): seq<Job>
    requires Scheduled(foreign, schedule)
    decreases n, 0
  {
    if n == 0 then ts else DeferredJobs(RoundReports(foreign, ts, schedule, n - 1))
  }

  /** The reports of one round. */
  function RoundReports(foreign: Table, ts: seq<Job>, schedule: Schedule, n: nat): seq<Report>
    requires Scheduled(foreign, schedule)
    decreases n, 1
  {
    var batch := Pending(foreign, ts, schedule, n);
    Finish(Start(foreign, batch), schedule(n, batch)).reports
  }

  /** All reports of the first n rounds. */
  function History(foreign: Table, ts: seq<Job>, schedule: Schedule, n: nat): seq<Report>
    requires Scheduled(foreign, schedule)
  {
    if n == 0 then [] else History(foreign, ts, schedule, n - 1) + RoundReports(foreign, ts, schedule, n - 1)
  }

  /** What one round does to the tickets still pending. */
  ghost predicate Shrinks(foreign: Table, batch: seq<Job>, reports: seq<Report>) {
    var next := DeferredJobs(reports);
    && NotForeign(foreign, next) && |next| <= |batch|
    && (NoneBlocked(foreign, batch) ==> NoneBlocked(foreign, next) && (batch != [] ==> |next| < |batch|))
  }

  ghost predicate Keeps(foreign: Table, batch: seq<Job>, reports: seq<Report>) {
    && multiset(DeferredJobs(reports)) + multiset(Jobs(FinishedReports(reports))) == multiset(batch)
    && (NobodyRaised(reports) ==> forall j :: j in batch && Blocked(foreign, j) ==> j in DeferredJobs(reports))
  }

  lemma NextRound(foreign: Table, batch: seq<Job>, es: seq<Event>)
    requires NotForeign(foreign, batch) && Complete(Start(foreign, batch), es)
    ensures Shrinks(foreign, batch, Finish(Start(foreign, batch), es).reports)
    ensures Keeps(foreign, batch, Finish(Start(foreign, batch), es).reports)
  {
    OneRound(foreign, batch, es);
    JobsOfMultiset(DeferredJobs(Finish(Start(foreign, batch), es).reports), batch);
  }

  lemma {:induction false} PendingNotForeign(foreign: Table, ts: seq<Job>, schedule: Schedule, n: nat)
    requires Scheduled(foreign, schedule) && NotForeign(foreign, ts)
    ensures NotForeign(foreign, Pending(foreign, ts, schedule, n))
  {
    if n > 0 {
      PendingNotForeign(foreign, ts, schedule, n - 1);
      var batch := Pending(foreign, ts, schedule, n - 1);
      NextRound(foreign, batch, schedule(n - 1, batch));
    }
  }

  lemma RoundShrinks(foreign: Table, ts: seq<Job>, schedule: Schedule, n: nat)
    requires Scheduled(foreign, schedule) && NotForeign(foreign, ts)
    ensures Shrinks(foreign, Pending(foreign, ts, schedule, n), RoundReports(foreign, ts, schedule, n))
  {
    PendingNotForeign(foreign, ts, schedule, n);
    var batch := Pending(foreign, ts, schedule, n);
    NextRound(foreign, batch, schedule(n, batch));
  }

  lemma RoundKeeps(foreign: Table, ts: seq<Job>, schedule: Schedule, n: nat)
    requires Scheduled(foreign, schedule) && NotForeign(foreign, ts)
    ensures Keeps(foreign, Pending(foreign, ts, schedule, n), RoundReports(foreign, ts, schedule, n))
  {
    PendingNotForeign(foreign, ts, schedule, n);
    var batch := Pending(foreign, ts, schedule, n);
    NextRound(foreign, batch, schedule(n, batch));
  }

  /** Unblocked, and fewer by at least one with every round. */
  ghost predicate Dwindling(foreign: Table, pending: seq<Job>, n: nat, total: nat) {
    NoneBlocked(foreign, pending) && (pending == [] || |pending| + n <= total)
  }

  lemma DwindlesOn(foreign: Table, batch: seq<Job>, reports: seq<Report>, n: nat, total: nat)
    requires Dwindling(foreign, batch, n, total) && Shrinks(foreign, batch, reports)
    ensures Dwindling(foreign, DeferredJobs(reports), n + 1, total)
  {}

  lemma {:induction false} PendingShrinks(foreign: Table, ts: seq<Job>, schedule: Schedule, n: nat)
    requires Scheduled(foreign, schedule) && NotForeign(foreign, ts) && NoneBlocked(foreign, ts)
    ensures Dwindling(foreign, Pending(foreign, ts, schedule, n), n, |ts|)
  {
    if n > 0 {
      PendingShrinks(foreign, ts, schedule, n - 1);
      RoundShrinks(foreign, ts, schedule, n - 1);
      var batch, reports := Pending(foreign, ts, schedule, n - 1), RoundReports(foreign, ts, schedule, n - 1);
      DwindlesOn(foreign, batch, reports, n - 1, |ts|);
    }
  }

  lemma RaisedAppend(a: seq<Report>, b: seq<Report>)
    ensures NobodyRaised(a + b) <==> NobodyRaised(a) && NobodyRaised(b)
  {
    assert forall i :: 0 <= i < |a| ==> a[i] == (a + b)[i];
    assert forall i :: 0 <= i < |b| ==> b[i] == (a + b)[|a| + i];
  }

  lemma StuckOn(foreign: Table, batch: seq<Job>, reports: seq<Report>, job: Job)
    requires Keeps(foreign, batch, reports) && NobodyRaised(reports) && job in batch && Blocked(foreign, job)
    ensures job in DeferredJobs(reports)
  {}

  lemma BlockedNext(foreign: Table, ts: seq<Job>, schedule: Schedule, job: Job, n: nat)
    requires Scheduled(foreign, schedule) && NotForeign(foreign, ts) && Blocked(foreign, job)
    requires job in Pending(foreign, ts, schedule, n) && NobodyRaised(RoundReports(foreign, ts, schedule, n))
    ensures job in Pending(foreign, ts, schedule, n + 1)
  {
    RoundKeeps(foreign, ts, schedule, n);
    StuckOn(foreign, Pending(foreign, ts, schedule, n), RoundReports(foreign, ts, schedule, n), job);
  }

  lemma {:induction false} BlockedStays(foreign: Table, ts: seq<Job>, schedule: Schedule, job: Job, n: nat)
    requires Scheduled(foreign, schedule) && NotForeign(foreign, ts) && job in ts && Blocked(foreign, job)
    requires NobodyRaised(History(foreign, ts, schedule, n))
    ensures job in Pending(foreign, ts, schedule, n)
  {
    if n > 0 {
      RaisedAppend(History(foreign, ts, schedule, n - 1), RoundReports(foreign, ts, schedule, n - 1));
      BlockedStays(foreign, ts, schedule, job, n - 1);
      BlockedNext(foreign, ts, schedule, job, n - 1);
    }
  }

  // ------------------------------------------------------------ what the command makes of the reports

  function Spent(reports: seq<Report>): real {
    if reports == [] then 0.0 else Spent(reports[..|reports| - 1]) + reports[|reports| - 1].cost
  }

  datatype Ending = Going | OverBudget | Aborted

  datatype Ledger = Ledger(done: seq<Report>, ending: Ending)

  const BLANK: Ledger := Ledger([], Going)

  /** One report is read: an exception passes through, and a spent budget ends the command. */
  function Enter(l: Ledger, r: Report, budget: real): Ledger {
    if !l.ending.Going? || r.outcome.Deferred? then l
    else if r.outcome.Raised? then l.(ending := Aborted)
    else Ledger(l.done + [r], if Spent(l.done + [r]) > budget then OverBudget else Going)
  }

  function Enters(l: Ledger, reports: seq<Report>, budget: real): Ledger {
    if reports == [] then l
    else Enter(Enters(l, reports[..|reports| - 1], budget), reports[|reports| - 1], budget)
  }

  lemma {:induction false} EntersAppend(l: Ledger, a: seq<Report>, b: seq<Report>, budget: real)
    ensures Enters(l, a + b, budget) == Enters(Enters(l, a, budget), b, budget)
    decreases |b|
  {
    if b == [] {
      assert a + b == a;
    } else {
      SnocPrefix(a, b);
      EntersAppend(l, a, b[..|b| - 1], budget);
    }
  }

  /** The command after n rounds. */
  function Books(foreign: Table, ts: seq<Job>, schedule: Schedule, budget: real, n: nat): Ledger
    requires Scheduled(foreign, schedule)
  {
    Enters(BLANK, History(foreign, ts, schedule, n), budget)
  }

  predicate WithinBudget(reports: seq<Report>, budget: real) {
    FinishedReports(reports) == [] || Spent(FinishedReports(reports)) <= budget
  }

  /** Nobody raised, and the budget was enough. */
  predicate Undisturbed(reports: seq<Report>, budget: real) {
    NobodyRaised(reports) && WithinBudget(reports, budget)
  }

  predicate NoRefunds(reports: seq<Report>) {
    forall i :: 0 <= i < |reports| ==> reports[i].cost >= 0.0
  }

  lemma SpentSnoc(reports: seq<Report>, r: Report)
    ensures Spent(reports + [r]) == Spent(reports) + r.cost
  {
    assert (reports + [r])[..|reports|] == reports;
  }

  lemma FinishedSnoc(reports: seq<Report>, r: Report)
    ensures FinishedReports(reports + [r]) == FinishedReports(reports) + if r.outcome.Deferred? then [] else [r]
    ensures DeferredJobs(reports + [r]) == DeferredJobs(reports) + if r.outcome.Deferred? then [r.job] else []
  {
    assert (reports + [r])[..|reports|] == reports;
  }

  lemma SplitOff(reports: seq<Report>)
    requires reports != []
    ensures reports == reports[..|reports| - 1] + [reports[|reports| - 1]]
  {}

  lemma UndisturbedNext(before: seq<Report>, r: Report, budget: real)
    requires NoRefunds(before) && r.cost >= 0.0
    ensures Undisturbed(before + [r], budget) <==>
      && Undisturbed(before, budget) && !r.outcome.Raised?
      && (r.outcome.Deferred? || Spent(FinishedReports(before) + [r]) <= budget)
  {
    FinishedSnoc(before, r);
    SpentSnoc(FinishedReports(before), r);
    RaisedAppend(before, [r]);
    assert [r][0] == r;
    assert FinishedReports(before) + [] == FinishedReports(before);
  }

  /** The command is going on exactly while nobody has raised and the budget has been enough. */
  ghost predicate Tells(l: Ledger, reports: seq<Report>, budget: real) {
    && (l.ending.Going? <==> Undisturbed(reports, budget))
    && (Undisturbed(reports, budget) ==> l.done == FinishedReports(reports))
  }

  lemma GoingNext(l: Ledger, before: seq<Report>, r: Report, budget: real)
    requires NoRefunds(before) && r.cost >= 0.0 && Tells(l, before, budget)
    ensures Tells(Enter(l, r, budget), before + [r], budget)
  {
    UndisturbedNext(before, r, budget);
    FinishedSnoc(before, r);
    assert FinishedReports(before) + [] == FinishedReports(before);
  }

  lemma {:induction false} GoingExactly(reports: seq<Report>, budget: real)
    requires NoRefunds(reports)
    ensures Tells(Enters(BLANK, reports, budget), reports, budget)
    decreases |reports|
  {
    if reports != [] {
      var before, r := reports[..|reports| - 1], reports[|reports| - 1];
      GoingExactly(before, budget);
      SplitOff(reports);
      GoingNext(Enters(BLANK, before, budget), before, r, budget);
    }
  }

  lemma {:induction false} CostsKept(r: Round, es: seq<Event>)
    requires Complete(r, es) && NoRefunds(r.reports)
    ensures NoRefunds(Finish(r, es).reports)
    decreases |es|
  {
    if es != [] { CostsKept(Apply(r, es[0]), es[1..]); }
  }

  lemma {:induction false} HistoryCosts(foreign: Table, ts: seq<Job>, schedule: Schedule, n: nat)
    requires Scheduled(foreign, schedule)
    ensures NoRefunds(History(foreign, ts, schedule, n))
  {
    if n > 0 {
      HistoryCosts(foreign, ts, schedule, n - 1);
      var batch := Pending(foreign, ts, schedule, n - 1);
      CostsKept(Start(foreign, batch), schedule(n - 1, batch));
    }
  }

  lemma HistoryNext(foreign: Table, ts: seq<Job>, schedule: Schedule, n: nat)
    requires Scheduled(foreign, schedule)
    ensures var reports := RoundReports(foreign, ts, schedule, n);
      && History(foreign, ts, schedule, n + 1) == History(foreign, ts, schedule, n) + reports
      && Pending(foreign, ts, schedule, n + 1) == DeferredJobs(reports)
  {}

  /** How often a ticket is done with or pending. */
  function Tally(reports: seq<Report>, pending: seq<Job>, job: Job): nat {
    multiset(Jobs(FinishedReports(reports)))[job] + multiset(pending)[job]
  }

  ghost predicate Balanced(reports: seq<Report>, pending: seq<Job>, ts: seq<Job>) {
    forall job :: Tally(reports, pending, job) == multiset(ts)[job]
  }

  lemma BalancedMeans(reports: seq<Report>, pending: seq<Job>, ts: seq<Job>)
    requires Balanced(reports, pending, ts)
    ensures multiset(Jobs(FinishedReports(reports))) + multiset(pending) == multiset(ts)
  {
    var jobs := multiset(Jobs(FinishedReports(reports))) + multiset(pending);
    forall job: Job ensures jobs[job] == multiset(ts)[job] {
      assert Tally(reports, pending, job) == multiset(ts)[job];
    }
  }

  lemma BalancedOn(foreign: Table, before: seq<Report>, batch: seq<Job>, reports: seq<Report>, ts: seq<Job>)
    requires Balanced(before, batch, ts) && Keeps(foreign, batch, reports)
    ensures Balanced(before + reports, DeferredJobs(reports), ts)
  {
    FinishedAppend(before, reports);
    JobsAppend(FinishedReports(before), FinishedReports(reports));
  }

  lemma BalancedStart(ts: seq<Job>)
    ensures Balanced([], ts, ts)
  {
    assert Jobs(FinishedReports([])) == [];
  }

  lemma NextOf(foreign: Table, ts: seq<Job>, schedule: Schedule, n: nat, h: seq<Report>, p: seq<Job>)
      returns (r: seq<Report>, h2: seq<Report>, p2: seq<Job>)
    requires Scheduled(foreign, schedule) && NotForeign(foreign, ts)
    requires h == History(foreign, ts, schedule, n) && p == Pending(foreign, ts, schedule, n)
    ensures Keeps(foreign, p, r) && h2 == h + r && p2 == DeferredJobs(r)
    ensures h2 == History(foreign, ts, schedule, n + 1) && p2 == Pending(foreign, ts, schedule, n + 1)
  {
    r := RoundReports(foreign, ts, schedule, n);
    h2, p2 := h + r, DeferredJobs(r);
    RoundKeeps(foreign, ts, schedule, n);
    HistoryNext(foreign, ts, schedule, n);
  }

  lemma StepBalances(foreign: Table, ts: seq<Job>, schedule: Schedule, n: nat, h: seq<Report>, p: seq<Job>)
      returns (h2: seq<Report>, p2: seq<Job>)
    requires Scheduled(foreign, schedule) && NotForeign(foreign, ts)
    requires h == History(foreign, ts, schedule, n) && p == Pending(foreign, ts, schedule, n) && Balanced(h, p, ts)
    ensures h2 == History(foreign, ts, schedule, n + 1) && p2 == Pending(foreign, ts, schedule, n + 1)
    ensures Balanced(h2, p2, ts)
  {
    var r;
    r, h2, p2 := NextOf(foreign, ts, schedule, n, h, p);
    BalancedOn(foreign, h, p, r, ts);
  }

  /** No ticket is lost or done with twice: what is done and what is pending are the tickets. */
  lemma {:induction false} HistoryBalances(foreign: Table, ts: seq<Job>, schedule: Schedule, n: nat)
      returns (h: seq<Report>, p: seq<Job>)
    requires Scheduled(foreign, schedule) && NotForeign(foreign, ts)
    ensures h == History(foreign, ts, schedule, n) && p == Pending(foreign, ts, schedule, n) && Balanced(h, p, ts)
  {
    h, p := [], ts;
    if n == 0 {
      BalancedStart(ts);
    } else {
      h, p := HistoryBalances(foreign, ts, schedule, n - 1);
      h, p := StepBalances(foreign, ts, schedule, n - 1, h, p);
    }
  }

  lemma {:induction false} FinishedAppend(a: seq<Report>, b: seq<Report>)
    ensures FinishedReports(a + b) == FinishedReports(a) + FinishedReports(b)
    decreases |b|
  {
    if b == [] {
      assert a + b == a && FinishedReports(a) + [] == FinishedReports(a);
    } else {
      var n := |b| - 1;
      SnocPrefix(a, b);
      FinishedAppend(a, b[..n]);
    }
  }

  lemma {:induction false} JobsAppend(xs: seq<Report>, ys: seq<Report>)
    ensures Jobs(xs + ys) == Jobs(xs) + Jobs(ys)
    decreases |ys|
  {
    if ys == [] {
      assert xs + ys == xs;
    } else {
      var n := |ys| - 1;
      JobsAppend(xs, ys[..n]);
      assert (xs + ys)[..|xs| + n] == xs + ys[..n];
    }
  }

  // ------------------------------------------------------------ when the command ends

  ghost predicate Ended(foreign: Table, ts: seq<Job>, schedule: Schedule, budget: real, n: nat)
    requires Scheduled(foreign, schedule)
  {
    Pending(foreign, ts, schedule, n) == [] || !Books(foreign, ts, schedule, budget, n).ending.Going?
  }

  /** Every ticket is done with, and nothing was cut short. */
  ghost predicate Finished(foreign: Table, ts: seq<Job>, schedule: Schedule, budget: real, n: nat)
    requires Scheduled(foreign, schedule)
  {
    Pending(foreign, ts, schedule, n) == [] && Books(foreign, ts, schedule, budget, n).ending.Going?
  }

  lemma StillGoing(foreign: Table, ts: seq<Job>, schedule: Schedule, budget: real, n: nat)
    requires Scheduled(foreign, schedule)
    ensures Books(foreign, ts, schedule, budget, n).ending.Going? <==>
      Undisturbed(History(foreign, ts, schedule, n), budget)
  {
    HistoryCosts(foreign, ts, schedule, n);
    GoingExactly(History(foreign, ts, schedule, n), budget);
  }

  /** The loop ends exactly when no claim left by somebody else stands in the way of any of its
      tickets, or a thread raises, or the budget is exceeded; in the first case after at most one
      round per ticket. */
  lemma LoopEndsExactly(foreign: Table, ts: seq<Job>, schedule: Schedule, budget: real)
    requires Scheduled(foreign, schedule) && NotForeign(foreign, ts)
    ensures (exists n: nat :: Ended(foreign, ts, schedule, budget, n)) <==>
      NoneBlocked(foreign, ts) || exists n: nat :: !Undisturbed(History(foreign, ts, schedule, n), budget)
    ensures NoneBlocked(foreign, ts) ==> Ended(foreign, ts, schedule, budget, |ts|)
  {
    if NoneBlocked(foreign, ts) {
      PendingShrinks(foreign, ts, schedule, |ts|);
      assert Ended(foreign, ts, schedule, budget, |ts|);
    } else {
      var job :| job in ts && Blocked(foreign, job);
      if n: nat :| Ended(foreign, ts, schedule, budget, n) {
        BlockedEnds(foreign, ts, schedule, budget, job, n);
      }
      if n: nat :| !Undisturbed(History(foreign, ts, schedule, n), budget) {
        BlockedEnds(foreign, ts, schedule, budget, job, n);
      }
    }
  }

  lemma BlockedEnds(foreign: Table, ts: seq<Job>, schedule: Schedule, budget: real, job: Job, n: nat)
    requires Scheduled(foreign, schedule) && NotForeign(foreign, ts) && job in ts && Blocked(foreign, job)
    ensures Ended(foreign, ts, schedule, budget, n) <==> !Undisturbed(History(foreign, ts, schedule, n), budget)
  {
    StillGoing(foreign, ts, schedule, budget, n);
    if NobodyRaised(History(foreign, ts, schedule, n)) { BlockedStays(foreign, ts, schedule, job, n); }
  }

  lemma EmptyRound(foreign: Table, es: seq<Event>)
    requires Complete(Start(foreign, []), es)
    ensures es == [] && Finish(Start(foreign, []), es).reports == []
  {}

  lemma {:induction false} HistoryPrefix(foreign: Table, ts: seq<Job>, schedule: Schedule, m: nat, n: nat)
    requires Scheduled(foreign, schedule) && m <= n
    ensures History(foreign, ts, schedule, m) <= History(foreign, ts, schedule, n)
    ensures Pending(foreign, ts, schedule, m) == [] ==>
      Pending(foreign, ts, schedule, n) == [] && History(foreign, ts, schedule, n) == History(foreign, ts, schedule, m)
    decreases n
  {
    if m < n {
      HistoryPrefix(foreign, ts, schedule, m, n - 1);
      if Pending(foreign, ts, schedule, m) == [] { EmptyRound(foreign, schedule(n - 1, [])); }
    }
  }

  lemma UndisturbedPrefix(a: seq<Report>, b: seq<Report>, budget: real)
    requires a <= b && NoRefunds(b) && Undisturbed(b, budget)
    ensures Undisturbed(a, budget)
  {
    var rest := b[|a|..];
    assert b == a + rest;
    RaisedAppend(a, rest);
    FinishedAppend(a, rest);
    SpentAppend(FinishedReports(a), FinishedReports(rest));
    FinishedCosts(rest);
    SpentNotNegative(FinishedReports(rest));
  }

  lemma {:induction false} FinishedCosts(reports: seq<Report>)
    requires NoRefunds(reports)
    ensures NoRefunds(FinishedReports(reports))
  {
    if reports != [] { FinishedCosts(reports[..|reports| - 1]); }
  }

  lemma {:induction false} SpentAppend(a: seq<Report>, b: seq<Report>)
    ensures Spent(a + b) == Spent(a) + Spent(b)
    decreases |b|
  {
    if b == [] {
      assert a + b == a;
    } else {
      SnocPrefix(a, b);
      SpentAppend(a, b[..|b| - 1]);
    }
  }

  lemma {:induction false} SpentNotNegative(reports: seq<Report>)
    requires NoRefunds(reports)
    ensures Spent(reports) >= 0.0
  {
    if reports != [] { SpentNotNegative(reports[..|reports| - 1]); }
  }

  /** The command gets through all its tickets exactly when no claim left by somebody else stands in
      the way of any of them, and in one round per ticket nobody raises and the budget is enough. */
  lemma FinishesExactly(foreign: Table, ts: seq<Job>, schedule: Schedule, budget: real)
    requires Scheduled(foreign, schedule) && NotForeign(foreign, ts)
    ensures (exists n: nat :: Finished(foreign, ts, schedule, budget, n)) <==>
      NoneBlocked(foreign, ts) && Undisturbed(History(foreign, ts, schedule, |ts|), budget)
    ensures forall n: nat :: Finished(foreign, ts, schedule, budget, n) ==>
      multiset(Jobs(Books(foreign, ts, schedule, budget, n).done)) == multiset(ts)
  {
    forall n: nat | Finished(foreign, ts, schedule, budget, n)
      ensures NoneBlocked(foreign, ts) && Undisturbed(History(foreign, ts, schedule, |ts|), budget)
      ensures multiset(Jobs(Books(foreign, ts, schedule, budget, n).done)) == multiset(ts)
    {
      FinishedMeans(foreign, ts, schedule, budget, n);
    }
    if NoneBlocked(foreign, ts) && Undisturbed(History(foreign, ts, schedule, |ts|), budget) {
      PendingShrinks(foreign, ts, schedule, |ts|);
      StillGoing(foreign, ts, schedule, budget, |ts|);
      assert Finished(foreign, ts, schedule, budget, |ts|);
    }
  }

  lemma FinishedMeans(foreign: Table, ts: seq<Job>, schedule: Schedule, budget: real, n: nat)
    requires Scheduled(foreign, schedule) && NotForeign(foreign, ts) && Finished(foreign, ts, schedule, budget, n)
    ensures NoneBlocked(foreign, ts) && Undisturbed(History(foreign, ts, schedule, |ts|), budget)
    ensures multiset(Jobs(Books(foreign, ts, schedule, budget, n).done)) == multiset(ts)
  {
    var reports := History(foreign, ts, schedule, n);
    StillGoing(foreign, ts, schedule, budget, n);
    forall job | job in ts ensures !Blocked(foreign, job) {
      if Blocked(foreign, job) { BlockedStays(foreign, ts, schedule, job, n); }
    }
    HistoryCosts(foreign, ts, schedule, n);
    GoingExactly(reports, budget);
    var h, p := HistoryBalances(foreign, ts, schedule, n);
    BalancedMeans(h, p, ts);
    assert p == [] && multiset(p) == multiset{};
    if n <= |ts| {
      HistoryPrefix(foreign, ts, schedule, n, |ts|);
    } else {
      HistoryPrefix(foreign, ts, schedule, |ts|, n);
      UndisturbedPrefix(History(foreign, ts, schedule, |ts|), reports, budget);
    }
  }

  // ------------------------------------------------------------ which schedules are safe, and which are not

  /** Every try gets the lock, every thread returns, and none costs more than the limit. */
  predicate Gentle(e: Event, limit: real) {
    match e
    case Try(_, locked) => locked
    case Done(_, outcome, cost) => !outcome.Raised? && cost <= limit
  }

  ghost predicate AllGentle(schedule: Schedule, limit: real) {
    forall n: nat, batch: seq<Job>, i :: 0 <= i < |schedule(n, batch)| ==> Gentle(schedule(n, batch)[i], limit)
  }

  predicate Moderate(reports: seq<Report>, limit: real) {
    forall i :: 0 <= i < |reports| ==> !reports[i].outcome.Raised? && reports[i].cost <= limit
  }

  lemma {:induction false} GentleRound(r: Round, es: seq<Event>, limit: real)
    requires Complete(r, es) && Moderate(r.reports, limit) && limit >= 0.0
    requires forall i :: 0 <= i < |es| ==> Gentle(es[i], limit)
    ensures Moderate(Finish(r, es).reports, limit)
    decreases |es|
  {
    if es != [] { GentleRound(Apply(r, es[0]), es[1..], limit); }
  }

  lemma {:induction false} GentleHistory(foreign: Table, ts: seq<Job>, schedule: Schedule, limit: real, n: nat)
    requires Scheduled(foreign, schedule) && AllGentle(schedule, limit) && limit >= 0.0
    ensures Moderate(History(foreign, ts, schedule, n), limit)
  {
    if n > 0 {
      GentleHistory(foreign, ts, schedule, limit, n - 1);
      var batch := Pending(foreign, ts, schedule, n - 1);
      GentleRound(Start(foreign, batch), schedule(n - 1, batch), limit);
    }
  }

  /** What n tickets cost at most. */
  function Total(n: nat, limit: real): real {
    if n == 0 then 0.0 else Total(n - 1, limit) + limit
  }

  lemma {:induction false} TotalGrows(n: nat, m: nat, limit: real)
    requires n <= m && limit >= 0.0
    ensures Total(n, limit) <= Total(m, limit)
    decreases m
  {
    if n < m { TotalGrows(n, m - 1, limit); }
  }

  lemma {:induction false} ModerateSpent(reports: seq<Report>, limit: real)
    requires Moderate(reports, limit)
    ensures Spent(reports) <= Total(|reports|, limit)
    decreases |reports|
  {
    if reports != [] { ModerateSpent(reports[..|reports| - 1], limit); }
  }

  lemma {:induction false} FinishedModerate(reports: seq<Report>, limit: real)
    requires Moderate(reports, limit)
    ensures Moderate(FinishedReports(reports), limit)
  {
    if reports != [] { FinishedModerate(reports[..|reports| - 1], limit); }
  }

  lemma {:induction false} JobsCount(reports: seq<Report>)
    ensures |Jobs(reports)| == |reports|
  {
    if reports != [] { JobsCount(reports[..|reports| - 1]); }
  }

  /** Where every try gets the lock and the budget covers every ticket, leftover claims alone decide
      whether the command gets through. */
  lemma GentleFinishesExactly(foreign: Table, ts: seq<Job>, schedule: Schedule, limit: real, budget: real)
    requires Scheduled(foreign, schedule) && NotForeign(foreign, ts) && AllGentle(schedule, limit)
    requires limit >= 0.0 && Total(|ts|, limit) <= budget
    ensures (exists n: nat :: Finished(foreign, ts, schedule, budget, n)) <==> NoneBlocked(foreign, ts)
  {
    var reports := History(foreign, ts, schedule, |ts|);
    GentleHistory(foreign, ts, schedule, limit, |ts|);
    var h, p := HistoryBalances(foreign, ts, schedule, |ts|);
    NoMoreReports(reports, p, ts);
    ModerateWithin(reports, |ts|, limit, budget);
    FinishesExactly(foreign, ts, schedule, budget);
  }

  lemma NoMoreReports(reports: seq<Report>, pending: seq<Job>, ts: seq<Job>)
    requires Balanced(reports, pending, ts)
    ensures |FinishedReports(reports)| <= |ts|
  {
    BalancedMeans(reports, pending, ts);
    JobsCount(FinishedReports(reports));
    assert |multiset(Jobs(FinishedReports(reports)))| + |multiset(pending)| == |multiset(ts)|;
  }

  lemma ModerateWithin(reports: seq<Report>, n: nat, limit: real, budget: real)
    requires Moderate(reports, limit) && |FinishedReports(reports)| <= n && limit >= 0.0 && Total(n, limit) <= budget
    ensures Undisturbed(reports, budget)
  {
    FinishedModerate(reports, limit);
    ModerateSpent(FinishedReports(reports), limit);
    TotalGrows(|FinishedReports(reports)|, n, limit);
  }

  predicate GivesUp(e: Event) {
    e.Try? ==> !e.locked
  }

  /** Nothing has been started, and only tickets without a scope have been reported on. */
  predicate LockedOut(r: Round) {
    r.running == [] && forall i :: 0 <= i < |r.reports| ==>
      if r.reports[i].job.scope == [] then r.reports[i].outcome.Skipped? else r.reports[i].outcome.Raised?
  }

  lemma {:induction false} LockedOutRound(r: Round, es: seq<Event>)
    requires Complete(r, es) && LockedOut(r) && forall i :: 0 <= i < |es| ==> GivesUp(es[i])
    ensures LockedOut(Finish(r, es))
    decreases |es|
  {
    if es != [] { LockedOutRound(Apply(r, es[0]), es[1..]); }
  }

  lemma {:induction false} OnlySkipped(reports: seq<Report>, budget: real)
    requires forall i :: 0 <= i < |reports| ==> reports[i].outcome.Skipped? || reports[i].outcome.Raised?
    ensures forall r :: r in Enters(BLANK, reports, budget).done ==> r.outcome.Skipped?
    decreases |reports|
  {
    if reports != [] { OnlySkipped(reports[..|reports| - 1], budget); }
  }

  /** With a lock that nobody removes, the first round ends the command, and no ticket that has a
      scope has been worked on. */
  lemma StaleLockAborts(foreign: Table, ts: seq<Job>, schedule: Schedule, budget: real, job: Job)
    requires Scheduled(foreign, schedule) && NotForeign(foreign, ts) && job in ts && job.scope != []
    requires forall i :: 0 <= i < |schedule(0, ts)| ==> GivesUp(schedule(0, ts)[i])
    ensures var l := Books(foreign, ts, schedule, budget, 1);
      !l.ending.Going? && forall r :: r in l.done ==> r.outcome.Skipped?
  {
    var last := Finish(Start(foreign, ts), schedule(0, ts));
    LockedOutRound(Start(foreign, ts), schedule(0, ts));
    assert History(foreign, ts, schedule, 0) == [];
    assert History(foreign, ts, schedule, 1) == [] + last.reports == last.reports;
    OnlySkipped(last.reports, budget);
    JobReported(foreign, ts, schedule(0, ts), job);
    StillGoing(foreign, ts, schedule, budget, 1);
  }

  lemma JobReported(foreign: Table, ts: seq<Job>, es: seq<Event>, job: Job)
    requires NotForeign(foreign, ts) && Complete(Start(foreign, ts), es) && job in ts
    ensures var reports := Finish(Start(foreign, ts), es).reports;
      exists i :: 0 <= i < |reports| && reports[i].job == job
  {
    var r := Finish(Start(foreign, ts), es);
    StartInv(foreign, ts);
    RoundResult(foreign, ts, Start(foreign, ts), es);
    EmptyRoundJobs(foreign, ts, r);
    assert job in multiset(Jobs(r.reports));
    var i := JobListed(r.reports, job);
  }

  // ------------------------------------------------------------ the command as a program

  lemma EntersNext(l: Ledger, reports: seq<Report>, i: nat, budget: real)
    requires i < |reports|
    ensures Enters(l, reports[..i + 1], budget) == Enter(Enters(l, reports[..i], budget), reports[i], budget)
    ensures DeferredJobs(reports[..i + 1])
      == DeferredJobs(reports[..i]) + if reports[i].outcome.Deferred? then [reports[i].job] else []
  {
    assert reports[..i + 1][..i] == reports[..i];
  }

  lemma {:induction false} EndedStays(l: Ledger, reports: seq<Report>, k: nat, budget: real)
    requires k <= |reports| && !Enters(l, reports[..k], budget).ending.Going?
    ensures Enters(l, reports, budget) == Enters(l, reports[..k], budget)
    decreases |reports| - k
  {
    if k < |reports| {
      EntersNext(l, reports, k, budget);
      EndedStays(l, reports, k + 1, budget);
    } else {
      assert reports[..k] == reports;
    }
  }

  /** Reads the reports of a round as they come in, until an exception passes through or the budget
      is spent. */
  method Collect(reports: seq<Report>, before: seq<Report>, budget: real)
      returns (deferred: seq<Job>, done: seq<Report>, ending: Ending)
    ensures Ledger(done, ending) == Enters(Ledger(before, Going), reports, budget)
    ensures ending.Going? ==> deferred == DeferredJobs(reports)
  {
    deferred, done, ending := [], before, Going;
    var spent := Spent(before);
    for i := 0 to |reports|
      invariant ending.Going? && deferred == DeferredJobs(reports[..i]) && spent == Spent(done)
      invariant Ledger(done, Going) == Enters(Ledger(before, Going), reports[..i], budget)
    {
      var r := reports[i];
      EntersNext(Ledger(before, Going), reports, i, budget);
      SpentSnoc(done, r);
      if r.outcome.Raised? {
        ending := Aborted;
        EndedStays(Ledger(before, Going), reports, i + 1, budget);
        return;
      }
      if r.outcome.Deferred? {
        deferred := deferred + [r.job];
      } else {
        spent := spent + r.cost;
        done := done + [r];
        if spent > budget {
          ending := OverBudget;
          EndedStays(Ledger(before, Going), reports, i + 1, budget);
          return;
        }
      }
    }
    assert reports[..|reports|] == reports;
  }

  /** The first rounds of the loop, as many as one cares to watch. */
  method Run(foreign: Table, ts: seq<Job>, schedule: Schedule, budget: real, watched: nat)
      returns (done: seq<Report>, pending: seq<Job>, ending: Ending, rounds: nat)
    requires Scheduled(foreign, schedule)
    ensures rounds <= watched && Ledger(done, ending) == Books(foreign, ts, schedule, budget, rounds)
    ensures ending.Going? ==> pending == Pending(foreign, ts, schedule, rounds) && (pending == [] || rounds == watched)
  {
    pending := ts;
    done, ending, rounds := [], Going, 0;
    while pending != [] && rounds < watched
      invariant rounds <= watched && ending.Going? && pending == Pending(foreign, ts, schedule, rounds)
      invariant Ledger(done, Going) == Books(foreign, ts, schedule, budget, rounds)
      decreases watched - rounds
    {
      var deferred;
      var reports := Finish(Start(foreign, pending), schedule(rounds, pending)).reports;
      EntersAppend(BLANK, History(foreign, ts, schedule, rounds), reports, budget);
      deferred, done, ending := Collect(reports, done, budget);
      rounds := rounds + 1;
      if !ending.Going? { return; }
      pending := deferred;
    }
  }
}
