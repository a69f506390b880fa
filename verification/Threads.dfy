/** The threads of one round of `run` (fleet/fleet.py) as workers of the claim protocol
    (fleet/lib/runner.py): what they do step by step, in any interleaving, is one of the schedules
    that the dispatch loop is studied under. */
module Threads {
  import C = Claims
  import opened Dispatch
  import ClaimSafety
  import opened Sequences

  /** How a session on a ticket ends once its files are claimed. */
  datatype Verdict = Verdict(outcome: Outcome, cost: real)

  type Verdicts = Job -> Verdict

  ghost predicate Ordinary(verdicts: Verdicts) {
    forall j :: !verdicts(j).outcome.Deferred? && !verdicts(j).outcome.Skipped? && verdicts(j).cost >= 0.0
  }

  predicate Trying(pc: C.Pc) {
    pc.AcqSpin? || pc.AcqRead? || pc.AcqDecide? || pc.AcqTmp? || pc.AcqReplace?
  }

  function JobOf(pc: C.Pc): Job
    requires C.Active(pc)
  {
    Job(pc.tid, pc.files)
  }

  predicate Tries(s: C.State, w: C.Worker, j: Job) {
    w in s.pcs && Trying(s.pcs[w]) && JobOf(s.pcs[w]) == j
  }

  predicate Works(s: C.State, w: C.Worker, j: Job) {
    w in s.pcs && C.Owns(s.pcs[w]) && JobOf(s.pcs[w]) == j
  }

  // ------------------------------------------------------------ a round of threads

  /** The jobs that no thread has taken yet. */
  function Left(todo: set<Job>, a: C.Act): set<Job> {
    if a.move.Begin? then todo - {Job(a.move.tid, a.move.files)} else todo
  }

  /** Threads take jobs of the batch, each at most once, and only those with a scope get as far as claiming. */
  predicate Takes(todo: set<Job>, a: C.Act) {
    a.move.Begin? ==> Job(a.move.tid, a.move.files) in todo && a.move.files != []
  }

  predicate Batched(s: C.State, acts: seq<C.Act>, todo: set<Job>)
    decreases |acts|
  {
    acts == [] || (Takes(todo, acts[0]) && Batched(C.Do(s, acts[0]), acts[1..], Left(todo, acts[0])))
  }

  function LeftAll(acts: seq<C.Act>, todo: set<Job>): set<Job>
    decreases |acts|
  {
    if acts == [] then todo else LeftAll(acts[1..], Left(todo, acts[0]))
  }

  /** What a step reports: a thread that gives up raises, a refused one is deferred, and a session
      is over when its claims are returned. */
  function ReportOf(s: C.State, a: C.Act, verdicts: Verdicts): seq<Report> {
    if !a.move.Go? then []
    else match C.At(s, a.w)
      case AcqSpin(tid, files, n) => if n >= C.LOCK_TRIES then [Report(Job(tid, files), Outcome.Raised, 0.0)] else []
      case AcqDecide(tid, files, held) =>
        if C.Clash(held, tid, files) then [Report(Job(tid, files), Deferred, 0.0)] else []
      case RelReplace(tid, files, _, _) =>
        var v := verdicts(Job(tid, files));
        [Report(Job(tid, files), v.outcome, v.cost)]
      case _ => []
  }

  function ReportsOf(s: C.State, acts: seq<C.Act>, verdicts: Verdicts): seq<Report>
    decreases |acts|
  {
    if acts == [] then [] else ReportOf(s, acts[0], verdicts) + ReportsOf(C.Do(s, acts[0]), acts[1..], verdicts)
  }

  // ------------------------------------------------------------ the round it is

  predicate DistinctJobs(jobs: seq<Job>) {
    forall i, j :: 0 <= i < j < |jobs| ==> jobs[i].id != jobs[j].id
  }

  ghost predicate WaitingIs(s: C.State, waiting: seq<Job>, todo: set<Job>) {
    && (forall j :: j in todo ==> j in waiting)
    && (forall w, j :: Tries(s, w, j) ==> j in waiting && j !in todo)
    && (forall j :: j in waiting && j !in todo ==> exists w :: Tries(s, w, j))
  }

  ghost predicate RunningIs(s: C.State, running: seq<Job>) {
    && (forall w, j :: Works(s, w, j) ==> j in running)
    && (forall j :: j in running ==> exists w :: Works(s, w, j))
  }

  /** Waiting are the jobs that no thread has taken or whose thread has not got its answer yet, and
      running are those whose claims stand. */
  ghost predicate Mirrors(s: C.State, r: Round, todo: set<Job>) {
    && r.table == s.disk.table && DistinctJobs(r.waiting) && DistinctJobs(r.running)
    && (forall i, j :: 0 <= i < |r.waiting| && 0 <= j < |r.running| ==> r.waiting[i].id != r.running[j].id)
    && WaitingIs(s, r.waiting, todo) && RunningIs(s, r.running)
  }

  predicate AllPossible(r: Round, es: seq<Event>)
    decreases |es|
  {
    es == [] || (Possible(r, es[0]) && AllPossible(Apply(r, es[0]), es[1..]))
  }

  function ApplyAll(r: Round, es: seq<Event>): Round
    requires AllPossible(r, es)
    decreases |es|
  {
    if es == [] then r else ApplyAll(Apply(r, es[0]), es[1..])
  }

  lemma {:induction false} CompleteAppend(r: Round, es: seq<Event>, more: seq<Event>)
    requires AllPossible(r, es) && Complete(ApplyAll(r, es), more)
    ensures Complete(r, es + more) && Finish(r, es + more) == Finish(ApplyAll(r, es), more)
    decreases |es|
  {
    if es == [] {
      assert es + more == more;
    } else {
      assert (es + more)[0] == es[0] && (es + more)[1..] == es[1..] + more;
      CompleteAppend(Apply(r, es[0]), es[1..], more);
    }
  }

  lemma Removed(jobs: seq<Job>, k: nat)
    requires k < |jobs| && DistinctJobs(jobs)
    ensures DistinctJobs(RemoveAt(jobs, k))
    ensures forall j :: j in RemoveAt(jobs, k) <==> j in jobs && j != jobs[k]
    ensures forall i :: 0 <= i < |RemoveAt(jobs, k)| ==> RemoveAt(jobs, k)[i] == jobs[if i < k then i else i + 1]
  {
    var rest := RemoveAt(jobs, k);
    forall j | j in jobs && j != jobs[k] ensures j in rest {
      var i :| 0 <= i < |jobs| && jobs[i] == j;
      assert rest[if i < k then i else i - 1] == j;
    }
  }

  // ------------------------------------------------------------ one step of one thread

  /** Everybody else stands where they stood. */
  lemma OthersStand(s: C.State, a: C.Act, v: C.Worker, j: Job)
    requires v != a.w
    ensures Tries(C.Do(s, a), v, j) <==> Tries(s, v, j)
    ensures Works(C.Do(s, a), v, j) <==> Works(s, v, j)
  {}

  /** A step that changes neither who tries nor who works, nor the table. */
  lemma SameStep(s: C.State, a: C.Act, r: Round, todo: set<Job>)
    requires Mirrors(s, r, todo) && C.Do(s, a).disk.table == s.disk.table
    requires forall j :: Tries(C.Do(s, a), a.w, j) <==> Tries(s, a.w, j)
    requires forall j :: Works(C.Do(s, a), a.w, j) <==> Works(s, a.w, j)
    ensures Mirrors(C.Do(s, a), r, todo)
  {
    var t := C.Do(s, a);
    forall w, j ensures (Tries(t, w, j) <==> Tries(s, w, j)) && (Works(t, w, j) <==> Works(s, w, j)) {
      if w != a.w { OthersStand(s, a, w, j); }
    }
    forall j | j in r.waiting && j !in todo ensures exists w :: Tries(t, w, j) {
      var w :| Tries(s, w, j);
      assert Tries(t, w, j);
    }
    forall j | j in r.running ensures exists w :: Works(t, w, j) {
      var w :| Works(s, w, j);
      assert Works(t, w, j);
    }
  }

  lemma BeginStep(s: C.State, a: C.Act, r: Round, todo: set<Job>)
    requires Mirrors(s, r, todo) && C.Enabled(s, a) && a.move.Begin? && Takes(todo, a)
    ensures Mirrors(C.Do(s, a), r, Left(todo, a))
  {
    var t, job, left := C.Do(s, a), Job(a.move.tid, a.move.files), Left(todo, a);
    assert Tries(t, a.w, job);
    forall w, j | Tries(t, w, j) ensures j in r.waiting && j !in left {
      if w != a.w { OthersStand(s, a, w, j); }
    }
    forall j | j in r.waiting && j !in left ensures exists w :: Tries(t, w, j) {
      if j != job {
        var w :| Tries(s, w, j);
        OthersStand(s, a, w, j);
        assert Tries(t, w, j);
      }
    }
    forall w, j | Works(t, w, j) ensures j in r.running {
      if w != a.w { OthersStand(s, a, w, j); }
    }
    forall j | j in r.running ensures exists w :: Works(t, w, j) {
      var w :| Works(s, w, j);
      OthersStand(s, a, w, j);
      assert Works(t, w, j);
    }
  }

  predicate IsAt(jobs: seq<Job>, k: nat, job: Job) {
    k < |jobs| && jobs[k] == job
  }

  /** A thread gets its answer, and its job waits no longer. */
  lemma AnsweredWaiting(s: C.State, a: C.Act, waiting: seq<Job>, todo: set<Job>, k: nat, job: Job)
    requires C.DistinctIds(s) && WaitingIs(s, waiting, todo) && DistinctJobs(waiting) && IsAt(waiting, k, job)
    requires Tries(s, a.w, job) && forall j :: !Tries(C.Do(s, a), a.w, j)
    ensures WaitingIs(C.Do(s, a), RemoveAt(waiting, k), todo)
  {
    var t, rest := C.Do(s, a), RemoveAt(waiting, k);
    Removed(waiting, k);
    forall w, j | Tries(t, w, j) ensures j in rest && j !in todo {
      OthersStand(s, a, w, j);
      assert w != a.w && s.pcs[w].tid != s.pcs[a.w].tid;
    }
    forall j | j in rest && j !in todo ensures exists w :: Tries(t, w, j) {
      var w :| Tries(s, w, j);
      OthersStand(s, a, w, j);
      assert Tries(t, w, j);
    }
  }

  lemma RunningStands(s: C.State, a: C.Act, running: seq<Job>)
    requires RunningIs(s, running)
    requires forall j :: !Works(s, a.w, j) && !Works(C.Do(s, a), a.w, j)
    ensures RunningIs(C.Do(s, a), running)
  {
    var t := C.Do(s, a);
    forall w, j | Works(t, w, j) ensures j in running { OthersStand(s, a, w, j); }
    forall j | j in running ensures exists w :: Works(t, w, j) {
      var w :| Works(s, w, j);
      OthersStand(s, a, w, j);
      assert Works(t, w, j);
    }
  }

  lemma RunningStarts(s: C.State, a: C.Act, running: seq<Job>, job: Job)
    requires RunningIs(s, running)
    requires (forall j :: !Works(s, a.w, j)) && forall j :: Works(C.Do(s, a), a.w, j) <==> j == job
    ensures RunningIs(C.Do(s, a), running + [job])
  {
    var t, now := C.Do(s, a), running + [job];
    assert now[|running|] == job;
    forall w, j | Works(t, w, j) ensures j in now {
      if w != a.w { OthersStand(s, a, w, j); }
    }
    forall j | j in now ensures exists w :: Works(t, w, j) {
      if j == job {
        assert Works(t, a.w, j);
      } else {
        assert j in running;
        var w :| Works(s, w, j);
        OthersStand(s, a, w, j);
        assert Works(t, w, j);
      }
    }
  }

  lemma RunningEnds(s: C.State, a: C.Act, running: seq<Job>, k: nat, job: Job)
    requires C.DistinctIds(s) && RunningIs(s, running) && DistinctJobs(running) && IsAt(running, k, job)
    requires Works(s, a.w, job) && forall j :: !Works(C.Do(s, a), a.w, j)
    ensures RunningIs(C.Do(s, a), RemoveAt(running, k))
  {
    var t, rest := C.Do(s, a), RemoveAt(running, k);
    Removed(running, k);
    forall w, j | Works(t, w, j) ensures j in rest {
      OthersStand(s, a, w, j);
      assert w != a.w && s.pcs[w].tid != s.pcs[a.w].tid;
    }
    forall j | j in rest ensures exists w :: Works(t, w, j) {
      var w :| Works(s, w, j);
      OthersStand(s, a, w, j);
      assert Works(t, w, j);
    }
  }

  lemma WaitingStands(s: C.State, a: C.Act, waiting: seq<Job>, todo: set<Job>)
    requires WaitingIs(s, waiting, todo)
    requires forall j :: !Tries(s, a.w, j) && !Tries(C.Do(s, a), a.w, j)
    ensures WaitingIs(C.Do(s, a), waiting, todo)
  {
    var t := C.Do(s, a);
    forall w, j | Tries(t, w, j) ensures j in waiting && j !in todo { OthersStand(s, a, w, j); }
    forall j | j in waiting && j !in todo ensures exists w :: Tries(t, w, j) {
      var w :| Tries(s, w, j);
      OthersStand(s, a, w, j);
      assert Tries(t, w, j);
    }
  }

  lemma ApplyOne(r: Round, e: Event)
    requires Possible(r, e)
    ensures AllPossible(r, [e]) && ApplyAll(r, [e]) == Apply(r, e)
  {
    assert [e][1..] == [];
  }

  /** One thread gives up, or is refused. */
  lemma TurnedAway(s: C.State, a: C.Act, r: Round, todo: set<Job>, locked: bool) returns (e: Event)
    requires C.DistinctIds(s) && Mirrors(s, r, todo) && a.w in s.pcs && Trying(s.pcs[a.w]) && s.pcs[a.w].files != []
    requires C.Do(s, a).disk.table == s.disk.table
    requires forall j :: !Tries(C.Do(s, a), a.w, j) && !Works(C.Do(s, a), a.w, j)
    requires locked ==> C.Clash(s.disk.table, s.pcs[a.w].tid, s.pcs[a.w].files)
    ensures e.Try? && e.locked == locked && Possible(r, e) && Mirrors(C.Do(s, a), Apply(r, e), todo)
    ensures Apply(r, e).reports
      == r.reports + [Report(JobOf(s.pcs[a.w]), if locked then Deferred else Outcome.Raised, 0.0)]
  {
    var job := JobOf(s.pcs[a.w]);
    assert Tries(s, a.w, job);
    var k :| 0 <= k < |r.waiting| && r.waiting[k] == job;
    e := Try(k, locked);
    Removed(r.waiting, k);
    AnsweredWaiting(s, a, r.waiting, todo, k, job);
    RunningStands(s, a, r.running);
  }

  /** One thread has its claims entered. */
  lemma Admitted(s: C.State, a: C.Act, r: Round, todo: set<Job>) returns (e: Event)
    requires C.DistinctIds(s) && Mirrors(s, r, todo) && a.w in s.pcs && Trying(s.pcs[a.w]) && s.pcs[a.w].files != []
    requires !C.Clash(s.disk.table, s.pcs[a.w].tid, s.pcs[a.w].files)
    requires C.Do(s, a).disk.table == C.Take(s.disk.table, s.pcs[a.w].tid, s.pcs[a.w].files)
    requires forall j :: !Tries(C.Do(s, a), a.w, j) && (Works(C.Do(s, a), a.w, j) <==> j == JobOf(s.pcs[a.w]))
    ensures Possible(r, e) && Mirrors(C.Do(s, a), Apply(r, e), todo) && Apply(r, e).reports == r.reports
  {
    var job := JobOf(s.pcs[a.w]);
    assert Tries(s, a.w, job);
    var k :| 0 <= k < |r.waiting| && r.waiting[k] == job;
    e := Try(k, true);
    Removed(r.waiting, k);
    AnsweredWaiting(s, a, r.waiting, todo, k, job);
    RunningStarts(s, a, r.running, job);
  }

  /** One thread has its claims removed. */
  lemma Over(s: C.State, a: C.Act, r: Round, todo: set<Job>, v: Verdict) returns (e: Event)
    requires C.DistinctIds(s) && Mirrors(s, r, todo) && a.w in s.pcs && C.Owns(s.pcs[a.w])
    requires C.Do(s, a).disk.table == C.Drop(s.disk.table, s.pcs[a.w].tid)
    requires forall j :: !Tries(C.Do(s, a), a.w, j) && !Works(C.Do(s, a), a.w, j)
    requires !v.outcome.Deferred? && !v.outcome.Skipped? && v.cost >= 0.0
    ensures Possible(r, e) && Mirrors(C.Do(s, a), Apply(r, e), todo)
    ensures Apply(r, e).reports == r.reports + [Report(JobOf(s.pcs[a.w]), v.outcome, v.cost)]
  {
    var job := JobOf(s.pcs[a.w]);
    assert Works(s, a.w, job);
    var k :| 0 <= k < |r.running| && r.running[k] == job;
    e := Done(k, v.outcome, v.cost);
    Removed(r.running, k);
    RunningEnds(s, a, r.running, k, job);
    WaitingStands(s, a, r.waiting, todo);
  }

  /** Only jobs with a scope get as far as trying. */
  predicate Scoped(s: C.State) {
    forall w :: w in s.pcs && Trying(s.pcs[w]) ==> s.pcs[w].files != []
  }

  lemma StepScoped(s: C.State, a: C.Act, todo: set<Job>)
    requires Scoped(s) && C.Enabled(s, a) && Takes(todo, a)
    ensures Scoped(C.Do(s, a))
  {}

  /** The events that a step stands for, one or none. */
  ghost predicate Stands(s: C.State, a: C.Act, r: Round, todo: set<Job>, verdicts: Verdicts, es: seq<Event>) {
    && AllPossible(r, es) && Mirrors(C.Do(s, a), ApplyAll(r, es), Left(todo, a))
    && ApplyAll(r, es).reports == r.reports + ReportOf(s, a, verdicts)
  }

  lemma SilentStep(s: C.State, foreign: C.Table, a: C.Act, r: Round, todo: set<Job>, verdicts: Verdicts)
    requires C.Inv(s, foreign) && C.Enabled(s, a) && !C.FallsThrough(s, a) && Mirrors(s, r, todo)
    requires a.move.Go? && ReportOf(s, a, verdicts) == [] && !C.At(s, a.w).AcqReplace?
    ensures Stands(s, a, r, todo, verdicts, [])
  {
    var pc := C.At(s, a.w);
    C.LocalTable(s.disk, pc, a.move);
    SameStep(s, a, r, todo);
    assert r.reports + [] == r.reports;
  }

  lemma EndStep(s: C.State, foreign: C.Table, a: C.Act, r: Round, todo: set<Job>, verdicts: Verdicts)
    requires C.Inv(s, foreign) && C.Enabled(s, a) && Mirrors(s, r, todo) && a.move.End?
    ensures Stands(s, a, r, todo, verdicts, [])
  {
    SameStep(s, a, r, todo);
    assert r.reports + [] == r.reports;
  }

  lemma BeginStands(s: C.State, a: C.Act, r: Round, todo: set<Job>, verdicts: Verdicts)
    requires C.Enabled(s, a) && Mirrors(s, r, todo) && a.move.Begin? && Takes(todo, a)
    ensures Stands(s, a, r, todo, verdicts, [])
  {
    BeginStep(s, a, r, todo);
    assert r.reports + [] == r.reports;
  }

  lemma AwayStands(s: C.State, foreign: C.Table, a: C.Act, r: Round, todo: set<Job>, verdicts: Verdicts)
      returns (es: seq<Event>)
    requires C.Inv(s, foreign) && C.Enabled(s, a) && Mirrors(s, r, todo) && Scoped(s) && a.move.Go?
    requires Trying(C.At(s, a.w)) && ReportOf(s, a, verdicts) != []
    ensures Stands(s, a, r, todo, verdicts, es)
  {
    var e := TurnedAway(s, a, r, todo, s.pcs[a.w].AcqDecide?);
    ApplyOne(r, e);
    es := [e];
  }

  lemma ReplaceStands(s: C.State, foreign: C.Table, a: C.Act, r: Round, todo: set<Job>, verdicts: Verdicts)
      returns (es: seq<Event>)
    requires C.Inv(s, foreign) && C.Enabled(s, a) && Mirrors(s, r, todo) && Scoped(s) && a.move.Go?
    requires C.At(s, a.w).AcqReplace?
    ensures Stands(s, a, r, todo, verdicts, es)
  {
    var e := Admitted(s, a, r, todo);
    ApplyOne(r, e);
    es := [e];
    assert r.reports + [] == r.reports;
  }

  lemma OverStands(s: C.State, foreign: C.Table, a: C.Act, r: Round, todo: set<Job>, verdicts: Verdicts)
      returns (es: seq<Event>)
    requires C.Inv(s, foreign) && C.Enabled(s, a) && Mirrors(s, r, todo) && Ordinary(verdicts) && a.move.Go?
    requires C.At(s, a.w).RelReplace?
    ensures Stands(s, a, r, todo, verdicts, es)
  {
    var e := Over(s, a, r, todo, verdicts(JobOf(s.pcs[a.w])));
    ApplyOne(r, e);
    es := [e];
  }

  lemma StepStands(s: C.State, foreign: C.Table, a: C.Act, r: Round, todo: set<Job>, verdicts: Verdicts)
      returns (es: seq<Event>)
    requires C.Inv(s, foreign) && C.Enabled(s, a) && !C.FallsThrough(s, a)
    requires Mirrors(s, r, todo) && Scoped(s) && Takes(todo, a) && Ordinary(verdicts)
    ensures Stands(s, a, r, todo, verdicts, es)
  {
    es := [];
    if a.move.Begin? {
      BeginStands(s, a, r, todo, verdicts);
    } else if a.move.End? {
      EndStep(s, foreign, a, r, todo, verdicts);
    } else if C.At(s, a.w).RelReplace? {
      es := OverStands(s, foreign, a, r, todo, verdicts);
    } else if C.At(s, a.w).AcqReplace? {
      es := ReplaceStands(s, foreign, a, r, todo, verdicts);
    } else if ReportOf(s, a, verdicts) != [] {
      es := AwayStands(s, foreign, a, r, todo, verdicts);
    } else {
      SilentStep(s, foreign, a, r, todo, verdicts);
    }
  }

  // ------------------------------------------------------------ a whole round

  lemma {:induction false} PossibleAppend(r: Round, es: seq<Event>, more: seq<Event>)
    requires AllPossible(r, es) && AllPossible(ApplyAll(r, es), more)
    ensures AllPossible(r, es + more) && ApplyAll(r, es + more) == ApplyAll(ApplyAll(r, es), more)
    decreases |es|
  {
    if es == [] {
      assert es + more == more;
    } else {
      ConsSuffix(es, more);
      PossibleAppend(Apply(r, es[0]), es[1..], more);
    }
  }

  /** The events that a run stands for. */
  ghost predicate StandsAll(
      s: C.State, acts: seq<C.Act>, r: Round, todo: set<Job>, verdicts: Verdicts, es: seq<Event>)
  {
    && AllPossible(r, es) && Mirrors(C.Exec(s, acts), ApplyAll(r, es), LeftAll(acts, todo))
    && ApplyAll(r, es).reports == r.reports + ReportsOf(s, acts, verdicts)
  }

  lemma StandsCons(
      s: C.State, acts: seq<C.Act>, r: Round, todo: set<Job>, verdicts: Verdicts, first: seq<Event>, more: seq<Event>)
    requires acts != [] && Stands(s, acts[0], r, todo, verdicts, first)
    requires StandsAll(C.Do(s, acts[0]), acts[1..], ApplyAll(r, first), Left(todo, acts[0]), verdicts, more)
    ensures StandsAll(s, acts, r, todo, verdicts, first + more)
  {
    PossibleAppend(r, first, more);
    Assoc(r.reports, ReportOf(s, acts[0], verdicts), ReportsOf(C.Do(s, acts[0]), acts[1..], verdicts));
  }

  lemma {:induction false} RunStands(
      s: C.State, foreign: C.Table, acts: seq<C.Act>, r: Round, todo: set<Job>, verdicts: Verdicts)
      returns (es: seq<Event>)
    requires C.Inv(s, foreign) && C.Legal(s, acts, false) && Batched(s, acts, todo)
    requires Mirrors(s, r, todo) && Scoped(s) && Ordinary(verdicts)
    ensures StandsAll(s, acts, r, todo, verdicts, es)
    decreases |acts|
  {
    es := [];
    if acts == [] {
      assert r.reports + [] == r.reports;
    } else {
      var first := StepStands(s, foreign, acts[0], r, todo, verdicts);
      C.StepInv(s, foreign, acts[0]);
      StepScoped(s, acts[0], todo);
      var more := RunStands(C.Do(s, acts[0]), C.Left(foreign, s, acts[0]), acts[1..], ApplyAll(r, first),
                            Left(todo, acts[0]), verdicts);
      StandsCons(s, acts, r, todo, verdicts, first, more);
      es := first + more;
    }
  }

  /** The jobs without a scope, which are reported without a claim. */
  function Skips(jobs: seq<Job>): seq<Report> {
    if jobs == [] then [] else [Report(jobs[0], Skipped, 0.0)] + Skips(jobs[1..])
  }

  lemma {:induction false} SkipAll(r: Round) returns (es: seq<Event>)
    requires r.running == [] && forall i :: 0 <= i < |r.waiting| ==> r.waiting[i].scope == []
    ensures Complete(r, es) && Finish(r, es).table == r.table && Finish(r, es).reports == r.reports + Skips(r.waiting)
    decreases |r.waiting|
  {
    es := [];
    if r.waiting == [] {
      assert r.reports + [] == r.reports;
    } else {
      var t := Apply(r, Try(0, true));
      assert t.waiting == r.waiting[1..];
      var more := SkipAll(t);
      es := [Try(0, true)] + more;
      assert es[1..] == more;
      assert r.reports + ([Report(r.waiting[0], Skipped, 0.0)] + Skips(r.waiting[1..]))
        == r.reports + [Report(r.waiting[0], Skipped, 0.0)] + Skips(r.waiting[1..]);
    }
  }

  lemma StartMirrors(s: C.State, batch: seq<Job>)
    requires C.AtRest(s) && DistinctJobs(batch)
    ensures Mirrors(s, Start(s.disk.table, batch), set j | j in batch)
  {
    assert forall w, j :: !Tries(s, w, j) && !Works(s, w, j);
  }

  /** Nobody is left inside a call, and every job with a scope has been taken. */
  ghost predicate AllHome(s: C.State, todo: set<Job>) {
    ClaimSafety.NobodyActive(s) && forall j :: j in todo ==> j.scope == []
  }

  lemma SomeElement(jobs: seq<Job>)
    ensures jobs != [] ==> exists j :: j in jobs
  {
    if jobs != [] { assert jobs[0] in jobs; }
  }

  lemma HomeMirrors(s: C.State, r: Round, todo: set<Job>)
    requires Mirrors(s, r, todo) && AllHome(s, todo)
    ensures r.running == [] && forall i :: 0 <= i < |r.waiting| ==> r.waiting[i].scope == []
  {
    assert forall w, j :: !Tries(s, w, j) && !Works(s, w, j);
    SomeElement(r.running);
    forall i | 0 <= i < |r.waiting| ensures r.waiting[i].scope == [] { assert r.waiting[i] in r.waiting; }
  }

  /** Whatever the threads of a round do, step by step and in any interleaving, until all of them
      are home: it is one of the round's schedules, with the table they leave and the reports they
      make, followed by those for the jobs without a scope. */
  lemma ThreadsAreASchedule(s: C.State, acts: seq<C.Act>, batch: seq<Job>, verdicts: Verdicts)
      returns (es: seq<Event>, skipped: seq<Job>)
    requires C.AtRest(s) && C.Legal(s, acts, false) && DistinctJobs(batch) && Ordinary(verdicts)
    requires Batched(s, acts, set j | j in batch) && AllHome(C.Exec(s, acts), LeftAll(acts, set j | j in batch))
    ensures Complete(Start(s.disk.table, batch), es)
    ensures var last := Finish(Start(s.disk.table, batch), es);
      last.table == C.Exec(s, acts).disk.table && last.reports == ReportsOf(s, acts, verdicts) + Skips(skipped)
  {
    var r, todo := Start(s.disk.table, batch), set j | j in batch;
    C.InvAtRest(s);
    StartMirrors(s, batch);
    var first := RunStands(s, s.disk.table, acts, r, todo, verdicts);
    var mid := ApplyAll(r, first);
    HomeMirrors(C.Exec(s, acts), mid, LeftAll(acts, todo));
    skipped := mid.waiting;
    var more := SkipAll(mid);
    CompleteAppend(r, first, more);
    es := first + more;
    assert [] + ReportsOf(s, acts, verdicts) == ReportsOf(s, acts, verdicts);
  }

  /** So what was shown of a round under every schedule holds of the protocol's runs: the threads
      give back all claims, and report on every ticket once. */
  lemma ThreadsFinishRound(s: C.State, acts: seq<C.Act>, batch: seq<Job>, verdicts: Verdicts)
    requires C.AtRest(s) && C.Legal(s, acts, false) && DistinctJobs(batch) && Ordinary(verdicts)
    requires NotForeign(s.disk.table, batch)
    requires Batched(s, acts, set j | j in batch) && AllHome(C.Exec(s, acts), LeftAll(acts, set j | j in batch))
    ensures C.Exec(s, acts).disk.table == s.disk.table
    ensures exists skipped :: RoundDone(s.disk.table, batch,
      Round([], [], s.disk.table, ReportsOf(s, acts, verdicts) + Skips(skipped)))
  {
    var es, skipped := ThreadsAreASchedule(s, acts, batch, verdicts);
    var last := Finish(Start(s.disk.table, batch), es);
    OneRound(s.disk.table, batch, es);
    StartInv(s.disk.table, batch);
    RoundResult(s.disk.table, batch, Start(s.disk.table, batch), es);
    assert last == Round([], [], s.disk.table, ReportsOf(s, acts, verdicts) + Skips(skipped));
  }
}
