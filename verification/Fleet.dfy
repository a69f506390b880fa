/** The ticket life cycle of the orchestrator (fleet/fleet.py) over one shared state: ticket
    files, archive, base branch, worktrees, and the claim table with its workers.

    Commands run as separate steps and interleave freely: several `run` workers, `qa`, one
    `land` at a time, `close`, `scope`, hand-filed tickets, a kill at any point and `clean`.
    A kill may hit some workers and spare others, and runs may go on after it without `clean`. */
module Fleet {
  import opened Wrappers
  import C = Claims

  type Id = C.Id
  type File = C.File

  datatype Status =
    | Open | InProgress | FixedUnverified | QaPass | QaFail | NeedsAttention | Landed | Closed | Epic | NotDispatchable

  datatype Ticket = Ticket(status: Status, scope: seq<File>, dependsOn: seq<Id>)

  /** A commit on base's first-parent chain: the merge of a ticket's branch, with the dependencies
      the ticket declared when it was merged. (A commit that is no merge of the fleet's has an id
      that names no ticket.) */
  datatype Merge = Merge(id: Id, dependsOn: seq<Id>)

  /** The ticket `land` is at, and whether merging its branch made a commit: a branch that carries
      nothing base does not have is "already up to date". */
  datatype Landing = Landing(id: Id, commit: bool)

  /** How far a worker that holds its claims has come. */
  datatype Phase = Marked | Isolated | Committed | Finished

  datatype State = State(
    claims: C.State,
    foreign: C.Table,            // claims left in the table by somebody else
    crashed: bool,               // somebody was killed and `clean` has not been run yet
    tickets: map<Id, Ticket>,
    archive: map<Id, Ticket>,
    base: seq<Merge>,
    ahead: set<Id>,              // tickets whose branch carries commits that are not on base
    landing: Option<Landing>,    // merged by `land`, not yet settled
    worktrees: set<Id>,
    queued: map<Id, Ticket>,     // what the running `run` commands selected and have not started
    phases: map<C.Worker, Phase>)

  datatype Step =
    | Select(ids: set<Id>, retry: bool)
    | Claim(act: C.Act)
    | Mark(w: C.Worker)
    | Isolate(w: C.Worker)
    | Commit(w: C.Worker)
    | Finish(w: C.Worker, outcome: Status)
    | Qa(id: Id, ok: bool)
    | Conflict(id: Id)
    | MergeBranch(id: Id)
    | Settle(dropped: bool)
    | Revert
    | Raise
    | Close(id: Id)
    | FileTicket(id: Id, ticket: Ticket)
    | Rescope(id: Id, files: seq<File>)
    | Kill(ws: set<C.Worker>, deselected: set<Id>, land: bool)
    | Clean

  /** Dependencies whose code is not on the base branch yet. */
  function UnmetDeps(deps: seq<Id>, live: map<Id, Ticket>, archived: set<Id>): seq<Id> {
    if deps == [] then []
    else
      var rest := UnmetDeps(deps[1..], live, archived);
      if deps[0] in archived || (deps[0] in live && live[deps[0]].status.Landed?) then rest else [deps[0]] + rest
  }

  predicate Dispatchable(s: State, id: Id, retry: bool) {
    && id in s.tickets
    && (s.tickets[id].status.Open? || (retry && (s.tickets[id].status.NeedsAttention? || s.tickets[id].status.QaFail?)))
    && s.tickets[id].scope != []
    && UnmetDeps(s.tickets[id].dependsOn, s.tickets, s.archive.Keys) == []
  }

  function Tid(s: State, w: C.Worker): Option<Id> {
    if w in s.claims.pcs && s.claims.pcs[w].Holding? then Some(s.claims.pcs[w].tid) else None
  }

  /** Whose branch carries a commit again once `land` has taken the last one off base: the ticket
      that was being landed, whose worktree was rebased onto it, and the ticket that the commit is
      of, unless it had landed and its branch was deleted. */
  function Regained(s: State): set<Id>
    requires s.landing.Some? && s.base != []
  {
    var l, x := s.landing.value, s.base[|s.base| - 1].id;
    (if l.commit || l.id in s.worktrees then {l.id} else {})
    + if x in s.worktrees || (x in s.tickets && !s.tickets[x].status.Landed?) then {x} else {}
  }

  predicate Enabled(s: State, step: Step) {
    match step
    case Select(ids, retry) => forall id :: id in ids ==> Dispatchable(s, id, retry)
    case Claim(a) =>
      && C.Enabled(s.claims, a) && !C.FallsThrough(s.claims, a)
      && (a.move.Begin? ==> a.move.tid in s.queued && a.move.files == s.queued[a.move.tid].scope)
      && (a.move.End? ==> a.w in s.phases && s.phases[a.w].Finished?)
    case Mark(w) => Tid(s, w).Some? && w !in s.phases
    case Isolate(w) => Tid(s, w).Some? && w in s.phases && s.phases[w].Marked?
    case Commit(w) => Tid(s, w).Some? && w in s.phases && s.phases[w].Isolated?
    case Finish(w, outcome) =>
      Tid(s, w).Some? && w in s.phases && !s.phases[w].Finished?
      && (outcome.NeedsAttention? || (outcome.FixedUnverified? && s.phases[w].Committed?))
    case Qa(id, _) => id in s.tickets && id in s.worktrees
    case Conflict(id) => s.landing.None? && id in s.tickets && s.tickets[id].status.QaPass?
    case MergeBranch(id) => s.landing.None? && id in s.tickets && s.tickets[id].status.QaPass?
    case Settle(_) => s.landing.Some?
    case Revert => s.landing.Some? && |s.base| >= 2
    case Raise => s.landing.Some?
    case Close(id) => id in s.tickets && s.tickets[id].status.Landed?
    case FileTicket(id, t) =>
      id !in s.tickets && id !in s.archive
      && (t.status.Open? || t.status.Closed? || t.status.Epic? || t.status.NotDispatchable? || t.status.NeedsAttention?)
    case Rescope(id, _) => id in s.tickets
    case Kill(ws, deselected, _) =>
      forall w :: w in s.claims.pcs && w !in ws && Starting(s, w) ==> s.claims.pcs[w].tid !in deselected
    case Clean => forall w :: w in s.claims.pcs ==> !C.Active(s.claims.pcs[w])
  }

  function SetStatus(tickets: map<Id, Ticket>, id: Id, status: Status): map<Id, Ticket> {
    if id in tickets then tickets[id := tickets[id].(status := status)] else tickets
  }

  /** `clean` puts interrupted tickets back to open. */
  function Reopen(t: Ticket): Ticket {
    if t.status.InProgress? then t.(status := Open) else t
  }

  function ReopenAll(tickets: map<Id, Ticket>): map<Id, Ticket> {
    map id | id in tickets :: Reopen(tickets[id])
  }

  /** The worktrees `clean` leaves once it has looked at the tickets in `done`, going by their old status. */
  function KeptTrees(tickets: map<Id, Ticket>, trees: set<Id>, done: set<Id>): set<Id>
    requires done <= tickets.Keys
  {
    set id | id in trees && !(id in done && (tickets[id].status.Landed? || tickets[id].status.Open?))
  }

  /** What a kill of some workers leaves: whoever was in the critical section leaves the lock behind. */
  function Killed(pcs: map<C.Worker, C.Pc>, ws: set<C.Worker>): map<C.Worker, C.Pc> {
    map w | w in pcs && (w !in ws || C.Critical(pcs[w])) :: if w in ws then C.Dead else pcs[w]
  }

  /** The claims that nobody living made, once these workers are killed. */
  function Abandoned(c: C.State, foreign: C.Table, ws: set<C.Worker>): C.Table {
    map f | f in c.disk.table && (f in foreign || exists w :: w in ws && C.OwnedBy(c, w, f)) :: c.disk.table[f]
  }

  /** Everything is killed: all workers, with what they had selected, and `land`. */
  function KillAll(s: State): Step {
    Kill(s.claims.pcs.Keys + s.phases.Keys, s.queued.Keys, true)
  }

  function Do(s: State, step: Step): State
    requires Enabled(s, step)
  {
    match step
    case Select(ids, _) => s.(queued := s.queued + map id | id in ids :: s.tickets[id])
    case Claim(a) =>
      s.(claims := C.Do(s.claims, a), foreign := C.Left(s.foreign, s.claims, a),
         phases := if a.move.End? then s.phases - {a.w} else s.phases)
    case Mark(w) =>
      var id := Tid(s, w).value;
      s.(tickets := SetStatus(s.tickets, id, InProgress), queued := s.queued - {id}, phases := s.phases[w := Marked])
    case Isolate(w) => s.(worktrees := s.worktrees + {Tid(s, w).value}, phases := s.phases[w := Isolated])
    case Commit(w) => s.(ahead := s.ahead + {Tid(s, w).value}, phases := s.phases[w := Committed])
    case Finish(w, outcome) =>
      s.(tickets := SetStatus(s.tickets, Tid(s, w).value, outcome), phases := s.phases[w := Finished])
    case Qa(id, ok) => s.(tickets := SetStatus(s.tickets, id, if ok then QaPass else QaFail))
    case Conflict(id) => s.(tickets := SetStatus(s.tickets, id, NeedsAttention))
    case MergeBranch(id) =>
      s.(base := if id in s.ahead then s.base + [Merge(id, s.tickets[id].dependsOn)] else s.base,
         ahead := s.ahead - {id}, landing := Some(Landing(id, id in s.ahead)))
    case Settle(dropped) =>
      var id := s.landing.value.id;
      s.(tickets := SetStatus(s.tickets, id, Landed), landing := None,
         worktrees := if dropped then s.worktrees - {id} else s.worktrees)
    case Revert =>
      // `reset --hard HEAD~1` takes back the last commit, whoever made it.
      s.(base := s.base[..|s.base| - 1], ahead := s.ahead + Regained(s),
         tickets := SetStatus(s.tickets, s.landing.value.id, NeedsAttention), landing := None)
    case Raise => s.(landing := None)
    case Close(id) => s.(archive := s.archive[id := s.tickets[id].(status := Closed)], tickets := s.tickets - {id})
    case FileTicket(id, t) => s.(tickets := s.tickets[id := t])
    case Rescope(id, files) =>
      s.(tickets := s.tickets[id := if files == [] then s.tickets[id].(status := NotDispatchable)
                                    else s.tickets[id].(scope := files, status := Open)])
    case Kill(ws, deselected, land) =>
      s.(claims := s.claims.(pcs := Killed(s.claims.pcs, ws)), foreign := Abandoned(s.claims, s.foreign, ws),
         crashed := true, landing := if land then None else s.landing,
         queued := s.queued - deselected, phases := s.phases - ws)
    case Clean =>
      s.(claims := C.State(s.claims.disk.(table := map[], lock := false), map[]), foreign := map[], crashed := false,
         tickets := ReopenAll(s.tickets), worktrees := KeptTrees(s.tickets, s.worktrees, s.tickets.Keys))
  }

  predicate Legal(s: State, steps: seq<Step>)
    decreases |steps|
  {
    steps == [] || (Enabled(s, steps[0]) && Legal(Do(s, steps[0]), steps[1..]))
  }

  function Exec(s: State, steps: seq<Step>): State
    requires Legal(s, steps)
    decreases |steps|
  {
    if steps == [] then s else Exec(Do(s, steps[0]), steps[1..])
  }

  // ------------------------------------------------------------ what is known about a ticket

  predicate Known(s: State, id: Id) {
    id in s.tickets || id in s.archive
  }

  function Deps(s: State, id: Id): seq<Id>
    requires Known(s, id)
  {
    if id in s.tickets then s.tickets[id].dependsOn else s.archive[id].dependsOn
  }

  /** How much of base no pending `land` of its own can take back. */
  function SettledLength(s: State): int {
    if s.landing.Some? && s.landing.value.commit then |s.base| - 1 else |s.base|
  }

  /** The ticket's merge is on base and no pending `land` takes it back as its own. */
  ghost predicate Merged(s: State, id: Id) {
    exists i :: 0 <= i < SettledLength(s) && i < |s.base| && s.base[i].id == id
  }

  ghost predicate Cleared(s: State, id: Id) {
    Known(s, id) && forall d :: d in Deps(s, id) ==> Merged(s, d)
  }

  ghost predicate MergedBefore(base: seq<Merge>, i: int, id: Id) {
    exists j :: 0 <= j < i && j < |base| && base[j].id == id
  }

  /** From position `from` on, every merge comes after the merges its ticket depends on. */
  ghost predicate InDependencyOrder(base: seq<Merge>, from: nat) {
    forall i, d :: from <= i < |base| && d in base[i].dependsOn ==> MergedBefore(base, i, d)
  }

  predicate InFlight(status: Status) {
    status.InProgress? || status.FixedUnverified? || status.QaPass?
  }

  // ------------------------------------------------------------ what every step keeps, whatever `land` does

  ghost predicate KeysApart(s: State) {
    s.tickets.Keys !! s.archive.Keys
  }

  ghost predicate ClaimsInv(s: State) {
    C.Inv(s.claims, s.foreign)
  }

  lemma StepKeysApart(s: State, step: Step)
    requires KeysApart(s) && Enabled(s, step)
    ensures KeysApart(Do(s, step))
  {}

  lemma AbandonedKnown(c: C.State, foreign: C.Table, ws: set<C.Worker>)
    requires C.NoStale(c, foreign)
    ensures C.NoStale(c.(pcs := Killed(c.pcs, ws)), Abandoned(c, foreign, ws))
  {
    var d := c.(pcs := Killed(c.pcs, ws));
    forall f | f in d.disk.table ensures f in Abandoned(c, foreign, ws) || exists w :: C.OwnedBy(d, w, f) {
      if f !in foreign {
        var w :| C.OwnedBy(c, w, f);
        if w !in ws { assert C.OwnedBy(d, w, f); }
      }
    }
  }

  lemma KilledMutex(c: C.State, ws: set<C.Worker>)
    requires C.Mutex(c)
    ensures C.Mutex(c.(pcs := Killed(c.pcs, ws)))
  {
    if c.disk.lock {
      var w :| w in c.pcs && C.Critical(c.pcs[w]);
      assert w in Killed(c.pcs, ws);
    }
  }

  lemma KilledInv(c: C.State, foreign: C.Table, ws: set<C.Worker>)
    requires C.Inv(c, foreign)
    ensures C.Inv(c.(pcs := Killed(c.pcs, ws)), Abandoned(c, foreign, ws))
  {
    KilledMutex(c, ws);
    AbandonedKnown(c, foreign, ws);
    KilledKeeps(c, ws);
    KilledIds(c, ws);
  }

  lemma KilledKeeps(c: C.State, ws: set<C.Worker>)
    requires C.OwnersListed(c) && forall w :: w in c.pcs ==> C.Fresh(c.disk, c.pcs[w])
    ensures var d := c.(pcs := Killed(c.pcs, ws));
      C.OwnersListed(d) && forall w :: w in d.pcs ==> C.Fresh(d.disk, d.pcs[w])
  {}

  lemma KilledIds(c: C.State, ws: set<C.Worker>)
    requires C.DistinctIds(c)
    ensures C.DistinctIds(c.(pcs := Killed(c.pcs, ws)))
  {}

  lemma StepClaims(s: State, step: Step)
    requires ClaimsInv(s) && Enabled(s, step)
    ensures ClaimsInv(Do(s, step))
  {
    if step.Claim? {
      C.StepInv(s.claims, s.foreign, step.act);
    } else if step.Kill? {
      KilledInv(s.claims, s.foreign, step.ws);
    } else if step.Clean? {
      C.InvAtRest(Do(s, step).claims);
    }
  }

  /** Ids never vanish, and nobody rewrites `depends_on`. */
  lemma KnownStays(s: State, step: Step, id: Id)
    requires KeysApart(s) && Enabled(s, step) && Known(s, id)
    ensures Known(Do(s, step), id) && Deps(Do(s, step), id) == Deps(s, id)
  {}

  // ------------------------------------------------------------ what the dependency gate rests on

  predicate Acquiring(pc: C.Pc) {
    pc.AcqSpin? || pc.AcqRead? || pc.AcqDecide? || pc.AcqTmp? || pc.AcqReplace? || pc.AcqUnlock? || pc.Holding?
  }

  /** The worker has taken a ticket and not yet marked it in progress. */
  predicate Starting(s: State, w: C.Worker) {
    w in s.claims.pcs && w !in s.phases && Acquiring(s.claims.pcs[w])
  }

  /** Whatever counts as met for the gate is on base. */
  ghost predicate LandedInv(s: State) {
    && (forall id :: id in s.archive ==> Merged(s, id))
    && (forall id :: id in s.tickets && s.tickets[id].status.Landed? ==> Merged(s, id))
  }

  ghost predicate QueueInv(s: State) {
    && (forall id :: id in s.queued ==> Cleared(s, id))
    && (forall w :: Starting(s, w) ==> s.claims.pcs[w].tid in s.queued)
  }

  /** What `land` is at is not landed yet, and its merge, if it made a commit, is the last one. */
  ghost predicate LandingInv(s: State) {
    s.landing.Some? ==>
      var l := s.landing.value;
      && l.id in s.tickets && l.id !in s.archive && !s.tickets[l.id].status.Landed?
      && (l.commit ==> s.base != [] && s.base[|s.base| - 1].id == l.id)
  }

  ghost predicate GateInv(s: State) {
    KeysApart(s) && ClaimsInv(s) && LandedInv(s) && QueueInv(s) && LandingInv(s)
  }

  /** The last commit on base is not needed: its ticket is merged further down as well, or it is
      neither landed nor archived and nothing that `run` has selected depends on it. */
  ghost predicate Spare(s: State)
    requires s.base != []
  {
    var n := |s.base| - 1;
    var x := s.base[n].id;
    || (exists i :: 0 <= i < n && s.base[i].id == x)
    || (&& x !in s.archive && !(x in s.tickets && s.tickets[x].status.Landed?)
        && forall q :: q in s.queued && Known(s, q) ==> x !in Deps(s, q))
  }

  /** What a caller of `land` would have to see to: a merge that made no commit is called landed
      only if the ticket was merged before, and is never taken back at the cost of a commit that
      somebody needs. */
  ghost predicate Harmless(s: State, step: Step) {
    match step
    case Settle(_) => s.landing.Some? && (s.landing.value.commit || Merged(s, s.landing.value.id))
    case Revert => s.landing.Some? && s.base != [] && (s.landing.value.commit || Spare(s))
    case _ => true
  }

  ghost predicate AllHarmless(s: State, steps: seq<Step>)
    requires Legal(s, steps)
    decreases |steps|
  {
    steps == [] || (Harmless(s, steps[0]) && AllHarmless(Do(s, steps[0]), steps[1..]))
  }

  lemma {:induction false} UnmetEmpty(deps: seq<Id>, live: map<Id, Ticket>, archived: set<Id>)
    ensures UnmetDeps(deps, live, archived) == [] <==>
      forall d :: d in deps ==> d in archived || (d in live && live[d].status.Landed?)
  {
    if deps != [] {
      UnmetEmpty(deps[1..], live, archived);
      assert forall d :: d in deps <==> d == deps[0] || d in deps[1..];
    }
  }

  /** The gate of `run`: a ticket it selects has every dependency merged. */
  lemma DispatchableCleared(s: State, id: Id, retry: bool)
    requires LandedInv(s) && Dispatchable(s, id, retry)
    ensures Cleared(s, id)
  {
    UnmetEmpty(s.tickets[id].dependsOn, s.tickets, s.archive.Keys);
  }

  /** What is merged stays merged, but for the last commit when it is taken back for want of an own one. */
  lemma MergedStays(s: State, step: Step, id: Id)
    requires LandingInv(s) && Enabled(s, step) && Merged(s, id)
    requires step.Revert? && !s.landing.value.commit ==>
      id != s.base[|s.base| - 1].id || exists i :: 0 <= i < |s.base| - 1 && s.base[i].id == id
    ensures Merged(Do(s, step), id)
  {
    var t := Do(s, step);
    var i :| 0 <= i < SettledLength(s) && i < |s.base| && s.base[i].id == id;
    if step.Revert? && !s.landing.value.commit && i == |s.base| - 1 {
      i :| 0 <= i < |s.base| - 1 && s.base[i].id == id;
    }
    assert t.base[i].id == id;
  }

  lemma ClearedStays(s: State, step: Step, id: Id)
    requires KeysApart(s) && LandingInv(s) && Enabled(s, step) && Cleared(s, id)
    requires step.Revert? && !s.landing.value.commit ==>
      s.base[|s.base| - 1].id !in Deps(s, id)
      || exists i :: 0 <= i < |s.base| - 1 && s.base[i].id == s.base[|s.base| - 1].id
    ensures Cleared(Do(s, step), id)
  {
    KnownStays(s, step, id);
    forall d | d in Deps(s, id) ensures Merged(Do(s, step), d) {
      MergedStays(s, step, d);
    }
  }

  lemma StepLandingInv(s: State, step: Step)
    requires KeysApart(s) && LandingInv(s) && Enabled(s, step)
    ensures LandingInv(Do(s, step))
  {}

  lemma SettledMerge(s: State, dropped: bool)
    requires LandingInv(s) && s.landing.Some? && s.landing.value.commit
    ensures Merged(Do(s, Settle(dropped)), s.landing.value.id)
  {
    var t := Do(s, Settle(dropped));
    assert t.base[|s.base| - 1].id == s.landing.value.id && SettledLength(t) == |s.base|;
  }

  lemma StepLanded(s: State, step: Step, id: Id)
    requires GateInv(s) && Enabled(s, step) && Harmless(s, step)
    requires var t := Do(s, step); id in t.archive || (id in t.tickets && t.tickets[id].status.Landed?)
    ensures Merged(Do(s, step), id)
  {
    if step.Settle? && id == s.landing.value.id && s.landing.value.commit {
      SettledMerge(s, step.dropped);
    } else {
      MergedStays(s, step, id);
    }
  }

  lemma StepQueued(s: State, step: Step, id: Id)
    requires GateInv(s) && Enabled(s, step) && Harmless(s, step) && id in Do(s, step).queued
    ensures Cleared(Do(s, step), id)
  {
    if step.Select? && id in step.ids { DispatchableCleared(s, id, step.retry); }
    ClearedStays(s, step, id);
  }

  lemma ClaimStarting(s: State, a: C.Act, w: C.Worker)
    requires ClaimsInv(s) && QueueInv(s) && Enabled(s, Claim(a)) && Starting(Do(s, Claim(a)), w)
    ensures Do(s, Claim(a)).claims.pcs[w].tid in s.queued
  {
    if w == a.w {
      C.LocalTable(s.claims.disk, C.At(s.claims, w), a.move);
      assert a.move.Go? ==> Starting(s, w);
    } else {
      assert Starting(s, w);
    }
  }

  lemma MarkStarting(s: State, v: C.Worker, w: C.Worker)
    requires ClaimsInv(s) && QueueInv(s) && Enabled(s, Mark(v)) && Starting(Do(s, Mark(v)), w)
    ensures s.claims.pcs[w].tid in Do(s, Mark(v)).queued
  {
    assert Starting(s, w) && w != v;
  }

  lemma StepStarting(s: State, step: Step, w: C.Worker)
    requires ClaimsInv(s) && QueueInv(s) && Enabled(s, step) && Starting(Do(s, step), w)
    ensures Do(s, step).claims.pcs[w].tid in Do(s, step).queued
  {
    match step
    case Claim(a) => ClaimStarting(s, a, w);
    case Mark(v) => MarkStarting(s, v, w);
    case Kill(ws, _, _) => assert Starting(s, w);
    case Clean =>
    case _ => assert Starting(s, w);
  }

  lemma StepGate(s: State, step: Step)
    requires GateInv(s) && Enabled(s, step) && Harmless(s, step)
    ensures GateInv(Do(s, step))
  {
    var t := Do(s, step);
    StepKeysApart(s, step);
    StepClaims(s, step);
    StepLandingInv(s, step);
    forall id | id in t.archive || (id in t.tickets && t.tickets[id].status.Landed?) ensures Merged(t, id) {
      StepLanded(s, step, id);
    }
    forall id | id in t.queued ensures Cleared(t, id) { StepQueued(s, step, id); }
    forall w | Starting(t, w) ensures t.claims.pcs[w].tid in t.queued { StepStarting(s, step, w); }
  }

  // ------------------------------------------------------------ what the merge order rests on

  ghost predicate BaseInv(s: State, from: nat) {
    InDependencyOrder(s.base, from) && from <= SettledLength(s)
  }

  /** Everything that has left the queue of waiting tickets had its dependencies merged. */
  ghost predicate WorkCleared(s: State) {
    && (forall w :: w in s.claims.pcs && C.Active(s.claims.pcs[w]) ==> Cleared(s, s.claims.pcs[w].tid))
    && (forall id :: id in s.worktrees ==> Cleared(s, id))
    && (forall id :: id in s.tickets && InFlight(s.tickets[id].status) ==> Cleared(s, id))
  }

  ghost predicate OrderInv(s: State, from: nat) {
    BaseInv(s, from) && WorkCleared(s) && (s.landing.Some? ==> s.landing.value.commit)
  }

  ghost predicate Inv(s: State, from: nat) {
    GateInv(s) && OrderInv(s, from)
  }

  /** Only branches that carry a commit that is not on base are merged. */
  predicate Solid(s: State, step: Step) {
    step.MergeBranch? ==> step.id in s.ahead
  }

  predicate AllSolid(s: State, steps: seq<Step>)
    requires Legal(s, steps)
    decreases |steps|
  {
    steps == [] || (Solid(s, steps[0]) && AllSolid(Do(s, steps[0]), steps[1..]))
  }

  lemma SolidHarmless(s: State, from: nat, step: Step)
    requires Inv(s, from) && Enabled(s, step)
    ensures Harmless(s, step)
  {}

  lemma StepActive(s: State, from: nat, step: Step, w: C.Worker)
    requires Inv(s, from) && Enabled(s, step)
    requires var t := Do(s, step); w in t.claims.pcs && C.Active(t.claims.pcs[w])
    ensures Cleared(s, Do(s, step).claims.pcs[w].tid)
  {
    if step.Claim? {
      ClaimActive(s, from, step.act, w);
    } else {
      assert w in s.claims.pcs && s.claims.pcs[w] == Do(s, step).claims.pcs[w];
    }
  }

  lemma ClaimActive(s: State, from: nat, a: C.Act, w: C.Worker)
    requires Inv(s, from) && Enabled(s, Claim(a))
    requires var t := Do(s, Claim(a)); w in t.claims.pcs && C.Active(t.claims.pcs[w])
    ensures Cleared(s, Do(s, Claim(a)).claims.pcs[w].tid)
  {
    if w == a.w { C.LocalTable(s.claims.disk, C.At(s.claims, w), a.move); }
  }

  lemma StepWorkCleared(s: State, from: nat, step: Step)
    requires Inv(s, from) && Enabled(s, step)
    ensures WorkCleared(Do(s, step))
  {
    var t := Do(s, step);
    forall w | w in t.claims.pcs && C.Active(t.claims.pcs[w]) ensures Cleared(t, t.claims.pcs[w].tid) {
      StepActive(s, from, step, w);
      ClearedStays(s, step, t.claims.pcs[w].tid);
    }
    StepTreesCleared(s, from, step);
  }

  lemma StepTreesCleared(s: State, from: nat, step: Step)
    requires Inv(s, from) && Enabled(s, step)
    ensures var t := Do(s, step);
      && (forall id :: id in t.worktrees ==> Cleared(t, id))
      && (forall id :: id in t.tickets && InFlight(t.tickets[id].status) ==> Cleared(t, id))
  {
    var t := Do(s, step);
    forall id | id in t.worktrees ensures Cleared(t, id) {
      StepTree(s, from, step, id);
      ClearedStays(s, step, id);
    }
    forall id | id in t.tickets && InFlight(t.tickets[id].status) ensures Cleared(t, id) {
      StepInFlight(s, from, step, id);
      ClearedStays(s, step, id);
    }
  }

  lemma StepTree(s: State, from: nat, step: Step, id: Id)
    requires Inv(s, from) && Enabled(s, step) && id in Do(s, step).worktrees
    ensures Cleared(s, id)
  {
    assert id in s.worktrees || (step.Isolate? && C.Active(s.claims.pcs[step.w]) && s.claims.pcs[step.w].tid == id);
  }

  lemma StepInFlight(s: State, from: nat, step: Step, id: Id)
    requires Inv(s, from) && Enabled(s, step)
    requires id in Do(s, step).tickets && InFlight(Do(s, step).tickets[id].status)
    ensures Cleared(s, id)
  {
    if step.Mark? || step.Finish? {
      assert C.Active(s.claims.pcs[step.w]);
    } else if step.Qa? {
      assert step.id in s.worktrees;
    } else {
      assert id in s.tickets && InFlight(s.tickets[id].status);
    }
  }

  lemma OldMergeBefore(s: State, from: nat, step: Step, i: nat, d: Id)
    requires Inv(s, from) && Enabled(s, step)
    requires from <= i < |s.base| && i < |Do(s, step).base| && d in s.base[i].dependsOn
    ensures MergedBefore(Do(s, step).base, i, d)
  {
    assert MergedBefore(s.base, i, d);
    var j :| 0 <= j < i && j < |s.base| && s.base[j].id == d;
    assert Do(s, step).base[j] == s.base[j];
  }

  lemma NewMergeBefore(s: State, from: nat, id: Id, d: Id)
    requires Inv(s, from) && Enabled(s, MergeBranch(id)) && d in s.tickets[id].dependsOn
    ensures MergedBefore(s.base, |s.base|, d)
  {
    assert Cleared(s, id) && Merged(s, d);
  }

  lemma StepBase(s: State, from: nat, step: Step)
    requires Inv(s, from) && Enabled(s, step)
    ensures BaseInv(Do(s, step), from)
  {
    var t := Do(s, step);
    forall i, d | from <= i < |t.base| && d in t.base[i].dependsOn ensures MergedBefore(t.base, i, d) {
      if i < |s.base| {
        OldMergeBefore(s, from, step, i, d);
      } else {
        NewMergeBefore(s, from, step.id, d);
        var j :| 0 <= j < |s.base| && s.base[j].id == d;
        assert t.base[j] == s.base[j];
      }
    }
  }

  lemma StepInv(s: State, from: nat, step: Step)
    requires Inv(s, from) && Enabled(s, step) && Solid(s, step)
    ensures Inv(Do(s, step), from)
  {
    SolidHarmless(s, from, step);
    StepGate(s, step);
    StepWorkCleared(s, from, step);
    StepBase(s, from, step);
  }

  // ------------------------------------------------------------ whole runs

  lemma {:induction false} RunGate(s: State, steps: seq<Step>)
    requires GateInv(s) && Legal(s, steps) && AllHarmless(s, steps)
    ensures GateInv(Exec(s, steps))
    decreases |steps|
  {
    if steps != [] {
      StepGate(s, steps[0]);
      RunGate(Do(s, steps[0]), steps[1..]);
    }
  }

  lemma {:induction false} RunInv(s: State, from: nat, steps: seq<Step>)
    requires Inv(s, from) && Legal(s, steps) && AllSolid(s, steps)
    ensures Inv(Exec(s, steps), from) && AllHarmless(s, steps)
    decreases |steps|
  {
    if steps != [] {
      SolidHarmless(s, from, steps[0]);
      StepInv(s, from, steps[0]);
      RunInv(Do(s, steps[0]), from, steps[1..]);
    }
  }

  /** A quiet repository: nobody is working, nothing is in flight, and the merges of archived
      and landed tickets are on base. */
  ghost predicate Init(s: State) {
    && C.AtRest(s.claims) && s.foreign == s.claims.disk.table && !s.crashed
    && KeysApart(s)
    && s.landing.None? && s.worktrees == {} && s.queued == map[] && s.phases == map[]
    && (forall id :: id in s.tickets ==> !InFlight(s.tickets[id].status))
    && LandedInv(s)
  }

  lemma InitInv(s: State)
    requires Init(s)
    ensures Inv(s, |s.base|)
  {
    C.InvAtRest(s.claims);
  }
}
