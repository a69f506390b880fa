/** Safety of claims over whole runs of the protocol (fleet/lib/runner.py), and how it is lost when
    a release gives up waiting for the lock and goes on without it, as the code does after its
    last try. */
module ClaimSafety {
  import opened Wrappers
  import opened Claims

  /** The tickets a run starts. */
  function Begun(acts: seq<Act>): set<Id> {
    set a | a in acts && a.move.Begin? :: a.move.tid
  }

  ghost predicate NotWorkedOn(s: State, id: Id) {
    forall w :: w in s.pcs && Active(s.pcs[w]) ==> s.pcs[w].tid != id
  }

  lemma StepNotWorkedOn(s: State, a: Act, id: Id)
    requires Enabled(s, a) && NotWorkedOn(s, id) && (a.move.Begin? ==> a.move.tid != id)
    ensures NotWorkedOn(Do(s, a), id)
  {}

  /** A leftover claim stays until its own ticket is worked on. */
  lemma {:induction false} LeftStays(s: State, foreign: Table, acts: seq<Act>, f: File)
    requires Legal(s, acts, false) && f in foreign && NotWorkedOn(s, foreign[f]) && foreign[f] !in Begun(acts)
    ensures f in LeftAll(foreign, s, acts) && LeftAll(foreign, s, acts)[f] == foreign[f]
    decreases |acts|
  {
    if acts != [] {
      assert acts[0].move.Begin? ==> acts[0].move.tid in Begun(acts);
      assert Begun(acts[1..]) <= Begun(acts) by { assert forall a :: a in acts[1..] ==> a in acts; }
      StepNotWorkedOn(s, acts[0], foreign[f]);
      LeftStays(Do(s, acts[0]), Left(foreign, s, acts[0]), acts[1..], f);
    }
  }

  lemma {:induction false} LeftShrinks(s: State, foreign: Table, acts: seq<Act>)
    ensures forall f :: f in LeftAll(foreign, s, acts) ==> f in foreign && LeftAll(foreign, s, acts)[f] == foreign[f]
    decreases |acts|
  {
    if acts != [] { LeftShrinks(Do(s, acts[0]), Left(foreign, s, acts[0]), acts[1..]); }
  }

  ghost predicate NobodyActive(s: State) {
    forall w :: w in s.pcs ==> s.pcs[w].Idle? || s.pcs[w].Raised?
  }

  /** Whatever the interleaving: as long as every release gets the lock, claims are safe at
      every point. */
  lemma SafeRuns(s: State, acts: seq<Act>)
    requires AtRest(s) && Legal(s, acts, false)
    ensures Safe(Exec(s, acts))
  {
    InvAtRest(s);
    RunInv(s, s.disk.table, acts);
    InvSafe(Exec(s, acts), LeftAll(s.disk.table, s, acts));
  }

  /** Once all workers have gone home the lock is free and every claim they made is gone; of the
      claims they found, all are left but those of the tickets they worked on. */
  lemma ClaimsReturned(s: State, acts: seq<Act>)
    requires AtRest(s) && Legal(s, acts, false) && NobodyActive(Exec(s, acts))
    ensures var t := Exec(s, acts);
      && !t.disk.lock
      && (forall f :: f in t.disk.table ==> f in s.disk.table && t.disk.table[f] == s.disk.table[f])
      && (forall f :: f in s.disk.table && s.disk.table[f] !in Begun(acts) ==>
            f in t.disk.table && t.disk.table[f] == s.disk.table[f])
  {
    var t, left := Exec(s, acts), LeftAll(s.disk.table, s, acts);
    InvAtRest(s);
    RunInv(s, s.disk.table, acts);
    LeftShrinks(s, s.disk.table, acts);
    forall f | f in t.disk.table ensures f in left && t.disk.table[f] == left[f] {
      assert forall w :: !OwnedBy(t, w, f);
    }
    forall f | f in s.disk.table && s.disk.table[f] !in Begun(acts)
      ensures f in t.disk.table && t.disk.table[f] == s.disk.table[f]
    {
      LeftStays(s, s.disk.table, acts, f);
    }
  }

  // ------------------------------------------------------------ each call takes effect at one instant

  /** What a call does to the table as a whole. */
  datatype Effect = Granted(tid: Id, files: seq<File>) | Denied(tid: Id, files: seq<File>) | Returned(tid: Id)

  function EffectOf(s: State, a: Act): Option<Effect> {
    if !a.move.Go? then None
    else match At(s, a.w)
      case AcqDecide(tid, files, held) => if Clash(held, tid, files) then Some(Denied(tid, files)) else None
      case AcqReplace(tid, files, _) => Some(Granted(tid, files))
      case RelReplace(tid, _, _, _) => Some(Returned(tid))
      case _ => None
  }

  function Effects(s: State, acts: seq<Act>): seq<Effect>
    decreases |acts|
  {
    if acts == [] then []
    else (match EffectOf(s, acts[0]) case Some(e) => [e] case None => []) + Effects(Do(s, acts[0]), acts[1..])
  }

  function AfterEffect(held: Table, e: Effect): Table {
    match e
    case Granted(tid, files) => Take(held, tid, files)
    case Denied(_, _) => held
    case Returned(tid) => Drop(held, tid)
  }

  /** A grant finds no clash, a denial finds one. */
  predicate Fits(held: Table, e: Effect) {
    match e
    case Granted(tid, files) => !Clash(held, tid, files)
    case Denied(tid, files) => Clash(held, tid, files)
    case Returned(_) => true
  }

  predicate AllFit(held: Table, es: seq<Effect>)
    decreases |es|
  {
    es == [] || (Fits(held, es[0]) && AllFit(AfterEffect(held, es[0]), es[1..]))
  }

  function AfterAll(held: Table, es: seq<Effect>): Table
    decreases |es|
  {
    if es == [] then held else AfterAll(AfterEffect(held, es[0]), es[1..])
  }

  predicate Concerns(e: Effect, tid: Id) {
    e.tid == tid
  }

  lemma EffectWithout(held: Table, tid: Id, e: Effect)
    requires Fits(held, e) && !Concerns(e, tid)
    ensures Drop(AfterEffect(held, e), tid) == AfterEffect(Drop(held, tid), e)
  {
    var now, alone := Drop(AfterEffect(held, e), tid), AfterEffect(Drop(held, tid), e);
    assert now.Keys == alone.Keys;
  }

  /** Whatever other tickets claim, fail to claim and give back in the meantime: releasing undoes
      acquiring, and leaves the table that they alone would have left. */
  lemma ReleaseUndoesAcquire(held: Table, tid: Id, files: seq<File>, es: seq<Effect>)
    requires tid !in held.Values && AllFit(Take(held, tid, files), es) && !Clash(held, tid, files)
    requires forall i :: 0 <= i < |es| ==> !Concerns(es[i], tid)
    ensures Drop(AfterAll(Take(held, tid, files), es), tid) == AfterAll(held, es)
  {
    var taken := Take(held, tid, files);
    assert Drop(taken, tid) == held by {
      assert forall f :: f in held ==> held[f] in held.Values;
      assert Drop(taken, tid).Keys == held.Keys;
    }
    WithoutAll(taken, tid, es);
  }

  lemma {:induction false} WithoutAll(held: Table, tid: Id, es: seq<Effect>)
    requires AllFit(held, es) && forall i :: 0 <= i < |es| ==> !Concerns(es[i], tid)
    ensures Drop(AfterAll(held, es), tid) == AfterAll(Drop(held, tid), es)
    decreases |es|
  {
    if es != [] {
      EffectWithout(held, tid, es[0]);
      WithoutAll(AfterEffect(held, es[0]), tid, es[1..]);
    }
  }

  lemma StepAtomic(s: State, foreign: Table, a: Act)
    requires Inv(s, foreign) && Enabled(s, a) && !FallsThrough(s, a)
    ensures match EffectOf(s, a)
      case Some(e) => Fits(s.disk.table, e) && Do(s, a).disk.table == AfterEffect(s.disk.table, e)
      case None => Do(s, a).disk.table == s.disk.table
  {
    LocalTable(s.disk, At(s, a.w), a.move);
  }

  /** The step-by-step protocol refines the calls taken as single steps on the table: every run
      does to the table what some order of whole grants, denials and returns does, each of them
      decided on the table it finds. */
  lemma {:induction false} RunsAreAtomic(s: State, foreign: Table, acts: seq<Act>)
    requires Inv(s, foreign) && Legal(s, acts, false)
    ensures AllFit(s.disk.table, Effects(s, acts))
    ensures Exec(s, acts).disk.table == AfterAll(s.disk.table, Effects(s, acts))
    decreases |acts|
  {
    if acts != [] {
      var t, later := Do(s, acts[0]), Effects(Do(s, acts[0]), acts[1..]);
      StepAtomic(s, foreign, acts[0]);
      StepInv(s, foreign, acts[0]);
      RunsAreAtomic(t, Left(foreign, s, acts[0]), acts[1..]);
      match EffectOf(s, acts[0])
      case Some(e) => assert ([e] + later)[1..] == later;
      case None => assert [] + later == later;
    }
  }

  // ------------------------------------------------------------ a release without the lock

  /** Runs in which only these workers take part, and releases may go on without the lock. */
  ghost predicate Reaches(team: set<Worker>, s: State, t: State) {
    exists acts :: By(team, acts) && Legal(s, acts, true) && Exec(s, acts) == t
  }

  predicate By(team: set<Worker>, acts: seq<Act>) {
    forall i :: 0 <= i < |acts| ==> acts[i].w in team
  }

  lemma {:induction false} LegalSnoc(s: State, acts: seq<Act>, a: Act)
    requires Legal(s, acts, true) && Enabled(Exec(s, acts), a)
    ensures Legal(s, acts + [a], true) && Exec(s, acts + [a]) == Do(Exec(s, acts), a)
    decreases |acts|
  {
    if acts == [] {
      assert [a][1..] == [];
    } else {
      assert (acts + [a])[1..] == acts[1..] + [a];
      LegalSnoc(Do(s, acts[0]), acts[1..], a);
    }
  }

  /** Extends a run by one action. */
  lemma Reach(team: set<Worker>, s: State, t: State, w: Worker, move: Move, d: Disk, q: Pc)
    requires w in team && Reaches(team, s, t) && Enabled(t, Act(w, move)) && Local(t.disk, At(t, w), move) == (d, q)
    ensures Reaches(team, s, State(d, t.pcs[w := q]))
  {
    var acts :| By(team, acts) && Legal(s, acts, true) && Exec(s, acts) == t;
    LegalSnoc(s, acts, Act(w, move));
    assert By(team, acts + [Act(w, move)]);
  }

  /** Extends a run by one step inside a call. */
  lemma Run(team: set<Worker>, s: State, d: Disk, m: map<Worker, Pc>, w: Worker, p: Pc, e: Disk, q: Pc)
    requires w in team && Reaches(team, s, State(d, m[w := p])) && Active(p) && !p.Holding? && Local(d, p, Go) == (e, q)
    ensures Reaches(team, s, State(e, m[w := q]))
  {
    Reach(team, s, State(d, m[w := p]), w, Go, e, q);
    assert m[w := p][w := q] == m[w := q];
  }

  /** While another worker keeps the lock, a releasing worker burns its tries one by one. */
  lemma {:induction false} Spin(
      team: set<Worker>, s: State, d: Disk, m: map<Worker, Pc>, w: Worker, tid: Id, files: seq<File>, n: nat)
    requires w in team && d.lock && n <= LOCK_TRIES && Reaches(team, s, State(d, m[w := RelSpin(tid, files, n)]))
    ensures Reaches(team, s, State(d, m[w := RelSpin(tid, files, LOCK_TRIES)]))
    decreases LOCK_TRIES - n
  {
    if n < LOCK_TRIES {
      Run(team, s, d, m, w, RelSpin(tid, files, n), d, RelSpin(tid, files, n + 1));
      Spin(team, s, d, m, w, tid, files, n + 1);
    }
  }

  /** The first steps of a `try_acquire` that nobody disturbs, up to the point where it has
      the lock and knows what to write. */
  lemma Prepare(team: set<Worker>, s: State, t: State, w: Worker, tid: Id, files: seq<File>)
    requires w in team && Reaches(team, s, t) && Enabled(t, Act(w, Begin(tid, files)))
    requires !t.disk.lock && !Clash(t.disk.table, tid, files)
    ensures var entering := AcqTmp(tid, files, Take(t.disk.table, tid, files));
      Reaches(team, s, State(t.disk.(lock := true), t.pcs[w := entering]))
  {
    var d, m, next := t.disk.(lock := true), t.pcs, Take(t.disk.table, tid, files);
    Reach(team, s, t, w, Begin(tid, files), t.disk, AcqSpin(tid, files, 0));
    Run(team, s, t.disk, m, w, AcqSpin(tid, files, 0), d, AcqRead(tid, files));
    Run(team, s, d, m, w, AcqRead(tid, files), d, AcqDecide(tid, files, t.disk.table));
    Run(team, s, d, m, w, AcqDecide(tid, files, t.disk.table), d, AcqTmp(tid, files, next));
  }

  /** ... and the rest of it. */
  lemma Complete(
      team: set<Worker>, s: State, d: Disk, m: map<Worker, Pc>, w: Worker, tid: Id, files: seq<File>, next: Table)
    requires w in team && Reaches(team, s, State(d, m[w := AcqTmp(tid, files, next)]))
    ensures Reaches(team, s, State(Disk(next, false, None), m[w := Holding(tid, files)]))
  {
    var e, f := d.(tmp := Some(next)), Disk(next, d.lock, None);
    Run(team, s, d, m, w, AcqTmp(tid, files, next), e, AcqReplace(tid, files, next));
    Run(team, s, e, m, w, AcqReplace(tid, files, next), f, AcqUnlock(tid, files, Claimed));
    Run(team, s, f, m, w, AcqUnlock(tid, files, Claimed), f.(lock := false), Holding(tid, files));
  }

  const NOBODY: State := State(Disk(map[], false, None), map[])

  /** The two workers and what they work on. */
  datatype Pair = Pair(v: Worker, w: Worker, a: Id, b: Id, c: Id, f: File, g: File)

  predicate Distinct(p: Pair) {
    p.v != p.w && p.a != p.b && p.f != p.g && p.b != p.c
  }

  function Team(p: Pair): set<Worker> {
    {p.v, p.w}
  }

  lemma Held(p: Pair)
    ensures Reaches(Team(p), NOBODY, State(Disk(map[p.f := p.a], false, None), map[p.v := Holding(p.a, [p.f])]))
  {
    assert By(Team(p), []) && Legal(NOBODY, [], true) && Exec(NOBODY, []) == NOBODY;
    assert Reaches(Team(p), NOBODY, NOBODY);
    Prepare(Team(p), NOBODY, NOBODY, p.v, p.a, [p.f]);
    assert Take(map[], p.a, [p.f]) == map[p.f := p.a];
    Complete(Team(p), NOBODY, Disk(map[], true, None), map[], p.v, p.a, [p.f], map[p.f := p.a]);
    assert map[][p.v := Holding(p.a, [p.f])] == map[p.v := Holding(p.a, [p.f])];
  }

  function Both(p: Pair): Table {
    map[p.f := p.a, p.g := p.b]
  }

  lemma Swapped<T>(v: Worker, x: T, w: Worker, y: T)
    requires v != w
    ensures map[v := x][w := y] == map[w := y][v := x]
  {}

  /** Ticket a holds file f; worker w has the lock and is about to write b's claim on file g;
      worker v starts to release a. */
  lemma Releasing(p: Pair)
    requires Distinct(p)
    ensures Reaches(Team(p), NOBODY, State(Disk(map[p.f := p.a], true, None),
              map[p.w := AcqTmp(p.b, [p.g], Both(p))][p.v := RelSpin(p.a, [p.f], 0)]))
  {
    var q, h := AcqTmp(p.b, [p.g], Both(p)), Holding(p.a, [p.f]);
    var d := Disk(map[p.f := p.a], true, None);
    Held(p);
    Prepare(Team(p), NOBODY, State(Disk(map[p.f := p.a], false, None), map[p.v := h]), p.w, p.b, [p.g]);
    assert Take(map[p.f := p.a], p.b, [p.g]) == Both(p);
    Swapped(p.v, h, p.w, q);
    Reach(Team(p), NOBODY, State(d, map[p.w := q][p.v := h]), p.v, End, d, RelSpin(p.a, [p.f], 0));
    assert map[p.w := q][p.v := h][p.v := RelSpin(p.a, [p.f], 0)] == map[p.w := q][p.v := RelSpin(p.a, [p.f], 0)];
  }

  /** Worker v waits in vain and goes on without the lock: it reads the table before b's rename. */
  lemma ReadUnlocked(p: Pair)
    requires Distinct(p)
    ensures Reaches(Team(p), NOBODY, State(Disk(map[p.f := p.a], true, None),
              map[p.w := AcqTmp(p.b, [p.g], Both(p))][p.v := RelTmp(p.a, [p.f], map[], false)]))
  {
    var m, d := map[p.w := AcqTmp(p.b, [p.g], Both(p))], Disk(map[p.f := p.a], true, None);
    Releasing(p);
    Spin(Team(p), NOBODY, d, m, p.v, p.a, [p.f], 0);
    Run(Team(p), NOBODY, d, m, p.v, RelSpin(p.a, [p.f], LOCK_TRIES), d, RelRead(p.a, [p.f], false));
    assert Drop(map[p.f := p.a], p.a) == map[];
    Run(Team(p), NOBODY, d, m, p.v, RelRead(p.a, [p.f], false), d, RelTmp(p.a, [p.f], map[], false));
  }

  /** ... then w's claim is written ... */
  lemma Unlocked(p: Pair)
    requires Distinct(p)
    ensures Reaches(Team(p), NOBODY, State(Disk(Both(p), false, None),
              map[p.w := Holding(p.b, [p.g])][p.v := RelTmp(p.a, [p.f], map[], false)]))
  {
    var q, h, r := AcqTmp(p.b, [p.g], Both(p)), Holding(p.b, [p.g]), RelTmp(p.a, [p.f], map[], false);
    ReadUnlocked(p);
    Swapped(p.w, q, p.v, r);
    Complete(Team(p), NOBODY, Disk(map[p.f := p.a], true, None), map[p.v := r], p.w, p.b, [p.g], Both(p));
    Swapped(p.v, r, p.w, h);
  }

  /** ... and overwritten by v's old table. */
  lemma Overwritten(p: Pair)
    requires Distinct(p)
    ensures Reaches(Team(p), NOBODY, State(Disk(map[], false, None), map[p.w := Holding(p.b, [p.g])][p.v := Idle]))
  {
    var m, d, empty := map[p.w := Holding(p.b, [p.g])], Disk(Both(p), false, None), Disk(map[], false, None);
    var e := d.(tmp := Some(map[]));
    Unlocked(p);
    Run(Team(p), NOBODY, d, m, p.v, RelTmp(p.a, [p.f], map[], false), e, RelReplace(p.a, [p.f], map[], false));
    Run(Team(p), NOBODY, e, m, p.v, RelReplace(p.a, [p.f], map[], false), empty, RelUnlock(p.a, [p.f], false, false));
    Run(Team(p), NOBODY, empty, m, p.v, RelUnlock(p.a, [p.f], false, false), empty, Idle);
  }

  /** b's claim is gone, and v is handed its file for the next ticket. */
  lemma LostClaim(p: Pair) returns (u: State)
    requires Distinct(p)
    ensures Reaches(Team(p), NOBODY, u) && !Disjoint(u)
  {
    var h := Holding(p.b, [p.g]);
    var t := State(Disk(map[], false, None), map[p.w := h][p.v := Idle]);
    Overwritten(p);
    Prepare(Team(p), NOBODY, t, p.v, p.c, [p.g]);
    Complete(Team(p), NOBODY, Disk(map[], true, None), t.pcs, p.v, p.c, [p.g], Take(map[], p.c, [p.g]));
    u := State(Disk(Take(map[], p.c, [p.g]), false, None), t.pcs[p.v := Holding(p.c, [p.g])]);
    assert Owns(u.pcs[p.w]) && Owns(u.pcs[p.v]) && p.g in u.pcs[p.w].files && p.g in u.pcs[p.v].files;
  }

  /** A lone worker never finds the lock taken. */
  ghost predicate Alone(s: State, team: set<Worker>) {
    && (forall w :: w in s.pcs && !s.pcs[w].Idle? ==> w in team)
    && (forall w :: w in s.pcs && s.pcs[w].RelSpin? ==> s.pcs[w].tries == 0)
    && (forall w :: w in s.pcs ==> s.pcs[w] != Dead)
  }

  lemma AloneFindsNoLock(s: State, w: Worker)
    requires Mutex(s) && Alone(s, {w})
    ensures s.disk.lock ==> w in s.pcs && Critical(s.pcs[w])
  {
    if s.disk.lock {
      var v :| v in s.pcs && Critical(s.pcs[v]);
      assert v == w;
    }
  }

  lemma StepAlone(s: State, foreign: Table, a: Act, team: set<Worker>)
    requires Inv(s, foreign) && Alone(s, team) && |team| <= 1 && a.w in team && Enabled(s, a)
    ensures !FallsThrough(s, a) && Alone(Do(s, a), team)
  {
    assert team == {a.w} by {
      assert |team - {a.w}| == |team| - 1;
    }
    AloneFindsNoLock(s, a.w);
  }

  lemma {:induction false} LoneRuns(s: State, foreign: Table, acts: seq<Act>, team: set<Worker>)
    requires Inv(s, foreign) && Alone(s, team) && |team| <= 1 && By(team, acts) && Legal(s, acts, true)
    ensures Legal(s, acts, false)
    decreases |acts|
  {
    if acts != [] {
      StepAlone(s, foreign, acts[0], team);
      StepInv(s, foreign, acts[0]);
      LoneRuns(Do(s, acts[0]), Left(foreign, s, acts[0]), acts[1..], team);
    }
  }

  ghost predicate SafeFrom(team: set<Worker>, s: State) {
    forall acts :: By(team, acts) && Legal(s, acts, true) ==> Safe(Exec(s, acts))
  }

  lemma UnsafeRun(team: set<Worker>)
    requires |team| > 1
    ensures AtRest(NOBODY) && !SafeFrom(team, NOBODY)
  {
    var v :| v in team;
    var w :| w in team - {v} by { assert |team - {v}| == |team| - 1; }
    var p := Pair(v, w, "A", "B", "C", "f", "g");
    var u := LostClaim(p);
    var acts :| By(Team(p), acts) && Legal(NOBODY, acts, true) && Exec(NOBODY, acts) == u;
    assert By(team, acts);
  }

  /** With releases that go on without the lock after their last try, as the code's do, claims are
      safe in all runs of a team of workers exactly when it has at most one. */
  lemma SafeExactly(team: set<Worker>)
    ensures (forall s :: AtRest(s) ==> SafeFrom(team, s)) <==> |team| <= 1
  {
    if |team| > 1 {
      UnsafeRun(team);
    } else {
      forall s | AtRest(s) ensures SafeFrom(team, s) {
        forall acts | By(team, acts) && Legal(s, acts, true) ensures Safe(Exec(s, acts)) {
          InvAtRest(s);
          LoneRuns(s, s.disk.table, acts, team);
          SafeRuns(s, acts);
        }
      }
    }
  }
}
