/** The claim table (fleet/lib/runner.py): workers claim the files of a ticket through a
    lock file around a read-modify-write of one JSON table.

    Every file-system effect is its own step here -- creating the lock, reading the table,
    writing the temporary file, renaming it over the table, unlinking the lock -- and any
    number of workers interleave their steps in any order. */
module Claims {
  import opened Wrappers

  type Id = string
  type File = string
  type Table = map<File, Id>
  type Worker = nat

  /** How often `open(O_EXCL)` is tried before a call gives up waiting. */
  const LOCK_TRIES := 200

  // ------------------------------------------------------------ what one call computes

  predicate Clash(held: Table, tid: Id, files: seq<File>) {
    exists f :: f in files && f in held && held[f] != tid
  }

  function Take(held: Table, tid: Id, files: seq<File>): Table {
    held + map f | f in files :: tid
  }

  function Drop(held: Table, tid: Id): Table {
    map f | f in held && held[f] != tid :: held[f]
  }

  // ------------------------------------------------------------ the protocol

  datatype Answer = Claimed | Refused | Error

  /** Where a worker is. The `Acq` points are inside `try_acquire`, the `Rel` points inside
      `release`; `locked` says whether this release created the lock file itself. A dead worker
      was killed between creating the lock file and removing it. */
  datatype Pc =
    | Idle
    | AcqSpin(tid: Id, files: seq<File>, tries: nat)
    | AcqRead(tid: Id, files: seq<File>)
    | AcqDecide(tid: Id, files: seq<File>, held: Table)
    | AcqTmp(tid: Id, files: seq<File>, next: Table)
    | AcqReplace(tid: Id, files: seq<File>, next: Table)
    | AcqUnlock(tid: Id, files: seq<File>, result: Answer)
    | Holding(tid: Id, files: seq<File>)
    | RelSpin(tid: Id, files: seq<File>, tries: nat)
    | RelRead(tid: Id, files: seq<File>, locked: bool)
    | RelTmp(tid: Id, files: seq<File>, next: Table, locked: bool)
    | RelReplace(tid: Id, files: seq<File>, next: Table, locked: bool)
    | RelUnlock(tid: Id, files: seq<File>, locked: bool, raised: bool)
    | Raised
    | Dead

  /** The three files: `claims.json`, `claims.lock` and `claims.tmp`. */
  datatype Disk = Disk(table: Table, lock: bool, tmp: Option<Table>)

  datatype State = State(disk: Disk, pcs: map<Worker, Pc>)

  function At(s: State, w: Worker): Pc {
    if w in s.pcs then s.pcs[w] else Idle
  }

  predicate Active(pc: Pc) {
    !pc.Idle? && !pc.Raised? && !pc.Dead?
  }

  /** From the rename that enters the claims to the rename that removes them. */
  predicate Owns(pc: Pc) {
    (pc.AcqUnlock? && pc.result.Claimed?) || pc.Holding? || pc.RelSpin? || pc.RelRead? || pc.RelTmp? || pc.RelReplace?
  }

  predicate Critical(pc: Pc) {
    pc.AcqRead? || pc.AcqDecide? || pc.AcqTmp? || pc.AcqReplace? || pc.AcqUnlock?
    || pc.RelRead? || pc.RelTmp? || pc.RelReplace? || pc.RelUnlock? || pc.Dead?
  }

  /** What a worker may do next: carry on inside a call, enter `try_acquire` or enter `release`. */
  datatype Move = Go | Begin(tid: Id, files: seq<File>) | End

  datatype Act = Act(w: Worker, move: Move)

  /** `release` has used up its tries and goes on without the lock. */
  predicate FallsThrough(s: State, a: Act) {
    a.move.Go? && At(s, a.w).RelSpin? && At(s, a.w).tries >= LOCK_TRIES
  }

  /** Tickets being worked on have distinct ids. */
  predicate Enabled(s: State, a: Act) {
    match a.move
    case Go => Active(At(s, a.w)) && !At(s, a.w).Holding?
    case Begin(tid, _) =>
      At(s, a.w).Idle? && forall v :: v in s.pcs && Active(s.pcs[v]) ==> s.pcs[v].tid != tid
    case End => At(s, a.w).Holding?
  }

  function Do(s: State, a: Act): State {
    var (disk, pc) := Local(s.disk, At(s, a.w), a.move);
    State(disk, s.pcs[a.w := pc])
  }

  /** One step of one worker: what happens to the files and where the worker is afterwards. */
  function Local(d: Disk, pc: Pc, move: Move): (Disk, Pc) {
    match move
    case Begin(tid, files) => (d, AcqSpin(tid, files, 0))
    case End => (d, if pc.Holding? then RelSpin(pc.tid, pc.files, 0) else pc)
    case Go => Advance(d, pc)
  }

  function Advance(d: Disk, pc: Pc): (Disk, Pc) {
    match pc
    case AcqSpin(tid, files, n) =>
      if n >= LOCK_TRIES then (d, Raised)
      else if d.lock then (d, AcqSpin(tid, files, n + 1))
      else (d.(lock := true), AcqRead(tid, files))
    case AcqRead(tid, files) => (d, AcqDecide(tid, files, d.table))
    case AcqDecide(tid, files, held) =>
      (d, if Clash(held, tid, files) then AcqUnlock(tid, files, Refused)
          else AcqTmp(tid, files, Take(held, tid, files)))
    case AcqTmp(tid, files, next) => (d.(tmp := Some(next)), AcqReplace(tid, files, next))
    case AcqReplace(tid, files, _) =>
      // The temporary file is shared, so the rename installs whatever it holds; without it the rename raises.
      if d.tmp.Some? then (d.(table := d.tmp.value, tmp := None), AcqUnlock(tid, files, Claimed))
      else (d, AcqUnlock(tid, files, Error))
    case AcqUnlock(tid, files, result) =>
      (d.(lock := false), match result case Claimed => Holding(tid, files) case Refused => Idle case Error => Raised)
    case RelSpin(tid, files, n) =>
      if n >= LOCK_TRIES then (d, RelRead(tid, files, false))
      else if d.lock then (d, RelSpin(tid, files, n + 1))
      else (d.(lock := true), RelRead(tid, files, true))
    case RelRead(tid, files, locked) => (d, RelTmp(tid, files, Drop(d.table, tid), locked))
    case RelTmp(tid, files, next, locked) => (d.(tmp := Some(next)), RelReplace(tid, files, next, locked))
    case RelReplace(tid, files, _, locked) =>
      if d.tmp.Some? then (d.(table := d.tmp.value, tmp := None), RelUnlock(tid, files, locked, false))
      else (d, RelUnlock(tid, files, locked, true))
    case RelUnlock(_, _, _, raised) => (d.(lock := false), if raised then Raised else Idle)
    case Idle => (d, pc)
    case Holding(_, _) => (d, pc)
    case Raised => (d, pc)
    case Dead => (d, pc)
  }

  /** A run is a list of actions, each enabled when it is taken. `fall` allows releases to go on without the lock. */
  predicate Legal(s: State, acts: seq<Act>, fall: bool)
    decreases |acts|
  {
    acts == [] || (Enabled(s, acts[0]) && (fall || !FallsThrough(s, acts[0])) && Legal(Do(s, acts[0]), acts[1..], fall))
  }

  function Exec(s: State, acts: seq<Act>): State
    decreases |acts|
  {
    if acts == [] then s else Exec(Do(s, acts[0]), acts[1..])
  }

  /** A table at rest: no worker is inside a call and the lock file does not exist. The
      temporary file may be a leftover. */
  predicate AtRest(s: State) {
    !s.disk.lock && forall w :: w in s.pcs ==> s.pcs[w].Idle?
  }

  // ------------------------------------------------------------ what claims promise

  /** Every claimed file is listed under the ticket that claimed it. */
  ghost predicate OwnersListed(s: State) {
    forall w, f :: w in s.pcs && Owns(s.pcs[w]) && f in s.pcs[w].files ==>
      f in s.disk.table && s.disk.table[f] == s.pcs[w].tid
  }

  /** Two workers never have a file claimed at the same time. */
  ghost predicate Disjoint(s: State) {
    forall v, w, f :: v in s.pcs && w in s.pcs && v != w && Owns(s.pcs[v]) && Owns(s.pcs[w]) && f in s.pcs[v].files ==>
      f !in s.pcs[w].files
  }

  ghost predicate Safe(s: State) {
    OwnersListed(s) && Disjoint(s)
  }

  // ------------------------------------------------------------ the invariant

  ghost predicate Mutex(s: State) {
    && (forall w :: w in s.pcs && Critical(s.pcs[w]) ==> s.disk.lock)
    && (forall v, w :: v in s.pcs && w in s.pcs && Critical(s.pcs[v]) && Critical(s.pcs[w]) ==> v == w)
    && (s.disk.lock ==> exists w :: w in s.pcs && Critical(s.pcs[w]))
  }

  ghost predicate DistinctIds(s: State) {
    forall v, w :: v in s.pcs && w in s.pcs && v != w && Active(s.pcs[v]) && Active(s.pcs[w]) ==>
      s.pcs[v].tid != s.pcs[w].tid
  }

  /** Claims that nobody living made: what a ticket left behind goes when the ticket itself is
      worked on again and released. */
  function Left(foreign: Table, s: State, a: Act): Table {
    if a.move.Go? && At(s, a.w).RelReplace? then Drop(foreign, At(s, a.w).tid) else foreign
  }

  predicate OwnedBy(s: State, w: Worker, f: File) {
    w in s.pcs && Owns(s.pcs[w]) && f in s.pcs[w].files && f in s.disk.table && s.disk.table[f] == s.pcs[w].tid
  }

  /** Foreign claims stand, and every other entry belongs to a worker that owns it now. */
  ghost predicate NoStale(s: State, foreign: Table) {
    && (forall f :: f in foreign ==> f in s.disk.table && s.disk.table[f] == foreign[f])
    && (forall f :: f in s.disk.table ==> f in foreign || exists w :: OwnedBy(s, w, f))
  }

  /** What a worker inside the critical section remembers is still what the files say. */
  predicate Fresh(d: Disk, pc: Pc) {
    match pc
    case AcqDecide(_, _, held) => held == d.table
    case AcqTmp(tid, files, next) => !Clash(d.table, tid, files) && next == Take(d.table, tid, files)
    case AcqReplace(tid, files, next) =>
      !Clash(d.table, tid, files) && next == Take(d.table, tid, files) && d.tmp == Some(next)
    case RelRead(_, _, locked) => locked
    case RelTmp(tid, _, next, locked) => locked && next == Drop(d.table, tid)
    case RelReplace(tid, _, next, locked) => locked && next == Drop(d.table, tid) && d.tmp == Some(next)
    case RelUnlock(_, _, locked, _) => locked
    case _ => true
  }

  ghost predicate Inv(s: State, foreign: Table) {
    && Mutex(s) && DistinctIds(s) && OwnersListed(s) && NoStale(s, foreign)
    && (forall w :: w in s.pcs ==> Fresh(s.disk, s.pcs[w]))
  }

  lemma InvAtRest(s: State)
    requires AtRest(s)
    ensures Inv(s, s.disk.table)
  {}

  lemma OwnersApart(s: State, v: Worker, w: Worker, f: File)
    requires DistinctIds(s) && OwnersListed(s) && v in s.pcs && w in s.pcs && v != w
    requires Owns(s.pcs[v]) && Owns(s.pcs[w]) && f in s.pcs[v].files
    ensures f !in s.pcs[w].files
  {
    assert s.disk.table[f] == s.pcs[v].tid != s.pcs[w].tid;
  }

  lemma InvSafe(s: State, foreign: Table)
    requires Inv(s, foreign)
    ensures Safe(s)
  {
    forall v, w, f | v in s.pcs && w in s.pcs && v != w && Owns(s.pcs[v]) && Owns(s.pcs[w]) && f in s.pcs[v].files
      ensures f !in s.pcs[w].files
    {
      OwnersApart(s, v, w, f);
    }
  }

  // ------------------------------------------------------------ one step of one worker

  /** The worker's own step keeps what it remembers true, and takes and gives up the lock
      exactly when it enters and leaves its critical section. */
  lemma LocalFresh(d: Disk, pc: Pc, move: Move)
    requires Fresh(d, pc) && (Critical(pc) ==> d.lock) && !(move.Go? && pc.RelSpin? && pc.tries >= LOCK_TRIES)
    requires move.Go? || !Critical(pc)
    ensures var (e, q) := Local(d, pc, move);
      && Fresh(e, q)
      && (Critical(q) && !Critical(pc) ==> e.lock && !d.lock)
      && (Critical(pc) && !Critical(q) ==> !e.lock)
      && (Critical(pc) == Critical(q) ==> e.lock == d.lock)
      && (!Critical(pc) ==> e.table == d.table && e.tmp == d.tmp)
  {}

  /** The table changes only at the two renames, and there exactly as the call intended. */
  lemma LocalTable(d: Disk, pc: Pc, move: Move)
    requires Fresh(d, pc) && (move.Go? || !Critical(pc)) && (move.Begin? ==> pc.Idle?)
    requires !(move.Go? && pc.RelSpin? && pc.tries >= LOCK_TRIES)
    ensures var (e, q) := Local(d, pc, move);
      if move.Go? && pc.AcqReplace? then
        e.table == Take(d.table, pc.tid, pc.files) && Owns(q) && q.tid == pc.tid && q.files == pc.files
      else if move.Go? && pc.RelReplace? then e.table == Drop(d.table, pc.tid) && !Owns(q)
      else e.table == d.table && Owns(q) == Owns(pc) && (Owns(q) ==> q.tid == pc.tid && q.files == pc.files)
    ensures var (e, q) := Local(d, pc, move);
      Active(q) ==> if move.Begin? then q.tid == move.tid else Active(pc) && q.tid == pc.tid
  {}

  /** Each call takes effect at one instant: a claim is refused only while a file of it belongs
      to another ticket, is entered only while none does, and never fails in between. */
  lemma RefusedOnlyOnClash(d: Disk, pc: Pc)
    requires Fresh(d, pc) && !pc.AcqUnlock? && Advance(d, pc).1.AcqUnlock?
    ensures var (e, q) := Advance(d, pc);
      && q.tid == pc.tid && q.files == pc.files && !q.result.Error?
      && (q.result.Refused? <==> Clash(d.table, pc.tid, pc.files))
      && e.table == if q.result.Claimed? then Take(d.table, pc.tid, pc.files) else d.table
  {}

  // ------------------------------------------------------------ every step keeps the invariant

  lemma StepMutex(s: State, foreign: Table, a: Act)
    requires Inv(s, foreign) && Enabled(s, a) && !FallsThrough(s, a)
    ensures Mutex(Do(s, a))
    ensures forall w :: w in Do(s, a).pcs ==> Fresh(Do(s, a).disk, Do(s, a).pcs[w])
  {
    var t, pc := Do(s, a), At(s, a.w);
    var q := t.pcs[a.w];
    LocalFresh(s.disk, pc, a.move);
    assert forall w :: w in t.pcs && w != a.w ==> w in s.pcs && t.pcs[w] == s.pcs[w];
    if s.disk.lock {
      var v :| v in s.pcs && Critical(s.pcs[v]);
      assert v in t.pcs;
    }
    assert a.w in t.pcs;
    forall w | w in t.pcs ensures Fresh(t.disk, t.pcs[w]) {
      if w != a.w {
        assert Fresh(s.disk, s.pcs[w]);
      }
    }
  }

  lemma StepIds(s: State, foreign: Table, a: Act)
    requires Inv(s, foreign) && Enabled(s, a) && !FallsThrough(s, a)
    ensures DistinctIds(Do(s, a))
  {
    LocalTable(s.disk, At(s, a.w), a.move);
  }

  lemma StepOwnsOwn(s: State, foreign: Table, a: Act, f: File)
    requires Inv(s, foreign) && Enabled(s, a) && !FallsThrough(s, a)
    requires Owns(Do(s, a).pcs[a.w]) && f in Do(s, a).pcs[a.w].files
    ensures f in Do(s, a).disk.table && Do(s, a).disk.table[f] == Do(s, a).pcs[a.w].tid
  {
    LocalTable(s.disk, At(s, a.w), a.move);
  }

  lemma StepOwns(s: State, foreign: Table, a: Act, w: Worker, f: File)
    requires Inv(s, foreign) && Enabled(s, a) && !FallsThrough(s, a)
    requires w in Do(s, a).pcs && Owns(Do(s, a).pcs[w]) && f in Do(s, a).pcs[w].files
    ensures f in Do(s, a).disk.table && Do(s, a).disk.table[f] == Do(s, a).pcs[w].tid
  {
    if w == a.w {
      StepOwnsOwn(s, foreign, a, f);
    } else {
      assert s.disk.table[f] == s.pcs[w].tid;
      StepKeepsOthers(s, foreign, a, f);
    }
  }

  lemma StepOwners(s: State, foreign: Table, a: Act)
    requires Inv(s, foreign) && Enabled(s, a) && !FallsThrough(s, a)
    ensures OwnersListed(Do(s, a))
  {
    var t := Do(s, a);
    forall w, f | w in t.pcs && Owns(t.pcs[w]) && f in t.pcs[w].files
      ensures f in t.disk.table && t.disk.table[f] == t.pcs[w].tid
    {
      StepOwns(s, foreign, a, w, f);
    }
  }

  lemma StepForeign(s: State, foreign: Table, a: Act, f: File)
    requires Inv(s, foreign) && Enabled(s, a) && !FallsThrough(s, a) && f in Left(foreign, s, a)
    ensures f in Do(s, a).disk.table && Do(s, a).disk.table[f] == foreign[f] && f in foreign
  {
    LocalTable(s.disk, At(s, a.w), a.move);
  }

  lemma StepOwned(s: State, foreign: Table, a: Act, f: File) returns (w: Worker)
    requires Inv(s, foreign) && Enabled(s, a) && !FallsThrough(s, a)
    requires f in Do(s, a).disk.table && f !in Left(foreign, s, a)
    ensures OwnedBy(Do(s, a), w, f)
  {
    var pc := At(s, a.w);
    LocalTable(s.disk, pc, a.move);
    if a.move.Go? && pc.AcqReplace? && f in pc.files {
      w := a.w;
    } else {
      assert f in s.disk.table && f !in foreign;
      w :| OwnedBy(s, w, f);
    }
  }

  lemma StepNoStale(s: State, foreign: Table, a: Act)
    requires Inv(s, foreign) && Enabled(s, a) && !FallsThrough(s, a)
    ensures NoStale(Do(s, a), Left(foreign, s, a))
  {
    var t, left := Do(s, a), Left(foreign, s, a);
    forall f | f in left ensures f in t.disk.table && t.disk.table[f] == left[f] {
      StepForeign(s, foreign, a, f);
    }
    forall f | f in t.disk.table && f !in left ensures exists w :: OwnedBy(t, w, f) {
      var w := StepOwned(s, foreign, a, f);
    }
  }

  /** No step of a worker overwrites or drops an entry that belongs to another ticket. */
  lemma StepKeepsOthers(s: State, foreign: Table, a: Act, f: File)
    requires Inv(s, foreign) && Enabled(s, a) && !FallsThrough(s, a)
    requires f in s.disk.table && (Active(At(s, a.w)) ==> s.disk.table[f] != At(s, a.w).tid)
    ensures f in Do(s, a).disk.table && Do(s, a).disk.table[f] == s.disk.table[f]
  {
    var pc := At(s, a.w);
    LocalTable(s.disk, pc, a.move);
    if a.move.Go? && pc.AcqReplace? {
      assert forall g :: g in pc.files && g in s.disk.table ==> s.disk.table[g] == pc.tid;
    }
  }

  lemma StepInv(s: State, foreign: Table, a: Act)
    requires Inv(s, foreign) && Enabled(s, a) && !FallsThrough(s, a)
    ensures Inv(Do(s, a), Left(foreign, s, a))
  {
    StepMutex(s, foreign, a);
    StepIds(s, foreign, a);
    StepOwners(s, foreign, a);
    StepNoStale(s, foreign, a);
  }

  // ------------------------------------------------------------ whole runs

  /** What is left of the foreign claims after a run. */
  function LeftAll(foreign: Table, s: State, acts: seq<Act>): Table
    decreases |acts|
  {
    if acts == [] then foreign else LeftAll(Left(foreign, s, acts[0]), Do(s, acts[0]), acts[1..])
  }

  lemma {:induction false} RunInv(s: State, foreign: Table, acts: seq<Act>)
    requires Inv(s, foreign) && Legal(s, acts, false)
    ensures Inv(Exec(s, acts), LeftAll(foreign, s, acts))
    decreases |acts|
  {
    if acts != [] {
      StepInv(s, foreign, acts[0]);
      RunInv(Do(s, acts[0]), Left(foreign, s, acts[0]), acts[1..]);
    }
  }
}
