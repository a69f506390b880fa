/** What holds over whole runs of the orchestrator (fleet/fleet.py): the dependency gate and when
    it can be fooled, the order of merges, conserved ids, safe claims, cycles that never run, and
    recovery from a kill. */
module FleetRuns {
  import opened Wrappers
  import opened Fleet
  import C = Claims

  lemma {:induction false} ExecSnoc(s: State, steps: seq<Step>, step: Step)
    requires Legal(s, steps) && Enabled(Exec(s, steps), step)
    ensures Legal(s, steps + [step]) && Exec(s, steps + [step]) == Do(Exec(s, steps), step)
    ensures AllHarmless(s, steps) && Harmless(Exec(s, steps), step) ==> AllHarmless(s, steps + [step])
    decreases |steps|
  {
    if steps == [] {
      assert [] + [step] == [step] && [step][1..] == [];
    } else {
      assert (steps + [step])[0] == steps[0] && (steps + [step])[1..] == steps[1..] + [step];
      ExecSnoc(Do(s, steps[0]), steps[1..], step);
    }
  }

  // ------------------------------------------------------------ dependency safety

  /** Whenever a ticket goes to in-progress, the merge of everything it depends on is on base. */
  lemma DependencySafety(s: State, steps: seq<Step>, w: C.Worker)
    requires GateInv(s) && Legal(s, steps) && AllHarmless(s, steps) && Enabled(Exec(s, steps), Mark(w))
    ensures var t := Exec(s, steps); var id := Tid(t, w).value;
      Known(t, id) && forall d :: d in Deps(t, id) ==> Merged(t, d)
  {
    RunGate(s, steps);
    assert Starting(Exec(s, steps), w);
  }

  /** `run` has selected a ticket while the merge of a dependency is not on base. */
  ghost predicate SelectedUnready(s: State) {
    exists id :: id in s.queued && !Cleared(s, id)
  }

  ghost predicate LeadsAstray(s: State, steps: seq<Step>) {
    Legal(s, steps) && AllHarmless(s, steps) && SelectedUnready(Exec(s, steps))
  }

  /** With no further fault of `land`, a ticket can yet be selected whose dependency is not on base. */
  ghost predicate CanGoWrong(s: State) {
    exists steps :: LeadsAstray(s, steps)
  }

  lemma {:induction false} LengthBound(ids: set<Id>) returns (n: nat)
    ensures forall id :: id in ids ==> |id| <= n
    decreases ids
  {
    n := 0;
    if ids != {} {
      var x :| x in ids;
      n := LengthBound(ids - {x});
      n := if |x| > n then |x| else n;
    }
  }

  lemma FreshId(ids: set<Id>) returns (id: Id)
    ensures id !in ids
  {
    var n := LengthBound(ids);
    id := seq(n + 1, i => 'x');
  }

  lemma AstrayAtOnce(s: State)
    requires SelectedUnready(s)
    ensures CanGoWrong(s)
  {
    assert LeadsAstray(s, []);
  }

  lemma AstrayLater(s: State, step: Step)
    requires Enabled(s, step) && Harmless(s, step) && CanGoWrong(Do(s, step))
    ensures CanGoWrong(s)
  {
    var steps :| LeadsAstray(Do(s, step), steps);
    assert ([step] + steps)[0] == step && ([step] + steps)[1..] == steps;
    assert LeadsAstray(s, [step] + steps);
  }

  lemma SelectFalsely(s: State, c: Id, x: Id)
    requires c in s.tickets && s.tickets[c] == Ticket(Open, ["f"], [x]) && !Merged(s, x)
    requires x in s.archive || (x in s.tickets && s.tickets[x].status.Landed?)
    ensures CanGoWrong(s)
  {
    UnmetEmpty([x], s.tickets, s.archive.Keys);
    assert Dispatchable(s, c, false);
    var t := Do(s, Select({c}, false));
    assert c in t.queued && x in Deps(t, c) && !Merged(t, x);
    AstrayAtOnce(t);
    AstrayLater(s, Select({c}, false));
  }

  lemma FileFalsely(s: State, x: Id)
    requires KeysApart(s) && !Merged(s, x)
    requires x in s.archive || (x in s.tickets && s.tickets[x].status.Landed?)
    ensures CanGoWrong(s)
  {
    var c := FreshId(s.tickets.Keys + s.archive.Keys);
    var file := FileTicket(c, Ticket(Open, ["f"], [x]));
    var t := Do(s, file);
    assert t.base == s.base && t.landing == s.landing;
    SelectFalsely(t, c, x);
    AstrayLater(s, file);
  }

  lemma HarmfulSettle(s: State, dropped: bool)
    requires GateInv(s) && Enabled(s, Settle(dropped)) && !Harmless(s, Settle(dropped))
    ensures CanGoWrong(Do(s, Settle(dropped)))
  {
    var t, x := Do(s, Settle(dropped)), s.landing.value.id;
    StepKeysApart(s, Settle(dropped));
    assert t.base == s.base && SettledLength(t) == SettledLength(s);
    FileFalsely(t, x);
  }

  lemma HarmfulRevert(s: State)
    requires GateInv(s) && Enabled(s, Revert) && !Harmless(s, Revert)
    ensures CanGoWrong(Do(s, Revert))
  {
    var t, x := Do(s, Revert), s.base[|s.base| - 1].id;
    StepKeysApart(s, Revert);
    assert forall i :: 0 <= i < |t.base| ==> t.base[i] == s.base[i];
    assert !Merged(t, x);
    if x in s.archive || (x in s.tickets && s.tickets[x].status.Landed?) {
      FileFalsely(t, x);
    } else {
      var q :| q in s.queued && Known(s, q) && x in Deps(s, q);
      KnownStays(s, Revert, q);
      assert q in t.queued && !Cleared(t, q);
      AstrayAtOnce(t);
    }
  }

  /** The dependency gate holds out exactly as long as `land` does no harm: after any step of any
      run that has done none so far, a ticket can come to be selected with a dependency that is
      not on base if and only if the step was a revert that took back a commit somebody needs, or
      a landing with nothing on base to show for it. */
  lemma DependencySafetyExactly(s: State, step: Step)
    requires GateInv(s) && Enabled(s, step)
    ensures CanGoWrong(Do(s, step)) <==> !Harmless(s, step)
  {
    if Harmless(s, step) {
      StepGate(s, step);
      var t := Do(s, step);
      forall steps | Legal(t, steps) && AllHarmless(t, steps) ensures !SelectedUnready(Exec(t, steps)) {
        RunGate(t, steps);
      }
    } else if step.Settle? {
      HarmfulSettle(s, step.dropped);
    } else {
      HarmfulRevert(s);
    }
  }

  // ------------------------------------------------------------ a merge that is taken back by mistake

  /** `land` is killed while nobody else is at work. */
  const KILL_LAND: Step := Kill({}, {}, true)

  /** Two tickets ready to land, and a third that waits for the second. */
  function Twins(a: Id, b: Id, c: Id): State {
    State(C.State(C.Disk(map[], false, None), map[]), map[], false,
          map[a := Ticket(QaPass, ["f"], []), b := Ticket(QaPass, ["g"], []), c := Ticket(Open, ["h"], [b])], map[],
          [Merge("", [])], {a, b}, None, {a, b}, map[], map[])
  }

  lemma TwinsInv(a: Id, b: Id, c: Id)
    requires a != b && b != c && a != c
    ensures Inv(Twins(a, b, c), 1)
  {
    var s := Twins(a, b, c);
    C.InvAtRest(s.claims);
    assert Deps(s, a) == [] && Deps(s, b) == [];
  }

  /** ... once a's merge was left behind by a kill and b has landed. */
  function OneLanded(a: Id, b: Id, c: Id): State {
    Twins(a, b, c).(
      tickets := map[a := Ticket(QaPass, ["f"], []), b := Ticket(Landed, ["g"], []), c := Ticket(Open, ["h"], [b])],
      base := [Merge("", []), Merge(a, []), Merge(b, [])], ahead := {}, worktrees := {a})
  }

  /** ... and before b's landing. */
  function LeftBehind(a: Id, b: Id, c: Id): State {
    Twins(a, b, c).(base := [Merge("", []), Merge(a, [])], ahead := {b})
  }

  lemma Interrupted(a: Id, b: Id, c: Id)
    requires a != b && b != c && a != c
    ensures var s := Twins(a, b, c);
      && Enabled(s, MergeBranch(a)) && Enabled(Do(s, MergeBranch(a)), KILL_LAND)
      && Enabled(Do(Do(s, MergeBranch(a)), KILL_LAND), Clean)
      && Do(Do(Do(s, MergeBranch(a)), KILL_LAND), Clean) == LeftBehind(a, b, c)
  {
    var s := Twins(a, b, c);
    var m := Do(s, MergeBranch(a));
    assert m == LeftBehind(a, b, c).(landing := Some(Landing(a, true))) by {
      assert m.base == [Merge("", []), Merge(a, [])] && m.ahead == {b};
    }
    NothingToClean(m);
  }

  /** Killing and cleaning up with nobody at work only forgets the landing. */
  lemma NothingToClean(s: State)
    requires s.claims == C.State(C.Disk(map[], false, None), map[]) && s.foreign == map[] && !s.crashed
    requires s.queued == map[] && s.phases == map[]
    requires forall id :: id in s.tickets ==> !s.tickets[id].status.InProgress?
    requires forall id :: id in s.worktrees && id in s.tickets ==> s.tickets[id].status.QaPass?
    ensures Enabled(s, KILL_LAND) && Enabled(Do(s, KILL_LAND), Clean)
    ensures Do(Do(s, KILL_LAND), Clean) == s.(landing := None)
  {
    var t := Do(Do(s, KILL_LAND), Clean);
    assert t.tickets == s.tickets && t.worktrees == s.worktrees && t.claims == s.claims;
  }

  lemma OtherLands(a: Id, b: Id, c: Id)
    requires a != b && b != c && a != c
    ensures var s := LeftBehind(a, b, c);
      Enabled(s, MergeBranch(b)) && Do(Do(s, MergeBranch(b)), Settle(true)) == OneLanded(a, b, c)
  {
    var s := LeftBehind(a, b, c);
    var t, u := Do(Do(s, MergeBranch(b)), Settle(true)), OneLanded(a, b, c);
    assert t.tickets == u.tickets && t.base == u.base && t.ahead == u.ahead && t.worktrees == u.worktrees;
  }

  lemma ThreeSteps(s: State, x: Step, y: Step, z: Step) returns (steps: seq<Step>)
    requires Enabled(s, x) && Enabled(Do(s, x), y) && Enabled(Do(Do(s, x), y), z)
    ensures steps == [x, y, z] && Legal(s, steps) && Exec(s, steps) == Do(Do(Do(s, x), y), z)
  {
    steps := [] + [x] + [y] + [z];
    ExecSnoc(s, [], x);
    ExecSnoc(s, [] + [x], y);
    ExecSnoc(s, [] + [x] + [y], z);
  }

  lemma FirstLanding(a: Id, b: Id, c: Id) returns (steps: seq<Step>)
    requires a != b && b != c && a != c
    ensures steps == [MergeBranch(a), KILL_LAND, Clean, MergeBranch(b), Settle(true)]
    ensures Legal(Twins(a, b, c), steps) && Exec(Twins(a, b, c), steps) == OneLanded(a, b, c)
  {
    var s := Twins(a, b, c);
    Interrupted(a, b, c);
    var p := ThreeSteps(s, MergeBranch(a), KILL_LAND, Clean);
    OtherLands(a, b, c);
    ExecSnoc(s, p, MergeBranch(b));
    ExecSnoc(s, p + [MergeBranch(b)], Settle(true));
    steps := p + [MergeBranch(b)] + [Settle(true)];
  }

  lemma SecondLanding(a: Id, b: Id, c: Id)
    requires a != b && b != c && a != c && b != ""
    ensures var s := OneLanded(a, b, c);
      && Enabled(s, MergeBranch(a)) && Enabled(Do(s, MergeBranch(a)), Revert)
      && var t := Do(Do(s, MergeBranch(a)), Revert);
         b in t.tickets && t.tickets[b].status.Landed? && !Merged(t, b) && Dispatchable(t, c, false) && !Cleared(t, c)
  {
    var t := Do(Do(OneLanded(a, b, c), MergeBranch(a)), Revert);
    assert t.base == [Merge("", []), Merge(a, [])];
    UnmetEmpty([b], t.tickets, t.archive.Keys);
    assert Deps(t, c) == [b];
  }

  /** `land` of a is killed after its merge, b lands, a is landed again -- there is nothing left to
      merge -- and reverted: b's merge is gone, b still counts as landed, and the ticket that waits
      for b is let through. */
  lemma LostMerge(a: Id, b: Id, c: Id) returns (steps: seq<Step>)
    requires a != b && b != c && a != c && b != ""
    ensures steps == [MergeBranch(a), KILL_LAND, Clean, MergeBranch(b), Settle(true)] + [MergeBranch(a)] + [Revert]
    ensures Inv(Twins(a, b, c), 1) && Legal(Twins(a, b, c), steps)
    ensures var t := Exec(Twins(a, b, c), steps);
      && b in t.tickets && t.tickets[b].status.Landed? && !Merged(t, b)
      && Dispatchable(t, c, false) && !Cleared(t, c)
  {
    var s := Twins(a, b, c);
    TwinsInv(a, b, c);
    SecondLanding(a, b, c);
    var first := FirstLanding(a, b, c);
    ExecSnoc(s, first, MergeBranch(a));
    ExecSnoc(s, first + [MergeBranch(a)], Revert);
    steps := first + [MergeBranch(a)] + [Revert];
  }

  // ------------------------------------------------------------ the order of merges

  /** Merges made by the fleet extend `depends_on`: each comes after everything its ticket names,
      and none is ever taken back but by the landing that made it. */
  lemma MergeOrder(s: State, from: nat, steps: seq<Step>)
    requires Inv(s, from) && Legal(s, steps) && AllSolid(s, steps)
    ensures InDependencyOrder(Exec(s, steps).base, from)
    ensures var t := Exec(s, steps);
      SettledLength(s) <= SettledLength(t) <= |t.base| && t.base[..SettledLength(s)] == s.base[..SettledLength(s)]
  {
    RunInv(s, from, steps);
    RunPrefix(s, from, steps);
    var t := Exec(s, steps);
    assert forall i :: 0 <= i < SettledLength(s) ==> t.base[i] == s.base[i];
  }

  lemma StepPrefix(s: State, from: nat, step: Step)
    requires Inv(s, from) && Enabled(s, step)
    ensures var t := Do(s, step); SettledLength(s) <= SettledLength(t) <= |t.base|
    ensures forall i :: 0 <= i < SettledLength(s) ==> Do(s, step).base[i] == s.base[i]
  {}

  lemma {:induction false} RunPrefix(s: State, from: nat, steps: seq<Step>)
    requires Inv(s, from) && Legal(s, steps) && AllSolid(s, steps)
    ensures var t := Exec(s, steps); SettledLength(s) <= SettledLength(t) <= |t.base|
    ensures forall i :: 0 <= i < SettledLength(s) ==> Exec(s, steps).base[i] == s.base[i]
    decreases |steps|
  {
    if steps != [] {
      StepPrefix(s, from, steps[0]);
      StepInv(s, from, steps[0]);
      RunPrefix(Do(s, steps[0]), from, steps[1..]);
    }
  }

  // ------------------------------------------------------------ ids and claims

  lemma ArchivedStays(s: State, step: Step, id: Id)
    requires KeysApart(s) && Enabled(s, step) && id in s.archive
    ensures id in Do(s, step).archive
  {}

  /** Open and archived ids stay disjoint, no id is ever lost and no dependency list changes. */
  lemma {:induction false} IdsConserved(s: State, steps: seq<Step>, id: Id)
    requires KeysApart(s) && Legal(s, steps)
    ensures KeysApart(Exec(s, steps))
    ensures Known(s, id) ==> Known(Exec(s, steps), id) && Deps(Exec(s, steps), id) == Deps(s, id)
    ensures id in s.archive ==> id in Exec(s, steps).archive && id !in Exec(s, steps).tickets
    decreases |steps|
  {
    if steps != [] {
      StepKeysApart(s, steps[0]);
      if Known(s, id) { KnownStays(s, steps[0], id); }
      if id in s.archive { ArchivedStays(s, steps[0], id); }
      IdsConserved(Do(s, steps[0]), steps[1..], id);
    }
  }

  lemma {:induction false} RunClaims(s: State, steps: seq<Step>)
    requires ClaimsInv(s) && Legal(s, steps)
    ensures ClaimsInv(Exec(s, steps))
    decreases |steps|
  {
    if steps != [] {
      StepClaims(s, steps[0]);
      RunClaims(Do(s, steps[0]), steps[1..]);
    }
  }

  /** Claims stay safe through every interleaving of commands, kills and recoveries included, and
      also when work goes on after a kill without recovery. */
  lemma FleetClaimsSafe(s: State, steps: seq<Step>)
    requires ClaimsInv(s) && Legal(s, steps)
    ensures C.Safe(Exec(s, steps).claims)
  {
    RunClaims(s, steps);
    C.InvSafe(Exec(s, steps).claims, Exec(s, steps).foreign);
  }

  /** A worker died with the lock. */
  ghost predicate StaleLock(s: State) {
    exists w :: w in s.claims.pcs && s.claims.pcs[w].Dead?
  }

  /** The table is as it was, and whoever holds claims held the same claims before. */
  ghost predicate NothingNew(s: State, t: State) {
    && t.claims.disk.table == s.claims.disk.table
    && forall w :: w in t.claims.pcs && C.Owns(t.claims.pcs[w]) ==> HeldBefore(s, w, t.claims.pcs[w])
  }

  predicate HeldBefore(s: State, w: C.Worker, pc: C.Pc)
    requires C.Active(pc)
  {
    w in s.claims.pcs && C.Owns(s.claims.pcs[w]) && s.claims.pcs[w].tid == pc.tid && s.claims.pcs[w].files == pc.files
  }

  lemma ClaimHeld(s: State, a: C.Act, w: C.Worker)
    requires C.Mutex(s.claims) && s.claims.disk.lock && !C.Critical(C.At(s.claims, a.w)) && Enabled(s, Claim(a))
    requires w in Do(s, Claim(a)).claims.pcs && C.Owns(Do(s, Claim(a)).claims.pcs[w])
    ensures HeldBefore(s, w, Do(s, Claim(a)).claims.pcs[w])
  {}

  lemma OutsideStale(s: State, a: C.Act, d: C.Worker)
    requires C.Mutex(s.claims) && d in s.claims.pcs && s.claims.pcs[d].Dead? && C.Enabled(s.claims, a)
    ensures s.claims.disk.lock && a.w != d && !C.Critical(C.At(s.claims, a.w))
    ensures C.Do(s.claims, a).disk.table == s.claims.disk.table
  {}

  lemma ClaimStale(s: State, a: C.Act)
    requires ClaimsInv(s) && StaleLock(s) && Enabled(s, Claim(a))
    ensures StaleLock(Do(s, Claim(a))) && NothingNew(s, Do(s, Claim(a)))
  {
    var d :| d in s.claims.pcs && s.claims.pcs[d].Dead?;
    var t := Do(s, Claim(a));
    OutsideStale(s, a, d);
    assert d in t.claims.pcs && t.claims.pcs[d].Dead?;
    forall w | w in t.claims.pcs && C.Owns(t.claims.pcs[w]) ensures HeldBefore(s, w, t.claims.pcs[w]) {
      ClaimHeld(s, a, w);
    }
  }

  lemma OtherStale(s: State, step: Step)
    requires StaleLock(s) && Enabled(s, step) && !step.Clean? && !step.Claim?
    ensures StaleLock(Do(s, step)) && NothingNew(s, Do(s, step))
  {
    var d :| d in s.claims.pcs && s.claims.pcs[d].Dead?;
    assert d in Do(s, step).claims.pcs && Do(s, step).claims.pcs[d].Dead?;
  }

  lemma StepStale(s: State, step: Step)
    requires ClaimsInv(s) && StaleLock(s) && Enabled(s, step) && !step.Clean?
    ensures StaleLock(Do(s, step)) && NothingNew(s, Do(s, step))
  {
    if step.Claim? { ClaimStale(s, step.act); } else { OtherStale(s, step); }
  }

  lemma NothingNewOn(s: State, t: State, u: State)
    requires NothingNew(s, t) && NothingNew(t, u)
    ensures NothingNew(s, u)
  {
    forall w | w in u.claims.pcs && C.Owns(u.claims.pcs[w]) ensures HeldBefore(s, w, u.claims.pcs[w]) {
      assert HeldBefore(t, w, u.claims.pcs[w]);
      assert HeldBefore(s, w, t.claims.pcs[w]);
    }
  }

  lemma {:induction false} StaleStays(s: State, steps: seq<Step>)
    requires ClaimsInv(s) && StaleLock(s) && Legal(s, steps) && Clean !in steps
    ensures NothingNew(s, Exec(s, steps))
    decreases |steps|
  {
    if steps != [] {
      var t := Do(s, steps[0]);
      StepClaims(s, steps[0]);
      StepStale(s, steps[0]);
      StaleStays(t, steps[1..]);
      NothingNewOn(s, t, Exec(s, steps));
    }
  }

  /** After a kill that hits somebody in the critical section nobody gets a claim and no claim is
      given back, whoever lives on and whatever is started, until `clean`. */
  lemma StaleLockBlocks(s: State, kill: Step, w: C.Worker, steps: seq<Step>)
    requires ClaimsInv(s) && kill.Kill? && Enabled(s, kill) && w in kill.ws
    requires w in s.claims.pcs && C.Critical(s.claims.pcs[w])
    requires Legal(Do(s, kill), steps) && Clean !in steps
    ensures NothingNew(s, Exec(Do(s, kill), steps))
  {
    var t := Do(s, kill);
    StepClaims(s, kill);
    assert w in t.claims.pcs && t.claims.pcs[w].Dead?;
    StaleStays(t, steps);
    assert NothingNew(s, t);
    NothingNewOn(s, t, Exec(t, steps));
  }

  // ------------------------------------------------------------ tickets in progress

  predicate WorkingOn(s: State, w: C.Worker, id: Id) {
    w in s.phases && !s.phases[w].Finished? && Tid(s, w) == Some(id)
  }

  ghost predicate WorkInv(s: State) {
    && (forall w :: w in s.phases ==> Tid(s, w).Some?)
    && (!s.crashed ==>
          forall id :: id in s.tickets && s.tickets[id].status.InProgress? ==> exists w :: WorkingOn(s, w, id))
  }

  lemma StepPhases(s: State, step: Step)
    requires WorkInv(s) && Enabled(s, step)
    ensures forall w :: w in Do(s, step).phases ==> Tid(Do(s, step), w).Some?
  {}

  lemma StepKeepsWorking(s: State, step: Step, w: C.Worker, id: Id)
    requires Enabled(s, step) && !step.Kill? && !step.Clean? && WorkingOn(s, w, id)
    requires id in Do(s, step).tickets && Do(s, step).tickets[id].status.InProgress?
    ensures WorkingOn(Do(s, step), w, id)
  {}

  lemma StepWorkedOn(s: State, step: Step, id: Id)
    requires WorkInv(s) && Enabled(s, step) && !s.crashed && !step.Kill? && !step.Clean?
    requires id in Do(s, step).tickets && Do(s, step).tickets[id].status.InProgress?
    ensures exists w :: WorkingOn(Do(s, step), w, id)
  {
    var t := Do(s, step);
    if step.Mark? && Tid(s, step.w) == Some(id) {
      assert WorkingOn(t, step.w, id);
    } else {
      assert id in s.tickets && s.tickets[id].status.InProgress?;
      var w :| WorkingOn(s, w, id);
      StepKeepsWorking(s, step, w, id);
    }
  }

  lemma StepWork(s: State, step: Step)
    requires WorkInv(s) && Enabled(s, step)
    ensures WorkInv(Do(s, step))
  {
    var t := Do(s, step);
    StepPhases(s, step);
    if !t.crashed && !step.Clean? {
      forall id | id in t.tickets && t.tickets[id].status.InProgress? ensures exists w :: WorkingOn(t, w, id) {
        StepWorkedOn(s, step, id);
      }
    }
  }

  /** A ticket is in progress only while a live worker is on it: only a kill can leave one
      behind, and `clean` collects it. */
  lemma {:induction false} InProgressIsWorkedOn(s: State, steps: seq<Step>)
    requires WorkInv(s) && Legal(s, steps)
    ensures WorkInv(Exec(s, steps))
    decreases |steps|
  {
    if steps != [] {
      StepWork(s, steps[0]);
      InProgressIsWorkedOn(Do(s, steps[0]), steps[1..]);
    }
  }

  // ------------------------------------------------------------ cycles

  ghost predicate WaitsFor(s: State, group: set<Id>, id: Id) {
    Known(s, id) && exists d :: d in group && d in Deps(s, id)
  }

  ghost predicate NoneOnBase(s: State, group: set<Id>) {
    forall i :: 0 <= i < |s.base| ==> s.base[i].id !in group
  }

  /** Every member waits for another member, and none of them is on base. */
  ghost predicate Deadlocked(s: State, group: set<Id>) {
    NoneOnBase(s, group) && forall id :: id in group ==> WaitsFor(s, group, id)
  }

  lemma DeadlockedNotCleared(s: State, group: set<Id>, id: Id)
    requires Deadlocked(s, group) && id in group
    ensures !Cleared(s, id)
  {
    assert WaitsFor(s, group, id);
    var d :| d in group && d in Deps(s, id);
    assert !Merged(s, d);
  }

  lemma StepBaseIds(s: State, step: Step, group: set<Id>)
    requires Enabled(s, step) && NoneOnBase(s, group) && (step.MergeBranch? ==> step.id !in group)
    ensures NoneOnBase(Do(s, step), group)
  {}

  lemma StepWaits(s: State, step: Step, group: set<Id>, id: Id)
    requires KeysApart(s) && Enabled(s, step) && WaitsFor(s, group, id)
    ensures WaitsFor(Do(s, step), group, id)
  {
    KnownStays(s, step, id);
  }

  lemma MergeOutside(s: State, from: nat, id: Id, group: set<Id>)
    requires Inv(s, from) && Enabled(s, MergeBranch(id)) && Deadlocked(s, group)
    ensures id !in group
  {
    if id in group {
      DeadlockedNotCleared(s, group, id);
    }
  }

  lemma StepDeadlocked(s: State, from: nat, step: Step, group: set<Id>)
    requires Inv(s, from) && Enabled(s, step) && Deadlocked(s, group)
    ensures Deadlocked(Do(s, step), group)
  {
    if step.MergeBranch? {
      MergeOutside(s, from, step.id, group);
    }
    StepBaseIds(s, step, group);
    forall id | id in group ensures WaitsFor(Do(s, step), group, id) {
      StepWaits(s, step, group, id);
    }
  }

  lemma DeadlockedIdle(s: State, from: nat, group: set<Id>)
    requires Inv(s, from) && Deadlocked(s, group)
    ensures s.queued.Keys !! group && s.worktrees !! group
    ensures forall w :: w in s.claims.pcs && C.Active(s.claims.pcs[w]) ==> s.claims.pcs[w].tid !in group
  {
    forall id | id in group ensures !Cleared(s, id) { DeadlockedNotCleared(s, group, id); }
  }

  /** Tickets on a dependency cycle none of which is on base are never selected, never worked on
      and never merged, whatever anybody does, as long as only branches that carry something are
      landed. */
  lemma {:induction false} CycleNeverRuns(s: State, from: nat, steps: seq<Step>, group: set<Id>)
    requires Inv(s, from) && Legal(s, steps) && AllSolid(s, steps) && Deadlocked(s, group)
    ensures var t := Exec(s, steps);
      && t.queued.Keys !! group && t.worktrees !! group && NoneOnBase(t, group)
      && forall w :: w in t.claims.pcs && C.Active(t.claims.pcs[w]) ==> t.claims.pcs[w].tid !in group
    decreases |steps|
  {
    if steps == [] {
      DeadlockedIdle(s, from, group);
    } else {
      StepInv(s, from, steps[0]);
      StepDeadlocked(s, from, steps[0], group);
      CycleNeverRuns(Do(s, steps[0]), from, steps[1..], group);
    }
  }

  // ------------------------------------------------------------ recovery

  /** A table at rest with no claims and no ticket in progress, and no other status, archive entry
      or merge changed. */
  ghost predicate Recovered(t: State, u: State) {
    && C.AtRest(u.claims) && u.claims.disk.table == map[] && u.foreign == map[] && !u.crashed
    && u.tickets.Keys == t.tickets.Keys && u.archive == t.archive && u.base == t.base
    && (forall id :: id in t.tickets ==> !u.tickets[id].status.InProgress?)
    && (forall id :: id in t.tickets ==>
          u.tickets[id] == if t.tickets[id].status.InProgress? then t.tickets[id].(status := Open) else t.tickets[id])
  }

  lemma CleanRecovers(t: State)
    ensures Enabled(t, KillAll(t)) && Enabled(Do(t, KillAll(t)), Clean)
    ensures Recovered(t, Do(Do(t, KillAll(t)), Clean)) && WorkInv(Do(Do(t, KillAll(t)), Clean))
  {}

  /** From any point of any run -- lock held, temporary file written, tickets half way -- a kill and
      `clean` recover, and everything the theorems about runs ask for holds again, so that they go
      on applying. */
  lemma CrashRecovery(s: State, from: nat, steps: seq<Step>)
    requires GateInv(s) && Legal(s, steps)
    ensures var t := Exec(s, steps); Recovered(t, Do(Do(t, KillAll(t)), Clean))
    ensures var u := Do(Do(Exec(s, steps), KillAll(Exec(s, steps))), Clean);
      && KeysApart(u) && ClaimsInv(u) && WorkInv(u)
      && (AllHarmless(s, steps) ==> GateInv(u))
      && (OrderInv(s, from) && AllSolid(s, steps) ==> Inv(u, from))
  {
    var t := Exec(s, steps);
    CleanRecovers(t);
    RecoveredBasics(s, steps);
    if AllHarmless(s, steps) {
      RunGate(s, steps);
      StepGate(t, KillAll(t));
      StepGate(Do(t, KillAll(t)), Clean);
    }
    if OrderInv(s, from) && AllSolid(s, steps) {
      RunInv(s, from, steps);
      StepInv(t, from, KillAll(t));
      StepInv(Do(t, KillAll(t)), from, Clean);
    }
  }

  lemma RecoveredBasics(s: State, steps: seq<Step>)
    requires KeysApart(s) && ClaimsInv(s) && Legal(s, steps)
    ensures var u := Do(Do(Exec(s, steps), KillAll(Exec(s, steps))), Clean); KeysApart(u) && ClaimsInv(u)
  {
    var t := Exec(s, steps);
    IdsConserved(s, steps, "");
    RunClaims(s, steps);
    StepKeysApart(t, KillAll(t));
    StepKeysApart(Do(t, KillAll(t)), Clean);
    StepClaims(t, KillAll(t));
    StepClaims(Do(t, KillAll(t)), Clean);
  }
}
