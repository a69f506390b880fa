/** `land --verify` (fleet/fleet.py): merge a ticket's branch, run the suite on base, run it
    again if something new fails, and take the merge back if the failure repeats.

    Base is its first-parent chain of commits. The suite is an oracle: `det(base)` are the tests
    that fail on a base every time, and a run may report any further tests on top. */
module Landing {
  import opened Wrappers
  import F = Fleet
  import FleetRuns
  import opened Sequences

  type Id = F.Id
  type Test = string
  type Commit = F.Merge

  /** What git and the suite do while one ticket is being landed. `commit` is the merge commit,
      or None when the branch carries nothing base does not have ("already up to date"). A run
      of None is one that never comes back with a result, as when the test timeout raises. */
  datatype Trial = Trial(rebases: bool, merges: bool, commit: Option<Commit>,
                         run1: Option<set<Test>>, run2: Option<set<Test>>)

  datatype Outcome = Refused | Conflict | Reverted | Merged | Raised

  datatype Repo = Repo(base: seq<Commit>, tickets: map<Id, F.Status>)

  datatype Options = Options(verify: bool, force: bool, baseline: set<Test>)

  // ------------------------------------------------------------ one ticket

  function MergedBase(base: seq<Commit>, trial: Trial): seq<Commit> {
    if trial.commit.Some? then base + [trial.commit.value] else base
  }

  /** What the two runs say: None if a needed run raises, otherwise the failures held against the merge. */
  function Verdict(o: Options, trial: Trial): Option<set<Test>> {
    if !o.verify then Some({})
    else if trial.run1.None? then None
    else if trial.run1.value - o.baseline == {} then Some({})
    else if trial.run2.None? then None
    else Some((trial.run1.value - o.baseline) * (trial.run2.value - o.baseline))
  }

  function LandOne(r: Repo, o: Options, id: Id, trial: Trial): (Repo, Outcome) {
    if id !in r.tickets then (r, Raised)
    else if r.tickets[id] != F.QaPass && !o.force then (r, Refused)
    else if !trial.rebases || !trial.merges then (r.(tickets := r.tickets[id := F.NeedsAttention]), Conflict)
    else
      var base := MergedBase(r.base, trial);
      match Verdict(o, trial)
      case None => (r.(base := base), Raised)
      case Some(failures) =>
        if failures == {} then (Repo(base, r.tickets[id := F.Landed]), Merged)
        else if |base| < 2 then (r.(base := base), Raised)  // `HEAD~1` does not exist
        else (Repo(base[..|base| - 1], r.tickets[id := F.NeedsAttention]), Reverted)
  }

  /** The whole command: tickets in order, stopping where an exception escapes. */
  function LandAll(r: Repo, o: Options, ids: seq<Id>, trials: seq<Trial>): (Repo, seq<Outcome>)
    requires |ids| == |trials|
    decreases |ids|
  {
    if ids == [] then (r, [])
    else
      var (next, outcome) := LandOne(r, o, ids[0], trials[0]);
      if outcome.Raised? then (next, [outcome])
      else
        var (final, outcomes) := LandAll(next, o, ids[1..], trials[1..]);
        (final, [outcome] + outcomes)
  }

  // ------------------------------------------------------------ the suite

  /** Runs that come back report at least what fails every time. */
  predicate Honest(det: seq<Commit> -> set<Test>, base: seq<Commit>, trial: Trial) {
    var merged := MergedBase(base, trial);
    && (trial.run1.Some? ==> det(merged) <= trial.run1.value)
    && (trial.run1.Some? && trial.run2.Some? ==> det(merged) <= trial.run2.value)
  }

  /** A landed merge breaks nothing that was not broken, a merge that does is always taken back,
      and nothing is taken back on the strength of one flaky run. */
  lemma VerdictIsFair(r: Repo, o: Options, id: Id, trial: Trial, det: seq<Commit> -> set<Test>)
    requires o.verify && Honest(det, r.base, trial)
    ensures LandOne(r, o, id, trial).1.Merged? ==> det(LandOne(r, o, id, trial).0.base) <= o.baseline
    ensures LandOne(r, o, id, trial).1.Reverted? ==>
      exists t ::
        t !in o.baseline && trial.run1.Some? && t in trial.run1.value && trial.run2.Some? && t in trial.run2.value
    ensures !(det(MergedBase(r.base, trial)) <= o.baseline) ==> !LandOne(r, o, id, trial).1.Merged?
  {
    var v := Verdict(o, trial);
    if v.Some? {
      assert det(MergedBase(r.base, trial)) - o.baseline <= v.value;
      assert forall t :: t in det(MergedBase(r.base, trial)) && t !in o.baseline ==> t in v.value;
      if v.value != {} {
        var t :| t in v.value;
        assert t !in o.baseline && t in trial.run1.value && t in trial.run2.value;
      }
    }
  }

  /** Taking a merge back restores base exactly when the merge made a commit: `HEAD~1` is
      otherwise somebody else's work. Refusals and conflicts never touch base. */
  lemma RevertRestoresBaseExactly(r: Repo, o: Options, id: Id, trial: Trial)
    ensures var (next, outcome) := LandOne(r, o, id, trial);
      && (outcome.Refused? || outcome.Conflict? ==> next.base == r.base)
      && (outcome.Reverted? ==> (next.base == r.base <==> trial.commit.Some?))
  {
    var base := MergedBase(r.base, trial);
    if trial.commit.Some? {
      assert base[..|base| - 1] == r.base;
    }
  }

  // ------------------------------------------------------------ when base stays inside the baseline

  /** The ticket gets as far as being merged. */
  predicate Attempted(r: Repo, o: Options, id: Id, trial: Trial) {
    id in r.tickets && (r.tickets[id] == F.QaPass || o.force) && trial.rebases && trial.merges
  }

  /** A needed run of the suite never comes back. */
  predicate Hangs(o: Options, trial: Trial) {
    trial.run1.None? || (trial.run1.value - o.baseline != {} && trial.run2.None?)
  }

  /** Both runs come back and agree on a failure outside the baseline. */
  predicate Condemned(o: Options, trial: Trial) {
    trial.run1.Some? && trial.run2.Some? && (trial.run1.value - o.baseline) * (trial.run2.value - o.baseline) != {}
  }

  /** What one can see before and during the landing, without its result: a new merge is not left
      behind by a suite that never comes back, nor by a base with nothing to go back to; and with
      nothing to merge the runs do not condemn a base on which there is a commit to take back. */
  predicate Sound(r: Repo, o: Options, id: Id, trial: Trial) {
    Attempted(r, o, id, trial) ==>
      if trial.commit.Some? then !Hangs(o, trial) && !(Condemned(o, trial) && r.base == [])
      else !(Condemned(o, trial) && |r.base| >= 2)
  }

  /** A landing is sound when it takes back no commit but its own and leaves none behind unverified. */
  lemma SoundOutcome(r: Repo, o: Options, id: Id, trial: Trial)
    requires o.verify
    ensures var (next, outcome) := LandOne(r, o, id, trial);
      Sound(r, o, id, trial) <==>
      (outcome.Reverted? ==> trial.commit.Some?) && (outcome.Raised? ==> next.base == r.base)
  {
    var merged := MergedBase(r.base, trial);
    assert trial.commit.Some? ==> |merged| == |r.base| + 1;
  }

  ghost predicate KeepsBaseline(r: Repo, o: Options, id: Id, trial: Trial) {
    forall det: seq<Commit> -> set<Test> :: det(r.base) <= o.baseline && Honest(det, r.base, trial) ==>
      det(LandOne(r, o, id, trial).0.base) <= o.baseline
  }

  lemma SoundKeepsBaseline(r: Repo, o: Options, id: Id, trial: Trial, det: seq<Commit> -> set<Test>)
    requires o.verify && Sound(r, o, id, trial) && det(r.base) <= o.baseline && Honest(det, r.base, trial)
    ensures det(LandOne(r, o, id, trial).0.base) <= o.baseline
  {
    SoundOutcome(r, o, id, trial);
    VerdictIsFair(r, o, id, trial, det);
    RevertRestoresBaseExactly(r, o, id, trial);
  }

  lemma UnsoundBreaksBaseline(r: Repo, o: Options, id: Id, trial: Trial, t: Test)
    requires o.verify && t !in o.baseline && !Sound(r, o, id, trial)
    ensures !KeepsBaseline(r, o, id, trial)
  {
    var (next, outcome) := LandOne(r, o, id, trial);
    SoundOutcome(r, o, id, trial);
    RevertRestoresBaseExactly(r, o, id, trial);
    assert next.base != r.base;
    var merged := MergedBase(r.base, trial);
    // A test that fails on the resulting base and nowhere else, and that the runs did see if they saw that base.
    var suspects := match Verdict(o, trial)
      case Some(failures) => failures
      case None => if trial.run1.Some? then trial.run1.value - o.baseline else {t};
    assert suspects != {};
    var culprit :| culprit in suspects;
    var broken: seq<Commit> -> set<Test> := base => if base == next.base then {culprit} else {};
    assert culprit !in o.baseline;
    assert Honest(broken, r.base, trial);
    assert culprit in broken(next.base) && broken(r.base) == {};
  }

  /** Landing one ticket keeps base inside the baseline, whatever fails deterministically where,
      exactly when the landing is sound. */
  lemma KeepsBaselineExactly(r: Repo, o: Options, id: Id, trial: Trial, t: Test)
    requires o.verify && t !in o.baseline
    ensures KeepsBaseline(r, o, id, trial) <==> Sound(r, o, id, trial)
  {
    if Sound(r, o, id, trial) {
      forall det: seq<Commit> -> set<Test> | det(r.base) <= o.baseline && Honest(det, r.base, trial)
        ensures det(LandOne(r, o, id, trial).0.base) <= o.baseline
      {
        SoundKeepsBaseline(r, o, id, trial, det);
      }
    } else {
      UnsoundBreaksBaseline(r, o, id, trial, t);
    }
  }

  /** Nothing to merge, and the same new failure twice: somebody else's commit is gone. */
  lemma ForeignCommitLost(r: Repo, o: Options, id: Id, t: Test)
    requires o.verify && t !in o.baseline && |r.base| >= 2 && id in r.tickets && r.tickets[id] == F.QaPass
    ensures var trial := Trial(true, true, None, Some({t}), Some({t}));
      LandOne(r, o, id, trial).0.base == r.base[..|r.base| - 1] && !KeepsBaseline(r, o, id, trial)
  {
    var trial := Trial(true, true, None, Some({t}), Some({t}));
    assert t in (trial.run1.value - o.baseline) * (trial.run2.value - o.baseline);
    KeepsBaselineExactly(r, o, id, trial, t);
  }

  ghost predicate AlwaysKeeps(r: Repo, o: Options, id: Id, commit: Option<Commit>, dependable: bool) {
    forall run1: Option<set<Test>>, run2: Option<set<Test>> :: (dependable ==> run1.Some? && run2.Some?) ==>
      KeepsBaseline(r, o, id, Trial(true, true, commit, run1, run2))
  }

  /** A run that crashes without a report looks like one without failures, and lands anything: it is
      the run that is not honest. */
  lemma SilentRunLands(r: Repo, o: Options, id: Id, commit: Commit, det: seq<Commit> -> set<Test>)
    requires o.verify && id in r.tickets && r.tickets[id] == F.QaPass && !(det(r.base + [commit]) <= o.baseline)
    ensures var trial := Trial(true, true, Some(commit), Some({}), None);
      var (next, outcome) := LandOne(r, o, id, trial);
      outcome.Merged? && !(det(next.base) <= o.baseline) && !Honest(det, r.base, trial)
  {
    var trial := Trial(true, true, Some(commit), Some({}), None);
    assert MergedBase(r.base, trial) == r.base + [commit];
    assert trial.run1.value - o.baseline == {};
    var t :| t in det(r.base + [commit]) && t !in o.baseline;
  }

  /** What a caller can see to beforehand: a merge is safe whatever the two runs of the suite report
      exactly when the branch carries a commit that is not on base and the suite always returns. */
  lemma SafeLandingExactly(r: Repo, o: Options, id: Id, commit: Option<Commit>, dependable: bool, t: Test)
    requires o.verify && t !in o.baseline && |r.base| >= 2
    requires id in r.tickets && (r.tickets[id] == F.QaPass || o.force)
    ensures AlwaysKeeps(r, o, id, commit, dependable) <==> commit.Some? && dependable
  {
    if commit.Some? && dependable {
      forall run1: Option<set<Test>>, run2: Option<set<Test>> | run1.Some? && run2.Some?
        ensures KeepsBaseline(r, o, id, Trial(true, true, commit, run1, run2))
      {
        KeepsBaselineExactly(r, o, id, Trial(true, true, commit, run1, run2), t);
      }
    } else if commit.None? {
      var trial := Trial(true, true, commit, Some({t}), Some({t}));
      assert t in (trial.run1.value - o.baseline) * (trial.run2.value - o.baseline);
      KeepsBaselineExactly(r, o, id, trial, t);
      assert !AlwaysKeeps(r, o, id, commit, dependable);
    } else {
      KeepsBaselineExactly(r, o, id, Trial(true, true, commit, None, None), t);
      assert !AlwaysKeeps(r, o, id, commit, dependable);
    }
  }

  // ------------------------------------------------------------ the whole command

  /** Every ticket is landed soundly by an honest suite. */
  ghost predicate AllSound(r: Repo, o: Options, ids: seq<Id>, trials: seq<Trial>, det: seq<Commit> -> set<Test>)
    requires |ids| == |trials|
    decreases |ids|
  {
    ids == [] ||
    (&& Sound(r, o, ids[0], trials[0]) && Honest(det, r.base, trials[0])
     && (!LandOne(r, o, ids[0], trials[0]).1.Raised? ==>
           AllSound(LandOne(r, o, ids[0], trials[0]).0, o, ids[1..], trials[1..], det)))
  }

  /** Base stays inside the baseline through the whole command. */
  lemma {:induction false} VerifiedLanding(
      r: Repo, o: Options, ids: seq<Id>, trials: seq<Trial>, det: seq<Commit> -> set<Test>)
    requires o.verify && |ids| == |trials| && det(r.base) <= o.baseline && AllSound(r, o, ids, trials, det)
    ensures det(LandAll(r, o, ids, trials).0.base) <= o.baseline
    decreases |ids|
  {
    if ids != [] {
      SoundKeepsBaseline(r, o, ids[0], trials[0], det);
      var (next, outcome) := LandOne(r, o, ids[0], trials[0]);
      if !outcome.Raised? {
        VerifiedLanding(next, o, ids[1..], trials[1..], det);
      }
    }
  }

  /** The merge commits of the tickets that landed, in order. */
  function LandedCommits(outcomes: seq<Outcome>, trials: seq<Trial>): seq<Commit>
    requires |outcomes| <= |trials|
    decreases |outcomes|
  {
    if outcomes == [] then []
    else LandedFirst(outcomes[0], trials[0]) + LandedCommits(outcomes[1..], trials[1..])
  }

  function LandedFirst(outcome: Outcome, trial: Trial): seq<Commit> {
    if outcome.Merged? && trial.commit.Some? then [trial.commit.value] else []
  }

  lemma LandedCons(outcome: Outcome, outcomes: seq<Outcome>, trials: seq<Trial>)
    requires |outcomes| < |trials|
    ensures LandedCommits([outcome] + outcomes, trials)
      == LandedFirst(outcome, trials[0]) + LandedCommits(outcomes, trials[1..])
  {
    assert ([outcome] + outcomes)[1..] == outcomes;
  }

  /** What reaches base is exactly what landed: refused, conflicting and reverted tickets leave no trace. */
  lemma {:induction false} BaseIsWhatLanded(
      r: Repo, o: Options, ids: seq<Id>, trials: seq<Trial>, det: seq<Commit> -> set<Test>)
    requires o.verify && |ids| == |trials| && AllSound(r, o, ids, trials, det)
    ensures var (final, outcomes) := LandAll(r, o, ids, trials);
      |outcomes| <= |trials| && final.base == r.base + LandedCommits(outcomes, trials)
    decreases |ids|
  {
    if ids == [] {
      assert r.base + [] == r.base;
    } else {
      var (next, outcome) := LandOne(r, o, ids[0], trials[0]);
      SoundOutcome(r, o, ids[0], trials[0]);
      RevertRestoresBaseExactly(r, o, ids[0], trials[0]);
      if outcome.Raised? {
        assert LandedCommits([outcome], trials) == [] + LandedCommits([], trials[1..]);
      } else {
        BaseIsWhatLanded(next, o, ids[1..], trials[1..], det);
        var (final, outcomes) := LandAll(next, o, ids[1..], trials[1..]);
        LandedCons(outcome, outcomes, trials);
        assert next.base == r.base + LandedFirst(outcome, trials[0]);
        Assoc(r.base, LandedFirst(outcome, trials[0]), LandedCommits(outcomes, trials[1..]));
      }
    }
  }

  // ------------------------------------------------------------ the command as a program

  ghost function After(outcomes: seq<Outcome>, rest: (Repo, seq<Outcome>)): (Repo, seq<Outcome>) {
    (rest.0, outcomes + rest.1)
  }

  class Lander {
    var base: seq<Commit>
    var tickets: map<Id, F.Status>

    constructor (base: seq<Commit>, tickets: map<Id, F.Status>)
      ensures this.base == base && this.tickets == tickets
    {
      this.base, this.tickets := base, tickets;
    }

    /** One turn of the loop. */
    method LandTicket(o: Options, id: Id, trial: Trial) returns (outcome: Outcome)
      modifies this
      ensures (Repo(base, tickets), outcome) == LandOne(old(Repo(base, tickets)), o, id, trial)
    {
      if id !in tickets {
        return Raised;
      }
      if tickets[id] != F.QaPass && !o.force {
        return Refused;
      }
      if !trial.rebases || !trial.merges {
        tickets := tickets[id := F.NeedsAttention];
        return Conflict;
      }
      if trial.commit.Some? {
        base := base + [trial.commit.value];
      }
      if o.verify {
        if trial.run1.None? {
          return Raised;
        }
        var failures := trial.run1.value - o.baseline;
        if failures != {} {
          if trial.run2.None? {
            return Raised;
          }
          failures := failures * (trial.run2.value - o.baseline);
        }
        if failures != {} {
          if |base| < 2 {
            return Raised;
          }
          base := base[..|base| - 1];
          tickets := tickets[id := F.NeedsAttention];
          return Reverted;
        }
      }
      tickets := tickets[id := F.Landed];
      return Merged;
    }

    method Land(o: Options, ids: seq<Id>, trials: seq<Trial>) returns (outcomes: seq<Outcome>)
      requires |ids| == |trials|
      modifies this
      ensures (Repo(base, tickets), outcomes) == LandAll(old(Repo(base, tickets)), o, ids, trials)
    {
      outcomes := [];
      assert ids[0..] == ids && trials[0..] == trials;
      ghost var start := Repo(base, tickets);
      assert [] + LandAll(start, o, ids, trials).1 == LandAll(start, o, ids, trials).1;
      for i := 0 to |ids|
        invariant LandAll(start, o, ids, trials)
          == After(outcomes, LandAll(Repo(base, tickets), o, ids[i..], trials[i..]))
      {
        ghost var before := Repo(base, tickets);
        var outcome := LandTicket(o, ids[i], trials[i]);
        assert ids[i..][1..] == ids[i + 1..] && trials[i..][1..] == trials[i + 1..];
        ghost var rest := LandAll(Repo(base, tickets), o, ids[i + 1..], trials[i + 1..]);
        assert (outcomes + [outcome]) + rest.1 == outcomes + ([outcome] + rest.1);
        outcomes := outcomes + [outcome];
        if outcome.Raised? {
          return;
        }
      }
      assert outcomes + [] == outcomes;
    }
  }

  // ------------------------------------------------------------ the same command in the life cycle

  function Statuses(tickets: map<Id, F.Ticket>): map<Id, F.Status> {
    map id | id in tickets :: tickets[id].status
  }

  /** What merging the ticket's branch gives in this state. */
  function CommitOf(s: F.State, id: Id): Option<Commit>
    requires id in s.tickets
  {
    if id in s.ahead then Some(F.Merge(id, s.tickets[id].dependsOn)) else None
  }

  /** The steps one turn of the loop takes. */
  function StepsOf(id: Id, outcome: Outcome, merged: bool): seq<F.Step> {
    match outcome
    case Refused => []
    case Conflict => [F.Conflict(id)]
    case Merged => [F.MergeBranch(id), F.Settle(true)]
    case Reverted => [F.MergeBranch(id), F.Revert]
    case Raised => if merged then [F.MergeBranch(id), F.Raise] else []
  }

  lemma TwoSteps(s: F.State, a: F.Step, b: F.Step)
    requires F.Enabled(s, a) && F.Enabled(F.Do(s, a), b)
    ensures F.Legal(s, [a, b]) && F.Exec(s, [a, b]) == F.Do(F.Do(s, a), b)
  {
    FleetRuns.ExecSnoc(s, [], a);
    FleetRuns.ExecSnoc(s, [] + [a], b);
    assert [] + [a] + [b] == [a, b];
  }

  lemma StatusSet(tickets: map<Id, F.Ticket>, id: Id, status: F.Status)
    requires id in tickets
    ensures Statuses(F.SetStatus(tickets, id, status)) == Statuses(tickets)[id := status]
  {}

  lemma MergeThen(s: F.State, id: Id, trial: Trial, later: F.Step)
    requires s.landing.None? && id in s.tickets && s.tickets[id].status.QaPass? && trial.commit == CommitOf(s, id)
    requires later == F.Settle(true) || later == F.Raise || (later == F.Revert && |MergedBase(s.base, trial)| >= 2)
    ensures var merged := MergedBase(s.base, trial);
      && F.Legal(s, [F.MergeBranch(id), later])
      && F.Exec(s, [F.MergeBranch(id), later]).base == (if later.Revert? then merged[..|merged| - 1] else merged)
      && Statuses(F.Exec(s, [F.MergeBranch(id), later]).tickets)
         == if later.Raise? then Statuses(s.tickets)
            else Statuses(s.tickets)[id := if later.Revert? then F.NeedsAttention else F.Landed]
  {
    var m := F.Do(s, F.MergeBranch(id));
    assert m.base == MergedBase(s.base, trial) && m.tickets == s.tickets;
    TwoSteps(s, F.MergeBranch(id), later);
    StatusSet(s.tickets, id, F.Landed);
    StatusSet(s.tickets, id, F.NeedsAttention);
  }

  lemma ConflictStep(s: F.State, id: Id)
    requires s.landing.None? && id in s.tickets && s.tickets[id].status.QaPass?
    ensures F.Legal(s, [F.Conflict(id)]) && F.Exec(s, [F.Conflict(id)]).base == s.base
    ensures Statuses(F.Exec(s, [F.Conflict(id)]).tickets) == Statuses(s.tickets)[id := F.NeedsAttention]
  {
    FleetRuns.ExecSnoc(s, [], F.Conflict(id));
    assert [] + [F.Conflict(id)] == [F.Conflict(id)];
    StatusSet(s.tickets, id, F.NeedsAttention);
  }

  /** One turn of `land` here is one legal run of life-cycle steps there, with the same base and
      the same statuses. */
  lemma LandRefines(s: F.State, o: Options, id: Id, trial: Trial)
    requires o.verify && !o.force && s.landing.None? && (id in s.tickets ==> trial.commit == CommitOf(s, id))
    ensures var (next, outcome) := LandOne(Repo(s.base, Statuses(s.tickets)), o, id, trial);
      var steps := StepsOf(id, outcome, id in s.tickets && s.tickets[id].status.QaPass?);
      && F.Legal(s, steps)
      && F.Exec(s, steps).base == next.base && Statuses(F.Exec(s, steps).tickets) == next.tickets
  {
    var (next, outcome) := LandOne(Repo(s.base, Statuses(s.tickets)), o, id, trial);
    if id in s.tickets && s.tickets[id].status.QaPass? {
      match outcome
      case Refused =>
      case Conflict => ConflictStep(s, id);
      case Merged => MergeThen(s, id, trial, F.Settle(true));
      case Reverted => MergeThen(s, id, trial, F.Revert);
      case Raised => MergeThen(s, id, trial, F.Raise);
    }
  }
}
