/** The restart loop around one agent session (fleet/lib/runner.py, `run_session`), over a clock
    that only moves while an attempt runs or the loop sleeps. */
module Session {
  const STALLED: string := "STALLED"
  const TIMEOUT: string := "TIMEOUT"

  /** One attempt: the status it reports and how long it took. */
  datatype Attempt = Attempt(status: string, duration: real)

  /** What the agent does on its n-th attempt, given how long it may run and how long it may stay silent. */
  type Agent = (nat, int, int) -> Attempt

  /** An attempt is killed, at the latest, when its time is up. */
  ghost predicate Killed(agent: Agent) {
    forall n: nat, allowed: int, silent: int ::
      allowed >= 1 ==> 0.0 <= agent(n, allowed, silent).duration <= allowed as real
  }

  /** `int()` drops the fraction. */
  function Truncate(x: real): int {
    if x >= 0.0 then x.Floor else -((-x).Floor)
  }

  function Remaining(left: real): (r: int)
    ensures r >= 1
  {
    if Truncate(left) < 1 then 1 else Truncate(left)
  }

  function Min(a: int, b: int): int {
    if a < b then a else b
  }

  datatype Settings = Settings(deadline: real, startup: int, retries: int, pause: real)

  datatype Outcome = Outcome(status: string, finish: real, trace: seq<Attempt>)

  function Next(agent: Agent, s: Settings, now: real, attempt: nat): Attempt {
    var remaining := Remaining(s.deadline - now);
    agent(attempt, remaining, Min(s.startup, remaining))
  }

  /** Whether a stalled attempt is the last one. */
  predicate GivesUp(s: Settings, attempts: nat, now: real) {
    attempts > s.retries || now + s.pause >= s.deadline
  }

  function Run(agent: Agent, s: Settings, now: real, attempt: nat): Outcome
    decreases if s.retries >= attempt then s.retries - attempt + 1 else 0
  {
    var a := Next(agent, s, now, attempt);
    var after := now + a.duration;
    if a.status != STALLED then Outcome(a.status, after, [a])
    else if GivesUp(s, attempt + 1, after) then Outcome(TIMEOUT, after, [a])
    else
      var rest := Run(agent, s, after + s.pause, attempt + 1);
      rest.(trace := [a] + rest.trace)
  }

  method RunSession(agent: Agent, start: real, timeout: int, startup: int, retries: int, pause: real)
    returns (status: string, now: real, trace: seq<Attempt>)
    ensures Outcome(status, now, trace)
      == Run(agent, Settings(start + timeout as real, startup, retries, pause), start, 0)
  {
    var deadline := start + timeout as real;
    ghost var s := Settings(deadline, startup, retries, pause);
    var attempt: nat := 0;
    now, trace := start, [];
    while true
      invariant var rest := Run(agent, s, now, attempt);
        rest.(trace := trace + rest.trace) == Run(agent, s, start, 0)
      decreases if retries >= attempt then retries - attempt + 1 else 0
    {
      var remaining := Remaining(deadline - now);
      var res := agent(attempt, remaining, Min(startup, remaining));
      ghost var before := trace;
      now, trace := now + res.duration, trace + [res];
      if res.status != STALLED {
        return res.status, now, trace;
      }
      attempt := attempt + 1;
      if attempt > retries || now + pause >= deadline {
        return TIMEOUT, now, trace;
      }
      now := now + pause;
      assert forall rest: seq<Attempt> :: before + ([res] + rest) == trace + rest;
    }
  }

  function Spent(trace: seq<Attempt>, pause: real): real {
    if trace == [] then 0.0
    else if |trace| == 1 then trace[0].duration
    else trace[0].duration + pause + Spent(trace[1..], pause)
  }

  /** What a run of the loop that started with `attempt` attempts behind it may come to. */
  predicate Lawful(s: Settings, now: real, attempt: nat, o: Outcome) {
    && 1 <= |o.trace| && (|o.trace| == 1 || attempt + |o.trace| <= s.retries + 1)
    && (forall i :: 0 <= i < |o.trace| - 1 ==> o.trace[i].status == STALLED)
    && o.finish == now + Spent(o.trace, s.pause)
    && var last := o.trace[|o.trace| - 1].status;
       if last == STALLED then o.status == TIMEOUT && GivesUp(s, attempt + |o.trace|, o.finish) else o.status == last
  }

  lemma LawfulMore(s: Settings, now: real, attempt: nat, a: Attempt, rest: Outcome)
    requires a.status == STALLED && !GivesUp(s, attempt + 1, now + a.duration)
    requires Lawful(s, now + a.duration + s.pause, attempt + 1, rest)
    ensures Lawful(s, now, attempt, rest.(trace := [a] + rest.trace))
  {
    var trace := [a] + rest.trace;
    assert trace[1..] == rest.trace && trace[0] == a;
    assert forall i :: 1 <= i < |trace| ==> trace[i] == rest.trace[i - 1];
  }

  /** Every run: all attempts but the last stalled; the last one's status is returned unless it
      stalled too, and then the retries or the time were used up. The time is that of the attempts
      and the pauses between them. */
  lemma {:induction false} RunLaw(agent: Agent, s: Settings, now: real, attempt: nat)
    ensures Lawful(s, now, attempt, Run(agent, s, now, attempt))
    decreases if s.retries >= attempt then s.retries - attempt + 1 else 0
  {
    var a := Next(agent, s, now, attempt);
    var after := now + a.duration;
    if a.status == STALLED && !GivesUp(s, attempt + 1, after) {
      RunLaw(agent, s, after + s.pause, attempt + 1);
      LawfulMore(s, now, attempt, a, Run(agent, s, after + s.pause, attempt + 1));
    }
  }

  /** At most one attempt more than the retries (and always one), and never a stall reported. */
  lemma AttemptBound(agent: Agent, s: Settings, start: real)
    ensures var o := Run(agent, s, start, 0);
      |o.trace| <= (if s.retries < 0 then 1 else s.retries + 1) && o.status != STALLED
  {
    RunLaw(agent, s, start, 0);
  }

  /** An attempt started before the deadline ends less than a second after it. */
  lemma AttemptEnds(agent: Agent, s: Settings, now: real, attempt: nat)
    requires Killed(agent) && now < s.deadline
    ensures now <= now + Next(agent, s, now, attempt).duration < s.deadline + 1.0
  {
    var left := s.deadline - now;
    assert left.Floor as real <= left;
  }

  lemma {:induction false} EndsInTime(agent: Agent, s: Settings, now: real, attempt: nat)
    requires Killed(agent) && now < s.deadline
    ensures Run(agent, s, now, attempt).finish < s.deadline + 1.0
    decreases if s.retries >= attempt then s.retries - attempt + 1 else 0
  {
    AttemptEnds(agent, s, now, attempt);
    var a := Next(agent, s, now, attempt);
    var after := now + a.duration;
    if a.status == STALLED && !GivesUp(s, attempt + 1, after) {
      EndsInTime(agent, s, after + s.pause, attempt + 1);
    }
  }

  /** Whatever the agent does, a session ends less than a second after its deadline, exactly when
      it was given any time at all: with no time it still gets a whole second. */
  lemma DeadlineExactly(start: real, timeout: int, startup: int, retries: int, pause: real)
    ensures (forall agent: Agent :: Killed(agent) ==>
        Run(agent, Settings(start + timeout as real, startup, retries, pause), start, 0).finish
          < start + timeout as real + 1.0)
      <==> timeout > 0
  {
    var s := Settings(start + timeout as real, startup, retries, pause);
    if timeout > 0 {
      forall agent: Agent | Killed(agent) ensures Run(agent, s, start, 0).finish < s.deadline + 1.0 {
        EndsInTime(agent, s, start, 0);
      }
    } else {
      var busy: Agent := (n, allowed, silent) => Attempt("UNKNOWN", if allowed >= 1 then allowed as real else 0.0);
      assert Killed(busy);
      assert Remaining(s.deadline - start) == 1;
      assert Run(busy, s, start, 0).finish == start + 1.0;
    }
  }
}
