/** The schedule store and its audit log (portal/db/src/schedule-repository.ts). */
module Schedules {
  import opened Wrappers

  datatype Scope = Tenant(tenant: Option<string>) | Group(group: Option<string>) | Everyone

  datatype Schedule = Schedule(
    id: string, name: string, kind: string, cron: string, timezone: string, target: Scope, command: string,
    parameters: string, enabled: bool, isSystem: bool, lastRunAt: Option<string>, nextRunAt: Option<string>,
    createdAt: string, updatedAt: string, deletedAt: Option<string>)

  /** Fields to change; a nullable field can also be set to null. */
  datatype Patch = Patch(
    name: Option<string>, kind: Option<string>, cron: Option<string>, timezone: Option<string>, target: Option<Scope>,
    command: Option<string>, parameters: Option<string>, enabled: Option<bool>,
    lastRunAt: Option<Option<string>>, nextRunAt: Option<Option<string>>)

  /** An audit event. `before` and `after` are snapshots of the whole row. */
  datatype Event = Event(
    actor: string, action: string, targetType: string, targetId: string,
    before: Option<Schedule>, after: Option<Schedule>)

  datatype Error = Duplicate | SystemImmutable

  const TARGET: string := "schedule"

  datatype Op =
    | Create(row: Schedule, actor: string)
    | Update(id: string, patch: Patch, now: string, actor: string)
    | Delete(id: string, now: string, actor: string)
    | Foreign(event: Event)

  datatype Store = Store(tasks: map<string, Schedule>, log: seq<Event>)

  const NEW: Store := Store(map[], [])

  function Patched(row: Schedule, p: Patch, now: string): Schedule {
    row.(
      name := p.name.GetOr(row.name),
      kind := p.kind.GetOr(row.kind),
      cron := p.cron.GetOr(row.cron),
      timezone := p.timezone.GetOr(row.timezone),
      target := p.target.GetOr(row.target),
      command := p.command.GetOr(row.command),
      parameters := p.parameters.GetOr(row.parameters),
      enabled := p.enabled.GetOr(row.enabled),
      lastRunAt := p.lastRunAt.GetOr(row.lastRunAt),
      nextRunAt := p.nextRunAt.GetOr(row.nextRunAt),
      updatedAt := now)
  }

  /** The row an operation writes, if it writes one. */
  function Written(s: Store, op: Op): Option<Schedule> {
    match op
    case Create(row, _) => if row.id in s.tasks then None else Some(row)
    case Update(id, patch, now, _) =>
      if id in s.tasks && !s.tasks[id].isSystem then Some(Patched(s.tasks[id], patch, now)) else None
    case Delete(id, now, _) =>
      if id in s.tasks && !s.tasks[id].isSystem && s.tasks[id].deletedAt.None? then
        Some(s.tasks[id].(deletedAt := Some(now), updatedAt := now))
      else None
    case Foreign(_) => None
  }

  function ActionOf(op: Op): string {
    match op
    case Create(_, _) => "schedule.create"
    case Update(_, _, _, _) => "schedule.update"
    case Delete(_, _, _) => "schedule.delete"
    case Foreign(e) => e.action
  }

  function ActorOf(op: Op): string {
    if op.Foreign? then op.event.actor else op.actor
  }

  function Lookup(tasks: map<string, Schedule>, id: string): Option<Schedule> {
    if id in tasks then Some(tasks[id]) else None
  }

  /** The store after an operation; other stores append events about their own targets. */
  function Apply(s: Store, op: Op): Store {
    match Written(s, op)
    case Some(row) =>
      Store(s.tasks[row.id := row],
            s.log + [Event(ActorOf(op), ActionOf(op), TARGET, row.id, Lookup(s.tasks, row.id), Some(row))])
    case None => if op.Foreign? then s.(log := s.log + [op.event]) else s
  }

  predicate Allowed(op: Op) {
    op.Foreign? ==> op.event.targetType != TARGET
  }

  function Run(s: Store, ops: seq<Op>): Store {
    if ops == [] then s else Apply(Run(s, ops[..|ops| - 1]), ops[|ops| - 1])
  }

  ghost predicate AllAllowed(ops: seq<Op>) {
    forall i :: 0 <= i < |ops| ==> Allowed(ops[i])
  }

  // ------------------------------------------------------------ the repository

  class Repository {
    var tasks: map<string, Schedule>
    var log: seq<Event>

    constructor ()
      ensures Now() == NEW
    {
      tasks, log := map[], [];
    }

    function Now(): Store
      reads this
    {
      Store(tasks, log)
    }

    method Audit(actor: string, action: string, id: string, before: Option<Schedule>, after: Option<Schedule>)
      modifies this`log
      ensures log == old(log) + [Event(actor, action, TARGET, id, before, after)]
    {
      log := log + [Event(actor, action, TARGET, id, before, after)];
    }

    method CreateSchedule(row: Schedule, actor: string) returns (r: Result<Schedule, Error>)
      modifies this
      ensures Now() == Apply(old(Now()), Create(row, actor))
      ensures r == if row.id in old(tasks) then Err(Duplicate) else Ok(row)
    {
      if row.id in tasks { return Err(Duplicate); }
      tasks := tasks[row.id := row];
      Audit(actor, "schedule.create", row.id, None, Some(row));
      r := Ok(row);
    }

    method UpdateSchedule(id: string, patch: Patch, now: string, actor: string)
      returns (r: Result<Option<Schedule>, Error>)
      requires id in tasks ==> tasks[id].id == id
      modifies this
      ensures Now() == Apply(old(Now()), Update(id, patch, now, actor))
      ensures r == if id in old(tasks) && old(tasks)[id].isSystem then Err(SystemImmutable)
                   else Ok(Written(old(Now()), Update(id, patch, now, actor)))
    {
      if id !in tasks { return Ok(None); }
      var existing := tasks[id];
      if existing.isSystem { return Err(SystemImmutable); }
      var updated := Patched(existing, patch, now);
      tasks := tasks[id := updated];
      Audit(actor, "schedule.update", id, Some(existing), Some(updated));
      r := Ok(Some(updated));
    }

    method SoftDeleteSchedule(id: string, now: string, actor: string) returns (r: Result<bool, Error>)
      requires id in tasks ==> tasks[id].id == id
      modifies this
      ensures Now() == Apply(old(Now()), Delete(id, now, actor))
      ensures r == if id !in old(tasks) || old(tasks)[id].deletedAt.Some? then Ok(false)
                   else if old(tasks)[id].isSystem then Err(SystemImmutable) else Ok(true)
    {
      if id !in tasks || tasks[id].deletedAt.Some? { return Ok(false); }
      var existing := tasks[id];
      if existing.isSystem { return Err(SystemImmutable); }
      var after := existing.(deletedAt := Some(now), updatedAt := now);
      tasks := tasks[id := after];
      Audit(actor, "schedule.delete", id, Some(existing), Some(after));
      r := Ok(true);
    }
  }

  // ------------------------------------------------------------ the log is the table

  /** Folding the `after` snapshots of the schedule events. */
  function Replay(log: seq<Event>): map<string, Schedule> {
    if log == [] then map[]
    else
      var before, e := Replay(log[..|log| - 1]), log[|log| - 1];
      if e.targetType == TARGET && e.after.Some? then before[e.targetId := e.after.value] else before
  }

  ghost predicate Keyed(s: Store) {
    forall id :: id in s.tasks ==> s.tasks[id].id == id
  }

  lemma {:induction false} ReplayRebuilds(ops: seq<Op>)
    requires AllAllowed(ops)
    ensures Replay(Run(NEW, ops).log) == Run(NEW, ops).tasks
    decreases |ops|
  {
    if ops != [] {
      var n := |ops| - 1;
      var s := Run(NEW, ops[..n]);
      ReplayRebuilds(ops[..n]);
      var t := Apply(s, ops[n]);
      if t.log != s.log {
        assert t.log[..|t.log| - 1] == s.log;
      }
    }
  }

  /** Every event's `before` is its target's previous `after`, and nothing for a first event. */
  lemma {:induction false} ChainUnbroken(ops: seq<Op>, i: nat)
    requires AllAllowed(ops) && i < |Run(NEW, ops).log| && Run(NEW, ops).log[i].targetType == TARGET
    ensures var log := Run(NEW, ops).log; log[i].before == Lookup(Replay(log[..i]), log[i].targetId)
    decreases |ops|
  {
    var n := |ops| - 1;
    var s := Run(NEW, ops[..n]);
    var t := Apply(s, ops[n]);
    if i < |s.log| {
      ChainUnbroken(ops[..n], i);
      assert t.log[..i] == s.log[..i] && t.log[i] == s.log[i];
    } else {
      ReplayRebuilds(ops[..n]);
      assert t.log[..i] == s.log;
    }
  }

  /** Nothing changes unrecorded, and nothing is recorded that did not happen: a row differs after
      an operation exactly when the operation logged one event about it with a different snapshot. */
  lemma ChangesAreLogged(s: Store, op: Op, id: string)
    requires Allowed(op)
    ensures var t := Apply(s, op);
      Lookup(s.tasks, id) != Lookup(t.tasks, id) <==>
      |t.log| == |s.log| + 1 && t.log[|s.log|].targetType == TARGET && t.log[|s.log|].targetId == id
        && t.log[|s.log|].before == Lookup(s.tasks, id) && t.log[|s.log|].after == Lookup(t.tasks, id)
        && t.log[|s.log|].before != t.log[|s.log|].after
  {}

  // ------------------------------------------------------------ what never changes

  /** A system timer's row is the one it was created with, for ever. */
  lemma {:induction false} SystemFrozen(s: Store, ops: seq<Op>, id: string)
    requires Keyed(s) && id in s.tasks && s.tasks[id].isSystem
    ensures id in Run(s, ops).tasks && Run(s, ops).tasks[id] == s.tasks[id] && Keyed(Run(s, ops))
    decreases |ops|
  {
    if ops != [] { SystemFrozen(s, ops[..|ops| - 1], id); }
  }

  /** A row is never lost, keeps its id, origin and creation time, and once deleted stays deleted
      at the same time. */
  lemma {:induction false} IdentityKept(s: Store, ops: seq<Op>, id: string)
    requires Keyed(s) && id in s.tasks
    ensures id in Run(s, ops).tasks && Keyed(Run(s, ops))
    ensures var was, now := s.tasks[id], Run(s, ops).tasks[id];
      && now.isSystem == was.isSystem && now.createdAt == was.createdAt
      && (was.deletedAt.Some? ==> now.deletedAt == was.deletedAt)
    decreases |ops|
  {
    if ops != [] { IdentityKept(s, ops[..|ops| - 1], id); }
  }
}
