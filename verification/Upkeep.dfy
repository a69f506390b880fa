/** The two commands that tidy up (fleet/fleet.py): `close` moves finished tickets to the archive,
    `clean` recovers from a killed run. Both loop over the ticket files. */
module Upkeep {
  import F = Fleet
  import FleetRuns
  import C = Claims

  type Tickets = map<F.Id, F.Ticket>

  datatype Flags = Flags(force: bool, override: bool)

  /** The prose gates of `close`, which may look at everything filed so far. */
  type Gates = (F.Id, Tickets, Tickets) -> seq<string>

  datatype Shelves = Shelves(tickets: Tickets, archive: Tickets, moved: nat, refused: nat)

  /** Whether a filed ticket may be archived. */
  predicate Closes(s: Shelves, id: F.Id, flags: Flags, gates: Gates) {
    && id in s.tickets
    && (s.tickets[id].status.Landed? || flags.force)
    && (gates(id, s.tickets, s.archive) == [] || flags.override)
  }

  function CloseOne(s: Shelves, id: F.Id, flags: Flags, gates: Gates): Shelves {
    if id !in s.tickets then s
    else if Closes(s, id, flags, gates) then
      Shelves(s.tickets - {id}, s.archive[id := s.tickets[id].(status := F.Closed)], s.moved + 1, s.refused)
    else s.(refused := s.refused + 1)
  }

  function CloseAll(s: Shelves, ids: seq<F.Id>, flags: Flags, gates: Gates): Shelves {
    if ids == [] then s else CloseOne(CloseAll(s, ids[..|ids| - 1], flags, gates), ids[|ids| - 1], flags, gates)
  }

  class Office {
    var tickets: Tickets
    var archive: Tickets
    var worktrees: set<F.Id>
    var claims: C.Disk

    constructor (filed: Tickets, archived: Tickets, trees: set<F.Id>, disk: C.Disk)
      ensures tickets == filed && archive == archived && worktrees == trees && claims == disk
    {
      tickets, archive, worktrees, claims := filed, archived, trees, disk;
    }

    method Close(ids: seq<F.Id>, flags: Flags, gates: Gates) returns (moved: nat, refused: nat)
      modifies this`tickets, this`archive
      ensures Shelves(tickets, archive, moved, refused)
        == CloseAll(Shelves(old(tickets), old(archive), 0, 0), ids, flags, gates)
    {
      moved, refused := 0, 0;
      for i := 0 to |ids|
        invariant Shelves(tickets, archive, moved, refused)
          == CloseAll(Shelves(old(tickets), old(archive), 0, 0), ids[..i], flags, gates)
      {
        var tid := ids[i];
        assert ids[..i + 1][..i] == ids[..i];
        if tid in tickets {
          var t := tickets[tid];
          if !t.status.Landed? && !flags.force {
            refused := refused + 1;
          } else if gates(tid, tickets, archive) != [] && !flags.override {
            refused := refused + 1;
          } else {
            tickets, archive := tickets - {tid}, archive[tid := t.(status := F.Closed)];
            moved := moved + 1;
          }
        }
      }
      assert ids[..|ids|] == ids;
    }

    /** Statuses are those read before the loop: a ticket it reopens keeps its worktree. */
    method Clean()
      modifies this
      ensures tickets == F.ReopenAll(old(tickets))
      ensures worktrees == F.KeptTrees(old(tickets), old(worktrees), old(tickets).Keys)
      ensures claims == old(claims).(table := map[], lock := false) && archive == old(archive)
    {
      ghost var filed, trees := tickets, worktrees;
      var rest := tickets.Keys;
      while rest != {}
        invariant rest <= filed.Keys && archive == old(archive) && claims == old(claims)
        invariant tickets == map id | id in filed :: if id in rest then filed[id] else F.Reopen(filed[id])
        invariant worktrees == F.KeptTrees(filed, trees, filed.Keys - rest)
        decreases rest
      {
        var id :| id in rest;
        var t := tickets[id];
        assert t == filed[id];
        if t.status.InProgress? {
          tickets := tickets[id := t.(status := F.Open)];
        }
        if t.status.Landed? || t.status.Open? {
          worktrees := worktrees - {id};
        }
        assert filed.Keys - (rest - {id}) == filed.Keys - rest + {id};
        rest := rest - {id};
      }
      claims := claims.(table := map[], lock := false);
      assert filed.Keys - {} == filed.Keys;
    }
  }

  // ------------------------------------------------------------ what closing keeps

  /** No id is lost or duplicated, and nothing else is touched. */
  ghost predicate Conserves(s: Shelves, t: Shelves) {
    && t.tickets.Keys !! t.archive.Keys && t.tickets.Keys + t.archive.Keys == s.tickets.Keys + s.archive.Keys
    && |t.tickets.Keys| + t.moved == |s.tickets.Keys| + s.moved
    && (forall id :: id in t.tickets ==> id in s.tickets && t.tickets[id] == s.tickets[id])
    && (forall id :: id in s.archive ==> id in t.archive && t.archive[id] == s.archive[id])
  }

  lemma TakeOne(keys: set<F.Id>, others: set<F.Id>, id: F.Id)
    requires keys !! others && id in keys
    ensures keys - {id} !! others + {id} && (keys - {id}) + (others + {id}) == keys + others
    ensures |keys - {id}| + 1 == |keys|
  {
    assert keys == (keys - {id}) + {id};
  }

  lemma MoveConserves(s: Shelves, id: F.Id, closed: F.Ticket)
    requires s.tickets.Keys !! s.archive.Keys && id in s.tickets
    ensures Conserves(s, Shelves(s.tickets - {id}, s.archive[id := closed], s.moved + 1, s.refused))
  {
    TakeOne(s.tickets.Keys, s.archive.Keys, id);
    assert (s.tickets - {id}).Keys == s.tickets.Keys - {id};
    assert s.archive[id := closed].Keys == s.archive.Keys + {id};
  }

  lemma CloseOneConserves(s: Shelves, id: F.Id, flags: Flags, gates: Gates)
    requires s.tickets.Keys !! s.archive.Keys
    ensures Conserves(s, CloseOne(s, id, flags, gates))
  {
    if Closes(s, id, flags, gates) { MoveConserves(s, id, s.tickets[id].(status := F.Closed)); }
  }

  lemma ConservesOn(s: Shelves, t: Shelves, u: Shelves)
    requires Conserves(s, t) && Conserves(t, u)
    ensures Conserves(s, u)
  {}

  lemma {:induction false} CloseConserves(s: Shelves, ids: seq<F.Id>, flags: Flags, gates: Gates)
    requires s.tickets.Keys !! s.archive.Keys
    ensures Conserves(s, CloseAll(s, ids, flags, gates))
    decreases |ids|
  {
    if ids != [] {
      var n := |ids| - 1;
      var t := CloseAll(s, ids[..n], flags, gates);
      CloseConserves(s, ids[..n], flags, gates);
      CloseOneConserves(t, ids[n], flags, gates);
      ConservesOn(s, t, CloseOne(t, ids[n], flags, gates));
    }
  }

  /** Without force only landed tickets are archived, each as it was but closed. */
  lemma {:induction false} OnlyLandedClose(s: Shelves, ids: seq<F.Id>, flags: Flags, gates: Gates, id: F.Id)
    requires s.tickets.Keys !! s.archive.Keys && !flags.force
    requires id in CloseAll(s, ids, flags, gates).archive && id !in s.archive
    ensures id in ids && id in s.tickets && s.tickets[id].status.Landed?
    ensures CloseAll(s, ids, flags, gates).archive[id] == s.tickets[id].(status := F.Closed)
    decreases |ids|
  {
    var n := |ids| - 1;
    CloseConserves(s, ids[..n], flags, gates);
    assert ids == ids[..n] + [ids[n]];
    if id in CloseAll(s, ids[..n], flags, gates).archive { OnlyLandedClose(s, ids[..n], flags, gates, id); }
  }

  /** A run of `close` without flags is a run of the life cycle's own close steps. */
  lemma {:induction false} CloseRefines(s: F.State, ids: seq<F.Id>, gates: Gates) returns (steps: seq<F.Step>)
    requires s.tickets.Keys !! s.archive.Keys
    ensures F.Legal(s, steps)
    ensures var t := CloseAll(Shelves(s.tickets, s.archive, 0, 0), ids, Flags(false, false), gates);
      F.Exec(s, steps) == s.(tickets := t.tickets, archive := t.archive)
    decreases |ids|
  {
    steps := [];
    if ids != [] {
      var n := |ids| - 1;
      var flags := Flags(false, false);
      steps := CloseRefines(s, ids[..n], gates);
      var mid := CloseAll(Shelves(s.tickets, s.archive, 0, 0), ids[..n], flags, gates);
      var u := s.(tickets := mid.tickets, archive := mid.archive);
      if Closes(mid, ids[n], flags, gates) {
        FleetRuns.ExecSnoc(s, steps, F.Close(ids[n]));
        steps := steps + [F.Close(ids[n])];
      }
    }
  }

  /** A forced close, on the whole state. */
  function ForceClosed(s: F.State, id: F.Id): F.State
    requires id in s.tickets
  {
    var t := CloseOne(Shelves(s.tickets, s.archive, 0, 0), id, Flags(true, true), (i, x, y) => []);
    s.(tickets := t.tickets, archive := t.archive)
  }

  /** An open ticket with a scope, all of whose other dependencies count as met. */
  predicate WaitsOnlyFor(s: F.State, c: F.Id, id: F.Id) {
    && c in s.tickets && s.tickets[c].status.Open? && s.tickets[c].scope != [] && id in s.tickets[c].dependsOn
    && forall d :: d in s.tickets[c].dependsOn && d != id ==>
         d in s.archive || (d in s.tickets && s.tickets[d].status.Landed?)
  }

  /** A forced close lets through whatever waits for the ticket, and wrongly so exactly when the
      ticket's merge is not on base. */
  lemma ForcedCloseExactly(s: F.State, id: F.Id, c: F.Id)
    requires F.KeysApart(s) && F.LandedInv(s) && id in s.tickets && c != id && WaitsOnlyFor(s, c, id)
    ensures var t := ForceClosed(s, id);
      F.Dispatchable(t, c, false) && (!F.Cleared(t, c) <==> !F.Merged(s, id))
  {
    var t := ForceClosed(s, id);
    F.UnmetEmpty(t.tickets[c].dependsOn, t.tickets, t.archive.Keys);
    forall d | d in F.Deps(t, c) && d != id ensures F.Merged(t, d) {
      assert F.Merged(s, d);
      var i :| 0 <= i < F.SettledLength(s) && i < |s.base| && s.base[i].id == d;
      assert t.base[i].id == d;
    }
    SameMerges(s, t, id);
  }

  lemma SameMerges(s: F.State, t: F.State, id: F.Id)
    requires s.base == t.base && s.landing == t.landing
    ensures F.Merged(s, id) <==> F.Merged(t, id)
  {
    if F.Merged(s, id) {
      var i :| 0 <= i < F.SettledLength(s) && i < |s.base| && s.base[i].id == id;
      assert t.base[i].id == id;
    }
    if F.Merged(t, id) {
      var i :| 0 <= i < F.SettledLength(t) && i < |t.base| && t.base[i].id == id;
      assert s.base[i].id == id;
    }
  }
}
