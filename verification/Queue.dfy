/** Progress of the ticket queue (fleet/fleet.py): which open tickets `run` can take, and what
    happens when round after round everything taken lands. */
module Queue {
  import opened Fleet

  type Tickets = map<Id, Ticket>

  /** The gate of `run`. */
  predicate Ready(ts: Tickets, archived: set<Id>, id: Id) {
    id in ts && ts[id].status.Open? && ts[id].scope != [] && UnmetDeps(ts[id].dependsOn, ts, archived) == []
  }

  predicate IsOpen(ts: Tickets, id: Id) {
    id in ts && ts[id].status.Open?
  }

  function OpenIds(ts: Tickets): set<Id> {
    set id | id in ts && ts[id].status.Open?
  }

  /** One round: everything `run` takes is worked on and lands. */
  function Round(ts: Tickets, archived: set<Id>): Tickets {
    map id | id in ts :: if Ready(ts, archived, id) then ts[id].(status := Landed) else ts[id]
  }

  function Rounds(ts: Tickets, archived: set<Id>, n: nat): Tickets {
    if n == 0 then ts else Round(Rounds(ts, archived, n - 1), archived)
  }

  /** Every open ticket has a scope, every dependency is open, landed or archived, and no id is
      both open and archived. */
  predicate Sane(ts: Tickets, archived: set<Id>) {
    && ts.Keys !! archived
    && forall id :: id in ts && ts[id].status.Open? ==>
         && ts[id].scope != []
         && forall d :: d in ts[id].dependsOn ==>
              d in archived || (d in ts && (ts[d].status.Open? || ts[d].status.Landed?))
  }

  /** A path of open tickets, each depending on the next. */
  predicate IsChain(ts: Tickets, c: seq<Id>) {
    && c != []
    && (forall i :: 0 <= i < |c| ==> IsOpen(ts, c[i]))
    && (forall i :: 0 <= i < |c| - 1 ==> c[i + 1] in ts[c[i]].dependsOn)
  }

  ghost predicate HeadsChain(ts: Tickets, id: Id, n: nat) {
    exists c :: IsChain(ts, c) && |c| == n && c[0] == id
  }

  ghost predicate Acyclic(ts: Tickets) {
    forall c :: IsChain(ts, c) && |c| >= 2 ==> c[0] != c[|c| - 1]
  }

  /** Rounds only ever turn open tickets into landed ones. */
  lemma {:induction false} RoundsKeep(ts: Tickets, archived: set<Id>, n: nat, id: Id)
    ensures var us := Rounds(ts, archived, n);
      && (id in us <==> id in ts)
      && (id in ts ==> us[id].scope == ts[id].scope && us[id].dependsOn == ts[id].dependsOn)
      && (id in ts ==> us[id].status == ts[id].status || (ts[id].status.Open? && us[id].status.Landed?))
  {
    if n > 0 { RoundsKeep(ts, archived, n - 1, id); }
  }

  /** What keeps an open ticket open for another round is a dependency that has not landed. */
  lemma RoundSkips(us: Tickets, archived: set<Id>, id: Id)
    requires IsOpen(us, id) && us[id].scope != []
    ensures IsOpen(Round(us, archived), id) <==>
      exists d :: d in us[id].dependsOn && d !in archived && !(d in us && us[d].status.Landed?)
  {
    UnmetEmpty(us[id].dependsOn, us, archived);
  }

  lemma ChainCons(ts: Tickets, id: Id, d: Id, n: nat)
    requires IsOpen(ts, id) && d in ts[id].dependsOn && HeadsChain(ts, d, n)
    ensures HeadsChain(ts, id, n + 1)
  {
    var c :| IsChain(ts, c) && |c| == n && c[0] == d;
    var e := [id] + c;
    assert forall i :: 0 < i < |e| ==> e[i] == c[i - 1];
    assert IsChain(ts, e) && e[0] == id;
  }

  lemma ChainTail(ts: Tickets, id: Id, n: nat) returns (d: Id)
    requires HeadsChain(ts, id, n) && n >= 2
    ensures IsOpen(ts, id) && d in ts[id].dependsOn && IsOpen(ts, d) && HeadsChain(ts, d, n - 1)
  {
    var c :| IsChain(ts, c) && |c| == n && c[0] == id;
    d := c[1];
    var e := c[1..];
    assert forall i :: 0 <= i < |e| ==> e[i] == c[i + 1];
    assert IsChain(ts, e) && e[0] == d;
  }

  /** A ticket that is open after one more round waits for one that is open now. */
  lemma OpenWaits(ts: Tickets, archived: set<Id>, n: nat, id: Id) returns (d: Id)
    requires Sane(ts, archived) && IsOpen(Rounds(ts, archived, n + 1), id)
    ensures IsOpen(ts, id) && d in ts[id].dependsOn && IsOpen(Rounds(ts, archived, n), d)
  {
    var us := Rounds(ts, archived, n);
    RoundsKeep(ts, archived, n + 1, id);
    RoundsKeep(ts, archived, n, id);
    RoundSkips(us, archived, id);
    d :| d in us[id].dependsOn && d !in archived && !(d in us && us[d].status.Landed?);
    RoundsKeep(ts, archived, n, d);
  }

  lemma {:induction false} OpenHeadsChain(ts: Tickets, archived: set<Id>, n: nat, id: Id)
    requires Sane(ts, archived) && IsOpen(Rounds(ts, archived, n), id)
    ensures HeadsChain(ts, id, n + 1)
  {
    if n == 0 {
      assert IsChain(ts, [id]);
    } else {
      var d := OpenWaits(ts, archived, n - 1, id);
      OpenHeadsChain(ts, archived, n - 1, d);
      ChainCons(ts, id, d, n);
    }
  }

  lemma {:induction false} ChainStaysOpen(ts: Tickets, archived: set<Id>, n: nat, id: Id)
    requires Sane(ts, archived) && HeadsChain(ts, id, n + 1)
    ensures IsOpen(Rounds(ts, archived, n), id)
  {
    if n > 0 {
      var us := Rounds(ts, archived, n - 1);
      RoundsKeep(ts, archived, n - 1, id);
      var d := ChainTail(ts, id, n + 1);
      ChainStaysOpen(ts, archived, n - 1, d);
      ShorterChain(ts, id, n + 1);
      ChainStaysOpen(ts, archived, n - 1, id);
      RoundSkips(us, archived, id);
    }
  }

  /** A ticket is still open after n rounds exactly when it heads a dependency chain of n + 1
      open tickets. */
  lemma OpenAfterExactly(ts: Tickets, archived: set<Id>, n: nat, id: Id)
    requires Sane(ts, archived)
    ensures IsOpen(Rounds(ts, archived, n), id) <==> HeadsChain(ts, id, n + 1)
  {
    if IsOpen(Rounds(ts, archived, n), id) { OpenHeadsChain(ts, archived, n, id); }
    if HeadsChain(ts, id, n + 1) { ChainStaysOpen(ts, archived, n, id); }
  }

  lemma ShorterChain(ts: Tickets, id: Id, n: nat)
    requires HeadsChain(ts, id, n) && n >= 2
    ensures HeadsChain(ts, id, n - 1)
  {
    var c :| IsChain(ts, c) && |c| == n && c[0] == id;
    assert IsChain(ts, c[..n - 1]) && c[..n - 1][0] == id;
  }

  // ------------------------------------------------------------ chains and cycles

  lemma {:induction false} DistinctFits(c: seq<Id>, s: set<Id>)
    requires forall i :: 0 <= i < |c| ==> c[i] in s
    requires forall i, j :: 0 <= i < j < |c| ==> c[i] != c[j]
    ensures |c| <= |s|
    decreases |c|
  {
    if c != [] {
      DistinctFits(c[1..], s - {c[0]});
    }
  }

  lemma AcyclicChainFits(ts: Tickets, c: seq<Id>)
    requires Acyclic(ts) && IsChain(ts, c)
    ensures |c| <= |OpenIds(ts)|
  {
    forall i, j | 0 <= i < j < |c| ensures c[i] != c[j] {
      var e := c[i..j + 1];
      assert forall k :: 0 <= k < |e| ==> e[k] == c[i + k];
      assert IsChain(ts, e);
      assert e[0] == c[i] && e[|e| - 1] == c[j];
    }
    DistinctFits(c, OpenIds(ts));
  }

  /** On a cycle one can walk for as long as one likes. */
  lemma {:induction false} CycleGoesOn(ts: Tickets, c: seq<Id>, n: nat)
    requires IsChain(ts, c) && |c| >= 2 && c[0] == c[|c| - 1]
    ensures forall i :: 0 <= i < |c| ==> HeadsChain(ts, c[i], n + 1)
  {
    forall i | 0 <= i < |c| ensures HeadsChain(ts, c[i], n + 1) {
      if n == 0 {
        assert IsChain(ts, [c[i]]);
      } else {
        CycleGoesOn(ts, c, n - 1);
        var k := if i == |c| - 1 then 0 else i;
        ChainCons(ts, c[k], c[k + 1], n);
      }
    }
  }

  // ------------------------------------------------------------ progress

  /** Rounds that land everything they take empty the queue after as many rounds as the longest
      chain has tickets. */
  lemma QueueEmpties(ts: Tickets, archived: set<Id>, longest: nat)
    requires Sane(ts, archived) && forall c :: IsChain(ts, c) ==> |c| <= longest
    ensures OpenIds(Rounds(ts, archived, longest)) == {}
  {
    forall id ensures !IsOpen(Rounds(ts, archived, longest), id) {
      OpenAfterExactly(ts, archived, longest, id);
    }
    assert forall id :: id in OpenIds(Rounds(ts, archived, longest)) ==> IsOpen(Rounds(ts, archived, longest), id);
  }

  /** ... and no sooner. */
  lemma QueueNeedsLongestChain(ts: Tickets, archived: set<Id>, c: seq<Id>, n: nat)
    requires Sane(ts, archived) && IsChain(ts, c) && n < |c|
    ensures OpenIds(Rounds(ts, archived, n)) != {}
  {
    assert IsChain(ts, c[..n + 1]) && c[..n + 1][0] == c[0];
    OpenAfterExactly(ts, archived, n, c[0]);
    assert c[0] in OpenIds(Rounds(ts, archived, n));
  }

  /** The queue can be worked off exactly when no ticket depends on itself, directly or not. */
  lemma QueueEmptiesExactly(ts: Tickets, archived: set<Id>)
    requires Sane(ts, archived)
    ensures (exists n: nat :: OpenIds(Rounds(ts, archived, n)) == {}) <==> Acyclic(ts)
  {
    if Acyclic(ts) {
      forall c | IsChain(ts, c) ensures |c| <= |OpenIds(ts)| { AcyclicChainFits(ts, c); }
      QueueEmpties(ts, archived, |OpenIds(ts)|);
    } else {
      var c :| IsChain(ts, c) && |c| >= 2 && c[0] == c[|c| - 1];
      forall n: nat ensures OpenIds(Rounds(ts, archived, n)) != {} {
        CycleGoesOn(ts, c, n);
        OpenAfterExactly(ts, archived, n, c[0]);
        assert c[0] in OpenIds(Rounds(ts, archived, n));
      }
    }
  }

  /** As long as anything is open and nothing is circular, something can be run. */
  lemma SomethingIsReady(ts: Tickets, archived: set<Id>)
    requires Sane(ts, archived) && Acyclic(ts) && OpenIds(ts) != {}
    ensures exists id :: Ready(ts, archived, id)
  {
    if forall id :: !Ready(ts, archived, id) {
      assert Round(ts, archived) == ts;
      QueueEmptiesExactly(ts, archived);
      var n: nat :| OpenIds(Rounds(ts, archived, n)) == {};
      Stuck(ts, archived, n);
    }
  }

  lemma {:induction false} Stuck(ts: Tickets, archived: set<Id>, n: nat)
    requires Round(ts, archived) == ts
    ensures Rounds(ts, archived, n) == ts
  {
    if n > 0 { Stuck(ts, archived, n - 1); }
  }
}
