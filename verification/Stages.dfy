/** The ordered stages of a baseline (portal/db/src/baselines-repository.ts). */
module Stages {
  import opened Wrappers
  import Sorting
  import opened Sequences

  /** A condition; no key stands for one that is not a string. */
  datatype Condition = Condition(key: Option<string>, rest: string)

  datatype Stage = Stage(order: real, action: string, conditions: seq<Condition>)

  datatype Error = NotFound | BadOrder(position: nat) | BadAction | BadCondition

  const ACTIONS: seq<string> := ["report", "remediate"]

  predicate ByOrder(a: Stage, b: Stage) {
    a.order <= b.order
  }

  predicate GoodCondition(c: Condition) {
    c.key.Some? && c.key.value != ""
  }

  predicate GoodConditions(cs: seq<Condition>) {
    forall i :: 0 <= i < |cs| ==> GoodCondition(cs[i])
  }

  /** The first complaint about the stages from position `i` on. */
  function Complaint(sorted: seq<Stage>, i: nat): Option<Error>
    requires i <= |sorted|
    decreases |sorted| - i
  {
    if i == |sorted| then None
    else if sorted[i].order != i as real then Some(BadOrder(i))
    else if sorted[i].action !in ACTIONS then Some(BadAction)
    else if !GoodConditions(sorted[i].conditions) then Some(BadCondition)
    else Complaint(sorted, i + 1)
  }

  function Normalize(stages: seq<Stage>): Result<seq<Stage>, Error> {
    var sorted := Sorting.Sort(stages, ByOrder);
    match Complaint(sorted, 0)
    case Some(e) => Err(e)
    case None => Ok(sorted)
  }

  method NormalizeStageInputs(stages: seq<Stage>) returns (r: Result<seq<Stage>, Error>)
    ensures r == Normalize(stages)
  {
    var sorted := Sorting.Sort(stages, ByOrder);
    var index := 0;
    while index < |sorted|
      invariant 0 <= index <= |sorted|
      invariant Complaint(sorted, index) == Complaint(sorted, 0)
    {
      var stage := sorted[index];
      if stage.order != index as real { return Err(BadOrder(index)); }
      if stage.action !in ACTIONS { return Err(BadAction); }
      for k := 0 to |stage.conditions|
        invariant forall j :: 0 <= j < k ==> GoodCondition(stage.conditions[j])
      {
        if !GoodCondition(stage.conditions[k]) { return Err(BadCondition); }
      }
      index := index + 1;
    }
    r := Ok(sorted);
  }

  // ------------------------------------------------------------ sorting and checking is "a permutation of 0..n-1"

  function Orders(stages: seq<Stage>): seq<real> {
    if stages == [] then [] else Orders(stages[..|stages| - 1]) + [stages[|stages| - 1].order]
  }

  function Upto(n: nat): seq<real> {
    if n == 0 then [] else Upto(n - 1) + [(n - 1) as real]
  }

  ghost predicate Permutes(stages: seq<Stage>) {
    multiset(Orders(stages)) == multiset(Upto(|stages|))
  }

  predicate Valid(s: Stage) {
    s.action in ACTIONS && GoodConditions(s.conditions)
  }

  lemma {:induction false} OrdersAt(stages: seq<Stage>)
    ensures |Orders(stages)| == |stages| && forall i :: 0 <= i < |stages| ==> Orders(stages)[i] == stages[i].order
    decreases |stages|
  {
    if stages != [] { OrdersAt(stages[..|stages| - 1]); }
  }

  lemma {:induction false} UptoAt(n: nat)
    ensures |Upto(n)| == n && forall i :: 0 <= i < n ==> Upto(n)[i] == i as real
  {
    if n > 0 { UptoAt(n - 1); }
  }

  lemma {:induction false} OrdersAppend(a: seq<Stage>, b: seq<Stage>)
    ensures Orders(a + b) == Orders(a) + Orders(b)
    decreases |b|
  {
    if b == [] {
      assert a + b == a;
    } else {
      var n := |b| - 1;
      OrdersAppend(a, b[..n]);
      assert (a + b)[..|a + b| - 1] == a + b[..n];
    }
  }

  function Rest(b: seq<Stage>, k: nat): (r: seq<Stage>)
    requires k < |b|
    ensures |r| == |b| - 1
  {
    b[..k] + b[k + 1..]
  }

  lemma OrdersCons(x: Stage, tail: seq<Stage>)
    ensures Orders([x] + tail) == [x.order] + Orders(tail)
  {
    OrdersAppend([x], tail);
    assert [x][..0] == [];
  }

  lemma OrdersSplit(b: seq<Stage>, k: nat)
    requires k < |b|
    ensures b == b[..k] + ([b[k]] + b[k + 1..])
    ensures Orders(b) == Orders(b[..k]) + ([b[k].order] + Orders(b[k + 1..]))
  {
    SplitAt(b, k);
    OrdersCons(b[k], b[k + 1..]);
    OrdersAppend(b[..k], [b[k]] + b[k + 1..]);
  }

  lemma TakeOut(b: seq<Stage>, k: nat)
    requires k < |b|
    ensures multiset(b) == multiset(Rest(b, k)) + multiset{b[k]}
    ensures multiset(Orders(b)) == multiset(Orders(Rest(b, k))) + multiset{b[k].order}
  {
    OrdersSplit(b, k);
    OrdersAppend(b[..k], b[k + 1..]);
    MoveOut(b[..k], b[k], b[k + 1..]);
    MoveOut(Orders(b[..k]), b[k].order, Orders(b[k + 1..]));
  }

  lemma Cancel<T>(m: multiset<T>, n: multiset<T>, x: T)
    requires m + multiset{x} == n + multiset{x}
    ensures m == n
  {
    assert m == (m + multiset{x}) - multiset{x};
    assert n == (n + multiset{x}) - multiset{x};
  }

  lemma InOther(a: seq<Stage>, b: seq<Stage>) returns (k: nat)
    requires multiset(a) == multiset(b) && a != []
    ensures k < |b| && b[k] == a[0]
  {
    assert a[0] in multiset(a);
    assert a[0] in b;
    k :| 0 <= k < |b| && b[k] == a[0];
  }

  lemma SameRest(a: seq<Stage>, i: nat, b: seq<Stage>, k: nat)
    requires i < |a| && k < |b| && a[i] == b[k] && multiset(a) == multiset(b)
    ensures multiset(Rest(a, i)) == multiset(Rest(b, k))
  {
    TakeOut(a, i);
    TakeOut(b, k);
    Cancel(multiset(Rest(a, i)), multiset(Rest(b, k)), a[i]);
  }

  /** Equal contents have equal orders. */
  lemma {:induction false} OrdersContents(a: seq<Stage>, b: seq<Stage>)
    requires multiset(a) == multiset(b)
    ensures multiset(Orders(a)) == multiset(Orders(b))
    decreases |a|
  {
    Sorting.SameLength(a, b);
    if a != [] {
      var k := InOther(a, b);
      SameRest(a, 0, b, k);
      OrdersContents(Rest(a, 0), Rest(b, k));
      TakeOut(a, 0);
      TakeOut(b, k);
    }
  }

  ghost predicate Ascending(s: seq<real>) {
    forall i, j :: 0 <= i < j < |s| ==> s[i] <= s[j]
  }

  lemma LastIsGreatest(a: seq<real>, b: seq<real>)
    requires Ascending(a) && Ascending(b) && multiset(a) == multiset(b) && a != [] && b != []
    ensures a[|a| - 1] >= b[|b| - 1]
  {
    assert b[|b| - 1] in multiset(b);
    assert b[|b| - 1] in a;
  }

  lemma DropLast(a: seq<real>, b: seq<real>)
    requires multiset(a) == multiset(b) && a != [] && b != [] && a[|a| - 1] == b[|b| - 1]
    ensures multiset(a[..|a| - 1]) == multiset(b[..|b| - 1])
  {
    Snoc(a);
    Snoc(b);
    Cancel(multiset(a[..|a| - 1]), multiset(b[..|b| - 1]), a[|a| - 1]);
  }

  /** Contents and order determine a sequence of numbers. */
  lemma {:induction false} AscendingUnique(a: seq<real>, b: seq<real>)
    requires Ascending(a) && Ascending(b) && multiset(a) == multiset(b)
    ensures a == b
    decreases |a|
  {
    Sorting.SameLength(a, b);
    if a != [] {
      LastIsGreatest(a, b);
      LastIsGreatest(b, a);
      DropLast(a, b);
      AscendingUnique(a[..|a| - 1], b[..|b| - 1]);
      Snoc(a);
      Snoc(b);
    }
  }

  lemma {:induction false} NoComplaint(sorted: seq<Stage>, i: nat)
    requires i <= |sorted|
    ensures Complaint(sorted, i) == None <==>
      forall k :: i <= k < |sorted| ==> sorted[k].order == k as real && Valid(sorted[k])
    decreases |sorted| - i
  {
    if i < |sorted| { NoComplaint(sorted, i + 1); }
  }

  lemma SortedOrders(stages: seq<Stage>)
    ensures var sorted := Sorting.Sort(stages, ByOrder);
      && multiset(sorted) == multiset(stages) && |sorted| == |stages|
      && Ascending(Orders(sorted)) && multiset(Orders(sorted)) == multiset(Orders(stages))
  {
    var sorted := Sorting.Sort(stages, ByOrder);
    Sorting.SortContents(stages, ByOrder);
    Sorting.SameLength(sorted, stages);
    assert Sorting.TotalPreorder(ByOrder);
    Sorting.SortSorted(stages, ByOrder);
    OrdersAt(sorted);
    OrdersContents(sorted, stages);
  }

  lemma SameValid(a: seq<Stage>, b: seq<Stage>)
    requires multiset(a) == multiset(b)
    ensures (forall s :: s in a ==> Valid(s)) <==> forall k :: 0 <= k < |b| ==> Valid(b[k])
  {
    assert forall s :: s in a <==> s in multiset(a);
    assert forall s :: s in b <==> s in multiset(b);
    assert forall k :: 0 <= k < |b| ==> b[k] in b;
  }

  lemma InPlaceExactly(stages: seq<Stage>)
    ensures var sorted := Sorting.Sort(stages, ByOrder);
      Permutes(stages) <==> forall k :: 0 <= k < |sorted| ==> sorted[k].order == k as real
  {
    var sorted := Sorting.Sort(stages, ByOrder);
    SortedOrders(stages);
    OrdersAt(sorted);
    UptoAt(|stages|);
    if Permutes(stages) { AscendingUnique(Orders(sorted), Upto(|stages|)); }
    if forall k :: 0 <= k < |sorted| ==> sorted[k].order == k as real { assert Orders(sorted) == Upto(|stages|); }
  }

  /** Sorting and checking accepts exactly the stages whose orders are a permutation of 0..n-1,
      with known actions and non-empty keys. */
  lemma AcceptsExactly(stages: seq<Stage>)
    ensures Normalize(stages).Ok? <==> Permutes(stages) && forall s :: s in stages ==> Valid(s)
  {
    var sorted := Sorting.Sort(stages, ByOrder);
    Sorting.SortContents(stages, ByOrder);
    NoComplaint(sorted, 0);
    InPlaceExactly(stages);
    SameValid(stages, sorted);
  }

  /** What is accepted is the same stages with stage `i` at position `i`. */
  lemma AcceptedInPlace(stages: seq<Stage>)
    requires Normalize(stages).Ok?
    ensures var r := Normalize(stages).value;
      && multiset(r) == multiset(stages)
      && forall i :: 0 <= i < |r| ==> r[i].order == i as real
  {
    SortedOrders(stages);
    NoComplaint(Sorting.Sort(stages, ByOrder), 0);
  }

  // ------------------------------------------------------------ storing and reading back

  datatype Row = Row(baseline: string, stage: Stage)

  function Of(rows: seq<Row>, baseline: string): seq<Stage> {
    if rows == [] then []
    else
      var n := |rows| - 1;
      Of(rows[..n], baseline) + if rows[n].baseline == baseline then [rows[n].stage] else []
  }

  function Without(rows: seq<Row>, baseline: string): seq<Row> {
    if rows == [] then []
    else
      var n := |rows| - 1;
      Without(rows[..n], baseline) + if rows[n].baseline == baseline then [] else [rows[n]]
  }

  function Filed(stages: seq<Stage>, baseline: string): seq<Row> {
    seq(|stages|, i requires 0 <= i < |stages| => Row(baseline, stages[i]))
  }

  /** What `ORDER BY stageOrder` may return. */
  ghost predicate Lists(rows: seq<Row>, baseline: string, listed: seq<Stage>) {
    multiset(listed) == multiset(Of(rows, baseline)) && Ascending(Orders(listed))
  }

  class Repository {
    var baselines: set<string>
    var rows: seq<Row>

    constructor (known: set<string>)
      ensures baselines == known && rows == []
    {
      baselines, rows := known, [];
    }

    method SetStages(baseline: string, stages: seq<Stage>) returns (r: Result<seq<Stage>, Error>)
      modifies this`rows
      ensures r == if baseline in baselines then Normalize(stages) else Err(NotFound)
      ensures rows == if r.Ok? then Without(old(rows), baseline) + Filed(r.value, baseline) else old(rows)
    {
      if baseline !in baselines { return Err(NotFound); }
      r := NormalizeStageInputs(stages);
      if r.Err? { return; }
      rows := Without(rows, baseline);
      ghost var kept := rows;
      for i := 0 to |r.value|
        invariant rows == kept + Filed(r.value, baseline)[..i]
      {
        rows := rows + [Row(baseline, r.value[i])];
      }
      assert Filed(r.value, baseline)[..|r.value|] == Filed(r.value, baseline);
    }
  }

  lemma {:induction false} OfAppend(a: seq<Row>, b: seq<Row>, baseline: string)
    ensures Of(a + b, baseline) == Of(a, baseline) + Of(b, baseline)
    decreases |b|
  {
    if b == [] {
      assert a + b == a;
    } else {
      var n := |b| - 1;
      OfAppend(a, b[..n], baseline);
      assert (a + b)[..|a + b| - 1] == a + b[..n];
    }
  }

  lemma {:induction false} OfWithout(rows: seq<Row>, baseline: string, other: string)
    ensures Of(Without(rows, baseline), other) == if other == baseline then [] else Of(rows, other)
    decreases |rows|
  {
    if rows != [] {
      var n := |rows| - 1;
      OfWithout(rows[..n], baseline, other);
      var tail := if rows[n].baseline == baseline then [] else [rows[n]];
      OfAppend(Without(rows[..n], baseline), tail, other);
      assert tail != [] ==> tail[..0] == [];
    }
  }

  lemma {:induction false} OfFiled(stages: seq<Stage>, baseline: string, other: string)
    ensures Of(Filed(stages, baseline), other) == if other == baseline then stages else []
    decreases |stages|
  {
    if stages != [] {
      var n := |stages| - 1;
      OfFiled(stages[..n], baseline, other);
      assert Filed(stages, baseline)[..n] == Filed(stages[..n], baseline);
    }
  }

  ghost predicate DifferentOrders(a: seq<Stage>) {
    forall i, j :: 0 <= i < j < |a| ==> a[i].order != a[j].order
  }

  /** Stages with different orders have only one sorted listing. */
  lemma ListedUnique(a: seq<Stage>, b: seq<Stage>)
    requires multiset(a) == multiset(b) && Orders(a) == Orders(b) && DifferentOrders(a)
    ensures a == b
  {
    OrdersAt(a);
    OrdersAt(b);
    forall i | 0 <= i < |a| ensures a[i] == b[i] {
      assert Orders(b)[i] == Orders(a)[i];
      assert b[i] in multiset(b);
      assert b[i] in a;
      var j :| 0 <= j < |a| && a[j] == b[i];
    }
  }

  /** Reading back after a write gives the stages in order, whatever the database does with ties,
      and the stages of every other baseline are what they were. */
  lemma ReadBack(rows: seq<Row>, baseline: string, stages: seq<Stage>, listed: seq<Stage>, other: string)
    requires Normalize(stages).Ok?
    requires Lists(Without(rows, baseline) + Filed(Normalize(stages).value, baseline), baseline, listed)
    ensures listed == Normalize(stages).value
    ensures other != baseline ==>
      Of(Without(rows, baseline) + Filed(Normalize(stages).value, baseline), other) == Of(rows, other)
  {
    var r := Normalize(stages).value;
    AcceptedInPlace(stages);
    forall b: string
      ensures Of(Without(rows, baseline) + Filed(r, baseline), b) == if b == baseline then r else Of(rows, b)
    {
      OfAppend(Without(rows, baseline), Filed(r, baseline), b);
      OfWithout(rows, baseline, b);
      OfFiled(r, baseline, b);
    }
    OrdersAt(r);
    OrdersContents(listed, r);
    AscendingUnique(Orders(listed), Orders(r));
    assert DifferentOrders(r);
    ListedUnique(r, listed);
  }
}
