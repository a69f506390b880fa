/** The drift deviation store (portal/db/src/drift-repository.ts): rescans refresh what was
    observed, operators settle what it means. */
module Drift {
  import opened Wrappers

  datatype State = Open | Accepted | CustomerSpecific | Denied | DeletePending | Resolved

  predicate Settles(s: State) {
    s.Accepted? || s.CustomerSpecific? || s.Denied? || s.DeletePending?
  }

  datatype Key = Key(tenant: string, standard: string, resource: string)

  datatype Observed = Observed(kind: string, current: Option<string>, expected: Option<string>, lastSeenAt: string)

  datatype Triage = Triage(
    state: State, reason: Option<string>, expiresOn: Option<string>, autoRemediate: bool, override: Option<string>)

  const UNTRIAGED: Triage := Triage(Open, None, None, false, None)

  datatype Row = Row(id: string, key: Key, seen: Observed, triage: Triage)

  /** A reported deviation, with the id its row gets if it is new. */
  datatype Item = Item(standard: string, resource: Option<string>, seen: Observed, freshId: string)

  function KeyOf(tenant: string, item: Item): Key {
    Key(tenant, item.standard, item.resource.GetOr(""))
  }

  function Find(rows: seq<Row>, key: Key): (i: nat)
    ensures i <= |rows| && (i < |rows| ==> rows[i].key == key) && forall j :: 0 <= j < i ==> rows[j].key != key
  {
    if rows == [] || rows[0].key == key then 0 else 1 + Find(rows[1..], key)
  }

  function Get(rows: seq<Row>, key: Key): Option<Row> {
    var i := Find(rows, key);
    if i < |rows| then Some(rows[i]) else None
  }

  /** What a report does to the triage of a row it finds. */
  function Retriaged(t: Triage): Triage {
    if Settles(t.state) then t else UNTRIAGED
  }

  function UpsertOne(rows: seq<Row>, tenant: string, item: Item): seq<Row> {
    var key := KeyOf(tenant, item);
    var i := Find(rows, key);
    if i == |rows| then rows + [Row(item.freshId, key, item.seen, UNTRIAGED)]
    else rows[i := rows[i].(seen := item.seen, triage := Retriaged(rows[i].triage))]
  }

  function UpsertAll(rows: seq<Row>, tenant: string, items: seq<Item>): seq<Row> {
    if items == [] then rows else UpsertOne(UpsertAll(rows, tenant, items[..|items| - 1]), tenant, items[|items| - 1])
  }

  function SetTriage(rows: seq<Row>, key: Key, t: Triage): seq<Row> {
    var i := Find(rows, key);
    if i == |rows| then rows else rows[i := rows[i].(triage := t)]
  }

  datatype Counts = Counts(inserted: nat, updated: nat, preserved: nat)

  function Tally(rows: seq<Row>, tenant: string, items: seq<Item>): Counts {
    if items == [] then Counts(0, 0, 0)
    else
      var n := |items| - 1;
      var c := Tally(rows, tenant, items[..n]);
      match Get(UpsertAll(rows, tenant, items[..n]), KeyOf(tenant, items[n]))
      case None => c.(inserted := c.inserted + 1)
      case Some(r) =>
        if Settles(r.triage.state) then c.(preserved := c.preserved + 1) else c.(updated := c.updated + 1)
  }

  // ------------------------------------------------------------ the repository

  class Repository {
    var rows: seq<Row>

    constructor ()
      ensures rows == []
    {
      rows := [];
    }

    method UpsertDeviations(tenant: string, deviations: seq<Item>) returns (r: Counts)
      modifies this
      ensures rows == UpsertAll(old(rows), tenant, deviations)
      ensures r == Tally(old(rows), tenant, deviations)
    {
      var inserted, updated, preserved := 0, 0, 0;
      for n := 0 to |deviations|
        invariant rows == UpsertAll(old(rows), tenant, deviations[..n])
        invariant Counts(inserted, updated, preserved) == Tally(old(rows), tenant, deviations[..n])
      {
        var item := deviations[n];
        assert deviations[..n + 1][..n] == deviations[..n];
        var key := KeyOf(tenant, item);
        var i := Find(rows, key);
        if i == |rows| {
          rows := rows + [Row(item.freshId, key, item.seen, UNTRIAGED)];
          inserted := inserted + 1;
        } else if Settles(rows[i].triage.state) {
          rows := rows[i := rows[i].(seen := item.seen)];
          preserved := preserved + 1;
        } else {
          rows := rows[i := rows[i].(seen := item.seen, triage := UNTRIAGED)];
          updated := updated + 1;
        }
      }
      assert deviations[..|deviations|] == deviations;
      r := Counts(inserted, updated, preserved);
    }

    method SetDeviationTriage(key: Key, patch: Triage) returns (r: Option<Row>)
      modifies this
      ensures rows == SetTriage(old(rows), key, patch)
      ensures r == Get(rows, key)
    {
      var i := Find(rows, key);
      if i == |rows| { return None; }
      rows := rows[i := rows[i].(triage := patch)];
      SetTriageGet(old(rows), key, patch, key);
      i := Find(rows, key);
      r := Some(rows[i]);
    }
  }

  // ------------------------------------------------------------ one key at a time

  lemma FindUnchanged(rows: seq<Row>, i: nat, r: Row, key: Key)
    requires i < |rows| && r.key == rows[i].key
    ensures Find(rows[i := r], key) == Find(rows, key)
  {
    var after := rows[i := r];
    assert forall j :: 0 <= j < |rows| ==> after[j].key == rows[j].key;
  }

  lemma FindAppended(rows: seq<Row>, r: Row, key: Key)
    ensures Find(rows + [r], key)
      == if Find(rows, key) < |rows| then Find(rows, key) else if r.key == key then |rows| else |rows| + 1
  {
    var after := rows + [r];
    var a, b := Find(after, key), Find(rows, key);
    assert forall j :: 0 <= j < |rows| ==> after[j] == rows[j];
    assert after[|rows|] == r;
  }

  lemma UpsertGet(rows: seq<Row>, tenant: string, item: Item, key: Key)
    ensures var was, now := Get(rows, key), Get(UpsertOne(rows, tenant, item), key);
      now == if KeyOf(tenant, item) != key then was
             else match was
               case None => Some(Row(item.freshId, key, item.seen, UNTRIAGED))
               case Some(r) => Some(r.(seen := item.seen, triage := Retriaged(r.triage)))
  {
    var k := KeyOf(tenant, item);
    var i := Find(rows, k);
    if i == |rows| {
      FindAppended(rows, Row(item.freshId, k, item.seen, UNTRIAGED), key);
    } else {
      FindUnchanged(rows, i, rows[i].(seen := item.seen, triage := Retriaged(rows[i].triage)), key);
    }
  }

  lemma SetTriageGet(rows: seq<Row>, k: Key, t: Triage, key: Key)
    ensures var was, now := Get(rows, key), Get(SetTriage(rows, k, t), key);
      now == if k != key then was else match was case None => None case Some(r) => Some(r.(triage := t))
  {
    var i := Find(rows, k);
    if i < |rows| { FindUnchanged(rows, i, rows[i].(triage := t), key); }
  }

  // ------------------------------------------------------------ histories

  datatype Step = Scan(tenant: string, items: seq<Item>) | Write(key: Key, triage: Triage)

  function Do(rows: seq<Row>, s: Step): seq<Row> {
    match s
    case Scan(tenant, items) => UpsertAll(rows, tenant, items)
    case Write(key, t) => SetTriage(rows, key, t)
  }

  function Run(rows: seq<Row>, steps: seq<Step>): seq<Row> {
    if steps == [] then rows else Do(Run(rows, steps[..|steps| - 1]), steps[|steps| - 1])
  }

  /** The last report of a key in a batch. */
  function LastReport(tenant: string, items: seq<Item>, key: Key): Option<Item> {
    if items == [] then None
    else if KeyOf(tenant, items[|items| - 1]) == key then Some(items[|items| - 1])
    else LastReport(tenant, items[..|items| - 1], key)
  }

  function FirstReport(tenant: string, items: seq<Item>, key: Key): Option<Item> {
    if items == [] then None
    else match FirstReport(tenant, items[..|items| - 1], key)
      case Some(x) => Some(x)
      case None => if KeyOf(tenant, items[|items| - 1]) == key then Some(items[|items| - 1]) else None
  }

  /** What a whole batch does to one row: the last report is what was observed, and the triage is
      kept if settled and cleared otherwise, however often the key was reported. */
  lemma {:induction false} BatchGet(rows: seq<Row>, tenant: string, items: seq<Item>, key: Key)
    ensures LastReport(tenant, items, key).Some? <==> FirstReport(tenant, items, key).Some?
    ensures var was, now := Get(rows, key), Get(UpsertAll(rows, tenant, items), key);
      now == match LastReport(tenant, items, key)
        case None => was
        case Some(last) =>
          (match was
           case None => Some(Row(FirstReport(tenant, items, key).value.freshId, key, last.seen, UNTRIAGED))
           case Some(r) => Some(r.(seen := last.seen, triage := Retriaged(r.triage))))
    decreases |items|
  {
    if items != [] {
      var n := |items| - 1;
      BatchGet(rows, tenant, items[..n], key);
      UpsertGet(UpsertAll(rows, tenant, items[..n]), tenant, items[n], key);
    }
  }

  /** The last report of a key over a history. */
  function LastSeen(steps: seq<Step>, key: Key): Option<Observed> {
    if steps == [] then None
    else match steps[|steps| - 1]
      case Scan(tenant, items) =>
        (match LastReport(tenant, items, key)
         case Some(item) => Some(item.seen)
         case None => LastSeen(steps[..|steps| - 1], key))
      case Write(_, _) => LastSeen(steps[..|steps| - 1], key)
  }

  predicate Untouched(steps: seq<Step>, key: Key) {
    forall i :: 0 <= i < |steps| && steps[i].Write? ==> steps[i].key != key
  }

  /** A settled row keeps its triage through any history in which nobody writes it, while what was
      observed is always what was last reported; its id never changes. */
  lemma {:induction false} SettledSurvives(rows: seq<Row>, steps: seq<Step>, key: Key)
    requires Get(rows, key).Some? && Settles(Get(rows, key).value.triage.state) && Untouched(steps, key)
    ensures var was := Get(rows, key).value;
      Get(Run(rows, steps), key) == Some(was.(seen := LastSeen(steps, key).GetOr(was.seen)))
    decreases |steps|
  {
    if steps != [] {
      var n := |steps| - 1;
      assert forall i :: 0 <= i < n ==> steps[..n][i] == steps[i];
      SettledSurvives(rows, steps[..n], key);
      match steps[n]
      case Scan(tenant, items) => BatchGet(Run(rows, steps[..n]), tenant, items, key);
      case Write(k, t) => SetTriageGet(Run(rows, steps[..n]), k, t, key);
    }
  }

  /** A rescan that reports a row leaves its triage alone exactly when it is settled or there is
      none: notes on an open or resolved row are cleared. */
  lemma RescanKeepsTriageExactly(rows: seq<Row>, tenant: string, items: seq<Item>, key: Key)
    requires Get(rows, key).Some? && LastReport(tenant, items, key).Some?
    ensures var was, now := Get(rows, key).value, Get(UpsertAll(rows, tenant, items), key);
      now.Some? && (now.value.triage == was.triage <==> Settles(was.triage.state) || was.triage == UNTRIAGED)
  {
    BatchGet(rows, tenant, items, key);
  }

  /** Over any history: rows are never lost, ids are stable, and a row observed what it last reported. */
  lemma {:induction false} RowsPersist(rows: seq<Row>, steps: seq<Step>, key: Key)
    requires Get(rows, key).Some?
    ensures var was, now := Get(rows, key).value, Get(Run(rows, steps), key);
      now.Some? && now.value.id == was.id && now.value.seen == LastSeen(steps, key).GetOr(was.seen)
    decreases |steps|
  {
    if steps != [] {
      var n := |steps| - 1;
      RowsPersist(rows, steps[..n], key);
      match steps[n]
      case Scan(tenant, items) => BatchGet(Run(rows, steps[..n]), tenant, items, key);
      case Write(k, t) => SetTriageGet(Run(rows, steps[..n]), k, t, key);
    }
  }

  // ------------------------------------------------------------ uniqueness, tenants, counters

  ghost predicate UniqueKeys(rows: seq<Row>) {
    forall i, j :: 0 <= i < j < |rows| ==> rows[i].key != rows[j].key
  }

  lemma {:induction false} BatchUnique(rows: seq<Row>, tenant: string, items: seq<Item>)
    requires UniqueKeys(rows)
    ensures UniqueKeys(UpsertAll(rows, tenant, items))
    decreases |items|
  {
    if items != [] { BatchUnique(rows, tenant, items[..|items| - 1]); }
  }

  lemma {:induction false} KeysStayUnique(rows: seq<Row>, steps: seq<Step>)
    requires UniqueKeys(rows)
    ensures UniqueKeys(Run(rows, steps))
    decreases |steps|
  {
    if steps != [] {
      var n := |steps| - 1;
      KeysStayUnique(rows, steps[..n]);
      match steps[n]
      case Scan(tenant, items) => BatchUnique(Run(rows, steps[..n]), tenant, items);
      case Write(_, _) =>
    }
  }

  ghost predicate UniqueIds(rows: seq<Row>) {
    forall i, j :: 0 <= i < j < |rows| ==> rows[i].id != rows[j].id
  }

  ghost predicate FreshIds(rows: seq<Row>, items: seq<Item>) {
    && (forall i, j :: 0 <= i < j < |items| ==> items[i].freshId != items[j].freshId)
    && forall i, j :: 0 <= i < |items| && 0 <= j < |rows| ==> items[i].freshId != rows[j].id
  }

  lemma OneIdUnique(rows: seq<Row>, tenant: string, item: Item, more: seq<Item>)
    requires UniqueIds(rows) && FreshIds(rows, [item] + more)
    ensures UniqueIds(UpsertOne(rows, tenant, item)) && FreshIds(UpsertOne(rows, tenant, item), more)
  {
    var all, now := [item] + more, UpsertOne(rows, tenant, item);
    assert all[0] == item && forall i :: 0 <= i < |more| ==> more[i] == all[i + 1];
    assert forall j :: 0 <= j < |rows| ==> now[j].id == rows[j].id;
  }

  /** Row ids stay unique as long as generated ids are new. */
  lemma {:induction false} BatchIdsUnique(rows: seq<Row>, tenant: string, items: seq<Item>, more: seq<Item>)
    requires UniqueIds(rows) && FreshIds(rows, items + more)
    ensures UniqueIds(UpsertAll(rows, tenant, items)) && FreshIds(UpsertAll(rows, tenant, items), more)
    decreases |items|
  {
    if items == [] {
      assert items + more == more;
    } else {
      var n := |items| - 1;
      assert items[..n] + ([items[n]] + more) == items + more;
      BatchIdsUnique(rows, tenant, items[..n], [items[n]] + more);
      OneIdUnique(UpsertAll(rows, tenant, items[..n]), tenant, items[n], more);
    }
  }

  /** A scan of one tenant leaves every row of the others as it is, where it is. */
  lemma {:induction false} OtherTenantsUntouched(rows: seq<Row>, tenant: string, items: seq<Item>)
    ensures var now := UpsertAll(rows, tenant, items);
      && |rows| <= |now|
      && (forall i :: 0 <= i < |rows| ==>
            now[i].key == rows[i].key && (rows[i].key.tenant != tenant ==> now[i] == rows[i]))
      && (forall i :: |rows| <= i < |now| ==> now[i].key.tenant == tenant)
    decreases |items|
  {
    if items != [] { OtherTenantsUntouched(rows, tenant, items[..|items| - 1]); }
  }

  /** The counters account for every item, and the inserted ones for every new row. */
  lemma {:induction false} CountersAddUp(rows: seq<Row>, tenant: string, items: seq<Item>)
    ensures var c := Tally(rows, tenant, items);
      && c.inserted + c.updated + c.preserved == |items|
      && |UpsertAll(rows, tenant, items)| == |rows| + c.inserted
    decreases |items|
  {
    if items != [] { CountersAddUp(rows, tenant, items[..|items| - 1]); }
  }

  // ------------------------------------------------------------ order of a batch

  ghost predicate DistinctReports(items: seq<Item>) {
    forall i, j :: 0 <= i < j < |items| ==>
      (items[i].standard, items[i].resource.GetOr("")) != (items[j].standard, items[j].resource.GetOr(""))
  }

  lemma {:induction false} ReportOf(tenant: string, items: seq<Item>, key: Key)
    requires DistinctReports(items)
    ensures forall x :: x in items && KeyOf(tenant, x) == key ==>
      LastReport(tenant, items, key) == Some(x) && FirstReport(tenant, items, key) == Some(x)
    ensures LastReport(tenant, items, key).Some? ==>
      LastReport(tenant, items, key).value in items && KeyOf(tenant, LastReport(tenant, items, key).value) == key
    ensures FirstReport(tenant, items, key).Some? <==> LastReport(tenant, items, key).Some?
    decreases |items|
  {
    if items != [] {
      var n := |items| - 1;
      ReportOf(tenant, items[..n], key);
      assert items == items[..n] + [items[n]];
    }
  }

  /** A batch with distinct keys means the same in any order. */
  lemma OrderDoesNotMatter(rows: seq<Row>, tenant: string, xs: seq<Item>, ys: seq<Item>, key: Key)
    requires DistinctReports(xs) && DistinctReports(ys) && multiset(xs) == multiset(ys)
    ensures Get(UpsertAll(rows, tenant, xs), key) == Get(UpsertAll(rows, tenant, ys), key)
  {
    ReportOf(tenant, xs, key);
    ReportOf(tenant, ys, key);
    assert forall x :: x in xs <==> x in multiset(xs);
    assert forall y :: y in ys <==> y in multiset(ys);
    BatchGet(rows, tenant, xs, key);
    BatchGet(rows, tenant, ys, key);
  }

  // ------------------------------------------------------------ counting

  function CountState(rows: seq<Row>, s: State): nat {
    if rows == [] then 0
    else CountState(rows[..|rows| - 1], s) + if rows[|rows| - 1].triage.state == s then 1 else 0
  }

  /** The counts per state add up to the number of rows. */
  lemma {:induction false} StateCountsAddUp(rows: seq<Row>)
    ensures CountState(rows, Open) + CountState(rows, Accepted) + CountState(rows, CustomerSpecific)
      + CountState(rows, Denied) + CountState(rows, DeletePending) + CountState(rows, Resolved) == |rows|
    decreases |rows|
  {
    if rows != [] { StateCountsAddUp(rows[..|rows| - 1]); }
  }

  function OpenByTenant(rows: seq<Row>): map<string, nat> {
    if rows == [] then map[]
    else
      var before, r := OpenByTenant(rows[..|rows| - 1]), rows[|rows| - 1];
      if r.triage.state != Open then before
      else before[r.key.tenant := 1 + if r.key.tenant in before then before[r.key.tenant] else 0]
  }

  function CountOpen(rows: seq<Row>, tenant: string): nat {
    if rows == [] then 0
    else
      var r := rows[|rows| - 1];
      CountOpen(rows[..|rows| - 1], tenant) + if r.triage.state == Open && r.key.tenant == tenant then 1 else 0
  }

  function Total(counts: map<string, nat>, tenants: seq<string>): nat {
    if tenants == [] then 0
    else Total(counts, tenants[1..]) + if tenants[0] in counts then counts[tenants[0]] else 0
  }

  /** Tenants without an open row are absent, the others counted exactly. */
  lemma {:induction false} OpenCountsExact(rows: seq<Row>, tenant: string)
    ensures var counts := OpenByTenant(rows);
      && (tenant in counts <==> CountOpen(rows, tenant) > 0)
      && (tenant in counts ==> counts[tenant] == CountOpen(rows, tenant))
    decreases |rows|
  {
    if rows != [] { OpenCountsExact(rows[..|rows| - 1], tenant); }
  }

  lemma {:induction false} TotalRaised(
      counts: map<string, nat>, raised: map<string, nat>, tenant: string, tenants: seq<string>)
    requires forall i, j :: 0 <= i < j < |tenants| ==> tenants[i] != tenants[j]
    requires raised == counts[tenant := 1 + if tenant in counts then counts[tenant] else 0]
    ensures Total(raised, tenants) == Total(counts, tenants) + if tenant in tenants then 1 else 0
    decreases |tenants|
  {
    if tenants != [] {
      TotalRaised(counts, raised, tenant, tenants[1..]);
      assert tenants == [tenants[0]] + tenants[1..];
      assert forall i :: 0 < i < |tenants| ==> tenants[i] == tenants[1..][i - 1];
    }
  }

  /** The open counts of all tenants add up to the open count. */
  lemma {:induction false} OpenCountsAddUp(rows: seq<Row>, tenants: seq<string>)
    requires forall i, j :: 0 <= i < j < |tenants| ==> tenants[i] != tenants[j]
    requires forall i :: 0 <= i < |rows| ==> rows[i].key.tenant in tenants
    ensures Total(OpenByTenant(rows), tenants) == CountState(rows, Open)
    decreases |rows|
  {
    if rows != [] {
      var n := |rows| - 1;
      OpenCountsAddUp(rows[..n], tenants);
      assert rows[n].key.tenant in tenants;
      if rows[n].triage.state == Open {
        TotalRaised(OpenByTenant(rows[..n]), OpenByTenant(rows), rows[n].key.tenant, tenants);
      }
    } else {
      TotalEmpty(tenants);
    }
  }

  lemma {:induction false} TotalEmpty(tenants: seq<string>)
    ensures Total(map[], tenants) == 0
  {
    if tenants != [] { TotalEmpty(tenants[1..]); }
  }
}
