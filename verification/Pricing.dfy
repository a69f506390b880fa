/** License prices with per-tenant overrides (portal/db/src/licensing-repository.ts). */
module Pricing {
  import opened Wrappers
  import Sorting

  /** A price row; without a tenant it is the global price. */
  datatype Price = Price(
    sku: string, tenant: Option<string>, part: Option<string>, unitPrice: real, currency: string, updatedAt: string)

  /** `SELECT ... WHERE skuId = ? AND tenantId = ?` (or `IS NULL`). */
  function Lookup(rows: seq<Price>, sku: string, tenant: Option<string>): Option<Price> {
    if rows == [] then None
    else if rows[0].sku == sku && rows[0].tenant == tenant then Some(rows[0])
    else Lookup(rows[1..], sku, tenant)
  }

  /** The price a tenant pays: its own, else the global one. */
  function GetPrice(rows: seq<Price>, tenant: string, sku: string): Option<Price> {
    match Lookup(rows, sku, Some(tenant))
    case Some(p) => Some(p)
    case None => Lookup(rows, sku, None)
  }

  predicate Applies(p: Price, tenant: string) {
    p.tenant == None || p.tenant == Some(tenant)
  }

  /** The two partial unique indexes. */
  ghost predicate Unique(rows: seq<Price>) {
    forall i, j :: 0 <= i < j < |rows| ==> (rows[i].sku, rows[i].tenant) != (rows[j].sku, rows[j].tenant)
  }

  /** What the query may return: the rows that apply, in any order. */
  ghost predicate Selects(rows: seq<Price>, queried: seq<Price>, tenant: string) {
    && Unique(queried)
    && forall p :: p in queried <==> p in rows && Applies(p, tenant)
  }

  /** The order of SKUs; a locale may find different ones equal. */
  type Order = (string, string) -> bool

  function BySku(le: Order): (Price, Price) -> bool {
    (a: Price, b: Price) => le(a.sku, b.sku)
  }

  lemma BySkuOrders(le: Order)
    requires Sorting.TotalPreorder(le)
    ensures Sorting.TotalPreorder(BySku(le))
  {
    forall a, b: Price ensures BySku(le)(a, b) || BySku(le)(b, a) {
      assert le(a.sku, b.sku) || le(b.sku, a.sku);
    }
    forall a, b, c: Price | BySku(le)(a, b) && BySku(le)(b, c) ensures BySku(le)(a, c) {
      assert le(a.sku, b.sku) && le(b.sku, c.sku);
    }
  }

  method ListPrices(queried: seq<Price>, le: Order) returns (prices: seq<Price>, ghost bySku: map<string, Price>)
    requires Sorting.TotalPreorder(le)
    ensures Sorting.Sorted(prices, BySku(le))
    ensures bySku == Fold(queried)
    ensures forall p :: p in prices <==> p.sku in bySku && bySku[p.sku] == p
    ensures forall i, j :: 0 <= i < j < |prices| ==> prices[i].sku != prices[j].sku
  {
    var order: seq<string>, best: map<string, Price> := [], map[];
    for i := 0 to |queried|
      invariant best == Fold(queried[..i])
      invariant forall sku :: sku in order <==> sku in best
      invariant forall j, k :: 0 <= j < k < |order| ==> order[j] != order[k]
      invariant forall sku :: sku in best ==> best[sku].sku == sku
    {
      var pricing := queried[i];
      assert queried[..i + 1][..i] == queried[..i];
      if pricing.sku !in best {
        order, best := order + [pricing.sku], best[pricing.sku := pricing];
      } else if best[pricing.sku].tenant == None {
        best := best[pricing.sku := pricing];
      }
    }
    assert queried[..|queried|] == queried;
    bySku := best;
    var values := seq(|order|, i requires 0 <= i < |order| && order[i] in best => best[order[i]]);
    prices := Sorting.Sort(values, BySku(le));
    BySkuOrders(le);
    Sorting.SortSorted(values, BySku(le));
    Sorting.SortContents(values, BySku(le));
    ValuesOnce(order, best, values, prices);
  }

  /** The map the loop fills: the first row of a SKU, replaced as long as it is the global one. */
  function Fold(queried: seq<Price>): map<string, Price> {
    if queried == [] then map[]
    else
      var best, p := Fold(queried[..|queried| - 1]), queried[|queried| - 1];
      if p.sku !in best || best[p.sku].tenant == None then best[p.sku := p] else best
  }

  lemma ValuesOnce(order: seq<string>, best: map<string, Price>, values: seq<Price>, prices: seq<Price>)
    requires forall sku :: sku in order <==> sku in best
    requires forall j, k :: 0 <= j < k < |order| ==> order[j] != order[k]
    requires forall sku :: sku in best ==> best[sku].sku == sku
    requires |values| == |order| && forall i :: 0 <= i < |order| ==> values[i] == best[order[i]]
    requires multiset(prices) == multiset(values)
    ensures forall p :: p in prices <==> p.sku in best && best[p.sku] == p
    ensures forall i, j :: 0 <= i < j < |prices| ==> prices[i].sku != prices[j].sku
  {
    forall p ensures p in prices <==> p.sku in best && best[p.sku] == p {
      assert p in prices <==> p in multiset(prices);
      assert p in values <==> p in multiset(values);
      if p.sku in best && best[p.sku] == p {
        var i :| 0 <= i < |order| && order[i] == p.sku;
        assert values[i] == p;
      }
    }
    Sorting.DistinctContents(values, prices);
    forall i, j | 0 <= i < j < |prices| ensures prices[i].sku != prices[j].sku {
      assert prices[i] in prices && prices[j] in prices;
      assert prices[i] != prices[j];
    }
  }

  // ------------------------------------------------------------ the list agrees with the lookup

  lemma {:induction false} LookupIs(rows: seq<Price>, sku: string, tenant: Option<string>)
    requires Unique(rows)
    ensures forall p :: Lookup(rows, sku, tenant) == Some(p) <==> p in rows && p.sku == sku && p.tenant == tenant
  {
    if rows != [] {
      assert Unique(rows[1..]) by { assert forall i :: 0 <= i < |rows[1..]| ==> rows[1..][i] == rows[i + 1]; }
      LookupIs(rows[1..], sku, tenant);
      assert rows == [rows[0]] + rows[1..];
    }
  }

  /** Whatever order the rows come in, a SKU's entry is one of its rows, the tenant's if there is one. */
  lemma {:induction false} FoldPrefers(queried: seq<Price>, tenant: string, sku: string)
    requires forall p :: p in queried ==> Applies(p, tenant)
    ensures forall p :: p in queried && p.sku == sku ==> sku in Fold(queried)
    ensures sku in Fold(queried) ==> Fold(queried)[sku] in queried && Fold(queried)[sku].sku == sku
    ensures forall p :: p in queried && p.sku == sku && p.tenant == Some(tenant) ==>
      Fold(queried)[sku].tenant == Some(tenant)
    decreases |queried|
  {
    if queried != [] {
      var n := |queried| - 1;
      assert queried == queried[..n] + [queried[n]];
      FoldPrefers(queried[..n], tenant, sku);
    }
  }

  lemma FoldIsLookup(rows: seq<Price>, queried: seq<Price>, tenant: string, sku: string)
    requires Unique(rows) && Selects(rows, queried, tenant)
    ensures sku in Fold(queried) <==> GetPrice(rows, tenant, sku).Some?
    ensures sku in Fold(queried) ==> GetPrice(rows, tenant, sku) == Some(Fold(queried)[sku])
  {
    FoldPrefers(queried, tenant, sku);
    LookupIs(rows, sku, Some(tenant));
    LookupIs(rows, sku, None);
    if sku in Fold(queried) {
      var p := Fold(queried)[sku];
      assert p in rows;
      assert Lookup(rows, sku, Some(tenant)).Some? ==> Lookup(rows, sku, Some(tenant)).value in queried;
    }
  }

  /** One row per SKU that has any applicable price, in order, each the one a lookup finds. */
  method ListLicensePricing(ghost rows: seq<Price>, tenant: string, queried: seq<Price>, le: Order)
    returns (prices: seq<Price>)
    requires Unique(rows) && Selects(rows, queried, tenant) && Sorting.TotalPreorder(le)
    ensures Sorting.Sorted(prices, BySku(le))
    ensures forall i, j :: 0 <= i < j < |prices| ==> prices[i].sku != prices[j].sku
    ensures forall p :: p in prices <==> GetPrice(rows, tenant, p.sku) == Some(p)
    ensures forall sku :: GetPrice(rows, tenant, sku).Some? ==>
      GetPrice(rows, tenant, sku).value in prices && GetPrice(rows, tenant, sku).value.sku == sku
  {
    ghost var bySku;
    prices, bySku := ListPrices(queried, le);
    forall p ensures p in prices <==> GetPrice(rows, tenant, p.sku) == Some(p) {
      FoldIsLookup(rows, queried, tenant, p.sku);
    }
    forall sku | GetPrice(rows, tenant, sku).Some?
      ensures GetPrice(rows, tenant, sku).value in prices && GetPrice(rows, tenant, sku).value.sku == sku
    {
      FoldIsLookup(rows, queried, tenant, sku);
      FoldPrefers(queried, tenant, sku);
    }
  }

  // ------------------------------------------------------------ upserts

  /** `UPDATE ... WHERE` the key matches. */
  function Update(rows: seq<Price>, p: Price): seq<Price> {
    seq(|rows|, i requires 0 <= i < |rows| => if rows[i].sku == p.sku && rows[i].tenant == p.tenant then p else rows[i])
  }

  function Upsert(rows: seq<Price>, p: Price): seq<Price> {
    if Lookup(rows, p.sku, p.tenant).Some? then Update(rows, p) else rows + [p]
  }

  /** The audit event of an upsert: the row the key had before, and the one it has now. */
  datatype Event = Event(sku: string, tenant: Option<string>, before: Option<Price>, after: Price)

  function EventOf(rows: seq<Price>, p: Price): Event {
    Event(p.sku, p.tenant, Lookup(rows, p.sku, p.tenant), p)
  }

  class Repository {
    var rows: seq<Price>
    var log: seq<Event>

    constructor ()
      ensures rows == [] && log == []
    {
      rows, log := [], [];
    }

    method UpsertLicensePricing(p: Price) returns (persisted: Price)
      requires Unique(rows)
      modifies this
      ensures rows == Upsert(old(rows), p) && Unique(rows)
      ensures log == old(log) + [EventOf(old(rows), p)]
      ensures persisted == p
    {
      var before := Lookup(rows, p.sku, p.tenant);
      var changes := 0;
      var after: seq<Price> := [];
      for i := 0 to |rows|
        invariant rows == old(rows) && log == old(log) && changes >= 0
        invariant after == Update(rows, p)[..i]
        invariant changes == 0 <==> Lookup(rows[..i], p.sku, p.tenant) == None
      {
        LookupSnoc(rows[..i], rows[i], p.sku, p.tenant);
        assert rows[..i] + [rows[i]] == rows[..i + 1];
        if rows[i].sku == p.sku && rows[i].tenant == p.tenant {
          after, changes := after + [p], changes + 1;
        } else {
          after := after + [rows[i]];
        }
      }
      assert rows[..|rows|] == rows && Update(rows, p)[..|rows|] == Update(rows, p);
      if changes == 0 { after := rows + [p]; }
      UpsertUnique(rows, p);
      UpsertLookup(rows, p, p.sku, p.tenant);
      rows := after;
      log := log + [Event(p.sku, p.tenant, before, p)];
      var r := Lookup(rows, p.sku, p.tenant);
      persisted := r.value;
    }
  }

  lemma {:induction false} LookupSnoc(rows: seq<Price>, p: Price, sku: string, tenant: Option<string>)
    ensures Lookup(rows + [p], sku, tenant)
      == if Lookup(rows, sku, tenant).Some? then Lookup(rows, sku, tenant)
         else if p.sku == sku && p.tenant == tenant then Some(p) else None
  {
    if rows == [] {
      assert rows + [p] == [p];
    } else {
      LookupSnoc(rows[1..], p, sku, tenant);
      assert (rows + [p])[1..] == rows[1..] + [p];
    }
  }

  lemma {:induction false} UpdateLookup(rows: seq<Price>, p: Price, sku: string, tenant: Option<string>)
    ensures Lookup(Update(rows, p), sku, tenant)
      == if Lookup(rows, sku, tenant).Some? && sku == p.sku && tenant == p.tenant then Some(p)
         else Lookup(rows, sku, tenant)
  {
    if rows != [] {
      UpdateLookup(rows[1..], p, sku, tenant);
      assert Update(rows, p)[1..] == Update(rows[1..], p);
    }
  }

  /** An upsert sets the price of its SKU and tenant, and no other. */
  lemma UpsertLookup(rows: seq<Price>, p: Price, sku: string, tenant: Option<string>)
    ensures Lookup(Upsert(rows, p), sku, tenant)
      == if sku == p.sku && tenant == p.tenant then Some(p) else Lookup(rows, sku, tenant)
  {
    UpdateLookup(rows, p, sku, tenant);
    LookupSnoc(rows, p, sku, tenant);
  }

  lemma {:induction false} AbsentKey(rows: seq<Price>, sku: string, tenant: Option<string>)
    requires Lookup(rows, sku, tenant) == None
    ensures forall i :: 0 <= i < |rows| ==> (rows[i].sku, rows[i].tenant) != (sku, tenant)
  {
    if rows != [] {
      AbsentKey(rows[1..], sku, tenant);
      assert forall i :: 0 < i < |rows| ==> rows[i] == rows[1..][i - 1];
    }
  }

  lemma UpsertUnique(rows: seq<Price>, p: Price)
    requires Unique(rows)
    ensures Unique(Upsert(rows, p))
  {
    if Lookup(rows, p.sku, p.tenant) == None { AbsentKey(rows, p.sku, p.tenant); }
  }

  function Run(rows: seq<Price>, ps: seq<Price>): seq<Price> {
    if ps == [] then rows else Upsert(Run(rows, ps[..|ps| - 1]), ps[|ps| - 1])
  }

  function LastPrice(ps: seq<Price>, sku: string, tenant: Option<string>): Option<Price> {
    if ps == [] then None
    else if ps[|ps| - 1].sku == sku && ps[|ps| - 1].tenant == tenant then Some(ps[|ps| - 1])
    else LastPrice(ps[..|ps| - 1], sku, tenant)
  }

  /** After any run of upserts there is at most one row per SKU and tenant, the last one written,
      so a tenant's price is its last override, or else the last global price. */
  lemma {:induction false} PriceIsLastWritten(ps: seq<Price>, tenant: string, sku: string)
    ensures Unique(Run([], ps))
    ensures Lookup(Run([], ps), sku, Some(tenant)) == LastPrice(ps, sku, Some(tenant))
    ensures Lookup(Run([], ps), sku, None) == LastPrice(ps, sku, None)
    ensures GetPrice(Run([], ps), tenant, sku)
      == if LastPrice(ps, sku, Some(tenant)).Some? then LastPrice(ps, sku, Some(tenant)) else LastPrice(ps, sku, None)
    decreases |ps|
  {
    if ps != [] {
      var n := |ps| - 1;
      PriceIsLastWritten(ps[..n], tenant, sku);
      UpsertUnique(Run([], ps[..n]), ps[n]);
      UpsertLookup(Run([], ps[..n]), ps[n], sku, Some(tenant));
      UpsertLookup(Run([], ps[..n]), ps[n], sku, None);
    }
  }

  function Logged(ps: seq<Price>): seq<Event> {
    if ps == [] then [] else Logged(ps[..|ps| - 1]) + [EventOf(Run([], ps[..|ps| - 1]), ps[|ps| - 1])]
  }

  /** Over any run of upserts, each event's `before` is what the last earlier event of its SKU and
      tenant wrote. */
  lemma {:induction false} AuditChain(ps: seq<Price>, i: nat)
    requires i < |ps|
    ensures |Logged(ps)| == |ps|
    ensures Logged(ps)[i] == Event(ps[i].sku, ps[i].tenant, LastPrice(ps[..i], ps[i].sku, ps[i].tenant), ps[i])
    decreases |ps|
  {
    var n := |ps| - 1;
    if i < n {
      AuditChain(ps[..n], i);
      assert ps[..n][..i] == ps[..i];
    } else {
      if n > 0 { AuditChain(ps[..n], 0); }
      LookupIsLast(ps[..n], ps[n].sku, ps[n].tenant);
    }
  }

  lemma LookupIsLast(ps: seq<Price>, sku: string, tenant: Option<string>)
    ensures Lookup(Run([], ps), sku, tenant) == LastPrice(ps, sku, tenant)
  {
    PriceIsLastWritten(ps, tenant.GetOr(""), sku);
  }
}
