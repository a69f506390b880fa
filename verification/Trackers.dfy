/** From tracker rows to ticket files (fleet/fleet.py, `cmd_tickets`): rows that share an id are
    collapsed or split, then every ticket file that may be written is written. */
module Trackers {
  import opened Rendering
  import Decimal

  // ------------------------------------------------------------ tracker ids

  predicate AllUpper(s: string) {
    forall i :: 0 <= i < |s| ==> 'A' <= s[i] <= 'Z'
  }

  predicate AllDigits(s: string) {
    forall i :: 0 <= i < |s| ==> '0' <= s[i] <= '9'
  }

  /** One to four capitals, up to two digits, a dash, digits, and perhaps a small letter. */
  ghost predicate TrackerId(s: string) {
    exists u: nat, h: nat :: IdShape(s, u, h)
  }

  predicate IdShape(s: string, u: nat, h: nat) {
    && 1 <= u <= 4 && u <= h <= u + 2 && h + 2 <= |s| && s[h] == '-'
    && AllUpper(s[..u]) && AllDigits(s[u..h]) && AllDigits(s[h + 1..|s| - 1])
    && var c := s[|s| - 1]; '0' <= c <= '9' || (h + 2 < |s| && 'a' <= c <= 'z')
  }

  function DashAt(s: string): (n: nat)
    ensures n <= |s| && (n < |s| ==> s[n] == '-') && forall i :: 0 <= i < n ==> s[i] != '-'
  {
    if s == "" || s[0] == '-' then 0 else 1 + DashAt(s[1..])
  }

  /** An id up to its second dash. */
  function Stem(s: string): string {
    var d := DashAt(s);
    if d == |s| then s else s[..d + 1 + DashAt(s[d + 1..])]
  }

  function DupId(tid: string, n: nat): string {
    tid + ("-dup" + Decimal.Print(n))
  }

  /** The ids a group of rows named `tid` may end up with. */
  ghost predicate From(id: string, tid: string) {
    id == tid || exists n: nat :: id == DupId(tid, n)
  }

  lemma {:induction false} DashAtOf(head: string, rest: string)
    requires '-' !in head && (rest == "" || rest[0] == '-')
    ensures DashAt(head + rest) == |head|
  {
    if head == "" {
      assert head + rest == rest;
    } else {
      assert head[0] in head && forall c :: c in head[1..] ==> c in head;
      DashAtOf(head[1..], rest);
      assert (head + rest)[1..] == head[1..] + rest;
    }
  }

  lemma TwoParts(tid: string) returns (head: string, num: string)
    requires TrackerId(tid)
    ensures tid == head + ("-" + num) && '-' !in head && '-' !in num
  {
    var u: nat, h: nat :| IdShape(tid, u, h);
    head, num := tid[..h], tid[h + 1..];
    forall i | 0 <= i < h ensures tid[i] != '-' {
      if i < u { assert tid[i] == tid[..u][i]; } else { assert tid[i] == tid[u..h][i - u]; }
    }
    forall i | h < i < |tid| ensures tid[i] != '-' {
      if i < |tid| - 1 { assert tid[i] == tid[h + 1..|tid| - 1][i - h - 1]; }
    }
  }

  lemma StemOf(head: string, num: string, rest: string)
    requires '-' !in head && '-' !in num && (rest == "" || rest[0] == '-')
    ensures Stem(head + ("-" + (num + rest))) == head + ("-" + num)
  {
    var s := head + ("-" + (num + rest));
    DashAtOf(head, "-" + (num + rest));
    assert s[|head| + 1..] == num + rest;
    DashAtOf(num, rest);
    assert s[..|head| + 1 + |num|] == head + ("-" + num);
  }

  /** Whatever a split renames a row to, its stem is the tracker's id. */
  lemma StemFrom(id: string, tid: string)
    requires TrackerId(tid) && From(id, tid)
    ensures Stem(id) == tid
  {
    var head, num := TwoParts(tid);
    if id == tid {
      StemOf(head, num, "");
      assert num + "" == num;
    } else {
      var n: nat :| id == DupId(tid, n);
      var rest := "-dup" + Decimal.Print(n);
      StemOf(head, num, rest);
      assert head + ("-" + (num + rest)) == id;
    }
  }

  // ------------------------------------------------------------ groups of rows

  function Ids(index: seq<Row>): seq<string> {
    if index == [] then []
    else
      var n := |index| - 1;
      var before := Ids(index[..n]);
      if index[n].id in before then before else before + [index[n].id]
  }

  function Rows(index: seq<Row>, id: string): seq<Row> {
    if index == [] then []
    else
      var n := |index| - 1;
      Rows(index[..n], id) + if index[n].id == id then [index[n]] else []
  }

  function Live(group: seq<Row>): seq<Row> {
    if group == [] then []
    else
      var n := |group| - 1;
      Live(group[..n]) + if group[n].actionable then [group[n]] else []
  }

  function Prefix(body: string): string {
    if |body| <= 200 then body else body[..200]
  }

  predicate Seen(rows: seq<Row>, body: string) {
    exists i :: 0 <= i < |rows| && Prefix(rows[i].body) == Prefix(body)
  }

  function Dedupe(rows: seq<Row>): seq<Row> {
    if rows == [] then []
    else
      var n := |rows| - 1;
      var before := Dedupe(rows[..n]);
      if Seen(before, rows[n].body) then before else before + [rows[n]]
  }

  function Renamed(tid: string, seen: seq<Row>): seq<Row> {
    seq(|seen|, n requires 0 <= n < |seen| => if n == 0 then seen[0] else WithId(seen[n], DupId(tid, n + 1)))
  }

  function WithId(r: Row, id: string): Row {
    r.(id := id)
  }

  function Resolve(tid: string, group: seq<Row>): seq<Row>
    requires group != []
  {
    var live := Live(group);
    if |group| == 1 then group
    else if |live| <= 1 then [if live != [] then live[0] else group[0]]
    else Renamed(tid, Dedupe(live))
  }

  predicate Grouped(index: seq<Row>, ids: seq<string>) {
    forall i :: 0 <= i < |ids| ==> Rows(index, ids[i]) != []
  }

  function ResolveAll(index: seq<Row>, ids: seq<string>): seq<Row>
    requires Grouped(index, ids)
  {
    if ids == [] then []
    else
      var n := |ids| - 1;
      ResolveAll(index, ids[..n]) + Resolve(ids[n], Rows(index, ids[n]))
  }

  /** What the split makes of the rows of both trackers. */
  function Split(index: seq<Row>): seq<Row> {
    IdsGrouped(index);
    ResolveAll(index, Ids(index))
  }

  lemma RowsMore(index: seq<Row>, id: string)
    requires index != []
    ensures Rows(index[..|index| - 1], id) != [] ==> Rows(index, id) != []
    ensures index[|index| - 1].id == id ==> Rows(index, id) != []
  {}

  lemma {:induction false} IdsListed(index: seq<Row>)
    ensures forall i :: 0 <= i < |index| ==> index[i].id in Ids(index)
    ensures forall i, j :: 0 <= i < j < |Ids(index)| ==> Ids(index)[i] != Ids(index)[j]
    decreases |index|
  {
    if index != [] {
      var n := |index| - 1;
      IdsListed(index[..n]);
      assert forall i :: 0 <= i < n ==> index[..n][i] == index[i];
    }
  }

  lemma {:induction false} IdHasRows(index: seq<Row>, id: string)
    requires id in Ids(index)
    ensures Rows(index, id) != []
    decreases |index|
  {
    var n := |index| - 1;
    RowsMore(index, id);
    if id in Ids(index[..n]) { IdHasRows(index[..n], id); }
  }

  lemma IdsGrouped(index: seq<Row>)
    ensures Grouped(index, Ids(index))
    ensures forall i :: 0 <= i < |index| ==> index[i].id in Ids(index)
    ensures forall i, j :: 0 <= i < j < |Ids(index)| ==> Ids(index)[i] != Ids(index)[j]
  {
    IdsListed(index);
    forall i | 0 <= i < |Ids(index)| ensures Rows(index, Ids(index)[i]) != [] {
      IdHasRows(index, Ids(index)[i]);
    }
  }

  // ------------------------------------------------------------ the loops of the command

  method Group(index: seq<Row>) returns (order: seq<string>, byId: map<string, seq<Row>>)
    ensures order == Ids(index)
    ensures forall id :: id in byId <==> id in order
    ensures forall id :: id in byId ==> byId[id] == Rows(index, id)
  {
    order, byId := [], map[];
    for i := 0 to |index|
      invariant order == Ids(index[..i])
      invariant forall id :: id in byId <==> id in order
      invariant forall id :: id in byId ==> byId[id] == Rows(index[..i], id)
      invariant forall id :: id !in byId ==> Rows(index[..i], id) == []
    {
      var t := index[i];
      assert index[..i + 1][..i] == index[..i];
      if t.id !in byId {
        order, byId := order + [t.id], byId[t.id := []];
      }
      byId := byId[t.id := byId[t.id] + [t]];
    }
    assert index[..|index|] == index;
  }

  method Distinct(live: seq<Row>) returns (seen: seq<Row>)
    ensures seen == Dedupe(live)
  {
    seen := [];
    for i := 0 to |live|
      invariant seen == Dedupe(live[..i])
    {
      assert live[..i + 1][..i] == live[..i];
      var found := false;
      for j := 0 to |seen|
        invariant found <==> exists k :: 0 <= k < j && Prefix(seen[k].body) == Prefix(live[i].body)
      {
        if Prefix(live[i].body) == Prefix(seen[j].body) { found := true; }
      }
      if !found { seen := seen + [live[i]]; }
    }
    assert live[..|live|] == live;
  }

  /** The first of the colliding tickets keeps its id, the others are numbered. */
  method Rename(tid: string, seen: seq<Row>) returns (out: seq<Row>)
    ensures out == Renamed(tid, seen)
  {
    out := [];
    for n := 0 to |seen|
      invariant |out| == n && forall i :: 0 <= i < n ==> out[i] == Renamed(tid, seen)[i]
    {
      var g := seen[n];
      if n > 0 { g := WithId(g, DupId(tid, n + 1)); }
      out := out + [g];
    }
  }

  method ResolveGroup(tid: string, group: seq<Row>) returns (out: seq<Row>)
    requires group != []
    ensures out == Resolve(tid, group)
  {
    if |group| == 1 { return [group[0]]; }
    var live := LiveRows(group);
    if |live| <= 1 { return [if live != [] then live[0] else group[0]]; }
    var seen := Distinct(live);
    out := Rename(tid, seen);
  }

  method SplitCollisions(index: seq<Row>) returns (resolved: seq<Row>)
    ensures resolved == Split(index)
  {
    var order, byId := Group(index);
    IdsGrouped(index);
    resolved := [];
    for i := 0 to |order|
      invariant Grouped(index, order[..i]) && resolved == ResolveAll(index, order[..i])
    {
      assert order[..i + 1][..i] == order[..i];
      var out := ResolveGroup(order[i], byId[order[i]]);
      resolved := resolved + out;
    }
    assert order[..|order|] == order;
  }

  method LiveRows(group: seq<Row>) returns (live: seq<Row>)
    ensures live == Live(group)
  {
    live := [];
    for i := 0 to |group|
      invariant live == Live(group[..i])
    {
      assert group[..i + 1][..i] == group[..i];
      if group[i].actionable { live := live + [group[i]]; }
    }
    assert group[..|group|] == group;
  }

  // ------------------------------------------------------------ what the split guarantees

  predicate DistinctIds(rows: seq<Row>) {
    forall i, j :: 0 <= i < j < |rows| ==> rows[i].id != rows[j].id
  }

  /** `q` is `r` or another row of the same id whose body starts alike. */
  predicate StandsFor(q: Row, r: Row) {
    q.actionable && Prefix(q.body) == Prefix(r.body) && Stem(q.id) == r.id
  }

  lemma {:induction false} RowsOf(index: seq<Row>, id: string)
    ensures forall i :: 0 <= i < |Rows(index, id)| ==> Rows(index, id)[i].id == id && Rows(index, id)[i] in index
    ensures forall i :: 0 <= i < |index| && index[i].id == id ==> index[i] in Rows(index, id)
    decreases |index|
  {
    if index != [] {
      var n := |index| - 1;
      RowsOf(index[..n], id);
      var before := Rows(index[..n], id);
      assert forall r :: r in before ==> r in Rows(index, id);
      assert forall i :: 0 <= i < n ==> index[..n][i] == index[i];
    }
  }

  lemma {:induction false} LiveOf(group: seq<Row>)
    ensures forall r :: r in Live(group) <==> r in group && r.actionable
    decreases |group|
  {
    if group != [] {
      var n := |group| - 1;
      LiveOf(group[..n]);
      assert group == group[..n] + [group[n]];
    }
  }

  lemma {:induction false} DedupeIn(rows: seq<Row>)
    ensures forall r :: r in Dedupe(rows) ==> r in rows
    decreases |rows|
  {
    if rows != [] {
      DedupeIn(rows[..|rows| - 1]);
    }
  }

  lemma {:induction false} DedupeSees(rows: seq<Row>, i: nat)
    requires i < |rows|
    ensures Seen(Dedupe(rows), rows[i].body)
    decreases |rows|
  {
    var n := |rows| - 1;
    var before := Dedupe(rows[..n]);
    if i < n {
      DedupeSees(rows[..n], i);
      SeenMore(before, Dedupe(rows), rows[i].body);
    } else if !Seen(before, rows[n].body) {
      assert Prefix(Dedupe(rows)[|before|].body) == Prefix(rows[n].body);
    }
  }

  lemma DedupeOf(rows: seq<Row>)
    ensures forall r :: r in Dedupe(rows) ==> r in rows
    ensures forall i :: 0 <= i < |rows| ==> Seen(Dedupe(rows), rows[i].body)
  {
    DedupeIn(rows);
    forall i | 0 <= i < |rows| ensures Seen(Dedupe(rows), rows[i].body) { DedupeSees(rows, i); }
  }

  lemma SeenMore(a: seq<Row>, b: seq<Row>, body: string)
    requires Seen(a, body) && |a| <= |b| && b[..|a|] == a
    ensures Seen(b, body)
  {
    var i :| 0 <= i < |a| && Prefix(a[i].body) == Prefix(body);
    assert b[i] == a[i];
  }

  /** No two rows of the group start alike. */
  predicate PrefixesDiffer(rows: seq<Row>) {
    forall i, j :: 0 <= i < j < |rows| ==> Prefix(rows[i].body) != Prefix(rows[j].body)
  }

  lemma {:induction false} DedupeDiffers(rows: seq<Row>)
    ensures PrefixesDiffer(Dedupe(rows))
    decreases |rows|
  {
    if rows != [] {
      var n := |rows| - 1;
      DedupeDiffers(rows[..n]);
    }
  }

  /** What one group contributes. */
  ghost predicate Settled(tid: string, group: seq<Row>, out: seq<Row>) {
    && DistinctIds(out) && out != [] && out[0].id == tid
    && (forall i :: 0 <= i < |out| ==> From(out[i].id, tid) && Copied(out[i], group))
    && forall r :: r in group && r.actionable ==> Covered(out, r)
  }

  predicate Copied(q: Row, group: seq<Row>) {
    exists i :: 0 <= i < |group| && q == WithId(group[i], q.id)
  }

  predicate Covered(out: seq<Row>, r: Row) {
    exists i :: 0 <= i < |out| && StandsFor(out[i], r)
  }

  lemma RenamedDistinct(tid: string, seen: seq<Row>)
    requires seen != [] && seen[0].id == tid
    ensures DistinctIds(Renamed(tid, seen))
  {
    var out := Renamed(tid, seen);
    forall i, j | 0 <= i < j < |out| ensures out[i].id != out[j].id {
      if i == 0 {
        assert |DupId(tid, j + 1)| > |tid|;
      } else if out[i].id == out[j].id {
        var a, b := "-dup" + Decimal.Print(i + 1), "-dup" + Decimal.Print(j + 1);
        assert (tid + a)[|tid|..] == a && (tid + b)[|tid|..] == b;
        assert a[4..] == Decimal.Print(i + 1) && b[4..] == Decimal.Print(j + 1);
        Decimal.PrintInjective(i + 1, j + 1);
      }
    }
  }

  lemma SeenIn(group: seq<Row>, i: nat)
    requires i < |Dedupe(Live(group))|
    ensures Dedupe(Live(group))[i] in group
  {
    DedupeOf(Live(group));
    LiveOf(group);
    assert Dedupe(Live(group))[i] in Dedupe(Live(group));
  }

  lemma WithIdCopies(r: Row, group: seq<Row>, id: string)
    requires r in group
    ensures Copied(WithId(r, id), group)
  {
    var k :| 0 <= k < |group| && group[k] == r;
    assert WithId(r, id) == WithId(group[k], WithId(r, id).id);
  }

  lemma RenamedCopies(tid: string, group: seq<Row>, i: nat)
    requires forall r :: r in group ==> r.id == tid
    requires i < |Dedupe(Live(group))|
    ensures var q := Renamed(tid, Dedupe(Live(group)))[i]; From(q.id, tid) && Copied(q, group)
  {
    var r := Dedupe(Live(group))[i];
    SeenIn(group, i);
    if i == 0 {
      WithIdCopies(r, group, tid);
      assert WithId(r, tid) == r;
    } else {
      WithIdCopies(r, group, DupId(tid, i + 1));
    }
  }

  lemma SeenStands(tid: string, group: seq<Row>, i: nat, r: Row)
    requires TrackerId(tid) && r.id == tid && forall q :: q in group ==> q.id == tid
    requires i < |Dedupe(Live(group))| && Prefix(Dedupe(Live(group))[i].body) == Prefix(r.body)
    ensures Covered(Renamed(tid, Dedupe(Live(group))), r)
  {
    var seen := Dedupe(Live(group));
    var q := Renamed(tid, seen)[i];
    RenamedCopies(tid, group, i);
    StemFrom(q.id, tid);
    SeenLive(group, i);
    assert StandsFor(q, r);
  }

  lemma SeenLive(group: seq<Row>, i: nat)
    requires i < |Dedupe(Live(group))|
    ensures Dedupe(Live(group))[i].actionable
  {
    DedupeOf(Live(group));
    LiveOf(group);
    assert Dedupe(Live(group))[i] in Dedupe(Live(group));
  }

  lemma RenamedCovers(tid: string, group: seq<Row>, r: Row)
    requires TrackerId(tid) && forall q :: q in group ==> q.id == tid
    requires r in group && r.actionable
    ensures Covered(Renamed(tid, Dedupe(Live(group))), r)
  {
    var seen := Dedupe(Live(group));
    assert Seen(seen, r.body) by {
      LiveOf(group);
      DedupeOf(Live(group));
      var k :| 0 <= k < |Live(group)| && Live(group)[k] == r;
    }
    var i :| 0 <= i < |seen| && Prefix(seen[i].body) == Prefix(r.body);
    SeenStands(tid, group, i, r);
  }

  lemma RenamedSettles(tid: string, group: seq<Row>)
    requires TrackerId(tid) && |Live(group)| > 1 && forall r :: r in group ==> r.id == tid
    ensures Settled(tid, group, Renamed(tid, Dedupe(Live(group))))
  {
    var live := Live(group);
    var seen := Dedupe(live);
    var out := Renamed(tid, seen);
    DedupeOf(live);
    LiveOf(group);
    assert Seen(seen, live[0].body);
    assert seen[0] in seen && seen[0] in group;
    RenamedDistinct(tid, seen);
    forall i | 0 <= i < |out| ensures From(out[i].id, tid) && Copied(out[i], group) {
      RenamedCopies(tid, group, i);
    }
    forall r | r in group && r.actionable ensures Covered(out, r) {
      RenamedCovers(tid, group, r);
    }
  }

  lemma LoneSettles(tid: string, group: seq<Row>, q: Row)
    requires TrackerId(tid) && q in group && q.id == tid
    requires forall r :: r in group && r.actionable ==> r == q
    requires forall r :: r in group ==> r.id == tid
    ensures Settled(tid, group, [q])
  {
    StemFrom(tid, tid);
    WithIdCopies(q, group, tid);
    assert WithId(q, tid) == q;
    forall r | r in group && r.actionable ensures Covered([q], r) {
      assert StandsFor([q][0], r);
    }
  }

  lemma ResolveSettles(tid: string, group: seq<Row>)
    requires TrackerId(tid) && group != [] && forall r :: r in group ==> r.id == tid
    ensures Settled(tid, group, Resolve(tid, group))
  {
    var live := Live(group);
    LiveOf(group);
    if |group| > 1 && |live| > 1 {
      RenamedSettles(tid, group);
    } else {
      var q := if |group| == 1 || live == [] then group[0] else live[0];
      assert Resolve(tid, group) == [q];
      assert q in group by { if q != group[0] { assert live[0] in live; } }
      forall r | r in group && r.actionable ensures r == q { assert r in live; }
      LoneSettles(tid, group, q);
    }
  }

  ghost predicate FromTracker(index: seq<Row>) {
    forall i :: 0 <= i < |index| ==> TrackerId(index[i].id)
  }

  lemma GroupSettles(index: seq<Row>, tid: string)
    requires FromTracker(index) && Rows(index, tid) != []
    ensures Settled(tid, Rows(index, tid), Resolve(tid, Rows(index, tid))) && TrackerId(tid)
  {
    RowsOf(index, tid);
    assert Rows(index, tid)[0] in index;
    ResolveSettles(tid, Rows(index, tid));
  }

  lemma CopiedFurther(q: Row, index: seq<Row>, tid: string)
    requires Copied(q, Rows(index, tid))
    ensures Copied(q, index)
  {
    RowsOf(index, tid);
    var i :| 0 <= i < |Rows(index, tid)| && q == WithId(Rows(index, tid)[i], q.id);
    var k :| 0 <= k < |index| && index[k] == Rows(index, tid)[i];
  }

  lemma {:induction false} SplitFrom(index: seq<Row>, ids: seq<string>)
    requires Grouped(index, ids) && FromTracker(index)
    ensures forall i :: 0 <= i < |ResolveAll(index, ids)| ==>
      Stem(ResolveAll(index, ids)[i].id) in ids && Copied(ResolveAll(index, ids)[i], index)
    decreases |ids|
  {
    if ids != [] {
      var n := |ids| - 1;
      var before, out := ResolveAll(index, ids[..n]), Resolve(ids[n], Rows(index, ids[n]));
      SplitFrom(index, ids[..n]);
      GroupSettles(index, ids[n]);
      forall i | 0 <= i < |out| ensures Stem(out[i].id) in ids && Copied(out[i], index) {
        StemFrom(out[i].id, ids[n]);
        CopiedFurther(out[i], index, ids[n]);
      }
      assert forall i :: 0 <= i < |before| ==> Stem(before[i].id) in ids[..n];
    }
  }

  lemma {:induction false} SplitDistinct(index: seq<Row>, ids: seq<string>)
    requires Grouped(index, ids) && FromTracker(index)
    requires forall i, j :: 0 <= i < j < |ids| ==> ids[i] != ids[j]
    ensures DistinctIds(ResolveAll(index, ids))
    decreases |ids|
  {
    if ids != [] {
      var n := |ids| - 1;
      var before, out := ResolveAll(index, ids[..n]), Resolve(ids[n], Rows(index, ids[n]));
      SplitDistinct(index, ids[..n]);
      SplitFrom(index, ids[..n]);
      GroupSettles(index, ids[n]);
      forall i, j | 0 <= i < |before| && 0 <= j < |out| ensures before[i].id != out[j].id {
        StemFrom(out[j].id, ids[n]);
        assert ids[n] !in ids[..n];
      }
      DistinctJoined(before, out);
    }
  }

  lemma DistinctJoined(a: seq<Row>, b: seq<Row>)
    requires DistinctIds(a) && DistinctIds(b)
    requires forall i, j :: 0 <= i < |a| && 0 <= j < |b| ==> a[i].id != b[j].id
    ensures DistinctIds(a + b)
  {}

  lemma CoveredMore(a: seq<Row>, b: seq<Row>, r: Row)
    requires Covered(a, r) || Covered(b, r)
    ensures Covered(a + b, r)
  {
    if Covered(a, r) {
      var i :| 0 <= i < |a| && StandsFor(a[i], r);
      assert (a + b)[i] == a[i];
    } else {
      var i :| 0 <= i < |b| && StandsFor(b[i], r);
      assert (a + b)[|a| + i] == b[i];
    }
  }

  lemma GroupCovers(index: seq<Row>, r: Row)
    requires FromTracker(index) && r in index && r.actionable
    ensures Rows(index, r.id) != [] && Covered(Resolve(r.id, Rows(index, r.id)), r)
  {
    RowsOf(index, r.id);
    GroupSettles(index, r.id);
  }

  lemma CoversLonger(index: seq<Row>, ids: seq<string>, r: Row)
    requires Grouped(index, ids) && ids != []
    requires Covered(ResolveAll(index, ids[..|ids| - 1]), r)
      || Covered(Resolve(ids[|ids| - 1], Rows(index, ids[|ids| - 1])), r)
    ensures Covered(ResolveAll(index, ids), r)
  {
    var n := |ids| - 1;
    CoveredMore(ResolveAll(index, ids[..n]), Resolve(ids[n], Rows(index, ids[n])), r);
  }

  lemma {:induction false} SplitCovers(index: seq<Row>, ids: seq<string>, r: Row)
    requires Grouped(index, ids) && FromTracker(index) && r in index && r.actionable && r.id in ids
    ensures Covered(ResolveAll(index, ids), r)
    decreases |ids|
  {
    if r.id == ids[|ids| - 1] { GroupCovers(index, r); } else { SplitCovers(index, ids[..|ids| - 1], r); }
    CoversLonger(index, ids, r);
  }

  predicate Names(rows: seq<Row>, id: string) {
    exists i :: 0 <= i < |rows| && rows[i].id == id
  }

  lemma {:induction false} SplitKeeps(index: seq<Row>, ids: seq<string>, id: string)
    requires Grouped(index, ids) && FromTracker(index) && id in ids
    ensures Names(ResolveAll(index, ids), id)
    decreases |ids|
  {
    var n := |ids| - 1;
    var before, out := ResolveAll(index, ids[..n]), Resolve(ids[n], Rows(index, ids[n]));
    if id == ids[n] {
      GroupSettles(index, ids[n]);
      assert (before + out)[|before|] == out[0];
    } else {
      SplitKeeps(index, ids[..n], id);
      var i :| 0 <= i < |before| && before[i].id == id;
      assert (before + out)[i] == before[i];
    }
  }

  /** The split gives every ticket an id of its own, invents nothing, drops no id, and represents
      every actionable row by one of its id whose body starts with the same 200 characters. */
  lemma SplitIsFaithful(index: seq<Row>)
    requires FromTracker(index)
    ensures DistinctIds(Split(index))
    ensures forall i :: 0 <= i < |Split(index)| ==> Copied(Split(index)[i], index)
    ensures forall i :: 0 <= i < |index| ==> Names(Split(index), index[i].id)
    ensures forall i :: 0 <= i < |index| && index[i].actionable ==> Covered(Split(index), index[i])
  {
    IdsGrouped(index);
    var ids := Ids(index);
    SplitDistinct(index, ids);
    SplitFrom(index, ids);
    forall i | 0 <= i < |index| ensures Names(Split(index), index[i].id) {
      SplitKeeps(index, ids, index[i].id);
    }
    forall i | 0 <= i < |index| && index[i].actionable ensures Covered(Split(index), index[i]) {
      SplitCovers(index, ids, index[i]);
    }
  }

  lemma ResolveDiffers(tid: string, group: seq<Row>)
    requires group != []
    ensures PrefixesDiffer(Resolve(tid, group))
  {
    var live := Live(group);
    if |group| > 1 && |live| > 1 {
      var seen, out := Dedupe(live), Resolve(tid, group);
      DedupeDiffers(live);
      assert forall i :: 0 <= i < |out| ==> out[i].body == seen[i].body;
    }
  }

  /** Rows of one tracker id start differently after the split. */
  ghost predicate ToldApart(rows: seq<Row>) {
    forall i, j :: 0 <= i < j < |rows| && Stem(rows[i].id) == Stem(rows[j].id) ==>
      Prefix(rows[i].body) != Prefix(rows[j].body)
  }

  lemma ToldApartJoined(a: seq<Row>, b: seq<Row>)
    requires ToldApart(a) && PrefixesDiffer(b)
    requires forall i, j :: 0 <= i < |a| && 0 <= j < |b| ==> Stem(a[i].id) != Stem(b[j].id)
    ensures ToldApart(a + b)
  {}

  lemma {:induction false} SplitToldApart(index: seq<Row>, ids: seq<string>)
    requires Grouped(index, ids) && FromTracker(index)
    requires forall i, j :: 0 <= i < j < |ids| ==> ids[i] != ids[j]
    ensures ToldApart(ResolveAll(index, ids))
    decreases |ids|
  {
    if ids != [] {
      var n := |ids| - 1;
      var before, out := ResolveAll(index, ids[..n]), Resolve(ids[n], Rows(index, ids[n]));
      SplitToldApart(index, ids[..n]);
      SplitFrom(index, ids[..n]);
      GroupSettles(index, ids[n]);
      ResolveDiffers(ids[n], Rows(index, ids[n]));
      forall i, j | 0 <= i < |before| && 0 <= j < |out| ensures Stem(before[i].id) != Stem(out[j].id) {
        StemFrom(out[j].id, ids[n]);
        assert ids[n] !in ids[..n];
      }
      ToldApartJoined(before, out);
    }
  }

  /** Exactly one row of the split stands for an actionable tracker row. */
  lemma Representative(index: seq<Row>, r: Row) returns (k: nat)
    requires FromTracker(index) && r in index && r.actionable
    ensures k < |Split(index)| && StandsFor(Split(index)[k], r)
    ensures forall i :: 0 <= i < |Split(index)| && StandsFor(Split(index)[i], r) ==> i == k
  {
    IdsGrouped(index);
    SplitCovers(index, Ids(index), r);
    SplitToldApart(index, Ids(index));
    k :| 0 <= k < |Split(index)| && StandsFor(Split(index)[k], r);
  }

  // ------------------------------------------------------------ one id with several rows

  predicate OneGroup(index: seq<Row>, tid: string) {
    forall i :: 0 <= i < |index| ==> index[i].id == tid && index[i].actionable
  }

  lemma {:induction false} GroupIsAll(index: seq<Row>, tid: string)
    requires OneGroup(index, tid) && PrefixesDiffer(index)
    ensures Rows(index, tid) == index && Live(index) == index && Dedupe(index) == index
    ensures Ids(index) == if index == [] then [] else [tid]
    decreases |index|
  {
    if index != [] {
      var n := |index| - 1;
      assert index == index[..n] + [index[n]];
      GroupIsAll(index[..n], tid);
      assert !Seen(index[..n], index[n].body);
    }
  }

  /** Rows of one id with different bodies are numbered in the order of the tracker. */
  lemma GroupNumbered(index: seq<Row>, tid: string)
    requires OneGroup(index, tid) && PrefixesDiffer(index) && |index| > 1
    ensures Split(index) == Renamed(tid, index)
  {
    GroupIsAll(index, tid);
    IdsGrouped(index);
    assert [tid][..0] == [] && ResolveAll(index, []) == [];
    assert ResolveAll(index, [tid]) == [] + Resolve(tid, index);
  }

  lemma RenamedAt(tid: string, rows: seq<Row>, k: nat)
    requires k < |rows|
    ensures |Renamed(tid, rows)| == |rows|
    ensures Renamed(tid, rows)[k] == if k == 0 then rows[0] else WithId(rows[k], DupId(tid, k + 1))
  {}

  lemma SamePrefixSamePlace(rows: seq<Row>, i: nat, j: nat)
    requires PrefixesDiffer(rows) && i < |rows| && j < |rows| && Prefix(rows[i].body) == Prefix(rows[j].body)
    ensures i == j
  {}

  lemma PlaceInRenamed(rows: seq<Row>, tid: string, k: nat, q: Row)
    requires PrefixesDiffer(rows) && k < |rows| && q in Renamed(tid, rows) && Prefix(q.body) == Prefix(rows[k].body)
    ensures q == if k == 0 then rows[0] else WithId(rows[k], DupId(tid, k + 1))
  {
    var i :| 0 <= i < |Renamed(tid, rows)| && Renamed(tid, rows)[i] == q;
    RenamedAt(tid, rows, i);
    SamePrefixSamePlace(rows, i, k);
  }

  /** The row that stands for the k-th of a group. */
  lemma PlaceInGroup(index: seq<Row>, tid: string, k: nat, q: Row)
    requires OneGroup(index, tid) && PrefixesDiffer(index) && |index| > 1 && k < |index|
    requires q in Split(index) && StandsFor(q, index[k])
    ensures q == if k == 0 then index[0] else WithId(index[k], DupId(tid, k + 1))
  {
    GroupNumbered(index, tid);
    PlaceInRenamed(index, tid, k, q);
  }
}
