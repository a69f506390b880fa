/** Cursor pagination of the portal's list routes (portal/bff/src/pagination.ts). */
module Pagination {
  import opened Wrappers
  import Base64Url
  import Decimal

  const DEFAULT_PAGE_LIMIT: nat := 100
  const MAX_PAGE_LIMIT: nat := 1000

  /** Largest offset a JavaScript number counts exactly. */
  const SAFE: nat := 0x20_0000_0000_0000

  /** The `limit` of a query: absent, or what `Number` makes of it if that is an integer. */
  datatype Limit = Absent | NotInteger | Whole(value: int)

  function Distance(a: int, b: int): nat {
    if a >= b then a - b else b - a
  }

  /** The allowed limit nearest to the one asked for. */
  function ClampLimit(limit: Limit): (r: nat)
    ensures 1 <= r <= MAX_PAGE_LIMIT
    ensures limit.Whole? ==>
      forall n: nat :: 1 <= n <= MAX_PAGE_LIMIT ==> Distance(limit.value, r) <= Distance(limit.value, n)
  {
    match limit
    case Whole(n) => if n < 1 then 1 else if n > MAX_PAGE_LIMIT then MAX_PAGE_LIMIT else n
    case _ => DEFAULT_PAGE_LIMIT
  }

  function Bytes(digits: string): seq<Base64Url.byte>
    requires forall i :: 0 <= i < |digits| ==> '0' <= digits[i] <= '9'
  {
    if digits == "" then [] else [digits[0] as int as Base64Url.byte] + Bytes(digits[1..])
  }

  /** The numeral the bytes spell, if they are plain digits. */
  function Numeral(b: seq<Base64Url.byte>): (r: Option<string>)
    ensures r.Some? ==> forall i :: 0 <= i < |r.value| ==> '0' <= r.value[i] <= '9'
  {
    if b == [] then Some("")
    else match Numeral(b[1..])
      case Some(s) => if 48 <= b[0] <= 57 then Some([b[0] as int as char] + s) else None
      case None => None
  }

  /** How JavaScript reads any other text as a non-negative integer, if it does. */
  type Reading = seq<Base64Url.byte> -> Option<nat>

  function EncodeCursor(offset: nat): string {
    Base64Url.Encode(Bytes(Decimal.Print(offset)))
  }

  function DecodeCursor(cursor: Option<string>, other: Reading): nat {
    match cursor
    case None => 0
    case Some(c) =>
      if c == "" then 0
      else
        var b := Base64Url.Decode(c);
        var n := Numeral(b);
        if n.Some? && n.value != "" && Decimal.Parse(n.value) < SAFE then Decimal.Parse(n.value)
        else other(b).GetOr(0)
  }

  datatype Page<T> = Page(items: seq<T>, next: Option<string>)

  /** `Array.prototype.slice` for a start that may lie beyond the end. */
  function Slice<T>(items: seq<T>, from: nat, to: nat): seq<T> {
    var lo := if from < |items| then from else |items|;
    var hi := if to < |items| then to else |items|;
    if lo <= hi then items[lo..hi] else []
  }

  function Paginate<T>(items: seq<T>, cursor: Option<string>, limit: nat, other: Reading): Page<T> {
    var start := DecodeCursor(cursor, other);
    var page := Slice(items, start, start + limit);
    var next := start + |page|;
    Page(page, if next < |items| then Some(EncodeCursor(next)) else None)
  }

  // ------------------------------------------------------------ cursors round trip

  lemma {:induction false} NumeralBytes(digits: string)
    requires forall i :: 0 <= i < |digits| ==> '0' <= digits[i] <= '9'
    ensures Numeral(Bytes(digits)) == Some(digits)
  {
    if digits != "" {
      NumeralBytes(digits[1..]);
      assert Bytes(digits)[1..] == Bytes(digits[1..]);
      assert [digits[0]] + digits[1..] == digits;
    }
  }

  /** Every offset that a number can hold exactly comes back from its cursor, however other text is read. */
  lemma CursorRoundTrip(offset: nat, other: Reading)
    requires offset < SAFE
    ensures DecodeCursor(Some(EncodeCursor(offset)), other) == offset
  {
    var digits := Decimal.Print(offset);
    NumeralBytes(digits);
    Base64Url.RoundTrip(Bytes(digits));
    Base64Url.EncodeNonEmpty(Bytes(digits));
    Decimal.ParsePrint(offset);
  }

  // ------------------------------------------------------------ walking the pages

  /** The pages a client gets that follows every cursor. */
  function Walk<T>(items: seq<T>, cursor: Option<string>, limit: nat, other: Reading): seq<seq<T>>
    requires limit >= 1 && |items| <= SAFE
    decreases |items| - StartIn(cursor, |items|, other)
  {
    var page := Paginate(items, cursor, limit, other);
    if page.next == None then [page.items]
    else
      OnePage(items, cursor, limit, other);
      [page.items] + Walk(items, page.next, limit, other)
  }

  function Concat<T>(pages: seq<seq<T>>): seq<T> {
    if pages == [] then [] else pages[0] + Concat(pages[1..])
  }

  /** How many pages of at most `limit` items it takes, and one for an empty list. */
  function PagesFor(n: nat, limit: nat): nat
    requires limit >= 1
  {
    if n == 0 then 1 else (n + limit - 1) / limit
  }

  lemma OneMorePage(n: nat, limit: nat)
    requires 1 <= limit < n
    ensures PagesFor(n, limit) == 1 + PagesFor(n - limit, limit)
  {
    assert (n + limit - 1) / limit == 1 + (n - 1) / limit by { DivStep(n - 1, limit); }
  }

  lemma DivStep(a: nat, d: nat)
    requires d >= 1
    ensures (a + d) / d == a / d + 1
  {
    assert a + d == d * (a / d + 1) + a % d by { assert a == d * (a / d) + a % d; }
    DivUnique(a + d, d, a / d + 1, a % d);
  }

  lemma NextMultiple(d: nat, a: nat, b: nat)
    requires a < b
    ensures d * a + d <= d * b
  {
    if a + 1 < b { NextMultiple(d, a, b - 1); }
  }

  lemma DivUnique(a: nat, d: nat, q: nat, r: nat)
    requires d >= 1 && r < d && a == d * q + r
    ensures a / d == q
  {
    var p := a / d;
    assert d * p <= a < d * p + d;
    if p < q { NextMultiple(d, p, q); }
    if q < p { NextMultiple(d, q, p); }
  }

  /** Where a cursor starts in a list of `n` items. */
  function StartIn(cursor: Option<string>, n: nat, other: Reading): (from: nat)
    ensures from <= n
  {
    var start := DecodeCursor(cursor, other);
    if start < n then start else n
  }

  lemma OnePage<T>(items: seq<T>, cursor: Option<string>, limit: nat, other: Reading)
    requires limit >= 1 && |items| <= SAFE
    ensures var from, page := StartIn(cursor, |items|, other), Paginate(items, cursor, limit, other);
      && (page.next == None ==> page.items == items[from..] && |items| - from <= limit)
      && (page.next.Some? ==> |items| - from > limit && page.items == items[from..from + limit])
      && (page.next.Some? ==> StartIn(page.next, |items|, other) == from + limit)
  {
    var start, page := DecodeCursor(cursor, other), Paginate(items, cursor, limit, other);
    if start < |items| && start + limit < |items| { CursorRoundTrip(start + limit, other); }
  }

  lemma ConcatCons<T>(page: seq<T>, rest: seq<seq<T>>)
    ensures Concat([page] + rest) == page + Concat(rest)
  {
    assert ([page] + rest)[1..] == rest;
  }

  /** As few pages as possible: all but the last are full. */
  ghost predicate Covers<T(!new)>(pages: seq<seq<T>>, items: seq<T>, limit: nat)
    requires limit >= 1
  {
    && Concat(pages) == items && |pages| == PagesFor(|items|, limit)
    && forall i :: 0 <= i < |pages| - 1 ==> |pages[i]| == limit
  }

  lemma CoversOne<T(!new)>(items: seq<T>, limit: nat)
    requires limit >= 1 && |items| <= limit
    ensures Covers([items], items, limit)
  {
    ConcatCons(items, []);
    LastPage(|items|, limit);
  }

  lemma CoversMore<T(!new)>(page: seq<T>, pages: seq<seq<T>>, items: seq<T>)
    requires page != [] && items != [] && Covers(pages, items, |page|)
    ensures Covers([page] + pages, page + items, |page|)
  {
    ConcatCons(page, pages);
    OneMorePage(|page + items|, |page|);
  }

  /** The list cut into pages. */
  function Chunks<T>(items: seq<T>, limit: nat): seq<seq<T>>
    requires limit >= 1
    decreases |items|
  {
    if |items| <= limit then [items] else [items[..limit]] + Chunks(items[limit..], limit)
  }

  lemma {:induction false} ChunksCover<T(!new)>(items: seq<T>, limit: nat)
    requires limit >= 1
    ensures Covers(Chunks(items, limit), items, limit)
    decreases |items|
  {
    if |items| <= limit {
      CoversOne(items, limit);
    } else {
      ChunksCover(items[limit..], limit);
      CoversMore(items[..limit], Chunks(items[limit..], limit), items[limit..]);
      assert items[..limit] + items[limit..] == items;
    }
  }

  lemma ChunksFrom<T>(items: seq<T>, from: nat, limit: nat)
    requires limit >= 1 && from + limit < |items|
    ensures Chunks(items[from..], limit) == [items[from..from + limit]] + Chunks(items[from + limit..], limit)
  {
    assert items[from..][..limit] == items[from..from + limit] && items[from..][limit..] == items[from + limit..];
  }

  lemma {:induction false} WalkIsChunks<T(!new)>(items: seq<T>, cursor: Option<string>, limit: nat, other: Reading)
    requires limit >= 1 && |items| <= SAFE
    ensures Walk(items, cursor, limit, other) == Chunks(items[StartIn(cursor, |items|, other)..], limit)
    decreases |items| - StartIn(cursor, |items|, other)
  {
    var page := Paginate(items, cursor, limit, other);
    OnePage(items, cursor, limit, other);
    if page.next.Some? {
      WalkIsChunks(items, page.next, limit, other);
      ChunksFrom(items, StartIn(cursor, |items|, other), limit);
    }
  }

  /** From any cursor, the walk ends and its pages are the rest of the list. */
  lemma WalkFrom<T(!new)>(items: seq<T>, cursor: Option<string>, limit: nat, other: Reading)
    requires limit >= 1 && |items| <= SAFE
    ensures Covers(Walk(items, cursor, limit, other), items[StartIn(cursor, |items|, other)..], limit)
  {
    WalkIsChunks(items, cursor, limit, other);
    ChunksCover(items[StartIn(cursor, |items|, other)..], limit);
  }

  lemma LastPage(n: nat, limit: nat)
    requires n <= limit && limit >= 1
    ensures PagesFor(n, limit) == 1
  {
    if n > 0 { DivUnique(n + limit - 1, limit, 1, n - 1); }
  }

  /** Following the cursors from the start, with any limit a client may ask for, gives every item
      once, in order, on as few pages as the limit allows. */
  lemma WalkIsTheList<T(!new)>(items: seq<T>, asked: Limit, other: Reading)
    requires |items| <= SAFE
    ensures var pages, limit := Walk(items, None, ClampLimit(asked), other), ClampLimit(asked);
      && Concat(pages) == items && |pages| == PagesFor(|items|, limit)
      && forall i :: 0 <= i < |pages| - 1 ==> |pages[i]| == limit
  {
    WalkFrom(items, None, ClampLimit(asked), other);
    assert items[0..] == items;
  }
}
