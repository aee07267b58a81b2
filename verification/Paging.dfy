/** Cursor paging of the accounting lists: the cursor is a base64-encoded decimal offset. */
module Paging {
  import opened Options
  import Decimal
  import Base64

  function AsBytes(s: string): seq<Base64.Byte>
    requires forall i :: 0 <= i < |s| ==> s[i] < 128 as char
  {
    seq(|s|, i requires 0 <= i < |s| => s[i] as int)
  }

  function AsString(bs: seq<Base64.Byte>): string {
    seq(|bs|, i requires 0 <= i < |bs| => bs[i] as char)
  }

  /** base64.b64encode(str(offset).encode()).decode() */
  function CursorFor(offset: nat): string {
    Decimal.ValueOfText(offset);
    Base64.Encode(AsBytes(Decimal.Text(offset)))
  }

  /** The offset of a cursor; a missing, empty or unreadable cursor starts at 0. */
  function Offset(cursor: Option<string>): nat {
    if cursor.None? || cursor.value == "" then 0
    else match Base64.Decode(cursor.value)
      case None => 0
      case Some(bs) =>
        var s := AsString(bs);
        if s != [] && Decimal.AllDigits(s) then Decimal.Value(s) else 0
  }

  lemma CursorRoundTrip(offset: nat)
    ensures Offset(Some(CursorFor(offset))) == offset
  {
    var s := Decimal.Text(offset);
    Decimal.ValueOfText(offset);
    Base64.DecodeEncode(AsBytes(s));
    assert AsString(AsBytes(s)) == s;
    assert CursorFor(offset) != "";
  }

  datatype Page<T> = Page(items: seq<T>, nextCursor: Option<string>, hasMore: bool)

  function Min(a: nat, b: nat): nat { if a < b then a else b }

  /** results[offset : offset + size] and the cursor behind it. */
  function PageAt<T>(results: seq<T>, cursor: Option<string>, size: nat): Page<T> {
    var offset := Offset(cursor);
    var next := offset + size;
    var hasMore := next < |results|;
    Page(results[Min(offset, |results|)..Min(next, |results|)],
         if hasMore then Some(CursorFor(next)) else None, hasMore)
  }

  function Left<T>(results: seq<T>, cursor: Option<string>): nat {
    if Offset(cursor) < |results| then |results| - Offset(cursor) else 0
  }

  /** A client that follows next_cursor until has_more is false: its items and number of calls. */
  function Crawl<T>(results: seq<T>, cursor: Option<string>, size: nat): (seq<T>, nat)
    requires size >= 1
    decreases Left(results, cursor)
  {
    var page := PageAt(results, cursor, size);
    if !page.hasMore then (page.items, 1)
    else
      CursorRoundTrip(Offset(cursor) + size);
      var (items, calls) := Crawl(results, page.nextCursor, size);
      (page.items + items, calls + 1)
  }

  /** So many calls of this size are just enough for what is left; one call is made for nothing. */
  predicate Covers(calls: nat, size: nat, left: nat) {
    calls >= 1 && (calls - 1) * size < (if left == 0 then 1 else left) <= calls * size
  }

  lemma OneMoreCall(calls: nat, size: nat, left: nat)
    requires left > 0 && Covers(calls, size, left)
    ensures Covers(calls + 1, size, left + size)
  {
    assert (calls + 1) * size == calls * size + size;
    assert calls * size == (calls - 1) * size + size;
  }

  lemma SplitAt<T>(s: seq<T>, i: nat, j: nat)
    requires i <= j <= |s|
    ensures s[i..j] + s[j..] == s[i..]
  {}

  lemma {:induction false} CrawlItems<T>(results: seq<T>, cursor: Option<string>, size: nat)
    requires size >= 1 && Offset(cursor) <= |results|
    ensures Crawl(results, cursor, size).0 == results[Offset(cursor)..]
    decreases Left(results, cursor)
  {
    var offset := Offset(cursor);
    var page := PageAt(results, cursor, size);
    if page.hasMore {
      CursorRoundTrip(offset + size);
      CrawlItems(results, page.nextCursor, size);
      SplitAt(results, offset, offset + size);
    } else {
      assert results[offset..|results|] == results[offset..];
    }
  }

  lemma {:induction false} CrawlCalls<T>(results: seq<T>, cursor: Option<string>, size: nat)
    requires size >= 1 && Offset(cursor) <= |results|
    ensures Covers(Crawl(results, cursor, size).1, size, |results| - Offset(cursor))
    decreases Left(results, cursor)
  {
    var offset := Offset(cursor);
    var page := PageAt(results, cursor, size);
    if page.hasMore {
      CursorRoundTrip(offset + size);
      CrawlCalls(results, page.nextCursor, size);
      OneMoreCall(Crawl(results, page.nextCursor, size).1, size, |results| - offset - size);
    }
  }

  /** ceil(n / size) */
  function Pages(n: nat, size: nat): nat
    requires size >= 1
  {
    (n + size - 1) / size
  }

  lemma Monotone(a: int, b: int, size: nat)
    ensures a <= b ==> a * size <= b * size
  {}

  lemma CeilingIs(n: nat, size: nat, c: nat)
    requires size >= 1 && c >= 1 && (c - 1) * size < n <= c * size
    ensures Pages(n, size) == c
  {
    var x := n + size - 1;
    var q, r := x / size, x % size;
    assert x == q * size + r;
    assert c * size == (c - 1) * size + size;
    assert (c + 1) * size == c * size + size;
    Monotone(q, c - 1, size);
    Monotone(c + 1, q, size);
  }

  /** From no cursor, a crawl returns the whole list once, in max(1, ceil(n / size)) calls. */
  lemma CrawlReturnsEverything<T>(results: seq<T>, size: nat)
    requires size >= 1
    ensures Crawl(results, None, size).0 == results
    ensures Crawl(results, None, size).1 == if results == [] then 1 else Pages(|results|, size)
  {
    CrawlItems(results, None, size);
    CrawlCalls(results, None, size);
    var calls := Crawl(results, None, size).1;
    CeilingIs(if results == [] then 1 else |results|, size, calls);
    if results == [] {
      CeilingIs(1, size, 1);
    }
  }

  /** Without a cursor, with an empty one or one that cannot be read, a page starts at the beginning. */
  lemma BadCursorStartsOver<T>(results: seq<T>, cursor: Option<string>, size: nat)
    requires cursor.None? || cursor.value == "" || Base64.Decode(cursor.value).None?
             || !Decimal.AllDigits(AsString(Base64.Decode(cursor.value).value))
    ensures PageAt(results, cursor, size) == PageAt(results, None, size)
  {}
}
