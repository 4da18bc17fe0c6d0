/** Walking a listing page by page. The rows are one fixed, sorted query result. */
module Paging {
  import opened Wrappers
  import opened Cursor

  datatype Page<T> = Page(items: seq<T>, hasMore: bool, next: string)

  /** A limit outside 1..200 means the default. */
  function EffectiveLimit(limit: int): (l: nat)
    ensures 1 <= l <= 200
  {
    if limit < 1 || limit > 200 then 50 else limit
  }

  /** LIMIT n OFFSET m over the sorted result. */
  function Slice<T>(rows: seq<T>, offset: nat, n: nat): seq<T> {
    if offset >= |rows| then []
    else if offset + n >= |rows| then rows[offset..]
    else rows[offset..offset + n]
  }

  function PageAt<T>(rows: seq<T>, offset: nat, limit: nat): Page<T> {
    Page(Slice(rows, offset, limit), offset + limit < |rows|,
         if offset + limit < |rows| then NextCursor(offset + limit) else "")
  }

  /** One row beyond the page says whether there is more, and no more than that. */
  lemma OneMoreRow<T>(rows: seq<T>, offset: nat, size: nat)
    ensures var found := Slice(rows, offset, size + 1);
            && (|found| > size <==> offset + size < |rows|)
            && Slice(rows, offset, size) == if |found| > size then found[..size] else found
  {
  }

  /** SearchCustomers: ask for one row more than the page holds, keep the page, and
      let the extra row only say that there is more. */
  method FetchPage<T>(rows: seq<T>, cursor: string, limit: int) returns (r: Result<Page<T>, ()>)
    ensures r == match ParseCursor(cursor) {
                   case Err(e) => Err(e)
                   case Ok(offset) => Ok(PageAt(rows, offset, EffectiveLimit(limit)))
                 }
  {
    var size := EffectiveLimit(limit);
    var parsed := ParseCursor(cursor);
    if parsed.Err? {
      return Err(());
    }
    var offset := parsed.value;
    var found := Slice(rows, offset, size + 1);
    var items := [];
    for i := 0 to |found|
      invariant items == found[..i]
    {
      items := items + [found[i]];
    }
    assert items == found;
    OneMoreRow(rows, offset, size);
    var has := |items| > size;
    if has {
      items := items[..size];
    }
    var next := "";
    if has {
      next := NextCursor(offset + size);
    }
    return Ok(Page(items, has, next));
  }

  /** The page at an offset holds the rows from there on, as many as were asked for if
      that is 1 to 200 and 50 otherwise, and says whether rows are left behind it. */
  lemma PageIsWindow<T>(rows: seq<T>, offset: nat, limit: int)
    ensures var size := if 1 <= limit <= 200 then limit else 50;
            var page := PageAt(rows, offset, EffectiveLimit(limit));
            && |page.items| == (if offset >= |rows| then 0 else if offset + size > |rows| then |rows| - offset else size)
            && (forall i | 0 <= i < |page.items| :: page.items[i] == rows[offset + i])
            && (page.hasMore <==> offset + size < |rows|) && (page.next != "" <==> page.hasMore)
  {
  }

  /** The pages a caller collects by passing each cursor back, from an offset on. */
  ghost function WalkFrom<T>(rows: seq<T>, offset: nat, limit: int): seq<T>
    requires |rows| <= MAX_INT
    decreases |rows| - offset
  {
    var page := PageAt(rows, offset, EffectiveLimit(limit));
    if page.hasMore then
      CursorRoundTrip(offset + EffectiveLimit(limit));
      page.items + WalkFrom(rows, ParseCursor(page.next).value, limit)
    else page.items
  }

  ghost function Walk<T>(rows: seq<T>, cursor: string, limit: int): seq<T>
    requires |rows| <= MAX_INT && ParseCursor(cursor).Ok?
  {
    WalkFrom(rows, ParseCursor(cursor).value, limit)
  }

  /** The pages from an offset on, laid end to end. */
  function Pages<T>(rows: seq<T>, offset: nat, size: nat): seq<T>
    requires size > 0
    decreases |rows| - offset
  {
    if offset + size < |rows| then Slice(rows, offset, size) + Pages(rows, offset + size, size)
    else Slice(rows, offset, size)
  }

  lemma {:induction false} PagesJoin<T>(rows: seq<T>, offset: nat, size: nat)
    requires size > 0
    ensures Pages(rows, offset, size) == if offset < |rows| then rows[offset..] else []
    decreases |rows| - offset
  {
    if offset + size < |rows| {
      PagesJoin(rows, offset + size, size);
      assert rows[offset..offset + size] + rows[offset + size..] == rows[offset..];
    }
  }

  lemma {:induction false} WalkIsPages<T>(rows: seq<T>, offset: nat, limit: int)
    requires |rows| <= MAX_INT
    ensures WalkFrom(rows, offset, limit) == Pages(rows, offset, EffectiveLimit(limit))
    decreases |rows| - offset
  {
    var next := offset + EffectiveLimit(limit);
    if next < |rows| {
      CursorRoundTrip(next);
      WalkIsPages(rows, next, limit);
    }
  }

  /** From the empty cursor, with any limit: every row once, in order, and an end. */
  lemma WalkVisitsEverythingOnce<T>(rows: seq<T>, limit: int)
    requires |rows| <= MAX_INT
    ensures ParseCursor("").Ok? && Walk(rows, "", limit) == rows
  {
    assert ParseCursor("") == Ok(0);
    WalkIsPages(rows, 0, limit);
    PagesJoin(rows, 0, EffectiveLimit(limit));
    assert rows[0..] == rows;
  }

  /** No page of a walk is empty unless the listing is. */
  lemma PagesMakeProgress<T>(rows: seq<T>, offset: nat, limit: int)
    requires offset < |rows| <= MAX_INT
    ensures var page := PageAt(rows, offset, EffectiveLimit(limit));
            && 1 <= |page.items| <= EffectiveLimit(limit)
            && (page.hasMore ==> ParseCursor(page.next) == Ok(offset + |page.items|))
  {
    var size := EffectiveLimit(limit);
    if offset + size < |rows| {
      CursorRoundTrip(offset + size);
    }
  }
}
