/** The pagination cursor returned with every page of search results. */
module Pagination {

  /** `getNextOffset`: the offset of the following page, or the sentinel -1
      when no hit lies beyond the current page. */
  function NextOffset(total: int, limit: int, offset: int): (next: int)
    ensures next == -1 || (next == limit + offset && offset + limit < total)
    ensures total > limit + offset ==> next == limit + offset
  {
    if total > limit + offset then limit + offset else -1
  }

  /** For the non-negative page sizes and offsets a client sends, the cursor
      is the sentinel exactly when the page reaches the last hit, and
      otherwise it points strictly inside the result list, at or after the
      current offset. */
  lemma NextOffsetCases(total: int, limit: nat, offset: nat)
    ensures NextOffset(total, limit, offset) == -1 <==> total <= limit + offset
    ensures NextOffset(total, limit, offset) != -1 ==>
      offset <= NextOffset(total, limit, offset) < total
  {
  }

  /** No clamping is done, so a negative page size can make a real cursor
      coincide with the sentinel: with 5 hits, page size -1 and offset 0 the
      client is told there is no further page. */
  lemma NegativeLimitLooksLikeLastPage()
    ensures 5 > -1 + 0 && NextOffset(5, -1, 0) == -1
  {
  }

  /** The offsets a client visits when it starts at `offset` and follows the
      cursor until the sentinel. */
  function Pages(total: int, limit: int, offset: int): (pages: seq<int>)
    requires limit > 0
    ensures |pages| >= 1 && pages[0] == offset
    decreases total - offset
  {
    var next := NextOffset(total, limit, offset);
    if next == -1 then [offset] else [offset] + Pages(total, limit, next)
  }

  /** Following the cursor with a positive page size from a non-negative
      offset reaches every hit from that offset to the last one: each lies on
      some visited page. */
  lemma {:induction false} PagesCover(total: int, limit: int, offset: int, k: int)
    requires limit > 0 && 0 <= offset <= k < total
    ensures exists j ::
      (0 <= j < |Pages(total, limit, offset)| &&
       Pages(total, limit, offset)[j] <= k < Pages(total, limit, offset)[j] + limit)
    decreases total - offset
  {
    var pages := Pages(total, limit, offset);
    var next := NextOffset(total, limit, offset);
    if k < offset + limit {
      assert pages[0] <= k < pages[0] + limit;
    } else {
      assert next == offset + limit && next != -1;
      PagesCover(total, limit, next, k);
      var rest := Pages(total, limit, next);
      assert pages == [offset] + rest;
      var j :| 0 <= j < |rest| && rest[j] <= k < rest[j] + limit;
      assert pages[j + 1] == rest[j];
    }
  }

  /** The visited pages never start beyond the last hit, except a starting
      offset that already does. */
  lemma {:induction false} PagesInRange(total: int, limit: int, offset: int)
    requires limit > 0
    ensures forall j :: 1 <= j < |Pages(total, limit, offset)| ==>
      offset < Pages(total, limit, offset)[j] < total
    decreases total - offset
  {
    var next := NextOffset(total, limit, offset);
    if next != -1 {
      PagesInRange(total, limit, next);
      var rest := Pages(total, limit, next);
      assert Pages(total, limit, offset) == [offset] + rest;
      assert rest[0] == next;
    }
  }
}
