/** Page-number arithmetic: the inclusive zero-based row range a page asks
    for, and the number of pages a row count fills. */
module Pagination {

  /** The page asked for when none is given. */
  const DefaultPage: int := 1

  /** The page size used when none is given. */
  const DefaultSize: int := 12

  /** An inclusive range of zero-based row offsets. */
  datatype RowRange = RowRange(first: int, last: int)

  /** The rows of page `page` (counted from 1) at `size` rows a page. The
      arithmetic is unchecked, as `getJobs` does it: any integers are accepted. */
  function PageRange(page: int, size: int): (r: RowRange)
    ensures r.last - r.first + 1 == size
    ensures r.first == (page - 1) * size
    ensures page >= 1 && size >= 0 ==> r.first >= 0
  {
    var start := (page - 1) * size;
    RowRange(start, start + size - 1)
  }

  /** The number of pages of `size` rows that `count` rows fill: the ceiling of
      `count / size`. */
  function TotalPages(count: nat, size: int): (pages: nat)
    requires size >= 1
    ensures (pages - 1) * size < count <= pages * size
    ensures pages == 0 <==> count == 0
  {
    DivMod(count, size);
    if count % size == 0 then count / size else count / size + 1
  }

  /** Euclidean division, spelled out for the solver. */
  lemma DivMod(n: nat, d: int)
    requires d >= 1
    ensures n == (n / d) * d + n % d && 0 <= n % d < d && n / d >= 0
  {
  }

  /** `a * d` grows with `a` for a positive `d`. */
  lemma MulMonotone(a: int, b: int, d: int)
    requires a <= b && d >= 1
    ensures a * d <= b * d
  {
    assert b * d - a * d == (b - a) * d;
  }

  /** The ceiling is the only number of pages bracketing the count. */
  lemma TotalPagesUnique(count: nat, size: int, pages: int)
    requires size >= 1
    requires (pages - 1) * size < count <= pages * size
    ensures pages == TotalPages(count, size)
  {
    var t := TotalPages(count, size);
    if pages < t {
      MulMonotone(pages, t - 1, size);
    } else if pages > t {
      MulMonotone(t, pages - 1, size);
    }
  }

  /** The next page starts on the row after this page ends. */
  lemma NextPageAdjacent(page: int, size: int)
    ensures PageRange(page, size).last + 1 == PageRange(page + 1, size).first
  {
    assert page * size == (page - 1) * size + size;
  }

  /** An earlier page ends before a later page starts, so no row is on two
      pages. */
  lemma PagesDisjoint(p: int, q: int, size: int)
    requires p < q && size >= 1
    ensures PageRange(p, size).last < PageRange(q, size).first
  {
    NextPageAdjacent(p, size);
    MulMonotone(p, q - 1, size);
  }

  /** Every row offset lies on page `row / size + 1`. */
  lemma RowOnPage(row: nat, size: int)
    requires size >= 1
    ensures var p := row / size + 1;
      p >= 1 && PageRange(p, size).first <= row <= PageRange(p, size).last
  {
    DivMod(row, size);
  }

  /** A page from 1 up holds some of `count` rows exactly when it is no later
      than the last page. */
  lemma PageNonEmptyIff(count: nat, size: int, page: int)
    requires size >= 1 && page >= 1
    ensures PageRange(page, size).first < count <==> page <= TotalPages(count, size)
  {
    var t := TotalPages(count, size);
    if page <= t {
      MulMonotone(page - 1, t - 1, size);
    } else {
      MulMonotone(t, page - 1, size);
    }
  }

  /** Page 1 of the default size asks for rows 0 to 11. */
  lemma DefaultRange()
    ensures PageRange(DefaultPage, DefaultSize) == RowRange(0, 11)
  {
  }
}
