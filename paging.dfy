/**
 * The paging arithmetic of `PhantomPanel.applyFilterAndPage`: ten rows a page, at least one
 * page, the current page clamped into range, and the displayed page a slice of the filtered
 * rows. `Math.ceil(total / 10.0)` is integer ceiling division here; for an `int` total the
 * two agree.
 */
module Paging {
  import opened Common

  /** `PAGE_SIZE`. */
  const PageSize: nat := 10

  /** `Math.max(1, ceil(total / PAGE_SIZE))`: the fewest pages that hold `total` rows, and at least one. */
  function PageCount(total: nat): (pages: nat)
    ensures pages >= 1
    ensures total <= pages * PageSize
    ensures pages == 1 || (pages - 1) * PageSize < total
  {
    Max(1, (total + PageSize - 1) / PageSize)
  }

  /** `Math.max(0, Math.min(page, pages - 1))`: a page in range, and a page already in range unchanged. */
  function ClampPage(page: int, pages: nat): (p: nat)
    requires pages >= 1
    ensures p < pages
    ensures 0 <= page < pages ==> p == page
    ensures page < 0 ==> p == 0
    ensures page >= pages ==> p == pages - 1
  {
    Max(0, Min(page, pages - 1))
  }

  /** The slice `rows[from..to)` shown for `page`, with `from = page * 10` and `to = min(from + 10, total)`. */
  function PageOf<T>(rows: seq<T>, page: nat): (r: seq<T>)
    requires page < PageCount(|rows|)
    ensures |r| <= PageSize
    ensures r == [] <==> rows == []
    ensures r == rows[Min(page * PageSize, |rows|)..Min(page * PageSize + PageSize, |rows|)]
  {
    var from := page * PageSize;
    var to := Min(from + PageSize, |rows|);
    if from < to then rows[from..to] else []
  }

  /** The first `n` pages, one after the other. */
  function Pages<T>(rows: seq<T>, n: nat): seq<T>
    requires n <= PageCount(|rows|)
  {
    if n == 0 then [] else Pages(rows, n - 1) + PageOf(rows, n - 1)
  }

  /** The first `n` pages are the first `n * 10` rows. */
  lemma {:induction false} PagesPrefix<T>(rows: seq<T>, n: nat)
    requires n <= PageCount(|rows|)
    ensures Pages(rows, n) == rows[..Min(n * PageSize, |rows|)]
  {
    if n > 0 {
      PagesPrefix(rows, n - 1);
      var a, b := Min((n - 1) * PageSize, |rows|), Min(n * PageSize, |rows|);
      assert rows[..a] + rows[a..b] == rows[..b];
    }
  }

  /** Every page, in order, gives back the filtered rows exactly. */
  lemma PagesCoverRows<T>(rows: seq<T>)
    ensures Pages(rows, PageCount(|rows|)) == rows
  {
    PagesPrefix(rows, PageCount(|rows|));
    assert rows[..|rows|] == rows;
  }
}
