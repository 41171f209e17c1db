/**
 * The state `PhantomPanel` keeps between events, without any widget: the loaded rows, the
 * search text, the filtered rows, the current page and the two counter labels, plus the
 * table model the current page is shown in. The work the panel posts to the thread pool
 * or to the event thread is run here in line, one event at a time.
 */
module Panel {
  import opened Common
  import opened JavaString
  import opened Schema
  import opened Runtime
  import opened FakeRows
  import opened Reconciler
  import opened RowFilter
  import opened TableModel
  import opened Paging

  /** The rows of `rows` that are online, counted. */
  function OnlineRows(rows: seq<FakeRow>): nat {
    if rows == [] then 0 else OnlineRows(rows[..|rows| - 1]) + (if rows[|rows| - 1].online then 1 else 0)
  }

  /** The rows of `rows` that are offline, counted. */
  function OfflineRows(rows: seq<FakeRow>): nat {
    if rows == [] then 0 else OfflineRows(rows[..|rows| - 1]) + (if rows[|rows| - 1].online then 0 else 1)
  }

  /** Every row is online or offline: the two counts add up to the number of rows. */
  lemma {:induction false} CountsAddUp(rows: seq<FakeRow>)
    ensures OnlineRows(rows) + OfflineRows(rows) == |rows|
  {
    if rows != [] {
      CountsAddUp(rows[..|rows| - 1]);
    }
  }

  /** The counting loop of `refreshSafe`. */
  method CountOnline(rows: seq<FakeRow>) returns (online: nat)
    ensures online == OnlineRows(rows)
  {
    online := 0;
    for i := 0 to |rows|
      invariant online == OnlineRows(rows[..i])
    {
      assert rows[..i + 1][..i] == rows[..i];
      if rows[i].online {
        online := online + 1;
      }
    }
    assert rows[..|rows|] == rows;
  }

  class PhantomPanel {
    /** `allRows`: the rows of the last refresh. */
    var allRows: seq<FakeRow>
    /** `filtered`: the rows the search keeps. */
    var filtered: seq<FakeRow>
    /** `filterText`: the trimmed search text. */
    var filterText: string
    /** `currentPage`. */
    var currentPage: int
    /** The numbers on the "Online" and "Offline" cards. */
    var onlineLabel: nat
    var offlineLabel: nat
    /** The table model showing the current page. */
    const model: FakeTableModel

    /** The current page is always one of the pages of the filtered rows. */
    ghost predicate Valid()
      reads this
    {
      0 <= currentPage < PageCount(|filtered|)
    }

    constructor ()
      ensures Valid()
      ensures allRows == [] && filtered == [] && filterText == "" && currentPage == 0
      ensures onlineLabel == 0 && offlineLabel == 0
      ensures fresh(model) && model.data == [] && model.pinned == {}
    {
      allRows := [];
      filtered := [];
      filterText := "";
      currentPage := 0;
      onlineLabel := 0;
      offlineLabel := 0;
      model := new FakeTableModel();
    }

    /** `getFilteredIds`: the ids of the filtered rows, in their order. */
    method GetFilteredIds() returns (ids: seq<int>)
      ensures ids == RowIds(filtered)
    {
      ids := [];
      for i := 0 to |filtered|
        invariant ids == RowIds(filtered[..i])
      {
        ids := ids + [filtered[i].objectId];
      }
      assert filtered[..|filtered|] == filtered;
    }

    /** `onSearchChanged`: the text is stored trimmed (null as "") and the view goes back to the first page. */
    method OnSearchChanged(text: Option<string>)
      modifies this
      ensures filterText == (if text.Some? then Trim(text.value) else "")
      ensures currentPage == 0
      ensures Valid()
      ensures allRows == old(allRows) && filtered == old(filtered)
      ensures onlineLabel == old(onlineLabel) && offlineLabel == old(offlineLabel)
    {
      filterText := if text.Some? then Trim(text.value) else "";
      currentPage := 0;
    }

    /**
     * `applyFilterAndPage`: filter the loaded rows, clamp the current page into the pages of
     * the result, and show that page; the pins are kept.
     */
    method ApplyFilterAndPage()
      modifies this, model
      ensures Valid()
      ensures filtered == Filtered(allRows, Some(filterText))
      ensures currentPage == ClampPage(old(currentPage), PageCount(|filtered|))
      ensures model.data == PageOf(filtered, currentPage)
      ensures model.pinned == old(model.pinned)
      ensures allRows == old(allRows) && filterText == old(filterText)
      ensures onlineLabel == old(onlineLabel) && offlineLabel == old(offlineLabel)
    {
      filtered := Filter(allRows, Some(filterText));
      FilteredCases(allRows, Some(filterText));
      var total := |filtered|;
      var pages := PageCount(total);
      currentPage := ClampPage(currentPage, pages);
      var from := currentPage * PageSize;
      var to := Min(from + PageSize, total);
      var page := if from < to then filtered[from..to] else [];
      model.SetData(page);
    }

    /** The pager's callback: go to the page it reports, then filter and page again. */
    method GoToPage(page: int)
      modifies this, model
      ensures Valid()
      ensures currentPage == ClampPage(page, PageCount(|filtered|))
      ensures filtered == Filtered(allRows, Some(filterText))
      ensures model.data == PageOf(filtered, currentPage)
      ensures model.pinned == old(model.pinned)
      ensures allRows == old(allRows) && filterText == old(filterText)
      ensures onlineLabel == old(onlineLabel) && offlineLabel == old(offlineLabel)
    {
      currentPage := page;
      ApplyFilterAndPage();
    }

    /**
     * `refreshSafe`: load the rows, count the online ones, show both counts, keep the rows
     * and filter and page again. The load's inputs are those of `LoadAllRows`.
     */
    method RefreshSafe(world: World, batches: seq<seq<Character>>, failure: Option<nat>, liveOrder: seq<int>, values: seq<string>)
      requires IsEnumeration(liveOrder, world.live.Keys)
      modifies this, model
      ensures allRows == Reconciled(Processed(batches, failure), world.live, liveOrder, values)
      ensures onlineLabel == OnlineRows(allRows) && offlineLabel == OfflineRows(allRows)
      ensures onlineLabel + offlineLabel == |allRows|
      ensures Valid()
      ensures filterText == old(filterText)
      ensures filtered == Filtered(allRows, Some(filterText))
      ensures currentPage == ClampPage(old(currentPage), PageCount(|filtered|))
      ensures model.data == PageOf(filtered, currentPage)
      ensures model.pinned == old(model.pinned)
    {
      var loaded := LoadAllRows(world, batches, failure, liveOrder, values);
      var online := CountOnline(loaded);
      CountsAddUp(loaded);
      var offline := Max(0, |loaded| - online);
      allRows := loaded;
      onlineLabel := online;
      offlineLabel := offline;
      ApplyFilterAndPage();
    }
  }
}
