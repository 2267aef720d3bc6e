/** The page state of the dashboard: the branches loaded from the store,
    the ones the filters let through, the page shown and the page size,
    and the values of the three filter controls; with the operations that
    update it (filtering, paging, saving, deleting, clearing, importing)
    and the figures the page displays (the visible rows, the pagination
    counters, the statistics and the CSV export). */
module Dashboard {
  import opened Wrappers
  import opened Records
  import opened Query
  import opened Paging
  import opened Stats
  import opened Store
  import Importer
  import Csv

  /** What importing a file did: a file without rows changes nothing,
      otherwise the counts of imported and skipped rows. */
  datatype ImportResult = NoRows | Imported(added: nat, skipped: nat)

  class Dashboard {
    /** The browser database. */
    const db: BranchStore
    /** `allBranches`: the table, as last loaded. */
    var allBranches: seq<Branch>
    /** `filteredBranches`: what the filters let through. */
    var filteredBranches: seq<Branch>
    /** `currentPage`, counted from 1. */
    var currentPage: int
    /** `pageSize`. */
    var pageSize: nat
    /** The current values of the search box, province list and status list. */
    var controls: FilterControls
    /** The control values `filteredBranches` was computed from. */
    ghost var applied: FilterControls

    /** The loaded branches mirror the store and the page size is positive. */
    ghost predicate Mirrored()
      reads this, db
    {
      db.Valid() && allBranches == db.records && pageSize >= 1
    }

    ghost predicate Valid()
      reads this, db
    {
      && Mirrored()
      && filteredBranches == FilterBranches(allBranches, applied)
      && 1 <= currentPage <= Max(1, TotalPages(|filteredBranches|, pageSize))
      && (controls.province == "" || controls.province in ProvinceList(allBranches))
    }

    /** `initializeApp`: the page size from its list, then the first load,
        with every control empty. */
    constructor(store: BranchStore, size: nat)
      requires store.Valid() && size >= 1
      ensures Valid() && db == store
      ensures allBranches == store.records && filteredBranches == store.records
      ensures currentPage == 1 && pageSize == size && controls == NoFilter
    {
      db := store;
      allBranches := [];
      filteredBranches := [];
      currentPage := 1;
      pageSize := size;
      controls := NoFilter;
      applied := NoFilter;
      new;
      LoadFromDB();
      NoFilterKeepsAll(allBranches);
    }

    /** `refreshUI`: only the province list changes state; it is rebuilt
        from the loaded branches and keeps its value only if that value is
        still offered. */
    method RefreshUI()
      requires Mirrored()
      modifies this
      ensures Mirrored()
      ensures controls == old(controls).(province := ProvinceSelection(ProvinceList(allBranches), old(controls).province))
      ensures allBranches == old(allBranches) && filteredBranches == old(filteredBranches)
      ensures currentPage == old(currentPage) && pageSize == old(pageSize) && applied == old(applied)
    {
      var provinces := ProvinceList(allBranches);
      controls := controls.(province := ProvinceSelection(provinces, controls.province));
    }

    /** `applyFilters`: the loaded branches that pass all three controls, in
        order, and back to the first page. */
    method ApplyFilters()
      requires Mirrored()
      modifies this
      ensures Valid()
      ensures applied == old(controls) && filteredBranches == FilterBranches(allBranches, old(controls))
      ensures currentPage == 1
      ensures controls == old(controls).(province := ProvinceSelection(ProvinceList(allBranches), old(controls).province))
      ensures allBranches == old(allBranches) && pageSize == old(pageSize)
    {
      filteredBranches := FilterBranches(allBranches, controls);
      applied := controls;
      currentPage := 1;
      RefreshUI();
    }

    /** `loadDataFromDB`: every stored record, in key order, then the filters. */
    method LoadFromDB()
      requires db.Valid() && pageSize >= 1
      modifies this
      ensures Valid()
      ensures allBranches == db.records && filteredBranches == FilterBranches(db.records, old(controls))
      ensures currentPage == 1 && pageSize == old(pageSize)
      ensures controls == old(controls).(province := ProvinceSelection(ProvinceList(allBranches), old(controls).province))
    {
      allBranches := db.records;
      ApplyFilters();
    }

    /** The user sets the three controls; their change events run the filters. */
    method ChangeFilters(c: FilterControls)
      requires Valid()
      modifies this
      ensures Valid()
      ensures filteredBranches == FilterBranches(allBranches, c) && currentPage == 1
      ensures allBranches == old(allBranches) && pageSize == old(pageSize)
      ensures controls == c.(province := ProvinceSelection(ProvinceList(allBranches), c.province))
    {
      controls := c;
      ApplyFilters();
    }

    /** `changePageSize`: the new size, back to the first page. */
    method ChangePageSize(size: nat)
      requires Valid() && size >= 1
      modifies this
      ensures Valid()
      ensures pageSize == size && currentPage == 1
      ensures allBranches == old(allBranches) && filteredBranches == old(filteredBranches)
      ensures controls == old(controls) && applied == old(applied)
    {
      pageSize := size;
      currentPage := 1;
    }

    /** `Math.ceil(filteredBranches.length / pageSize)`. */
    function PageCount(): (r: nat)
      requires Valid()
      reads this, db
      ensures r == TotalPages(|filteredBranches|, pageSize)
      ensures 1 <= currentPage <= Max(1, r)
    {
      TotalPages(|filteredBranches|, pageSize)
    }

    /** `goToPage(page)`: the requested page clamped into range. */
    method GoToPage(page: int)
      requires Valid()
      modifies this
      ensures Valid()
      ensures currentPage == ClampPage(page, TotalPages(|filteredBranches|, pageSize))
      ensures allBranches == old(allBranches) && filteredBranches == old(filteredBranches)
      ensures pageSize == old(pageSize) && controls == old(controls) && applied == old(applied)
    {
      var totalPages := TotalPages(|filteredBranches|, pageSize);
      currentPage := ClampPage(page, totalPages);
    }

    /** The first-page button. */
    method GoToFirstPage()
      requires Valid()
      modifies this
      ensures Valid() && currentPage == 1
      ensures allBranches == old(allBranches) && filteredBranches == old(filteredBranches)
      ensures pageSize == old(pageSize) && controls == old(controls) && applied == old(applied)
    {
      GoToPage(1);
    }

    /** The last-page button; with no rows it stays on page 1. */
    method GoToLastPage()
      requires Valid()
      modifies this
      ensures Valid() && currentPage == Max(1, TotalPages(|filteredBranches|, pageSize))
      ensures allBranches == old(allBranches) && filteredBranches == old(filteredBranches)
      ensures pageSize == old(pageSize) && controls == old(controls) && applied == old(applied)
    {
      var totalPages := TotalPages(|filteredBranches|, pageSize);
      GoToPage(totalPages);
    }

    /** `goToPreviousPage`: one page back unless on the first. */
    method GoToPreviousPage()
      requires Valid()
      modifies this
      ensures Valid()
      ensures currentPage == if old(currentPage) > 1 then old(currentPage) - 1 else old(currentPage)
      ensures allBranches == old(allBranches) && filteredBranches == old(filteredBranches)
      ensures pageSize == old(pageSize) && controls == old(controls) && applied == old(applied)
    {
      if currentPage > 1 {
        GoToPage(currentPage - 1);
      }
    }

    /** `goToNextPage`: one page on unless on the last. */
    method GoToNextPage()
      requires Valid()
      modifies this
      ensures Valid()
      ensures var total := TotalPages(|filteredBranches|, pageSize);
        currentPage == if old(currentPage) < total then old(currentPage) + 1 else old(currentPage)
      ensures allBranches == old(allBranches) && filteredBranches == old(filteredBranches)
      ensures pageSize == old(pageSize) && controls == old(controls) && applied == old(applied)
    {
      var totalPages := TotalPages(|filteredBranches|, pageSize);
      if currentPage < totalPages {
        GoToPage(currentPage + 1);
      }
    }

    /** The rows `updateTable` shows: at most one page, never empty while
        some branch passes the filters, each a loaded branch that passes. */
    function PageItems(): (r: seq<Branch>)
      requires Valid()
      reads this, db
      ensures r == PageSlice(filteredBranches, currentPage, pageSize)
      ensures |r| <= pageSize
      ensures filteredBranches != [] ==> |r| >= 1
      ensures forall b :: b in r ==> b in allBranches && Matches(b, applied)
    {
      if filteredBranches != [] then
        PagesInRangeAreFilled(filteredBranches, currentPage, pageSize);
        PageSlice(filteredBranches, currentPage, pageSize)
      else
        PageSlice(filteredBranches, currentPage, pageSize)
    }

    /** `updatePagination`: the counters describe exactly the rows shown. */
    function PageCounters(): (r: Option<PageInfo>)
      requires Valid()
      reads this, db
      ensures r.Some? <==> filteredBranches != []
      ensures r.Some? ==> r.value.totalItems == |filteredBranches|
      ensures r.Some? ==>
        && 1 <= r.value.startItem <= r.value.endItem <= |filteredBranches|
        && r.value.endItem - r.value.startItem + 1 == |PageItems()|
        && PageItems()[0] == filteredBranches[r.value.startItem - 1]
    {
      if filteredBranches != [] then
        PaginationMatchesPage(filteredBranches, currentPage, pageSize);
        Pagination(|filteredBranches|, currentPage, pageSize)
      else
        Pagination(|filteredBranches|, currentPage, pageSize)
    }

    /** `updateStats`, over every loaded branch whatever the filters. */
    function Statistics(): (s: Summary)
      requires Valid()
      reads this, db
      ensures s == Summarize(allBranches)
      ensures s.online == |FilterBranches(allBranches, FilterControls("", "", "online"))|
      ensures s.online + s.offline == s.total == |allBranches| && s.percentage <= 100
    {
      CountIsOnlineFilter(allBranches);
      Summarize(allBranches)
    }

    /** `saveBranch`, after the store write: reload on success, nothing at
        all changes when the form is refused. */
    method SaveBranch(form: Fields, order: seq<string>, editing: Option<Branch>) returns (outcome: SaveOutcome)
      requires Valid() && KeyOrder(form, order)
      modifies this, db
      ensures Valid()
      ensures outcome.MissingStoreCode? <==> StoreCodeKey !in form
      ensures StoreCodeKey in form ==>
        (outcome.Duplicate? <==> IsDuplicateSubmission(old(allBranches), form[StoreCodeKey], EditingId(editing)))
      ensures outcome.MissingStoreCode? || outcome.Duplicate? ==>
        && db.records == old(db.records) && db.nextId == old(db.nextId)
        && allBranches == old(allBranches) && filteredBranches == old(filteredBranches)
        && currentPage == old(currentPage) && controls == old(controls)
      ensures outcome.Added? || outcome.Edited? ==>
        && allBranches == SavedRecords(old(allBranches), old(db.nextId), form, editing)
        && filteredBranches == FilterBranches(allBranches, old(controls)) && currentPage == 1
        && controls == old(controls).(province := ProvinceSelection(ProvinceList(allBranches), old(controls).province))
      ensures pageSize == old(pageSize)
      ensures outcome.Edited? ==> IsEdit(editing) && outcome.changes == ChangeList(editing.value.fields, form, order)
      ensures UniqueCodes(old(allBranches)) ==> UniqueCodes(allBranches)
    {
      ghost var before := allBranches;
      ghost var firstFree := db.nextId;
      outcome := db.Save(form, order, editing);
      if outcome.Added? || outcome.Edited? {
        assert db.records == SavedRecords(before, firstFree, form, editing);
        if UniqueCodes(before) {
          SaveKeepsCodesUnique(before, firstFree, form, editing);
        }
        LoadFromDB();
      }
    }

    /** `deleteBranch`: the record with that key goes, every other stays. */
    method DeleteBranch(id: nat)
      requires Valid()
      modifies this, db
      ensures Valid()
      ensures allBranches == RemoveId(old(allBranches), id)
      ensures forall b :: b in allBranches <==> b in old(allBranches) && b.id != id
      ensures filteredBranches == FilterBranches(allBranches, old(controls)) && currentPage == 1
      ensures pageSize == old(pageSize)
      ensures controls == old(controls).(province := ProvinceSelection(ProvinceList(allBranches), old(controls).province))
    {
      RemoveIdMembers(allBranches, id);
      db.Delete(id);
      LoadFromDB();
    }

    /** `clearAllData`: nothing left in the store or on the page. */
    method ClearAllData()
      requires Valid()
      modifies this, db
      ensures Valid()
      ensures db.records == [] && allBranches == [] && filteredBranches == [] && currentPage == 1
      ensures Statistics() == Summary(0, 0, 0, 0)
      ensures pageSize == old(pageSize)
      ensures controls == old(controls).(province := ProvinceSelection(ProvinceList(allBranches), old(controls).province))
    {
      db.Clear();
      allBranches := [];
      ApplyFilters();
    }

    /** `handleFileUpload` after the file is read: a file without rows only
        refreshes the page; otherwise the store is replaced by the rows that
        import, which are then loaded. */
    method ImportFile(data: seq<seq<string>>) returns (result: ImportResult)
      requires Valid()
      modifies this, db
      ensures Valid()
      ensures result.NoRows? <==> |data| == 0
      ensures result.NoRows? ==>
        && db.records == old(db.records) && db.nextId == old(db.nextId) && allBranches == old(allBranches)
        && filteredBranches == old(filteredBranches) && currentPage == old(currentPage)
      ensures pageSize == old(pageSize)
      ensures controls == old(controls).(province := ProvinceSelection(ProvinceList(allBranches), old(controls).province))
      ensures result.Imported? ==>
        && FieldsOf(allBranches) == Importer.ImportedRecords(data)
        && result.added + result.skipped == |data| - 1 && result.added == |allBranches|
        && result.skipped == Importer.SkippedRows(data)
        && (forall b :: b in allBranches ==> Importer.WellFormedImport(Importer.ColumnMapping, b.fields))
        && filteredBranches == FilterBranches(allBranches, old(controls)) && currentPage == 1
      ensures |data| == 1 ==> result == Imported(0, 0) && db.records == [] && allBranches == []
    {
      if |data| == 0 {
        RefreshUI();
        return NoRows;
      }
      var newBranches, skippedCount := Importer.ProcessData(data);
      db.ReplaceAll(newBranches);
      LoadFromDB();
      result := Imported(|newBranches|, skippedCount);
      if |data| == 1 {
        Importer.HeaderOnlyImportsNothing(data);
      }
      forall b | b in allBranches
        ensures Importer.WellFormedImport(Importer.ColumnMapping, b.fields)
      {
        var k :| 0 <= k < |allBranches| && allBranches[k] == b;
        assert FieldsOf(allBranches)[k] == b.fields;
        assert newBranches[k] in newBranches;
      }
    }

    /** `exportCSV`: nothing without branches; otherwise the text, which
        reads back to the fourteen values of every loaded branch. */
    method ExportCsv() returns (content: Option<string>)
      requires Valid()
      ensures content.Some? <==> allBranches != []
      ensures content.Some? ==> content.value == Csv.CsvContent(allBranches)
      ensures content.Some? ==> Csv.DecodeExport(content.value) == Some(Csv.AllCells(allBranches))
    {
      if |allBranches| == 0 {
        return None;
      }
      var text := Csv.BuildCsv(allBranches);
      Csv.ExportRoundTrip(allBranches);
      content := Some(text);
    }
  }
}
