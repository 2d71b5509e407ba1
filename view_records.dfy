/** The record list page: a conjunctive filter (free-text search, status,
    cost bucket, plate), a date sort, pages of five, and the page state that
    the filter controls, the page buttons and deletion update. */
module ViewRecords {
  import opened Common
  import opened Records
  import opened Sorting
  import opened Sequences

  /** `recordsPerPage`. */
  const PageSize: nat := 5

  /** Cost bucket bounds, in cents ($100 and $500). */
  const LowLimit: int := 10000
  const HighLimit: int := 50000

  // ---------------------------------------------------------------------------
  // Plate options

  function Plates(rs: seq<Record>): (r: seq<string>)
    ensures |r| == |rs| && forall i :: 0 <= i < |rs| ==> r[i] == rs[i].carPlate
  {
    if rs == [] then [] else [rs[0].carPlate] + Plates(rs[1..])
  }

  /** The plate drop-down: every plate that some record carries, once each,
      in increasing order. */
  function PlateNumbers(rs: seq<Record>): (r: seq<string>)
    ensures StrictlySorted(r)
    ensures forall p :: p in r <==> exists i :: 0 <= i < |rs| && rs[i].carPlate == p
  {
    var plates := Plates(rs);
    var r := SortedDistinct(plates);
    assert forall p :: p in plates <==> exists i :: 0 <= i < |rs| && rs[i].carPlate == p by {
      forall p ensures p in plates <==> exists i :: 0 <= i < |rs| && rs[i].carPlate == p {
        if p in plates {
          var i :| 0 <= i < |plates| && plates[i] == p;
          assert rs[i].carPlate == p;
        }
      }
    }
    r
  }

  // ---------------------------------------------------------------------------
  // Filter

  datatype Filters = Filters(
    searchTerm: string,
    statusFilter: string,
    costFilter: string,
    dateFilter: string,
    plateFilter: string)

  predicate PartMatches(p: Part, loweredTerm: string)
  {
    Contains(Lower(p.partType), loweredTerm) || Contains(Lower(p.brandName), loweredTerm)
  }

  /** Case-insensitive substring search over the driver, plate, model and the
      type and brand of every part. */
  predicate MatchesSearch(r: Record, term: string)
  {
    var t := Lower(term);
    Contains(Lower(r.driverName), t) || Contains(Lower(r.carPlate), t) || Contains(Lower(r.carModel), t)
    || exists i :: 0 <= i < |r.parts| && PartMatches(r.parts[i], t)
  }

  predicate MatchesStatus(r: Record, statusFilter: string)
  {
    statusFilter == "all" || r.status == statusFilter
  }

  predicate MatchesCost(r: Record, costFilter: string)
  {
    costFilter == "all"
    || (costFilter == "low" && r.totalCost < LowLimit)
    || (costFilter == "medium" && LowLimit <= r.totalCost <= HighLimit)
    || (costFilter == "high" && r.totalCost > HighLimit)
  }

  predicate MatchesPlate(r: Record, plateFilter: string)
  {
    plateFilter == "all" || r.carPlate == plateFilter
  }

  predicate Keep(r: Record, f: Filters)
  {
    MatchesSearch(r, f.searchTerm) && MatchesStatus(r, f.statusFilter)
    && MatchesCost(r, f.costFilter) && MatchesPlate(r, f.plateFilter)
  }

  function Matcher(f: Filters): Record -> bool
  {
    (r: Record) => Keep(r, f)
  }

  /** `filteredRecords`. */
  function FilterRecords(rs: seq<Record>, f: Filters): seq<Record>
  {
    Filter(rs, Matcher(f))
  }

  /** The filtered list is the order-preserving subsequence of the records
      that pass all four tests: every passing record keeps all its copies,
      every other record is dropped. */
  lemma FilteredExactly(rs: seq<Record>, f: Filters)
    ensures IsSubsequence(FilterRecords(rs, f), rs)
    ensures forall x :: x in FilterRecords(rs, f) <==> x in rs && Keep(x, f)
    ensures forall x :: multiset(FilterRecords(rs, f))[x] == if Keep(x, f) then multiset(rs)[x] else 0
  {
    FilterIsSubsequence(rs, Matcher(f));
    forall x ensures x in FilterRecords(rs, f) <==> x in rs && Keep(x, f) {
      FilterMembers(rs, Matcher(f), x);
    }
    forall x ensures multiset(FilterRecords(rs, f))[x] == if Keep(x, f) then multiset(rs)[x] else 0 {
      FilterMultiset(rs, Matcher(f), x);
    }
  }

  /** Filtering the filtered list again with the same settings returns it
      unchanged. */
  lemma RefilterUnchanged(rs: seq<Record>, f: Filters)
    ensures FilterRecords(FilterRecords(rs, f), f) == FilterRecords(rs, f)
  {
    FilterIdempotent(rs, Matcher(f));
  }

  /** An empty search term matches every record. */
  lemma EmptySearchMatchesAll(r: Record)
    ensures MatchesSearch(r, "")
  {
    assert Lower("") == "";
    ContainsEmpty(Lower(r.driverName));
  }

  /** The search ignores the case of the term. */
  lemma SearchIgnoresCase(r: Record, term: string)
    ensures MatchesSearch(r, term) <==> MatchesSearch(r, Lower(term))
  {
    LowerIdempotent(term);
  }

  /** "lexus" finds a record whose model is "Lexus". */
  lemma SearchLexusExample(r: Record)
    requires r.carModel == "Lexus"
    ensures MatchesSearch(r, "lexus")
  {
    assert Lower("lexus") == "lexus";
    assert Lower("Lexus") == "lexus";
    assert IsPrefix("lexus", "lexus");
  }

  /** The cost buckets split the costs with no gap and no overlap; $100 is
      medium, $500 is medium, anything in between as well. */
  lemma CostBuckets(r: Record)
    ensures MatchesCost(r, "low") <==> r.totalCost < 10000
    ensures MatchesCost(r, "medium") <==> 10000 <= r.totalCost <= 50000
    ensures MatchesCost(r, "high") <==> r.totalCost > 50000
    ensures MatchesCost(r, "all")
    ensures (MatchesCost(r, "low") && !MatchesCost(r, "medium") && !MatchesCost(r, "high"))
         || (!MatchesCost(r, "low") && MatchesCost(r, "medium") && !MatchesCost(r, "high"))
         || (!MatchesCost(r, "low") && !MatchesCost(r, "medium") && MatchesCost(r, "high"))
  {
  }

  /** Status and plate are compared exactly: the "completed" option does not
      select a record saved with status "Completed". */
  lemma StatusIsCaseSensitive(r: Record)
    requires r.status == "Completed"
    ensures !MatchesStatus(r, "completed")
    ensures MatchesStatus(r, "all") && MatchesStatus(r, "Completed")
  {
    assert r.status[0] != "completed"[0];
  }

  // ---------------------------------------------------------------------------
  // Sort

  function NewestFirstKey(r: Record): int { -Timestamp(r.date) }

  function OldestFirstKey(r: Record): int { Timestamp(r.date) }

  /** `sortedRecords`: newest first for "newest", oldest first for any other
      value. The sort is stable: records with the same key keep their
      filtered order. */
  function SortRecords(rs: seq<Record>, dateFilter: string): (r: seq<Record>)
    ensures multiset(r) == multiset(rs)
    ensures dateFilter == "newest" ==>
      forall i, j :: 0 <= i < j < |r| ==> Timestamp(r[i].date) >= Timestamp(r[j].date)
    ensures dateFilter != "newest" ==>
      forall i, j :: 0 <= i < j < |r| ==> Timestamp(r[i].date) <= Timestamp(r[j].date)
    ensures dateFilter == "newest" ==> forall k :: WithKey(r, NewestFirstKey, k) == WithKey(rs, NewestFirstKey, k)
    ensures dateFilter != "newest" ==> forall k :: WithKey(r, OldestFirstKey, k) == WithKey(rs, OldestFirstKey, k)
  {
    var key := if dateFilter == "newest" then NewestFirstKey else OldestFirstKey;
    var r := SortBy(rs, key);
    assert forall i, j :: 0 <= i < j < |r| ==> key(r[i]) <= key(r[j]);
    assert forall k :: WithKey(r, key, k) == WithKey(rs, key, k) by {
      forall k ensures WithKey(r, key, k) == WithKey(rs, key, k) {
        SortByIsStable(rs, key, k);
      }
    }
    r
  }

  /** Whatever the order chosen, the records of one date keep their filtered
      order. */
  lemma SortRecordsKeepsDateOrder(rs: seq<Record>, dateFilter: string, t: int)
    ensures WithKey(SortRecords(rs, dateFilter), OldestFirstKey, t) == WithKey(rs, OldestFirstKey, t)
  {
    if dateFilter == "newest" {
      SameDateRuns(SortRecords(rs, dateFilter), rs, t);
    }
  }

  /** Newest-first key `-t` picks out the same records as date `t`. */
  lemma {:induction false} NewestKeyPicksDate(rs: seq<Record>, t: int)
    ensures WithKey(rs, NewestFirstKey, -t) == WithKey(rs, OldestFirstKey, t)
  {
    if rs != [] {
      NewestKeyPicksDate(rs[..|rs| - 1], t);
    }
  }

  /** Lists that agree on the records of newest-first key `-t` agree on the
      records of date `t`. */
  lemma SameDateRuns(r: seq<Record>, rs: seq<Record>, t: int)
    requires WithKey(r, NewestFirstKey, -t) == WithKey(rs, NewestFirstKey, -t)
    ensures WithKey(r, OldestFirstKey, t) == WithKey(rs, OldestFirstKey, t)
  {
    NewestKeyPicksDate(r, t);
    NewestKeyPicksDate(rs, t);
  }

  // ---------------------------------------------------------------------------
  // Pages

  /** How `Array.prototype.slice` reads an index: negative counts from the end,
      and the result is clamped to the list. */
  function SliceIndex(x: int, n: nat): (r: nat)
    ensures r <= n
  {
    if x < 0 then (if n + x < 0 then 0 else n + x) else if x < n then x else n
  }

  function Slice<T>(s: seq<T>, start: int, end: int): seq<T>
  {
    var a, b := SliceIndex(start, |s|), SliceIndex(end, |s|);
    if a < b then s[a..b] else []
  }

  /** `currentRecords`: `sorted.slice((page - 1) * 5, page * 5)`. */
  function PageOf<T>(s: seq<T>, page: int): seq<T>
  {
    Slice(s, (page - 1) * PageSize, page * PageSize)
  }

  /** `Math.ceil(n / 5)`. */
  function TotalPages(n: nat): nat
  {
    (n + PageSize - 1) / PageSize
  }

  function Min(a: int, b: int): int { if a < b then a else b }

  /** Page p (from 1) is the slice of positions [(p-1)*5, p*5) cut to the
      list, so it never holds more than five records. */
  lemma PageIsSlice<T>(s: seq<T>, page: int)
    requires page >= 1
    ensures PageOf(s, page) == s[Min((page - 1) * PageSize, |s|)..Min(page * PageSize, |s|)]
    ensures |PageOf(s, page)| <= PageSize
  {
  }

  /** The page count is the least number of five-record pages that hold the
      list; no records means no pages. */
  lemma TotalPagesIsCeiling(n: nat)
    ensures n == 0 <==> TotalPages(n) == 0
    ensures PageSize * TotalPages(n) >= n
    ensures n > 0 ==> PageSize * (TotalPages(n) - 1) < n
  {
  }

  /** Pages 1..k laid end to end. */
  function Pages<T>(s: seq<T>, k: nat): seq<T>
  {
    if k == 0 then [] else Pages(s, k - 1) + PageOf(s, k)
  }

  lemma {:induction false} PagesArePrefix<T>(s: seq<T>, k: nat)
    ensures Pages(s, k) == s[..Min(k * PageSize, |s|)]
  {
    if k > 0 {
      PagesArePrefix(s, k - 1);
      PageIsSlice(s, k);
      var a, b := Min((k - 1) * PageSize, |s|), Min(k * PageSize, |s|);
      assert s[..a] + s[a..b] == s[..b];
    }
  }

  /** Pages 1..totalPages put together give back the sorted list, each record
      exactly once, every page but the last full and the last one non-empty;
      any page past the last is empty. */
  lemma PagesPartition<T>(s: seq<T>)
    ensures Pages(s, TotalPages(|s|)) == s
    ensures forall p :: 1 <= p < TotalPages(|s|) ==> |PageOf(s, p)| == PageSize
    ensures TotalPages(|s|) > 0 ==> 1 <= |PageOf(s, TotalPages(|s|))| <= PageSize
    ensures forall p :: p > TotalPages(|s|) ==> PageOf(s, p) == []
  {
    var t := TotalPages(|s|);
    TotalPagesIsCeiling(|s|);
    PagesArePrefix(s, t);
    assert s[..|s|] == s;
    forall p | 1 <= p < t ensures |PageOf(s, p)| == PageSize {
      PageIsSlice(s, p);
    }
    if t > 0 {
      PageIsSlice(s, t);
    }
    forall p | p > t ensures PageOf(s, p) == [] {
      PageIsSlice(s, p);
    }
  }

  /** "Previous": `Math.max(page - 1, 1)`. */
  function PreviousPage(page: int): int
  {
    if page - 1 > 1 then page - 1 else 1
  }

  /** "Next": `Math.min(page + 1, totalPages)`. */
  function NextPage(page: int, total: int): int
  {
    if page + 1 < total then page + 1 else total
  }

  /** From a page in 1..total the two buttons stay in 1..total, one step at most. */
  lemma PageStepsStayInRange(page: int, total: int)
    requires 1 <= page <= total
    ensures 1 <= PreviousPage(page) <= page && page - 1 <= PreviousPage(page)
    ensures page <= NextPage(page, total) <= total && NextPage(page, total) <= page + 1
  {
  }

  /** What the page shows for a list of records, settings and page. */
  function Visible(rs: seq<Record>, f: Filters, page: int): seq<Record>
  {
    PageOf(SortRecords(FilterRecords(rs, f), f.dateFilter), page)
  }

  // ---------------------------------------------------------------------------
  // Deletion

  function OtherThan(id: int): Record -> bool
  {
    (r: Record) => r.id != id
  }

  /** The list update after a successful delete: `prev.filter(r => r.id !== id)`. */
  function WithoutRecord(rs: seq<Record>, id: int): seq<Record>
  {
    Filter(rs, OtherThan(id))
  }

  /** A delete removes exactly the records carrying that id and keeps the rest,
      in their order. */
  lemma DeleteRemovesExactly(rs: seq<Record>, id: int)
    ensures forall x :: x in WithoutRecord(rs, id) ==> x.id != id
    ensures forall x: Record :: x.id != id ==> multiset(WithoutRecord(rs, id))[x] == multiset(rs)[x]
    ensures IsSubsequence(WithoutRecord(rs, id), rs)
  {
    FilterIsSubsequence(rs, OtherThan(id));
    forall x ensures x in WithoutRecord(rs, id) ==> x.id != id {
      FilterMembers(rs, OtherThan(id), x);
    }
    forall x: Record | x.id != id ensures multiset(WithoutRecord(rs, id))[x] == multiset(rs)[x] {
      FilterMultiset(rs, OtherThan(id), x);
    }
  }

  datatype DeleteOutcome = Deleted | DeleteRejected | ConnectionFailed

  // ---------------------------------------------------------------------------
  // Page state

  class ViewRecordsPage {
    var records: seq<Record>
    var expandedRecord: Option<int>
    var searchTerm: string
    var statusFilter: string
    var costFilter: string
    var dateFilter: string
    var plateFilter: string
    var currentPage: int
    var loading: bool

    /** The one invariant the page keeps: the current page is at least 1,
        which is what `PageOf` needs to give a slice of the list. The records
        and the filters are free; every combination of them is a state the
        page can show. */
    ghost predicate Valid()
      reads this
    {
      currentPage >= 1
    }

    function Settings(): Filters
      reads this
    {
      Filters(searchTerm, statusFilter, costFilter, dateFilter, plateFilter)
    }

    function Sorted(): seq<Record>
      reads this
    {
      SortRecords(FilterRecords(records, Settings()), dateFilter)
    }

    function PageCount(): nat
      reads this
    {
      TotalPages(|Sorted()|)
    }

    /** The records on screen. */
    function CurrentRecords(): seq<Record>
      reads this
    {
      PageOf(Sorted(), currentPage)
    }

    constructor ()
      ensures Valid()
      ensures records == [] && expandedRecord == None && loading
      ensures Settings() == Filters("", "all", "all", "newest", "all") && currentPage == 1
    {
      records := [];
      expandedRecord := None;
      searchTerm := "";
      statusFilter := "all";
      costFilter := "all";
      dateFilter := "newest";
      plateFilter := "all";
      currentPage := 1;
      loading := true;
    }

    /** End of `fetchRecords`: the fetched list replaces the records; a failed
        fetch leaves them as they were. */
    method Loaded(fetched: Option<seq<Record>>)
      requires Valid()
      modifies this
      ensures Valid() && !loading
      ensures records == if fetched.Some? then fetched.value else old(records)
      ensures expandedRecord == old(expandedRecord) && Settings() == old(Settings())
      ensures currentPage == old(currentPage)
    {
      if fetched.Some? {
        records := fetched.value;
      }
      loading := false;
    }

    /** The reset effect: when any of the five settings differs from before,
        the page goes back to 1. */
    method ApplySettings(f: Filters)
      requires Valid()
      modifies this
      ensures Valid()
      ensures Settings() == f
      ensures currentPage == if f != old(Settings()) then 1 else old(currentPage)
      ensures records == old(records) && expandedRecord == old(expandedRecord) && loading == old(loading)
    {
      var changed := f != Settings();
      searchTerm, statusFilter, costFilter, dateFilter, plateFilter :=
        f.searchTerm, f.statusFilter, f.costFilter, f.dateFilter, f.plateFilter;
      if changed {
        currentPage := 1;
      }
    }

    method SetSearchTerm(t: string)
      requires Valid()
      modifies this
      ensures Valid()
      ensures Settings() == old(Settings()).(searchTerm := t)
      ensures currentPage == if t != old(searchTerm) then 1 else old(currentPage)
      ensures records == old(records) && expandedRecord == old(expandedRecord) && loading == old(loading)
    {
      ApplySettings(Settings().(searchTerm := t));
    }

    method SetStatusFilter(s: string)
      requires Valid()
      modifies this
      ensures Valid()
      ensures Settings() == old(Settings()).(statusFilter := s)
      ensures currentPage == if s != old(statusFilter) then 1 else old(currentPage)
      ensures records == old(records) && expandedRecord == old(expandedRecord) && loading == old(loading)
    {
      ApplySettings(Settings().(statusFilter := s));
    }

    method SetCostFilter(c: string)
      requires Valid()
      modifies this
      ensures Valid()
      ensures Settings() == old(Settings()).(costFilter := c)
      ensures currentPage == if c != old(costFilter) then 1 else old(currentPage)
      ensures records == old(records) && expandedRecord == old(expandedRecord) && loading == old(loading)
    {
      ApplySettings(Settings().(costFilter := c));
    }

    method SetDateFilter(d: string)
      requires Valid()
      modifies this
      ensures Valid()
      ensures Settings() == old(Settings()).(dateFilter := d)
      ensures currentPage == if d != old(dateFilter) then 1 else old(currentPage)
      ensures records == old(records) && expandedRecord == old(expandedRecord) && loading == old(loading)
    {
      ApplySettings(Settings().(dateFilter := d));
    }

    method SetPlateFilter(p: string)
      requires Valid()
      modifies this
      ensures Valid()
      ensures Settings() == old(Settings()).(plateFilter := p)
      ensures currentPage == if p != old(plateFilter) then 1 else old(currentPage)
      ensures records == old(records) && expandedRecord == old(expandedRecord) && loading == old(loading)
    {
      ApplySettings(Settings().(plateFilter := p));
    }

    /** "Clear All" in the filter bar: every setting back to its default,
        including the sort. The page shows the button only while some
        setting differs from its default; run without one set, it changes
        nothing, so allowing it always reaches no other state. */
    method ClearAll()
      requires Valid()
      modifies this
      ensures Valid()
      ensures Settings() == Filters("", "all", "all", "newest", "all")
      ensures currentPage == if Settings() != old(Settings()) then 1 else old(currentPage)
      ensures records == old(records) && expandedRecord == old(expandedRecord) && loading == old(loading)
    {
      ApplySettings(Filters("", "all", "all", "newest", "all"));
    }

    /** "Clear Filters" under an empty result: the four filters back to their
        defaults; the sort is kept. The page shows the button only while a
        filter is set; run without one, it changes nothing, so allowing it
        always reaches no other state. */
    method ClearFilters()
      requires Valid()
      modifies this
      ensures Valid()
      ensures Settings() == Filters("", "all", "all", old(dateFilter), "all")
      ensures currentPage == if Settings() != old(Settings()) then 1 else old(currentPage)
      ensures records == old(records) && expandedRecord == old(expandedRecord) && loading == old(loading)
    {
      ApplySettings(Filters("", "all", "all", dateFilter, "all"));
    }

    /** "Previous"; the pagination bar exists only with more than one page. */
    method Previous()
      requires Valid()
      modifies this`currentPage
      ensures Valid()
      ensures currentPage == if old(PageCount()) > 1 then PreviousPage(old(currentPage)) else old(currentPage)
    {
      if PageCount() > 1 {
        currentPage := PreviousPage(currentPage);
      }
    }

    /** "Next"; disabled on the last page, absent with one page or none. */
    method Next()
      requires Valid()
      modifies this`currentPage
      ensures Valid()
      ensures currentPage == if old(PageCount()) > 1 && old(currentPage) != old(PageCount())
                             then NextPage(old(currentPage), old(PageCount())) else old(currentPage)
    {
      var total := PageCount();
      if total > 1 && currentPage != total {
        currentPage := NextPage(currentPage, total);
      }
    }

    /** A numbered page button; buttons exist for 1..totalPages when there is
        more than one page. */
    method GoToPage(p: int)
      requires Valid()
      modifies this`currentPage
      ensures Valid()
      ensures currentPage == if old(PageCount()) > 1 && 1 <= p <= old(PageCount()) then p else old(currentPage)
    {
      var total := PageCount();
      if total > 1 && 1 <= p <= total {
        currentPage := p;
      }
    }

    /** `toggleDetails`: opens the record, or closes it when it is the open one. */
    method ToggleDetails(id: int)
      modifies this`expandedRecord
      ensures expandedRecord == if old(expandedRecord) == Some(id) then None else Some(id)
    {
      expandedRecord := if expandedRecord == Some(id) then None else Some(id);
    }

    /** `handleDelete`. Nothing happens unless the user confirms. A successful
        delete drops the records with that id and closes that record's details;
        a failure re-fetches the list, which replaces it when the fetch
        succeeds. The current page is not touched. */
    method HandleDelete(id: int, confirmed: bool, outcome: DeleteOutcome, refetched: Option<seq<Record>>)
      requires Valid()
      modifies this
      ensures Valid()
      ensures Settings() == old(Settings()) && currentPage == old(currentPage)
      ensures !confirmed ==> records == old(records) && expandedRecord == old(expandedRecord)
      ensures confirmed && outcome == Deleted ==>
        records == WithoutRecord(old(records), id)
        && expandedRecord == (if old(expandedRecord) == Some(id) then None else old(expandedRecord))
      ensures confirmed && outcome != Deleted ==>
        records == (if refetched.Some? then refetched.value else old(records))
        && expandedRecord == old(expandedRecord)
      ensures !confirmed || outcome == Deleted ==> loading == old(loading)
      ensures confirmed && outcome != Deleted ==> !loading
    {
      if !confirmed {
        return;
      }
      if outcome == Deleted {
        records := WithoutRecord(records, id);
        if expandedRecord == Some(id) {
          expandedRecord := None;
        }
      } else {
        Loaded(refetched);
      }
    }
  }

  /** The page state keeps at least page 1 whatever happens to the list; a
      delete can however leave the current page past the last one, and such a
      page shows nothing. */
  lemma PagePastLastIsEmpty(rs: seq<Record>, f: Filters, page: int)
    requires page > TotalPages(|FilterRecords(rs, f)|)
    ensures Visible(rs, f, page) == []
  {
    var s := SortRecords(FilterRecords(rs, f), f.dateFilter);
    assert |s| == |FilterRecords(rs, f)| by {
      assert |multiset(s)| == |multiset(FilterRecords(rs, f))|;
    }
    PagesPartition(s);
  }
}
