/**
 * The badge list: search and filters, ten badges per page, the bulk
 * activate/deactivate buttons and the delete confirmation.
 *
 * Callbacks (`onToggleActive`, `onDelete`) are not called here; the methods
 * return the calls they would make, in order. `toLowerCase` is a parameter.
 */
module BadgeManager {
  import opened Wrappers
  import opened Seqs
  import opened Strings

  const PAGE_SIZE: int := 10

  /** The fields of `BadgeData` the list reads. */
  datatype BadgeSummary = BadgeSummary(id: string, name: string, text: string, shape: string, isActive: bool)

  predicate MatchesSearch(b: BadgeSummary, query: string, lower: string -> string) {
    Contains(lower(b.name), lower(query)) || Contains(lower(b.text), lower(query))
  }

  predicate MatchesStatus(b: BadgeSummary, statusFilter: string) {
    || statusFilter == "all"
    || (statusFilter == "active" && b.isActive)
    || (statusFilter == "inactive" && !b.isActive)
  }

  predicate MatchesShape(b: BadgeSummary, shapeFilter: string) {
    shapeFilter == "all" || b.shape == shapeFilter
  }

  function Shown(query: string, statusFilter: string, shapeFilter: string, lower: string -> string): BadgeSummary -> bool {
    (b: BadgeSummary) => MatchesSearch(b, query, lower) && MatchesStatus(b, statusFilter) && MatchesShape(b, shapeFilter)
  }

  /**
   * `filteredBadges`: in their order, the badges matching the search on name
   * or text, the status filter and the shape filter, and only those.
   */
  function FilteredBadges(badges: seq<BadgeSummary>, query: string, statusFilter: string, shapeFilter: string,
                          lower: string -> string): (r: seq<BadgeSummary>)
    ensures IsSubsequence(r, badges)
    ensures forall b | b in r :: b in badges && MatchesSearch(b, query, lower)
                                 && MatchesStatus(b, statusFilter) && MatchesShape(b, shapeFilter)
    ensures forall b | b in badges && MatchesSearch(b, query, lower)
                       && MatchesStatus(b, statusFilter) && MatchesShape(b, shapeFilter) :: b in r
  {
    Filter(badges, Shown(query, statusFilter, shapeFilter, lower))
  }

  /** An empty search with both filters at `all` lists every badge. */
  lemma NoFilterListsAll(badges: seq<BadgeSummary>, lower: string -> string)
    requires lower("") == ""
    ensures FilteredBadges(badges, "", "all", "all", lower) == badges
  {
    forall b | b in badges ensures Shown("", "all", "all", lower)(b) {
      ContainsEmpty(lower(b.name));
    }
    FilterKeepsAll(badges, Shown("", "all", "all", lower));
  }

  /** `Math.ceil(n / 10)`: the fewest pages of ten that hold `n` badges. */
  function TotalPages(n: nat): (pages: nat)
    ensures n <= pages * PAGE_SIZE
    ensures pages > 0 ==> (pages - 1) * PAGE_SIZE < n
    ensures pages == 0 <==> n == 0
  {
    (n + PAGE_SIZE - 1) / PAGE_SIZE
  }

  function Min(a: int, b: int): int {
    if a <= b then a else b
  }

  /** `list.slice((page - 1) * 10, (page - 1) * 10 + 10)` */
  function Page<T>(list: seq<T>, page: int): seq<T> {
    JsSlice(list, (page - 1) * PAGE_SIZE, (page - 1) * PAGE_SIZE + PAGE_SIZE)
  }

  /**
   * A page holds at most ten badges; from page 1 on it is the stretch of the
   * list starting at `(page - 1) * 10`, empty beyond the last page and
   * non-empty up to it.
   */
  lemma PageBounds<T>(list: seq<T>, page: int)
    requires page >= 1
    ensures |Page(list, page)| <= PAGE_SIZE
    ensures Page(list, page) == list[Min((page - 1) * PAGE_SIZE, |list|)..Min(page * PAGE_SIZE, |list|)]
    ensures page > TotalPages(|list|) ==> Page(list, page) == []
    ensures page <= TotalPages(|list|) ==> Page(list, page) != []
  {
  }

  /** Pages 1 to `k`, one after the other. */
  function FirstPages<T>(list: seq<T>, k: nat): seq<T> {
    if k == 0 then [] else FirstPages(list, k - 1) + Page(list, k)
  }

  /** The first `k` pages are the first `10 k` badges. */
  lemma {:induction false} FirstPagesArePrefix<T>(list: seq<T>, k: nat)
    ensures FirstPages(list, k) == list[..Min(k * PAGE_SIZE, |list|)]
  {
    if k > 0 {
      FirstPagesArePrefix(list, k - 1);
      PageBounds(list, k);
      var a := Min((k - 1) * PAGE_SIZE, |list|);
      var b := Min(k * PAGE_SIZE, |list|);
      assert list[..a] + list[a..b] == list[..b];
    }
  }

  /** All the pages, in order, give back the filtered list. */
  lemma PagesCoverList<T>(list: seq<T>)
    ensures FirstPages(list, TotalPages(|list|)) == list
  {
    FirstPagesArePrefix(list, TotalPages(|list|));
  }

  /** The pager: shown only for more than one page, with its two buttons. */
  datatype Pager = Pager(shown: bool, hasPrevious: bool, hasNext: bool)

  function PagerFor(page: int, totalPages: nat): (p: Pager)
    ensures p.shown <==> totalPages > 1
    ensures p.hasPrevious <==> page > 1
    ensures p.hasNext <==> page < totalPages
  {
    Pager(totalPages > 1, page > 1, page < totalPages)
  }

  /**
   * The pager tells the truth about the pages: it is shown exactly when a
   * second page has badges, "Next" is enabled exactly when the following
   * page has badges, and, on an existing page, "Previous" exactly when a
   * page with badges comes before it.
   */
  lemma PagerMatchesPages<T>(list: seq<T>, page: int)
    requires page >= 1
    ensures PagerFor(page, TotalPages(|list|)).shown <==> Page(list, 2) != []
    ensures PagerFor(page, TotalPages(|list|)).hasNext <==> Page(list, page + 1) != []
    ensures page <= TotalPages(|list|) ==>
              (PagerFor(page, TotalPages(|list|)).hasPrevious <==> page > 1 && Page(list, page - 1) != [])
  {
    PageBounds(list, 2);
    PageBounds(list, page + 1);
    if page > 1 {
      PageBounds(list, page - 1);
    }
  }

  /** One `onToggleActive(id, isActive)` call. */
  datatype ToggleCall = ToggleCall(id: string, isActive: bool)

  /** The list's state: selection, delete modal, page and filters. */
  class BadgeList {
    const badges: seq<BadgeSummary>
    const lower: string -> string
    var selectedBadges: seq<string>
    var deleteModalOpen: bool
    var badgeToDelete: Option<string>
    var currentPage: int
    var searchQuery: string
    var statusFilter: string
    var shapeFilter: string

    /** The page counter never drops below 1: "Previous" is disabled on page 1. */
    ghost predicate Valid()
      reads this
    {
      currentPage >= 1
    }

    constructor (badges: seq<BadgeSummary>, lower: string -> string)
      ensures Valid()
      ensures this.badges == badges && this.lower == lower
      ensures selectedBadges == [] && !deleteModalOpen && badgeToDelete.None? && currentPage == 1
      ensures searchQuery == "" && statusFilter == "all" && shapeFilter == "all"
    {
      this.badges := badges;
      this.lower := lower;
      selectedBadges := [];
      deleteModalOpen := false;
      badgeToDelete := None;
      currentPage := 1;
      searchQuery := "";
      statusFilter := "all";
      shapeFilter := "all";
    }

    function Filtered(): seq<BadgeSummary>
      reads this
    {
      FilteredBadges(badges, searchQuery, statusFilter, shapeFilter, lower)
    }

    /** The table's rows: the current page of the filtered badges. */
    function Rows(): seq<BadgeSummary>
      reads this
    {
      Page(Filtered(), currentPage)
    }

    function CurrentPager(): Pager
      reads this
    {
      PagerFor(currentPage, TotalPages(|Filtered()|))
    }

    /** The current page is one that exists (page 1 when there are no badges to show). */
    predicate PageInRange()
      reads this
    {
      1 <= currentPage && (currentPage == 1 || currentPage <= TotalPages(|Filtered()|))
    }

    method SetSelection(ids: seq<string>)
      modifies this`selectedBadges
      ensures selectedBadges == ids
    {
      selectedBadges := ids;
    }

    /** `onQueryChange`: the page is left where it was. */
    method SetSearchQuery(query: string)
      modifies this`searchQuery
      ensures searchQuery == query
    {
      searchQuery := query;
    }

    /** The status `Select`: the page is left where it was. */
    method SetStatusFilter(value: string)
      modifies this`statusFilter
      ensures statusFilter == value
    {
      statusFilter := value;
    }

    /** The shape `Select`: the page is left where it was. */
    method SetShapeFilter(value: string)
      modifies this`shapeFilter
      ensures shapeFilter == value
    {
      shapeFilter := value;
    }

    /** `onClearAll`: search and both filters back to their defaults; the page is left where it was. */
    method ClearAll()
      modifies this`searchQuery, this`statusFilter, this`shapeFilter
      ensures searchQuery == "" && statusFilter == "all" && shapeFilter == "all"
    {
      searchQuery := "";
      statusFilter := "all";
      shapeFilter := "all";
    }

    /** A filter change that also returns to page 1, so the page shown always exists. */
    method ChangeFilters(query: string, status: string, shape: string)
      modifies this`searchQuery, this`statusFilter, this`shapeFilter, this`currentPage
      ensures searchQuery == query && statusFilter == status && shapeFilter == shape && currentPage == 1
      ensures Valid() && PageInRange()
      ensures Rows() == Filtered()[..Min(PAGE_SIZE, |Filtered()|)]
    {
      searchQuery := query;
      statusFilter := status;
      shapeFilter := shape;
      currentPage := 1;
      PageBounds(Filtered(), 1);
    }

    /** `onPrevious`, available when `hasPrevious`. */
    method PreviousPage()
      requires Valid() && CurrentPager().hasPrevious
      modifies this`currentPage
      ensures Valid() && currentPage == old(currentPage) - 1
      ensures old(PageInRange()) ==> PageInRange()
    {
      currentPage := currentPage - 1;
    }

    /** `onNext`, available when `hasNext`. */
    method NextPage()
      requires Valid() && CurrentPager().hasNext
      modifies this`currentPage
      ensures Valid() && currentPage == old(currentPage) + 1
      ensures PageInRange() && Rows() != []
    {
      currentPage := currentPage + 1;
      PageBounds(Filtered(), currentPage);
    }

    /**
     * `handleBulkAction`: activate and deactivate call `onToggleActive` once
     * per selected id, in selection order (none when the callback is absent);
     * delete and anything else call nothing. The selection is cleared.
     */
    method BulkAction(action: string, hasToggle: bool) returns (calls: seq<ToggleCall>)
      modifies this`selectedBadges
      ensures selectedBadges == []
      ensures (action == "activate" || action == "deactivate") && hasToggle ==>
                && |calls| == |old(selectedBadges)|
                && forall i | 0 <= i < |calls| :: calls[i] == ToggleCall(old(selectedBadges)[i], action == "activate")
      ensures !((action == "activate" || action == "deactivate") && hasToggle) ==> calls == []
    {
      calls := [];
      if (action == "activate" || action == "deactivate") && hasToggle {
        var isActive := action == "activate";
        var i := 0;
        while i < |selectedBadges|
          invariant 0 <= i <= |selectedBadges|
          invariant |calls| == i
          invariant forall k | 0 <= k < i :: calls[k] == ToggleCall(selectedBadges[k], isActive)
        {
          calls := calls + [ToggleCall(selectedBadges[i], isActive)];
          i := i + 1;
        }
      }
      selectedBadges := [];
    }

    /** The "Delete" menu item of a badge: remember its id and open the modal. */
    method RequestDelete(id: string)
      modifies this`badgeToDelete, this`deleteModalOpen
      ensures badgeToDelete == Some(id) && deleteModalOpen
    {
      badgeToDelete := Some(id);
      deleteModalOpen := true;
    }

    /** The modal's "Cancel": closes it and keeps the remembered id. */
    method CancelDelete()
      modifies this`deleteModalOpen
      ensures !deleteModalOpen
    {
      deleteModalOpen := false;
    }

    /**
     * `handleDeleteConfirm`: one `onDelete` call with the remembered id when
     * there is a non-empty one and a callback; then the modal closes and the
     * id is forgotten.
     */
    method ConfirmDelete(hasOnDelete: bool) returns (deleted: Option<string>)
      modifies this`badgeToDelete, this`deleteModalOpen
      ensures deleted == if Truthy(old(badgeToDelete)) && hasOnDelete then old(badgeToDelete) else None
      ensures !deleteModalOpen && badgeToDelete.None?
    {
      deleted := if Truthy(badgeToDelete) && hasOnDelete then badgeToDelete else None;
      deleteModalOpen := false;
      badgeToDelete := None;
    }
  }

  /**
   * A filter change leaves the page where it was, so narrowing the list
   * while on page 2 or later can leave an empty table; when at most ten
   * badges remain the pager is hidden as well, with no button back.
   */
  lemma StrandedAfterNarrowing(list: seq<BadgeSummary>, page: int)
    requires |list| <= PAGE_SIZE && page >= 2
    ensures Page(list, page) == [] && !PagerFor(page, TotalPages(|list|)).shown
  {
    PageBounds(list, page);
  }

  /** Eleven badges: one inactive, then ten active ones. */
  function Sample(): seq<BadgeSummary> {
    [BadgeSummary("b0", "Sale", "Sale", "pill", false)]
      + seq(10, i requires 0 <= i < 10 => BadgeSummary("b", "New", "New", "pill", true))
  }

  /**
   * On page 2 of the eleven badges, choosing the `inactive` status filter
   * leaves one badge, but no row on page 2 and no pager.
   */
  lemma SampleStranded(lower: string -> string)
    requires lower("") == ""
    ensures var narrowed := FilteredBadges(Sample(), "", "inactive", "all", lower);
      && |narrowed| == 1 && Page(Sample(), 2) != []
      && Page(narrowed, 2) == [] && !PagerFor(2, TotalPages(|narrowed|)).shown
  {
    var keep := Shown("", "inactive", "all", lower);
    var first := [BadgeSummary("b0", "Sale", "Sale", "pill", false)];
    var rest := seq(10, i requires 0 <= i < 10 => BadgeSummary("b", "New", "New", "pill", true));
    assert Sample() == first + rest;
    FilterConcat(first, rest, keep);
    FilterKeepsNone(rest, keep);
    assert keep(first[0]) by {
      ContainsEmpty(lower("Sale"));
    }
    FilterKeepsAll(first, keep);
    var narrowed := FilteredBadges(Sample(), "", "inactive", "all", lower);
    assert narrowed == first + [];
    PageBounds(Sample(), 2);
    StrandedAfterNarrowing(narrowed, 2);
  }
}
