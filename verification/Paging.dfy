/** Listing a user's records page by page, and the page counts the API reports. */
module Paging {
  import opened Wrappers
  import opened Text
  import opened Records
  import opened LikePattern

  const DEFAULT_PAGE_SIZE := 20
  const MAX_PAGE_SIZE := 100

  datatype ListParams = ListParams(
    userId: int,
    status: string,
    projectId: Option<int>,
    unclassified: bool,
    favorite: Option<bool>,
    query: string)

  function StatusText(s: Status): string {
    match s
    case Waiting => "waiting"
    case Running => "running"
    case Completed => "completed"
    case Failed => "failed"
  }

  /** `prompt ILIKE pattern ESCAPE '\'`; a malformed pattern would be an error. */
  predicate Ilike(fold: char -> char, pattern: string, text: string) {
    WellFormed(Fold(fold, pattern)) && Like(Fold(fold, pattern), Fold(fold, text))
  }

  predicate Matches(fold: char -> char, p: ListParams, row: Row) {
    && row.userId == p.userId
    && (p.status == "" || StatusText(row.status) == p.status)
    && (TrimSpace(p.query) == "" || Ilike(fold, LikePatternOf(p.query), row.prompt))
    && (if p.projectId.Some? then row.projectId == p.projectId else p.unclassified ==> row.projectId.None?)
    && (p.favorite.None? || row.favorite == p.favorite.value)
  }

  function Filtered(fold: char -> char, rows: Table, p: ListParams): set<int> {
    set id | id in rows && Matches(fold, p, rows[id])
  }

  /** The search clause, present or absent, selects the rows whose prompt contains the trimmed
      query literally, up to case. */
  lemma SearchClause(fold: char -> char, p: ListParams, row: Row)
    requires FoldKeepsSpecials(fold)
    ensures (TrimSpace(p.query) == "" || Ilike(fold, LikePatternOf(p.query), row.prompt))
            <==> Contains(Fold(fold, row.prompt), Fold(fold, TrimSpace(p.query)))
  {
    SearchIsCaseFoldedSubstring(fold, p.query, row.prompt);
    if TrimSpace(p.query) == "" {
      var text := Fold(fold, row.prompt);
      assert Fold(fold, TrimSpace(p.query)) <= text[0..];
    }
  }

  /** What the other filters select: the asking user's rows; of a status, if one is named; of one
      project, or of none; and with one value of the favourite flag. */
  lemma FilterClauses(fold: char -> char, rows: Table, p: ListParams, id: int)
    requires id in Filtered(fold, rows, p)
    ensures id in rows && rows[id].userId == p.userId
    ensures p.status == "waiting" ==> rows[id].status == Waiting
    ensures p.status == "running" ==> rows[id].status == Running
    ensures p.status == "completed" ==> rows[id].status == Completed
    ensures p.status == "failed" ==> rows[id].status == Failed
    ensures p.status in {"", "waiting", "running", "completed", "failed"}
    ensures p.projectId.Some? ==> rows[id].projectId == p.projectId
    ensures p.projectId.None? && p.unclassified ==> rows[id].projectId == None
    ensures p.favorite.Some? ==> rows[id].favorite == p.favorite.value
  {
    assert StatusText(rows[id].status) in {"waiting", "running", "completed", "failed"};
  }

  /** A filter that is not given excludes nothing: a row of the user is left out only for a clause
      that it fails. */
  lemma FilterExcludesOnly(fold: char -> char, rows: Table, p: ListParams, id: int)
    requires FoldKeepsSpecials(fold) && id in rows && rows[id].userId == p.userId
    requires p.status == "" || (rows[id].status == Waiting && p.status == "waiting")
             || (rows[id].status == Running && p.status == "running")
             || (rows[id].status == Completed && p.status == "completed")
             || (rows[id].status == Failed && p.status == "failed")
    requires p.projectId.Some? ==> rows[id].projectId == p.projectId
    requires p.projectId.None? && p.unclassified ==> rows[id].projectId == None
    requires p.favorite.Some? ==> rows[id].favorite == p.favorite.value
    requires Contains(Fold(fold, rows[id].prompt), Fold(fold, TrimSpace(p.query)))
    ensures id in Filtered(fold, rows, p)
  {
    SearchClause(fold, p, rows[id]);
  }

  // ---- ORDER BY id DESC ----

  ghost function Descending(ids: set<int>): seq<int>
    decreases |ids|
  {
    if ids == {} then []
    else
      var least := Lowest(ids);
      Descending(ids - {least}) + [least]
  }

  /** The order lists each id once, from the highest to the lowest. */
  lemma {:induction false} DescendingLists(ids: set<int>)
    ensures forall id :: id in Descending(ids) <==> id in ids
    ensures forall i, j :: 0 <= i < j < |Descending(ids)| ==> Descending(ids)[i] > Descending(ids)[j]
    ensures |Descending(ids)| == |ids|
    decreases |ids|
  {
    if ids != {} {
      var least := Lowest(ids);
      var rest := ids - {least};
      DescendingLists(rest);
      var front := Descending(rest);
      assert Descending(ids) == front + [least];
      forall i | 0 <= i < |front|
        ensures front[i] > least
      {
        assert front[i] in rest;
      }
    }
  }

  // ---- OFFSET and LIMIT ----

  function ClampPage(page: int): int {
    if page < 1 then 1 else page
  }

  /** The repository's page size: anything out of range becomes the default. */
  function ClampSize(size: int): int {
    if size <= 0 || size > MAX_PAGE_SIZE then DEFAULT_PAGE_SIZE else size
  }

  function Min(a: int, b: int): int {
    if a < b then a else b
  }

  /** At most `limit` entries from `offset` on. */
  function Slice(all: seq<int>, offset: nat, limit: nat): seq<int> {
    all[Min(offset, |all|)..Min(offset + limit, |all|)]
  }

  lemma OffsetNatural(a: int, b: int)
    requires a >= 0 && b >= 0
    ensures a * b >= 0
  {
  }

  function PageOf(all: seq<int>, page: int, size: int): seq<int> {
    OffsetNatural(ClampPage(page) - 1, ClampSize(size));
    Slice(all, (ClampPage(page) - 1) * ClampSize(size), ClampSize(size))
  }

  /** What `List` returns: one page of matching ids and the number of all matching rows. */
  ghost function ListPage(fold: char -> char, rows: Table, p: ListParams, page: int, size: int): (seq<int>, int) {
    var all := Descending(Filtered(fold, rows, p));
    (PageOf(all, page, size), |Filtered(fold, rows, p)|)
  }

  /** `pagingMeta`: works on the size as the client sent it, not as the repository clamped it. */
  function TotalPages(size: int, total: int): int {
    var s := if size <= 0 then DEFAULT_PAGE_SIZE else size;
    var pages := (total + s - 1) / s;
    if pages < 1 then 1 else pages
  }

  /** What `List` returns for the pages 1 to count, one after the other. */
  ghost function Pages(fold: char -> char, rows: Table, p: ListParams, size: int, count: nat): seq<int> {
    if count == 0 then [] else Pages(fold, rows, p, size, count - 1) + ListPage(fold, rows, p, count, size).0
  }

  lemma SlicesMeet(all: seq<int>, offset: nat, limit: nat)
    ensures all[..Min(offset, |all|)] + Slice(all, offset, limit) == all[..Min(offset + limit, |all|)]
  {
  }

  /** The number of rows on this many full pages. */
  function Rows(size: int, count: nat): nat {
    if count == 0 then 0 else Rows(size, count - 1) + ClampSize(size)
  }

  lemma {:induction false} RowsIsProduct(size: int, count: nat)
    ensures Rows(size, count) == count * ClampSize(size)
  {
    if count > 0 {
      RowsIsProduct(size, count - 1);
      var limit := ClampSize(size);
      assert count * limit == (count - 1) * limit + limit;
    }
  }

  /** The first pages are a prefix of the whole list. */
  lemma {:induction false} PagesArePrefix(fold: char -> char, rows: Table, p: ListParams, size: int, count: nat)
    ensures var all := Descending(Filtered(fold, rows, p));
            Pages(fold, rows, p, size, count) == all[..Min(Rows(size, count), |all|)]
  {
    var all := Descending(Filtered(fold, rows, p));
    if count > 0 {
      PagesArePrefix(fold, rows, p, size, count - 1);
      RowsIsProduct(size, count - 1);
      SlicesMeet(all, Rows(size, count - 1), ClampSize(size));
    }
  }

  lemma PagesTimesSize(s: int, total: int)
    requires s >= 1 && total >= 1
    ensures var pages := (total + s - 1) / s;
            pages >= 1 && (pages - 1) * s < total <= pages * s
  {
    var pages := (total + s - 1) / s;
    var r := (total + s - 1) % s;
    assert total + s - 1 == pages * s + r;
    assert (pages - 1) * s == pages * s - s;
  }

  lemma LargerSizeLargerProduct(pages: int, s: int)
    requires pages >= 0 && s > MAX_PAGE_SIZE
    ensures pages * s >= pages * 101
  {
    OffsetNatural(pages, s - 101);
    assert pages * s == pages * 101 + pages * (s - 101);
  }

  /** How many rows the reported number of pages can hold. */
  lemma CapacityIff(size: int, total: nat)
    ensures TotalPages(size, total) * ClampSize(size) >= total <==> size <= MAX_PAGE_SIZE || total <= DEFAULT_PAGE_SIZE
  {
    var s := if size <= 0 then DEFAULT_PAGE_SIZE else size;
    if total >= 1 {
      PagesTimesSize(s, total);
      if size > MAX_PAGE_SIZE {
        LargerSizeLargerProduct(TotalPages(size, total) - 1, s);
      }
    }
  }

  /** The pages a client is told of make up exactly the matching rows, in descending order and
      without gap or repeat, if and only if the requested size is at most 100 or there are at most
      20 rows: beyond that the reported page count is too small for the pages actually served. */
  lemma PagesCoverIff(fold: char -> char, rows: Table, p: ListParams, page: int, size: int)
    ensures var total := ListPage(fold, rows, p, page, size).1;
            && total == |Filtered(fold, rows, p)|
            && TotalPages(size, total) >= 1
            && (Pages(fold, rows, p, size, TotalPages(size, total)) == Descending(Filtered(fold, rows, p))
                <==> size <= MAX_PAGE_SIZE || total <= DEFAULT_PAGE_SIZE)
  {
    var all := Descending(Filtered(fold, rows, p));
    DescendingLists(Filtered(fold, rows, p));
    PagesArePrefix(fold, rows, p, size, TotalPages(size, |all|));
    RowsIsProduct(size, TotalPages(size, |all|));
    CapacityIff(size, |all|);
  }

  lemma PageOfSizes(all: seq<int>, page: int, size: int)
    requires size <= MAX_PAGE_SIZE && page >= 1
    ensures page < TotalPages(size, |all|) ==> |PageOf(all, page, size)| == ClampSize(size)
    ensures page == TotalPages(size, |all|) && all != [] ==> 1 <= |PageOf(all, page, size)| <= ClampSize(size)
    ensures page > TotalPages(size, |all|) ==> PageOf(all, page, size) == []
  {
    var limit := ClampSize(size);
    var last := TotalPages(size, |all|);
    if |all| >= 1 {
      PagesTimesSize(limit, |all|);
      assert last == (|all| + limit - 1) / limit;
    }
    assert page * limit == (page - 1) * limit + limit;
    OffsetNatural(page - 1, limit);
    if page < last {
      OffsetNatural(last - 1 - page, limit);
      assert (last - 1) * limit == page * limit + (last - 1 - page) * limit;
    } else if page > last {
      OffsetNatural(page - 1 - last, limit);
      assert (page - 1) * limit == last * limit + (page - 1 - last) * limit;
      CapacityIff(size, |all|);
    }
  }

  /** With a size of at most 100: every page before the last is full, the last is not empty unless
      nothing matches, and every later page is empty. */
  lemma PageSizes(fold: char -> char, rows: Table, p: ListParams, page: int, size: int)
    requires size <= MAX_PAGE_SIZE && page >= 1
    ensures var (served, total) := ListPage(fold, rows, p, page, size);
            var last := TotalPages(size, total);
            && (page < last ==> |served| == ClampSize(size))
            && (page == last && total > 0 ==> 1 <= |served| <= ClampSize(size))
            && (page > last ==> served == [])
  {
    DescendingLists(Filtered(fold, rows, p));
    PageOfSizes(Descending(Filtered(fold, rows, p)), page, size);
  }

  /** A page below one is served as the first, and a size out of range as twenty. */
  lemma OutOfRangeDefaults(fold: char -> char, rows: Table, p: ListParams, page: int, size: int)
    ensures page < 1 ==> ListPage(fold, rows, p, page, size) == ListPage(fold, rows, p, 1, size)
    ensures size <= 0 || size > 100 ==> ListPage(fold, rows, p, page, size) == ListPage(fold, rows, p, page, 20)
    ensures forall id :: id in ListPage(fold, rows, p, page, size).0 ==> id in rows && rows[id].userId == p.userId
  {
    var all := Descending(Filtered(fold, rows, p));
    DescendingLists(Filtered(fold, rows, p));
    assert forall id :: id in ListPage(fold, rows, p, page, size).0 ==> id in all;
  }

  // ---- searching the gallery ----

  /** `ListPublic`: with a search text, only rows whose prompt is public are searched. */
  function GallerySearch(fold: char -> char, rows: Table, query: string): set<int> {
    set id | id in Gallery(rows)
             && (TrimSpace(query) == ""
                 || (rows[id].promptPublic && Ilike(fold, LikePatternOf(query), rows[id].prompt)))
  }

  /** A row as the public listing shows it: without project and upstream error, and with the prompt
      blanked unless it is public. */
  function ShownRow(row: Row): Row {
    row.(prompt := if row.promptPublic then row.prompt else "", projectId := None, upstreamError := None)
  }

  /** What a search of the gallery answers: the rows found, as they are shown. */
  function GalleryAnswer(fold: char -> char, rows: Table, query: string): Table {
    map id | id in GallerySearch(fold, rows, query) :: ShownRow(rows[id])
  }

  /** Two tables that differ at most in projects, upstream errors and prompts that are not public. */
  predicate SamePublicly(a: Table, b: Table) {
    && a.Keys == b.Keys
    && forall id :: id in a ==>
         && a[id].(prompt := b[id].prompt, projectId := b[id].projectId, upstreamError := b[id].upstreamError) == b[id]
         && (a[id].promptPublic ==> a[id].prompt == b[id].prompt)
  }

  /** No search of the gallery answers differently because of any of these. */
  lemma PrivatePromptsInvisible(fold: char -> char, a: Table, b: Table, query: string)
    requires SamePublicly(a, b)
    ensures GalleryAnswer(fold, a, query) == GalleryAnswer(fold, b, query)
  {
    forall id
      ensures id in GallerySearch(fold, a, query) <==> id in GallerySearch(fold, b, query)
      ensures id in a ==> ShownRow(a[id]) == ShownRow(b[id])
    {
      if id in a {
        assert a[id].promptPublic ==> a[id].prompt == b[id].prompt;
      }
    }
    assert GallerySearch(fold, a, query) == GallerySearch(fold, b, query);
  }

  /** A search finds the gallery rows with a public prompt that contains the trimmed text. */
  lemma GallerySearchFinds(fold: char -> char, rows: Table, query: string, id: int)
    requires FoldKeepsSpecials(fold) && TrimSpace(query) != ""
    ensures id in GallerySearch(fold, rows, query) <==>
              && id in Gallery(rows) && rows[id].promptPublic
              && Contains(Fold(fold, rows[id].prompt), Fold(fold, TrimSpace(query)))
  {
    if id in Gallery(rows) {
      SearchIsCaseFoldedSubstring(fold, query, rows[id].prompt);
    }
  }
}
