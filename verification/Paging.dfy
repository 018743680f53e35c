/** Keyset paging of the finding table: one page, and following `next_cursor` to the end while the table changes
 (src/shared_integration/finding_lifecycle.py). */
module Paging {
  import opened Prelude
  import opened Findings
  import FindingStore
  import FindingRace
  import opened Cursor

  type Row = FindingStore.Row

  /** A tenant's rows by their primary key. */
  type Rows = map<nat, Row>

  function ById(table: FindingStore.Table): (rows: Rows)
    requires FindingRace.Distinct(table)
    ensures forall fp :: fp in table ==> table[fp].rowId in rows && rows[table[fp].rowId] == table[fp]
  {
    map fp | fp in table :: table[fp].rowId := table[fp]
  }

  /** Every table the stores can reach has one row per id, counted from one. */
  lemma ReachableTable(s: FindingRace.State)
    requires FindingRace.Reachable(s)
    ensures FindingRace.Distinct(s.rows) && 0 !in ById(s.rows)
  {
    FindingRace.ReachableInv(s);
    forall fp | fp in s.rows ensures s.rows[fp].rowId != 0 { assert FindingRace.RowOk(s, fp); }
  }

  datatype Filter = Filter(
    source: Option<Source>, severity: Option<Severity>, status: Option<FindingStore.FindingStatus>) {
    predicate Admits(row: Row) {
      && (source.Some? ==> row.source == source.value)
      && (severity.Some? ==> row.severity == severity.value)
      && (status.Some? ==> row.status == status.value)
    }
  }

  /** The columns the filter asks for are those of the row. */
  predicate Matches(filter: Filter, row: Row) {
    && filter.source in {None, Some(row.source)}
    && filter.severity in {None, Some(row.severity)}
    && filter.status in {None, Some(row.status)}
  }

  datatype Page = Page(ids: seq<nat>, next: Option<string>)

  // ---------------------------------------------------------------- one page

  /** The rows a page may show: admitted by the filter and below the cursor. */
  function Candidates(rows: Rows, below: Option<int>, filter: Filter): set<nat> {
    set id | id in rows && filter.Admits(rows[id]) && (below.Some? ==> id < below.value)
  }

  predicate IsMax(m: nat, ids: set<nat>) {
    m in ids && forall id :: id in ids ==> id <= m
  }

  lemma {:induction false} MaxExists(ids: set<nat>)
    requires ids != {}
    ensures exists m: nat :: IsMax(m, ids)
  {
    var x :| x in ids;
    if ids == {x} {
      assert IsMax(x, ids);
    } else {
      MaxExists(ids - {x});
      var m: nat :| IsMax(m, ids - {x});
      assert ids == (ids - {x}) + {x};
      assert IsMax(if m < x then x else m, ids);
    }
  }

  ghost function Max(ids: set<nat>): (m: nat)
    requires ids != {}
    ensures IsMax(m, ids)
  {
    MaxExists(ids);
    var m: nat :| IsMax(m, ids);
    m
  }

  /** `ORDER BY row_id DESC LIMIT n`. */
  ghost function Top(ids: set<nat>, n: nat): (top: seq<nat>)
    ensures |top| <= n
  {
    if ids == {} || n == 0 then [] else [Max(ids)] + Top(ids - {Max(ids)}, n - 1)
  }

  ghost function ListPage(rows: Rows, cursor: Option<string>, limit: nat, filter: Filter): Result<Page, CursorError> {
    if cursor.Some? && DecodeCursor(cursor.value).Raised? then Raised(InvalidCursor)
    else
      var below := if cursor.Some? then Some(DecodeCursor(cursor.value).value) else None;
      Ok(PageOf(Top(Candidates(rows, below, filter), limit + 1), limit))
  }

  /** One row more than the limit was asked for, to see whether there is a next page. */
  function PageOf(fetched: seq<nat>, limit: nat): Page {
    var page := fetched[..if |fetched| < limit then |fetched| else limit];
    Page(page, if |fetched| > limit && page != [] then Some(EncodeCursor(page[|page| - 1])) else None)
  }

  predicate Descending(ids: seq<nat>) {
    forall i, j :: 0 <= i < j < |ids| ==> ids[i] > ids[j]
  }

  /** The `n` largest, largest first. */
  lemma {:induction false} TopIs(ids: set<nat>, n: nat)
    ensures Descending(Top(ids, n))
    ensures |Top(ids, n)| == if |ids| < n then |ids| else n
    ensures forall id :: id in Top(ids, n) ==> id in ids
    ensures forall id, k :: id in ids && 0 <= k < |Top(ids, n)| ==> id in Top(ids, n) || id < Top(ids, n)[k]
  {
    if ids != {} && n > 0 {
      var rest := Top(ids - {Max(ids)}, n - 1);
      TopIs(ids - {Max(ids)}, n - 1);
      forall j | 0 <= j < |rest| ensures rest[j] < Max(ids) { assert rest[j] in rest; }
    }
  }

  lemma DescendingConcat(a: seq<nat>, b: seq<nat>)
    requires Descending(a) && Descending(b) && forall x, y :: x in a && y in b ==> x > y
    ensures Descending(a + b)
  {
    forall i, j | 0 <= i < |a| && 0 <= j < |b| ensures a[i] > b[j] { assert a[i] in a && b[j] in b; }
  }

  function Last(ids: seq<nat>): nat {
    if ids == [] then 0 else ids[|ids| - 1]
  }

  lemma LastIsLeast(ids: seq<nat>)
    requires Descending(ids)
    ensures forall id :: id in ids ==> id >= Last(ids)
  {
  }

  /** A page of `limit` rows or fewer shows the largest of the candidates and tells where the others start. */
  predicate Fits(page: Page, all: set<nat>, limit: nat) {
    && Descending(page.ids)
    && (forall id :: id in page.ids ==> id in all)
    && (page.next == None ==> |page.ids| <= limit && forall id :: id in all ==> id in page.ids)
    && (page.next.Some? ==>
          && |page.ids| == limit
          && DecodeCursor(page.next.value) == Ok(Last(page.ids))
          && forall id :: id in all ==> id in page.ids || id < Last(page.ids))
  }

  /** What a page of at least one row shows and leaves for the next one. */
  lemma PageIs(rows: Rows, cursor: Option<string>, below: Option<int>, limit: nat, filter: Filter)
    requires limit >= 1 && 0 !in rows
    requires if cursor.None? then below == None
             else DecodeCursor(cursor.value).Ok? && below == Some(DecodeCursor(cursor.value).value)
    ensures ListPage(rows, cursor, limit, filter).Ok?
    ensures Fits(ListPage(rows, cursor, limit, filter).value, Candidates(rows, below, filter), limit)
  {
    PageOfFits(Candidates(rows, below, filter), limit);
    if cursor.Some? {
      assert ListPage(rows, cursor, limit, filter)
          == Ok(PageOf(Top(Candidates(rows, below, filter), limit + 1), limit));
    }
  }

  lemma PageOfFits(all: set<nat>, limit: nat)
    requires limit >= 1 && 0 !in all
    ensures Fits(PageOf(Top(all, limit + 1), limit), all, limit)
  {
    TopIs(all, limit + 1);
    if |Top(all, limit + 1)| <= limit { AllFetched(all, limit + 1); }
    FetchedFits(all, Top(all, limit + 1), limit);
  }

  /** Dropping the row fetched beyond the limit leaves it and all further candidates below the last one kept. */
  lemma FetchedFits(all: set<nat>, fetched: seq<nat>, limit: nat)
    requires 1 <= limit && |fetched| <= limit + 1 && Descending(fetched) && 0 !in all
    requires forall id :: id in fetched ==> id in all
    requires |fetched| <= limit ==> forall id :: id in all ==> id in fetched
    requires forall id, k :: id in all && 0 <= k < |fetched| ==> id in fetched || id < fetched[k]
    ensures Fits(PageOf(fetched, limit), all, limit)
  {
    if |fetched| <= limit {
      assert PageOf(fetched, limit) == Page(fetched, None);
    } else {
      assert fetched[limit - 1] in fetched;
      CursorRoundTrip(fetched[limit - 1]);
      CutFits(all, fetched, EncodeCursor(fetched[limit - 1]), limit);
    }
  }

  lemma CutFits(all: set<nat>, fetched: seq<nat>, next: string, limit: nat)
    requires |fetched| == limit + 1 && limit >= 1 && Descending(fetched) && (forall id :: id in fetched ==> id in all)
    requires forall id, k :: id in all && 0 <= k < |fetched| ==> id in fetched || id < fetched[k]
    requires DecodeCursor(next) == Ok(fetched[limit - 1])
    ensures Fits(Page(fetched[..limit], Some(next)), all, limit)
  {
    var page := fetched[..limit];
    assert fetched == page + [fetched[limit]];
    assert Last(page) == fetched[limit - 1];
  }

  lemma {:induction false} AllFetched(ids: set<nat>, n: nat)
    requires |Top(ids, n)| < n
    ensures forall id :: id in ids ==> id in Top(ids, n)
  {
    if ids != {} { AllFetched(ids - {Max(ids)}, n - 1); }
  }

  // ---------------------------------------------------------------- following the cursor

  /** A reader's pages, page `k` read from the table as it was then. */
  datatype Walk = Walk(tables: seq<Rows>, pages: seq<Page>, limit: nat, filter: Filter) {
    ghost predicate Valid() {
      && limit >= 1 && |pages| >= 1 && |tables| == |pages|
      && (forall k :: 0 <= k < |pages| ==> PageAt(k))
    }

    ghost predicate PageAt(k: int)
      requires |tables| == |pages| && 0 <= k < |pages|
    {
      && 0 !in tables[k]
      && (k > 0 ==> pages[k - 1].next.Some?)
      && ListPage(tables[k], if k == 0 then None else pages[k - 1].next, limit, filter) == Ok(pages[k])
    }

    /** Row `id` is there, with the columns the filter asks for, whenever a page is read. */
    predicate Stays(id: nat)
      requires |tables| == |pages|
    {
      forall k :: 0 <= k < |tables| ==> id in tables[k] && Matches(filter, tables[k][id])
    }

    predicate Ended()
      requires |pages| >= 1
    {
      pages[|pages| - 1].next == None
    }

    /** The ids returned by the first `n` pages. */
    function Returned(n: nat): seq<nat>
      requires n <= |pages|
    {
      if n == 0 then [] else Returned(n - 1) + pages[n - 1].ids
    }
  }

  /** Where page `k` was told to start. */
  function Below(w: Walk, k: nat): Option<int>
    requires k < |w.pages|
  {
    if k == 0 then None else Some(Last(w.pages[k - 1].ids))
  }

  lemma {:induction false} PagesFit(w: Walk, k: nat)
    requires w.Valid() && k < |w.pages|
    ensures 0 !in w.tables[k] && (k > 0 ==> w.pages[k - 1].next.Some?)
    ensures Fits(w.pages[k], Candidates(w.tables[k], Below(w, k), w.filter), w.limit)
  {
    assert w.PageAt(k);
    if k > 0 { PagesFit(w, k - 1); }
    PageIs(w.tables[k], if k == 0 then None else w.pages[k - 1].next, Below(w, k), w.limit, w.filter);
  }

  lemma {:induction false} ReturnedDescends(w: Walk, n: nat)
    requires w.Valid() && n <= |w.pages|
    ensures Descending(w.Returned(n))
    ensures n > 0 && w.pages[n - 1].next.Some? ==> forall id :: id in w.Returned(n) ==> id >= Last(w.pages[n - 1].ids)
  {
    if n > 0 {
      ReturnedDescends(w, n - 1);
      PagesFit(w, n - 1);
      LastIsLeast(w.pages[n - 1].ids);
      if w.pages[n - 1].ids != [] { assert Last(w.pages[n - 1].ids) in w.pages[n - 1].ids; }
      DescendingConcat(w.Returned(n - 1), w.pages[n - 1].ids);
    }
  }

  /**
   Nothing is returned twice, ids descend over all pages, and what is returned was a matching row of the table then.
   */
  lemma NoneTwice(w: Walk)
    requires w.Valid()
    ensures Descending(w.Returned(|w.pages|))
    ensures forall k, id :: 0 <= k < |w.pages| && id in w.pages[k].ids ==>
        id in w.tables[k] && Matches(w.filter, w.tables[k][id])
  {
    ReturnedDescends(w, |w.pages|);
    forall k, id | 0 <= k < |w.pages| && id in w.pages[k].ids
      ensures id in w.tables[k] && Matches(w.filter, w.tables[k][id])
    {
      PagesFit(w, k);
    }
  }

  lemma {:induction false} Reached(w: Walk, id: nat, n: nat)
    requires w.Valid() && 0 < n <= |w.pages| && w.Stays(id)
    ensures id in w.Returned(n) || (w.pages[n - 1].next.Some? && id < Last(w.pages[n - 1].ids))
  {
    PagesFit(w, n - 1);
    if n > 1 {
      Reached(w, id, n - 1);
    }
    if n == 1 || id < Last(w.pages[n - 2].ids) {
      assert id in Candidates(w.tables[n - 1], Below(w, n - 1), w.filter);
    }
  }

  /**
   Following `next_cursor` until it is absent returns every row that was there and admitted throughout
   exactly once, whatever rows were added meanwhile.
   */
  lemma EveryRowOnce(w: Walk, id: nat)
    requires w.Valid() && w.Ended() && w.Stays(id)
    ensures multiset(w.Returned(|w.pages|))[id] == 1
  {
    Reached(w, id, |w.pages|);
    ReturnedDescends(w, |w.pages|);
    CountedOnce(w.Returned(|w.pages|), id);
  }

  lemma {:induction false} CountedOnce(ids: seq<nat>, id: nat)
    requires Descending(ids) && id in ids
    ensures multiset(ids)[id] == 1
  {
    var front, last := ids[..|ids| - 1], ids[|ids| - 1];
    assert ids == front + [last];
    if id == last { assert id !in front; } else { CountedOnce(front, id); }
  }

  /** The HTTP interface asks for at least one row a page: with a limit of zero the walk ends at once, empty. */
  lemma LimitZeroShowsNothing(rows: Rows, filter: Filter)
    ensures ListPage(rows, None, 0, filter) == Ok(Page([], None))
  {
    TopIs(Candidates(rows, None, filter), 1);
  }

  lemma {:induction false} PagesDescend(w: Walk, k: nat)
    requires w.Valid() && k < |w.pages| && w.pages[k].next.Some?
    ensures w.pages[0].ids != [] && Last(w.pages[k].ids) + k * w.limit <= Last(w.pages[0].ids)
  {
    PagesFit(w, k);
    if k > 0 {
      PagesDescend(w, k - 1);
      PageShrinks(w.pages[k].ids, w.limit, Last(w.pages[k - 1].ids));
      assert k * w.limit == (k - 1) * w.limit + w.limit;
    }
  }

  lemma {:induction false} PageShrinks(ids: seq<nat>, n: nat, bound: nat)
    requires Descending(ids) && |ids| == n >= 1 && forall id :: id in ids ==> id < bound
    ensures Last(ids) + n <= bound
  {
    if n > 1 {
      var front := ids[..n - 1];
      assert forall id :: id in front ==> id in ids;
      PageShrinks(front, n - 1, bound);
      assert ids[n - 1] < ids[n - 2];
    } else {
      assert ids[0] in ids;
    }
  }

  /** Following the cursor ends: the row ids of the first page bound the number of pages, whatever is added later. */
  lemma FollowingEnds(w: Walk)
    requires w.Valid()
    ensures (|w.pages| - 1) * w.limit <= if w.pages[0].ids == [] then 0 else w.pages[0].ids[0]
  {
    var n := |w.pages|;
    if n > 1 {
      PagesFit(w, n - 1);
      PagesFit(w, n - 2);
      assert w.pages[n - 2].ids[w.limit - 1] in w.pages[n - 2].ids;
      PagesDescend(w, n - 2);
      FirstPage(w);
      assert (n - 1) * w.limit == (n - 2) * w.limit + w.limit;
    }
  }

  lemma FirstPage(w: Walk)
    requires w.Valid() && |w.pages| > 1
    ensures w.pages[0].ids != [] && Last(w.pages[0].ids) + w.limit <= w.pages[0].ids[0] + 1
  {
    PagesFit(w, 1);
    PagesFit(w, 0);
    PageShrinks(w.pages[0].ids, w.limit, w.pages[0].ids[0] + 1);
  }
}
