/** Properties that relate several calls of the inspection-record service:
    how patches compose, how pages tile the filtered list, what the generated
    store looks like, and what update and delete do to id uniqueness and to
    later listings. */
module StoreProperties {
  import opened Wrappers
  import opened InspectionTypes
  import opened InspectionStore
  import Decimal

  // ---------------------------------------------------------------------------
  // Patches
  // ---------------------------------------------------------------------------

  /** Two patches applied one after the other, as one patch: a field set in
      the second wins, otherwise the first's setting stands. */
  function MergePatches(first: RecordPatch, second: RecordPatch): RecordPatch {
    RecordPatch(
      if second.id.Some? then second.id else first.id,
      if second.orderNo.Some? then second.orderNo else first.orderNo,
      if second.inspectionType.Some? then second.inspectionType else first.inspectionType,
      if second.materialCode.Some? then second.materialCode else first.materialCode,
      if second.materialName.Some? then second.materialName else first.materialName,
      if second.result.Some? then second.result else first.result,
      if second.inspectionTime.Some? then second.inspectionTime else first.inspectionTime)
  }

  /** A patch with no field set leaves a record as it is, applying a patch
      twice is applying it once, and two patches in a row act as their merge. */
  lemma PatchLaws(rec: InspectionRecord, p: RecordPatch, q: RecordPatch)
    ensures ApplyPatch(rec, EmptyPatch) == rec
    ensures ApplyPatch(ApplyPatch(rec, p), p) == ApplyPatch(rec, p)
    ensures ApplyPatch(ApplyPatch(rec, p), q) == ApplyPatch(rec, MergePatches(p, q))
  {
  }

  /** Updating with a patch that sets nothing answers the stored record and
      leaves the store as it was. */
  lemma UpdateWithEmptyPatch(store: Store, id: string)
    ensures var r := UpdateInspectionRecord(store, id, EmptyPatch);
            r.store == store && (r.outcome.Ok? ==> r.outcome.value in store)
  {
    var r := UpdateInspectionRecord(store, id, EmptyPatch);
    if r.outcome.Ok? {
      var i := FindIndex(store, id).value;
      assert IsFirstMatch(store, id, i);
      assert r.store == store;
    }
  }

  // ---------------------------------------------------------------------------
  // Filtering and paging
  // ---------------------------------------------------------------------------

  /** Filtering keeps the store order: filtering a concatenation is
      concatenating the filtered parts. */
  lemma {:induction false} FilterAppend(a: Store, b: Store, t: InspectionTypeName)
    ensures FilterByType(a + b, t) == FilterByType(a, t) + FilterByType(b, t)
    decreases |a|
  {
    if |a| == 0 {
      assert a + b == b;
    } else {
      assert (a + b)[1..] == a[1..] + b;
      FilterAppend(a[1..], b, t);
    }
  }

  /** `total` and `totalPages` depend on the type filter and page size only,
      never on the page asked for. */
  lemma TotalIgnoresPage(store: Store, q1: InspectionQuery, q2: InspectionQuery)
    requires ValidQuery(q1) && ValidQuery(q2)
    requires q1.typeFilter == q2.typeFilter
    ensures FetchInspectionList(store, q1).total == FetchInspectionList(store, q2).total
    ensures q1.pageSize.GetOr(10) == q2.pageSize.GetOr(10) ==>
              FetchInspectionList(store, q1).totalPages == FetchInspectionList(store, q2).totalPages
  {
  }

  /** A request with every field left out lists the first ten records of
      the whole store. */
  lemma DefaultQueryFirstPage(store: Store)
    ensures var r := FetchInspectionList(store, EmptyQuery);
            && r.page == 1 && r.pageSize == 10 && r.total == |store|
            && r.data == store[..Min(10, |store|)]
  {
    PageIsSlice(store, 1, 10);
  }

  /** A page holds records exactly when its number is at most `totalPages`;
      every page past the last is empty. */
  lemma PageNonEmptyIff(items: seq<InspectionRecord>, page: int, pageSize: int)
    requires page >= 1 && pageSize >= 1
    ensures var r := Paginate(items, page, pageSize);
            r.data != [] <==> page <= r.totalPages
  {
    var r := Paginate(items, page, pageSize);
    var n := r.totalPages;
    if page <= n {
      MultiplyMonotone(page - 1, n - 1, pageSize);
      assert PageStart(page, pageSize) < |items|;
      assert r.data[0] == items[PageStart(page, pageSize)];
    } else {
      MultiplyMonotone(n, page - 1, pageSize);
    }
  }

  lemma MultiplyMonotone(a: int, b: int, c: nat)
    requires a <= b
    ensures a * c <= b * c
  {
  }

  /** Pages 1 to `n`, one after the other. */
  function PagesUpTo<T>(items: seq<T>, pageSize: int, n: nat): seq<T>
    requires pageSize >= 1
  {
    if n == 0 then [] else PagesUpTo(items, pageSize, n - 1) + Paginate(items, n, pageSize).data
  }

  function Min(a: int, b: int): int {
    if a <= b then a else b
  }

  lemma MulSucc(a: int, b: int)
    ensures a * b + b == (a + 1) * b
  {
  }

  /** Page `page` is the stretch of the list between its start and the start
      of the next page, both cut back to the length of the list. */
  lemma PageIsSlice<T>(items: seq<T>, page: int, pageSize: int)
    requires page >= 1 && pageSize >= 1
    ensures var start := PageStart(page, pageSize);
            Paginate(items, page, pageSize).data == items[Min(start, |items|)..Min(start + pageSize, |items|)]
  {
  }

  /** Page `n` ends where the first `n` pages of `pageSize` items end. */
  lemma PageEnd(n: int, pageSize: int)
    requires n >= 1 && pageSize >= 1
    ensures PageStart(n, pageSize) + pageSize == n * pageSize
    ensures PageStart(n, pageSize) == (n - 1) * pageSize
  {
    MulSucc(n - 1, pageSize);
  }

  /** The first `n` pages are the first `n * pageSize` items, cut back to the
      length of the list. */
  lemma {:induction false} PagesUpToIsPrefix<T>(items: seq<T>, pageSize: int, n: nat)
    requires pageSize >= 1
    ensures PagesUpTo(items, pageSize, n) == items[..Min(n * pageSize, |items|)]
  {
    if n > 0 {
      var prevEnd := (n - 1) * pageSize;
      var end := n * pageSize;
      PagesUpToIsPrefix(items, pageSize, n - 1);
      PageEnd(n, pageSize);
      PageIsSlice(items, n, pageSize);
      var prev := Min(prevEnd, |items|);
      var cur := Min(end, |items|);
      assert PagesUpTo(items, pageSize, n) == items[..prev] + items[prev..cur];
      assert items[..prev] + items[prev..cur] == items[..cur];
    }
  }

  /** The pages from 1 to `totalPages` tile the list: in order, they are the
      list itself, each record once. */
  lemma PagesTileTheList<T>(items: seq<T>, pageSize: int)
    requires pageSize >= 1
    ensures PagesUpTo(items, pageSize, Paginate(items, 1, pageSize).totalPages) == items
  {
    var n := Paginate(items, 1, pageSize).totalPages;
    PagesUpToIsPrefix(items, pageSize, n);
  }

  // ---------------------------------------------------------------------------
  // The generated store
  // ---------------------------------------------------------------------------

  /** No two records of the store share an id. */
  predicate UniqueIds(s: Store) {
    forall i, j :: 0 <= i < j < |s| ==> s[i].id != s[j].id
  }

  /** Records generated at different positions get different ids. */
  lemma RecordIdInjective(i: nat, j: nat)
    ensures RecordId(i) == RecordId(j) ==> i == j
  {
    if RecordId(i) == RecordId(j) {
      var a := Decimal.NatToString(i + 1);
      var b := Decimal.NatToString(j + 1);
      assert a == RecordId(i)[4..];
      assert b == RecordId(j)[4..];
      Decimal.RenderInjective(i + 1, j + 1);
    }
  }

  /** The generated store has unique ids. */
  lemma GeneratedIdsUnique(count: nat, draws: seq<real>, times: seq<string>)
    requires |draws| == count && |times| == count
    ensures UniqueIds(GenerateRecords(count, draws, times))
  {
    var s := GenerateRecords(count, draws, times);
    forall i, j | 0 <= i < j < |s|
      ensures s[i].id != s[j].id
    {
      RecordIdInjective(i, j);
    }
  }

  /** The type column of a generated store of length `n`. */
  function CycledTypes(n: nat): (c: seq<InspectionTypeName>)
    ensures |c| == n
  {
    seq(n, i requires 0 <= i < n => AllTypes[i % 6])
  }

  /** Six more positions append the six types in list order. */
  lemma CycledTypesGrow(m: nat)
    ensures CycledTypes(6 * m + 6) == CycledTypes(6 * m) + AllTypes
  {
    var c := CycledTypes(6 * m + 6);
    var head := CycledTypes(6 * m);
    forall k | 0 <= k < 6 * m + 6
      ensures c[k] == (head + AllTypes)[k]
    {
      if k >= 6 * m {
        ModShift(m, k - 6 * m);
      }
    }
  }

  /** Every block of six consecutive positions holds each type once. */
  lemma {:induction false} CycledTypesBalance(m: nat, t: InspectionTypeName)
    ensures multiset(CycledTypes(6 * m))[t] == m
  {
    if m > 0 {
      CycledTypesBalance(m - 1, t);
      CycledTypesGrow(m - 1);
      assert 6 * (m - 1) + 6 == 6 * m;
      assert multiset(AllTypes)[t] == 1;
    }
  }

  lemma ModShift(m: nat, k: nat)
    requires k < 6
    ensures (6 * m + k) % 6 == k
  {
  }

  /** A generated store of `6 * m` records holds `m` records of each type. */
  lemma GeneratedTypeBalance(m: nat, draws: seq<real>, times: seq<string>, t: InspectionTypeName)
    requires |draws| == 6 * m && |times| == 6 * m
    ensures |FilterByType(GenerateRecords(6 * m, draws, times), t)| == m
  {
    var s := GenerateRecords(6 * m, draws, times);
    assert TypeColumn(s) == CycledTypes(6 * m);
    CycledTypesBalance(m, t);
    FilterCount(s, t);
  }

  /** On the initial store, the first five first-piece inspections: a full
      page of five, ten in all, two pages. */
  lemma FirstPieceExample(draws: seq<real>, times: seq<string>)
    requires |draws| == RecordCount && |times| == RecordCount
    ensures var r := FetchInspectionList(InitialStore(draws, times), InspectionQuery(Some(FirstPiece), Some(1), Some(5)));
            |r.data| == 5 && r.total == 10 && r.totalPages == 2
  {
    GeneratedTypeBalance(10, draws, times, FirstPiece);
  }

  // ---------------------------------------------------------------------------
  // Update and delete against ids
  // ---------------------------------------------------------------------------

  /** Under unique ids, an update whose patch leaves the id alone (or sets it
      to the same id) keeps ids unique. */
  lemma UpdateKeepsIdsUnique(store: Store, id: string, patch: RecordPatch)
    requires UniqueIds(store)
    requires patch.id.None? || patch.id.value == id
    ensures UniqueIds(UpdateInspectionRecord(store, id, patch).store)
  {
    var r := UpdateInspectionRecord(store, id, patch);
    if r.outcome.Ok? {
      var i := FindIndex(store, id).value;
      assert IsFirstMatch(store, id, i);
      forall a, b | 0 <= a < b < |r.store|
        ensures r.store[a].id != r.store[b].id
      {
        assert r.store[a].id == store[a].id;
        assert r.store[b].id == store[b].id;
      }
    }
  }

  /** Nothing stops a patch from copying another record's id: updating "a"
      with the id "b" leaves two records with the id "b". */
  lemma UpdateCanDuplicateId(x: InspectionRecord, y: InspectionRecord)
    requires x.id == "a" && y.id == "b"
    ensures var r := UpdateInspectionRecord([x, y], "a", EmptyPatch.(id := Some("b")));
            r.outcome.Ok? && UniqueIds([x, y]) && !UniqueIds(r.store)
  {
    var r := UpdateInspectionRecord([x, y], "a", EmptyPatch.(id := Some("b")));
    assert IsFirstMatch([x, y], "a", 0);
    assert r.store[0].id == "b" && r.store[1].id == "b";
  }

  /** An update whose patch leaves the type alone keeps every list total. */
  lemma UpdateKeepsTotals(store: Store, id: string, patch: RecordPatch, q: InspectionQuery)
    requires patch.inspectionType.None?
    requires ValidQuery(q)
    ensures var after := UpdateInspectionRecord(store, id, patch).store;
            FetchInspectionList(after, q).total == FetchInspectionList(store, q).total
  {
    var after := UpdateInspectionRecord(store, id, patch).store;
    if HasId(store, id) {
      var i := FindIndex(store, id).value;
      assert IsFirstMatch(store, id, i);
    }
    assert TypeColumn(after) == TypeColumn(store);
  }

  /** Deleting keeps ids unique. */
  lemma DeleteKeepsIdsUnique(store: Store, id: string)
    requires UniqueIds(store)
    ensures UniqueIds(DeleteInspectionRecord(store, id).store)
  {
    var r := DeleteInspectionRecord(store, id);
    if r.outcome.Ok? {
      var i := FindIndex(store, id).value;
      assert IsFirstMatch(store, id, i);
      forall a, b | 0 <= a < b < |r.store|
        ensures r.store[a].id != r.store[b].id
      {
        var a' := if a < i then a else a + 1;
        var b' := if b < i then b else b + 1;
        assert r.store[a] == store[a'] && r.store[b] == store[b'];
      }
    }
  }

  /** Under unique ids, a successful delete leaves no record with that id,
      and the store is one shorter. */
  lemma DeleteRemovesId(store: Store, id: string)
    requires UniqueIds(store)
    requires HasId(store, id)
    ensures var r := DeleteInspectionRecord(store, id);
            !HasId(r.store, id) && |r.store| == |store| - 1
  {
    var r := DeleteInspectionRecord(store, id);
    var i := FindIndex(store, id).value;
    assert IsFirstMatch(store, id, i);
    forall k | 0 <= k < |r.store|
      ensures r.store[k].id != id
    {
      var k' := if k < i then k else k + 1;
      assert r.store[k] == store[k'];
    }
  }

  /** Under unique ids, no listing after a delete shows the deleted id. */
  lemma DeleteThenFetchOmitsId(store: Store, id: string, q: InspectionQuery)
    requires UniqueIds(store)
    requires ValidQuery(q)
    ensures var after := DeleteInspectionRecord(store, id).store;
            forall x :: x in FetchInspectionList(after, q).data ==> x.id != id
  {
    var after := DeleteInspectionRecord(store, id).store;
    if HasId(store, id) {
      DeleteRemovesId(store, id);
    }
  }
}
