/** The in-memory inspection-record service: a store generated once, and the
    list, update and delete operations over it. The store is an ordered
    sequence of records; every operation is a pure function from the store it
    sees to its answer and the store it leaves behind. The simulated latency
    and the promise plumbing are not part of this model. */
module InspectionStore {
  import opened Wrappers
  import opened InspectionTypes
  import Decimal

  /** The record list the service owns, in order. */
  type Store = seq<InspectionRecord>

  // ---------------------------------------------------------------------------
  // Generation of the initial store
  // ---------------------------------------------------------------------------

  /** How many records the service starts with. */
  const RecordCount: nat := 60

  const MaterialCode: string := "IT2022101001101"
  const MaterialName: string := "博世螺丝刀"
  const OrderPrefix: string := "T00T70602202"

  /** A random draw `u` in [0, 1) picks the first result label (pass) when it
      exceeds 0.35 and the second (fail) otherwise. */
  function ResultFromDraw(u: real): InspectionResult {
    if u > 0.35 then Pass else Fail
  }

  /** The last `n` characters of `s`, or all of `s` when it is shorter, as
      `slice(-n)` returns them for n >= 1. */
  function LastChars(s: string, n: nat): (r: string)
    requires n >= 1
    ensures |r| == if |s| < n then |s| else n
    ensures r == s[|s| - |r|..]
  {
    if |s| < n then s else s[|s| - n..]
  }

  /** The id of the record generated at position `i`: "rec-" then `i + 1`. */
  function RecordId(i: nat): string {
    "rec-" + Decimal.NatToString(i + 1)
  }

  /** The order number of the record generated at position `i`. */
  function OrderNo(i: nat): string {
    OrderPrefix + LastChars(Decimal.NatToString(2000 + i * 6), 4)
  }

  /** The record generated at position `i`, given the random draw for its
      result and the date drawn for it. */
  function GeneratedRecord(i: nat, draw: real, time: string): InspectionRecord {
    InspectionRecord(
      RecordId(i),
      OrderNo(i),
      AllTypes[i % |AllTypes|],
      MaterialCode,
      MaterialName,
      ResultFromDraw(draw),
      time)
  }

  /** `count` records, one per position; the random sources of the result and
      the date are supplied as one draw and one date string per position. */
  function GenerateRecords(count: nat, draws: seq<real>, times: seq<string>): (s: Store)
    requires |draws| == count && |times| == count
    ensures |s| == count
    ensures forall i :: 0 <= i < count ==> s[i].id == RecordId(i)
    ensures forall i :: 0 <= i < count ==> s[i].inspectionType == AllTypes[i % 6]
    ensures forall i :: 0 <= i < count ==> (s[i].result == Pass <==> draws[i] > 0.35)
  {
    seq(count, i requires 0 <= i < count => GeneratedRecord(i, draws[i], times[i]))
  }

  /** The store the service starts with. */
  function InitialStore(draws: seq<real>, times: seq<string>): (s: Store)
    requires |draws| == RecordCount && |times| == RecordCount
    ensures |s| == 60
  {
    GenerateRecords(RecordCount, draws, times)
  }

  // ---------------------------------------------------------------------------
  // Listing: filter, count, page
  // ---------------------------------------------------------------------------

  /** The records of type `t`, in store order. */
  function FilterByType(s: Store, t: InspectionTypeName): (r: Store)
    ensures |r| <= |s|
    ensures forall x :: x in r <==> x in s && x.inspectionType == t
    decreases |s|
  {
    if |s| == 0 then []
    else if s[0].inspectionType == t then [s[0]] + FilterByType(s[1..], t)
    else FilterByType(s[1..], t)
  }

  /** The inspection type of every record, position by position. */
  function TypeColumn(s: Store): (c: seq<InspectionTypeName>)
    ensures |c| == |s|
  {
    seq(|s|, i requires 0 <= i < |s| => s[i].inspectionType)
  }

  /** The sequence a list request pages through: the records of the requested
      type, or the whole store when no type is given. */
  function Selected(s: Store, typeFilter: Option<InspectionTypeName>): (r: Store)
    ensures typeFilter.None? ==> r == s
    ensures typeFilter.Some? ==> forall x :: x in r <==> x in s && x.inspectionType == typeFilter.value
  {
    match typeFilter
    case None => s
    case Some(t) => FilterByType(s, t)
  }

  /** The number of pages of `size` items needed for `total` items: the least
      `q` with `q * size >= total`. */
  function PageCount(total: nat, size: int): (q: nat)
    requires size >= 1
    ensures q * size >= total
    ensures q == 0 || (q - 1) * size < total
  {
    (total + size - 1) / size
  }

  /** The part of `s` from `start` up to `end`, with both bounds cut back to
      the length of `s`, as `slice(start, end)` returns it for
      0 <= start <= end. */
  function SliceClamped<T>(s: seq<T>, start: int, end: int): (r: seq<T>)
    requires 0 <= start <= end
    ensures |r| == if start >= |s| then 0 else if end <= |s| then end - start else |s| - start
    ensures forall k :: 0 <= k < |r| ==> r[k] == s[start + k]
  {
    if start >= |s| then []
    else if end <= |s| then s[start..end]
    else s[start..]
  }

  const DefaultPage: int := 1
  const DefaultPageSize: int := 10

  /** The requests the model covers: after defaults, a page from 1 on and a
      page size of at least 1. Other values are not validated by the service
      and are outside this model. */
  predicate ValidQuery(q: InspectionQuery) {
    q.page.GetOr(DefaultPage) >= 1 && q.pageSize.GetOr(DefaultPageSize) >= 1
  }

  /** The position in the selected sequence where page `page` starts. */
  function PageStart(page: int, pageSize: int): nat
    requires page >= 1 && pageSize >= 1
  {
    (page - 1) * pageSize
  }

  /** Page `page` of `items` at `pageSize` items a page, with the counts
      that describe the whole sequence. */
  function Paginate<T>(items: seq<T>, page: int, pageSize: int): (r: PaginatedResponse<T>)
    requires page >= 1 && pageSize >= 1
    ensures r.page == page && r.pageSize == pageSize
    ensures r.total == |items|
    ensures r.totalPages * pageSize >= |items|
    ensures r.totalPages == 0 || (r.totalPages - 1) * pageSize < |items|
    ensures |r.data| <= pageSize
    ensures PageStart(page, pageSize) >= |items| ==> r.data == []
    ensures r.data != [] ==> PageStart(page, pageSize) + |r.data| <= |items|
    ensures PageStart(page, pageSize) < |items| ==>
              |r.data| == if PageStart(page, pageSize) + pageSize <= |items| then pageSize
                          else |items| - PageStart(page, pageSize)
    ensures forall k :: 0 <= k < |r.data| ==> r.data[k] == items[PageStart(page, pageSize) + k]
    ensures forall x :: x in r.data ==> x in items
  {
    var start := PageStart(page, pageSize);
    var data := SliceClamped(items, start, start + pageSize);
    assert forall x :: x in data ==> x in items by {
      forall x | x in data
        ensures x in items
      {
        var k :| 0 <= k < |data| && data[k] == x;
        assert items[start + k] == x;
      }
    }
    PaginatedResponse(data, |items|, page, pageSize, PageCount(|items|, pageSize))
  }

  /** One page of the records of the requested type. The store itself is
      only read. */
  function FetchInspectionList(store: Store, q: InspectionQuery): (r: PaginatedResponse<InspectionRecord>)
    requires ValidQuery(q)
    ensures r.page == q.page.GetOr(1) && r.pageSize == q.pageSize.GetOr(10)
    ensures q.typeFilter.Some? ==> forall x :: x in r.data ==> x.inspectionType == q.typeFilter.value
    ensures forall x :: x in r.data ==> x in store
    ensures r.total == |Selected(store, q.typeFilter)|
    ensures q.typeFilter.None? ==> r.total == |store|
    ensures q.typeFilter.Some? ==> r.total == multiset(TypeColumn(store))[q.typeFilter.value]
    ensures r.totalPages * r.pageSize >= r.total
    ensures r.totalPages == 0 || (r.totalPages - 1) * r.pageSize < r.total
    ensures |r.data| <= r.pageSize
    ensures PageStart(r.page, r.pageSize) >= r.total ==> r.data == []
    ensures r.data != [] ==> PageStart(r.page, r.pageSize) + |r.data| <= r.total
    ensures PageStart(r.page, r.pageSize) < r.total ==>
              |r.data| == if PageStart(r.page, r.pageSize) + r.pageSize <= r.total then r.pageSize
                          else r.total - PageStart(r.page, r.pageSize)
    ensures forall k :: 0 <= k < |r.data| ==>
              r.data[k] == Selected(store, q.typeFilter)[PageStart(r.page, r.pageSize) + k]
  {
    var filtered := Selected(store, q.typeFilter);
    assert q.typeFilter.Some? ==> |filtered| == multiset(TypeColumn(store))[q.typeFilter.value] by {
      if q.typeFilter.Some? {
        FilterCount(store, q.typeFilter.value);
      }
    }
    Paginate(filtered, q.page.GetOr(DefaultPage), q.pageSize.GetOr(DefaultPageSize))
  }

  /** The length of the filtered sequence is the number of times the type
      occurs in the store's type column. */
  lemma {:induction false} FilterCount(s: Store, t: InspectionTypeName)
    ensures |FilterByType(s, t)| == multiset(TypeColumn(s))[t]
    decreases |s|
  {
    if |s| > 0 {
      assert TypeColumn(s) == [s[0].inspectionType] + TypeColumn(s[1..]);
      FilterCount(s[1..], t);
    }
  }

  // ---------------------------------------------------------------------------
  // Update and delete
  // ---------------------------------------------------------------------------

  /** The one failure the mutating operations report: no record has the id. */
  datatype ServiceError = NotFound(id: string)

  /** The answer of a mutating call and the store it leaves behind. */
  datatype Step<+T> = Step(outcome: Result<T, ServiceError>, store: Store)

  /** `i` is the position of the first record whose id is `id`. */
  predicate IsFirstMatch(s: Store, id: string, i: int) {
    0 <= i < |s| && s[i].id == id && forall j :: 0 <= j < i ==> s[j].id != id
  }

  predicate HasId(s: Store, id: string) {
    exists i :: 0 <= i < |s| && s[i].id == id
  }

  /** The position of the first record with id `id`, if any. */
  function FindIndex(s: Store, id: string): (r: Option<nat>)
    ensures r.Some? ==> IsFirstMatch(s, id, r.value)
    ensures r.None? <==> !HasId(s, id)
    decreases |s|
  {
    if |s| == 0 then None
    else if s[0].id == id then Some(0)
    else match FindIndex(s[1..], id)
      case None => None
      case Some(i) => Some(i + 1)
  }

  /** The record with every field the patch sets replaced by the patch's
      value, and every other field kept. */
  function ApplyPatch(rec: InspectionRecord, p: RecordPatch): InspectionRecord {
    InspectionRecord(
      p.id.GetOr(rec.id),
      p.orderNo.GetOr(rec.orderNo),
      p.inspectionType.GetOr(rec.inspectionType),
      p.materialCode.GetOr(rec.materialCode),
      p.materialName.GetOr(rec.materialName),
      p.result.GetOr(rec.result),
      p.inspectionTime.GetOr(rec.inspectionTime))
  }

  /** Merges `patch` into the first record with id `id` and answers the
      merged record; rejects with NotFound, store untouched, when no record
      has that id. */
  function UpdateInspectionRecord(store: Store, id: string, patch: RecordPatch): (r: Step<InspectionRecord>)
    ensures r.outcome.Err? <==> !HasId(store, id)
    ensures r.outcome.Err? ==> r.outcome.error == NotFound(id) && r.store == store
    ensures |r.store| == |store|
    ensures forall i :: IsFirstMatch(store, id, i) ==>
              && r.outcome == Ok(r.store[i])
              && (patch.id.Some? ==> r.store[i].id == patch.id.value)
              && (patch.id.None? ==> r.store[i].id == store[i].id)
              && (patch.orderNo.Some? ==> r.store[i].orderNo == patch.orderNo.value)
              && (patch.orderNo.None? ==> r.store[i].orderNo == store[i].orderNo)
              && (patch.inspectionType.Some? ==> r.store[i].inspectionType == patch.inspectionType.value)
              && (patch.inspectionType.None? ==> r.store[i].inspectionType == store[i].inspectionType)
              && (patch.materialCode.Some? ==> r.store[i].materialCode == patch.materialCode.value)
              && (patch.materialCode.None? ==> r.store[i].materialCode == store[i].materialCode)
              && (patch.materialName.Some? ==> r.store[i].materialName == patch.materialName.value)
              && (patch.materialName.None? ==> r.store[i].materialName == store[i].materialName)
              && (patch.result.Some? ==> r.store[i].result == patch.result.value)
              && (patch.result.None? ==> r.store[i].result == store[i].result)
              && (patch.inspectionTime.Some? ==> r.store[i].inspectionTime == patch.inspectionTime.value)
              && (patch.inspectionTime.None? ==> r.store[i].inspectionTime == store[i].inspectionTime)
              && (forall j :: 0 <= j < |store| && j != i ==> r.store[j] == store[j])
  {
    match FindIndex(store, id)
    case None => Step(Err(NotFound(id)), store)
    case Some(i) =>
      var updated := ApplyPatch(store[i], patch);
      Step(Ok(updated), store[i := updated])
  }

  /** A store has at most one first match for an id. */
  lemma FirstMatchUnique(s: Store, id: string, i: int, k: int)
    requires IsFirstMatch(s, id, i) && IsFirstMatch(s, id, k)
    ensures i == k
  {
  }

  /** The store without position `i`; the others keep their order. */
  function RemoveAt(s: Store, i: nat): (r: Store)
    requires i < |s|
    ensures |r| == |s| - 1
    ensures forall j :: 0 <= j < i ==> r[j] == s[j]
    ensures forall j :: i <= j < |r| ==> r[j] == s[j + 1]
    ensures multiset(r) + multiset{s[i]} == multiset(s)
  {
    assert s == s[..i] + [s[i]] + s[i + 1..];
    s[..i] + s[i + 1..]
  }

  /** Removes the first record with id `id`, keeping the others in order;
      rejects with NotFound, store untouched, when no record has that id. */
  function DeleteInspectionRecord(store: Store, id: string): (r: Step<()>)
    ensures r.outcome.Err? <==> !HasId(store, id)
    ensures r.outcome.Err? ==> r.outcome.error == NotFound(id) && r.store == store
    ensures r.outcome.Ok? ==> |r.store| == |store| - 1
    ensures forall i :: IsFirstMatch(store, id, i) ==>
              && (forall j :: 0 <= j < i ==> r.store[j] == store[j])
              && (forall j :: i <= j < |r.store| ==> r.store[j] == store[j + 1])
              && multiset(r.store) + multiset{store[i]} == multiset(store)
  {
    match FindIndex(store, id)
    case None => Step(Err(NotFound(id)), store)
    case Some(i) =>
      assert forall k :: IsFirstMatch(store, id, k) ==> k == i by {
        forall k | IsFirstMatch(store, id, k)
          ensures k == i
        {
          FirstMatchUnique(store, id, i, k);
        }
      }
      Step(Ok(()), RemoveAt(store, i))
  }
}
