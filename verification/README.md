# Inspection records and touch gestures — a Dafny model

This project models the logic of a small mobile page for inspection records:

- the in-memory record service (`src/mock/inspection.ts`) with its generated store of 60 records and its three operations:
  - `fetchInspectionList` filters by inspection type, counts, computes the number of pages and cuts out one page;
  - `updateInspectionRecord` merges a partial record into the first record with a given id;
  - `deleteInspectionRecord` removes the first record with a given id;
- the value shapes those operations exchange (`src/types/inspection.ts`): two closed label sets, the seven-field record, the query with all fields optional, and the paginated response;
- the decision logic of the touch composables (`src/composables/useTouch.ts`):
  - the swipe detector records where a touch began and classifies each touchend as left, right or nothing;
  - the press tracker keeps `isPressed` in step with touchstart, touchend and touchcancel.

The store is a `seq<InspectionRecord>`, and every operation is a pure function of it.
`FetchInspectionList` only reads it.
`UpdateInspectionRecord` and `DeleteInspectionRecord` return a `Step`: the outcome (`Ok`, or `Err(NotFound(id))` where the source throws) together with the store the call leaves behind.
The two label unions become datatypes, each paired with the exact Chinese label it stands for and with a parser that accepts exactly those labels.

Files:

- `wrappers.dfy`: `Option` for optional properties and `Result` for resolve/reject.
- `inspection_types.dfy`: module `InspectionTypes`.
- `decimal.dfy`: module `Decimal`, the decimal rendering used in record ids, with its round trip.
- `inspection_store.dfy`: module `InspectionStore`, covering generation, listing, update and delete.
- `store_properties.dfy`: module `StoreProperties`, lemmas that relate several calls.
- `touch.dfy`: module `Touch`, covering swipe classification and press tracking.

Facts about the code that the model keeps as they are:

- A patch may set `id`, so ids are not immutable. The update merge copies every field the patch sets, so a patch can rename a record or duplicate another record's id (`StoreProperties.UpdateCanDuplicateId`). Id uniqueness is therefore proved only for updates whose patch leaves the id alone (`StoreProperties.UpdateKeepsIdsUnique`).
- A deleted id stays out of every later listing only while ids are unique, so `StoreProperties.DeleteThenFetchOmitsId` requires it. The generated store has unique ids (`StoreProperties.GeneratedIdsUnique`).
- A horizontal travel equal to the threshold, or equal to the vertical travel, is a swipe: the code rejects only travel strictly below either bound.

## Model

| member | source | states |
|---|---|---|
| InspectionTypes.ParseResult | src/types/inspection.ts:1 | exactly the two result labels are accepted, and each parses to the value whose label it is |
| InspectionTypes.ResultLabelsRoundTrip | src/types/inspection.ts:1 | the result union is closed: both values have distinct labels that parse back to them |
| InspectionTypes.ParseType | src/types/inspection.ts:3-9 | a string is accepted exactly when it is the label of some inspection type, and it parses to that type |
| InspectionTypes.TypeLabelsRoundTrip | src/types/inspection.ts:3-9 | the type union has exactly six members, all in the generation list, with pairwise distinct labels that parse back |
| Decimal.ParseRendered | src/mock/inspection.ts:24 | reading back the decimal numeral written into an id gives the number |
| Decimal.RenderInjective | src/mock/inspection.ts:24 | distinct numbers give distinct numerals |
| InspectionStore.LastChars | src/mock/inspection.ts:25 | `slice(-4)` yields the last four characters, or the whole string when it is shorter |
| InspectionStore.GenerateRecords | src/mock/inspection.ts:22-31 | `count` records; record i has id "rec-(i+1)" and the type at i mod 6; it passes exactly when its draw exceeds 0.35 |
| InspectionStore.InitialStore | src/mock/inspection.ts:34 | the service starts with 60 records |
| InspectionStore.FilterByType | src/mock/inspection.ts:46-49 | a record is in the filtered list exactly when it is in the store and has the requested type |
| InspectionStore.Selected | src/mock/inspection.ts:46-49 | with no type the whole store is paged; with a type, exactly the store's records of that type |
| InspectionStore.FilterCount | src/mock/inspection.ts:51 | the filtered length is the number of times the type occurs in the store's type column |
| InspectionStore.PageCount | src/mock/inspection.ts:52 | the page count is the ceiling of total / pageSize: the least q with q * pageSize >= total |
| InspectionStore.SliceClamped | src/mock/inspection.ts:54 | the slice's length is the requested span cut back to the list, and its k-th item is the list's item at start + k |
| InspectionStore.Paginate | src/mock/inspection.ts:51-56 | echoes page and pageSize; total and totalPages describe the whole list; data is at most pageSize items taken in order from (page-1)*pageSize; data is empty past the end and full when the list reaches the page's end |
| InspectionStore.FetchInspectionList | src/mock/inspection.ts:40-57 | defaults page 1 and size 10; every record shown has the requested type and is in the store; total counts all matches regardless of page; totalPages is the ceiling; data is the requested window of the filtered list, holding exactly pageSize records or the rest of the list, and none past the end |
| StoreProperties.DefaultQueryFirstPage | src/mock/inspection.ts:41-56 | a request with no fields lists page 1 of size 10 over the whole store: its first ten records |
| InspectionStore.FindIndex | src/mock/inspection.ts:64 | finds the first record with the id, or reports none exactly when no record has it |
| InspectionStore.UpdateInspectionRecord | src/mock/inspection.ts:59-67 | rejects with NotFound and keeps the store when the id is absent; otherwise each field of the first match takes the patch value when set and keeps its value when not; every other position is unchanged; the answer is the stored record |
| InspectionStore.DeleteInspectionRecord | src/mock/inspection.ts:69-74 | rejects with NotFound and keeps the store when the id is absent; otherwise the store is one shorter, the first match alone is gone, and the rest keep their order |
| InspectionStore.RemoveAt | src/mock/inspection.ts:73 | `splice(idx, 1)` shortens the store by one, keeps the records before and after the index in order, and drops exactly that record |
| StoreProperties.PatchLaws | src/mock/inspection.ts:66 | an empty patch changes nothing; a patch applied twice acts once; two patches in a row act as their merge, with the later one winning |
| StoreProperties.UpdateWithEmptyPatch | src/mock/inspection.ts:64-66 | an update that sets nothing leaves the store as it was and answers a stored record |
| StoreProperties.FilterAppend | src/mock/inspection.ts:48 | filtering keeps store order: it distributes over concatenation |
| StoreProperties.TotalIgnoresPage | src/mock/inspection.ts:51-52 | total depends only on the type filter, and totalPages only on the filter and page size |
| StoreProperties.PageNonEmptyIff | src/mock/inspection.ts:52-54 | a page has records exactly when its number is at most totalPages; pages past the last are empty without error |
| StoreProperties.PageIsSlice | src/mock/inspection.ts:53-54 | a page is the list between its start and its start plus pageSize, both cut back to the length |
| StoreProperties.PagesUpToIsPrefix | src/mock/inspection.ts:53-54 | pages 1 to n together are the first n * pageSize items |
| StoreProperties.PagesTileTheList | src/mock/inspection.ts:52-54 | pages 1 to totalPages, in order, are the whole filtered list, each record once |
| StoreProperties.RecordIdInjective | src/mock/inspection.ts:24 | records generated at different positions get different ids |
| StoreProperties.GeneratedIdsUnique | src/mock/inspection.ts:22-34 | the generated store has pairwise distinct ids |
| StoreProperties.CycledTypesBalance | src/mock/inspection.ts:26 | cycling the six types over 6m positions yields each type m times |
| StoreProperties.GeneratedTypeBalance | src/mock/inspection.ts:22-34 | a generated store of 6m records holds exactly m records of each type |
| StoreProperties.FirstPieceExample | src/mock/inspection.ts:34-56 | on the initial store, first-piece records at page 1 and size 5 give 5 records, total 10 and 2 pages, whatever the random draws |
| StoreProperties.UpdateKeepsIdsUnique | src/mock/inspection.ts:64-66 | an update whose patch leaves the id alone keeps ids unique |
| StoreProperties.UpdateCanDuplicateId | src/mock/inspection.ts:66 | a patch that sets another record's id succeeds and leaves two records with that id |
| StoreProperties.UpdateKeepsTotals | src/mock/inspection.ts:46-66 | an update whose patch leaves the type alone changes no listing total |
| StoreProperties.DeleteKeepsIdsUnique | src/mock/inspection.ts:71-73 | deleting keeps ids unique |
| StoreProperties.DeleteRemovesId | src/mock/inspection.ts:71-73 | with unique ids, a successful delete leaves no record with that id and shortens the store by one |
| StoreProperties.DeleteThenFetchOmitsId | src/mock/inspection.ts:40-74 | with unique ids, no listing after a delete shows the deleted id |
| Touch.ThresholdOf | src/composables/useTouch.ts:39 | the threshold defaults to 50 when the caller gives none |
| Touch.OnTouchStart | src/composables/useTouch.ts:44-48 | a touchstart without a touch point keeps the start position; otherwise the touch's coordinates become the start |
| Touch.OnTouchEnd | src/composables/useTouch.ts:50-55 | a touchend without a changed touch fires nothing; otherwise it classifies the displacement from the recorded start |
| Touch.ClassifyRule | src/composables/useTouch.ts:55-58 | no swipe when the horizontal travel is below the threshold or below the vertical travel; left exactly when dx < 0 and both bounds are met; right exactly when dx >= 0 and both are met |
| Touch.ClassifyMirror | src/composables/useTouch.ts:55-58 | negating a nonzero dx swaps left and right and keeps no-swipe |
| Touch.Dispatch | src/composables/useTouch.ts:57-58 | at most one callback fires: the left one exactly for a left swipe with a left callback, and likewise for right |
| Touch.SwipeRunSnoc | src/composables/useTouch.ts:44-53 | processing a run and then one more event is processing the longer run |
| Touch.LatestStart | src/composables/useTouch.ts:44-48 | a touchstart in the run carrying this point with no later touchstart carrying a point; none exactly when no touchstart in the run had a point |
| Touch.StartIsLatestTouch | src/composables/useTouch.ts:41-48 | after any run, the recorded start is the latest touchstart's touch point, or the origin if none had one |
| Touch.SwipeMeasuredFromLatestStart | src/composables/useTouch.ts:46-53 | a touchend's dx and dy are measured from the latest touchstart that had a touch |
| Touch.PressStepIdempotent | src/composables/useTouch.ts:77-80 | each press handler is idempotent and ignores the previous state; touchstart presses, touchend and touchcancel release |
| Touch.PressedIffLastStart | src/composables/useTouch.ts:79-87 | after a non-empty run, the element is pressed exactly when the last event was a touchstart |
| Touch.InitialPressRun | src/composables/useTouch.ts:77-87 | isPressed starts false and is true exactly after a final touchstart |

## Left out

- The artificial delay and the promise plumbing are not modelled. Each operation is one atomic function, and overlapping calls, last writer wins, are a concurrency matter outside the model.
- The random sources are parameters. Each record's result comes from a real draw `u`: pass when `u > 0.35`. The comparison is exact on reals, not on doubles. Each record's inspection date is a given string. The month, day and zero-padding of the random date are not modelled.
- The order number is modelled as written, with the prefix and the last four digits of `2000 + 6i`. No property is proved about it, since it is display text.
- InspectionStore.FetchInspectionList: requires page >= 1 and pageSize >= 1 after defaults. The service does not validate these. Page 0 or below would give a negative slice start, which counts from the end of the list. Page numbers and sizes that are not whole numbers are not modelled either.
- A patch key that is present but holds `undefined` is not modelled. The merge would copy `undefined` into the record, and the record type here cannot hold it.
- Records are shared objects in the source. The answer of an update is the stored record itself, and the records in a fetched page's `data` are the store's own records, since the slice copies the array but not the records. A later update therefore also changes an answer or a page returned earlier. The model returns values, so this aliasing is not modelled.
- Decimal rendering covers whole numbers only. Exponent notation for very large numbers never arises for ids up to the record count.
- Touch coordinates are whole numbers, while browsers report them as doubles. Thresholds are whole numbers too.
- The ripple effect (`useTouchRipple`) is not modelled. It is DOM manipulation and geometry with no decision in it.
- Listener registration and removal on mount and unmount, Vue refs and the DOM are not modelled. They are foreign to this model.
- The router (`src/router.ts`) is framework configuration and is not part of this model.
- The API layer (`src/api/inspection.ts`) is a plain re-export and is not part of this model.
