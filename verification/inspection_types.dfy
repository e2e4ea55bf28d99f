/** The value shapes shared by the inspection page: the two closed label sets,
    the record, the query and the paginated response. The labels are the
    Chinese strings the page displays; each enum here is paired with the exact
    string it stands for and a parser back from strings. */
module InspectionTypes {
  import opened Wrappers

  /** The outcome of one inspection: pass or fail. */
  datatype InspectionResult = Pass | Fail

  /** The six stages at which an inspection takes place. */
  datatype InspectionTypeName =
    | Incoming       // incoming material
    | FirstPiece     // first piece of a run
    | Patrol         // patrol during production
    | SelfCheck      // operator self-inspection
    | FinishedGoods  // finished goods
    | Outgoing       // outgoing shipment

  /** The string label carried by each result value. */
  function ResultLabel(r: InspectionResult): string {
    match r
    case Pass => "合格"
    case Fail => "不合格"
  }

  /** Reads a result label; only the two labels of the union are accepted. */
  function ParseResult(s: string): (r: Option<InspectionResult>)
    ensures r.Some? <==> s == ResultLabel(Pass) || s == ResultLabel(Fail)
    ensures r.Some? ==> ResultLabel(r.value) == s
  {
    if s == ResultLabel(Pass) then Some(Pass)
    else if s == ResultLabel(Fail) then Some(Fail)
    else None
  }

  /** The string label carried by each inspection type. */
  function TypeLabel(t: InspectionTypeName): string {
    match t
    case Incoming => "来料检验"
    case FirstPiece => "首检"
    case Patrol => "巡检"
    case SelfCheck => "自检"
    case FinishedGoods => "成品检"
    case Outgoing => "出货检验"
  }

  /** The type list in declaration order; generation cycles through it. */
  const AllTypes: seq<InspectionTypeName> :=
    [Incoming, FirstPiece, Patrol, SelfCheck, FinishedGoods, Outgoing]

  /** Reads a type label; exactly the six labels of the union are accepted. */
  function ParseType(s: string): (r: Option<InspectionTypeName>)
    ensures r.Some? <==> exists t :: TypeLabel(t) == s
    ensures r.Some? ==> TypeLabel(r.value) == s
  {
    if s == TypeLabel(Incoming) then Some(Incoming)
    else if s == TypeLabel(FirstPiece) then Some(FirstPiece)
    else if s == TypeLabel(Patrol) then Some(Patrol)
    else if s == TypeLabel(SelfCheck) then Some(SelfCheck)
    else if s == TypeLabel(FinishedGoods) then Some(FinishedGoods)
    else if s == TypeLabel(Outgoing) then Some(Outgoing)
    else None
  }

  /** The result union is closed: every label parses back to its value, and
      the two values have distinct labels. */
  lemma ResultLabelsRoundTrip(r: InspectionResult)
    ensures ParseResult(ResultLabel(r)) == Some(r)
    ensures ResultLabel(Pass) != ResultLabel(Fail)
  {
  }

  /** The type union is closed and has exactly six members: the list holds
      every value once, and every label parses back to its value. */
  lemma TypeLabelsRoundTrip(t: InspectionTypeName)
    ensures ParseType(TypeLabel(t)) == Some(t)
    ensures t in AllTypes
    ensures |AllTypes| == 6
    ensures forall i, j :: 0 <= i < j < |AllTypes| ==> TypeLabel(AllTypes[i]) != TypeLabel(AllTypes[j])
  {
  }

  /** One inspection event; the seven fields of the record interface. */
  datatype InspectionRecord = InspectionRecord(
    id: string,
    orderNo: string,
    inspectionType: InspectionTypeName,
    materialCode: string,
    materialName: string,
    result: InspectionResult,
    inspectionTime: string)

  /** A partial record: every field may be left out. */
  datatype RecordPatch = RecordPatch(
    id: Option<string>,
    orderNo: Option<string>,
    inspectionType: Option<InspectionTypeName>,
    materialCode: Option<string>,
    materialName: Option<string>,
    result: Option<InspectionResult>,
    inspectionTime: Option<string>)

  /** The patch with no field set. */
  const EmptyPatch: RecordPatch := RecordPatch(None, None, None, None, None, None, None)

  /** A list request: every field is optional. */
  datatype InspectionQuery = InspectionQuery(
    typeFilter: Option<InspectionTypeName>,
    page: Option<int>,
    pageSize: Option<int>)

  /** The query with every field left out (the default argument). */
  const EmptyQuery: InspectionQuery := InspectionQuery(None, None, None)

  /** One page of a filtered list together with the counts that describe it. */
  datatype PaginatedResponse<T> = PaginatedResponse(
    data: seq<T>,
    total: nat,
    page: int,
    pageSize: int,
    totalPages: nat)
}
