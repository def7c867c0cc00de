/**
 * CollapseContext: the collapse settings of a search request (the field to
 * collapse on, its mapped type, the inner hits to expand and the sort that
 * picks the top document per group), and the dispatch that creates the
 * collapsing collector for the kind of field.
 */
module Collapse {
  import opened Wrappers
  import opened Sorting
  import opened Collapsing

  /** An inner-hits request; carried along without logic. */
  datatype InnerHit = InnerHit(name: string)

  /** A sort with the formats of its values; only the sort matters here. */
  datatype SortAndFormats = SortAndFormats(sort: Sort, formats: seq<string>)

  /** The context; its getters are the datatype's fields. */
  datatype CollapseContext = CollapseContext(
    fieldName: string, fieldType: MappedFieldType, innerHits: seq<InnerHit>, sort: Option<SortAndFormats>)

  const UnsupportedFieldType: string := "collapse is not supported on this field type"

  /**
   * createTopDocs: a keyword or numeric collapsing collector on the context's
   * field, ordered by the given final sort and, when the context has a sort,
   * collapsed by it; any other kind of field is refused.
   */
  function CreateTopDocs(ctx: CollapseContext, sort: Sort, topN: int): (r: Result<CollectorParams, string>)
    ensures r.Success? <==> ctx.fieldType.collapseType != NoCollapse
    ensures ctx.fieldType.collapseType == Keyword ==> r.Success? && r.value.source == KeywordValues(ctx.fieldType)
    ensures ctx.fieldType.collapseType == Numeric ==> r.Success? && r.value.source == NumericValues(ctx.fieldType)
    ensures r.Failure? ==> r.error == UnsupportedFieldType
    ensures r.Success? ==> r.value.collapseField == ctx.fieldName && r.value.sort == sort && r.value.topN == topN
    ensures r.Success? ==> (r.value.collapseSort.None? <==> ctx.sort.None?)
    ensures r.Success? && ctx.sort.Some? ==> r.value.collapseSort == Some(ctx.sort.value.sort)
    ensures r.Success? ==>
      GroupSort(r.value.collapseSort, r.value.sort) == (if ctx.sort.Some? then ctx.sort.value.sort else sort)
  {
    var collapseSort := if ctx.sort.None? then None else Some(ctx.sort.value.sort);
    match ctx.fieldType.collapseType
    case Keyword => Success(CreateKeyword(ctx.fieldName, ctx.fieldType, sort, collapseSort, topN))
    case Numeric => Success(CreateNumeric(ctx.fieldName, ctx.fieldType, sort, collapseSort, topN))
    case NoCollapse => Failure(UnsupportedFieldType)
  }
}
