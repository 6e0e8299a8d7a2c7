/**
 * The search, filter, facet and statistics records of the Angle search API
 * (`AppserverMCP/Models/AngleModels.cs`) with the values their initialisers give.
 * Only the fields the core reads or writes are kept.
 */
module AngleModels {
  import opened Wrappers

  /** A search over the item index (the Solr-style `/items` endpoint). */
  datatype AngleSearchRequest = AngleSearchRequest(
    Query: string,
    FilterQueries: seq<string>,
    Sort: string,
    Start: int,
    Rows: int,
    Fields: string,
    Facet: bool,
    FacetFields: seq<string>,
    Highlight: bool,
    HighlightFields: string)

  /** `new AngleSearchRequest()`: match everything, first page of ten, all fields, no extras. */
  function DefaultSearchRequest(): (r: AngleSearchRequest)
    ensures r.Query == "*:*" && r.Fields == "*" && r.Sort == ""
    ensures r.Start == 0 && r.Rows == 10
    ensures r.FilterQueries == [] && !r.Facet && r.FacetFields == [] && !r.Highlight && r.HighlightFields == ""
  {
    AngleSearchRequest(
      Query := "*:*",
      FilterQueries := [],
      Sort := "",
      Start := 0,
      Rows := 10,
      Fields := "*",
      Facet := false,
      FacetFields := [],
      Highlight := false,
      HighlightFields := "")
  }

  /** One user-level filter: a field, an operator name, a value, and bounds for ranges. */
  datatype AngleFilterRequest = AngleFilterRequest(
    Field: string,
    Value: string,
    Operator: string,
    From: Option<string>,
    To: Option<string>)

  /** `new AngleFilterRequest()`: an equality test on empty text, no bounds. */
  function DefaultFilterRequest(): (f: AngleFilterRequest)
    ensures f.Operator == "equals" && f.Field == "" && f.Value == ""
    ensures f.From.None? && f.To.None?
  {
    AngleFilterRequest(Field := "", Value := "", Operator := "equals", From := None, To := None)
  }

  /**
   * The facet part of a search response. Each facet field maps to the flat list the
   * server sends, `[term, count, term, count, ...]`, each entry as its printed text.
   * The range, interval and heat-map facets hold untyped JSON and are not modelled.
   */
  datatype FacetCounts = FacetCounts(
    FacetQueries: map<string, int>,
    FacetFields: map<string, seq<string>>)

  datatype AngleResponseHeader = AngleResponseHeader(Total: int, Limit: int, Offset: int)

  /** The parts of a search response the statistics read: the header and the facets. */
  datatype AngleSearchResponse = AngleSearchResponse(
    Header: AngleResponseHeader,
    FacetCounts: Option<FacetCounts>)

  /** Summary statistics over all items; `LastUpdated` (a clock reading) is not modelled. */
  datatype AngleStatisticsResponse = AngleStatisticsResponse(
    TotalAngles: int,
    Categories: map<string, int>,
    StatusDistribution: map<string, int>,
    RecentAngles: int)

  function DefaultStatisticsResponse(): (r: AngleStatisticsResponse)
    ensures r.TotalAngles == 0 && r.RecentAngles == 0
    ensures r.Categories == map[] && r.StatusDistribution == map[]
  {
    AngleStatisticsResponse(TotalAngles := 0, Categories := map[], StatusDistribution := map[], RecentAngles := 0)
  }
}
