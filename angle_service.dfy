/**
 * The request-building and response-digesting logic of the Angle search client
 * (`AppserverMCP/Services/AngleService.cs`): the search query-string serialiser, the
 * filter compiler, the facet-list parser, the relative-URI join, the data-rows URL,
 * the angle/display resource paths, and the statistics assembled from a faceted search.
 *
 * The library calls the client makes are parameters: `urlEncode` stands for
 * `HttpUtility.UrlEncode`, `escape` for `Uri.EscapeDataString`, `tryParse` for
 * `int.TryParse` (`None` when the text is not an `int`).
 */
module AngleService {
  import opened Wrappers
  import opened Text
  import opened QueryString
  import opened AngleModels

  // ===========================================================================
  // Search query string (BuildQueryParameters)
  // ===========================================================================

  /** The three parameters every search carries, in this order. */
  function MandatoryParams(r: AngleSearchRequest, urlEncode: string -> string): seq<string> {
    [Param("q", urlEncode(r.Query)), Param("caching", "false"), Param("viewmode", "basic")]
  }

  /** `start` and `rows`, each only when it differs from the default page. */
  function PagingParams(r: AngleSearchRequest): seq<string> {
    Optional(r.Start > 0, "start", IntToString(r.Start))
    + Optional(r.Rows != 10, "rows", IntToString(r.Rows))
  }

  /** `fl` unless all fields are asked for, and `sort` when a sort order is given. */
  function ProjectionParams(r: AngleSearchRequest, urlEncode: string -> string): seq<string> {
    Optional(r.Fields != "" && r.Fields != "*", "fl", urlEncode(r.Fields))
    + Optional(r.Sort != "", "sort", urlEncode(r.Sort))
  }

  /** `facet=true` followed by one `facet.field` per field, only when faceting is on. */
  function FacetParams(r: AngleSearchRequest, urlEncode: string -> string): seq<string> {
    if r.Facet then [Param("facet", "true")] + Params("facet.field", MapEach(urlEncode, r.FacetFields))
    else []
  }

  /** `highlight=true`, then `hl.fl` when highlight fields are named, only when highlighting is on. */
  function HighlightParams(r: AngleSearchRequest, urlEncode: string -> string): seq<string> {
    Optional(r.Highlight, "highlight", "true")
    + Optional(r.Highlight && r.HighlightFields != "", "hl.fl", urlEncode(r.HighlightFields))
  }

  /** The parameters of a search, in the order the serialiser appends them. */
  function QueryParameterList(r: AngleSearchRequest, urlEncode: string -> string): seq<string> {
    MandatoryParams(r, urlEncode) + PagingParams(r) + ProjectionParams(r, urlEncode)
    + Params("fq", MapEach(urlEncode, r.FilterQueries))
    + FacetParams(r, urlEncode) + HighlightParams(r, urlEncode)
  }

  /** The query string sent to `/items`: the parameters joined with `&`. */
  function SearchQuery(r: AngleSearchRequest, urlEncode: string -> string): string {
    Join("&", QueryParameterList(r, urlEncode))
  }

  /** Serialises a search request, appending parameters to a list block by block. */
  method BuildQueryParameters(r: AngleSearchRequest, urlEncode: string -> string) returns (query: string)
    ensures query == SearchQuery(r, urlEncode)
  {
    var parameters := [Param("q", urlEncode(r.Query)), Param("caching", "false"), Param("viewmode", "basic")];
    parameters := AppendPaging(parameters, r);
    parameters := AppendProjection(parameters, r, urlEncode);
    parameters := AppendParams(parameters, "fq", urlEncode, r.FilterQueries);
    parameters := AppendFacets(parameters, r, urlEncode);
    parameters := AppendHighlight(parameters, r, urlEncode);
    query := Join("&", parameters);
  }

  /** `start` when the offset is positive, then `rows` when the page size is not ten. */
  method AppendPaging(parameters: seq<string>, r: AngleSearchRequest) returns (result: seq<string>)
    ensures result == parameters + PagingParams(r)
  {
    result := parameters;
    if r.Start > 0 {
      result := result + [Param("start", IntToString(r.Start))];
    }
    if r.Rows != 10 {
      result := result + [Param("rows", IntToString(r.Rows))];
    }
  }

  /** `fl` unless the field list is empty or `*`, then `sort` when a sort order is given. */
  method AppendProjection(parameters: seq<string>, r: AngleSearchRequest, urlEncode: string -> string)
    returns (result: seq<string>)
    ensures result == parameters + ProjectionParams(r, urlEncode)
  {
    result := parameters;
    if r.Fields != "" && r.Fields != "*" {
      result := result + [Param("fl", urlEncode(r.Fields))];
    }
    if r.Sort != "" {
      result := result + [Param("sort", urlEncode(r.Sort))];
    }
  }

  /** When faceting: `facet=true`, then one `facet.field` per facet field. */
  method AppendFacets(parameters: seq<string>, r: AngleSearchRequest, urlEncode: string -> string)
    returns (result: seq<string>)
    ensures result == parameters + FacetParams(r, urlEncode)
  {
    result := parameters;
    if r.Facet {
      result := result + [Param("facet", "true")];
      result := AppendParams(result, "facet.field", urlEncode, r.FacetFields);
    }
  }

  /** When highlighting: `highlight=true`, then `hl.fl` when highlight fields are named. */
  method AppendHighlight(parameters: seq<string>, r: AngleSearchRequest, urlEncode: string -> string)
    returns (result: seq<string>)
    ensures result == parameters + HighlightParams(r, urlEncode)
  {
    result := parameters;
    if r.Highlight {
      result := result + [Param("highlight", "true")];
      if r.HighlightFields != "" {
        result := result + [Param("hl.fl", urlEncode(r.HighlightFields))];
      }
    }
  }

  /** The mandatory parameters give one value each to `q`, `caching` and `viewmode`. */
  lemma MandatoryValuesAt(r: AngleSearchRequest, urlEncode: string -> string, k: string)
    ensures ValuesOf(MandatoryParams(r, urlEncode), k)
         == (if k == "q" then [urlEncode(r.Query)] else [])
          + (if k == "caching" then ["false"] else [])
          + (if k == "viewmode" then ["basic"] else [])
  {
    ValuesOfThreeParams("q", urlEncode(r.Query), "caching", "false", "viewmode", "basic", k);
  }

  lemma PagingValuesAt(r: AngleSearchRequest, k: string)
    ensures ValuesOf(PagingParams(r), k)
         == (if r.Start > 0 && k == "start" then [IntToString(r.Start)] else [])
          + (if r.Rows != 10 && k == "rows" then [IntToString(r.Rows)] else [])
  {
    ValuesOfTwoOptional(r.Start > 0, "start", IntToString(r.Start), r.Rows != 10, "rows", IntToString(r.Rows), k);
  }

  lemma ProjectionValuesAt(r: AngleSearchRequest, urlEncode: string -> string, k: string)
    ensures ValuesOf(ProjectionParams(r, urlEncode), k)
         == (if r.Fields != "" && r.Fields != "*" && k == "fl" then [urlEncode(r.Fields)] else [])
          + (if r.Sort != "" && k == "sort" then [urlEncode(r.Sort)] else [])
  {
    ValuesOfTwoOptional(r.Fields != "" && r.Fields != "*", "fl", urlEncode(r.Fields),
                        r.Sort != "", "sort", urlEncode(r.Sort), k);
  }

  lemma FacetValuesAt(r: AngleSearchRequest, urlEncode: string -> string, k: string)
    ensures ValuesOf(FacetParams(r, urlEncode), k)
         == (if r.Facet && k == "facet" then ["true"] else [])
          + (if r.Facet && k == "facet.field" then MapEach(urlEncode, r.FacetFields) else [])
  {
    if r.Facet {
      ValuesOfParamThenParams("facet", "true", "facet.field", MapEach(urlEncode, r.FacetFields), k);
    }
  }

  lemma HighlightValuesAt(r: AngleSearchRequest, urlEncode: string -> string, k: string)
    ensures ValuesOf(HighlightParams(r, urlEncode), k)
         == (if r.Highlight && k == "highlight" then ["true"] else [])
          + (if r.Highlight && r.HighlightFields != "" && k == "hl.fl" then [urlEncode(r.HighlightFields)] else [])
  {
    ValuesOfTwoOptional(r.Highlight, "highlight", "true",
                        r.Highlight && r.HighlightFields != "", "hl.fl", urlEncode(r.HighlightFields), k);
  }

  /** A name's values in a search are its values in each segment, segment by segment. */
  lemma QueryParameterValuesAt(r: AngleSearchRequest, urlEncode: string -> string, k: string)
    ensures ValuesOf(QueryParameterList(r, urlEncode), k)
         == ValuesOf(MandatoryParams(r, urlEncode), k) + ValuesOf(PagingParams(r), k)
          + ValuesOf(ProjectionParams(r, urlEncode), k)
          + (if k == "fq" then MapEach(urlEncode, r.FilterQueries) else [])
          + ValuesOf(FacetParams(r, urlEncode), k) + ValuesOf(HighlightParams(r, urlEncode), k)
  {
    var m := MandatoryParams(r, urlEncode);
    var pg := PagingParams(r);
    var pr := ProjectionParams(r, urlEncode);
    var fq := Params("fq", MapEach(urlEncode, r.FilterQueries));
    var fc := FacetParams(r, urlEncode);
    var hl := HighlightParams(r, urlEncode);
    ValuesOfAppend(m + pg + pr + fq + fc, hl, k);
    ValuesOfAppend(m + pg + pr + fq, fc, k);
    ValuesOfAppend(m + pg + pr, fq, k);
    ValuesOfAppend(m + pg, pr, k);
    ValuesOfAppend(m, pg, k);
    ValuesOfParams("fq", MapEach(urlEncode, r.FilterQueries), k);
  }

  /** What each parameter name receives, for an arbitrary name `k`, in serialisation order. */
  lemma ParameterValuesAt(r: AngleSearchRequest, urlEncode: string -> string, k: string)
    ensures ValuesOf(QueryParameterList(r, urlEncode), k)
         == (if k == "q" then [urlEncode(r.Query)] else [])
          + (if k == "caching" then ["false"] else [])
          + (if k == "viewmode" then ["basic"] else [])
          + ((if r.Start > 0 && k == "start" then [IntToString(r.Start)] else [])
          + (if r.Rows != 10 && k == "rows" then [IntToString(r.Rows)] else []))
          + ((if r.Fields != "" && r.Fields != "*" && k == "fl" then [urlEncode(r.Fields)] else [])
          + (if r.Sort != "" && k == "sort" then [urlEncode(r.Sort)] else []))
          + (if k == "fq" then MapEach(urlEncode, r.FilterQueries) else [])
          + ((if r.Facet && k == "facet" then ["true"] else [])
          + (if r.Facet && k == "facet.field" then MapEach(urlEncode, r.FacetFields) else []))
          + ((if r.Highlight && k == "highlight" then ["true"] else [])
          + (if r.Highlight && r.HighlightFields != "" && k == "hl.fl" then [urlEncode(r.HighlightFields)] else []))
  {
    QueryParameterValuesAt(r, urlEncode, k);
    MandatoryValuesAt(r, urlEncode, k);
    PagingValuesAt(r, k);
    ProjectionValuesAt(r, urlEncode, k);
    FacetValuesAt(r, urlEncode, k);
    HighlightValuesAt(r, urlEncode, k);
  }

  /** `q` carries the encoded query, once. */
  lemma QueryParameter(r: AngleSearchRequest, urlEncode: string -> string)
    ensures ValuesOf(QueryParameterList(r, urlEncode), "q") == [urlEncode(r.Query)]
  {
    ParameterValuesAt(r, urlEncode, "q");
  }

  /** `caching=false` occurs once. */
  lemma CachingParameter(r: AngleSearchRequest, urlEncode: string -> string)
    ensures ValuesOf(QueryParameterList(r, urlEncode), "caching") == ["false"]
  {
    ParameterValuesAt(r, urlEncode, "caching");
  }

  /** `viewmode=basic` occurs once. */
  lemma ViewModeParameter(r: AngleSearchRequest, urlEncode: string -> string)
    ensures ValuesOf(QueryParameterList(r, urlEncode), "viewmode") == ["basic"]
  {
    ParameterValuesAt(r, urlEncode, "viewmode");
  }

  /** `start` only for a positive offset, printed in decimal. */
  lemma StartParameter(r: AngleSearchRequest, urlEncode: string -> string)
    ensures ValuesOf(QueryParameterList(r, urlEncode), "start") == if r.Start > 0 then [IntToString(r.Start)] else []
  {
    ParameterValuesAt(r, urlEncode, "start");
  }

  /** `rows` only away from the default page size of ten. */
  lemma RowsParameter(r: AngleSearchRequest, urlEncode: string -> string)
    ensures ValuesOf(QueryParameterList(r, urlEncode), "rows") == if r.Rows != 10 then [IntToString(r.Rows)] else []
  {
    ParameterValuesAt(r, urlEncode, "rows");
  }

  /** `fl` only when a field list other than `*` is given. */
  lemma FieldListParameter(r: AngleSearchRequest, urlEncode: string -> string)
    ensures ValuesOf(QueryParameterList(r, urlEncode), "fl") == if r.Fields != "" && r.Fields != "*" then [urlEncode(r.Fields)] else []
  {
    ParameterValuesAt(r, urlEncode, "fl");
  }

  /** `sort` only when a sort order is given. */
  lemma SortParameter(r: AngleSearchRequest, urlEncode: string -> string)
    ensures ValuesOf(QueryParameterList(r, urlEncode), "sort") == if r.Sort != "" then [urlEncode(r.Sort)] else []
  {
    ParameterValuesAt(r, urlEncode, "sort");
  }

  /** One `fq` per filter query, encoded, in list order. */
  lemma FilterQueryParameters(r: AngleSearchRequest, urlEncode: string -> string)
    ensures ValuesOf(QueryParameterList(r, urlEncode), "fq") == MapEach(urlEncode, r.FilterQueries)
  {
    ParameterValuesAt(r, urlEncode, "fq");
  }

  /** `facet=true` exactly when faceting. */
  lemma FacetParameter(r: AngleSearchRequest, urlEncode: string -> string)
    ensures ValuesOf(QueryParameterList(r, urlEncode), "facet") == if r.Facet then ["true"] else []
  {
    ParameterValuesAt(r, urlEncode, "facet");
  }

  /** One `facet.field` per facet field, in list order, only when faceting. */
  lemma FacetFieldParameters(r: AngleSearchRequest, urlEncode: string -> string)
    ensures ValuesOf(QueryParameterList(r, urlEncode), "facet.field") == if r.Facet then MapEach(urlEncode, r.FacetFields) else []
  {
    ParameterValuesAt(r, urlEncode, "facet.field");
  }

  /** `highlight=true` exactly when highlighting. */
  lemma HighlightParameter(r: AngleSearchRequest, urlEncode: string -> string)
    ensures ValuesOf(QueryParameterList(r, urlEncode), "highlight") == if r.Highlight then ["true"] else []
  {
    ParameterValuesAt(r, urlEncode, "highlight");
  }

  /** `hl.fl` only when highlighting with named fields. */
  lemma HighlightFieldsParameter(r: AngleSearchRequest, urlEncode: string -> string)
    ensures ValuesOf(QueryParameterList(r, urlEncode), "hl.fl") == if r.Highlight && r.HighlightFields != "" then [urlEncode(r.HighlightFields)] else []
  {
    ParameterValuesAt(r, urlEncode, "hl.fl");
  }

  /** The mandatory parameters occur exactly once each. */
  lemma MandatoryParametersOnce(r: AngleSearchRequest, urlEncode: string -> string)
    ensures var ps := QueryParameterList(r, urlEncode);
      && ValuesOf(ps, "q") == ([urlEncode(r.Query)])
      && ValuesOf(ps, "caching") == (["false"])
      && ValuesOf(ps, "viewmode") == (["basic"])
  {
    QueryParameter(r, urlEncode);
    CachingParameter(r, urlEncode);
    ViewModeParameter(r, urlEncode);
  }

  /** `start`, `rows`, `fl` and `sort` occur at most once, and only away from their defaults. */
  lemma OptionalParametersPresence(r: AngleSearchRequest, urlEncode: string -> string)
    ensures var ps := QueryParameterList(r, urlEncode);
      && ValuesOf(ps, "start") == (if r.Start > 0 then [IntToString(r.Start)] else [])
      && ValuesOf(ps, "rows") == (if r.Rows != 10 then [IntToString(r.Rows)] else [])
      && ValuesOf(ps, "fl") == (if r.Fields != "" && r.Fields != "*" then [urlEncode(r.Fields)] else [])
      && ValuesOf(ps, "sort") == (if r.Sort != "" then [urlEncode(r.Sort)] else [])
  {
    StartParameter(r, urlEncode);
    RowsParameter(r, urlEncode);
    FieldListParameter(r, urlEncode);
    SortParameter(r, urlEncode);
  }

  /** `facet` and `facet.field` occur only when faceting, one `facet.field` per field in
   * list order; `highlight` and `hl.fl` only when highlighting. */
  lemma FacetAndHighlightParameters(r: AngleSearchRequest, urlEncode: string -> string)
    ensures var ps := QueryParameterList(r, urlEncode);
      && ValuesOf(ps, "facet") == (if r.Facet then ["true"] else [])
      && ValuesOf(ps, "facet.field") == (if r.Facet then MapEach(urlEncode, r.FacetFields) else [])
      && ValuesOf(ps, "highlight") == (if r.Highlight then ["true"] else [])
      && ValuesOf(ps, "hl.fl") == (if r.Highlight && r.HighlightFields != "" then [urlEncode(r.HighlightFields)] else [])
  {
    FacetParameter(r, urlEncode);
    FacetFieldParameters(r, urlEncode);
    HighlightParameter(r, urlEncode);
    HighlightFieldsParameter(r, urlEncode);
  }

  /** The mandatory parameters spelled out. */
  lemma MandatoryList(r: AngleSearchRequest, urlEncode: string -> string)
    ensures MandatoryParams(r, urlEncode) == ["q=" + urlEncode(r.Query), "caching=false", "viewmode=basic"]
  {
    assert "q" + "=" == "q=";
    assert Param("caching", "false") == "caching=false";
    assert Param("viewmode", "basic") == "viewmode=basic";
  }

  /** The mandatory parameters joined: the fixed beginning of every search query. */
  lemma MandatoryText(r: AngleSearchRequest, urlEncode: string -> string)
    ensures MandatoryParams(r, urlEncode) == ["q=" + urlEncode(r.Query), "caching=false", "viewmode=basic"]
    ensures Join("&", MandatoryParams(r, urlEncode)) == "q=" + urlEncode(r.Query) + "&caching=false&viewmode=basic"
  {
    MandatoryList(r, urlEncode);
    var q := "q=" + urlEncode(r.Query);
    JoinThree("&", q, "caching=false", "viewmode=basic");
    FixedMandatoryTail();
    assert q + "&" + "caching=false&viewmode=basic" == "q=" + urlEncode(r.Query) + "&caching=false&viewmode=basic";
  }

  /** The parameter list is the mandatory parameters followed by everything else. */
  lemma MandatoryFirst(r: AngleSearchRequest, urlEncode: string -> string)
    ensures QueryParameterList(r, urlEncode)
         == MandatoryParams(r, urlEncode) + QueryParameterList(r, urlEncode)[3..]
  {
    var s := QueryParameterList(r, urlEncode);
    var m := MandatoryParams(r, urlEncode);
    assert s[..3] == m;
    assert s == s[..3] + s[3..];
  }

  /** Every search query string begins `q=<encoded query>&caching=false&viewmode=basic`. */
  lemma SearchQueryBeginsWithMandatory(r: AngleSearchRequest, urlEncode: string -> string)
    ensures QueryParameterList(r, urlEncode)[..3]
         == ["q=" + urlEncode(r.Query), "caching=false", "viewmode=basic"]
    ensures StartsWith(SearchQuery(r, urlEncode), "q=" + urlEncode(r.Query) + "&caching=false&viewmode=basic")
  {
    var ps := QueryParameterList(r, urlEncode);
    var m := MandatoryParams(r, urlEncode);
    MandatoryFirst(r, urlEncode);
    MandatoryText(r, urlEncode);
    assert ps[..3] == m;
    JoinPrefix("&", m, ps[3..]);
  }

  /** The parameters before the facet block. */
  function ParamsBeforeFacets(r: AngleSearchRequest, urlEncode: string -> string): seq<string> {
    MandatoryParams(r, urlEncode) + PagingParams(r) + ProjectionParams(r, urlEncode)
    + Params("fq", MapEach(urlEncode, r.FilterQueries))
  }

  lemma FacetBlockLayout(r: AngleSearchRequest, urlEncode: string -> string)
    requires r.Facet
    ensures QueryParameterList(r, urlEncode)
         == ParamsBeforeFacets(r, urlEncode) + [Param("facet", "true")]
          + Params("facet.field", MapEach(urlEncode, r.FacetFields)) + HighlightParams(r, urlEncode)
  {
    var before, flag := ParamsBeforeFacets(r, urlEncode), [Param("facet", "true")];
    var fields := Params("facet.field", MapEach(urlEncode, r.FacetFields));
    assert FacetParams(r, urlEncode) == flag + fields;
    assert before + (flag + fields) == before + flag + fields;
  }

  /** When faceting, `facet=true` comes first and the facet fields follow it directly, in list order. */
  lemma FacetFieldsFollowFacetFlag(r: AngleSearchRequest, urlEncode: string -> string)
    requires r.Facet
    ensures var ps := QueryParameterList(r, urlEncode);
      exists j :: 0 <= j && j + 1 + |r.FacetFields| <= |ps|
        && ps[j] == "facet=true"
        && ps[j + 1..j + 1 + |r.FacetFields|] == Params("facet.field", MapEach(urlEncode, r.FacetFields))
  {
    var ps := QueryParameterList(r, urlEncode);
    var before := ParamsBeforeFacets(r, urlEncode);
    var fields := Params("facet.field", MapEach(urlEncode, r.FacetFields));
    FacetBlockLayout(r, urlEncode);
    PiecesOfAppend(before, Param("facet", "true"), fields, HighlightParams(r, urlEncode));
    FacetFlagText();
    var j := |before|;
    assert ps[j] == "facet=true";
    assert ps[j + 1..j + 1 + |r.FacetFields|] == fields;
  }

  /** The default request leaves out every optional parameter. */
  lemma DefaultRequestSerialisation(urlEncode: string -> string)
    ensures QueryParameterList(DefaultSearchRequest(), urlEncode)
         == ["q=" + urlEncode("*:*"), "caching=false", "viewmode=basic"]
  {
    var d := DefaultSearchRequest();
    assert PagingParams(d) == [];
    assert ProjectionParams(d, urlEncode) == [];
    assert Params("fq", MapEach(urlEncode, d.FilterQueries)) == [];
    assert FacetParams(d, urlEncode) == [];
    assert HighlightParams(d, urlEncode) == [];
    assert QueryParameterList(d, urlEncode) == MandatoryParams(d, urlEncode);
    assert "q" + "=" == "q=";
    assert Param("caching", "false") == "caching=false";
    assert Param("viewmode", "basic") == "viewmode=basic";
  }

  /**
   * The defaults of `AngleSearchRequest` are the values the serialiser leaves out:
   * each optional paging or projection parameter is absent exactly at its default
   * (for `start`, at any value not above the default; for `fl`, also when empty).
   */
  lemma DefaultsAreOmitted(r: AngleSearchRequest, urlEncode: string -> string)
    ensures var ps := QueryParameterList(r, urlEncode);
      && (ValuesOf(ps, "start") == [] <==> r.Start <= DefaultSearchRequest().Start)
      && (ValuesOf(ps, "rows") == [] <==> r.Rows == DefaultSearchRequest().Rows)
      && (ValuesOf(ps, "fl") == [] <==> r.Fields == "" || r.Fields == DefaultSearchRequest().Fields)
      && (ValuesOf(ps, "sort") == [] <==> r.Sort == DefaultSearchRequest().Sort)
  {
    OptionalParametersPresence(r, urlEncode);
  }

  /** No parameter holds an `&` when the encoder never emits one. */
  lemma QueryParametersHaveNoAmpersand(r: AngleSearchRequest, urlEncode: string -> string)
    requires forall s :: '&' !in urlEncode(s)
    ensures NoneContains(QueryParameterList(r, urlEncode), '&')
  {
    var m := MandatoryParams(r, urlEncode);
    var pg := PagingParams(r);
    var pr := ProjectionParams(r, urlEncode);
    var fq := Params("fq", MapEach(urlEncode, r.FilterQueries));
    var fc := FacetParams(r, urlEncode);
    var hl := HighlightParams(r, urlEncode);
    SegmentsHaveNoAmpersand(r, urlEncode);
    NoneContainsAppend(m, pg, '&');
    NoneContainsAppend(m + pg, pr, '&');
    NoneContainsAppend(m + pg + pr, fq, '&');
    NoneContainsAppend(m + pg + pr + fq, fc, '&');
    NoneContainsAppend(m + pg + pr + fq + fc, hl, '&');
  }

  lemma SegmentsHaveNoAmpersand(r: AngleSearchRequest, urlEncode: string -> string)
    requires forall s :: '&' !in urlEncode(s)
    ensures NoneContains(MandatoryParams(r, urlEncode), '&')
    ensures NoneContains(PagingParams(r), '&')
    ensures NoneContains(ProjectionParams(r, urlEncode), '&')
    ensures NoneContains(Params("fq", MapEach(urlEncode, r.FilterQueries)), '&')
    ensures NoneContains(FacetParams(r, urlEncode), '&')
    ensures NoneContains(HighlightParams(r, urlEncode), '&')
  {
    MandatoryHasNoAmpersand(r, urlEncode);
    PagingHasNoAmpersand(r);
    ProjectionHasNoAmpersand(r, urlEncode);
    ParamsNoneContains("fq", MapEach(urlEncode, r.FilterQueries), '&');
    FacetsHaveNoAmpersand(r, urlEncode);
    HighlightHasNoAmpersand(r, urlEncode);
  }

  lemma PagingHasNoAmpersand(r: AngleSearchRequest)
    ensures NoneContains(PagingParams(r), '&')
  {
    IntToStringPlain(r.Start);
    IntToStringPlain(r.Rows);
    OptionalNoneContains(r.Start > 0, "start", IntToString(r.Start), '&');
    OptionalNoneContains(r.Rows != 10, "rows", IntToString(r.Rows), '&');
    NoneContainsAppend(Optional(r.Start > 0, "start", IntToString(r.Start)), Optional(r.Rows != 10, "rows", IntToString(r.Rows)), '&');
  }

  lemma ProjectionHasNoAmpersand(r: AngleSearchRequest, urlEncode: string -> string)
    requires '&' !in urlEncode(r.Fields) && '&' !in urlEncode(r.Sort)
    ensures NoneContains(ProjectionParams(r, urlEncode), '&')
  {
    OptionalNoneContains(r.Fields != "" && r.Fields != "*", "fl", urlEncode(r.Fields), '&');
    OptionalNoneContains(r.Sort != "", "sort", urlEncode(r.Sort), '&');
    NoneContainsAppend(Optional(r.Fields != "" && r.Fields != "*", "fl", urlEncode(r.Fields)), Optional(r.Sort != "", "sort", urlEncode(r.Sort)), '&');
  }

  lemma FacetsHaveNoAmpersand(r: AngleSearchRequest, urlEncode: string -> string)
    requires forall s :: '&' !in urlEncode(s)
    ensures NoneContains(FacetParams(r, urlEncode), '&')
  {
    if r.Facet {
      ParamNotContains("facet", "true", '&');
      ParamsNoneContains("facet.field", MapEach(urlEncode, r.FacetFields), '&');
      NoneContainsAppend([Param("facet", "true")], Params("facet.field", MapEach(urlEncode, r.FacetFields)), '&');
    }
  }

  lemma HighlightHasNoAmpersand(r: AngleSearchRequest, urlEncode: string -> string)
    requires '&' !in urlEncode(r.HighlightFields)
    ensures NoneContains(HighlightParams(r, urlEncode), '&')
  {
    OptionalNoneContains(r.Highlight, "highlight", "true", '&');
    OptionalNoneContains(r.Highlight && r.HighlightFields != "", "hl.fl", urlEncode(r.HighlightFields), '&');
    NoneContainsAppend(Optional(r.Highlight, "highlight", "true"),
                       Optional(r.Highlight && r.HighlightFields != "", "hl.fl", urlEncode(r.HighlightFields)), '&');
  }

  lemma MandatoryHasNoAmpersand(r: AngleSearchRequest, urlEncode: string -> string)
    requires '&' !in urlEncode(r.Query)
    ensures NoneContains(MandatoryParams(r, urlEncode), '&')
  {
    ParamNotContains("q", urlEncode(r.Query), '&');
    ParamNotContains("caching", "false", '&');
    ParamNotContains("viewmode", "basic", '&');
  }

  /**
   * The serialised query reads back as its parameter list: splitting it at `&` gives
   * exactly the parameters, provided the URL encoder escapes `&` (as `UrlEncode` does).
   */
  lemma SearchQuerySplitsBack(r: AngleSearchRequest, urlEncode: string -> string)
    requires forall s :: '&' !in urlEncode(s)
    ensures Split(SearchQuery(r, urlEncode), '&') == QueryParameterList(r, urlEncode)
  {
    QueryParametersHaveNoAmpersand(r, urlEncode);
    QuerySplitsBack(QueryParameterList(r, urlEncode));
  }

  // ===========================================================================
  // Filter compiler (BuildFilterQueries)
  // ===========================================================================

  /** The operator names the compiler recognises, after lower-casing. */
  const KnownOperators: set<string> := {"equals", "contains", "startswith", "endswith", "range", "not"}

  /** `field:"value"`: an exact match. */
  function EqualsForm(field: string, value: string): string {
    field + ":\"" + value + "\""
  }

  /**
   * One filter as a Solr filter query; field and value are inserted as they are.
   * Every form but `not` starts with `field:`; `not` is that form behind a `-`;
   * an unrecognised operator gives the exact match.
   */
  function FilterQuery(f: AngleFilterRequest): (q: string)
    ensures ToLower(f.Operator) != "not" ==> StartsWith(q, f.Field + ":")
    ensures ToLower(f.Operator) == "not" ==> q == "-" + EqualsForm(f.Field, f.Value)
    ensures ToLower(f.Operator) !in KnownOperators ==> q == EqualsForm(f.Field, f.Value)
  {
    var q := FilterForOperator(ToLower(f.Operator), f);
    FilterFieldPrefix(ToLower(f.Operator), f);
    q
  }

  lemma FilterFieldPrefix(op: string, f: AngleFilterRequest)
    ensures op != "not" ==> StartsWith(FilterForOperator(op, f), f.Field + ":")
  {
    var p := f.Field + ":";
    var q := FilterForOperator(op, f);
    if op == "contains" {
      assert q == p + ("*" + f.Value + "*");
    } else if op == "startswith" {
      assert q == p + (f.Value + "*");
    } else if op == "endswith" {
      assert q == p + ("*" + f.Value);
    } else if op == "range" {
      assert q == p + ("[" + f.From.GetOr("*") + " TO " + f.To.GetOr("*") + "]");
    } else if op != "not" {
      assert q == p + ("\"" + f.Value + "\"");
    }
  }

  /** The `switch` on the lower-cased operator; anything unrecognised is an exact match. */
  function FilterForOperator(op: string, f: AngleFilterRequest): string {
    if op == "equals" then EqualsForm(f.Field, f.Value)
    else if op == "contains" then f.Field + ":*" + f.Value + "*"
    else if op == "startswith" then f.Field + ":" + f.Value + "*"
    else if op == "endswith" then f.Field + ":*" + f.Value
    else if op == "range" then f.Field + ":[" + f.From.GetOr("*") + " TO " + f.To.GetOr("*") + "]"
    else if op == "not" then "-" + EqualsForm(f.Field, f.Value)
    else EqualsForm(f.Field, f.Value)
  }

  /** The compiled filter list: one filter query per filter, in order. */
  function CompiledFilters(filters: seq<AngleFilterRequest>): seq<string> {
    seq(|filters|, i requires 0 <= i < |filters| => FilterQuery(filters[i]))
  }

  /** Compiles the filters one by one into a fresh list. */
  method BuildFilterQueries(filters: seq<AngleFilterRequest>) returns (filterQueries: seq<string>)
    ensures |filterQueries| == |filters|
    ensures forall i :: 0 <= i < |filters| ==> filterQueries[i] == FilterQuery(filters[i])
    ensures filterQueries == CompiledFilters(filters)
  {
    filterQueries := [];
    for i := 0 to |filters|
      invariant |filterQueries| == i
      invariant forall j :: 0 <= j < i ==> filterQueries[j] == FilterQuery(filters[j])
    {
      filterQueries := filterQueries + [FilterQuery(filters[i])];
    }
  }

  /** Operator matching ignores case: lower-casing the operator first changes nothing. */
  lemma FilterOperatorCaseInsensitive(f: AngleFilterRequest, op: string)
    requires EqualsIgnoreCase(op, f.Operator)
    ensures FilterQuery(f.(Operator := op)) == FilterQuery(f)
    ensures FilterQuery(f.(Operator := ToLower(f.Operator))) == FilterQuery(f)
  {
    ToLowerIdempotent(f.Operator);
  }

  /** The camel-case spellings the filter model documents reach their lower-case branches. */
  lemma StartsWithSpelling(f: AngleFilterRequest)
    ensures FilterQuery(f.(Operator := "startsWith")) == f.Field + ":" + f.Value + "*"
  {
    LowerStartsWith();
  }

  lemma EndsWithSpelling(f: AngleFilterRequest)
    ensures FilterQuery(f.(Operator := "endsWith")) == f.Field + ":*" + f.Value
  {
    LowerEndsWith();
  }

  lemma UpperCaseEqualsSpelling(f: AngleFilterRequest)
    ensures FilterQuery(f.(Operator := "EQUALS")) == EqualsForm(f.Field, f.Value)
  {
    LowerUpperEquals();
  }

  /** An unrecognised operator compiles exactly like `equals`. */
  lemma UnknownOperatorMeansEquals(f: AngleFilterRequest)
    requires ToLower(f.Operator) !in KnownOperators
    ensures FilterQuery(f) == FilterQuery(f.(Operator := "equals"))
  {
    LowerEquals();
    var op := ToLower(f.Operator);
    assert op != "equals" && op != "contains" && op != "startswith";
    assert op != "endswith" && op != "range" && op != "not";
    assert FilterQuery(f) == EqualsForm(f.Field, f.Value);
  }

  /** `not` is the `equals` form negated with a leading `-`. */
  lemma NotNegatesEquals(f: AngleFilterRequest)
    requires ToLower(f.Operator) == "not"
    ensures FilterQuery(f) == "-" + FilterQuery(f.(Operator := "equals"))
  {
    LowerEquals();
  }

  /** A missing range bound is an open bound: it compiles as `*`. */
  lemma RangeMissingBoundIsStar(f: AngleFilterRequest)
    requires ToLower(f.Operator) == "range"
    ensures FilterQuery(f.(From := None)) == FilterQuery(f.(From := Some("*")))
    ensures FilterQuery(f.(To := None)) == FilterQuery(f.(To := Some("*")))
    ensures FilterQuery(f) == f.Field + ":[" + f.From.GetOr("*") + " TO " + f.To.GetOr("*") + "]"
  {
  }

  /** The range bounds are read only by the `range` operator. */
  lemma BoundsOnlyForRange(f: AngleFilterRequest, from: Option<string>, to: Option<string>)
    requires ToLower(f.Operator) != "range"
    ensures FilterQuery(f.(From := from, To := to)) == FilterQuery(f)
  {
  }

  /**
   * Field and value are copied into the filter query verbatim (encoding happens later,
   * when the query string is built): the query starts with the field, after a `-` for
   * `not`, and contains the value for every operator but `range`.
   */
  lemma FilterTextIsVerbatim(f: AngleFilterRequest)
    ensures ToLower(f.Operator) != "not" ==> StartsWith(FilterQuery(f), f.Field)
    ensures ToLower(f.Operator) == "not" ==> StartsWith(FilterQuery(f), "-" + f.Field)
    ensures ToLower(f.Operator) != "range" ==> Contains(FilterQuery(f), f.Value)
  {
    var op := ToLower(f.Operator);
    var x, v := f.Field, f.Value;
    if op == "range" {
      PlacedPieces(x, ":[" + f.From.GetOr("*") + " TO ", f.To.GetOr("*"), "]");
    } else if op == "contains" {
      PlacedPieces(x, ":*", v, "*");
    } else if op == "endswith" {
      PlacedPieces(x, ":*", v, "");
      assert x + ":*" + v + "" == x + ":*" + v;
    } else if op == "startswith" {
      PlacedPieces(x, ":", v, "*");
    } else if op == "not" {
      PlacedPieces("-" + x, ":\"", v, "\"");
      assert "-" + EqualsForm(x, v) == "-" + x + ":\"" + v + "\"";
    } else {
      PlacedPieces(x, ":\"", v, "\"");
    }
  }

  /** A filter left at its default operator is an exact match on its field and value. */
  lemma DefaultFilterIsEquals(field: string, value: string)
    ensures FilterQuery(DefaultFilterRequest().(Field := field, Value := value)) == EqualsForm(field, value)
  {
    LowerEquals();
  }

  // ===========================================================================
  // Requests built by FilterAnglesAsync and GetAngleStatisticsAsync
  // ===========================================================================

  /** The search `FilterAnglesAsync` runs: match everything, restricted by the compiled filters. */
  function FilterAnglesRequest(filters: seq<AngleFilterRequest>, start: int, rows: int, sort: string): (r: AngleSearchRequest)
    ensures r.Query == "*:*" && r.Start == start && r.Rows == rows && r.Sort == sort
    ensures |r.FilterQueries| == |filters|
    ensures forall i :: 0 <= i < |filters| ==> r.FilterQueries[i] == FilterQuery(filters[i])
    ensures r.Fields == "*" && !r.Facet && r.FacetFields == [] && !r.Highlight && r.HighlightFields == ""
  {
    DefaultSearchRequest().(Query := "*:*", FilterQueries := CompiledFilters(filters), Start := start, Rows := rows, Sort := sort)
  }

  /** Each filter reaches the query string as one `fq` parameter, compiled then encoded, in order. */
  lemma FilterAnglesQuery(filters: seq<AngleFilterRequest>, start: int, rows: int, sort: string, urlEncode: string -> string)
    ensures var ps := QueryParameterList(FilterAnglesRequest(filters, start, rows, sort), urlEncode);
      && |ValuesOf(ps, "fq")| == |filters|
      && (forall i :: 0 <= i < |filters| ==> ValuesOf(ps, "fq")[i] == urlEncode(FilterQuery(filters[i])))
      && ValuesOf(ps, "q") == [urlEncode("*:*")]
      && ValuesOf(ps, "facet") == [] && ValuesOf(ps, "highlight") == [] && ValuesOf(ps, "fl") == []
  {
    var r := FilterAnglesRequest(filters, start, rows, sort);
    assert r.Fields == "*" && !r.Facet && !r.Highlight && r.Query == "*:*";
    FilterQueryParameters(r, urlEncode);
    QueryParameter(r, urlEncode);
    FieldListParameter(r, urlEncode);
    FacetParameter(r, urlEncode);
    HighlightParameter(r, urlEncode);
  }

  /** The faceted search behind the statistics: no documents, facets on category and status. */
  function StatisticsSearchRequest(): (r: AngleSearchRequest)
    ensures r.Query == "*:*" && r.FilterQueries == [] && r.Start == 0 && r.Rows == 0
    ensures r.Facet && r.FacetFields == ["category", "status"] && !r.Highlight
  {
    DefaultSearchRequest().(Query := "*:*", Rows := 0, Facet := true, FacetFields := ["category", "status"])
  }

  /** The statistics search asks for no rows and for facets on `category` and `status`, nothing else. */
  lemma StatisticsSearchParameters(urlEncode: string -> string)
    ensures QueryParameterList(StatisticsSearchRequest(), urlEncode)
         == ["q=" + urlEncode("*:*"), "caching=false", "viewmode=basic", "rows=0",
             "facet=true", "facet.field=" + urlEncode("category"), "facet.field=" + urlEncode("status")]
  {
    var r := StatisticsSearchRequest();
    MandatoryText(r, urlEncode);
    NoRowsParameter(r);
    StatisticsFacetBlock(urlEncode);
    assert ProjectionParams(r, urlEncode) == [];
    assert Params("fq", MapEach(urlEncode, r.FilterQueries)) == [];
    assert HighlightParams(r, urlEncode) == [];
  }

  /** A request for no rows, at offset zero, pages as `rows=0` alone. */
  lemma NoRowsParameter(r: AngleSearchRequest)
    requires r.Start == 0 && r.Rows == 0
    ensures PagingParams(r) == ["rows=0"]
  {
    assert IntToString(0) == "0";
    assert Param("rows", "0") == "rows=0";
  }

  lemma StatisticsFacetBlock(urlEncode: string -> string)
    ensures FacetParams(StatisticsSearchRequest(), urlEncode)
         == ["facet=true", "facet.field=" + urlEncode("category"), "facet.field=" + urlEncode("status")]
  {
    var r := StatisticsSearchRequest();
    var fields := MapEach(urlEncode, r.FacetFields);
    assert fields == [urlEncode("category"), urlEncode("status")];
    assert "facet.field" + "=" == "facet.field=";
    assert Params("facet.field", fields) == ["facet.field=" + urlEncode("category"), "facet.field=" + urlEncode("status")];
    assert Param("facet", "true") == "facet=true";
  }

  /** The "recent items" search: a range filter on the creation date between two timestamps. */
  function RecentAnglesRequest(from: string, to: string): (r: AngleSearchRequest)
    ensures r.Query == "*:*" && r.Start == 0 && r.Rows == 0 && r.Sort == ""
    ensures r.FilterQueries == ["created_date:[" + from + " TO " + to + "]"]
    ensures !r.Facet && !r.Highlight
  {
    var filter := DefaultFilterRequest().(Field := "created_date", Operator := "range", From := Some(from), To := Some(to));
    LowerRange();
    assert FilterQuery(filter) == FilterForOperator("range", filter);
    assert filter.From.GetOr("*") == from && filter.To.GetOr("*") == to;
    assert FilterForOperator("range", filter) == "created_date:[" + from + " TO " + to + "]";
    var r := FilterAnglesRequest([filter], 0, 0, "");
    assert r.FilterQueries == ["created_date:[" + from + " TO " + to + "]"];
    r
  }

  /** The recent-items search counts only: no rows, and one range filter on `created_date`. */
  lemma RecentAnglesParameters(from: string, to: string, urlEncode: string -> string)
    ensures QueryParameterList(RecentAnglesRequest(from, to), urlEncode)
         == ["q=" + urlEncode("*:*"), "caching=false", "viewmode=basic", "rows=0",
             "fq=" + urlEncode("created_date:[" + from + " TO " + to + "]")]
  {
    var r := RecentAnglesRequest(from, to);
    var text := "created_date:[" + from + " TO " + to + "]";
    MandatoryText(r, urlEncode);
    NoRowsParameter(r);
    RecentAnglesFilter(from, to, urlEncode);
    assert ProjectionParams(r, urlEncode) == [];
    assert FacetParams(r, urlEncode) == [];
    assert HighlightParams(r, urlEncode) == [];
  }

  lemma RecentAnglesFilter(from: string, to: string, urlEncode: string -> string)
    ensures Params("fq", MapEach(urlEncode, RecentAnglesRequest(from, to).FilterQueries))
         == ["fq=" + urlEncode("created_date:[" + from + " TO " + to + "]")]
  {
    var r := RecentAnglesRequest(from, to);
    var text := "created_date:[" + from + " TO " + to + "]";
    assert r.FilterQueries == [text];
    assert MapEach(urlEncode, r.FilterQueries) == [urlEncode(text)];
    assert "fq" + "=" == "fq=";
  }

  // ===========================================================================
  // Facet lists (ProcessFacetList)
  // ===========================================================================

  /** Position `j` starts a term whose count parses: the pairs the parser keeps. */
  predicate CountedAt(list: seq<string>, tryParse: string -> Option<int>, j: nat) {
    j % 2 == 0 && j + 1 < |list| && tryParse(list[j + 1]).Some?
  }

  /** The dictionary after the first `n` (term, count) pairs have been read. */
  function FacetPairs(list: seq<string>, tryParse: string -> Option<int>, n: nat): map<string, int>
    requires 2 * n <= |list|
  {
    if n == 0 then map[]
    else
      var m := FacetPairs(list, tryParse, n - 1);
      var count := tryParse(list[2 * n - 1]);
      if count.Some? then m[list[2 * n - 2] := count.value] else m
  }

  /** The dictionary a flat `[term, count, term, count, ...]` facet list denotes. */
  function FacetDictionary(list: seq<string>, tryParse: string -> Option<int>): map<string, int> {
    FacetPairs(list, tryParse, |list| / 2)
  }

  /** Reads the list two entries at a time, keeping each term whose count parses. */
  method ProcessFacetList(facetList: seq<string>, tryParse: string -> Option<int>) returns (result: map<string, int>)
    ensures result == FacetDictionary(facetList, tryParse)
  {
    result := map[];
    var i := 0;
    while i < |facetList|
      invariant i % 2 == 0 && i <= |facetList| + 1
      invariant result == FacetPairs(facetList, tryParse, if i <= |facetList| then i / 2 else |facetList| / 2)
    {
      if i + 1 < |facetList| {
        var key := facetList[i];
        match tryParse(facetList[i + 1]) {
          case Some(count) =>
            result := result[key := count];
          case None =>
        }
      }
      i := i + 2;
    }
  }

  /** `j` is the last position below `bound` where `key` is counted. */
  predicate LastCountedBelow(list: seq<string>, tryParse: string -> Option<int>, bound: nat, key: string, j: nat) {
    && j < bound && CountedAt(list, tryParse, j) && list[j] == key
    && forall k: nat :: j < k < bound && CountedAt(list, tryParse, k) ==> list[k] != key
  }

  lemma {:induction false} FacetPairsSpec(list: seq<string>, tryParse: string -> Option<int>, n: nat, key: string)
    requires 2 * n <= |list|
    ensures key in FacetPairs(list, tryParse, n)
        <==> exists j: nat :: j < 2 * n && CountedAt(list, tryParse, j) && list[j] == key
    ensures key in FacetPairs(list, tryParse, n) ==>
      exists j: nat :: LastCountedBelow(list, tryParse, 2 * n, key, j)
        && FacetPairs(list, tryParse, n)[key] == tryParse(list[j + 1]).value
  {
    if n > 0 {
      FacetPairsSpec(list, tryParse, n - 1, key);
      var j := 2 * n - 2;
      var m := FacetPairs(list, tryParse, n - 1);
      assert forall i: nat :: i < 2 * n && CountedAt(list, tryParse, i) ==> i < j || i == j;
      if CountedAt(list, tryParse, j) && list[j] == key {
        assert LastCountedBelow(list, tryParse, 2 * n, key, j);
        assert FacetPairs(list, tryParse, n)[key] == tryParse(list[j + 1]).value;
      } else {
        assert key in FacetPairs(list, tryParse, n) <==> key in m;
        if key in m {
          var j': nat :| LastCountedBelow(list, tryParse, 2 * n - 2, key, j') && m[key] == tryParse(list[j' + 1]).value;
          assert LastCountedBelow(list, tryParse, 2 * n, key, j');
          assert FacetPairs(list, tryParse, n)[key] == m[key];
        }
      }
    }
  }

  /**
   * What the facet dictionary holds: a term is a key exactly when it stands at an
   * even position followed by a count that parses; its value is the count of its
   * LAST such occurrence (a later duplicate overwrites an earlier one). A trailing
   * unpaired term and terms with unparsable counts leave no entry.
   */
  lemma FacetDictionaryContents(list: seq<string>, tryParse: string -> Option<int>, key: string)
    ensures key in FacetDictionary(list, tryParse)
        <==> exists j: nat :: CountedAt(list, tryParse, j) && list[j] == key
    ensures key in FacetDictionary(list, tryParse) ==>
      exists j: nat :: LastCountedBelow(list, tryParse, |list|, key, j)
        && FacetDictionary(list, tryParse)[key] == tryParse(list[j + 1]).value
  {
    var n := |list| / 2;
    FacetPairsSpec(list, tryParse, n, key);
    assert forall j: nat :: CountedAt(list, tryParse, j) ==> j < 2 * n;
    if key in FacetDictionary(list, tryParse) {
      var j: nat :| LastCountedBelow(list, tryParse, 2 * n, key, j)
        && FacetDictionary(list, tryParse)[key] == tryParse(list[j + 1]).value;
      assert LastCountedBelow(list, tryParse, |list|, key, j);
    }
  }

  lemma {:induction false} FacetPairsSize(list: seq<string>, tryParse: string -> Option<int>, n: nat)
    requires 2 * n <= |list|
    ensures |FacetPairs(list, tryParse, n)| <= n
  {
    if n > 0 {
      FacetPairsSize(list, tryParse, n - 1);
      var m := FacetPairs(list, tryParse, n - 1);
      var k := list[2 * n - 2];
      assert |m[k := 0]| <= |m| + 1 by {
        assert m[k := 0].Keys == m.Keys + {k};
      }
    }
  }

  /** A list of `n` entries yields at most `n / 2` terms. */
  lemma FacetDictionarySize(list: seq<string>, tryParse: string -> Option<int>)
    ensures |FacetDictionary(list, tryParse)| <= |list| / 2
  {
    FacetPairsSize(list, tryParse, |list| / 2);
  }

  lemma {:induction false} FacetPairsPrefix(list: seq<string>, more: seq<string>, tryParse: string -> Option<int>, n: nat)
    requires 2 * n <= |list|
    ensures FacetPairs(list + more, tryParse, n) == FacetPairs(list, tryParse, n)
  {
    if n > 0 {
      FacetPairsPrefix(list, more, tryParse, n - 1);
      assert (list + more)[2 * n - 1] == list[2 * n - 1];
      assert (list + more)[2 * n - 2] == list[2 * n - 2];
    }
  }

  /** A trailing term without a count is ignored. */
  lemma FacetTrailingTermIgnored(list: seq<string>, term: string, tryParse: string -> Option<int>)
    requires |list| % 2 == 0
    ensures FacetDictionary(list + [term], tryParse) == FacetDictionary(list, tryParse)
  {
    FacetPairsPrefix(list, [term], tryParse, |list| / 2);
  }

  // ===========================================================================
  // Statistics (GetAngleStatisticsAsync)
  // ===========================================================================

  /** The `(int)` cast of a `long`: keeps the low 32 bits, as a signed number. */
  function TruncateToInt32(x: int): (r: int)
    ensures -0x8000_0000 <= r < 0x8000_0000
    ensures (x - r) % 0x1_0000_0000 == 0
    ensures -0x8000_0000 <= x < 0x8000_0000 ==> r == x
  {
    (x + 0x8000_0000) % 0x1_0000_0000 - 0x8000_0000
  }

  /** The dictionary of one facet field, or an empty one when the response lacks that field. */
  function FacetFieldDictionary(facets: FacetCounts, field: string, tryParse: string -> Option<int>): (d: map<string, int>)
    ensures field in facets.FacetFields ==> d == FacetDictionary(facets.FacetFields[field], tryParse)
    ensures field !in facets.FacetFields ==> d == map[]
    ensures field in facets.FacetFields ==> |d| <= |facets.FacetFields[field]| / 2
  {
    if field in facets.FacetFields then
      FacetDictionarySize(facets.FacetFields[field], tryParse);
      FacetDictionary(facets.FacetFields[field], tryParse)
    else
      map[]
  }

  /**
   * Statistics from the faceted search response and the total of the "recent items"
   * search (absent when that search failed). No statistics without facet counts.
   */
  function AngleStatistics(searchResponse: Option<AngleSearchResponse>, recentTotal: Option<int>,
                           tryParse: string -> Option<int>): (stats: Option<AngleStatisticsResponse>)
    ensures stats.None? <==> searchResponse.None? || searchResponse.value.FacetCounts.None?
    ensures stats.Some? ==>
      && stats.value.TotalAngles == searchResponse.value.Header.Total
      && -0x8000_0000 <= stats.value.RecentAngles < 0x8000_0000
      && (recentTotal.None? ==> stats.value.RecentAngles == 0)
      && (recentTotal.Some? ==> stats.value.RecentAngles == TruncateToInt32(recentTotal.value))
    ensures stats.Some? ==>
      && stats.value.Categories == FacetFieldDictionary(searchResponse.value.FacetCounts.value, "category", tryParse)
      && stats.value.StatusDistribution == FacetFieldDictionary(searchResponse.value.FacetCounts.value, "status", tryParse)
  {
    match searchResponse
    case None => None
    case Some(response) =>
      match response.FacetCounts
      case None => None
      case Some(facets) =>
        Some(DefaultStatisticsResponse().(
          TotalAngles := response.Header.Total,
          Categories := FacetFieldDictionary(facets, "category", tryParse),
          StatusDistribution := FacetFieldDictionary(facets, "status", tryParse),
          RecentAngles := TruncateToInt32(recentTotal.GetOr(0))))
  }

  /**
   * The category and status dictionaries of the statistics are the facet dictionaries
   * of those facet fields: empty when the response has no such field, and never more
   * entries than half the field's list.
   */
  lemma AngleStatisticsFacets(response: AngleSearchResponse, recentTotal: Option<int>,
                              tryParse: string -> Option<int>, term: string)
    requires response.FacetCounts.Some?
    ensures var stats := AngleStatistics(Some(response), recentTotal, tryParse).value;
      var fields := response.FacetCounts.value.FacetFields;
      && ("category" !in fields ==> stats.Categories == map[])
      && ("status" !in fields ==> stats.StatusDistribution == map[])
      && ("category" in fields ==> stats.Categories == FacetDictionary(fields["category"], tryParse))
      && ("status" in fields ==> stats.StatusDistribution == FacetDictionary(fields["status"], tryParse))
      && ("category" in fields ==>
            && |stats.Categories| <= |fields["category"]| / 2
            && (term in stats.Categories <==> exists j: nat :: CountedAt(fields["category"], tryParse, j) && fields["category"][j] == term))
      && ("status" in fields ==>
            && |stats.StatusDistribution| <= |fields["status"]| / 2
            && (term in stats.StatusDistribution <==> exists j: nat :: CountedAt(fields["status"], tryParse, j) && fields["status"][j] == term))
  {
    var fields := response.FacetCounts.value.FacetFields;
    if "category" in fields {
      FacetDictionarySize(fields["category"], tryParse);
      FacetDictionaryContents(fields["category"], tryParse, term);
    }
    if "status" in fields {
      FacetDictionarySize(fields["status"], tryParse);
      FacetDictionaryContents(fields["status"], tryParse, term);
    }
  }

  // ===========================================================================
  // URLs and resource paths
  // ===========================================================================

  /**
   * `base + uri` when `uri` starts with `/`, `base + "/" + uri` otherwise: the relative
   * URI is always placed after exactly one separating `/` of its own or the join's.
   */
  function JoinUri(baseUrl: string, uri: string): (url: string)
    ensures url == baseUrl + "/" + (if StartsWith(uri, "/") then uri[1..] else uri)
  {
    if StartsWith(uri, "/") then baseUrl + uri else baseUrl + "/" + uri
  }

  /** A leading `/` on the relative URI makes no difference, unless the URI already starts with one more. */
  lemma JoinUriLeadingSlash(baseUrl: string, uri: string)
    ensures JoinUri(baseUrl, "/" + uri) == JoinUri(baseUrl, uri) <==> !StartsWith(uri, "/")
  {
    assert StartsWith("/" + uri, "/");
    assert ("/" + uri)[1..] == uri;
    if StartsWith(uri, "/") {
      assert |JoinUri(baseUrl, "/" + uri)| == |JoinUri(baseUrl, uri)| + 1;
    }
  }

  /** The joined URL is the base, a `/`, and the relative URI without its own leading `/`. */
  lemma JoinUriShape(baseUrl: string, uri: string)
    ensures StartsWith(JoinUri(baseUrl, uri), baseUrl + "/")
    ensures |JoinUri(baseUrl, uri)| == |baseUrl| + 1 + |uri| - (if StartsWith(uri, "/") then 1 else 0)
  {
    var url := JoinUri(baseUrl, uri);
    assert url[..|baseUrl| + 1] == baseUrl + "/";
  }

  /** The query parameters of a data-rows request: `offset`, `limit`, then `fields` if any are named. */
  function DataRowsParams(offset: int, limit: int, fields: Option<seq<string>>, escape: string -> string): seq<string> {
    [Param("offset", IntToString(offset)), Param("limit", IntToString(limit))]
    + Optional(fields.Some? && |fields.value| > 0, "fields", FieldList(fields, escape))
  }

  /** The escaped field names joined by an encoded comma; empty when there are none. */
  function FieldList(fields: Option<seq<string>>, escape: string -> string): string {
    if fields.Some? then Join("%2C", MapEach(escape, fields.value)) else ""
  }

  /** The URL `GetDataRows` requests. */
  function DataRowsUrl(baseUrl: string, dataRowsUri: string, offset: int, limit: int,
                       fields: Option<seq<string>>, escape: string -> string): (url: string)
    ensures StartsWith(url, baseUrl + "/")
    ensures StartsWith(url, JoinUri(baseUrl, dataRowsUri) + "?")
    ensures url[|JoinUri(baseUrl, dataRowsUri)| + 1..] == Join("&", DataRowsParams(offset, limit, fields, escape))
  {
    var path := JoinUri(baseUrl, dataRowsUri);
    var query := Join("&", DataRowsParams(offset, limit, fields, escape));
    var url := path + "?" + query;
    JoinUriShape(baseUrl, dataRowsUri);
    assert url[..|path| + 1] == path + "?";
    assert url[..|baseUrl| + 1] == path[..|baseUrl| + 1];
    assert url[|path| + 1..] == query;
    url
  }

  /** What each parameter name receives in a data-rows query. */
  lemma DataRowsValuesAt(offset: int, limit: int, fields: Option<seq<string>>, escape: string -> string, k: string)
    ensures ValuesOf(DataRowsParams(offset, limit, fields, escape), k)
         == (if k == "offset" then [IntToString(offset)] else [])
          + (if k == "limit" then [IntToString(limit)] else [])
          + (if fields.Some? && |fields.value| > 0 && k == "fields" then [FieldList(fields, escape)] else [])
  {
    ValuesOfTwoThenOptional("offset", IntToString(offset), "limit", IntToString(limit),
                            fields.Some? && |fields.value| > 0, "fields", FieldList(fields, escape), k);
  }

  /** `offset` and `limit` always come first, in that order, once each. */
  lemma DataRowsPaging(offset: int, limit: int, fields: Option<seq<string>>, escape: string -> string)
    ensures var ps := DataRowsParams(offset, limit, fields, escape);
      && ps[0] == "offset=" + IntToString(offset)
      && ps[1] == "limit=" + IntToString(limit)
      && ValuesOf(ps, "offset") == [IntToString(offset)]
      && ValuesOf(ps, "limit") == [IntToString(limit)]
  {
    assert "offset" + "=" == "offset=";
    assert "limit" + "=" == "limit=";
    DataRowsValuesAt(offset, limit, fields, escape, "offset");
    DataRowsValuesAt(offset, limit, fields, escape, "limit");
  }

  /** `fields` is present exactly when a non-empty list is given: the escaped names joined by `%2C`. */
  lemma DataRowsFields(offset: int, limit: int, fields: Option<seq<string>>, escape: string -> string)
    ensures ValuesOf(DataRowsParams(offset, limit, fields, escape), "fields")
         == (if fields.Some? && |fields.value| > 0 then [Join("%2C", MapEach(escape, fields.value))] else [])
  {
    DataRowsValuesAt(offset, limit, fields, escape, "fields");
  }

  /** With the default paging and no field list the query is `offset=0&limit=300`. */
  lemma DataRowsDefaultQuery(baseUrl: string, dataRowsUri: string, escape: string -> string)
    ensures DataRowsUrl(baseUrl, dataRowsUri, 0, 300, None, escape) == JoinUri(baseUrl, dataRowsUri) + "?offset=0&limit=300"
    ensures DataRowsUrl(baseUrl, dataRowsUri, 0, 300, Some([]), escape) == JoinUri(baseUrl, dataRowsUri) + "?offset=0&limit=300"
  {
    DefaultDataRowsParams(escape);
    var u := JoinUri(baseUrl, dataRowsUri);
    assert Join("&", ["offset=0", "limit=300"]) == "offset=0" + "&" + "limit=300" by {
      assert ["offset=0", "limit=300"][1..] == ["limit=300"];
    }
    assert "?" + ("offset=0" + "&" + "limit=300") == "?offset=0&limit=300";
    assert u + "?" + ("offset=0" + "&" + "limit=300") == u + ("?" + ("offset=0" + "&" + "limit=300"));
  }

  lemma DefaultDataRowsParams(escape: string -> string)
    ensures DataRowsParams(0, 300, None, escape) == ["offset=0", "limit=300"]
    ensures DataRowsParams(0, 300, Some([]), escape) == ["offset=0", "limit=300"]
  {
    PrintedZero();
    PrintedThreeHundred();
    assert Param("offset", "0") == "offset=0";
    assert Param("limit", "300") == "limit=300";
  }

  lemma {:induction false} JoinWithout(sep: string, parts: seq<string>, c: char)
    requires c !in sep
    requires forall k :: 0 <= k < |parts| ==> c !in parts[k]
    ensures c !in Join(sep, parts)
  {
    if |parts| > 1 {
      JoinWithout(sep, parts[1..], c);
    }
  }

  /** The data-rows query reads back as its parameters when the escaper escapes `&`. */
  lemma DataRowsQuerySplitsBack(offset: int, limit: int, fields: Option<seq<string>>, escape: string -> string)
    requires forall s :: '&' !in escape(s)
    ensures Split(Join("&", DataRowsParams(offset, limit, fields, escape)), '&') == DataRowsParams(offset, limit, fields, escape)
  {
    var ps := DataRowsParams(offset, limit, fields, escape);
    IntToStringPlain(offset);
    IntToStringPlain(limit);
    if fields.Some? {
      JoinWithout("%2C", MapEach(escape, fields.value), '&');
    }
    ParamNotContains("offset", IntToString(offset), '&');
    ParamNotContains("limit", IntToString(limit), '&');
    OptionalNoneContains(fields.Some? && |fields.value| > 0, "fields", FieldList(fields, escape), '&');
    NoneContainsAppend([Param("offset", IntToString(offset)), Param("limit", IntToString(limit))],
                       Optional(fields.Some? && |fields.value| > 0, "fields", FieldList(fields, escape)), '&');
    QuerySplitsBack(ps);
  }

  /** The base-angle path of an execution request: under the model's angles. */
  function AnglePath(modelId: int, angleId: int): (p: string)
    ensures StartsWith(p, "/models/" + IntToString(modelId) + "/angles/")
  {
    var prefix := "/models/" + IntToString(modelId) + "/angles/";
    var p := prefix + IntToString(angleId);
    assert p[..|prefix|] == prefix;
    p
  }

  /** The base-display path of an execution request: below the angle's own path. */
  function DisplayPath(modelId: int, angleId: int, displayId: int): (p: string)
    ensures StartsWith(p, AnglePath(modelId, angleId) + "/displays/")
  {
    var prefix := AnglePath(modelId, angleId) + "/displays/";
    var p := prefix + IntToString(displayId);
    assert p[..|prefix|] == prefix;
    p
  }

  /** One block of an execution request's query definition. */
  datatype QueryDefinitionItem = QueryDefinitionItem(
    QueryBlockType: string,
    BaseAngle: Option<string>,
    BaseDisplay: Option<string>)

  /** The query definition `ExecuteAngleDisplay` posts: the base angle, then the base display. */
  function ExecuteAngleDisplayDefinition(modelId: int, angleId: int, displayId: int): (items: seq<QueryDefinitionItem>)
    ensures |items| == 2
    ensures items[0].QueryBlockType == "base_angle" && items[1].QueryBlockType == "base_display"
    ensures items[0].BaseAngle.Some? && items[0].BaseDisplay.None?
    ensures items[1].BaseDisplay.Some? && items[1].BaseAngle.None?
    ensures items[0].BaseAngle == Some(AnglePath(modelId, angleId))
    ensures items[1].BaseDisplay == Some(DisplayPath(modelId, angleId, displayId))
    ensures StartsWith(items[1].BaseDisplay.value, items[0].BaseAngle.value + "/displays/")
  {
    var anglePath := AnglePath(modelId, angleId);
    var displayPath := DisplayPath(modelId, angleId, displayId);
    assert displayPath[..|anglePath + "/displays/"|] == anglePath + "/displays/";
    [QueryDefinitionItem("base_angle", Some(anglePath), None),
     QueryDefinitionItem("base_display", None, Some(displayPath))]
  }

  /** An angle path reads `/models/`, the model id, `/angles/`, the angle id. */
  lemma AnglePathLayout(modelId: int, angleId: int)
    ensures AnglePath(modelId, angleId) == "/models/" + (IntToString(modelId) + "/angles/" + IntToString(angleId))
  {
  }

  /** Different (model, angle) pairs give different angle paths. */
  lemma AnglePathInjective(modelId: int, angleId: int, modelId': int, angleId': int)
    requires AnglePath(modelId, angleId) == AnglePath(modelId', angleId')
    ensures modelId == modelId' && angleId == angleId'
  {
    var m, a := IntToString(modelId), IntToString(angleId);
    var m', a' := IntToString(modelId'), IntToString(angleId');
    IntToStringPlain(modelId);
    IntToStringPlain(modelId');
    AnglePathLayout(modelId, angleId);
    AnglePathLayout(modelId', angleId');
    DropCommonPrefix("/models/", m + "/angles/" + a, m' + "/angles/" + a');
    SeparatedPartsUnique(m, "/angles/", a, m', a');
    IntToStringInjective(modelId, modelId');
    IntToStringInjective(angleId, angleId');
  }

  /** A display path reads `/models/`, the model id, `/angles/`, the angle id, `/displays/`, the display id. */
  lemma DisplayPathLayout(modelId: int, angleId: int, displayId: int)
    ensures DisplayPath(modelId, angleId, displayId)
         == "/models/" + (IntToString(modelId) + "/angles/" + (IntToString(angleId) + "/displays/" + IntToString(displayId)))
  {
    AnglePathLayout(modelId, angleId);
  }

  /** Different (model, angle, display) triples give different display paths. */
  lemma DisplayPathInjective(modelId: int, angleId: int, displayId: int, modelId': int, angleId': int, displayId': int)
    requires DisplayPath(modelId, angleId, displayId) == DisplayPath(modelId', angleId', displayId')
    ensures modelId == modelId' && angleId == angleId' && displayId == displayId'
  {
    var m, a, d := IntToString(modelId), IntToString(angleId), IntToString(displayId);
    var m', a', d' := IntToString(modelId'), IntToString(angleId'), IntToString(displayId');
    IntToStringPlain(modelId);
    IntToStringPlain(modelId');
    IntToStringPlain(angleId);
    IntToStringPlain(angleId');
    var y, y' := a + "/displays/" + d, a' + "/displays/" + d';
    DisplayPathLayout(modelId, angleId, displayId);
    DisplayPathLayout(modelId', angleId', displayId');
    DropCommonPrefix("/models/", m + "/angles/" + y, m' + "/angles/" + y');
    SeparatedPartsUnique(m, "/angles/", y, m', y');
    SeparatedPartsUnique(a, "/displays/", d, a', d');
    IntToStringInjective(modelId, modelId');
    IntToStringInjective(angleId, angleId');
    IntToStringInjective(displayId, displayId');
  }

  // ===========================================================================
  // Proof helpers: facts about particular literals
  // ===========================================================================

  lemma LowerStartsWith()
    ensures ToLower("startsWith") == "startswith"
  {
    ToLowerPointwise("startsWith", "startswith");
  }

  lemma LowerEndsWith()
    ensures ToLower("endsWith") == "endswith"
  {
    ToLowerPointwise("endsWith", "endswith");
  }

  lemma LowerUpperEquals()
    ensures ToLower("EQUALS") == "equals"
  {
    ToLowerPointwise("EQUALS", "equals");
  }

  lemma LowerEquals()
    ensures ToLower("equals") == "equals"
  {
    ToLowerPointwise("equals", "equals");
  }

  lemma LowerRange()
    ensures ToLower("range") == "range"
  {
    ToLowerPointwise("range", "range");
  }

  lemma PrintedZero()
    ensures IntToString(0) == "0"
  {
  }

  lemma PrintedThreeHundred()
    ensures IntToString(300) == "300"
  {
    assert NatToString(3) == "3";
    assert NatToString(30) == "30";
  }

  lemma FixedMandatoryTail()
    ensures "caching=false" + "&" + "viewmode=basic" == "caching=false&viewmode=basic"
  {
  }

  lemma FacetFlagText()
    ensures Param("facet", "true") == "facet=true"
  {
  }

  /** Text laid out as `x + mid + v + post` starts with `x` and contains `v`. */
  lemma PlacedPieces(x: string, mid: string, v: string, post: string)
    ensures StartsWith(x + mid + v + post, x)
    ensures Contains(x + mid + v + post, v)
  {
    var q := x + mid + v + post;
    assert q[..|x|] == x;
    assert q[|x| + |mid|..|x| + |mid| + |v|] == v;
    ContainsAt(q, v, |x| + |mid|);
  }
}
