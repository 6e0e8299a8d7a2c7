# AppserverMCP request and response logic in Dafny

AppserverMCP is an ASP.NET service that fronts an "Appserver" analytics back end.
It exposes the back end's items (angles and dashboards), model statistics and tasks to
clients over REST and MCP. This project models the logic of that service that does not
depend on the network, and proves properties of it:

- **Angle search client** (`AngleService`):
  - the search query-string serialiser (`BuildQueryParameters`);
  - the filter compiler (`BuildFilterQueries`);
  - the facet-list parser (`ProcessFacetList`);
  - the search requests that `FilterAnglesAsync` and `GetAngleStatisticsAsync` build, and the statistics the latter assembles;
  - the relative-URI join and the data-rows URL;
  - the angle and display paths of an execution request.
- **Request records** (`AngleModels`): the search, filter, facet and statistics records, with their default values.
- **Appserver client** (`AppserverService`): the model statistics computed from the `/about` answer, and the body that starts a task.
- **Request-logging middleware** (`RequestLogging`):
  - which request and response bodies are logged;
  - which address identifies the client;
  - the text of a status code;
  - the colour band and log level of a response.

Library calls the service makes are parameters of the model:

- `urlEncode` stands for `HttpUtility.UrlEncode`.
- `escape` stands for `Uri.EscapeDataString`.
- `tryParse` stands for `int.TryParse`, returning `None` on failure.

`string.ToLower` and ordinal case-insensitive comparison are ASCII lower-casing (`Text.ToLower`). A C# `null` is `Option.None`.

The loops of the source are methods proved against specification functions:

- `BuildQueryParameters` against `SearchQuery`;
- `BuildFilterQueries` against `CompiledFilters`;
- `ProcessFacetList` against `FacetDictionary`.

The other properties are lemmas about those functions.

Files:

| file | contents |
|---|---|
| `wrappers.dfy` | `Option` |
| `text.dfy` | case folding, substrings, `string.Join`, splitting, decimal printing of integers |
| `query_string.dfy` | `key=value` parameters and what a parameter list gives each key |
| `angle_models.dfy` | request and response records with their defaults |
| `angle_service.dfy` | the angle search client |
| `appserver_service.dfy` | model statistics and the task body |
| `request_logging.dfy` | the logging middleware helpers |

## Model

| member | source | states |
|---|---|---|
| AngleService.BuildQueryParameters | AppserverMCP/Services/AngleService.cs:537-580 | the text built step by step is exactly the `&`-join of the parameter list `QueryParameterList` |
| AngleService.AppendPaging | AppserverMCP/Services/AngleService.cs:546-549 | appends `start` only for a positive offset, then `rows` only when the page size is not 10 |
| AngleService.AppendProjection | AppserverMCP/Services/AngleService.cs:551-556 | appends `fl` only for a field list that is neither empty nor `*`, then `sort` only for a non-empty sort |
| QueryString.AppendParams | AppserverMCP/Services/AngleService.cs:558-561 | the `foreach` loop appends one `key=f(value)` per value, in list order, after the existing parameters |
| AngleService.AppendFacets | AppserverMCP/Services/AngleService.cs:563-570 | when faceting, appends `facet=true` and then one `facet.field` per facet field; otherwise nothing |
| AngleService.AppendHighlight | AppserverMCP/Services/AngleService.cs:572-577 | when highlighting, appends `highlight=true` and then `hl.fl` if highlight fields are named; otherwise nothing |
| AngleService.ParameterValuesAt | AppserverMCP/Services/AngleService.cs:539-577 | for any key, the values it receives in the serialised list, in order, as a closed formula over the request |
| AngleService.QueryParameterValuesAt | AppserverMCP/Services/AngleService.cs:539-577 | a key's values are its values in the mandatory, paging, projection, filter, facet and highlight blocks, in that order |
| AngleService.QueryParameter | AppserverMCP/Services/AngleService.cs:541 | `q` occurs exactly once, carrying the URL-encoded query |
| AngleService.CachingParameter | AppserverMCP/Services/AngleService.cs:542 | `caching` occurs exactly once, with value `false` |
| AngleService.ViewModeParameter | AppserverMCP/Services/AngleService.cs:543 | `viewmode` occurs exactly once, with value `basic` |
| AngleService.StartParameter | AppserverMCP/Services/AngleService.cs:547-548 | `start` occurs, once and in decimal, iff the offset is positive |
| AngleService.RowsParameter | AppserverMCP/Services/AngleService.cs:548-549 | `rows` occurs, once and in decimal, iff the page size differs from 10 |
| AngleService.FieldListParameter | AppserverMCP/Services/AngleService.cs:552-553 | `fl` occurs, encoded, iff the field list is neither empty nor `*` |
| AngleService.SortParameter | AppserverMCP/Services/AngleService.cs:555-556 | `sort` occurs, encoded, iff a sort order is given |
| AngleService.FilterQueryParameters | AppserverMCP/Services/AngleService.cs:558-561 | the `fq` values are the encoded filter queries, one each, in list order |
| AngleService.FacetParameter | AppserverMCP/Services/AngleService.cs:563-565 | `facet=true` occurs iff faceting is on |
| AngleService.FacetFieldParameters | AppserverMCP/Services/AngleService.cs:566-569 | the `facet.field` values are the encoded facet fields in order when faceting, none otherwise |
| AngleService.HighlightParameter | AppserverMCP/Services/AngleService.cs:572-574 | `highlight=true` occurs iff highlighting is on |
| AngleService.HighlightFieldsParameter | AppserverMCP/Services/AngleService.cs:575-576 | `hl.fl` occurs iff highlighting is on and highlight fields are named |
| AngleService.MandatoryParametersOnce | AppserverMCP/Services/AngleService.cs:539-544 | `q`, `caching` and `viewmode` each occur exactly once with their fixed values |
| AngleService.OptionalParametersPresence | AppserverMCP/Services/AngleService.cs:546-556 | `start`, `rows`, `fl` and `sort` occur at most once each, and exactly under their guards |
| AngleService.FacetAndHighlightParameters | AppserverMCP/Services/AngleService.cs:563-577 | the facet and highlight parameters occur only when their flag is set |
| AngleService.SearchQueryBeginsWithMandatory | AppserverMCP/Services/AngleService.cs:539-579 | every query string begins `q=<encoded query>&caching=false&viewmode=basic` |
| AngleService.FacetFieldsFollowFacetFlag | AppserverMCP/Services/AngleService.cs:563-570 | when faceting, the facet fields follow `facet=true` immediately and contiguously, in list order |
| AngleService.DefaultRequestSerialisation | AppserverMCP/Models/AngleModels.cs:5-36 | a default search request serialises to the three mandatory parameters only |
| AngleService.DefaultsAreOmitted | AppserverMCP/Models/AngleModels.cs:14-23 | `start`, `rows`, `fl` and `sort` are absent exactly at their record defaults (start also at any value below 0; fl also when empty) |
| AngleService.QueryParametersHaveNoAmpersand | AppserverMCP/Services/AngleService.cs:579 | if the encoder never emits `&`, no parameter contains `&` |
| AngleService.SearchQuerySplitsBack | AppserverMCP/Services/AngleService.cs:579 | splitting the query string at `&` gives back the parameter list, when the encoder never emits `&` |
| QueryString.QuerySplitsBack | AppserverMCP/Services/AngleService.cs:579 | `Split('&')` inverts `Join("&")` on parameters free of `&` |
| AngleModels.DefaultSearchRequest | AppserverMCP/Models/AngleModels.cs:5-36 | a new search request matches everything (`*:*`), asks for the first page of 10 rows with all fields, unsorted, with no filters, facets or highlighting |
| AngleModels.DefaultFilterRequest | AppserverMCP/Models/AngleModels.cs:121-137 | a new filter has empty field and value, the `equals` operator and no range bounds |
| AngleModels.DefaultStatisticsResponse | AppserverMCP/Models/AngleModels.cs:139-153 | new statistics have zero totals and empty category and status dictionaries |
| AngleService.FilterQuery | AppserverMCP/Services/AngleService.cs:588-597 | every operator but `not` yields a query starting `field:`; `not` yields `-` and the exact-match form; an unrecognised operator yields the exact-match form |
| AngleService.BuildFilterQueries | AppserverMCP/Services/AngleService.cs:582-603 | the output has one entry per filter, and entry i is the compiled form of filter i |
| AngleService.FilterOperatorCaseInsensitive | AppserverMCP/Services/AngleService.cs:588 | operators that agree ignoring case compile the same |
| AngleService.StartsWithSpelling | AppserverMCP/Models/AngleModels.cs:130 | the documented camel-case `startsWith` reaches the `startswith` branch, `field:value*` |
| AngleService.EndsWithSpelling | AppserverMCP/Models/AngleModels.cs:130 | the documented camel-case `endsWith` reaches the `endswith` branch, `field:*value` |
| AngleService.UpperCaseEqualsSpelling | AppserverMCP/Services/AngleService.cs:588-590 | `EQUALS` compiles as the exact-match form |
| AngleService.UnknownOperatorMeansEquals | AppserverMCP/Services/AngleService.cs:596 | any operator outside the six known names compiles exactly like `equals` |
| AngleService.NotNegatesEquals | AppserverMCP/Services/AngleService.cs:595 | `not` compiles to the `equals` form with a leading `-` |
| AngleService.RangeMissingBoundIsStar | AppserverMCP/Services/AngleService.cs:594 | `range` compiles to `field:[from TO to]`, and a missing bound is the same as `*` |
| AngleService.BoundsOnlyForRange | AppserverMCP/Services/AngleService.cs:588-597 | `From` and `To` change the result only for the `range` operator |
| AngleService.FilterTextIsVerbatim | AppserverMCP/Services/AngleService.cs:590-596 | the compiled filter starts with the raw field (after `-` for `not`) and, except for `range`, contains the raw value |
| AngleService.DefaultFilterIsEquals | AppserverMCP/Models/AngleModels.cs:121-137 | a filter left at its default operator is an exact match on field and value |
| AngleService.FilterAnglesRequest | AppserverMCP/Services/AngleService.cs:124-131 | the filtered search matches everything and carries the caller's start, rows and sort and one compiled filter query per filter, in order; other fields keep their defaults |
| AngleService.FilterAnglesQuery | AppserverMCP/Services/AngleService.cs:120-133 | the filtered search sends one encoded `fq` per filter, in order, with `q` = encoded `*:*` and no facet, highlight or `fl` |
| AngleService.StatisticsSearchRequest | AppserverMCP/Services/AngleService.cs:146-152 | the statistics search matches everything, asks for 0 rows and facets on `category` then `status`, with no filters |
| AngleService.StatisticsSearchParameters | AppserverMCP/Services/AngleService.cs:146-152 | the statistics search sends exactly `q`, `caching`, `viewmode`, `rows=0`, `facet=true` and the two facet fields `category` and `status` |
| AngleService.NoRowsParameter | AppserverMCP/Services/AngleService.cs:547-549 | a request for zero rows at offset zero pages as `rows=0` alone |
| AngleService.RecentAnglesRequest | AppserverMCP/Services/AngleService.cs:174-183 | the recent-items search matches everything, asks for 0 rows at offset 0, unsorted and without facets or highlighting, with the single filter query `created_date:[from TO to]` |
| AngleService.RecentAnglesParameters | AppserverMCP/Services/AngleService.cs:174-183 | the recent-items search sends the mandatory parameters, `rows=0` and one `fq` holding the `created_date` range |
| AngleService.ProcessFacetList | AppserverMCP/Services/AngleService.cs:605-622 | the index loop stepping by 2 builds exactly `FacetDictionary` of the list |
| AngleService.FacetPairsSpec | AppserverMCP/Services/AngleService.cs:609-619 | after n pairs, a term is a key iff it stands at an even position below 2n with a parsable count; its value is the count of its last such occurrence |
| AngleService.FacetDictionaryContents | AppserverMCP/Services/AngleService.cs:609-619 | a term is a key iff it has a parsable count after it; the last occurrence wins; unpaired and unparsable entries leave nothing |
| AngleService.FacetDictionarySize | AppserverMCP/Services/AngleService.cs:605-622 | a list of n entries yields at most n/2 terms |
| AngleService.FacetPairsPrefix | AppserverMCP/Services/AngleService.cs:609-619 | entries after the first n pairs do not affect the dictionary of those pairs |
| AngleService.FacetTrailingTermIgnored | AppserverMCP/Services/AngleService.cs:611 | a trailing term without a count is ignored |
| AngleService.TruncateToInt32 | AppserverMCP/Services/AngleService.cs:184 | the `(int)` cast of a `long` lies in the 32-bit range, agrees with the input modulo 2^32, and is the identity on values in range |
| AngleService.FacetFieldDictionary | AppserverMCP/Services/AngleService.cs:162-172 | a field present in the facet counts gives `FacetDictionary` of its list, with at most half as many terms as entries; a missing field gives an empty dictionary |
| AngleService.AngleStatistics | AppserverMCP/Services/AngleService.cs:142-193 | no statistics exactly when the search or its facet counts are missing; otherwise the total is the search total, categories and status distribution are the facet dictionaries of those fields (empty when a field is missing), and the recent count is the `(int)` truncation of the recent total, 0 when the recent search failed |
| AngleService.AngleStatisticsFacets | AppserverMCP/Services/AngleService.cs:161-172 | categories and status distribution equal `FacetDictionary` of those fields, or are empty when the field is missing; each holds at most half as many terms as entries, and exactly the terms followed by a parsable count |
| AngleService.JoinUri | AppserverMCP/Services/AngleService.cs:263 | the URL is the base, one `/`, and the relative URI without its own leading `/` |
| AngleService.JoinUriLeadingSlash | AppserverMCP/Services/AngleService.cs:384 | prefixing `/` to the relative URI changes nothing iff the URI did not already start with `/` |
| AngleService.JoinUriShape | AppserverMCP/Services/AngleService.cs:494 | the joined URL starts with `base/` and is exactly one character longer than base plus URI when the URI has no leading `/` |
| AngleService.DataRowsUrl | AppserverMCP/Services/AngleService.cs:433-445 | the URL starts with `base/`, is the joined URI followed by `?`, and everything after that `?` is the `&`-join of the data-rows parameters |
| AngleService.DataRowsValuesAt | AppserverMCP/Services/AngleService.cs:434-443 | the values each key receives in the data-rows query |
| AngleService.DataRowsPaging | AppserverMCP/Services/AngleService.cs:434-438 | `offset` and then `limit` come first, once each |
| AngleService.DataRowsFields | AppserverMCP/Services/AngleService.cs:440-443 | `fields` occurs iff a non-null, non-empty list is given, as the escaped names joined by `%2C` |
| AngleService.DataRowsDefaultQuery | AppserverMCP/Services/AngleService.cs:427-445 | with the default arguments the URL ends `?offset=0&limit=300`, both for a null list and for an empty one |
| AngleService.DataRowsQuerySplitsBack | AppserverMCP/Services/AngleService.cs:445 | the data-rows query splits back into its parameters when the escaper never emits `&` |
| AngleService.AnglePath | AppserverMCP/Services/AngleService.cs:322 | the base-angle path starts `/models/<model id>/angles/` |
| AngleService.DisplayPath | AppserverMCP/Services/AngleService.cs:327 | the base-display path starts with the angle's own path followed by `/displays/` |
| AngleService.ExecuteAngleDisplayDefinition | AppserverMCP/Services/AngleService.cs:316-331 | two blocks: a `base_angle` block carrying exactly the angle path, then a `base_display` block carrying exactly the display path; the display path extends the angle path with `/displays/` |
| AngleService.AnglePathLayout | AppserverMCP/Services/AngleService.cs:322 | the base-angle path is `/models/`, the model id, `/angles/`, the angle id |
| AngleService.DisplayPathLayout | AppserverMCP/Services/AngleService.cs:327 | the base-display path is `/models/`, the model id, `/angles/`, the angle id, `/displays/`, the display id |
| AngleService.AnglePathInjective | AppserverMCP/Services/AngleService.cs:322 | different (model, angle) pairs give different base-angle paths |
| AngleService.DisplayPathInjective | AppserverMCP/Services/AngleService.cs:327 | different (model, angle, display) triples give different base-display paths |
| AppserverService.IsUp | AppserverMCP/AppserverService.cs:157 | a model is up iff its status lower-cases to `up` |
| AppserverService.CountComplement | AppserverMCP/AppserverService.cs:157-160 | every model is counted by exactly one of a test and its negation |
| AppserverService.CountExtremes | AppserverMCP/AppserverService.cs:157-160 | a count equals the list length iff all models pass, and is 0 iff none do |
| AppserverService.CountAppend | AppserverMCP/AppserverService.cs:157-160 | counting distributes over concatenation of model lists |
| AppserverService.MaxTimestamp | AppserverMCP/AppserverService.cs:161 | the maximum of a non-empty list is some model's timestamp and is at least every model's timestamp |
| AppserverService.LatestTimestamp | AppserverMCP/AppserverService.cs:161 | 0 for no models; otherwise attained by a model and an upper bound of all timestamps |
| AppserverService.LatestTimestampOrderFree | AppserverMCP/AppserverService.cs:161 | two model lists with the same models in any order (equal multisets) have the same latest timestamp |
| AppserverService.LatestTimestampBounded | AppserverMCP/AppserverService.cs:161 | when every model of one non-empty list also occurs in another, its latest timestamp is no later |
| AppserverService.Statistics | AppserverMCP/AppserverService.cs:154-162 | the dictionary has exactly the six statistics keys |
| AppserverService.ModelStatistics | AppserverMCP/AppserverService.cs:147-171 | the result is absent iff the about answer is absent; otherwise it is the statistics of its models |
| AppserverService.StatisticsEntries | AppserverMCP/AppserverService.cs:154-162 | each key holds the count it names |
| AppserverService.StatisticsPartitionModels | AppserverMCP/AppserverService.cs:156-160 | up + down = total, and real-time + batch = total |
| AppserverService.StatisticsAllUp | AppserverMCP/AppserverService.cs:157-158 | up = total iff every model is up iff down = 0 |
| AppserverService.StatisticsNoRealTime | AppserverMCP/AppserverService.cs:159-160 | real-time = 0 iff no model is real-time iff batch = total |
| AppserverService.UpIgnoresCase | AppserverMCP/AppserverService.cs:157 | `up`, `UP` and `Up` count as up, and a status counts as up iff it lower-cases to `up` |
| AppserverService.TaskExecutionBody | AppserverMCP/AppserverService.cs:185-189 | the body always starts the task; the reason is the given one, even empty, or `Automated execution` when none is given |
| RequestLogging.ShouldLogBody | AppserverMCP/Middleware/RequestLoggingMiddleware.cs:144-155 | never for a length above 10000 or a missing or empty content type; otherwise iff the lower-cased type contains `json`, `xml`, `text` or `form` |
| RequestLogging.ShouldLogResponseBody | AppserverMCP/Middleware/RequestLoggingMiddleware.cs:157-168 | the same, with `html` in place of `form` |
| RequestLogging.BodyLoggingIgnoresCase | AppserverMCP/Middleware/RequestLoggingMiddleware.cs:150 | content types equal up to case are classified alike, for requests and responses |
| RequestLogging.BodyLoggingShorterLength | AppserverMCP/Middleware/RequestLoggingMiddleware.cs:147 | a body logged at some length is also logged at any smaller or unknown length |
| RequestLogging.RequestAndResponseDiffer | AppserverMCP/Middleware/RequestLoggingMiddleware.cs:144-168 | the two classifiers disagree only on content types mentioning `form` or `html` |
| RequestLogging.BodyLoggingExtends | AppserverMCP/Middleware/RequestLoggingMiddleware.cs:150-154 | a content type containing a logged content type, ignoring case, is logged too |
| RequestLogging.JsonBodyLogged | AppserverMCP/Middleware/RequestLoggingMiddleware.cs:144-168 | `Application/JSON` bodies are logged by both classifiers at every length from 0 to 10000 and at unknown length, and at no length above 10000 |
| RequestLogging.JsonTypeLogged | AppserverMCP/Middleware/RequestLoggingMiddleware.cs:144-168 | any content type that lower-cases to `application/json` is logged by both classifiers exactly when its length is unknown or at most 10000 |
| RequestLogging.ClientIpAddress | AppserverMCP/Middleware/RequestLoggingMiddleware.cs:170-180 | a non-empty `X-Forwarded-For` is returned as is; failing that a non-empty `X-Real-IP`; failing both, the remote address, or `Unknown` when there is none |
| RequestLogging.ClientIpFromInputs | AppserverMCP/Middleware/RequestLoggingMiddleware.cs:172-179 | the address is one of the three inputs or `Unknown`, and it is `Unknown` when nothing is given |
| RequestLogging.ClientIpPrecedence | AppserverMCP/Middleware/RequestLoggingMiddleware.cs:173-177 | `X-Forwarded-For` hides `X-Real-IP`, which in turn hides the remote address |
| RequestLogging.ClientIpEmpty | AppserverMCP/Middleware/RequestLoggingMiddleware.cs:176-179 | the address is empty iff both headers are unusable and the remote address is the empty string |
| RequestLogging.StatusDescription | AppserverMCP/Middleware/RequestLoggingMiddleware.cs:182-197 | every code gets a non-empty description |
| RequestLogging.StatusDescriptionTable | AppserverMCP/Middleware/RequestLoggingMiddleware.cs:184-196 | the description is `Unknown` iff the code is not one of the nine listed codes |
| RequestLogging.StatusDescriptionInjective | AppserverMCP/Middleware/RequestLoggingMiddleware.cs:184-196 | different listed codes have different descriptions |
| RequestLogging.ResponseBand | AppserverMCP/Middleware/RequestLoggingMiddleware.cs:122-129 | green iff 200-299, yellow iff 300-399, orange iff 400-499, red iff 500 or more, white iff below 200 |
| RequestLogging.Emoji | AppserverMCP/Middleware/RequestLoggingMiddleware.cs:124-128 | each band's marker is a single Unicode character |
| RequestLogging.ResponseLogLevel | AppserverMCP/Middleware/RequestLoggingMiddleware.cs:121 | the level is Warning iff the band is orange or red, that is iff the code is 400 or more |
| RequestLogging.BandFollowsHundreds | AppserverMCP/Middleware/RequestLoggingMiddleware.cs:122-129 | from 200 to 499 the band follows the hundreds digit; below 200 it is white; from 200 on it never falls as the code rises |
| RequestLogging.EmojiDistinct | AppserverMCP/Middleware/RequestLoggingMiddleware.cs:122-129 | each band has its own marker |
| RequestLogging.KnownStatusBands | AppserverMCP/Middleware/RequestLoggingMiddleware.cs:121-129 | the named 2xx codes are green at Information level; the named 4xx are orange and the named 5xx red, both at Warning |

## Left out

- Network and I/O are not modelled:
  - sending HTTP requests and the access-token headers;
  - `EnsureSuccessStatusCode` and JSON (de)serialisation;
  - logging;
  - the `catch` paths that return `null`.

  The model starts from the already-parsed response, or its absence.
- `AppserverMCP/Utils/PlatformService.cs` acquires access tokens over the network. It is not part of this model.
- `GetAngleStatisticsAsync` depends on the clock:
  - `LastUpdated` and the 30-day window come from `DateTime.UtcNow`;
  - the window's two timestamps are parameters of `RecentAnglesRequest`;
  - the second search's total is a parameter of `AngleStatistics`.
- `RequestLoggingMiddleware` is modelled only through its helpers:
  - `InvokeAsync` and `LogRequestAsync` (stream buffering, the stopwatch, the random request id) are not modelled;
  - the body and JSON texts of `LogResponseAsync` are not modelled. That method is never called anyway, because its call is commented out.
- `GetAngles` and `GetDashboards` build their URL from a fixed template. They add `q=<query>&` only when the query is neither null nor empty, and insert the query unencoded. `GetAngleByIdAsync` inserts the angle id the same way. These URL templates are not modelled.
- The task URL of `ExecuteTaskAsync` is not modelled.
- Library internals are not re-implemented:
  - `HttpUtility.UrlEncode`, `Uri.EscapeDataString` and `int.TryParse` are uninterpreted parameters;
  - facet entries (`List<object>`) are modelled as the text their `ToString()` gives.
- Case folding is ASCII only. `ToLower` and `OrdinalIgnoreCase` on non-ASCII letters are not modelled.
- `string.ToLower()` uses the current culture in .NET, here in the filter operator switch (`AngleService.cs:588`) and the two content-type tests (`RequestLoggingMiddleware.cs:150`, `:163`). The model lower-cases as the invariant culture does. Under a Turkish culture, `CONTAINS` lower-cases to `contaıns` with a dotless ı, which matches no operator and falls back to the exact-match form; the model does not capture this. `OrdinalIgnoreCase` in the model-status test is culture-free.
- The one-argument `StartsWith("/")` (`AngleService.cs:263`, `:384`, `:494`) also compares with the current culture. The model compares characters one by one, which agrees with it for the prefix `/` on ordinary text.
- A `null` entry in a facet list makes `facetList[i].ToString()` throw (`AngleService.cs:611-614`). The `catch` of `GetAngleStatisticsAsync` then returns `null` statistics. The model's facet entries are texts and are never `null`, so this path is not modelled.
- Integers are printed with invariant-culture decimal digits; culture-specific formatting is not modelled.
- C# strings that are not nullable in the source are never `null` in the model.
- The controllers, `AppserverTools.cs`, `Program.cs`, `MiddlewareExtensions.cs` and `BusinessprocessesView.cs` are not part of this model. They are wiring and DTOs.
- The range, interval and heat-map facets hold untyped JSON and are read nowhere. They are not modelled.
- `AngleService.BuildQueryParameters` is written as a sequence of calls, one helper method per block of the source (paging, projection, filters, facets, highlight). Each helper has the source's own `if` and `foreach` structure.
- `AngleService.BuildQueryParameters` does not model C# `int` overflow in `Start` or `Rows`. They are unbounded integers, and only their printed text matters.
- `AppserverService.LatestTimestamp` takes `ModeldataTimestamp` as an unbounded integer. `long` has no arithmetic here: the maximum is only compared, never computed.
- `RequestLogging.ClientIpAddress` follows the code rather than the "first non-empty value" reading. When both headers are unusable, a remote address that prints as the empty string is returned as is; `Unknown` appears only when there is no remote address at all.
- `RequestLogging.Emoji`: the markers are Unicode scalar values, one `char` each in the model. In .NET, a string is counted in UTF-16 code units, so the four coloured circles have length 2 and only the white circle has length 1. The model does not state lengths in UTF-16 units.
- `AngleService.DefaultsAreOmitted` also reflects the code rather than the simpler reading that `start` is omitted only at its default 0. Any non-positive `Start` is omitted, because the guard is `Start > 0`.
