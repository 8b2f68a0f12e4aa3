# Car catalog API: a verified model of its query logic

The service is a read-only HTTP API over a static catalog of car models, manufacturers and categories. The catalog is loaded once at start-up and never written again. This project models what the handlers in `main.go` compute from that dataset and a request:

- the filtered model list: search by name, then manufacturerId, then categoryId;
- the three lookups by id;
- the compare endpoint, which takes a comma-separated id list;
- the recommendations endpoint, which falls back to the first three models;
- the `/api` discovery map.

Each handler has two parts:

- a specification function from the dataset `Data` and the request to a `Response`. The request is the HTTP method, the path and the query parameters. An absent parameter is `""`, as Go's `Query().Get` returns it. `Response` is `Ok(body) | BadRequest | NotFound | MethodNotAllowed`.
- where the Go code walks the slices with loops, a method with the same loops, proved equal to that function.

Lemmas then state what the endpoints promise in terms of the function. The Go library calls the handlers use are modelled as functions over ASCII strings and unbounded integers: `strings.ToLower`, `Contains`, `HasPrefix`/`TrimPrefix`, `TrimSpace`, `Split` and `strconv.Atoi`.

Modules, leaves first:

- `Wrappers`: `Option`.
- `GoStrings`: the `strings` functions, with `Join` as the inverse of `Split`.
- `GoStrconv`: `Atoi`, with `Itoa`, which `Atoi` reads back.
- `Catalog`: the records and `Response`.
- `Query`: filter stages, their conjunction, order-preserving subsequences, and the first-match lookup with its scan loop.
- `Handlers`: `/api`, the list endpoints and the by-id endpoints.
- `CompareEndpoint`.
- `RecommendationsEndpoint`.

Behaviour of the code that is easy to miss, and that the model follows:

- Only `handleModels`, `handleManufacturers` and `handleCategories` check the HTTP method (main.go:125, 200, 233). The by-id, compare, recommendations and `/api` handlers answer any method, so their model has no method parameter.
- Recommendations test only whether `manufacturerId` is non-empty before choosing it over `categoryId` (main.go:287, 295). A non-empty `manufacturerId` that does not parse therefore falls back to the first three models, whatever `categoryId` says (`FallsBackWithoutUsableFilter`).
- The compare endpoint refuses `ids=` (an empty value) exactly as it refuses a missing `ids`, because `Query().Get` returns `""` for both (main.go:262-265).

## Model

| member | source | states |
|---|---|---|
| GoStrings.ToLower | main.go:133-136 | lower-casing keeps the length, maps each character by the ASCII case mapping and leaves no upper-case letter |
| GoStrings.ToLowerIdempotent | main.go:133-136 | lower-casing an already lower-cased string changes nothing |
| GoStrings.Contains | main.go:136 | `strings.Contains` by scanning: it holds only when the needle fits in the text, and always for the empty needle |
| GoStrings.ContainsIffOccurs | main.go:136 | the scanning `Contains` holds exactly when the needle occurs at some position of the text |
| GoStrings.TrimPrefix | main.go:175 | with the prefix present, prefix followed by the result is the path; otherwise the path is kept |
| GoStrings.LeadingSpaces | main.go:270 | the count of leading characters is within the text, they are all white space, and the next character is not |
| GoStrings.TrailingSpaces | main.go:270 | the count of trailing characters is within the text, they are all white space, and the character before them is not |
| GoStrings.TrimSpace | main.go:270 | the result is a contiguous slice of the token, only white space lies outside it, and it neither starts nor ends with white space |
| GoStrings.TrimSpaceNoSpace | main.go:270 | a token without white space is left unchanged |
| GoStrings.TrimSpaceAround | main.go:270 | white space around a text that neither starts nor ends with white space is exactly what is cut off |
| GoStrings.Split | main.go:267 | one more piece than separators, no piece holds a separator, and joining the pieces gives the input back |
| GoStrings.SplitJoin | main.go:267 | splitting a join of separator-free pieces returns those pieces |
| GoStrconv.Atoi | main.go:144 | parses exactly an optional sign followed by one or more digits; the value is the digits' decimal value, negated after a leading '-' |
| GoStrconv.AtoiItoa | main.go:180 | parsing the decimal form of any integer returns that integer |
| GoStrconv.ItoaCharacters | main.go:267-270 | a formatted id is non-empty and holds no white space and no ',' |
| Query.Filter | main.go:134-140 | a filter stage never lengthens the list |
| Query.FilterMembership | main.go:134-140 | a filter stage keeps exactly the models that satisfy its criterion |
| Query.FilterIsSubsequence | main.go:134-140 | a filter stage is an order-preserving subsequence of its input |
| Query.FilterKeepsAll | main.go:134-140 | a stage that every model passes returns its input unchanged |
| Query.FilterDropsAll | main.go:289-293 | a stage that no model passes returns the empty list |
| Query.FilterIdempotent | main.go:132-141 | applying the same search stage twice equals applying it once |
| Query.SubsequenceTransitive | main.go:130-165 | a subsequence of a subsequence is a subsequence, which is how Narrow shows that chained stages keep dataset order |
| Query.Narrow | main.go:130-165 | the stages applied one after another, each to the previous result, give an order-preserving subsequence of the input |
| Query.FilterAllMembership | main.go:130-165 | the one-pass reference filter keeps exactly the models satisfying every criterion |
| Query.FilterAllIsSubsequence | main.go:130-165 | the one-pass reference filter keeps dataset order |
| Query.FilterThenFilterAll | main.go:130-165 | one stage followed by a one-pass filter equals a one-pass filter by all the criteria |
| Query.NarrowIsConjunction | main.go:130-165 | applying the stages in sequence equals the one-pass filter by their conjunction, order and duplicates included |
| Query.NarrowAppend | main.go:130-165 | narrowing by two criteria lists in a row equals narrowing by their concatenation |
| Query.FilterCommutes | main.go:143-165 | two filter stages give the same list in either order |
| Query.Retain | main.go:145-151 | the filter loop returns exactly the filter stage of its input |
| Query.Find | main.go:185-191 | the lookup is None iff no record has the id; otherwise it is the first record with that id |
| Query.FindUnique | main.go:185-190 | with unique ids, looking up the id of any record returns that record |
| Query.Scan | main.go:185-191 | the scan loop with early return computes the first-match lookup |
| Handlers.ApiRoot | main.go:102-109 | the discovery map has exactly the keys models, categories and manufacturers, each mapped to "/api/" followed by its key |
| Handlers.ApiRootPathsServeLists | main.go:102-109 | each path in the discovery map, fetched with GET, returns the full collection |
| Handlers.IdFilter | main.go:143-144 | a numeric filter is used exactly when it is present and parses, with the parsed value |
| Handlers.ModelCriteria | main.go:132-165 | at most three stages; none exactly when there is no search text and neither id filter is usable; the search stage comes first and the category stage last |
| Handlers.CriteriaMeaning | main.go:130-165 | the list of filter stages accepts a model exactly when the per-parameter match condition holds |
| Handlers.Models | main.go:120-168 | wrong path gives 404 and non-GET gives 405; GET is never an error and returns an order-preserving subsequence of the dataset holding exactly the models that match every usable filter; the list is the one-pass filter of the dataset by the usable filters, so a matching record listed twice in the dataset is listed twice |
| Handlers.HandleModels | main.go:120-168 | the stage-by-stage handler computes the same response as Models |
| Handlers.ModelsWithoutUsableFilter | main.go:130-167 | with no search text and id filters that are absent or unparseable, the list is the whole dataset in order |
| Handlers.UnparseableFiltersIgnored | main.go:143-165 | unparseable id filters give the same response as absent ones |
| Handlers.ModelsIntersection | main.go:130-165 | a model is listed under all filters together iff it is listed under each filter alone |
| Handlers.SearchStage | main.go:132-141 | the search alone gives the case-insensitive name filter of the dataset, and that filter is idempotent |
| Handlers.Manufacturers | main.go:195-205 | 404 for any other path; Ok iff GET on the exact path, and then the whole collection; 405 iff non-GET on that path |
| Handlers.Categories | main.go:228-238 | 404 for any other path; Ok iff GET on the exact path, and then the whole collection; 405 iff non-GET on that path |
| Handlers.ListEndpointsRejectNonGet | main.go:120-128 | a non-GET request to any of the three list paths is 405, whatever the query parameters |
| Handlers.LookupId | main.go:180-191 | 400 iff the id text does not parse; 404 iff it parses and no record has that id; otherwise the first record with that id; never 405 |
| Handlers.ResolveId | main.go:180-191 | parsing and then scanning computes LookupId |
| Handlers.ModelById | main.go:170-192 | outside the prefix or with an empty id, 404; otherwise the lookup of the path's id text |
| Handlers.HandleModelById | main.go:170-192 | the handler computes the same response as ModelById |
| Handlers.ManufacturerById | main.go:207-225 | outside the prefix, 404; otherwise the lookup of the path's id text, the empty one included |
| Handlers.HandleManufacturerById | main.go:207-225 | the handler computes the same response as ManufacturerById |
| Handlers.CategoryById | main.go:240-258 | outside the prefix, 404; otherwise the lookup of the path's id text, the empty one included |
| Handlers.HandleCategoryById | main.go:240-258 | the handler computes the same response as CategoryById |
| Handlers.EmptyIdAsymmetry | main.go:175-180 | an empty model id is 404, while an empty manufacturer or category id is 400 |
| Handlers.NonNumericIdIsBadRequest | main.go:180-184 | a non-empty id that does not parse is 400 on all three lookups, never 404 |
| Handlers.ModelByFormattedId | main.go:180-191 | with unique ids, the path of a present id returns exactly that model, and an absent id gives 404 |
| CompareEndpoint.TokenId | main.go:270 | a token yields an id exactly when its trimmed text is an optional sign followed by digits |
| CompareEndpoint.TokenIdIgnoresSpace | main.go:270 | white space before and after a decimal token does not change the id it yields |
| CompareEndpoint.ParseIds | main.go:269-273 | parsing a token list yields at most one id per token |
| CompareEndpoint.ResolveIds | main.go:274-279 | resolving yields at most one model per id |
| CompareEndpoint.ResolveFollowsRequest | main.go:267-280 | entry k of the result is the first dataset model whose id is the k-th id that names a model, so the order is request order |
| CompareEndpoint.ResolveKnownIds | main.go:269-279 | when every id names a model, one model per id, each with that id, and equal ids give equal models |
| CompareEndpoint.ResolveIdsInDataset | main.go:274-279 | every compared model comes from the dataset |
| CompareEndpoint.Compare | main.go:261-282 | 400 iff ids is empty; otherwise Ok with at most one model per comma-separated token, all from the dataset |
| CompareEndpoint.CompareFollowsRequest | main.go:261-282 | for any non-empty ids text, entry k of the answer is the first dataset model with the k-th id that both parses after trimming and names a model; the other tokens are skipped |
| CompareEndpoint.HandleCompare | main.go:261-282 | the token loop with skip-on-parse-error and inner scan computes the same response as Compare |
| CompareEndpoint.FormatIds | web/script.js:67-69 | the browser's id list has one decimal string per selected id, in selection order |
| CompareEndpoint.TokenIdOfItoa | main.go:270 | a formatted id reads back, after trimming, as that id |
| CompareEndpoint.ParseFormatted | main.go:267-273 | parsing the formatted ids returns the ids |
| CompareEndpoint.CompareOfFormatted | main.go:261-282 | comparing a joined, formatted id list resolves exactly those ids |
| CompareEndpoint.CompareFormattedIds | main.go:261-282 | when every id names a model, there is one result per id, in request order, with that id; a repeated id repeats its model |
| CompareEndpoint.CompareExample | main.go:261-282 | with models 1 and 2, "2,1,abc,99" returns model 2 then model 1 |
| RecommendationsEndpoint.Fallback | main.go:305-312 | the first three models in dataset order, or all of them when there are fewer |
| RecommendationsEndpoint.Recommendations | main.go:285-314 | never an error; always an order-preserving subsequence of the dataset, empty only when the dataset is |
| RecommendationsEndpoint.Matches | main.go:286-303 | the pre-fallback matches keep dataset order; with a non-empty manufacturerId they are exactly the models of that manufacturer if it parses and none otherwise; with an empty one, exactly the models of a parseable non-empty categoryId, else none |
| RecommendationsEndpoint.HandleRecommendations | main.go:285-314 | the handler's filter loop and prefix fallback compute the same response as Recommendations |
| RecommendationsEndpoint.ManufacturerTakesPrecedence | main.go:287-295 | with a non-empty manufacturerId, categoryId does not affect the answer |
| RecommendationsEndpoint.ByManufacturer | main.go:287-312 | a parsed manufacturerId with models gives exactly those models in dataset order; one without models gives the fallback |
| RecommendationsEndpoint.ByCategory | main.go:295-312 | without a manufacturerId, a parsed categoryId with models gives exactly those models in dataset order; one without models gives the fallback |
| RecommendationsEndpoint.FallsBackWithoutUsableFilter | main.go:287-312 | an unparseable manufacturerId, or no manufacturerId and no parseable categoryId, gives the fallback |

## Left out

- `loadData` and `main`: reading `api/data.json`, decoding it with `encoding/json`, and the `panic` on failure. The dataset is a parameter.
- `ServeMux` routing. The handler-to-path mapping of main.go:68-78 is taken as given, for example that `/api/models/compare` reaches `handleCompare` and not `handleModelByID`. The model does not decide which handler a path reaches.
- `writeJSON`: JSON serialisation, the Content-Type header and indentation. A body is the value that would be serialised. The plain-text error messages sent with 400, 404 and 405 are not modelled.
- `logRequest`: it only prints to stdout.
- `serveIndex` and the `/images/` file server: they serve files.
- web/script.js: the browser UI is not modelled, except the way it writes the compare endpoint's id list (web/script.js:31, 67-69): each selected id in decimal (`Itoa`), joined by ',' (`FormatIds`). The other requests it sends are plain query strings.
- Concurrency: the dataset is never written after loading, so concurrent requests need no model.
- Atoi: does not model the 64-bit range check. Go's `strconv.Atoi` fails on values outside the int64 range, while the model parses every digit string to an unbounded integer. Record fields are unbounded integers for the same reason.
- ToLower: models the ASCII case mapping only. Go's `strings.ToLower` also lower-cases non-ASCII letters.
- TrimSpace: trims ASCII white space only. Go's `strings.TrimSpace` also trims Unicode white space such as U+0085 and U+00A0.
