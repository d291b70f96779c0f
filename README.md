# Lead scrapper core, modelled in Dafny

`scrapper.ts` is a command-line script. It finds businesses near an address
with the Google Maps web services. It fetches the details of each business
and asks a generative model to assess the business's address and overall
listing. It ranks the businesses by the model's score and attaches to each
the services a consultancy could sell it. This project models the logic
inside that script and proves properties of it:

- **Service-suggestion rules** (module `ServiceRules`): the fixed, ordered
  list of named conditions and the filter that returns the names of those
  that hold. The conditions follow JavaScript truthiness and comparisons:
  `!x` holds of an absent or empty value, and `undefined < n` is false.
- **Model-output post-processing** (module `ModelOutput`):
  - the code-fence stripping: remove every "```json", then every "```",
    then `String.prototype.trim`;
  - the structural check of the overall analysis;
  - the two analyzers built on them. `JSON.parse` is a function parameter.
- **The Maps status gate, request parameters and geocoding** (module
  `MapsService`).
- **The page loop** (module `Pipeline`): a `do … while (nextPageToken)` loop
  over nearby-search pages. It fetches details for each result and appends
  them in order. It is modelled as two methods with loops, each proved
  equal to a recursive specification function.
- **Per-lead analysis, ranking and annotation**:
  - the analysis of every lead (`Pipeline`);
  - the stable ascending sort by score (`Ranking`);
  - attaching the suggested services (`Pipeline`).

The endpoints are parameters, as follows:

- The nearby-search endpoint is a finite script of pages: the n-th request
  is answered by the n-th page.
- The details endpoint is a function from place id to response.
- The two model endpoints are functions from their input to a
  `ModelReply`.
- `JSON.parse` is a function from text to an optional JSON value.

Shared datatypes are in `Js` (Option, Result, a JSON value type,
truthiness) and `Places` (the response and record types).

### Behaviour of the script worth knowing

- Every ranked place has a numeric `_SCORE`: the score has passed the check
  `typeof score === "number"`. `x || 0` differs from `x` only for NaN,
  which JSON text cannot denote, so the `|| 0` of the sort comparator never
  applies and the sort key is the score itself. A score of 0 sorts as 0,
  and a negative score sorts before it.
- `Promise.all` rejects as soon as any lead fails, and the run then ends.
  There is no per-lead error isolation. A single failure aborts the whole
  run, including an empty address or a details body without `result`. The
  model analyses the leads in order, and the first failing lead ends the run.
- An empty `status` string is falsy, so the status check lets it through
  (`MapsService.AcceptedStatuses`). A details body with status
  "ZERO_RESULTS", or with no status, passes the check even without a
  `result`.
- The post-processing does no repair beyond fence removal and trimming.

## Model

| member | source | states |
|---|---|---|
| ServiceRules.Suggest | scrapper.ts:950-954 | the rule list filtered by each rule's condition, then mapped to the rule names; its contract is `SuggestMembers`, `SuggestSubsequence` and `SuggestNoDuplicates` |
| ServiceRules.SuggestServices | scrapper.ts:950-954 | `Suggest` applied to the four rules in declaration order; its contract is `SuggestServicesExact` and `SuggestServicesShape` |
| ServiceRules.LacksWebsite | scrapper.ts:37 | the website is absent or empty; its contract is `WebsiteRule` |
| ServiceRules.ListingIncomplete | scrapper.ts:41-47 | the six disjuncts of the listing condition under JavaScript truthiness; its contract is `ListingRule` |
| ServiceRules.LowRating | scrapper.ts:51 | a rating is present and below 3.5; its contract is `RatingRule` |
| ServiceRules.FewReviews | scrapper.ts:55 | a review list is present with fewer than 5 entries; its contract is `ReviewsRule` |
| ServiceRules.SuggestMembers | scrapper.ts:950-954 | a name is suggested iff some rule with that name holds of the place |
| ServiceRules.SuggestSubsequence | scrapper.ts:950-954 | the suggestions are a subsequence of the rule names: the filter keeps the order of the rules |
| ServiceRules.SuggestNoDuplicates | scrapper.ts:950-954 | when the rule names are distinct, no name is suggested twice |
| ServiceRules.SuggestServicesExact | scrapper.ts:34-57 | the suggestions are exactly the names of the four rules whose condition holds, in declaration order |
| ServiceRules.SuggestServicesShape | scrapper.ts:34-57 | the suggestions have no duplicates and are a subsequence of the four rule names in declaration order |
| ServiceRules.WebsiteRule | scrapper.ts:36-37 | website creation is suggested iff the website is absent or empty |
| ServiceRules.ListingRule | scrapper.ts:40-47 | the listing update is suggested iff phone, opening hours or address is missing, photos are missing or empty, a types list with fewer than 3 entries is present, or the overall score is below 70 |
| ServiceRules.RatingRule | scrapper.ts:50-51 | satisfaction consulting is suggested iff a rating is present and below 3.5; an absent rating suggests nothing |
| ServiceRules.ReviewsRule | scrapper.ts:54-55 | digital marketing is suggested iff a review list is present with fewer than 5 entries; an absent list suggests nothing |
| ServiceRules.NoWebsiteNoPhone | scrapper.ts:36-47 | a lead with no website and no phone gets website creation first and the listing update second |
| ModelOutput.RemoveAll | scrapper.ts:249-250 | `replace` with a global literal pattern: occurrences found from left to right, without overlap, are deleted; its contract is `RemoveAllFences` and `RemoveAllSkipsPlainText` |
| ModelOutput.Trim | scrapper.ts:251 | `TrimStart` then `TrimEnd`; its contract is `TrimIsInfix` |
| ModelOutput.StripFences | scrapper.ts:248-251 | removes every "```json", then every "```", then trims; its contract is `StripFencesClean` and `StripFencedPayload` |
| ModelOutput.TrimStart | scrapper.ts:251 | the result is the suffix of the input after a prefix of JavaScript whitespace, and does not start with whitespace |
| ModelOutput.TrimEnd | scrapper.ts:251 | the result is the prefix of the input before a suffix of JavaScript whitespace, and does not end with whitespace |
| ModelOutput.TrimIsInfix | scrapper.ts:251 | trimming returns a slice of the input with only whitespace removed before and after it |
| ModelOutput.RemoveAllFences | scrapper.ts:250 | after every "```" has been removed, the text contains no "```" |
| ModelOutput.StripFencesClean | scrapper.ts:248-251 | the stripped text contains no "```" and has no leading or trailing whitespace |
| ModelOutput.RemoveAllSkipsPlainText | scrapper.ts:249-250 | removing a pattern that starts with a backtick leaves a backtick-free prefix untouched |
| ModelOutput.StripFencedPayload | scrapper.ts:656-659 | a backtick-free payload wrapped in a JSON code fence comes out as the trimmed payload |
| ModelOutput.ValidateOverall | scrapper.ts:663-675 | a value is accepted iff it is an object whose score is a number and whose feedback is an array or null; score and feedback are copied unchanged, and a falsy consulting message becomes null; there is no range check |
| ModelOutput.ValidateOverallRoundTrip | scrapper.ts:663-672 | the JSON form of every analysis the check can return is accepted and yields that analysis back |
| ModelOutput.ValidateOverallIdempotent | scrapper.ts:663-672 | checking the JSON form of an accepted analysis again gives the same analysis |
| ModelOutput.ExtractGeneratedContent | scrapper.ts:237-243 | content is found iff the reply has a candidate, and it is the candidate text trimmed |
| ModelOutput.ParseOverallResponse | scrapper.ts:653-681 | success iff the fence-stripped text parses and passes the structural check, and the value is the checked object; every failure is the one fixed parse error |
| ModelOutput.ParseAddressResponse | scrapper.ts:245-261 | success iff the fence-stripped text parses; the parsed value is returned unchecked; every failure is the one fixed parse error |
| ModelOutput.AnalyzeAddress | scrapper.ts:174-215 | a falsy address fails before any model call; a truthy address succeeds iff the model generates a reply whose trimmed, fence-stripped text parses, and the value is the parsed text |
| ModelOutput.CalculateScore | scrapper.ts:589-603 | success iff the model produced text that parses and passes the structural check; the value is the checked object, whose consulting message is null or truthy |
| MapsService.CheckStatus | scrapper.ts:339-344 | a response is rejected iff its status is present and is neither "OK", "ZERO_RESULTS" nor empty; the error message is `error_message` when truthy, otherwise "API Error: " and the status |
| MapsService.NearbySearchParams | scrapper.ts:359-372 | location, radius and keyword are passed through; `pagetoken` is present iff the token is present and non-empty, and then it is the token verbatim |
| MapsService.Geocode | scrapper.ts:349-357 | success iff the status is accepted and there is at least one result; the value is the first result's location; an accepted response with no results fails with no geocode results |
| Ranking.RankKey | scrapper.ts:941 | the comparator's key, `_SCORE` with 0 in place of a falsy value, which is the score itself because the score is always a JSON number; `SortByRank` and `StableSortUnique` state the order it induces |
| Ranking.InsertPermutes | scrapper.ts:941 | insertion adds exactly the element: the result is a permutation of the input plus it |
| Ranking.InsertSorted | scrapper.ts:941 | inserting into a sequence sorted by score keeps it sorted |
| Ranking.InsertStepSorted | scrapper.ts:941 | an element with a smaller score than the inserted one stays in front of the rest |
| Ranking.InsertWithKey | scrapper.ts:941 | among the elements of each score, the inserted one comes first, before those already there, which come later in the input |
| Ranking.SortByRank | scrapper.ts:941 | the result is sorted by ascending score, is a permutation of the input, and keeps the input order among equal scores |
| Ranking.SortByRankSpec | scrapper.ts:941 | the sorted sequence has the input's length and elements, and its scores are nondecreasing |
| Ranking.SortedStableUnique | scrapper.ts:941 | two sorted sequences with the same elements in the same order within each score are equal |
| Ranking.StableSortUnique | scrapper.ts:941 | every stable ascending sort of the input by score returns the same sequence as `SortByRank` |
| Pipeline.HasNextPage | scrapper.ts:920 | the loop condition: the page's token is present and non-empty; `LastPage` and `RequestsFollowTokensMeaning` state its effect on the loop |
| Pipeline.FetchDetails | scrapper.ts:912-917 | the details of each result, fetched in order, the first rejected response aborting; its contract is `FetchDetailsSpec`, and `FetchPageDetails` is the loop that computes it |
| Pipeline.Discover | scrapper.ts:884-920 | the do-while from a page on: status check, details of its results, repeat while the page has a token; its contract is `DiscoverFetchesEveryCandidate`, and `DiscoverPlaces` is the loop that computes it |
| Pipeline.LastPage | scrapper.ts:884-920 | the last page requested is the first page without a truthy token; every page before it has one |
| Pipeline.FetchDetailsSpec | scrapper.ts:912-917 | fetching succeeds iff every details response passes the status check; the result then holds one details response per result, in order |
| Pipeline.FetchPageDetails | scrapper.ts:912-917 | the inner loop that pushes details one by one computes `FetchDetails` |
| Pipeline.FetchedForConcat | scrapper.ts:916 | appending details fetched for two result lists gives the details fetched for their concatenation |
| Pipeline.DiscoverFetchesEveryCandidate | scrapper.ts:884-920 | discovery succeeds iff every requested page and details response is accepted; it then yields one details response per result of the requested pages, in page order and then result order |
| Pipeline.Requests | scrapper.ts:884-897 | the n-th request has the parameters built from the previous page's token, or no token for the first |
| Pipeline.RequestsFollowTokensMeaning | scrapper.ts:882-897 | the first nearby request carries no token; each later one follows a page with a token and carries it verbatim |
| Pipeline.RequestsUpToLastPage | scrapper.ts:884-920 | every request up to the last page requested follows a page with a token and carries it |
| Pipeline.DiscoverPlaces | scrapper.ts:882-920 | the do-while loop computes `Discover`; its requests obey `RequestsFollowTokens`; it issues at most one request per requested page, and exactly that many on success |
| Pipeline.AnalyzePlace | scrapper.ts:926-937 | a body without `result` fails first; otherwise success iff both the address analysis and the score calculation succeed; the result keeps the body's status, error message and record, and its score is the overall analysis's score; an empty address fails with `EmptyAddress` |
| Pipeline.MapAll | scrapper.ts:925-938 | success iff every element succeeds; then one result per element, in order |
| Pipeline.MapAllFailure | scrapper.ts:925-938 | a failure is the failure of an element such that every element before it succeeded |
| Pipeline.AnalyzeAll | scrapper.ts:925-938 | `MapAll` of `AnalyzePlace` over the fetched places; its contract is `MapAll`, `MapAllFailure` and `AnalyzeFetched` |
| Pipeline.SearchAndScore | scrapper.ts:876-942 | discovery, then the analysis of every place, then `SortByRank`; its contract is `SearchAndScoreResult`, and `SearchAndScorePlaces` is the method that computes it |
| Pipeline.AnalyzeFetched | scrapper.ts:925-938 | the analysis of fetched details succeeds iff every candidate's details can be analysed, with one result per candidate |
| Pipeline.SearchAndScoreResult | scrapper.ts:876-942 | a search succeeds iff every requested page and details response is accepted and every candidate can be analysed; it then yields one analysed place per candidate, sorted by ascending score, as a permutation of the analyses, with places of equal score in discovery order |
| Pipeline.SearchAndScorePlaces | scrapper.ts:876-942 | the method computes `SearchAndScore`, and its nearby requests follow the tokens, at most one per requested page |
| Pipeline.Annotate | scrapper.ts:848-851 | each place, in order, paired with the services suggested for it |
| Pipeline.LeadsRanked | scrapper.ts:848-851 | the leads of a ranking have nondecreasing scores and come from the analysed places |
| Pipeline.TwoPageScenario | scrapper.ts:884-920 | with pages of 3 and 2 results, the first having a token, there are two requests, the second carries the token, and the five details come first page first |
| Pipeline.Run | scrapper.ts:832-857 | a geocoding failure, or a search failure, ends the run with that failure; otherwise the result is the ranked places annotated with their suggestions |

## Left out

- HTTP: `handleRequest`'s URL building and its failure on a non-OK HTTP response are not modelled. The response bodies are the inputs. `GoogleMapsError`'s message prefix and HTTP status code are also not modelled.
- `JSON.parse` and `JSON.stringify` are foreign calls. Parsing is the function parameter `parse`. `ModelOutput.OverallToJson` stands for the JSON form of an analysis.
- Concurrency: `Promise.all` runs the lead analyses concurrently, and which failure it reports depends on timing. The model reports the first failing lead in order (`Pipeline.MapAllFailure`). A run that succeeds is the same either way.
- `ModelOutput.ExtractGeneratedContent` covers only a reply that has a candidate text, has none, or failed over HTTP. A reply that has a candidate but is missing deeper fields is not captured: that case throws a TypeError, which the analyzer catches and wraps like its other failures.
- Prompt templates (`buildPrompt`) and request bodies (`createRequestBody`) are plain string interpolation.
- Self-update (`FileUtils.checkForUpdates`) is not modelled: it needs SHA-256, file access to its own source and process spawning.
- Output files, the Markdown report, the per-page debug dump and all console output are not modelled.
- Command-line and environment handling is not modelled: `getSearchQuery`, `getRadius`, `getCenterAddress` and `config`. The query, radius and geocode response are inputs of `Pipeline.Run`.
- Floating point: scores, ratings and coordinates are `real`. The `lat,lng` string formatting of the location parameter is not modelled, and neither are NaN or Infinity.
- The search endpoint is assumed to end: the page script must finish with a page that has no token (`Pipeline.EndsWithLastPage`). A service that returns tokens forever makes the loop run forever.
- Place records carry only the fields the rules read, with the types the Places API gives them. Any other field is not modelled.
