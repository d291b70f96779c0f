/**
 * The enrichment and ranking pipeline of `PlacesSearchApp`: the paginated
 * nearby search with one details fetch per result, the per-lead analysis,
 * the ranking by score, and the service suggestions.
 *
 * The search endpoint is a finite script: the n-th nearby request is answered
 * by `pages[n]`, whatever its parameters. The details endpoint and the two
 * model endpoints are functions of their inputs.
 */
module Pipeline {
  import opened Js
  import opened Places
  import opened MapsService
  import opened ModelOutput
  import opened Ranking
  import opened ServiceRules

  /** Why a run stopped. */
  datatype RunError =
    | MapsFailure(maps: MapsError)
    | AnalysisFailure(analysis: AnalysisError)

  /** The loop condition `while (nextPageToken)`. */
  predicate HasNextPage(page: NearbyResponse)
  {
    StringTruthy(page.nextPageToken)
  }

  /** The search endpoint eventually answers with a page that carries no token. */
  predicate EndsWithLastPage(pages: seq<NearbyResponse>)
  {
    |pages| > 0 && !HasNextPage(pages[|pages| - 1])
  }

  /** The index of the first page, from `from` on, that has no token: the last page requested. */
  function LastPage(pages: seq<NearbyResponse>, from: nat): (n: nat)
    requires EndsWithLastPage(pages) && from < |pages|
    ensures from <= n < |pages| && !HasNextPage(pages[n])
    ensures forall i :: from <= i < n ==> HasNextPage(pages[i])
    decreases |pages| - from
  {
    if !HasNextPage(pages[from]) then from else LastPage(pages, from + 1)
  }

  /** `ds` holds, position by position, the details response of each place in `results`. */
  predicate FetchedFor(ds: seq<DetailsResponse>, results: seq<PlaceSummary>, details: string -> DetailsResponse)
  {
    |ds| == |results| && forall j :: 0 <= j < |results| ==> ds[j] == details(results[j].placeId)
  }

  predicate DetailsAccepted(d: DetailsResponse)
  {
    CheckStatus(d.status, d.errorMessage).None?
  }

  /** The details response of every place in `results` passes the status check. */
  predicate DetailsAllAccepted(results: seq<PlaceSummary>, details: string -> DetailsResponse)
  {
    forall j :: 0 <= j < |results| ==> DetailsAccepted(details(results[j].placeId))
  }

  predicate PageAccepted(page: NearbyResponse)
  {
    CheckStatus(page.status, page.errorMessage).None?
  }

  /** `xs` in front of a successful result; a failure is kept as it is. */
  function Prepend<T, E>(xs: seq<T>, r: Result<seq<T>, E>): Result<seq<T>, E>
  {
    match r
    case Ok(v) => Ok(xs + v)
    case Err(e) => Err(e)
  }

  lemma PrependPrepend<T, E>(xs: seq<T>, ys: seq<T>, r: Result<seq<T>, E>)
    ensures Prepend(xs, Prepend(ys, r)) == Prepend(xs + ys, r)
  {
    if r.Ok? {
      assert xs + (ys + r.value) == (xs + ys) + r.value;
    }
  }

  lemma PrependNothing<T, E>(r: Result<seq<T>, E>)
    ensures Prepend([], r) == r
  {
    if r.Ok? {
      assert [] + r.value == r.value;
    }
  }

  /** The details of each result, fetched one by one; the first rejected response aborts. */
  function FetchDetails(results: seq<PlaceSummary>, details: string -> DetailsResponse): Result<seq<DetailsResponse>, MapsError>
  {
    if results == [] then Ok([])
    else
      var d := details(results[0].placeId);
      match CheckStatus(d.status, d.errorMessage)
      case Some(e) => Err(e)
      case None => Prepend([d], FetchDetails(results[1..], details))
  }

  /** Fetching succeeds exactly when every details response is accepted, and then holds the response of each result, in order. */
  lemma {:induction false} FetchDetailsSpec(results: seq<PlaceSummary>, details: string -> DetailsResponse)
    ensures FetchDetails(results, details).Ok? <==> DetailsAllAccepted(results, details)
    ensures FetchDetails(results, details).Ok? ==> FetchedFor(FetchDetails(results, details).value, results, details)
  {
    if results != [] {
      FetchDetailsSpec(results[1..], details);
      assert forall j :: 1 <= j < |results| ==> results[j] == results[1..][j - 1];
    }
  }

  /**
   * The discovery loop from page `i` on: each page passes the status check,
   * then the details of its results are fetched in order; the loop goes on
   * while the page carries a token.
   */
  function Discover(pages: seq<NearbyResponse>, details: string -> DetailsResponse, i: nat): Result<seq<DetailsResponse>, MapsError>
    requires EndsWithLastPage(pages) && i < |pages|
    decreases |pages| - i
  {
    var page := pages[i];
    match CheckStatus(page.status, page.errorMessage)
    case Some(e) => Err(e)
    case None =>
      match FetchDetails(page.results, details)
      case Err(e) => Err(e)
      case Ok(ds) =>
        if !HasNextPage(page) then Ok(ds)
        else Prepend(ds, Discover(pages, details, i + 1))
  }

  /** One turn of the discovery loop, as `Discover` unfolds it. */
  lemma DiscoverStep(pages: seq<NearbyResponse>, details: string -> DetailsResponse, i: nat)
    requires EndsWithLastPage(pages) && i < |pages|
    ensures !PageAccepted(pages[i]) ==> Discover(pages, details, i) == Err(CheckStatus(pages[i].status, pages[i].errorMessage).value)
    ensures PageAccepted(pages[i]) && FetchDetails(pages[i].results, details).Err? ==>
      Discover(pages, details, i) == Err(FetchDetails(pages[i].results, details).error)
    ensures PageAccepted(pages[i]) && FetchDetails(pages[i].results, details).Ok? && !HasNextPage(pages[i]) ==>
      Discover(pages, details, i) == FetchDetails(pages[i].results, details)
    ensures PageAccepted(pages[i]) && FetchDetails(pages[i].results, details).Ok? && HasNextPage(pages[i]) ==>
      i + 1 < |pages| && Discover(pages, details, i) == Prepend(FetchDetails(pages[i].results, details).value, Discover(pages, details, i + 1))
  {
  }

  /** A page with a token is not the last page requested. */
  lemma LastPageStep(pages: seq<NearbyResponse>, i: nat)
    requires EndsWithLastPage(pages) && i < |pages|
    ensures !HasNextPage(pages[i]) ==> LastPage(pages, i) == i
    ensures HasNextPage(pages[i]) ==> i + 1 < |pages| && LastPage(pages, i) == LastPage(pages, i + 1)
  {
  }

  /** The results of the pages, concatenated in page order. */
  function Candidates(pages: seq<NearbyResponse>): seq<PlaceSummary>
  {
    if pages == [] then [] else pages[0].results + Candidates(pages[1..])
  }

  /** Every page, and the details response of every result on it, passes the status check. */
  predicate AllAccepted(pages: seq<NearbyResponse>, details: string -> DetailsResponse)
  {
    forall q :: 0 <= q < |pages| ==> PageAccepted(pages[q]) && DetailsAllAccepted(pages[q].results, details)
  }

  lemma AllAcceptedCons(page: NearbyResponse, later: seq<NearbyResponse>, details: string -> DetailsResponse)
    ensures AllAccepted([page] + later, details) <==>
      PageAccepted(page) && DetailsAllAccepted(page.results, details) && AllAccepted(later, details)
  {
    var s := [page] + later;
    assert s[0] == page;
    assert forall q :: 1 <= q < |s| ==> s[q] == later[q - 1];
    if AllAccepted(s, details) {
      forall q | 0 <= q < |later| ensures PageAccepted(later[q]) && DetailsAllAccepted(later[q].results, details) {
        assert later[q] == s[q + 1];
      }
    }
  }

  lemma FetchedForConcat(ds: seq<DetailsResponse>, xs: seq<PlaceSummary>, es: seq<DetailsResponse>, ys: seq<PlaceSummary>, details: string -> DetailsResponse)
    requires FetchedFor(ds, xs, details) && FetchedFor(es, ys, details)
    ensures FetchedFor(ds + es, xs + ys, details)
  {
    forall j | 0 <= j < |xs + ys| ensures (ds + es)[j] == details((xs + ys)[j].placeId) {
      if j >= |xs| {
        assert (ds + es)[j] == es[j - |xs|] && (xs + ys)[j] == ys[j - |xs|];
      }
    }
  }

  /** The pages requested from page `i` on: up to and including the first without a token. */
  function Served(pages: seq<NearbyResponse>, i: nat): seq<NearbyResponse>
    requires EndsWithLastPage(pages) && i < |pages|
  {
    pages[i..LastPage(pages, i) + 1]
  }

  lemma ServedStep(pages: seq<NearbyResponse>, i: nat)
    requires EndsWithLastPage(pages) && i < |pages|
    ensures !HasNextPage(pages[i]) ==> Served(pages, i) == [pages[i]]
    ensures HasNextPage(pages[i]) ==> i + 1 < |pages| && Served(pages, i) == [pages[i]] + Served(pages, i + 1)
  {
    if HasNextPage(pages[i]) {
      assert LastPage(pages, i) == LastPage(pages, i + 1);
      assert pages[i..LastPage(pages, i) + 1] == [pages[i]] + pages[i + 1..LastPage(pages, i) + 1];
    }
  }

  /**
   * Discovery succeeds exactly when every requested page and every details
   * response is accepted, and then yields one details response per result of
   * the requested pages, in page order and then result order.
   */
  lemma {:induction false} DiscoverFetchesEveryCandidate(pages: seq<NearbyResponse>, details: string -> DetailsResponse, i: nat)
    requires EndsWithLastPage(pages) && i < |pages|
    ensures Discover(pages, details, i).Ok? <==> AllAccepted(Served(pages, i), details)
    ensures Discover(pages, details, i).Ok? ==> FetchedFor(Discover(pages, details, i).value, Candidates(Served(pages, i)), details)
    decreases |pages| - i
  {
    var page := pages[i];
    ServedStep(pages, i);
    FetchDetailsSpec(page.results, details);
    if !HasNextPage(page) {
      AllAcceptedCons(page, [], details);
      assert [page] + [] == [page];
      assert Candidates([page]) == page.results + Candidates([]);
      assert page.results + [] == page.results;
    } else {
      DiscoverFetchesEveryCandidate(pages, details, i + 1);
      var later := Served(pages, i + 1);
      AllAcceptedCons(page, later, details);
      assert ([page] + later)[1..] == later;
      assert Candidates([page] + later) == page.results + Candidates(later);
      if Discover(pages, details, i).Ok? {
        FetchedForConcat(FetchDetails(page.results, details).value, page.results,
          Discover(pages, details, i + 1).value, Candidates(later), details);
      }
    }
  }

  /**
   * `analyzeAddress`, then `calculate`, for one place; the result spreads the
   * place with both analyses. A body without `result` fails when its address
   * is read, before either analysis.
   */
  function AnalyzePlace(place: DetailsResponse, a: Analyzers): (r: Result<AnalyzedPlace, AnalysisError>)
    ensures place.result.None? ==> r == Err(MissingResult)
    ensures r.Ok? <==>
      place.result.Some? && AnalyzeAddress(place.result.value.formattedAddress, a).Ok? && CalculateScore(place, a).Ok?
    ensures r.Ok? ==>
      && r.value.status == place.status && r.value.errorMessage == place.errorMessage
      && place.result == Some(r.value.result) && r.value.score == r.value.overall.score
    ensures r.Ok? ==> CalculateScore(place, a) == Ok(r.value.overall)
    ensures r.Ok? ==> AnalyzeAddress(r.value.result.formattedAddress, a) == Ok(r.value.addressAnalysis)
    ensures place.result.Some? && !StringTruthy(place.result.value.formattedAddress) ==> r == Err(EmptyAddress)
  {
    match place.result
    case None => Err(MissingResult)
    case Some(record) =>
      match AnalyzeAddress(record.formattedAddress, a)
      case Err(e) => Err(e)
      case Ok(address) =>
        match CalculateScore(place, a)
        case Err(e) => Err(e)
        case Ok(overall) => Ok(AnalyzedPlace(place.status, place.errorMessage, record, overall, overall.score, address))
  }

  /**
   * `f` applied to every element in order, stopping at the first failure: the
   * sequential reading of `Promise.all(xs.map(f))`.
   */
  function MapAll<A, B, E>(f: A -> Result<B, E>, xs: seq<A>): (r: Result<seq<B>, E>)
    ensures r.Ok? <==> forall j :: 0 <= j < |xs| ==> f(xs[j]).Ok?
    ensures r.Ok? ==> |r.value| == |xs| && forall j :: 0 <= j < |xs| ==> f(xs[j]) == Ok(r.value[j])
  {
    if xs == [] then Ok([])
    else
      var head := f(xs[0]);
      var tail := MapAll(f, xs[1..]);
      assert forall j :: 1 <= j < |xs| ==> xs[j] == xs[1..][j - 1];
      if head.Err? then Err(head.error)
      else Prepend([head.value], tail)
  }

  /** A failed `MapAll` reports the failure of the first element that fails. */
  lemma {:induction false} MapAllFailure<A, B, E>(f: A -> Result<B, E>, xs: seq<A>)
    requires MapAll(f, xs).Err?
    ensures exists j :: 0 <= j < |xs| && f(xs[j]) == Err(MapAll(f, xs).error) && AllOkBefore(f, xs, j)
  {
    if f(xs[0]).Err? {
      assert f(xs[0]) == Err(MapAll(f, xs).error) && AllOkBefore(f, xs, 0);
    } else {
      MapAllFailure(f, xs[1..]);
      var j :| 0 <= j < |xs[1..]| && f(xs[1..][j]) == Err(MapAll(f, xs[1..]).error) && AllOkBefore(f, xs[1..], j);
      assert xs[j + 1] == xs[1..][j];
      forall k | 0 <= k < j + 1 ensures f(xs[k]).Ok? {
        if k > 0 {
          assert xs[k] == xs[1..][k - 1];
        }
      }
      assert AllOkBefore(f, xs, j + 1);
    }
  }

  /** Every element before position `j` succeeds. */
  predicate AllOkBefore<A, B, E>(f: A -> Result<B, E>, xs: seq<A>, j: nat)
    requires j <= |xs|
  {
    forall k :: 0 <= k < j ==> f(xs[k]).Ok?
  }

  /** The analysis of every place, in order; the first lead that fails ends the run. */
  function AnalyzeAll(places: seq<DetailsResponse>, a: Analyzers): Result<seq<AnalyzedPlace>, AnalysisError>
  {
    MapAll(p => AnalyzePlace(p, a), places)
  }

  /** What `searchAndScorePlaces` returns: discovery, then analysis of every place, then the ranking. */
  function SearchAndScore(pages: seq<NearbyResponse>, details: string -> DetailsResponse, a: Analyzers): Result<seq<AnalyzedPlace>, RunError>
    requires EndsWithLastPage(pages)
  {
    match Discover(pages, details, 0)
    case Err(e) => Err(MapsFailure(e))
    case Ok(places) =>
      match AnalyzeAll(places, a)
      case Err(e) => Err(AnalysisFailure(e))
      case Ok(analyzed) => Ok(SortByRank(analyzed))
  }

  /** The parameters of the `n`-th nearby request: the first carries no token, each later one the token of the page before it. */
  function RequestFor(pages: seq<NearbyResponse>, n: nat, center: LatLng, query: string, radius: real): NearbyParams
    requires n < |pages| + 1
  {
    NearbySearchParams(center, query, radius, if n == 0 then None else pages[n - 1].nextPageToken)
  }

  /** The first `n` nearby requests of a run, in order. */
  function Requests(pages: seq<NearbyResponse>, n: nat, center: LatLng, query: string, radius: real): (r: seq<NearbyParams>)
    requires n <= |pages|
    ensures |r| == n && forall k :: 0 <= k < n ==> r[k] == RequestFor(pages, k, center, query, radius)
  {
    if n == 0 then [] else Requests(pages, n - 1, center, query, radius) + [RequestFor(pages, n - 1, center, query, radius)]
  }

  /**
   * The nearby requests of a run: at least one; the first carries no token,
   * and each later one is issued after a page that had a token and carries
   * that token.
   */
  predicate RequestsFollowTokens(requests: seq<NearbyParams>, pages: seq<NearbyResponse>, center: LatLng, query: string, radius: real)
  {
    && 1 <= |requests| <= |pages|
    && requests == Requests(pages, |requests|, center, query, radius)
    && forall n :: 0 <= n < |requests| - 1 ==> HasNextPage(pages[n])
  }

  /** What `RequestsFollowTokens` says of each request. */
  lemma RequestsFollowTokensMeaning(requests: seq<NearbyParams>, pages: seq<NearbyResponse>, center: LatLng, query: string, radius: real)
    requires RequestsFollowTokens(requests, pages, center, query, radius)
    ensures requests[0].pagetoken.None? && requests[0].location == center && requests[0].keyword == query
    ensures forall n :: 0 < n < |requests| ==>
      HasNextPage(pages[n - 1]) && requests[n].pagetoken == pages[n - 1].nextPageToken
      && requests[n].location == center && requests[n].keyword == query && requests[n].radius == radius
  {
  }

  /** One step of `FetchDetails`: the first response is checked, then the rest are fetched. */
  lemma FetchDetailsStep(results: seq<PlaceSummary>, details: string -> DetailsResponse)
    requires results != []
    ensures var d := details(results[0].placeId);
      FetchDetails(results, details) ==
        if DetailsAccepted(d) then Prepend([d], FetchDetails(results[1..], details))
        else Err(CheckStatus(d.status, d.errorMessage).value)
  {
  }

  /** The inner loop of `searchAndScorePlaces`: the details of each result of one page, pushed in order. */
  method FetchPageDetails(results: seq<PlaceSummary>, details: string -> DetailsResponse)
    returns (r: Result<seq<DetailsResponse>, MapsError>)
    ensures r == FetchDetails(results, details)
  {
    var pagePlaces: seq<DetailsResponse> := [];
    var j := 0;
    assert results[0..] == results;
    PrependNothing(FetchDetails(results, details));
    while j < |results|
      invariant 0 <= j <= |results|
      invariant FetchDetails(results, details) == Prepend(pagePlaces, FetchDetails(results[j..], details))
    {
      var placeDetails := details(results[j].placeId);
      var rejected := CheckStatus(placeDetails.status, placeDetails.errorMessage);
      FetchDetailsStep(results[j..], details);
      assert results[j..][0] == results[j] && results[j..][1..] == results[j + 1..];
      if rejected.Some? {
        return Err(rejected.value);
      }
      PrependPrepend(pagePlaces, [placeDetails], FetchDetails(results[j + 1..], details));
      pagePlaces := pagePlaces + [placeDetails];
      j := j + 1;
    }
    assert results[j..] == [] && pagePlaces + [] == pagePlaces;
    r := Ok(pagePlaces);
  }

  /** The requests issued up to the last page requested follow the tokens. */
  lemma RequestsUpToLastPage(pages: seq<NearbyResponse>, n: nat, center: LatLng, query: string, radius: real)
    requires EndsWithLastPage(pages) && 1 <= n <= LastPage(pages, 0) + 1
    ensures RequestsFollowTokens(Requests(pages, n, center, query, radius), pages, center, query, radius)
  {
  }

  /**
   * The `do … while (nextPageToken)` loop of `searchAndScorePlaces`: request a
   * page, check its status, fetch the details of its results, and go on while
   * the page carries a token. `requests` records the nearby requests issued.
   */
  method DiscoverPlaces(query: string, center: LatLng, radius: real,
    pages: seq<NearbyResponse>, details: string -> DetailsResponse)
    returns (r: Result<seq<DetailsResponse>, MapsError>, requests: seq<NearbyParams>)
    requires EndsWithLastPage(pages)
    ensures r == Discover(pages, details, 0)
    ensures RequestsFollowTokens(requests, pages, center, query, radius)
    ensures |requests| <= LastPage(pages, 0) + 1
    ensures r.Ok? ==> |requests| == LastPage(pages, 0) + 1
  {
    var places: seq<DetailsResponse> := [];
    var nextPageToken: Option<string> := None;
    var i := 0;
    requests := [];
    ghost var stop := LastPage(pages, 0);
    PrependNothing(Discover(pages, details, 0));
    while true
      invariant 0 <= i <= stop
      invariant LastPage(pages, i) == stop
      invariant nextPageToken == (if i == 0 then None else pages[i - 1].nextPageToken)
      invariant requests == Requests(pages, i, center, query, radius)
      invariant Discover(pages, details, 0) == Prepend(places, Discover(pages, details, i))
      decreases stop - i
    {
      requests := requests + [NearbySearchParams(center, query, radius, nextPageToken)];
      assert requests == Requests(pages, i + 1, center, query, radius);
      var page := pages[i];
      DiscoverStep(pages, details, i);
      LastPageStep(pages, i);
      var rejected := CheckStatus(page.status, page.errorMessage);
      if rejected.Some? {
        r := Err(rejected.value);
        break;
      }
      var pagePlaces := FetchPageDetails(page.results, details);
      if pagePlaces.Err? {
        r := Err(pagePlaces.error);
        break;
      }
      ghost var before := places;
      places := places + pagePlaces.value;
      nextPageToken := page.nextPageToken;
      if !StringTruthy(nextPageToken) {
        r := Ok(places);
        break;
      }
      PrependPrepend(before, pagePlaces.value, Discover(pages, details, i + 1));
      i := i + 1;
    }
    RequestsUpToLastPage(pages, |requests|, center, query, radius);
  }

  /**
   * `searchAndScorePlaces`: discover the places page by page, analyse every
   * place, then sort the analysed places by score.
   */
  method SearchAndScorePlaces(query: string, center: LatLng, radius: real,
    pages: seq<NearbyResponse>, details: string -> DetailsResponse, a: Analyzers)
    returns (r: Result<seq<AnalyzedPlace>, RunError>, requests: seq<NearbyParams>)
    requires EndsWithLastPage(pages)
    ensures r == SearchAndScore(pages, details, a)
    ensures RequestsFollowTokens(requests, pages, center, query, radius)
    ensures |requests| <= LastPage(pages, 0) + 1
  {
    var places;
    places, requests := DiscoverPlaces(query, center, radius, pages, details);
    if places.Err? {
      r := Err(MapsFailure(places.error));
      return;
    }
    var analyzed := AnalyzeAll(places.value, a);
    if analyzed.Err? {
      r := Err(AnalysisFailure(analyzed.error));
      return;
    }
    r := Ok(SortByRank(analyzed.value));
  }

  /** `places.map(place => ({ ...place, suggestedServices }))`: each place, in order, with the services suggested for it. */
  function Annotate(places: seq<AnalyzedPlace>): (r: seq<Lead>)
    ensures |r| == |places|
    ensures forall j :: 0 <= j < |places| ==> r[j].place == places[j] && r[j].suggestedServices == SuggestServices(places[j])
  {
    if places == [] then []
    else
      var rest := Annotate(places[1..]);
      assert forall j :: 1 <= j < |places| ==> places[j] == places[1..][j - 1];
      [Lead(places[0], SuggestServices(places[0]))] + rest
  }

  /** Every candidate's details response can be analysed. */
  predicate AllAnalyzable(cs: seq<PlaceSummary>, details: string -> DetailsResponse, a: Analyzers)
  {
    forall j :: 0 <= j < |cs| ==> AnalyzePlace(details(cs[j].placeId), a).Ok?
  }

  lemma AnalyzeFetched(ds: seq<DetailsResponse>, cs: seq<PlaceSummary>, details: string -> DetailsResponse, a: Analyzers)
    requires FetchedFor(ds, cs, details)
    ensures AnalyzeAll(ds, a).Ok? <==> AllAnalyzable(cs, details, a)
    ensures AnalyzeAll(ds, a).Ok? ==> |AnalyzeAll(ds, a).value| == |cs|
  {
    var f := p => AnalyzePlace(p, a);
    assert forall j :: 0 <= j < |ds| ==> f(ds[j]) == AnalyzePlace(details(cs[j].placeId), a);
  }

  /**
   * A search succeeds exactly when every requested page and details response
   * is accepted and every candidate can be analysed; it then yields one
   * analysed place per candidate, sorted by ascending score, with places of
   * equal score in discovery order.
   */
  lemma SearchAndScoreResult(pages: seq<NearbyResponse>, details: string -> DetailsResponse, a: Analyzers)
    requires EndsWithLastPage(pages)
    ensures SearchAndScore(pages, details, a).Ok? <==>
      AllAccepted(Served(pages, 0), details) && AllAnalyzable(Candidates(Served(pages, 0)), details, a)
    ensures SearchAndScore(pages, details, a).Ok? ==>
      && |SearchAndScore(pages, details, a).value| == |Candidates(Served(pages, 0))|
      && SortedByRank(SearchAndScore(pages, details, a).value)
      && multiset(SearchAndScore(pages, details, a).value) == multiset(AnalyzeAll(Discover(pages, details, 0).value, a).value)
      && forall k :: WithKey(SearchAndScore(pages, details, a).value, k) == WithKey(AnalyzeAll(Discover(pages, details, 0).value, a).value, k)
  {
    DiscoverFetchesEveryCandidate(pages, details, 0);
    var d := Discover(pages, details, 0);
    if d.Ok? {
      AnalyzeFetched(d.value, Candidates(Served(pages, 0)), details, a);
      var analyzed := AnalyzeAll(d.value, a);
      if analyzed.Ok? {
        assert |SortByRank(analyzed.value)| == |multiset(SortByRank(analyzed.value))|;
      }
    }
  }

  /** The leads of a run keep the ranking: ascending score, the suggestions of each lead computed from it. */
  lemma LeadsRanked(places: seq<AnalyzedPlace>)
    ensures var leads := Annotate(SortByRank(places));
      && |leads| == |places|
      && (forall i, j :: 0 <= i < j < |leads| ==> leads[i].place.score <= leads[j].place.score)
      && forall j :: 0 <= j < |leads| ==> leads[j].place in places
  {
    SortByRankSpec(places);
  }

  /**
   * Two pages of 3 and 2 results, the first with a token: two nearby requests,
   * the second carrying the token, and five places, first page first.
   */
  lemma TwoPageScenario(s1: PlaceSummary, s2: PlaceSummary, s3: PlaceSummary, s4: PlaceSummary, s5: PlaceSummary,
    details: string -> DetailsResponse, center: LatLng, query: string, radius: real)
    requires forall id :: details(id).status == Some("OK")
    ensures var pages := [NearbyResponse(Some("OK"), None, [s1, s2, s3], Some("tok")), NearbyResponse(Some("OK"), None, [s4, s5], None)];
      && EndsWithLastPage(pages)
      && LastPage(pages, 0) == 1
      && Requests(pages, 2, center, query, radius)[1].pagetoken == Some("tok")
      && Discover(pages, details, 0) == Ok([details(s1.placeId), details(s2.placeId), details(s3.placeId), details(s4.placeId), details(s5.placeId)])
  {
    var pages := [NearbyResponse(Some("OK"), None, [s1, s2, s3], Some("tok")), NearbyResponse(Some("OK"), None, [s4, s5], None)];
    assert LastPage(pages, 0) == 1;
    DiscoverFetchesEveryCandidate(pages, details, 0);
    assert Served(pages, 0) == pages;
    assert pages[1..] == [pages[1]] && pages[1..][1..] == [];
    assert Candidates(pages[1..]) == [s4, s5] + Candidates([]);
    assert Candidates(pages) == [s1, s2, s3] + Candidates(pages[1..]);
    assert Candidates(pages) == [s1, s2, s3, s4, s5];
    assert forall id :: DetailsAccepted(details(id));
    assert AllAccepted(pages, details);
    var d := Discover(pages, details, 0).value;
    assert d[0] == details(s1.placeId) && d[1] == details(s2.placeId) && d[2] == details(s3.placeId);
    assert d[3] == details(s4.placeId) && d[4] == details(s5.placeId);
    assert Discover(pages, details, 0).Ok? && |d| == 5;
    assert d == [details(s1.placeId), details(s2.placeId), details(s3.placeId), details(s4.placeId), details(s5.placeId)];
  }

  /**
   * `run`, after configuration: geocode the centre, search and score, then
   * attach the suggested services to each place. A failure anywhere ends the
   * run with that failure.
   */
  method Run(geocoded: GeocodeResponse, query: string, radius: real,
    pages: seq<NearbyResponse>, details: string -> DetailsResponse, a: Analyzers)
    returns (r: Result<seq<Lead>, RunError>)
    requires EndsWithLastPage(pages)
    ensures Geocode(geocoded).Err? ==> r == Err(MapsFailure(Geocode(geocoded).error))
    ensures Geocode(geocoded).Ok? && SearchAndScore(pages, details, a).Err? ==> r == Err(SearchAndScore(pages, details, a).error)
    ensures Geocode(geocoded).Ok? && SearchAndScore(pages, details, a).Ok? ==> r == Ok(Annotate(SearchAndScore(pages, details, a).value))
  {
    var center := Geocode(geocoded);
    if center.Err? {
      r := Err(MapsFailure(center.error));
      return;
    }
    var places, _ := SearchAndScorePlaces(query, center.value, radius, pages, details, a);
    if places.Err? {
      r := Err(places.error);
      return;
    }
    r := Ok(Annotate(places.value));
  }
}
