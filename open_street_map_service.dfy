/** `OpenStreetMapServiceImpl.searchPlaces`: the place search that merges stored places whose
    name contains the query with answers of the OpenStreetMap search service, at most five
    results in all. The place table is given in the order the repository returns it, and the
    search service is an input function from the query string it is sent to its answer: a
    body (`None` for a `null` one) or the exception `getForObject` throws. */
module OpenStreetMapService {
  import opened Wrappers
  import opened Text
  import opened PlaceEntity

  const MAX_RESULTS: nat := 5
  const CITY_NAME: string := "Львів"
  const COUNTRY_NAME: string := "Україна"

  /** One answer of the search service. */
  datatype OsmResponse = OsmResponse(displayName: Option<string>, lat: Option<real>, lon: Option<real>)

  /** What a request to the search service gives: a body, `None` when it is `null`, or the
      exception the request threw, which `searchPlaces` does not catch. */
  datatype OsmAnswer = OsmAnswered(body: Option<seq<OsmResponse>>) | OsmThrew(exception: string)

  /** One search result; nothing ever fills in `placeId`. */
  datatype SearchResponse = SearchResponse(name: Option<string>, lat: Option<real>, lon: Option<real>, placeId: Option<int>)

  /** The query sent to the search service: the user's query narrowed to the city. */
  function CityQuery(query: string): (q: string)
    ensures StartsWith(q, query)
  {
    query + ", " + CITY_NAME + ", " + COUNTRY_NAME
  }

  /** `findByNameContainingIgnoreCase`: a stored name that contains the query, letter case
      ignored (a place without a name never matches). */
  predicate NameContains(name: Option<string>, query: string) {
    name.Some? && Includes(Lower(name.value), Lower(query))
  }

  /** The matching stored places, in table order. */
  function LocalMatches(table: seq<PlaceRecord>, query: string): (found: seq<PlaceRecord>)
    ensures |found| <= |table|
    ensures forall p :: p in found ==> p in table && NameContains(p.name, query)
  {
    if table == [] then []
    else (if NameContains(table[0].name, query) then [table[0]] else []) + LocalMatches(table[1..], query)
  }

  function FromPlace(p: PlaceRecord): SearchResponse {
    SearchResponse(p.name, p.lat, p.lon, None)
  }

  function FromOsm(r: OsmResponse): SearchResponse {
    SearchResponse(r.displayName, r.lat, r.lon, None)
  }

  /** The first `n` elements (all of them when there are fewer). */
  function Take<T>(s: seq<T>, n: nat): (t: seq<T>)
    ensures |t| == if |s| < n then |s| else n
    ensures t == s[..|t|]
  {
    if |s| <= n then s else s[..n]
  }

  function MapPlaces(ps: seq<PlaceRecord>): (rs: seq<SearchResponse>)
    ensures |rs| == |ps| && forall i :: 0 <= i < |ps| ==> rs[i] == FromPlace(ps[i])
  {
    if ps == [] then [] else [FromPlace(ps[0])] + MapPlaces(ps[1..])
  }

  function MapOsm(os: seq<OsmResponse>): (rs: seq<SearchResponse>)
    ensures |rs| == |os| && forall i :: 0 <= i < |os| ==> rs[i] == FromOsm(os[i])
  {
    if os == [] then [] else [FromOsm(os[0])] + MapOsm(os[1..])
  }

  /** The stored places a search shows: at most five, in table order. */
  function LocalResults(query: string, table: seq<PlaceRecord>): (local: seq<SearchResponse>)
    ensures |local| <= MAX_RESULTS
    ensures forall r :: r in local ==> r.placeId.None?
  {
    Take(MapPlaces(LocalMatches(table, query)), MAX_RESULTS)
  }

  /** The answers of the search service a search shows, when it asked the service, the
      service answered, and there is room for `room` more results. */
  function RemoteResults(asked: Option<string>, search: string -> OsmAnswer, room: nat)
    : (remote: seq<SearchResponse>)
    ensures |remote| <= room
    ensures forall r :: r in remote ==> r.placeId.None?
  {
    if asked.None? || !search(asked.value).OsmAnswered? || search(asked.value).body.None? then []
    else Take(MapOsm(search(asked.value).body.value), room)
  }

  /** The search fails exactly when it asked the search service and that request threw. */
  predicate SearchThrew(asked: Option<string>, search: string -> OsmAnswer) {
    asked.Some? && search(asked.value).OsmThrew?
  }

  /** The search, adding to `results` as the service does (each `addAll` of a mapped and
      limited stream is one concatenation); `asked` is the query sent to the search service,
      if one was sent. */
  method SearchPlaces(query: string, table: seq<PlaceRecord>, search: string -> OsmAnswer)
    returns (outcome: Result<seq<SearchResponse>, string>, asked: Option<string>)
    ensures asked == if |LocalResults(query, table)| < MAX_RESULTS then Some(CityQuery(query)) else None
    ensures outcome.Err? <==> SearchThrew(asked, search)
    ensures outcome.Err? ==> outcome.error == search(asked.value).exception
    ensures outcome.Ok? ==>
      outcome.value == LocalResults(query, table)
                       + RemoteResults(asked, search, MAX_RESULTS - |LocalResults(query, table)|)
    ensures outcome.Ok? ==> forall r :: r in outcome.value ==> r.placeId.None?
  {
    var results := [];
    var localPlaces := LocalMatches(table, query);
    if |localPlaces| > 0 {
      results := results + Take(MapPlaces(localPlaces), MAX_RESULTS);
    }
    assert results == LocalResults(query, table);
    if |results| >= MAX_RESULTS {
      return Ok(results), None;
    }
    var citySearchQuery := CityQuery(query);
    asked := Some(citySearchQuery);
    var answer := search(citySearchQuery);
    if answer.OsmThrew? {
      return Err(answer.exception), asked;
    }
    var cityResponse := answer.body;
    if cityResponse.Some? && |cityResponse.value| > 0 {
      results := results + Take(MapOsm(cityResponse.value), MAX_RESULTS - |results|);
    }
    assert cityResponse.Some? && |cityResponse.value| == 0 ==> Take(MapOsm(cityResponse.value), MAX_RESULTS - |results|) == [];
    outcome := Ok(results);
  }

  /** A search never shows more than five results, and shows the stored matches first. */
  lemma SearchShape(query: string, table: seq<PlaceRecord>, asked: Option<string>,
                    search: string -> OsmAnswer)
    ensures var local := LocalResults(query, table);
      var results := local + RemoteResults(asked, search, MAX_RESULTS - |local|);
      |results| <= MAX_RESULTS && results[..|local|] == local
  {
    var local := LocalResults(query, table);
    var results := local + RemoteResults(asked, search, MAX_RESULTS - |local|);
    assert results[..|local|] == local;
  }

  /** Stored places come first: when five of them match, the search service is not asked and
      the results are the first five of them. */
  lemma FiveLocalMatchesSuffice(query: string, table: seq<PlaceRecord>)
    requires |LocalMatches(table, query)| >= MAX_RESULTS
    ensures |LocalResults(query, table)| == MAX_RESULTS
  {
  }

  /** Matching ignores the letter case of both the stored name and the query. */
  lemma {:induction false} MatchIgnoresCase(table: seq<PlaceRecord>, query: string, other: string)
    requires Lower(query) == Lower(other)
    ensures LocalMatches(table, query) == LocalMatches(table, other)
  {
    if table != [] {
      MatchIgnoresCase(table[1..], query, other);
    }
  }

  /** A stored place whose name contains the query is found, in its table position relative
      to the other matches. */
  lemma {:induction false} MatchingPlaceFound(table: seq<PlaceRecord>, query: string, k: nat)
    requires k < |table| && NameContains(table[k].name, query)
    ensures table[k] in LocalMatches(table, query)
  {
    if k > 0 {
      MatchingPlaceFound(table[1..], query, k - 1);
    }
  }
}
