/** The route service of the client: snapping a point to the nearest road (`getNearestRoad`),
    asking for directions (`fetchRoute`) and the whole route request with its fallback from
    the wheelchair profile to the walking one (`getRoute`).

    Every answer of the routing service, after the request cache and the error interceptor of
    `RouteClient`, is an input: a `SnapOutcome` for each snap request and a
    `DirectionsOutcome` for each directions request. Numbers are JavaScript values read
    exactly (`Num` holds a real); `undefined` and `NaN` are kept apart because strict equality
    tells them apart. */
module RouteService {
  import opened Wrappers
  import opened Text

  /** A JavaScript number, or the `undefined` read from a missing array element. */
  datatype JsValue = Undefined | NaN | Num(v: real)

  /** `isNaN(x)`: true of NaN and of `undefined`, which converts to NaN. */
  predicate IsNaN(x: JsValue) {
    !x.Num?
  }

  /** `a === b`: NaN equals nothing, `undefined` equals only `undefined`. */
  predicate StrictEquals(a: JsValue, b: JsValue) {
    (a.Num? && b.Num? && a.v == b.v) || (a.Undefined? && b.Undefined?)
  }

  datatype RoutePoint = RoutePoint(lat: JsValue, lng: JsValue, name: Option<string>)

  /** An error as thrown: whether it is an `Error` instance, and its message. */
  datatype JsError = JsError(isError: bool, message: string)

  // Two of the messages are written as two literals joined: the same text, but proofs that
  // a character is absent from them stay cheap.
  const INVALID_COORDINATES: string := "Некоректні координати для побудови маршруту"
  const EMPTY_ROUTES: string := "Сервіс маршрутизації " + "повернув порожній результат"
  const NO_GEOMETRY: string := "Маршрут повернуто без геометрії"
  /** What `undefined.toFixed(6)` throws: a `TypeError`, with the message V8 gives it. */
  const TO_FIXED_ON_UNDEFINED: string := "Cannot read properties " + "of undefined (reading 'toFixed')"
  const SAME_POINTS: string := "Початкова і кінцева точки маршруту співпадають. Будь ласка, оберіть різні точки."
  /** The routing service's words for "no route between these points". */
  const NOT_FOUND: string := "could not be found"

  const WHEELCHAIR: string := "wheelchair"
  const WALKING: string := "walking"

  // ---------------------------------------------------------------------------------------
  // Snapping to the nearest road

  /** One entry of a snap answer; `location` is `[lng, lat]`, or absent. */
  datatype LocationData = LocationData(location: Option<seq<JsValue>>)

  /** The body of the snap answer; an absent array is the same as an empty one here. */
  datatype SnapReply = SnapReply(snappedLocations: seq<LocationData>, locations: seq<LocationData>)

  /** How the snap request ended: it threw (network, service or cache error), or it answered. */
  datatype SnapOutcome = SnapThrew | SnapAnswered(reply: SnapReply)

  /** The candidates the request function hands back: the service's `locations` when there
      are any, otherwise its `snapped_locations`. */
  function Candidates(reply: SnapReply): seq<LocationData> {
    if |reply.locations| > 0 then reply.locations else reply.snappedLocations
  }

  /** Element `i` of a JavaScript array, `undefined` past its end. */
  function Element(a: seq<JsValue>, i: nat): JsValue {
    if i < |a| then a[i] else Undefined
  }

  /** `Math.sqrt(dlat² + dlng²) * 111000 < 0.1`, compared squared: both sides are
      non-negative, so this is the same test without the square root. Anything NaN fails it. */
  predicate Negligible(point: RoutePoint, lat: JsValue, lng: JsValue) {
    && point.lat.Num? && point.lng.Num? && lat.Num? && lng.Num?
    && var dlat, dlng := lat.v - point.lat.v, lng.v - point.lng.v;
      (dlat * dlat + dlng * dlng) * 111000.0 * 111000.0 < 0.01
  }

  /** `getNearestRoad(point, profile)`: the first candidate as `{lat, lng, name: point.name}`,
      or the point itself when there is none, when the candidate is within 0.1 of it, or when
      anything threw: an `undefined` coordinate of the point throws at `toFixed` when the
      cache key is built, and a candidate without a location throws when it is destructured. */
  function NearestRoad(point: RoutePoint, outcome: SnapOutcome): (r: RoutePoint)
    ensures r.name == point.name
    ensures point.lat.Undefined? || point.lng.Undefined? ==> r == point
    ensures outcome.SnapThrew? ==> r == point
    ensures outcome.SnapAnswered? && |Candidates(outcome.reply)| == 0 ==> r == point
  {
    if point.lat.Undefined? || point.lng.Undefined? then point
    else
    match outcome
    case SnapThrew => point
    case SnapAnswered(reply) =>
      var candidates := Candidates(reply);
      if |candidates| == 0 then point
      else
        match candidates[0].location
        case None => point
        case Some(location) =>
          var lng, lat := Element(location, 0), Element(location, 1);
          if Negligible(point, lat, lng) then point else RoutePoint(lat, lng, point.name)
  }

  /** When a first candidate with a location is found, the snapped point is either the point
      itself or exactly that candidate read as `[lng, lat]`, under the point's name; it moves
      only to a candidate that is not negligibly close, and for a point with both coordinates
      defined it does move to every such candidate. */
  lemma {:induction false} SnapChoosesCandidate(point: RoutePoint, reply: SnapReply)
    requires |Candidates(reply)| > 0 && Candidates(reply)[0].location.Some?
    ensures var location := Candidates(reply)[0].location.value;
      var lat, lng := Element(location, 1), Element(location, 0);
      var r := NearestRoad(point, SnapAnswered(reply));
      && (r == point || (r.lat == lat && r.lng == lng && r.name == point.name))
      && (r != point ==> !Negligible(point, lat, lng))
      && (!point.lat.Undefined? && !point.lng.Undefined? && !Negligible(point, lat, lng) ==>
            r.lat == lat && r.lng == lng)
  {
  }

  /** A candidate at the very position of the point is always negligible, so snapping a point
      that already lies on a road keeps it as it is, name included. */
  lemma SnapToSelfKeepsPoint(point: RoutePoint, reply: SnapReply)
    requires point.lat.Num? && point.lng.Num?
    requires |Candidates(reply)| > 0 && Candidates(reply)[0].location == Some([point.lng, point.lat])
    ensures NearestRoad(point, SnapAnswered(reply)) == point
  {
    var location := [point.lng, point.lat];
    assert Element(location, 0) == point.lng && Element(location, 1) == point.lat;
  }

  // ---------------------------------------------------------------------------------------
  // Directions

  datatype RouteData = RouteData(geometry: Option<string>)
  datatype Query = Query(profile: Option<string>, others: map<string, string>)
  datatype Metadata = Metadata(query: Option<Query>, service: Option<string>)

  /** The body of a directions answer. The routes are read and never written; the metadata
      of the walking answer is written in place. */
  class RouteResponse {
    const routes: Option<seq<RouteData>>
    var metadata: Option<Metadata>

    constructor (routes: Option<seq<RouteData>>, metadata: Option<Metadata>)
      ensures this.routes == routes && this.metadata == metadata
    {
      this.routes := routes;
      this.metadata := metadata;
    }

    /** Lines 153-159 of the route service: set `metadata.query.profile` to "walking",
        creating the query or the whole metadata object when it is missing. */
    method TagWalking()
      modifies this
      ensures metadata == Some(TaggedWalking(old(metadata)))
    {
      match metadata {
        case Some(m) =>
          match m.query {
            case Some(q) => metadata := Some(m.(query := Some(q.(profile := Some(WALKING)))));
            case None => metadata := Some(m.(query := Some(Query(Some(WALKING), map[]))));
          }
        case None =>
          metadata := Some(Metadata(Some(Query(Some(WALKING), map[])), None));
      }
    }
  }

  /** The metadata after tagging: the profile says "walking", and everything else that was
      there is still there. */
  function TaggedWalking(m: Option<Metadata>): (r: Metadata)
    ensures r.query.Some? && r.query.value.profile == Some(WALKING)
    ensures m.Some? ==> r.service == m.value.service
    ensures m.Some? && m.value.query.Some? ==> r.query.value.others == m.value.query.value.others
    ensures m.None? || m.value.query.None? ==> r.query.value.others == map[]
  {
    match m
    case Some(meta) =>
      (match meta.query
       case Some(q) => meta.(query := Some(q.(profile := Some(WALKING))))
       case None => meta.(query := Some(Query(Some(WALKING), map[]))))
    case None => Metadata(Some(Query(Some(WALKING), map[])), None)
  }

  /** Tagging twice is tagging once. */
  lemma TaggingIsIdempotent(m: Option<Metadata>)
    ensures TaggedWalking(Some(TaggedWalking(m))) == TaggedWalking(m)
  {
  }

  /** How a directions request ended: it threw, or it answered with a body (`null` when the
      answer had none). */
  datatype DirectionsOutcome = DirectionsThrew(error: JsError) | DirectionsAnswered(response: RouteResponse?)

  /** What `fetchRoute` did: whether it sent the request at all, and what it returned or
      threw. */
  datatype Fetched = Fetched(asked: bool, result: Result<RouteResponse, JsError>)

  predicate HasNaN(start: RoutePoint, end: RoutePoint) {
    IsNaN(start.lat) || IsNaN(start.lng) || IsNaN(end.lat) || IsNaN(end.lng)
  }

  /** Some coordinate is `undefined`, so building the cache key throws. */
  predicate HasUndefined(start: RoutePoint, end: RoutePoint) {
    start.lat.Undefined? || start.lng.Undefined? || end.lat.Undefined? || end.lng.Undefined?
  }

  /** A route with a geometry that is present and not empty. */
  predicate UsableRoutes(routes: Option<seq<RouteData>>) {
    && routes.Some? && |routes.value| > 0
    && routes.value[0].geometry.Some? && routes.value[0].geometry.value != ""
  }

  /** `fetchRoute(start, end, profile)`: no request at all when a coordinate is `undefined`
      (the cache key's `toFixed` throws a `TypeError` first) or NaN (the invalid-coordinates
      error); otherwise the answer when it has a first route with a geometry, and an error in
      every other case. Errors of the request pass through unchanged. */
  function FetchRoute(start: RoutePoint, end: RoutePoint, outcome: DirectionsOutcome): (r: Fetched)
    ensures r.asked <==> !HasNaN(start, end)
    ensures HasUndefined(start, end) ==> r.result == Err(JsError(true, TO_FIXED_ON_UNDEFINED))
    ensures !HasUndefined(start, end) && HasNaN(start, end) ==> r.result == Err(JsError(true, INVALID_COORDINATES))
    ensures r.result.Ok? <==> r.asked && outcome.DirectionsAnswered? && outcome.response != null
                              && UsableRoutes(outcome.response.routes)
    ensures r.result.Ok? ==> r.result.value == outcome.response
    ensures r.asked && outcome.DirectionsThrew? ==> r.result == Err(outcome.error)
  {
    if HasUndefined(start, end) then Fetched(false, Err(JsError(true, TO_FIXED_ON_UNDEFINED)))
    else if HasNaN(start, end) then Fetched(false, Err(JsError(true, INVALID_COORDINATES)))
    else
      match outcome
      case DirectionsThrew(e) => Fetched(true, Err(e))
      case DirectionsAnswered(response) =>
        if response == null || response.routes.None? || |response.routes.value| == 0 then
          Fetched(true, Err(JsError(true, EMPTY_ROUTES)))
        else if response.routes.value[0].geometry.None? || response.routes.value[0].geometry.value == "" then
          Fetched(true, Err(JsError(true, NO_GEOMETRY)))
        else Fetched(true, Ok(response))
  }

  // ---------------------------------------------------------------------------------------
  // The whole route request

  /** `options.profile || "wheelchair"`. */
  function EffectiveProfile(profile: Option<string>): string {
    if profile.None? || profile.value == "" then WHEELCHAIR else profile.value
  }

  /** The condition of line 143-148: the wheelchair profile failed with an `Error` whose
      message says the route could not be found. */
  predicate FallsBack(profile: string, e: JsError) {
    profile == WHEELCHAIR && e.isError && e.message != "" && Includes(e.message, NOT_FOUND)
  }

  /** What `getRoute` does: the profiles it asked for directions, in order, what it returns
      or throws, and whether it tagged the walking answer. */
  datatype Plan = Plan(asked: seq<string>, result: Result<RouteResponse, JsError>, tagged: bool)

  function RoutePlan(start: RoutePoint, end: RoutePoint, profileOption: Option<string>,
                     snapStart: SnapOutcome, snapEnd: SnapOutcome,
                     first: DirectionsOutcome, walking: DirectionsOutcome): Plan
  {
    var profile := EffectiveProfile(profileOption);
    var from, to := NearestRoad(start, snapStart), NearestRoad(end, snapEnd);
    if StrictEquals(from.lat, to.lat) && StrictEquals(from.lng, to.lng) then
      Plan([], Err(JsError(true, SAME_POINTS)), false)
    else
      var f := FetchRoute(from, to, first);
      var asked := if f.asked then [profile] else [];
      match f.result
      case Ok(response) => Plan(asked, Ok(response), false)
      case Err(e) =>
        if !FallsBack(profile, e) then Plan(asked, Err(e), false)
        else
          var w := FetchRoute(from, to, walking);
          var asked' := asked + if w.asked then [WALKING] else [];
          match w.result
          case Ok(response) => Plan(asked', Ok(response), true)
          case Err(_) => Plan(asked', Err(e), false)
  }

  /** `getRoute(start, end, options)`, with the snap and directions answers as inputs. */
  method GetRoute(start: RoutePoint, end: RoutePoint, profileOption: Option<string>,
                  snapStart: SnapOutcome, snapEnd: SnapOutcome,
                  first: DirectionsOutcome, walking: DirectionsOutcome)
    returns (asked: seq<string>, result: Result<RouteResponse, JsError>)
    modifies if walking.DirectionsAnswered? && walking.response != null then {walking.response} else {}
    ensures var plan := RoutePlan(start, end, profileOption, snapStart, snapEnd, first, walking);
      asked == plan.asked && result == plan.result
      && (plan.tagged ==> result.value.metadata == Some(TaggedWalking(old(result.value.metadata))))
      && (!plan.tagged && walking.DirectionsAnswered? && walking.response != null ==>
            walking.response.metadata == old(walking.response.metadata))
  {
    var profile := EffectiveProfile(profileOption);
    var from := NearestRoad(start, snapStart);
    var to := NearestRoad(end, snapEnd);
    if StrictEquals(from.lat, to.lat) && StrictEquals(from.lng, to.lng) {
      return [], Err(JsError(true, SAME_POINTS));
    }
    var f := FetchRoute(from, to, first);
    asked := if f.asked then [profile] else [];
    if f.result.Ok? {
      return asked, f.result;
    }
    var e := f.result.error;
    if !FallsBack(profile, e) {
      return asked, Err(e);
    }
    var w := FetchRoute(from, to, walking);
    asked := asked + if w.asked then [WALKING] else [];
    if w.result.Err? {
      return asked, Err(e);
    }
    var response := w.result.value;
    response.TagWalking();
    result := Ok(response);
  }

  // ---------------------------------------------------------------------------------------
  // Properties of the route request

  /** At most two directions requests: one with the chosen profile, and a second one, with
      the walking profile, only after the wheelchair profile failed with "could not be
      found". */
  lemma {:induction false} AtMostOneFallback(start: RoutePoint, end: RoutePoint, profileOption: Option<string>,
                                             snapStart: SnapOutcome, snapEnd: SnapOutcome,
                                             first: DirectionsOutcome, walking: DirectionsOutcome)
    ensures var plan := RoutePlan(start, end, profileOption, snapStart, snapEnd, first, walking);
      var from, to := NearestRoad(start, snapStart), NearestRoad(end, snapEnd);
      && |plan.asked| <= 2
      && (|plan.asked| > 0 ==> plan.asked[0] == EffectiveProfile(profileOption))
      && (|plan.asked| == 2 ==>
            plan.asked == [WHEELCHAIR, WALKING]
            && FetchRoute(from, to, first).result.Err?
            && FallsBack(WHEELCHAIR, FetchRoute(from, to, first).result.error))
  {
    var profile := EffectiveProfile(profileOption);
    var from, to := NearestRoad(start, snapStart), NearestRoad(end, snapEnd);
    var plan := RoutePlan(start, end, profileOption, snapStart, snapEnd, first, walking);
    if |plan.asked| == 2 {
      var f := FetchRoute(from, to, first);
      assert f.asked && f.result.Err? && FallsBack(profile, f.result.error);
    }
  }

  /** Start and end that snap to the same place are refused before any directions
      request. */
  lemma CoincidentPointsRefused(start: RoutePoint, end: RoutePoint, profileOption: Option<string>,
                                snapStart: SnapOutcome, snapEnd: SnapOutcome,
                                first: DirectionsOutcome, walking: DirectionsOutcome)
    requires var from, to := NearestRoad(start, snapStart), NearestRoad(end, snapEnd);
      from.lat.Num? && from.lng.Num? && from.lat == to.lat && from.lng == to.lng
    ensures RoutePlan(start, end, profileOption, snapStart, snapEnd, first, walking)
      == Plan([], Err(JsError(true, SAME_POINTS)), false)
  {
  }

  /** A NaN or `undefined` coordinate is never sent: no directions request is made, whatever
      the service would have answered. The route fails as coincident when both snapped points
      agree, and otherwise with the `TypeError` of `toFixed` when a coordinate is `undefined`
      and with the invalid-coordinates error when one is NaN. */
  lemma NaNNeverRequested(start: RoutePoint, end: RoutePoint, profileOption: Option<string>,
                          snapStart: SnapOutcome, snapEnd: SnapOutcome,
                          first: DirectionsOutcome, walking: DirectionsOutcome)
    requires HasNaN(NearestRoad(start, snapStart), NearestRoad(end, snapEnd))
    ensures var plan := RoutePlan(start, end, profileOption, snapStart, snapEnd, first, walking);
      var from, to := NearestRoad(start, snapStart), NearestRoad(end, snapEnd);
      && plan.asked == [] && plan.result.Err?
      && (StrictEquals(from.lat, to.lat) && StrictEquals(from.lng, to.lng) ==>
            plan.result.error == JsError(true, SAME_POINTS))
      && (!(StrictEquals(from.lat, to.lat) && StrictEquals(from.lng, to.lng)) ==>
            plan.result.error
              == JsError(true, if HasUndefined(from, to) then TO_FIXED_ON_UNDEFINED else INVALID_COORDINATES))
  {
  }

  /** The errors `fetchRoute` raises itself never trigger the fallback: none of their
      messages contains "could not be found". */
  lemma NotFoundIsNotOwnError(profile: string, e: JsError)
    requires e.message == INVALID_COORDINATES || e.message == EMPTY_ROUTES || e.message == NO_GEOMETRY
             || e.message == TO_FIXED_ON_UNDEFINED
    ensures !FallsBack(profile, e)
  {
    if e.message == TO_FIXED_ON_UNDEFINED {
      TypeErrorLacksLowerC();
    } else if e.message == INVALID_COORDINATES {
      InvalidCoordinatesIsCyrillic();
    } else if e.message == EMPTY_ROUTES {
      EmptyRoutesIsCyrillic();
    } else {
      NoGeometryIsCyrillic();
    }
    LacksNotFound(e.message);
  }

  // The three messages of the service are written in Cyrillic, and the message of the
  // `TypeError` has only a capital C: none holds the Latin 'c' that starts "could not be found".

  lemma TypeErrorLacksLowerC()
    ensures 'c' !in TO_FIXED_ON_UNDEFINED
  {
    assert 'c' !in "Cannot read properties ";
    assert 'c' !in "of undefined (reading 'toFixed')";
  }

  lemma InvalidCoordinatesIsCyrillic()
    ensures 'c' !in INVALID_COORDINATES
  {
  }

  lemma EmptyRoutesIsCyrillic()
    ensures 'c' !in EMPTY_ROUTES
  {
    assert 'c' !in "Сервіс маршрутизації ";
    assert 'c' !in "повернув порожній результат";
  }

  lemma NoGeometryIsCyrillic()
    ensures 'c' !in NO_GEOMETRY
  {
  }

  /** A message without a Latin 'c' cannot contain "could not be found". */
  lemma LacksNotFound(m: string)
    requires 'c' !in m
    ensures !Includes(m, NOT_FOUND)
  {
    if Includes(m, NOT_FOUND) {
      IncludesHasFirstChar(m, NOT_FOUND);
    }
  }

  /** When the walking attempt fails too, the caller sees the wheelchair error, not the
      walking one. */
  lemma {:induction false} FallbackFailureRethrowsOriginal(start: RoutePoint, end: RoutePoint, profileOption: Option<string>,
                                                           snapStart: SnapOutcome, snapEnd: SnapOutcome,
                                                           first: DirectionsOutcome, walking: DirectionsOutcome)
    requires var from, to := NearestRoad(start, snapStart), NearestRoad(end, snapEnd);
      !(StrictEquals(from.lat, to.lat) && StrictEquals(from.lng, to.lng))
      && FetchRoute(from, to, first).result.Err?
    ensures var from, to := NearestRoad(start, snapStart), NearestRoad(end, snapEnd);
      var plan := RoutePlan(start, end, profileOption, snapStart, snapEnd, first, walking);
      var e := FetchRoute(from, to, first).result.error;
      (plan.result.Err? ==> plan.result.error == e)
      && (plan.result.Ok? <==> FallsBack(EffectiveProfile(profileOption), e) && FetchRoute(from, to, walking).result.Ok?)
      && (plan.result.Ok? ==> plan.tagged && plan.result.value == walking.response)
  {
  }

  /** Without the wheelchair profile no fallback ever happens: any failure is the caller's. */
  lemma {:induction false} OtherProfilesNeverFallBack(start: RoutePoint, end: RoutePoint, profile: string,
                                                      snapStart: SnapOutcome, snapEnd: SnapOutcome,
                                                      first: DirectionsOutcome, walking: DirectionsOutcome)
    requires profile != "" && profile != WHEELCHAIR
    ensures var plan := RoutePlan(start, end, Some(profile), snapStart, snapEnd, first, walking);
      |plan.asked| <= 1 && !plan.tagged && (plan.asked != [] ==> plan.asked == [profile])
  {
  }
}
