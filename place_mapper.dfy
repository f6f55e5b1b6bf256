/** `PlaceMapper`: the conversions between the `Place` entity and the place request and
    response bodies, and the two ways a request updates an existing place. The review
    statistics a response carries are looked up by place id; those lookups are input
    functions here. A place's creator is reported by id (`UserPlaceDto` is not part of this
    model). */
module PlaceMapper {
  import opened Wrappers
  import opened PlaceCategories
  import opened PlaceEntity
  import opened PlaceDtos

  // ---------------------------------------------------------------------------------------
  // toPlace and toPlaceRequest

  /** The new, not yet stored place a request describes: no id, no score, no timestamps, not
      approved. */
  function ToPlace(request: PlaceRequest, createdBy: Option<int>): (p: PlaceRecord)
    ensures p.id.None? && p.overallAccessibilityScore.None? && p.createdAt.None? && p.updatedAt.None?
    ensures !p.approved && p.createdBy == createdBy
  {
    PlaceRecord(None, request.name, request.address, request.lat, request.lon,
                request.wheelchairAccessible, request.tactileElements, request.brailleSignage,
                request.accessibleToilets, request.category, None, None, None, false, createdBy)
  }

  function ToPlaceRequest(p: PlaceRecord): PlaceRequest {
    PlaceRequest(p.name, p.address, p.lat, p.lon, p.wheelchairAccessible, p.tactileElements,
                 p.brailleSignage, p.accessibleToilets, p.category)
  }

  /** Turning a request into a place and back gives the request. */
  lemma RequestRoundTrip(request: PlaceRequest, createdBy: Option<int>)
    ensures ToPlaceRequest(ToPlace(request, createdBy)) == request
  {
  }

  /** Turning a place into a request and back loses exactly its id, score, timestamps and
      approval. */
  lemma PlaceRoundTrip(p: PlaceRecord)
    ensures ToPlace(ToPlaceRequest(p), p.createdBy)
         == p.(id := None, overallAccessibilityScore := None, createdAt := None, updatedAt := None, approved := false)
  {
  }

  // ---------------------------------------------------------------------------------------
  // updatePlaceFromRequest

  /** A place with every editable field replaced by the request's. */
  function Overwritten(p: PlaceRecord, request: PlaceRequest): (q: PlaceRecord)
    ensures ToPlaceRequest(q) == request
    ensures q.id == p.id && q.overallAccessibilityScore == p.overallAccessibilityScore
    ensures q.createdAt == p.createdAt && q.updatedAt == p.updatedAt
    ensures q.approved == p.approved && q.createdBy == p.createdBy
  {
    p.(name := request.name, address := request.address, lat := request.lat, lon := request.lon,
       wheelchairAccessible := request.wheelchairAccessible, tactileElements := request.tactileElements,
       brailleSignage := request.brailleSignage, accessibleToilets := request.accessibleToilets,
       category := request.category)
  }

  /** Overwriting a place with its own request changes nothing, and overwriting twice is
      overwriting with the second request. */
  lemma OverwriteLaws(p: PlaceRecord, first: PlaceRequest, second: PlaceRequest)
    ensures Overwritten(p, ToPlaceRequest(p)) == p
    ensures Overwritten(Overwritten(p, first), second) == Overwritten(p, second)
  {
  }

  method UpdatePlaceFromRequest(place: Place, request: PlaceRequest)
    modifies place
    ensures place.Record() == Overwritten(old(place.Record()), request)
  {
    place.SetName(request.name);
    place.SetAddress(request.address);
    place.SetLat(request.lat);
    place.SetLon(request.lon);
    place.SetWheelchairAccessible(request.wheelchairAccessible);
    place.SetTactileElements(request.tactileElements);
    place.SetBrailleSignage(request.brailleSignage);
    place.SetAccessibleToilets(request.accessibleToilets);
    place.SetCategory(request.category);
  }

  // ---------------------------------------------------------------------------------------
  // updatePlaceFromUpdateRequest and toPlaceUpdateResponse

  /** The request's value when it gives one, the old value otherwise. */
  function Given<T>(given: Option<T>, current: T): T {
    if given.Some? then given.value else current
  }

  /** The request's value when it gives one, the old value otherwise, for a field that may
      itself be empty. */
  function GivenOption<T>(given: Option<T>, current: Option<T>): Option<T> {
    if given.Some? then given else current
  }

  /** A place with the fields the partial update gives replaced. */
  function Patched(p: PlaceRecord, r: PlaceUpdateRequest): (q: PlaceRecord)
    ensures q.id == p.id && q.overallAccessibilityScore == p.overallAccessibilityScore
    ensures q.createdAt == p.createdAt && q.updatedAt == p.updatedAt
    ensures q.approved == p.approved && q.createdBy == p.createdBy
  {
    PlaceRecord(p.id, GivenOption(r.name, p.name), GivenOption(r.address, p.address),
                GivenOption(r.lat, p.lat), GivenOption(r.lon, p.lon),
                Given(r.wheelchairAccessible, p.wheelchairAccessible), Given(r.tactileElements, p.tactileElements),
                Given(r.brailleSignage, p.brailleSignage), Given(r.accessibleToilets, p.accessibleToilets),
                GivenOption(r.category, p.category), p.overallAccessibilityScore,
                p.createdAt, p.updatedAt, p.approved, p.createdBy)
  }

  const EMPTY_UPDATE: PlaceUpdateRequest := PlaceUpdateRequest(None, None, None, None, None, None, None, None, None)

  /** The empty update changes nothing, and applying an update twice is applying it once. */
  lemma PatchLaws(p: PlaceRecord, r: PlaceUpdateRequest)
    ensures Patched(p, EMPTY_UPDATE) == p
    ensures Patched(Patched(p, r), r) == Patched(p, r)
  {
  }

  /** A partial update that gives every field that a full request gives (a name, an address,
      both coordinates and a category) is the full update. */
  lemma CompletePatchIsOverwrite(p: PlaceRecord, request: PlaceRequest)
    requires request.name.Some? && request.address.Some? && request.lat.Some? && request.lon.Some?
    requires request.category.Some?
    ensures Patched(p, AsUpdate(request)) == Overwritten(p, request)
  {
  }

  /** A full request read as a partial update that gives every field. */
  function AsUpdate(request: PlaceRequest): (r: PlaceUpdateRequest)
    ensures r.wheelchairAccessible.Some? && r.tactileElements.Some? && r.brailleSignage.Some? && r.accessibleToilets.Some?
  {
    PlaceUpdateRequest(request.name, request.address, request.lat, request.lon,
                       Some(request.wheelchairAccessible), Some(request.tactileElements),
                       Some(request.brailleSignage), Some(request.accessibleToilets), request.category)
  }

  /** `updatePlaceFromUpdateRequest`: each field the request gives replaces the place's, and
      every other field stays as it was. Here every setter runs, and a field the request
      leaves out is set to the value it held before the update began. */
  method UpdatePlaceFromUpdateRequest(place: Place, request: PlaceUpdateRequest)
    modifies place
    ensures place.Record() == Patched(old(place.Record()), request)
  {
    var current := place.Record();
    place.SetName(GivenOption(request.name, current.name));
    place.SetAddress(GivenOption(request.address, current.address));
    place.SetLat(GivenOption(request.lat, current.lat));
    place.SetLon(GivenOption(request.lon, current.lon));
    place.SetWheelchairAccessible(Given(request.wheelchairAccessible, current.wheelchairAccessible));
    place.SetTactileElements(Given(request.tactileElements, current.tactileElements));
    place.SetBrailleSignage(Given(request.brailleSignage, current.brailleSignage));
    place.SetAccessibleToilets(Given(request.accessibleToilets, current.accessibleToilets));
    place.SetCategory(GivenOption(request.category, current.category));
  }

  /** The editable fields of a place, as a partial update. */
  function ToPlaceUpdateResponse(p: PlaceRecord): PlaceUpdateRequest {
    AsUpdate(ToPlaceRequest(p))
  }

  /** Applying a place's own update response to it changes nothing, and the update response
      of a patched place repeats every field the update gave. */
  lemma UpdateResponseLaws(p: PlaceRecord, r: PlaceUpdateRequest)
    ensures Patched(p, ToPlaceUpdateResponse(p)) == p
    ensures var back := ToPlaceUpdateResponse(Patched(p, r));
      && (r.name.Some? ==> back.name == r.name) && (r.address.Some? ==> back.address == r.address)
      && (r.lat.Some? ==> back.lat == r.lat) && (r.lon.Some? ==> back.lon == r.lon)
      && (r.wheelchairAccessible.Some? ==> back.wheelchairAccessible == r.wheelchairAccessible)
      && (r.tactileElements.Some? ==> back.tactileElements == r.tactileElements)
      && (r.brailleSignage.Some? ==> back.brailleSignage == r.brailleSignage)
      && (r.accessibleToilets.Some? ==> back.accessibleToilets == r.accessibleToilets)
      && (r.category.Some? ==> back.category == r.category)
  {
  }

  /** A place made from an accepted request answers with an accepted update. */
  lemma UpdateResponseOfValidPlaceAccepted(request: PlaceRequest, createdBy: Option<int>)
    requires PlaceRequestViolations(request) == {}
    ensures PlaceUpdateRequestViolations(ToPlaceUpdateResponse(ToPlace(request, createdBy))) == {}
  {
    PlaceRequestAccepted(request);
    PlaceUpdateRequestAccepted(ToPlaceUpdateResponse(ToPlace(request, createdBy)));
  }

  // ---------------------------------------------------------------------------------------
  // toPlaceResponse and toPlaceDto

  datatype PlaceResponse = PlaceResponse(
    id: Option<int>, name: Option<string>, address: Option<string>, lat: Option<real>, lon: Option<real>,
    wheelchairAccessible: bool, tactileElements: bool, brailleSignage: bool, accessibleToilets: bool,
    category: Option<Category>, overallAccessibilityScore: Option<real>,
    averageRating: Option<real>, countOfReviews: Option<int>,
    createdAt: Option<int>, updatedAt: Option<int>, createdBy: Option<int>)

  /** The response for a place (none for a missing place), with the average rating and the
      number of reviews the review table holds for its id. */
  function ToPlaceResponse(place: Option<PlaceRecord>, averageRating: Option<int> -> Option<real>,
                           countOfReviews: Option<int> -> Option<int>): (r: Option<PlaceResponse>)
    ensures r.None? <==> place.None?
    ensures r.Some? ==> (r.value.averageRating == averageRating(place.value.id)
                         && r.value.countOfReviews == countOfReviews(place.value.id))
  {
    if place.None? then None
    else
      var p := place.value;
      Some(PlaceResponse(p.id, p.name, p.address, p.lat, p.lon, p.wheelchairAccessible, p.tactileElements,
                         p.brailleSignage, p.accessibleToilets, p.category, p.overallAccessibilityScore,
                         averageRating(p.id), countOfReviews(p.id), p.createdAt, p.updatedAt, p.createdBy))
  }

  /** The response shows every field of a place but its approval: two places have the same
      response exactly when they differ at most in whether they are approved. */
  lemma ResponseHidesOnlyApproval(p: PlaceRecord, q: PlaceRecord, averageRating: Option<int> -> Option<real>,
                                  countOfReviews: Option<int> -> Option<int>)
    ensures ToPlaceResponse(Some(p), averageRating, countOfReviews) == ToPlaceResponse(Some(q), averageRating, countOfReviews)
        <==> p.(approved := q.approved) == q
  {
  }

  datatype PlaceDto = PlaceDto(id: Option<int>, name: Option<string>, address: Option<string>, category: Option<Category>)

  function ToPlaceDto(p: PlaceRecord): PlaceDto {
    PlaceDto(p.id, p.name, p.address, p.category)
  }

  /** The short form agrees with the full response on every field they share. */
  lemma DtoAgreesWithResponse(p: PlaceRecord, averageRating: Option<int> -> Option<real>,
                              countOfReviews: Option<int> -> Option<int>)
    ensures var r := ToPlaceResponse(Some(p), averageRating, countOfReviews).value;
      ToPlaceDto(p) == PlaceDto(r.id, r.name, r.address, r.category)
  {
  }
}
