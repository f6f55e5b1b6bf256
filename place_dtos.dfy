/** The request bodies of the place endpoints (`PlaceRequest`, `PlaceUpdateRequest`) and the
    bean-validation constraints on them. A request is refused with the set of violations its
    constraints report; `null` is `None`, and a `null` value satisfies every constraint but
    `@NotNull` and `@NotBlank`. */
module PlaceDtos {
  import opened Wrappers
  import opened Text
  import opened Schema
  import opened PlaceCategories

  const NAME_REQUIRED: string := "Name is required"
  const LAT_REQUIRED: string := "Latitude is required"
  const LAT_MIN: string := "Latitude must be greater than or equal to -90"
  const LAT_MAX: string := "Latitude must be less than or equal to 90"
  const LON_REQUIRED: string := "Longitude is required"
  const LON_MIN: string := "Longitude must be greater than or equal to -180"
  const LON_MAX: string := "Longitude must be less than or equal to 180"
  const CATEGORY_REQUIRED: string := "Category is required"

  /** The body that creates a place, or replaces all of its editable fields. */
  datatype PlaceRequest = PlaceRequest(
    name: Option<string>, address: Option<string>, lat: Option<real>, lon: Option<real>,
    wheelchairAccessible: bool, tactileElements: bool, brailleSignage: bool, accessibleToilets: bool,
    category: Option<Category>)

  /** The body of a partial update: every field may be left out. */
  datatype PlaceUpdateRequest = PlaceUpdateRequest(
    name: Option<string>, address: Option<string>, lat: Option<real>, lon: Option<real>,
    wheelchairAccessible: Option<bool>, tactileElements: Option<bool>, brailleSignage: Option<bool>,
    accessibleToilets: Option<bool>, category: Option<Category>)

  /** `@DecimalMin` and `@DecimalMax` (both inclusive) on an optional value. */
  function RangeViolations(x: Option<real>, low: real, high: real, field: string,
                           belowMessage: string, aboveMessage: string): (v: set<Issue>)
    ensures v == {} <==> x.None? || low <= x.value <= high
  {
    if x.None? then {}
    else
      (if x.value < low then {Issue(field, belowMessage)} else {})
      + (if x.value > high then {Issue(field, aboveMessage)} else {})
  }

  /** `@NotNull` followed by a range on the same value. */
  function RequiredRangeViolations(x: Option<real>, low: real, high: real, field: string,
                                   requiredMessage: string, belowMessage: string, aboveMessage: string): (v: set<Issue>)
    ensures v == {} <==> x.Some? && low <= x.value <= high
  {
    if x.None? then {Issue(field, requiredMessage)}
    else RangeViolations(x, low, high, field, belowMessage, aboveMessage)
  }

  function PlaceRequestViolations(r: PlaceRequest): set<Issue> {
    (if NotBlank(r.name) then {} else {Issue("name", NAME_REQUIRED)})
    + RequiredRangeViolations(r.lat, -90.0, 90.0, "lat", LAT_REQUIRED, LAT_MIN, LAT_MAX)
    + RequiredRangeViolations(r.lon, -180.0, 180.0, "lon", LON_REQUIRED, LON_MIN, LON_MAX)
    + (if r.category.Some? then {} else {Issue("category", CATEGORY_REQUIRED)})
  }

  /** A place request is accepted exactly when it has a name that is not blank, both
      coordinates within their ranges (bounds included) and a category; the address and the
      four flags are never checked. */
  lemma PlaceRequestAccepted(r: PlaceRequest)
    ensures PlaceRequestViolations(r) == {} <==>
      && NotBlank(r.name)
      && r.lat.Some? && -90.0 <= r.lat.value <= 90.0
      && r.lon.Some? && -180.0 <= r.lon.value <= 180.0
      && r.category.Some?
  {
    if PlaceRequestViolations(r) == {} {
      assert !NotBlank(r.name) ==> Issue("name", NAME_REQUIRED) in PlaceRequestViolations(r);
      assert r.category.None? ==> Issue("category", CATEGORY_REQUIRED) in PlaceRequestViolations(r);
      var lat := RequiredRangeViolations(r.lat, -90.0, 90.0, "lat", LAT_REQUIRED, LAT_MIN, LAT_MAX);
      var lon := RequiredRangeViolations(r.lon, -180.0, 180.0, "lon", LON_REQUIRED, LON_MIN, LON_MAX);
      assert lat <= PlaceRequestViolations(r) && lon <= PlaceRequestViolations(r);
    }
  }

  /** A missing latitude is reported once, as missing, and not as out of range. */
  lemma MissingLatitudeReportedOnce(r: PlaceRequest)
    requires r.lat.None?
    ensures Issue("lat", LAT_REQUIRED) in PlaceRequestViolations(r)
    ensures Issue("lat", LAT_MIN) !in PlaceRequestViolations(r) && Issue("lat", LAT_MAX) !in PlaceRequestViolations(r)
  {
    var lon := RequiredRangeViolations(r.lon, -180.0, 180.0, "lon", LON_REQUIRED, LON_MIN, LON_MAX);
    assert forall i :: i in lon ==> i.path == "lon";
  }

  function PlaceUpdateRequestViolations(r: PlaceUpdateRequest): set<Issue> {
    RangeViolations(r.lat, -90.0, 90.0, "lat", LAT_MIN, LAT_MAX)
    + RangeViolations(r.lon, -180.0, 180.0, "lon", LON_MIN, LON_MAX)
  }

  /** A partial update is accepted exactly when each coordinate it gives is within range;
      nothing else is checked, not even a blank name. */
  lemma PlaceUpdateRequestAccepted(r: PlaceUpdateRequest)
    ensures PlaceUpdateRequestViolations(r) == {} <==>
      (r.lat.None? || -90.0 <= r.lat.value <= 90.0) && (r.lon.None? || -180.0 <= r.lon.value <= 180.0)
  {
  }

  /** The empty update, which changes nothing, is accepted. */
  lemma EmptyUpdateAccepted()
    ensures PlaceUpdateRequestViolations(PlaceUpdateRequest(None, None, None, None, None, None, None, None, None)) == {}
  {
  }
}
