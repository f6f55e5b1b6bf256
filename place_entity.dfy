/** The `Place` entity of the server: its fields, the accessibility score it keeps
    (`updateScore`) and the creation hook (`onCreate`). Java's `null` is `None`; `BigDecimal`
    values are exact reals; the user who created the place is referred to by id; each read
    of the clock is a parameter. */
module PlaceEntity {
  import opened Wrappers
  import opened PlaceCategories

  /** The value of every field of a place. */
  datatype PlaceRecord = PlaceRecord(
    id: Option<int>, name: Option<string>, address: Option<string>, lat: Option<real>, lon: Option<real>,
    wheelchairAccessible: bool, tactileElements: bool, brailleSignage: bool, accessibleToilets: bool,
    category: Option<Category>, overallAccessibilityScore: Option<real>,
    createdAt: Option<int>, updatedAt: Option<int>, approved: bool, createdBy: Option<int>)

  /** The number of accessibility features a place offers. */
  function FeatureCount(r: PlaceRecord): (n: nat)
    ensures n <= 4
    ensures n == 0 <==> !r.wheelchairAccessible && !r.tactileElements && !r.brailleSignage && !r.accessibleToilets
    ensures n == 4 <==> r.wheelchairAccessible && r.tactileElements && r.brailleSignage && r.accessibleToilets
  {
    (if r.wheelchairAccessible then 1 else 0) + (if r.tactileElements then 1 else 0)
    + (if r.brailleSignage then 1 else 0) + (if r.accessibleToilets then 1 else 0)
  }

  /** `BigDecimal.setScale(2, RoundingMode.HALF_UP)` on a non-negative value. */
  function HalfUp2(x: real): real
    requires x >= 0.0
  {
    ((x * 100.0 + 0.5).Floor as real) / 100.0
  }

  /** The score `updateScore` stores: the share of the four features, rounded to two
      decimals. */
  function Score(r: PlaceRecord): real {
    HalfUp2(FeatureCount(r) as real / 4.0)
  }

  /** The rounding never changes anything: the score is exactly the number of features over
      four, one of 0, 0.25, 0.5, 0.75 and 1. */
  lemma ScoreIsQuarter(r: PlaceRecord)
    ensures Score(r) == FeatureCount(r) as real / 4.0
    ensures Score(r) in {0.0, 0.25, 0.5, 0.75, 1.0}
  {
    var n := FeatureCount(r);
    assert (n as real / 4.0 * 100.0 + 0.5).Floor == 25 * n;
  }

  /** Offering one more feature never lowers the score. */
  lemma ScoreMonotonic(r: PlaceRecord, s: PlaceRecord)
    requires r.wheelchairAccessible ==> s.wheelchairAccessible
    requires r.tactileElements ==> s.tactileElements
    requires r.brailleSignage ==> s.brailleSignage
    requires r.accessibleToilets ==> s.accessibleToilets
    ensures Score(r) <= Score(s)
  {
    ScoreIsQuarter(r);
    ScoreIsQuarter(s);
  }

  /** The record after `updateScore` at clock reading `now`: only the time of the last change
      and the score differ. */
  function Rescored(r: PlaceRecord, now: int): (s: PlaceRecord)
    ensures s.updatedAt == Some(now) && s.overallAccessibilityScore == Some(Score(r))
    ensures s.(updatedAt := r.updatedAt, overallAccessibilityScore := r.overallAccessibilityScore) == r
  {
    r.(updatedAt := Some(now), overallAccessibilityScore := Some(Score(r)))
  }

  /** The record after `onCreate`: both timestamps set from the first clock reading, then
      `updateScore` with the second. */
  function Created(r: PlaceRecord, now: int, later: int): (s: PlaceRecord)
    ensures s.createdAt == Some(now) && s.updatedAt == Some(later)
    ensures s.overallAccessibilityScore == Some(Score(r))
    ensures s.(createdAt := r.createdAt, updatedAt := r.updatedAt, overallAccessibilityScore := r.overallAccessibilityScore) == r
  {
    Rescored(r.(createdAt := Some(now), updatedAt := Some(now)), later)
  }

  /** As the clock does not run backwards, a new place was never changed before it was
      created. */
  lemma CreatedInOrder(r: PlaceRecord, now: int, later: int)
    requires now <= later
    ensures Created(r, now, later).createdAt.value <= Created(r, now, later).updatedAt.value
  {
  }

  class Place {
    var id: Option<int>
    var name: Option<string>
    var address: Option<string>
    var lat: Option<real>
    var lon: Option<real>
    var wheelchairAccessible: bool
    var tactileElements: bool
    var brailleSignage: bool
    var accessibleToilets: bool
    var category: Option<Category>
    var overallAccessibilityScore: Option<real>
    var createdAt: Option<int>
    var updatedAt: Option<int>
    var approved: bool
    var createdBy: Option<int>

    function Record(): PlaceRecord
      reads this
    {
      PlaceRecord(id, name, address, lat, lon, wheelchairAccessible, tactileElements, brailleSignage,
                  accessibleToilets, category, overallAccessibilityScore, createdAt, updatedAt, approved, createdBy)
    }

    /** A place holding the given field values (the builder, or a row loaded from the
        table). */
    constructor (r: PlaceRecord)
      ensures Record() == r
    {
      id, name, address, lat, lon := r.id, r.name, r.address, r.lat, r.lon;
      wheelchairAccessible, tactileElements, brailleSignage, accessibleToilets :=
        r.wheelchairAccessible, r.tactileElements, r.brailleSignage, r.accessibleToilets;
      category, overallAccessibilityScore := r.category, r.overallAccessibilityScore;
      createdAt, updatedAt, approved, createdBy := r.createdAt, r.updatedAt, r.approved, r.createdBy;
    }

    // The setters the mapper and the services call.

    method SetName(name: Option<string>)
      modifies this
      ensures Record() == old(Record()).(name := name)
    {
      this.name := name;
    }

    method SetAddress(address: Option<string>)
      modifies this
      ensures Record() == old(Record()).(address := address)
    {
      this.address := address;
    }

    method SetLat(lat: Option<real>)
      modifies this
      ensures Record() == old(Record()).(lat := lat)
    {
      this.lat := lat;
    }

    method SetLon(lon: Option<real>)
      modifies this
      ensures Record() == old(Record()).(lon := lon)
    {
      this.lon := lon;
    }

    method SetWheelchairAccessible(wheelchairAccessible: bool)
      modifies this
      ensures Record() == old(Record()).(wheelchairAccessible := wheelchairAccessible)
    {
      this.wheelchairAccessible := wheelchairAccessible;
    }

    method SetTactileElements(tactileElements: bool)
      modifies this
      ensures Record() == old(Record()).(tactileElements := tactileElements)
    {
      this.tactileElements := tactileElements;
    }

    method SetBrailleSignage(brailleSignage: bool)
      modifies this
      ensures Record() == old(Record()).(brailleSignage := brailleSignage)
    {
      this.brailleSignage := brailleSignage;
    }

    method SetAccessibleToilets(accessibleToilets: bool)
      modifies this
      ensures Record() == old(Record()).(accessibleToilets := accessibleToilets)
    {
      this.accessibleToilets := accessibleToilets;
    }

    method SetCategory(category: Option<Category>)
      modifies this
      ensures Record() == old(Record()).(category := category)
    {
      this.category := category;
    }

    method SetApproved(approved: bool)
      modifies this
      ensures Record() == old(Record()).(approved := approved)
    {
      this.approved := approved;
    }

    /** `updateScore`, reading the clock as `now`. */
    method UpdateScore(now: int)
      modifies this
      ensures Record() == Rescored(old(Record()), now)
    {
      updatedAt := Some(now);
      var totalFeatures := 4;
      var enabledFeatures := 0;
      if wheelchairAccessible { enabledFeatures := enabledFeatures + 1; }
      if tactileElements { enabledFeatures := enabledFeatures + 1; }
      if brailleSignage { enabledFeatures := enabledFeatures + 1; }
      if accessibleToilets { enabledFeatures := enabledFeatures + 1; }
      var score := enabledFeatures as real / totalFeatures as real;
      overallAccessibilityScore := Some(HalfUp2(score));
    }

    /** `onCreate`, the hook run before a new place is first stored; `now` and `later` are
        its two readings of the clock. */
    method OnCreate(now: int, later: int)
      modifies this
      ensures Record() == Created(old(Record()), now, later)
    {
      createdAt := Some(now);
      updatedAt := Some(now);
      UpdateScore(later);
    }
  }
}
