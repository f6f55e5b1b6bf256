/** `PlaceServiceImpl`: the place table and the operations on it. The table maps each stored
    place's id to its fields; ids come from an identity counter. The current user is the
    result of looking up the signed-in e-mail (`None` when no user has it), and each read of
    the clock is a parameter. A transaction that throws changes nothing. */
module PlaceService {
  import opened Wrappers
  import opened PlaceEntity
  import opened PlaceDtos
  import opened PlaceMapper
  import opened SpecificationHelper
  import opened ServiceErrors

  /** Every stored place carries its own id, and the counter is past every id in use. */
  predicate TableValid(places: map<int, PlaceRecord>, nextId: int) {
    forall id :: id in places ==> places[id].id == Some(id) && id < nextId
  }

  /** The places a filter lets through (`getAllPlaces`). */
  function Listed(places: map<int, PlaceRecord>, filter: Option<PlaceFilter>): (listed: map<int, PlaceRecord>)
    ensures forall id :: id in listed <==> id in places && Matches(filter, places[id])
    ensures forall id :: id in listed ==> listed[id] == places[id]
  {
    map id | id in places && Matches(filter, places[id]) :: places[id]
  }

  /** The places waiting for approval (`getUnapprovedPlaces`, without the paging). */
  function Unapproved(places: map<int, PlaceRecord>): (waiting: set<int>)
    ensures forall id :: id in waiting <==> id in places && !places[id].approved
  {
    set id | id in places && !places[id].approved
  }

  /** The stored form of a new place: the request's fields, the creator, the next id, and
      the timestamps and score of `onCreate`. */
  function NewPlace(request: PlaceRequest, creator: int, id: int, now: int, later: int): (p: PlaceRecord)
    ensures p.id == Some(id) && p.createdBy == Some(creator) && !p.approved
    ensures ToPlaceRequest(p) == request
    ensures p.createdAt == Some(now) && p.updatedAt == Some(later)
  {
    Created(ToPlace(request, Some(creator)).(id := Some(id)), now, later)
  }

  /** The stored form of a place after `updatePlace`: the update applied, then the score
      recomputed at `now`. */
  function UpdatedPlace(p: PlaceRecord, request: PlaceUpdateRequest, now: int): PlaceRecord {
    Rescored(Patched(p, request), now)
  }

  /** An update never changes a place's id, creator, creation time or approval, and always
      leaves its score matching its features. */
  lemma UpdateKeepsIdentity(p: PlaceRecord, request: PlaceUpdateRequest, now: int)
    ensures var q := UpdatedPlace(p, request, now);
      && q.id == p.id && q.createdBy == p.createdBy && q.createdAt == p.createdAt && q.approved == p.approved
      && q.updatedAt == Some(now)
      && q.overallAccessibilityScore == Some(FeatureCount(q) as real / 4.0)
  {
    var q := UpdatedPlace(p, request, now);
    ScoreIsQuarter(Patched(p, request));
    assert FeatureCount(q) == FeatureCount(Patched(p, request));
  }

  /** An empty update only refreshes the time of the last change and the score. */
  lemma EmptyUpdateOnlyRescores(p: PlaceRecord, now: int)
    ensures UpdatedPlace(p, EMPTY_UPDATE, now) == Rescored(p, now)
  {
    PatchLaws(p, EMPTY_UPDATE);
  }

  /** The place list filters only on category and features: places waiting for approval are
      listed like any other. */
  lemma ListShowsUnapproved(places: map<int, PlaceRecord>)
    ensures Listed(places, None) == places
  {
  }

  class PlaceServiceImpl {
    var places: map<int, PlaceRecord>
    var nextId: int

    predicate Valid()
      reads this
    {
      TableValid(places, nextId)
    }

    /** An empty table. */
    constructor ()
      ensures places == map[] && Valid()
    {
      places := map[];
      nextId := 1;
    }

    function GetAllPlaces(filter: Option<PlaceFilter>): map<int, PlaceRecord>
      reads this
    {
      Listed(places, filter)
    }

    function GetPlaceById(id: int): (result: Result<PlaceRecord, ServiceError>)
      reads this
      ensures result.Ok? <==> id in places
      ensures result.Ok? ==> result.value == places[id]
      ensures result.Err? ==> result.error == PlaceNotFound(id)
    {
      if id in places then Ok(places[id]) else Err(PlaceNotFound(id))
    }

    /** `createPlace`: the request becomes a new place of the current user, stored under the
        next id; without a current user nothing is stored. */
    method CreatePlace(request: PlaceRequest, currentUser: Option<int>, now: int, later: int)
      returns (result: Result<PlaceRecord, ServiceError>)
      requires Valid()
      modifies this
      ensures Valid()
      ensures currentUser.None? ==>
        result == Err(IllegalState(CURRENT_USER_NOT_FOUND)) && places == old(places) && nextId == old(nextId)
      ensures currentUser.Some? ==>
        && old(nextId) !in old(places)
        && places == old(places)[old(nextId) := NewPlace(request, currentUser.value, old(nextId), now, later)]
        && nextId == old(nextId) + 1
        && result == Ok(places[old(nextId)])
    {
      if currentUser.None? {
        return Err(IllegalState(CURRENT_USER_NOT_FOUND));
      }
      var place := new Place(ToPlace(request, currentUser));
      place.id := Some(nextId);
      place.OnCreate(now, later);
      places := places[nextId := place.Record()];
      nextId := nextId + 1;
      result := Ok(place.Record());
    }

    /** `updatePlace`: the partial update is applied to the stored place, which is saved, and
        then its score is recomputed; the transaction stores that too. */
    method UpdatePlace(id: int, request: PlaceUpdateRequest, now: int)
      returns (result: Result<PlaceRecord, ServiceError>)
      requires Valid()
      modifies this
      ensures Valid() && nextId == old(nextId)
      ensures id !in old(places) ==> result == Err(PlaceNotFound(id)) && places == old(places)
      ensures id in old(places) ==>
        && places == old(places)[id := UpdatedPlace(old(places)[id], request, now)]
        && result == Ok(places[id])
    {
      if id !in places {
        return Err(PlaceNotFound(id));
      }
      var place := new Place(places[id]);
      UpdatePlaceFromUpdateRequest(place, request);
      places := places[id := place.Record()];
      place.UpdateScore(now);
      places := places[id := place.Record()];
      result := Ok(place.Record());
    }

    /** `deletePlace`. */
    method DeletePlace(id: int) returns (result: Result<(), ServiceError>)
      requires Valid()
      modifies this
      ensures Valid() && nextId == old(nextId)
      ensures id !in old(places) ==> result == Err(PlaceNotFound(id)) && places == old(places)
      ensures id in old(places) ==> result == Ok(()) && places == old(places) - {id}
    {
      if id !in places {
        return Err(PlaceNotFound(id));
      }
      places := places - {id};
      result := Ok(());
    }

    function GetUnapprovedPlaces(): set<int>
      reads this
    {
      Unapproved(places)
    }

    /** `approvePlace`. */
    method ApprovePlace(id: int) returns (result: Result<PlaceRecord, ServiceError>)
      requires Valid()
      modifies this
      ensures Valid() && nextId == old(nextId)
      ensures id !in old(places) ==> result == Err(PlaceNotFound(id)) && places == old(places)
      ensures id in old(places) ==>
        && places == old(places)[id := old(places)[id].(approved := true)]
        && result == Ok(places[id])
    {
      if id !in places {
        return Err(PlaceNotFound(id));
      }
      var place := new Place(places[id]);
      place.SetApproved(true);
      places := places[id := place.Record()];
      result := Ok(place.Record());
    }
  }

  /** Approving a place takes it off the waiting list and leaves the rest of the list as it
      was; approving it again changes nothing. */
  lemma ApprovalLeavesWaitingList(places: map<int, PlaceRecord>, id: int)
    requires id in places
    ensures Unapproved(places[id := places[id].(approved := true)]) == Unapproved(places) - {id}
    ensures var once := places[id := places[id].(approved := true)];
      once[id := once[id].(approved := true)] == once
  {
    var after := places[id := places[id].(approved := true)];
    assert forall k :: k in Unapproved(after) <==> k in Unapproved(places) - {id};
  }

  /** A newly created place waits for approval. */
  lemma NewPlaceWaits(places: map<int, PlaceRecord>, request: PlaceRequest, creator: int, id: int, now: int, later: int)
    ensures id in Unapproved(places[id := NewPlace(request, creator, id, now, later)])
  {
  }
}
