/** The client of the routing service: the response-error interceptor and
    `makeDebounceRequest`, which shares one in-flight request per key and keeps successful
    results for ten seconds.

    The module-level `pendingRequests` and `cachedResponses` maps become the two map fields of
    `RequestCache`. A promise is represented by a ticket number; the timer, the promise
    plumbing and the abort controller are not modelled. The clock `Date.now()` is the
    parameter `now`. Running a request is split into the step that answers or registers it
    (`Request`) and the two ways the delayed request function can end (`Succeed`, `Fail`). */
module RouteClient {
  import opened Wrappers
  import opened Text

  /** Age, in milliseconds, from which a cached response is dropped. */
  const CACHE_TTL: int := 10000
  /** Delay used for every key that starts with "route_". */
  const ROUTE_DELAY: int := 50
  /** Delay used when the caller gives none. */
  const DEFAULT_DEBOUNCE: int := 300

  // ---------------------------------------------------------------------------------------
  // The response-error interceptor

  /** An error raised by the HTTP client: its own message and, when the service answered
      with a JSON error body, `error.message` and `error.code` from that body. */
  datatype HttpError = HttpError(message: string, bodyMessage: Option<string>, bodyCode: Option<string>)

  /** What the interceptor rejects with: a new Error named "RouteServiceError", or the
      original error untouched. */
  datatype RejectedWith =
    | RouteServiceError(message: string, code: Option<string>)
    | Unchanged(error: HttpError)

  /** The error handler of the response interceptor. The test on `error.message` is
      JavaScript truthiness, so an empty message is treated like a missing one. */
  function Intercept(e: HttpError): (r: RejectedWith)
    ensures r.RouteServiceError? <==> e.bodyMessage.Some? && e.bodyMessage.value != ""
    ensures r.RouteServiceError? ==> r.message == e.bodyMessage.value && r.code == e.bodyCode
    ensures r.Unchanged? ==> r.error == e
  {
    match e.bodyMessage
    case Some(m) => if m != "" then RouteServiceError(m, e.bodyCode) else Unchanged(e)
    case None => Unchanged(e)
  }

  // ---------------------------------------------------------------------------------------
  // The request cache, as a value

  /** An entry of `cachedResponses`: when it was stored and the data. */
  datatype CachedData<T> = CachedData(timestamp: int, data: T)

  /** Both maps, and the number the next promise will get. */
  datatype CacheState<T> = CacheState(pending: map<string, nat>, cached: map<string, CachedData<T>>, nextTicket: nat)
  {
    /** Every registered promise was created earlier, and no two keys share one. */
    ghost predicate Valid() {
      && (forall k :: k in pending ==> pending[k] < nextTicket)
      && (forall k1, k2 :: k1 in pending && k2 in pending && k1 != k2 ==> pending[k1] != pending[k2])
    }
  }

  /** What a call of `makeDebounceRequest` does: answer from the cache, hand out the promise
      of the request already in flight, or create a promise and schedule the request
      function after `delay` milliseconds. */
  datatype Answer<T> = FromCache(data: T) | JoinPending(ticket: nat) | Scheduled(ticket: nat, delay: int)

  /** `key.startsWith("route_") ? 50 : debounceTime`. */
  function EffectiveDelay(key: string, debounceTime: int): int {
    if StartsWith(key, "route_") then ROUTE_DELAY else debounceTime
  }

  /** A cached entry is served while it is younger than ten seconds. */
  predicate Fresh<T>(s: CacheState<T>, key: string, now: int) {
    key in s.cached && now - s.cached[key].timestamp < CACHE_TTL
  }

  /** One call of `makeDebounceRequest(key, requestFn, debounceTime)` at time `now`: the new
      state of the maps and what the caller gets back. */
  function Lookup<T>(s: CacheState<T>, key: string, now: int, debounceTime: int): (r: (CacheState<T>, Answer<T>))
    ensures Fresh(s, key, now) ==> r.0 == s && r.1 == FromCache(s.cached[key].data)
    ensures !Fresh(s, key, now) ==> key !in r.0.cached && r.0.cached == s.cached - {key}
    ensures !Fresh(s, key, now) && key in s.pending ==> r.1 == JoinPending(s.pending[key]) && r.0.pending == s.pending
    ensures !Fresh(s, key, now) && key !in s.pending ==>
      r.1 == Scheduled(s.nextTicket, EffectiveDelay(key, debounceTime))
      && r.0.pending == s.pending[key := s.nextTicket] && r.0.nextTicket == s.nextTicket + 1
    ensures !r.1.Scheduled? ==> r.0.nextTicket == s.nextTicket
  {
    if Fresh(s, key, now) then (s, FromCache(s.cached[key].data))
    else
      var cached := s.cached - {key};
      if key in s.pending then (s.(cached := cached), JoinPending(s.pending[key]))
      else
        (CacheState(s.pending[key := s.nextTicket], cached, s.nextTicket + 1),
         Scheduled(s.nextTicket, EffectiveDelay(key, debounceTime)))
  }

  /** The request function resolved at time `now` with `result`; `truthy` is the
      JavaScript truthiness of that value. Only a truthy result is cached; the pending entry
      goes either way. */
  function Resolved<T>(s: CacheState<T>, key: string, result: T, truthy: bool, now: int): (r: CacheState<T>)
    ensures key !in r.pending && r.pending == s.pending - {key}
    ensures truthy ==> r.cached == s.cached[key := CachedData(now, result)]
    ensures !truthy ==> r.cached == s.cached
    ensures r.nextTicket == s.nextTicket
  {
    CacheState(s.pending - {key}, if truthy then s.cached[key := CachedData(now, result)] else s.cached, s.nextTicket)
  }

  /** The request function rejected: the pending entry goes and nothing is cached. */
  function Rejected<T>(s: CacheState<T>, key: string): (r: CacheState<T>)
    ensures key !in r.pending && r.pending == s.pending - {key}
    ensures r.cached == s.cached && r.nextTicket == s.nextTicket
  {
    s.(pending := s.pending - {key})
  }

  // ---------------------------------------------------------------------------------------
  // Properties of the request cache

  /** Every step keeps the pending promises distinct and already created; a scheduled
      request gets a promise no other key holds. */
  lemma LookupKeepsValid<T>(s: CacheState<T>, key: string, now: int, debounceTime: int)
    requires s.Valid()
    ensures Lookup(s, key, now, debounceTime).0.Valid()
    ensures var (s', a) := Lookup(s, key, now, debounceTime);
      a.Scheduled? ==> forall k :: k in s'.pending && k != key ==> s'.pending[k] != a.ticket
  {
    var (s', a) := Lookup(s, key, now, debounceTime);
    if a.Scheduled? {
      forall k1, k2 | k1 in s'.pending && k2 in s'.pending && k1 != k2
        ensures s'.pending[k1] != s'.pending[k2]
      {
        if k1 != key && k2 != key {
          assert s'.pending[k1] == s.pending[k1] && s'.pending[k2] == s.pending[k2];
        }
      }
    }
  }

  lemma ResolvedKeepsValid<T>(s: CacheState<T>, key: string, result: T, truthy: bool, now: int)
    requires s.Valid()
    ensures Resolved(s, key, result, truthy, now).Valid()
  {
  }

  lemma RejectedKeepsValid<T>(s: CacheState<T>, key: string)
    requires s.Valid()
    ensures Rejected(s, key).Valid()
  {
  }

  /** While a request is in flight, calling again with the same key never starts a second
      one: the second caller gets the very promise the first one got, and nothing changes. */
  lemma {:induction false} NoDuplicateRequests<T>(s: CacheState<T>, key: string, now1: int, now2: int, d1: int, d2: int)
    ensures var (s1, a1) := Lookup(s, key, now1, d1);
      !a1.FromCache? ==> Lookup(s1, key, now2, d2) == (s1, JoinPending(a1.ticket))
  {
    var (s1, a1) := Lookup(s, key, now1, d1);
    if !a1.FromCache? {
      assert key in s1.pending && key !in s1.cached;
      assert s1.pending[key] == a1.ticket;
      assert !Fresh(s1, key, now2);
      assert s1.cached - {key} == s1.cached;
    }
  }

  /** After a truthy result arrives at time t, every call within the next ten seconds is
      answered from the cache with that result; from ten seconds on the call goes out again
      (or joins a request in flight). */
  lemma {:induction false} ResultServedForTenSeconds<T>(s: CacheState<T>, key: string, result: T, t: int, now: int, d: int)
    ensures var s1 := Resolved(s, key, result, true, t);
      var (s2, a) := Lookup(s1, key, now, d);
      (now - t < CACHE_TTL ==> a == FromCache(result) && s2 == s1)
      && (now - t >= CACHE_TTL ==> !a.FromCache? && key !in s2.cached)
  {
    var s1 := Resolved(s, key, result, true, t);
    assert key in s1.cached && s1.cached[key] == CachedData(t, result);
  }

  /** A failed request leaves nothing behind for its key: the next call starts a new one. */
  lemma {:induction false} FailureIsRetried<T>(s: CacheState<T>, key: string, now: int, d: int)
    requires !Fresh(s, key, now)
    ensures Lookup(Rejected(s, key), key, now, d).1 == Scheduled(s.nextTicket, EffectiveDelay(key, d))
  {
    var s1 := Rejected(s, key);
    assert key !in s1.pending;
    assert !Fresh(s1, key, now);
  }

  /** Route requests always wait 50 ms, whatever the caller asked for; other keys wait the
      requested time. */
  lemma RouteKeysUseShortDelay(key: string, d: int)
    ensures StartsWith("route_" + key, "route_")
    ensures EffectiveDelay("route_" + key, d) == ROUTE_DELAY
    ensures !StartsWith(key, "route_") ==> EffectiveDelay(key, d) == d
  {
    assert ("route_" + key)[..6] == "route_";
  }

  // ---------------------------------------------------------------------------------------
  // The module-level maps, updated in place

  class RequestCache<T> {
    var pending: map<string, nat>
    var cached: map<string, CachedData<T>>
    var nextTicket: nat

    function State(): CacheState<T>
      reads this
    {
      CacheState(pending, cached, nextTicket)
    }

    ghost predicate Valid()
      reads this
    {
      State().Valid()
    }

    constructor ()
      ensures Valid() && pending == map[] && cached == map[] && nextTicket == 0
    {
      pending := map[];
      cached := map[];
      nextTicket := 0;
    }

    /** `makeDebounceRequest(key, requestFn, debounceTime)` up to scheduling the request. */
    method Request(key: string, now: int, debounceTime: int := DEFAULT_DEBOUNCE) returns (answer: Answer<T>)
      requires Valid()
      modifies this
      ensures Valid()
      ensures State() == Lookup(old(State()), key, now, debounceTime).0
      ensures answer == Lookup(old(State()), key, now, debounceTime).1
    {
      LookupKeepsValid(State(), key, now, debounceTime);
      if key in cached {
        var entry := cached[key];
        if now - entry.timestamp < CACHE_TTL {
          return FromCache(entry.data);
        }
        cached := cached - {key};
      }
      if key in pending {
        return JoinPending(pending[key]);
      }
      var ticket := nextTicket;
      nextTicket := nextTicket + 1;
      pending := pending[key := ticket];
      answer := Scheduled(ticket, EffectiveDelay(key, debounceTime));
    }

    /** The scheduled request function returned `result` at time `now`; the promise resolves
        with it. */
    method Succeed(key: string, result: T, truthy: bool, now: int) returns (resolvedWith: T)
      requires Valid()
      modifies this
      ensures Valid()
      ensures State() == Resolved(old(State()), key, result, truthy, now)
      ensures resolvedWith == result
    {
      ResolvedKeepsValid(State(), key, result, truthy, now);
      if truthy {
        cached := cached[key := CachedData(now, result)];
      }
      pending := pending - {key};
      resolvedWith := result;
    }

    /** The scheduled request function threw `error`; the promise rejects with it. */
    method Fail<E>(key: string, error: E) returns (rejectedWith: E)
      requires Valid()
      modifies this
      ensures Valid()
      ensures State() == Rejected(old(State()), key)
      ensures rejectedWith == error
    {
      RejectedKeepsValid(State(), key);
      pending := pending - {key};
      rejectedWith := error;
    }
  }
}
