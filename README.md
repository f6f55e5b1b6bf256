# IncluCity core, modelled in Dafny

IncluCity is a map of accessible places in Lviv. Visitors search for places, filter them by accessibility
features, read and write reviews, and ask for walking or wheelchair routes. They can also propose new places,
which an administrator approves.

This project models the logic at the heart of the Next.js client and the Spring server, and proves properties
about that model.

**Client**
- `Polyline`: the polyline decoder that turns an encoded route into coordinates.
- `RouteClient`: the request cache and debouncer in front of the routing API, plus its error interceptor.
- `RouteService`: road snapping, the route request, and the wheelchair-to-walking fallback.
- `Middleware`: the route guard that redirects visitors by cookie and role.
- `AuthValidation` and `UserValidation`: the login, registration and user-edit form schemas.
- `PlaceApplicationDrawer`: turns a geocoder search result into the initial values of a new-place form.

**Server**
- `PlaceEntity`: the `Place` entity with its accessibility score.
- `PlaceDtos` and `ReviewDtos`: the request DTOs with their bean-validation constraints.
- `PlaceMapper`: converts requests to and from the entity and responses.
- `SpecificationHelper`: the JPA filter built from a `PlaceFilterDto`.
- `PlaceService`, `ReviewService` and `UserService`: the three CRUD services.
- `OpenStreetMapService`: the place search, which tries the local table first and then the geocoder.

**Shared modules**
- `Wrappers`: `Option` and `Result`.
- `Text`: JavaScript `trim`, `split`, `join`, `includes` and `toLowerCase`, and Spring `hasText` / `@NotBlank`.
- `Schema`: the zod checks the client schemas are built from.
- `PlaceCategories`: the category enumeration.
- `ServiceErrors`: the server's exceptions, with their messages.

**How the source maps to Dafny**
- Java `null` becomes `Option`.
- `BigDecimal` values become exact `real`s.
- Timestamps become `Option<int>`, and the clock is a parameter.
- Repositories become `map<int, Record>` tables held by the service classes.
- The `Place` entity is a class whose setters and `updateScore` change its fields in place.
- Network replies, `JSON.parse` and the email regex are parameters.

**Polyline integer semantics**
- The decoder's JavaScript 32-bit integer semantics are written out exactly.
- The `<<` shift count is taken mod 32, and the accumulator is truncated to 32 bits.
- The result is read back as a signed value.
- `charCodeAt` past the end yields NaN, which contributes no bits.

## Model

| member | source | states |
|---|---|---|
| Polyline.Decode | client/src/lib/utils/polyline.ts:7-56 | the decoded list is exactly the in-range running sums of the zigzag-decoded (lat, lng) deltas read from the string, in order, scaled by 10^precision; an empty string decodes to an empty list |
| Polyline.ReadChunks | client/src/lib/utils/polyline.ts:28-32 | the inner do-while loop yields the value and next index of the specification `ReadValue` (5-bit chunks OR-ed in at shifts 0, 5, 10, … until a chunk below 0x20) |
| Polyline.ReadValue | client/src/lib/utils/polyline.ts:28-32 | the accumulated value always fits in 32 bits and reading always advances the index; at the end of the string it stops at once with the bits gathered so far |
| Polyline.ReadPastEnd | client/src/lib/utils/polyline.ts:29-32 | a value cut off by the end of the string is completed with no further bits and one step past the end |
| Polyline.PairsPastEnd | client/src/lib/utils/polyline.ts:22 | once the index has passed the end, no further coordinate is emitted |
| Polyline.PrefixSums | client/src/lib/utils/polyline.ts:46-47 | running sums keep one point per delta |
| Polyline.PrefixSumAt | client/src/lib/utils/polyline.ts:46-47 | the k-th point is the start plus the sum of the first k+1 deltas, including deltas whose points were dropped as out of range |
| Polyline.ScaledRange | client/src/lib/utils/polyline.ts:59-62 | the integer range test on scaled values is equivalent to `isValidCoordinate` on lat/factor and lng/factor |
| Polyline.KeepValid | client/src/lib/utils/polyline.ts:50-52 | filtering never adds points |
| Polyline.KeepValidExactly | client/src/lib/utils/polyline.ts:48-52 | a point is emitted if and only if it is among the decoded points and within ±90 / ±180 |
| Polyline.KeepValidAppend | client/src/lib/utils/polyline.ts:22-55 | filtering commutes with concatenation, so output order is input order |
| Polyline.KeepValidAll | client/src/lib/utils/polyline.ts:50-52 | when every point is in range nothing is dropped |
| Polyline.KeepValidPrefixStep | client/src/lib/utils/polyline.ts:46-52 | one loop iteration emits the next running sum exactly when it is in range, and leaves the remainder of the work unchanged |
| Polyline.DecodeStep | client/src/lib/utils/polyline.ts:46-52 | the loop invariant `emitted + still-to-emit == result` is preserved by one iteration |
| Polyline.KeepOrSkip | client/src/lib/utils/polyline.ts:50-52 | appending a kept point or skipping a dropped one preserves the same invariant |
| Polyline.ZigzagRoundTrip | client/src/lib/utils/polyline.ts:34 | zigzag decoding inverts zigzag encoding for every value whose code fits in 30 bits |
| Polyline.EncodeChunks | client/src/lib/utils/polyline.ts:1-4 | the reference encoder emits at least one character per value |
| Polyline.Deltas | client/src/lib/utils/polyline.ts:1-4 | the reference encoder emits one delta per point |
| Polyline.ReadEncodedValue | client/src/lib/utils/polyline.ts:28-34 | reading an encoded value gives back its zigzag code and consumes exactly its characters |
| Polyline.PairsOfEncoding | client/src/lib/utils/polyline.ts:22-44 | the (lat, lng) pairs read from an encoding are exactly the encoded deltas |
| Polyline.PrefixSumsOfDeltas | client/src/lib/utils/polyline.ts:46-47 | running sums invert deltas |
| Polyline.InRangeDeltasFit | client/src/lib/utils/polyline.ts:34-44 | for in-range points at precision up to 6, every delta's zigzag code fits in 30 bits, so the 32-bit accumulator never overflows |
| Polyline.DecodeEncode | client/src/lib/utils/polyline.ts:1-56 | decoding the encoding of any in-range point list at precision ≤ 6 returns that list |
| RouteClient.Intercept | client/src/lib/api/route-client.ts:20-34 | an error is rewrapped as a routing-service error if and only if its body carries a non-empty message, which is then kept with the body's code; otherwise the error is passed on unchanged |
| RouteClient.Lookup | client/src/lib/api/route-client.ts:36-72 | a result cached less than 10 s ago is served with no state change; otherwise the stale entry is evicted and the caller either joins the pending request for the key or schedules a new one with the key's delay |
| RouteClient.Resolved | client/src/lib/api/route-client.ts:76-88 | settling a request removes it from the pending table and caches the result with its time if and only if the result is truthy |
| RouteClient.Rejected | client/src/lib/api/route-client.ts:89-93 | a failed request is removed from the pending table and nothing is cached |
| RouteClient.LookupKeepsValid | client/src/lib/api/route-client.ts:51-70 | a lookup keeps the cache invariant: pending tickets are distinct and below the next ticket |
| RouteClient.ResolvedKeepsValid | client/src/lib/api/route-client.ts:76-88 | settling keeps the cache invariant |
| RouteClient.RejectedKeepsValid | client/src/lib/api/route-client.ts:89-93 | failing keeps the cache invariant |
| RouteClient.NoDuplicateRequests | client/src/lib/api/route-client.ts:51-70 | a second request for a key whose first request is still pending gets the same promise and changes nothing |
| RouteClient.ResultServedForTenSeconds | client/src/lib/api/route-client.ts:41-49 | a truthy result is served from the cache, with no state change, for every request within 10 s of its arrival; from 10 s on it is evicted and the request goes out again or joins one in flight |
| RouteClient.FailureIsRetried | client/src/lib/api/route-client.ts:89-93 | after a failure, the next request for the key with no fresh cache entry schedules a new request |
| RouteClient.RouteKeysUseShortDelay | client/src/lib/api/route-client.ts:39-72 | keys starting with `route_` are debounced for 50 ms and all other keys for the caller's delay |
| RouteClient.RequestCache.constructor | client/src/lib/api/route-client.ts:17-18 | the cache starts empty and valid |
| RouteClient.RequestCache.Request | client/src/lib/api/route-client.ts:36-72 | the object's new state and answer are those of `Lookup` |
| RouteClient.RequestCache.Succeed | client/src/lib/api/route-client.ts:74-88 | the new state is that of `Resolved`, and the promise resolves with the result |
| RouteClient.RequestCache.Fail | client/src/lib/api/route-client.ts:89-93 | the new state is that of `Rejected`, and the promise rejects with the error |
| RouteService.NearestRoad | client/src/lib/services/route.service.ts:10-60 | snapping keeps the point's name; it returns the point unchanged when a coordinate of the point is `undefined` (its `toFixed` throws and the error is caught), when the request fails, or when it finds no candidate |
| RouteService.SnapChoosesCandidate | client/src/lib/services/route.service.ts:39-50 | when the first candidate has a location, the result is the point itself or exactly that candidate read as `[lng, lat]` under the point's name; it moves only to a candidate that is not negligibly close, and a point with both coordinates defined does move to any such candidate |
| RouteService.SnapToSelfKeepsPoint | client/src/lib/services/route.service.ts:42-48 | a candidate at the point itself leaves the point unchanged |
| RouteService.RouteResponse.TagWalking | client/src/lib/services/route.service.ts:153-159 | the response's metadata becomes its walking-tagged version |
| RouteService.TaggedWalking | client/src/lib/services/route.service.ts:153-159 | tagging sets the query profile to walking, keeps the service and the other query parameters, and starts from none when there was no query |
| RouteService.TaggingIsIdempotent | client/src/lib/services/route.service.ts:153-159 | tagging twice is tagging once |
| RouteService.FetchRoute | client/src/lib/services/route.service.ts:62-112 | a request is made if and only if no coordinate is NaN or `undefined`; an `undefined` coordinate fails with the `TypeError` of `toFixed` (line 67, before the NaN test); a NaN otherwise fails with the Ukrainian invalid-coordinates message; a reply with a first route that has a geometry succeeds with that reply; a thrown error is rethrown |
| RouteService.GetRoute | client/src/lib/services/route.service.ts:114-174 | the method's outcome and requests are those of the specification `RoutePlan` |
| RouteService.AtMostOneFallback | client/src/lib/services/route.service.ts:137-168 | at most two route requests are made; the first uses the effective profile; a second is made only as a walking request after a wheelchair request whose failure qualifies for the fallback |
| RouteService.CoincidentPointsRefused | client/src/lib/services/route.service.ts:127-135 | snapped points with equal numeric coordinates are refused with the same-points error before any route request |
| RouteService.NaNNeverRequested | client/src/lib/services/route.service.ts:67-77 | when a snapped point has a NaN or `undefined` coordinate, no route request is made; the route fails with the same-points error when the snapped points are strictly equal, and otherwise with the `TypeError` of `toFixed` if a coordinate is `undefined` and the invalid-coordinates error if not |
| RouteService.NotFoundIsNotOwnError | client/src/lib/services/route.service.ts:143-148 | neither the three errors the service raises itself nor the `TypeError` of `toFixed` qualifies for the walking fallback |
| RouteService.FallbackFailureRethrowsOriginal | client/src/lib/services/route.service.ts:150-168 | after the first request fails, the route succeeds if and only if the fallback applies and the walking request succeeds, and then returns the walking route tagged as walking; otherwise it fails with the first error |
| RouteService.OtherProfilesNeverFallBack | client/src/lib/services/route.service.ts:120-168 | a non-empty profile other than wheelchair is requested at most once, as given, and never tagged |
| Middleware.Guard | client/src/middleware.ts:11-66 | public paths always pass; every redirect goes to login, the admin panel or home; a redirect to login happens only on admin paths |
| Middleware.GuardTable | client/src/middleware.ts:15-65 | the full decision table: public paths pass; without a token or roles, or with unparseable roles, only admin paths redirect to login; admins are sent from any other path to the admin panel; other users are sent from admin paths home |
| Middleware.NonArrayIsNotAdmin | client/src/middleware.ts:35-37 | roles that do not parse to an array never count as admin |
| Middleware.NoRedirectLoops | client/src/middleware.ts:15-65 | the target of any redirect lets the same visitor through |
| Middleware.AdminPanelOnlyForAdmins | client/src/middleware.ts:37-57 | an admin path passes only for a visitor whose roles include `ROLE_ADMIN` |
| AuthValidation.LoginAccepted | client/src/lib/validations/auth.ts:3-9 | a login form passes if and only if the email is non-empty and well-formed and the password has at least 8 characters |
| AuthValidation.RegisterAccepted | client/src/lib/validations/auth.ts:11-35 | a registration passes if and only if both names have at least 2 characters, the email is non-empty and well-formed, the password has at least 8 characters and matches the strength pattern, and the confirmation equals it |
| AuthValidation.MismatchReportedOnConfirmation | client/src/lib/validations/auth.ts:30-35 | differing passwords are reported on the confirmation field |
| AuthValidation.NoLatinLowerIsWeak | client/src/lib/validations/auth.ts:26-29 | a password without a lower-case Latin letter fails the strength pattern and is reported as weak |
| AuthValidation.PatternFromWitnesses | client/src/lib/validations/auth.ts:26-27 | a password without line breaks that holds a lower-case letter, an upper-case letter and a digit satisfies the strength pattern |
| UserValidation.UpdateUserAccepted | client/src/lib/validations/user.ts:3-14 | the user-edit form passes if and only if the email is non-empty and well-formed, both names have at least 2 characters and at least one role is chosen |
| UserValidation.NoRoleRefused | client/src/lib/validations/user.ts:13 | an empty role list is reported on the roles field |
| PlaceApplicationDrawer.ParseSearchResult | client/src/components/place/place-application-drawer.tsx:65-93 | an empty name yields an empty name and address; otherwise the name is the trimmed first comma-separated part and the address is the trimmed following parts up to the first Lviv community, district or region marker, joined by ", " |
| PlaceApplicationDrawer.AddressParts | client/src/components/place/place-application-drawer.tsx:77-88 | the address never has more parts than the search result |
| PlaceApplicationDrawer.AddressPartsStopAtMarker | client/src/components/place/place-application-drawer.tsx:77-88 | each kept part is the trimmed part at the same position and is not administrative; when parts are left over, the first of them is administrative |
| PlaceApplicationDrawer.AddressPartsAt | client/src/components/place/place-application-drawer.tsx:77-88 | from any position, the address is empty at a marker, and otherwise the trimmed current part followed by the address of the rest |
| PlaceApplicationDrawer.AddressPartsNext | client/src/components/place/place-application-drawer.tsx:77-88 | one loop iteration either stops at a marker with the address complete or appends the trimmed part, keeping the loop invariant |
| PlaceApplicationDrawer.OnePartHasNoAddress | client/src/components/place/place-application-drawer.tsx:74-90 | a name that splits into a single part has an empty address |
| PlaceApplicationDrawer.FirstKeywordAt | client/src/components/place/place-application-drawer.tsx:118-130 | the category guessed is that of the first keyword in table order found in the lower-cased name, or "other" when none is found |
| PlaceApplicationDrawer.GuessIsFirstKeyword | client/src/components/place/place-application-drawer.tsx:118-130 | the category guess is the first-keyword search over the lower-cased name |
| PlaceApplicationDrawer.InitialValues | client/src/components/place/place-application-drawer.tsx:113-139 | the form takes the name and address that `parseSearchResult` gives (the trimmed first comma-separated part, and the following parts up to the first administrative one joined with ", "; both empty for a missing or empty display name), the category guessed from that name and the coordinates (0 when missing), with every accessibility flag off |
| PlaceApplicationDrawer.NoCommaNeedsAddress | client/src/components/place/place-application-drawer.tsx:43-74 | a search result without a comma yields initial values that the place form rejects, because the form requires an address |
| PlaceApplicationDrawer.SplitWithoutSeparator | client/src/components/place/place-application-drawer.tsx:68 | splitting a string that lacks the separator gives the string alone |
| Text.TrimStart | client/src/components/place/place-application-drawer.tsx:70-78 | the result is a suffix of the input; everything removed is white space, and the result does not start with white space |
| Text.TrimEnd | client/src/components/place/place-application-drawer.tsx:70-78 | the result is a prefix of the input; everything removed is white space, and the result does not end with white space |
| Text.Trim | client/src/components/place/place-application-drawer.tsx:70-78 | the result is no longer than the input and starts and ends with non-white-space |
| Text.TrimKeepsMiddle | client/src/components/place/place-application-drawer.tsx:70-78 | the trimmed string is a slice of the input, and everything before and after that slice is white space |
| Text.Split | client/src/components/place/place-application-drawer.tsx:68 | there is always at least one part, and no part contains the separator |
| Text.JoinSplit | client/src/components/place/place-application-drawer.tsx:68-89 | joining the parts with the separator gives back the input |
| Text.Lower | client/src/components/place/place-application-drawer.tsx:120 | lower-casing preserves length and maps each character |
| Schema.Check | client/src/lib/validations/auth.ts:3-9 | a check reports nothing exactly when its condition holds, and otherwise reports its message at its path |
| Schema.MinLength | client/src/lib/validations/auth.ts:4-8 | a minimum-length check passes exactly when the string is long enough |
| PlaceEntity.FeatureCount | server/src/main/java/com/example/server/entity/Place.java:80-87 | between 0 and 4 features are enabled; 0 exactly when none is and 4 exactly when all are |
| PlaceEntity.ScoreIsQuarter | server/src/main/java/com/example/server/entity/Place.java:80-89 | the score is the enabled-feature count divided by four, since quarters are already exact at two decimals |
| PlaceEntity.ScoreMonotonic | server/src/main/java/com/example/server/entity/Place.java:83-89 | enabling more features never lowers the score |
| PlaceEntity.Rescored | server/src/main/java/com/example/server/entity/Place.java:77-90 | rescoring stamps the update time and sets the score, leaving every other field unchanged |
| PlaceEntity.Created | server/src/main/java/com/example/server/entity/Place.java:69-75 | creation stamps both times and the score, leaving every other field unchanged |
| PlaceEntity.CreatedInOrder | server/src/main/java/com/example/server/entity/Place.java:69-78 | after creation, the creation time is no later than the update time |
| PlaceEntity.Place.constructor | server/src/main/java/com/example/server/entity/Place.java:16 | the new object holds exactly the given field values |
| PlaceEntity.Place.SetName | server/src/main/java/com/example/server/entity/Place.java:25-26 | only the name changes |
| PlaceEntity.Place.SetAddress | server/src/main/java/com/example/server/entity/Place.java:28-29 | only the address changes |
| PlaceEntity.Place.SetLat | server/src/main/java/com/example/server/entity/Place.java:31-32 | only the latitude changes |
| PlaceEntity.Place.SetLon | server/src/main/java/com/example/server/entity/Place.java:34-35 | only the longitude changes |
| PlaceEntity.Place.SetWheelchairAccessible | server/src/main/java/com/example/server/entity/Place.java:37-38 | only the wheelchair flag changes |
| PlaceEntity.Place.SetTactileElements | server/src/main/java/com/example/server/entity/Place.java:40-41 | only the tactile flag changes |
| PlaceEntity.Place.SetBrailleSignage | server/src/main/java/com/example/server/entity/Place.java:43-44 | only the braille flag changes |
| PlaceEntity.Place.SetAccessibleToilets | server/src/main/java/com/example/server/entity/Place.java:46-47 | only the toilets flag changes |
| PlaceEntity.Place.SetCategory | server/src/main/java/com/example/server/entity/Place.java:49-51 | only the category changes |
| PlaceEntity.Place.SetApproved | server/src/main/java/com/example/server/entity/Place.java:62-63 | only the approval flag changes |
| PlaceEntity.Place.UpdateScore | server/src/main/java/com/example/server/entity/Place.java:77-90 | the place's new state is `Rescored` of its old state |
| PlaceEntity.Place.OnCreate | server/src/main/java/com/example/server/entity/Place.java:69-75 | the place's new state is `Created` of its old state |
| PlaceDtos.RangeViolations | server/src/main/java/com/example/server/dto/place/PlaceUpdateRequest.java:21-27 | an optional coordinate is accepted if and only if it is absent or within its bounds |
| PlaceDtos.RequiredRangeViolations | server/src/main/java/com/example/server/dto/place/PlaceRequest.java:25-33 | a required coordinate is accepted if and only if it is present and within its bounds |
| PlaceDtos.PlaceRequestAccepted | server/src/main/java/com/example/server/dto/place/PlaceRequest.java:20-41 | a place request is valid if and only if the name is not blank, latitude is in [-90, 90], longitude is in [-180, 180] and a category is given |
| PlaceDtos.MissingLatitudeReportedOnce | server/src/main/java/com/example/server/dto/place/PlaceRequest.java:25-28 | a missing latitude is reported as required and never as out of range |
| PlaceDtos.PlaceUpdateRequestAccepted | server/src/main/java/com/example/server/dto/place/PlaceUpdateRequest.java:18-33 | an update request is valid if and only if each coordinate it gives is within bounds |
| PlaceDtos.EmptyUpdateAccepted | server/src/main/java/com/example/server/dto/place/PlaceUpdateRequest.java:18-33 | an update that gives nothing is valid |
| ReviewDtos.ReviewRequestAccepted | server/src/main/java/com/example/server/dto/review/ReviewRequest.java:19-26 | a review request is valid if and only if the rating is in [0.01, 5.00], a place id is given and the comment is not blank |
| ReviewDtos.RatingOutOfRange | server/src/main/java/com/example/server/dto/review/ReviewRequest.java:19-22 | a present rating out of range is reported as out of range and not as missing |
| ReviewDtos.ReviewUpdateRequestViolations | server/src/main/java/com/example/server/dto/review/ReviewUpdateRequest.java:14-15 | a review update is valid if and only if its comment is not blank |
| PlaceMapper.ToPlace | server/src/main/java/com/example/server/mapper/PlaceMapper.java:20-33 | a new entity has no id, score or times, is not approved, and records its creator |
| PlaceMapper.RequestRoundTrip | server/src/main/java/com/example/server/mapper/PlaceMapper.java:20-47 | mapping a request to a place and back gives the request |
| PlaceMapper.PlaceRoundTrip | server/src/main/java/com/example/server/mapper/PlaceMapper.java:20-47 | a place without id, score, times or approval survives mapping to a request and back |
| PlaceMapper.Overwritten | server/src/main/java/com/example/server/mapper/PlaceMapper.java:49-59 | a full update makes the place's request view equal to the request, keeping id, score, times, approval and creator |
| PlaceMapper.OverwriteLaws | server/src/main/java/com/example/server/mapper/PlaceMapper.java:49-59 | overwriting a place with its own request view changes nothing, and of two full updates the second wins |
| PlaceMapper.UpdatePlaceFromRequest | server/src/main/java/com/example/server/mapper/PlaceMapper.java:49-59 | the entity's new state is `Overwritten` of its old state |
| PlaceMapper.Patched | server/src/main/java/com/example/server/mapper/PlaceMapper.java:61-89 | a partial update keeps id, score, times, approval and creator; each field the request gives is taken from it, and every other field is kept |
| PlaceMapper.PatchLaws | server/src/main/java/com/example/server/mapper/PlaceMapper.java:61-89 | an empty partial update changes nothing, and a partial update is idempotent |
| PlaceMapper.CompletePatchIsOverwrite | server/src/main/java/com/example/server/mapper/PlaceMapper.java:49-89 | a partial update that gives every field equals the full update |
| PlaceMapper.AsUpdate | server/src/main/java/com/example/server/mapper/PlaceMapper.java:61-89 | a full request viewed as a partial update gives all four accessibility flags |
| PlaceMapper.UpdatePlaceFromUpdateRequest | server/src/main/java/com/example/server/mapper/PlaceMapper.java:61-89 | the entity's new state is `Patched` of its old state |
| PlaceMapper.UpdateResponseLaws | server/src/main/java/com/example/server/mapper/PlaceMapper.java:61-103 | a place's own update response, applied as a partial update, changes nothing; after a partial update the response reports every field the request gave |
| PlaceMapper.UpdateResponseOfValidPlaceAccepted | server/src/main/java/com/example/server/mapper/PlaceMapper.java:91-103 | the update response of a place built from a valid request passes update validation |
| PlaceMapper.ToPlaceResponse | server/src/main/java/com/example/server/mapper/PlaceMapper.java:105-131 | a response exists exactly when the place does, and carries that place's average rating and review count |
| PlaceMapper.ResponseHidesOnlyApproval | server/src/main/java/com/example/server/mapper/PlaceMapper.java:105-131 | two places have equal responses if and only if they agree on every field except approval |
| PlaceMapper.DtoAgreesWithResponse | server/src/main/java/com/example/server/mapper/PlaceMapper.java:105-140 | the short DTO carries the same id, name, address and category as the full response |
| SpecificationHelper.NoCriteriaMatchAll | server/src/main/java/com/example/server/util/SpecificationHelper.java:10-19 | a missing filter or one with no criteria matches every place |
| SpecificationHelper.MoreCriteriaFewerPlaces | server/src/main/java/com/example/server/util/SpecificationHelper.java:15-19 | adding criteria never admits a place the wider filter rejected |
| SpecificationHelper.OwnFilterMatchesAlike | server/src/main/java/com/example/server/util/SpecificationHelper.java:22-65 | a place's own filter matches it, and matches another place exactly when the two agree on category and all four flags |
| SpecificationHelper.CategoryNeverMatchesMissing | server/src/main/java/com/example/server/util/SpecificationHelper.java:22-29 | a category criterion rejects places without a category |
| PlaceService.Listed | server/src/main/java/com/example/server/service/impl/PlaceServiceImpl.java:36-43 | the listing holds exactly the places the filter matches, unchanged |
| PlaceService.Unapproved | server/src/main/java/com/example/server/service/impl/PlaceServiceImpl.java:86-98 | the waiting list holds exactly the places not yet approved |
| PlaceService.NewPlace | server/src/main/java/com/example/server/service/impl/PlaceServiceImpl.java:53-63 | a new place gets the fresh id and its creator, is unapproved, holds the request's fields and is stamped |
| PlaceService.UpdateKeepsIdentity | server/src/main/java/com/example/server/service/impl/PlaceServiceImpl.java:65-75 | an update keeps the id, creator, creation time and approval, stamps the update time and sets the score to the new feature count over four |
| PlaceService.EmptyUpdateOnlyRescores | server/src/main/java/com/example/server/service/impl/PlaceServiceImpl.java:65-75 | an empty update only rescores and restamps |
| PlaceService.ListShowsUnapproved | server/src/main/java/com/example/server/service/impl/PlaceServiceImpl.java:36-43 | the unfiltered listing includes unapproved places |
| PlaceService.PlaceServiceImpl.constructor | server/src/main/java/com/example/server/service/impl/PlaceServiceImpl.java:29-34 | the service starts with an empty, valid table |
| PlaceService.PlaceServiceImpl.GetPlaceById | server/src/main/java/com/example/server/service/impl/PlaceServiceImpl.java:45-51 | a stored place is found exactly when its id is in the table; otherwise place-not-found with that id |
| PlaceService.PlaceServiceImpl.CreatePlace | server/src/main/java/com/example/server/service/impl/PlaceServiceImpl.java:53-63 | without a current user it fails with "Current user not found" and changes nothing; otherwise `NewPlace` is stored under a fresh id, the id counter advances and the stored place is returned |
| PlaceService.PlaceServiceImpl.UpdatePlace | server/src/main/java/com/example/server/service/impl/PlaceServiceImpl.java:65-75 | a missing id fails with no change; otherwise the stored place becomes its patched and rescored version, which is returned |
| PlaceService.PlaceServiceImpl.DeletePlace | server/src/main/java/com/example/server/service/impl/PlaceServiceImpl.java:77-84 | a missing id fails with no change; otherwise exactly that place is removed |
| PlaceService.PlaceServiceImpl.ApprovePlace | server/src/main/java/com/example/server/service/impl/PlaceServiceImpl.java:100-109 | a missing id fails with no change; otherwise only that place's approval flag is set |
| PlaceService.ApprovalLeavesWaitingList | server/src/main/java/com/example/server/service/impl/PlaceServiceImpl.java:86-109 | approving removes exactly that place from the waiting list, and approving twice is approving once |
| PlaceService.NewPlaceWaits | server/src/main/java/com/example/server/service/impl/PlaceServiceImpl.java:53-98 | a newly created place is on the waiting list |
| ReviewService.ReviewsWhere | server/src/main/java/com/example/server/service/impl/ReviewServiceImpl.java:45-59 | selecting by place or author keeps exactly the reviews with that key, unchanged |
| ReviewService.ReviewsOfPlacesPartition | server/src/main/java/com/example/server/service/impl/ReviewServiceImpl.java:45-51 | every review appears under its own place and under no other |
| ReviewService.FailureChangesNothing | server/src/main/java/com/example/server/service/impl/ReviewServiceImpl.java:68-124 | a failed create, update or delete leaves the reviews unchanged |
| ReviewService.DeletedOnlyByAuthorOrAdmin | server/src/main/java/com/example/server/service/impl/ReviewServiceImpl.java:105-124 | a delete succeeds if and only if the review exists, a current user is known and is its author or an admin; it then removes exactly that review |
| ReviewService.UpdatedOnlyByAuthor | server/src/main/java/com/example/server/service/impl/ReviewServiceImpl.java:84-103 | an update succeeds if and only if the review exists and the current user is its author; it then changes only that review's comment and update time |
| ReviewService.MissingReviewReportedFirst | server/src/main/java/com/example/server/service/impl/ReviewServiceImpl.java:84-124 | a missing review is reported as not found even when no current user is known, since the review is looked up first |
| ReviewService.CreationAddsOneReview | server/src/main/java/com/example/server/service/impl/ReviewServiceImpl.java:68-82 | a successful create adds exactly one review, under the next id, by the current user, for a place that exists, and keeps the table valid |
| ReviewService.ReviewServiceImpl.constructor | server/src/main/java/com/example/server/service/impl/ReviewServiceImpl.java:28-36 | the service starts with an empty, valid table |
| ReviewService.ReviewServiceImpl.GetReviewById | server/src/main/java/com/example/server/service/impl/ReviewServiceImpl.java:61-66 | a stored review is found exactly when its id is in the table; otherwise review-not-found with that id |
| ReviewService.ReviewServiceImpl.CreateReview | server/src/main/java/com/example/server/service/impl/ReviewServiceImpl.java:68-82 | the result and new table are those of `Creation` |
| ReviewService.ReviewServiceImpl.UpdateReview | server/src/main/java/com/example/server/service/impl/ReviewServiceImpl.java:84-103 | the result and new table are those of `Update` |
| ReviewService.ReviewServiceImpl.DeleteReview | server/src/main/java/com/example/server/service/impl/ReviewServiceImpl.java:105-124 | the result and new table are those of `Deletion` |
| UserService.NameAfter | server/src/main/java/com/example/server/service/impl/UserServiceImpl.java:63-69 | a name is replaced only by a given value that has text |
| UserService.EditKeepsEmailsUnique | server/src/main/java/com/example/server/service/impl/UserServiceImpl.java:49-73 | an edit never makes two users share an email |
| UserService.UnchangedFieldsAccepted | server/src/main/java/com/example/server/service/impl/UserServiceImpl.java:49-73 | an edit of an existing user that keeps the email succeeds and keeps every name it does not give |
| UserService.TakenEmailRefused | server/src/main/java/com/example/server/service/impl/UserServiceImpl.java:55-61 | changing to another user's email fails with "Email already taken" and changes nothing |
| UserService.EditIdempotent | server/src/main/java/com/example/server/service/impl/UserServiceImpl.java:49-73 | applying a successful edit twice is applying it once |
| UserService.UserServiceImpl.constructor | server/src/main/java/com/example/server/service/impl/UserServiceImpl.java:20-23 | the service starts with an empty, valid table |
| UserService.UserServiceImpl.GetCurrentUserByEmail | server/src/main/java/com/example/server/service/impl/UserServiceImpl.java:25-31 | a user is found exactly when one has the email; otherwise user-not-found with that email |
| UserService.UserServiceImpl.GetUserById | server/src/main/java/com/example/server/service/impl/UserServiceImpl.java:33-39 | a stored user is found exactly when its id is in the table; otherwise user-not-found with that id |
| UserService.UserServiceImpl.UpdateUserById | server/src/main/java/com/example/server/service/impl/UserServiceImpl.java:49-73 | the result and new table are those of `Edited` |
| UserService.UserServiceImpl.DeleteUserById | server/src/main/java/com/example/server/service/impl/UserServiceImpl.java:75-82 | a missing id fails with no change; otherwise exactly that user is removed |
| OpenStreetMapService.CityQuery | server/src/main/java/com/example/server/service/impl/OpenStreetMapServiceImpl.java:49 | the geocoder query starts with the user's query |
| OpenStreetMapService.LocalMatches | server/src/main/java/com/example/server/service/impl/OpenStreetMapServiceImpl.java:33 | local matches are places of the table whose name contains the query, ignoring case |
| OpenStreetMapService.Take | server/src/main/java/com/example/server/service/impl/OpenStreetMapServiceImpl.java:41 | `limit(n)` keeps the first min(n, length) elements |
| OpenStreetMapService.MapPlaces | server/src/main/java/com/example/server/service/impl/OpenStreetMapServiceImpl.java:35-40 | each local place becomes its name and coordinates, in order |
| OpenStreetMapService.MapOsm | server/src/main/java/com/example/server/service/impl/OpenStreetMapServiceImpl.java:54-55 | each geocoder hit becomes its display name and coordinates, in order |
| OpenStreetMapService.LocalResults | server/src/main/java/com/example/server/service/impl/OpenStreetMapServiceImpl.java:33-43 | at most five local results, none with a place id |
| OpenStreetMapService.RemoteResults | server/src/main/java/com/example/server/service/impl/OpenStreetMapServiceImpl.java:51-58 | the geocoder contributes no more than the room left, none with a place id |
| OpenStreetMapService.SearchPlaces | server/src/main/java/com/example/server/service/impl/OpenStreetMapServiceImpl.java:30-60 | the geocoder is asked, with the city query, exactly when fewer than five local results were found; the search fails, with the geocoder's exception, exactly when that request threw; otherwise the results are the local ones followed by at most the remaining room of remote ones, none with a place id |
| OpenStreetMapService.SearchShape | server/src/main/java/com/example/server/service/impl/OpenStreetMapServiceImpl.java:30-60 | there are never more than five results, and the local results come first |
| OpenStreetMapService.FiveLocalMatchesSuffice | server/src/main/java/com/example/server/service/impl/OpenStreetMapServiceImpl.java:45-47 | with five or more local matches, exactly five results are local |
| OpenStreetMapService.MatchIgnoresCase | server/src/main/java/com/example/server/service/impl/OpenStreetMapServiceImpl.java:33 | queries that differ only in case find the same places |
| OpenStreetMapService.MatchingPlaceFound | server/src/main/java/com/example/server/service/impl/OpenStreetMapServiceImpl.java:33 | every place whose name contains the query is among the local matches |

## Left out

- Floating point in the client is not modelled.
  - Coordinates are integers (the polyline) or exact reals (forms and routes).
  - The snap test `Math.sqrt(dlat² + dlng²) * 111000 < 0.1` is compared in squared form (`RouteService.Negligible`), which is equivalent over exact reals.
  - The polyline's division by the factor is replaced by an exact comparison on scaled integers.
- NaN in `place.lat || 0` is not modelled, since `real` has no NaN.
- JavaScript strings are treated as sequences of code points, not UTF-16 code units.
- `toLowerCase` and Java's `toLowerCase` in the name search are modelled for ASCII, Latin-1 and Ukrainian Cyrillic only.
- The route cache key formatting (`toFixed`) is left out: keys are plain strings. Only the `TypeError` that `toFixed` throws on an `undefined` coordinate is modelled, with the message the V8 engine gives it; other engines word it differently.
- Timers, promises, `AbortController` and console logging in the route client are not modelled.
  - A scheduled request is represented by its ticket and delay.
  - Its settling is a separate call (`Succeed` or `Fail`).
- RouteService.TagWalking: the metadata is tagged on the response object only. The same object may be shared with the route cache's entry, and that aliasing is not modelled.
- The HTTP replies of the snapping, directions and geocoder services are parameters.
- `JSON.parse` of the roles cookie is a parameter.
- The `config.matcher` of the middleware (`client/src/middleware.ts:68-80`) is not modelled; every path is passed to the guard.
- The zod email regex is a parameter (`isEmail`).
- The security context is not modelled: the current user and the admin flag are parameters of the service operations.
- The repositories and the database are maps.
  - Paging is not modelled.
  - Column precision and scale are not modelled.
  - Foreign-key constraints on delete are not modelled.
  - The flush-time `@PreUpdate` re-stamping is not modelled.
- `findByNameContainingIgnoreCase` is not declared in `server/src/main/java/com/example/server/repository/PlaceRepository.java`. The model gives it the meaning its name implies.
- Review and user mappers are not modelled (`ReviewMapper.java`, `UserMapper.java`).
  - Reviews are stored as records carrying the validated rating as a real.
  - The conversion of the rating to the entity's `Integer` is not modelled.
- Users are modelled by id, email and names only; the other fields of the `User` entity are not part of this model.
- Average rating and review count in the place response are taken as inputs.
- The geocoder URL parameters (`limit=10`, `format`, `accept-language`, `feature-type`) are not modelled; the geocoder is a function of the query.
- PlaceMapper.UpdatePlaceFromUpdateRequest differs from the source in how it writes fields. The source calls a setter only for the fields the request gives. The model calls every setter, writing back the value a field held before the update when the request leaves it out. The final state is the same (`Patched`), but the skipped calls are not modelled one by one.
- The client-side rendering components are outside this model.
- `BigDecimal.setScale(2, HALF_UP)` is modelled only for the quarter values the score can take. `PlaceEntity.ScoreIsQuarter` proves these are already exact.
