/** `SpecificationHelper`: the query filter of the place list. Each criterion the filter
    gives must hold (an SQL equality, so a place with no category never matches a category
    criterion); a criterion left out always holds; no filter at all matches every place. */
module SpecificationHelper {
  import opened Wrappers
  import opened PlaceCategories
  import opened PlaceEntity

  /** `PlaceFilterDto`: every criterion is optional. */
  datatype PlaceFilter = PlaceFilter(category: Option<Category>, wheelchairAccessible: Option<bool>,
                                     tactileElements: Option<bool>, brailleSignage: Option<bool>,
                                     accessibleToilets: Option<bool>)

  const NO_CRITERIA: PlaceFilter := PlaceFilter(None, None, None, None, None)

  predicate HasCategory(category: Option<Category>, p: PlaceRecord) {
    category.None? || p.category == category
  }

  /** One of the four flag criteria: none given, or the place's flag equals it. */
  predicate FlagIs(wanted: Option<bool>, actual: bool) {
    wanted.None? || actual == wanted.value
  }

  predicate IsWheelchairAccessible(wanted: Option<bool>, p: PlaceRecord) { FlagIs(wanted, p.wheelchairAccessible) }
  predicate HasTactileElements(wanted: Option<bool>, p: PlaceRecord) { FlagIs(wanted, p.tactileElements) }
  predicate HasBrailleSignage(wanted: Option<bool>, p: PlaceRecord) { FlagIs(wanted, p.brailleSignage) }
  predicate HasAccessibleToilets(wanted: Option<bool>, p: PlaceRecord) { FlagIs(wanted, p.accessibleToilets) }

  /** `buildSpecification(filter)` as a predicate on places. */
  predicate Matches(filter: Option<PlaceFilter>, p: PlaceRecord) {
    filter.None? ||
    var f := filter.value;
    HasCategory(f.category, p) && IsWheelchairAccessible(f.wheelchairAccessible, p)
    && HasTactileElements(f.tactileElements, p) && HasBrailleSignage(f.brailleSignage, p)
    && HasAccessibleToilets(f.accessibleToilets, p)
  }

  /** No filter, and a filter without criteria, let every place through. */
  lemma NoCriteriaMatchAll(p: PlaceRecord)
    ensures Matches(None, p) && Matches(Some(NO_CRITERIA), p)
  {
  }

  /** `wider` asks for nothing that `narrower` does not ask for as well. */
  predicate Narrows(narrower: PlaceFilter, wider: PlaceFilter) {
    && (wider.category.Some? ==> narrower.category == wider.category)
    && (wider.wheelchairAccessible.Some? ==> narrower.wheelchairAccessible == wider.wheelchairAccessible)
    && (wider.tactileElements.Some? ==> narrower.tactileElements == wider.tactileElements)
    && (wider.brailleSignage.Some? ==> narrower.brailleSignage == wider.brailleSignage)
    && (wider.accessibleToilets.Some? ==> narrower.accessibleToilets == wider.accessibleToilets)
  }

  /** Adding criteria never lets more places through. */
  lemma MoreCriteriaFewerPlaces(narrower: PlaceFilter, wider: PlaceFilter, p: PlaceRecord)
    requires Narrows(narrower, wider)
    requires Matches(Some(narrower), p)
    ensures Matches(Some(wider), p)
  {
  }

  /** The filter that asks for everything a place has. */
  function FilterOf(p: PlaceRecord): PlaceFilter {
    PlaceFilter(p.category, Some(p.wheelchairAccessible), Some(p.tactileElements), Some(p.brailleSignage),
                Some(p.accessibleToilets))
  }

  /** A place's own filter lets through exactly the places with the same four flags and, when
      it has a category, the same category. */
  lemma OwnFilterMatchesAlike(p: PlaceRecord, q: PlaceRecord)
    ensures Matches(Some(FilterOf(p)), p)
    ensures Matches(Some(FilterOf(p)), q) <==>
      && (p.category.Some? ==> q.category == p.category)
      && q.wheelchairAccessible == p.wheelchairAccessible && q.tactileElements == p.tactileElements
      && q.brailleSignage == p.brailleSignage && q.accessibleToilets == p.accessibleToilets
  {
  }

  /** A category criterion never matches a place that has no category. */
  lemma CategoryNeverMatchesMissing(f: PlaceFilter, p: PlaceRecord)
    requires f.category.Some? && p.category.None?
    ensures !Matches(Some(f), p)
  {
  }
}
