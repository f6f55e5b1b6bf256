/** The pure helpers of the drawer in which a visitor proposes a place found by search:
    splitting the search result's display name into a name and an address
    (`parseSearchResult`), guessing a category from the name (`getInitialValues`) and the
    form's schema (`placeFormSchema`). */
module PlaceApplicationDrawer {
  import opened Wrappers
  import opened Text
  import opened PlaceCategories

  /** A search result as the drawer reads it; a missing coordinate is `None`. */
  datatype SearchResult = SearchResult(name: Option<string>, lat: Option<real>, lon: Option<real>)

  // ---------------------------------------------------------------------------------------
  // parseSearchResult

  /** A part of the display name that names the city council, the district or the region;
      the address stops before it. */
  predicate IsAdministrative(part: string) {
    exists marker :: marker in MARKERS && Includes(part, marker)
  }

  /** The city council, the district and the region, as the search service writes them. */
  const MARKERS: seq<string> := ["Львівська міська громада", "Львівський район", "Львівська область"]

  /** The address parts among `parts`: each trimmed, up to (not including) the first one that
      is administrative. */
  function AddressParts(parts: seq<string>): (kept: seq<string>)
    ensures |kept| <= |parts|
  {
    if parts == [] then []
    else
      var part := Trim(parts[0]);
      if IsAdministrative(part) then [] else [part] + AddressParts(parts[1..])
  }

  /** `AddressParts` keeps a prefix, trimmed, and stops at the first administrative part. */
  lemma {:induction false} AddressPartsStopAtMarker(parts: seq<string>)
    ensures var kept := AddressParts(parts);
      && (forall j :: 0 <= j < |kept| ==> kept[j] == Trim(parts[j]) && !IsAdministrative(kept[j]))
      && (|kept| < |parts| ==> IsAdministrative(Trim(parts[|kept|])))
  {
    if parts != [] {
      var part := Trim(parts[0]);
      if !IsAdministrative(part) {
        var rest := AddressParts(parts[1..]);
        AddressPartsStopAtMarker(parts[1..]);
        assert AddressParts(parts) == [part] + rest;
      }
    }
  }

  /** One step of `AddressParts` at position `i`. */
  lemma AddressPartsAt(parts: seq<string>, i: nat)
    requires i < |parts|
    ensures AddressParts(parts[i..]) ==
      if IsAdministrative(Trim(parts[i])) then [] else [Trim(parts[i])] + AddressParts(parts[i + 1..])
  {
    assert parts[i..][1..] == parts[i + 1..];
  }

  /** The bookkeeping of one round of the address loop: an administrative part ends the
      address, any other part moves from the parts to come to the parts kept. */
  lemma AddressPartsNext(parts: seq<string>, i: nat, kept: seq<string>, all: seq<string>)
    requires i < |parts| && kept + AddressParts(parts[i..]) == all
    ensures IsAdministrative(Trim(parts[i])) ==> kept == all
    ensures !IsAdministrative(Trim(parts[i])) ==> (kept + [Trim(parts[i])]) + AddressParts(parts[i + 1..]) == all
  {
    AddressPartsAt(parts, i);
    if IsAdministrative(Trim(parts[i])) {
      assert kept + [] == kept;
    } else {
      assert kept + ([Trim(parts[i])] + AddressParts(parts[i + 1..]))
          == (kept + [Trim(parts[i])]) + AddressParts(parts[i + 1..]);
    }
  }

  /** The display name split at commas, the first part trimmed as the name and the address
      parts joined with ", ". */
  method ParseSearchResult(place: SearchResult) returns (name: string, address: string)
    ensures place.name.None? || place.name.value == "" ==> name == "" && address == ""
    ensures place.name.Some? && place.name.value != "" ==>
      var parts := Split(place.name.value, ',');
      name == Trim(parts[0]) && address == Join(AddressParts(parts[1..]), ", ")
  {
    if place.name.None? || place.name.value == "" {
      return "", "";
    }
    var parts := Split(place.name.value, ',');
    name := Trim(parts[0]);
    address := "";
    if |parts| > 1 {
      var relevantParts: seq<string> := [];
      var i := 1;
      while i < |parts|
        invariant 1 <= i <= |parts|
        invariant relevantParts + AddressParts(parts[i..]) == AddressParts(parts[1..])
      {
        var part := Trim(parts[i]);
        AddressPartsNext(parts, i, relevantParts, AddressParts(parts[1..]));
        if IsAdministrative(part) {
          break;
        }
        relevantParts := relevantParts + [part];
        i := i + 1;
      }
      assert i == |parts| ==> parts[i..] == [] && relevantParts + [] == relevantParts;
      address := Join(relevantParts, ", ");
    }
  }

  /** With no comma in the display name there is no address. */
  lemma OnePartHasNoAddress(s: string)
    requires |Split(s, ',')| == 1
    ensures Join(AddressParts(Split(s, ',')[1..]), ", ") == ""
  {
  }

  // ---------------------------------------------------------------------------------------
  // The category guess of getInitialValues

  /** The keyword tests in the order they are made, with the category each one picks. */
  const KEYWORDS: seq<(string, Category)> := [
    ("кафе", CAFE), ("ресторан", RESTAURANT), ("кінотеатр", CINEMA), ("бібліотек", LIBRARY),
    ("магазин", SHOP), ("маркет", SHOP)
  ]

  /** The category of the first keyword, from position `i` of the table on, that `lower`
      contains, or OTHER. */
  function FirstKeyword(lower: string, table: seq<(string, Category)>, i: nat): Category
    decreases |table| - i
  {
    if i >= |table| then OTHER
    else if Includes(lower, table[i].0) then table[i].1
    else FirstKeyword(lower, table, i + 1)
  }

  /** `FirstKeyword` gives the category of the first entry whose keyword occurs, and OTHER
      when none does. */
  lemma {:induction false} FirstKeywordAt(lower: string, table: seq<(string, Category)>, i: nat, k: nat)
    requires i <= k <= |table|
    requires forall j :: i <= j < k ==> !Includes(lower, table[j].0)
    requires k < |table| ==> Includes(lower, table[k].0)
    ensures FirstKeyword(lower, table, i) == if k < |table| then table[k].1 else OTHER
    decreases k - i
  {
    if i < k {
      FirstKeywordAt(lower, table, i + 1, k);
    }
  }

  /** The if/else chain of `getInitialValues` on the lower-cased name. */
  function GuessCategory(name: string): Category {
    var lower := Lower(name);
    if Includes(lower, "кафе") then CAFE
    else if Includes(lower, "ресторан") then RESTAURANT
    else if Includes(lower, "кінотеатр") then CINEMA
    else if Includes(lower, "бібліотек") then LIBRARY
    else if Includes(lower, "магазин") || Includes(lower, "маркет") then SHOP
    else OTHER
  }

  /** The chain picks the category of the first keyword in the table that the lower-cased
      name contains, and OTHER when it contains none of them. */
  lemma GuessIsFirstKeyword(name: string)
    ensures GuessCategory(name) == FirstKeyword(Lower(name), KEYWORDS, 0)
  {
    var lower := Lower(name);
    assert |KEYWORDS| == 6;
    assert FirstKeyword(lower, KEYWORDS, 6) == OTHER;
    assert FirstKeyword(lower, KEYWORDS, 5) == if Includes(lower, "маркет") then SHOP else OTHER;
    assert FirstKeyword(lower, KEYWORDS, 4) == if Includes(lower, "магазин") then SHOP else FirstKeyword(lower, KEYWORDS, 5);
    assert FirstKeyword(lower, KEYWORDS, 3) == if Includes(lower, "бібліотек") then LIBRARY else FirstKeyword(lower, KEYWORDS, 4);
    assert FirstKeyword(lower, KEYWORDS, 2) == if Includes(lower, "кінотеатр") then CINEMA else FirstKeyword(lower, KEYWORDS, 3);
    assert FirstKeyword(lower, KEYWORDS, 1) == if Includes(lower, "ресторан") then RESTAURANT else FirstKeyword(lower, KEYWORDS, 2);
  }

  // ---------------------------------------------------------------------------------------
  // Initial values and the form schema

  /** The values of the form that a place needs; everything else has a default. */
  datatype PlaceFormData = PlaceFormData(
    name: string, address: string, lat: real, lon: real,
    wheelchairAccessible: bool, tactileElements: bool, brailleSignage: bool, accessibleToilets: bool,
    category: Category)

  /** `x || 0` on a coordinate: a missing or zero coordinate gives 0. */
  function OrZero(x: Option<real>): real {
    if x.Some? then x.value else 0.0
  }

  /** The form after `getInitialValues` has been applied to its defaults (the four flags
      stay false). */
  method InitialValues(place: SearchResult) returns (form: PlaceFormData)
    ensures place.name.None? || place.name.value == "" ==> form.name == "" && form.address == ""
    ensures place.name.Some? && place.name.value != "" ==>
      var parts := Split(place.name.value, ',');
      form.name == Trim(parts[0]) && form.address == Join(AddressParts(parts[1..]), ", ")
    ensures form.category == GuessCategory(form.name)
    ensures form.lat == OrZero(place.lat) && form.lon == OrZero(place.lon)
    ensures !form.wheelchairAccessible && !form.tactileElements && !form.brailleSignage && !form.accessibleToilets
  {
    var name, address := ParseSearchResult(place);
    form := PlaceFormData(name, address, OrZero(place.lat), OrZero(place.lon), false, false, false, false,
                          GuessCategory(name));
  }

  /** `placeFormSchema`: a non-empty name and a non-empty address; the numbers, flags and
      category are already typed. */
  predicate PlaceFormValid(data: PlaceFormData) {
    |data.name| >= 1 && |data.address| >= 1
  }

  /** A search result whose display name has no comma never fills a valid form by itself:
      the address has to be typed in. */
  lemma {:induction false} NoCommaNeedsAddress(place: SearchResult)
    requires place.name.Some? && ',' !in place.name.value
    ensures var parts := Split(place.name.value, ',');
      !PlaceFormValid(PlaceFormData(Trim(parts[0]), Join(AddressParts(parts[1..]), ", "),
                                    OrZero(place.lat), OrZero(place.lon), false, false, false, false, OTHER))
  {
    var s := place.name.value;
    SplitWithoutSeparator(s, ',');
  }

  /** A string without the separator splits into itself alone. */
  lemma {:induction false} SplitWithoutSeparator(s: string, sep: char)
    requires sep !in s
    ensures Split(s, sep) == [s]
  {
    if |s| > 0 {
      assert sep !in s[1..];
      SplitWithoutSeparator(s[1..], sep);
      assert [s[0]] + s[1..] == s;
    }
  }
}
