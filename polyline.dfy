/** The client's decoder for the Encoded Polyline Algorithm Format (the mapbox/polyline
    algorithm). A coordinate is kept as an integer scaled by 10^precision: the decoder only
    ever divides its running integer sums by that factor, so the scaled integer is what it
    computes exactly.

    The accumulator follows JavaScript's 32-bit bitwise operators: `result` is held as its
    unsigned 32-bit view, `x << shift` shifts by `shift % 32` and truncates to 32 bits, `|` is a
    bitwise or, and `charCodeAt` past the end of the string gives NaN, whose `& 0x1f` is 0 and
    whose `>= 0x20` is false. */
module Polyline {
  import opened Wrappers

  const TWO32: nat := 0x1_0000_0000

  /** A decoded point: latitude and longitude multiplied by the precision factor. */
  datatype Coord = Coord(lat: int, lng: int)

  function Pow2(n: nat): (r: nat)
    ensures r >= 1
  {
    if n == 0 then 1 else 2 * Pow2(n - 1)
  }

  function Pow10(n: nat): (r: nat)
    ensures r >= 1
  {
    if n == 0 then 1 else 10 * Pow10(n - 1)
  }

  lemma {:induction false} Pow2Monotonic(a: nat, b: nat)
    requires a <= b
    ensures Pow2(a) <= Pow2(b)
  {
    if a < b {
      Pow2Monotonic(a, b - 1);
    }
  }

  lemma {:induction false} Pow2Add(a: nat, b: nat)
    ensures Pow2(a + b) == Pow2(a) * Pow2(b)
  {
    if a > 0 {
      Pow2Add(a - 1, b);
    }
  }

  lemma Pow2Constants()
    ensures Pow2(5) == 32 && Pow2(30) == 0x4000_0000 && Pow2(32) == TWO32
  {
    assert Pow2(1) == 2;
    assert Pow2(2) == 4;
    assert Pow2(3) == 8;
    assert Pow2(4) == 16;
    assert Pow2(5) == 32;
    Pow2Add(5, 5);
    Pow2Add(10, 10);
    Pow2Add(20, 10);
    Pow2Add(30, 2);
  }

  /** Bitwise or of two naturals (their binary digits combined position by position). */
  function BitOr(a: nat, b: nat): (r: nat)
    ensures a <= r && b <= r && r <= a + b
    decreases a + b
  {
    if a == 0 then b
    else if b == 0 then a
    else 2 * BitOr(a / 2, b / 2) + (if a % 2 == 1 || b % 2 == 1 then 1 else 0)
  }

  /** Or-ing two n-bit values gives an n-bit value. */
  lemma {:induction false} BitOrBound(a: nat, b: nat, n: nat)
    requires a < Pow2(n) && b < Pow2(n)
    ensures BitOr(a, b) < Pow2(n)
  {
    if a != 0 && b != 0 {
      BitOrBound(a / 2, b / 2, n - 1);
    }
  }

  /** When the bits of `a` lie below position k and those of `c * 2^k` at or above it, or-ing
      them is adding them. */
  lemma {:induction false} BitOrDisjoint(a: nat, c: nat, k: nat)
    requires a < Pow2(k)
    ensures BitOr(a, c * Pow2(k)) == a + c * Pow2(k)
  {
    if a != 0 && c != 0 {
      var b := c * Pow2(k);
      assert k > 0;
      assert b == 2 * (c * Pow2(k - 1));
      BitOrDisjoint(a / 2, c, k - 1);
    }
  }

  /** JavaScript `str.charCodeAt(i)`; `None` stands for the NaN it gives past the end. */
  function CharCodeAt(s: string, i: nat): Option<int> {
    if i < |s| then Some(s[i] as int) else None
  }

  /** `byte = str.charCodeAt(index) - 63`, NaN staying NaN. */
  function ChunkAt(s: string, i: nat): Option<int> {
    match CharCodeAt(s, i)
    case Some(code) => Some(code - 63)
    case None => None
  }

  /** `byte & 0x1f`: the low five bits of the two's-complement value; NaN converts to 0. */
  function Low5(byte: Option<int>): (r: nat)
    ensures r < 32
  {
    match byte
    case Some(b) => b % 32
    case None => 0
  }

  /** `byte >= 0x20`, false for NaN. */
  predicate Continues(byte: Option<int>) {
    byte.Some? && byte.value >= 32
  }

  /** `x << shift` on 32-bit integers, as an unsigned 32-bit value. */
  function ShiftLeft32(x: nat, shift: nat): (r: nat)
    ensures r < TWO32
  {
    (x * Pow2(shift % 32)) % TWO32
  }

  /** The 32-bit two's-complement reading of an unsigned 32-bit value. */
  function Signed(u: nat): int {
    if u < 0x8000_0000 then u else u - TWO32
  }

  /** `result & 1 ? ~(result >> 1) : result >> 1`, on the 32-bit accumulator. */
  function ZigzagDecode(u: nat): int {
    var half := Signed(u) / 2;
    if u % 2 == 1 then -half - 1 else half
  }

  /** One do-while loop of the decoder, started at index `i` with the given `shift` and
      accumulator: the accumulated 32-bit value and the index after the last chunk read. */
  function ReadValue(s: string, i: nat, shift: nat, acc: nat): (r: (nat, nat))
    requires acc < TWO32
    ensures r.0 < TWO32 && r.1 > i
    ensures i >= |s| ==> r == (acc, i + 1)
    decreases |s| - i
  {
    var byte := ChunkAt(s, i);
    var shifted := ShiftLeft32(Low5(byte), shift);
    Pow2Constants();
    BitOrBound(acc, shifted, 32);
    var acc' := BitOr(acc, shifted);
    if Continues(byte) then ReadValue(s, i + 1, shift + 5, acc') else (acc', i + 1)
  }

  /** The (latitude change, longitude change) pairs the outer loop reads from index `i` on. */
  function Pairs(s: string, i: nat): (ds: seq<Coord>)
    decreases |s| - i
  {
    if i >= |s| then []
    else
      var (latValue, j) := ReadValue(s, i, 0, 0);
      var (lngValue, k) := ReadValue(s, j, 0, 0);
      [Coord(ZigzagDecode(latValue), ZigzagDecode(lngValue))] + Pairs(s, k)
  }

  /** The running sums `lat += latitude_change; lng += longitude_change`, from (lat, lng). */
  function PrefixSums(ds: seq<Coord>, lat: int, lng: int): (ps: seq<Coord>)
    ensures |ps| == |ds|
  {
    if ds == [] then []
    else
      var p := Coord(lat + ds[0].lat, lng + ds[0].lng);
      [p] + PrefixSums(ds[1..], p.lat, p.lng)
  }

  /** `isValidCoordinate(lat, lng)` on the degrees the decoder would emit. */
  predicate IsValidCoordinate(lat: real, lng: real) {
    -90.0 <= lat <= 90.0 && -180.0 <= lng <= 180.0
  }

  /** `isValidCoordinate(lat / factor, lng / factor)` stated on the scaled integers. */
  predicate InRange(c: Coord, factor: nat) {
    -90 * factor <= c.lat <= 90 * factor && -180 * factor <= c.lng <= 180 * factor
  }

  /** Dividing by a positive factor and comparing is comparing against the scaled bound. */
  lemma DivideCompare(x: real, f: real, b: real)
    requires f > 0.0
    ensures x / f <= b <==> x <= b * f
    ensures b <= x / f <==> b * f <= x
  {
    var q := x / f;
    assert q * f == x;
    assert (b - q) * f == b * f - x;
    if q <= b {
      assert (b - q) * f >= 0.0;
    } else {
      assert (q - b) * f > 0.0;
    }
  }

  /** Checking the scaled integers against the scaled bounds is checking the degrees. */
  lemma ScaledRange(c: Coord, factor: nat)
    requires factor > 0
    ensures InRange(c, factor) <==> IsValidCoordinate(c.lat as real / factor as real, c.lng as real / factor as real)
  {
    var f := factor as real;
    DivideCompare(c.lat as real, f, 90.0);
    DivideCompare(c.lat as real, f, -90.0);
    DivideCompare(c.lng as real, f, 180.0);
    DivideCompare(c.lng as real, f, -180.0);
  }

  /** The points that pass the range check, in their original order. */
  function KeepValid(ps: seq<Coord>, factor: nat): (r: seq<Coord>)
    ensures |r| <= |ps|
  {
    if ps == [] then []
    else (if InRange(ps[0], factor) then [ps[0]] else []) + KeepValid(ps[1..], factor)
  }

  /** What `polyline.decode(str, precision)` returns, scaled by `factor == 10^precision`. */
  function Decoded(s: string, factor: nat): seq<Coord> {
    KeepValid(PrefixSums(Pairs(s, 0), 0, 0), factor)
  }

  /** The inner do-while loop: reads one value starting at `start`. */
  method ReadChunks(str: string, start: nat) returns (result: nat, index: nat)
    ensures (result, index) == ReadValue(str, start, 0, 0)
  {
    index := start;
    result := 0;
    var shift := 0;
    var more := true;
    while more
      invariant result < TWO32
      invariant more ==> ReadValue(str, start, 0, 0) == ReadValue(str, index, shift, result)
      invariant !more ==> ReadValue(str, start, 0, 0) == (result, index)
      decreases more, |str| - index
    {
      var byte := ChunkAt(str, index);
      index := index + 1;
      Pow2Constants();
      BitOrBound(result, ShiftLeft32(Low5(byte), shift), 32);
      result := BitOr(result, ShiftLeft32(Low5(byte), shift));
      shift := shift + 5;
      more := Continues(byte);
    }
  }

  /** `polyline.decode(str, precision)`; precision defaults to 5. */
  method Decode(str: string, precision: nat := 5) returns (coordinates: seq<Coord>)
    ensures coordinates == Decoded(str, Pow10(precision))
    ensures str == [] ==> coordinates == []
  {
    var index := 0;
    var lat := 0;
    var lng := 0;
    coordinates := [];
    var factor := Pow10(precision);
    while index < |str|
      invariant coordinates + KeepValid(PrefixSums(Pairs(str, index), lat, lng), factor) == Decoded(str, factor)
      decreases |str| - index
    {
      var latitudeResult, middle := ReadChunks(str, index);
      var latitudeChange := ZigzagDecode(latitudeResult);
      var longitudeResult, next := ReadChunks(str, middle);
      var longitudeChange := ZigzagDecode(longitudeResult);
      ghost var previous := (index, lat, lng, coordinates);
      lat := lat + latitudeChange;
      lng := lng + longitudeChange;
      index := next;
      if InRange(Coord(lat, lng), factor) {
        coordinates := coordinates + [Coord(lat, lng)];
      }
      PairsFront(str, previous.0, latitudeResult, middle, longitudeResult, next);
      DecodeStep(Pairs(str, previous.0), Coord(latitudeChange, longitudeChange), Pairs(str, next), previous.1, previous.2,
                 factor, previous.3, Decoded(str, factor), coordinates);
    }
    PairsPastEnd(str, index, lat, lng, factor);
  }

  /** The loop's bookkeeping: pushing a kept point moves it from the points still to come
      to the points emitted. */
  lemma KeepOrSkip(emitted: seq<Coord>, rest: seq<Coord>, point: Coord, keep: bool, all: seq<Coord>, emitted': seq<Coord>)
    requires emitted + ((if keep then [point] else []) + rest) == all
    requires emitted' == if keep then emitted + [point] else emitted
    ensures emitted' + rest == all
  {
    if keep {
      assert (emitted + [point]) + rest == emitted + ([point] + rest);
    } else {
      assert [] + rest == rest;
    }
  }

  /** Past the end there are no more pairs, hence no more points. */
  lemma PairsPastEnd(s: string, i: nat, lat: int, lng: int, factor: nat)
    requires i >= |s|
    ensures KeepValid(PrefixSums(Pairs(s, i), lat, lng), factor) == []
  {
  }

  /** One round of the outer loop: the next change `d` gives the next point, which is pushed
      exactly when it is in range, and the loop invariant is kept. */
  lemma DecodeStep(ds: seq<Coord>, d: Coord, rest: seq<Coord>, lat: int, lng: int, factor: nat,
                   emitted: seq<Coord>, all: seq<Coord>, emitted': seq<Coord>)
    requires ds == [d] + rest
    requires emitted + KeepValid(PrefixSums(ds, lat, lng), factor) == all
    requires emitted' == if InRange(Coord(lat + d.lat, lng + d.lng), factor) then emitted + [Coord(lat + d.lat, lng + d.lng)] else emitted
    ensures emitted' + KeepValid(PrefixSums(rest, lat + d.lat, lng + d.lng), factor) == all
  {
    var point := Coord(lat + d.lat, lng + d.lng);
    KeepValidPrefixStep(d, rest, lat, lng, factor);
    KeepOrSkip(emitted, KeepValid(PrefixSums(rest, point.lat, point.lng), factor), point, InRange(point, factor), all, emitted');
  }

  /** Peeling one change off the front of the running sums and the filter. */
  lemma KeepValidPrefixStep(d: Coord, rest: seq<Coord>, lat: int, lng: int, factor: nat)
    ensures KeepValid(PrefixSums([d] + rest, lat, lng), factor)
         == (if InRange(Coord(lat + d.lat, lng + d.lng), factor) then [Coord(lat + d.lat, lng + d.lng)] else [])
            + KeepValid(PrefixSums(rest, lat + d.lat, lng + d.lng), factor)
  {
    var ds := [d] + rest;
    assert ds[0] == d && ds[1..] == rest;
    var ps := PrefixSums(ds, lat, lng);
    assert ps[0] == Coord(lat + d.lat, lng + d.lng);
    assert ps[1..] == PrefixSums(rest, lat + d.lat, lng + d.lng);
  }

  // ---------------------------------------------------------------------------------------
  // Properties of the decoder

  /** A value whose last chunk is cut off does not abort the decode: reading past the end
      adds no bits and ends the value. */
  lemma ReadPastEnd(s: string, i: nat, shift: nat, acc: nat)
    requires acc < TWO32 && i >= |s|
    ensures ReadValue(s, i, shift, acc) == (acc, i + 1)
  {
  }

  /** Filtering distributes over concatenation: the kept points keep their order. */
  lemma {:induction false} KeepValidAppend(a: seq<Coord>, b: seq<Coord>, factor: nat)
    ensures KeepValid(a + b, factor) == KeepValid(a, factor) + KeepValid(b, factor)
  {
    if a != [] {
      assert (a + b)[0] == a[0];
      assert (a + b)[1..] == a[1..] + b;
      KeepValidAppend(a[1..], b, factor);
    } else {
      assert a + b == b;
    }
  }

  /** Exactly the points in range are kept: every kept point is in range and came from the
      input, and every input point in range is kept. */
  lemma {:induction false} KeepValidExactly(ps: seq<Coord>, factor: nat)
    ensures forall c :: c in KeepValid(ps, factor) <==> c in ps && InRange(c, factor)
  {
    if ps != [] {
      KeepValidExactly(ps[1..], factor);
      assert ps == [ps[0]] + ps[1..];
    }
  }

  /** With every point in range nothing is dropped. */
  lemma {:induction false} KeepValidAll(ps: seq<Coord>, factor: nat)
    requires forall k :: 0 <= k < |ps| ==> InRange(ps[k], factor)
    ensures KeepValid(ps, factor) == ps
  {
    if ps != [] {
      KeepValidAll(ps[1..], factor);
    }
  }

  function SumLat(ds: seq<Coord>): int {
    if ds == [] then 0 else ds[0].lat + SumLat(ds[1..])
  }

  function SumLng(ds: seq<Coord>): int {
    if ds == [] then 0 else ds[0].lng + SumLng(ds[1..])
  }

  /** Every position is the sum of all changes up to it, whether or not the earlier points
      were dropped by the range check. */
  lemma {:induction false} PrefixSumAt(ds: seq<Coord>, lat: int, lng: int, k: nat)
    requires k < |ds|
    ensures PrefixSums(ds, lat, lng)[k] == Coord(lat + SumLat(ds[..k + 1]), lng + SumLng(ds[..k + 1]))
  {
    if k > 0 {
      PrefixSumAt(ds[1..], lat + ds[0].lat, lng + ds[0].lng, k - 1);
      assert ds[..k + 1][1..] == ds[1..][..k];
    } else {
      assert ds[..1][1..] == [];
    }
  }

  // ---------------------------------------------------------------------------------------
  // The encoder of the same format, and the round trip

  /** Zigzag encoding: 2v for v >= 0, and -2v - 1 (that is `~(v << 1)`) for v < 0. */
  function ZigzagEncode(v: int): nat {
    if v < 0 then -2 * v - 1 else 2 * v
  }

  /** Five-bit chunks, least significant first, 0x20 set on every chunk but the last, each
      offset by 63. */
  function EncodeChunks(z: nat): (e: string)
    ensures |e| >= 1
    decreases z
  {
    if z < 32 then [(z + 63) as char]
    else [(z % 32 + 32 + 63) as char] + EncodeChunks(z / 32)
  }

  /** The standard encoding of a point sequence, each point as its change from the previous
      one (the first from (lat, lng)). */
  function Encode(pts: seq<Coord>, lat: int, lng: int): string {
    if pts == [] then ""
    else
      EncodeChunks(ZigzagEncode(pts[0].lat - lat)) + EncodeChunks(ZigzagEncode(pts[0].lng - lng))
      + Encode(pts[1..], pts[0].lat, pts[0].lng)
  }

  /** The changes between consecutive points, the first measured from (lat, lng). */
  function Deltas(pts: seq<Coord>, lat: int, lng: int): (ds: seq<Coord>)
    ensures |ds| == |pts|
  {
    if pts == [] then []
    else [Coord(pts[0].lat - lat, pts[0].lng - lng)] + Deltas(pts[1..], pts[0].lat, pts[0].lng)
  }

  /** Every change of the sequence fits in 30 bits once zigzag-encoded, so that no chunk
      reaches the 32-bit overflow of `<<`. */
  predicate DeltasFit(pts: seq<Coord>, lat: int, lng: int) {
    pts == [] ||
    (ZigzagEncode(pts[0].lat - lat) < 0x4000_0000 && ZigzagEncode(pts[0].lng - lng) < 0x4000_0000
     && DeltasFit(pts[1..], pts[0].lat, pts[0].lng))
  }

  lemma ZigzagRoundTrip(v: int)
    requires ZigzagEncode(v) < 0x4000_0000
    ensures ZigzagDecode(ZigzagEncode(v)) == v
  {
  }

  lemma MulAtLeast(b: nat, p: nat)
    requires b >= 1
    ensures p <= b * p
  {
    assert b * p == p + (b - 1) * p;
  }

  /** Only exponents below 30 give powers below 2^30. */
  lemma SmallExponent(shift: nat)
    requires Pow2(shift) < 0x4000_0000
    ensures shift < 30
  {
    if shift >= 30 {
      Pow2Monotonic(30, shift);
      Pow2Constants();
      assert false;
    }
  }

  lemma ModSmall(x: nat)
    requires x < TWO32
    ensures x % TWO32 == x
  {
  }

  /** `b << shift` is exact while the shifted value stays below 2^30. */
  lemma ShiftExact(b: nat, shift: nat)
    requires b < 32 && b * Pow2(shift) < 0x4000_0000
    ensures ShiftLeft32(b, shift) == b * Pow2(shift)
  {
    if b > 0 {
      var p := Pow2(shift);
      MulAtLeast(b, p);
      SmallExponent(shift);
      assert shift % 32 == shift;
      assert Pow2(shift % 32) == p;
      var x := b * p;
      ModSmall(x);
      assert ShiftLeft32(b, shift) == x % TWO32;
    } else {
      assert ShiftLeft32(b, shift) == 0;
    }
  }

  /** The character at the start of an encoded value is its first chunk. */
  lemma EncodedChunkAt(s: string, i: nat, z: nat)
    requires i + |EncodeChunks(z)| <= |s| && s[i..i + |EncodeChunks(z)|] == EncodeChunks(z)
    ensures ChunkAt(s, i) == Some(if z < 32 then z else z % 32 + 32)
  {
    assert s[i] == s[i..i + |EncodeChunks(z)|][0];
  }

  lemma Pow2Plus5(n: nat)
    ensures Pow2(n + 5) == 32 * Pow2(n)
  {
    Pow2Add(n, 5);
    Pow2Constants();
  }

  /** Splitting off the low chunk of `z` at weight p. */
  lemma SplitLowChunk(z: nat, p: nat, acc: nat)
    requires acc < p
    ensures (z % 32) * p <= z * p
    ensures acc + (z % 32) * p < 32 * p
    ensures acc + (z % 32) * p + (z / 32) * (32 * p) == acc + z * p
  {
    var lo, hi := z % 32, z / 32;
    MulMonotonic(lo, z, p);
    MulMonotonic(lo, 31, p);
    Distributes(32 * hi, lo, p);
  }

  lemma MulMonotonic(a: nat, b: nat, c: nat)
    requires a <= b
    ensures a * c <= b * c
  {
  }

  lemma Distributes(a: nat, b: nat, c: nat)
    ensures (a + b) * c == a * c + b * c
  {
  }

  /** One step of `ReadValue` on a character that is present. */
  lemma ReadValueStep(s: string, i: nat, shift: nat, acc: nat, chunk: int, acc': nat)
    requires acc < TWO32 && i < |s| && ChunkAt(s, i) == Some(chunk)
    requires acc' == BitOr(acc, ShiftLeft32(chunk % 32, shift))
    ensures acc' < TWO32
    ensures ReadValue(s, i, shift, acc) == if chunk >= 32 then ReadValue(s, i + 1, shift + 5, acc') else (acc', i + 1)
  {
    Pow2Constants();
    BitOrBound(acc, ShiftLeft32(chunk % 32, shift), 32);
  }

  /** A final chunk (below 32) is or-ed in at its weight and ends the value. */
  lemma LastChunk(s: string, i: nat, z: nat, shift: nat, acc: nat)
    requires i < |s| && ChunkAt(s, i) == Some(z) && z < 32
    requires acc < Pow2(shift) && acc + z * Pow2(shift) < 0x4000_0000
    ensures acc < TWO32
    ensures ReadValue(s, i, shift, acc) == (acc + z * Pow2(shift), i + 1)
  {
    var zp := z * Pow2(shift);
    assert zp >= 0;
    assert acc < TWO32;
    assert ShiftLeft32(z % 32, shift) == zp by {
      ShiftExact(z, shift);
    }
    assert BitOr(acc, zp) == acc + zp by {
      BitOrDisjoint(acc, z, shift);
    }
    ReadValueStep(s, i, shift, acc, z, acc + zp);
  }

  /** A chunk with the continuation bit is or-ed in at its weight and the reading goes on
      five bits higher. */
  lemma MiddleChunk(s: string, i: nat, lo: nat, shift: nat, acc: nat)
    requires i < |s| && ChunkAt(s, i) == Some(lo + 32) && lo < 32
    requires acc < Pow2(shift) && acc + lo * Pow2(shift) < 0x4000_0000
    ensures acc < TWO32 && acc + lo * Pow2(shift) < TWO32
    ensures ReadValue(s, i, shift, acc) == ReadValue(s, i + 1, shift + 5, acc + lo * Pow2(shift))
  {
    var lp := lo * Pow2(shift);
    assert lp >= 0;
    assert acc < TWO32;
    assert ShiftLeft32((lo + 32) % 32, shift) == lp by {
      assert (lo + 32) % 32 == lo;
      ShiftExact(lo, shift);
    }
    assert BitOr(acc, lp) == acc + lp by {
      BitOrDisjoint(acc, lo, shift);
    }
    ReadValueStep(s, i, shift, acc, lo + 32, acc + lp);
  }

  /** Reading the chunks of `z` at index i, with `shift` and an accumulator holding only
      lower bits, adds z * 2^shift and stops right after them. */
  lemma {:induction false} ReadEncodedChunks(s: string, i: nat, z: nat, shift: nat, acc: nat)
    requires i + |EncodeChunks(z)| <= |s| && s[i..i + |EncodeChunks(z)|] == EncodeChunks(z)
    requires acc < Pow2(shift) && acc + z * Pow2(shift) < 0x4000_0000
    ensures acc < TWO32
    ensures ReadValue(s, i, shift, acc) == (acc + z * Pow2(shift), i + |EncodeChunks(z)|)
    decreases z
  {
    EncodedChunkAt(s, i, z);
    if z < 32 {
      LastChunk(s, i, z, shift, acc);
    } else {
      var acc' := acc + (z % 32) * Pow2(shift);
      assert acc' < Pow2(shift + 5) && acc' + (z / 32) * Pow2(shift + 5) == acc + z * Pow2(shift) by {
        NextChunkWeights(z, shift, acc);
      }
      assert ReadValue(s, i, shift, acc) == ReadValue(s, i + 1, shift + 5, acc') by {
        NextChunkWeights(z, shift, acc);
        MiddleChunk(s, i, z % 32, shift, acc);
      }
      assert |EncodeChunks(z)| == 1 + |EncodeChunks(z / 32)|
          && s[i + 1..i + 1 + |EncodeChunks(z / 32)|] == EncodeChunks(z / 32) by {
        EncodedTail(s, i, z);
      }
      ReadEncodedChunks(s, i + 1, z / 32, shift + 5, acc');
    }
  }

  /** Taking the low chunk of `z` into the accumulator leaves the rest of `z` to be read
      five bits higher. */
  lemma NextChunkWeights(z: nat, shift: nat, acc: nat)
    requires acc < Pow2(shift) && acc + z * Pow2(shift) < 0x4000_0000
    ensures var acc' := acc + (z % 32) * Pow2(shift);
      && acc' <= acc + z * Pow2(shift)
      && acc' < Pow2(shift + 5) && acc' + (z / 32) * Pow2(shift + 5) == acc + z * Pow2(shift)
  {
    SplitLowChunk(z, Pow2(shift), acc);
    Pow2Plus5(shift);
  }

  /** After the first chunk of a value of more than one chunk come the chunks of the rest. */
  lemma EncodedTail(s: string, i: nat, z: nat)
    requires z >= 32
    requires i + |EncodeChunks(z)| <= |s| && s[i..i + |EncodeChunks(z)|] == EncodeChunks(z)
    ensures |EncodeChunks(z)| == 1 + |EncodeChunks(z / 32)|
    ensures s[i + 1..i + 1 + |EncodeChunks(z / 32)|] == EncodeChunks(z / 32)
  {
    var e := EncodeChunks(z);
    var e' := EncodeChunks(z / 32);
    assert e == [e[0]] + e';
    assert s[i + 1..i + 1 + |e'|] == s[i..i + |e|][1..];
  }

  /** Reading one encoded value gives back its zigzag code. */
  lemma ReadEncodedValue(s: string, i: nat, z: nat)
    requires i + |EncodeChunks(z)| <= |s| && s[i..i + |EncodeChunks(z)|] == EncodeChunks(z)
    requires z < 0x4000_0000
    ensures ReadValue(s, i, 0, 0) == (z, i + |EncodeChunks(z)|)
  {
    Pow2Constants();
    ReadEncodedChunks(s, i, z, 0, 0);
  }

  /** The front of an encoded sequence: the two encoded changes of its first point, then
      the encoding of the remaining points. */
  lemma EncodeFront(s: string, i: nat, pts: seq<Coord>, lat: int, lng: int)
    requires pts != [] && i + |Encode(pts, lat, lng)| == |s| && s[i..] == Encode(pts, lat, lng)
    ensures var el := EncodeChunks(ZigzagEncode(pts[0].lat - lat));
            var eg := EncodeChunks(ZigzagEncode(pts[0].lng - lng));
            var j := i + |el|;
            var k := j + |eg|;
            k <= |s| && s[i..j] == el && s[j..k] == eg
            && s[k..] == Encode(pts[1..], pts[0].lat, pts[0].lng)
  {
    var el := EncodeChunks(ZigzagEncode(pts[0].lat - lat));
    var eg := EncodeChunks(ZigzagEncode(pts[0].lng - lng));
    var rest := Encode(pts[1..], pts[0].lat, pts[0].lng);
    var j := i + |el|;
    var k := j + |eg|;
    assert s[i..] == el + eg + rest;
    assert s[i..j] == s[i..][..|el|];
    assert s[j..k] == s[i..][|el|..|el| + |eg|];
    assert s[k..] == s[i..][|el| + |eg|..];
  }

  /** The pairs read from an encoding are the changes that were encoded. */
  lemma {:induction false} PairsOfEncoding(s: string, i: nat, pts: seq<Coord>, lat: int, lng: int)
    requires i + |Encode(pts, lat, lng)| == |s| && s[i..] == Encode(pts, lat, lng)
    requires DeltasFit(pts, lat, lng)
    ensures Pairs(s, i) == Deltas(pts, lat, lng)
    decreases |pts|
  {
    if pts != [] {
      var d := Coord(pts[0].lat - lat, pts[0].lng - lng);
      var k := i + |EncodeChunks(ZigzagEncode(d.lat))| + |EncodeChunks(ZigzagEncode(d.lng))|;
      assert Pairs(s, i) == [d] + Pairs(s, k) && s[k..] == Encode(pts[1..], pts[0].lat, pts[0].lng)
          && k + |Encode(pts[1..], pts[0].lat, pts[0].lng)| == |s| by {
        FirstPair(s, i, pts, lat, lng);
      }
      PairsOfEncoding(s, k, pts[1..], pts[0].lat, pts[0].lng);
    } else {
      assert i == |s|;
    }
  }

  /** The first pair read from an encoding is the first encoded change, and reading goes on
      at the encoding of the remaining points. */
  lemma FirstPair(s: string, i: nat, pts: seq<Coord>, lat: int, lng: int)
    requires pts != [] && i + |Encode(pts, lat, lng)| == |s| && s[i..] == Encode(pts, lat, lng)
    requires DeltasFit(pts, lat, lng)
    ensures var d := Coord(pts[0].lat - lat, pts[0].lng - lng);
            var k := i + |EncodeChunks(ZigzagEncode(d.lat))| + |EncodeChunks(ZigzagEncode(d.lng))|;
            Pairs(s, i) == [d] + Pairs(s, k) && s[k..] == Encode(pts[1..], pts[0].lat, pts[0].lng)
            && k + |Encode(pts[1..], pts[0].lat, pts[0].lng)| == |s|
  {
    var d := Coord(pts[0].lat - lat, pts[0].lng - lng);
    var zl := ZigzagEncode(d.lat);
    var zg := ZigzagEncode(d.lng);
    var j := i + |EncodeChunks(zl)|;
    var k := j + |EncodeChunks(zg)|;
    EncodeFront(s, i, pts, lat, lng);
    PairOfEncoding(s, i, zl, j, zg, k);
    ZigzagRoundTrip(d.lat);
    ZigzagRoundTrip(d.lng);
  }

  /** Two encoded values one after the other are read back as one pair. */
  lemma PairOfEncoding(s: string, i: nat, zl: nat, j: nat, zg: nat, k: nat)
    requires zl < 0x4000_0000 && zg < 0x4000_0000
    requires j == i + |EncodeChunks(zl)| && k == j + |EncodeChunks(zg)| && k <= |s|
    requires s[i..j] == EncodeChunks(zl) && s[j..k] == EncodeChunks(zg)
    ensures Pairs(s, i) == [Coord(ZigzagDecode(zl), ZigzagDecode(zg))] + Pairs(s, k)
  {
    assert i < |s| && ReadValue(s, i, 0, 0) == (zl, j) by {
      ReadEncodedValue(s, i, zl);
    }
    assert ReadValue(s, j, 0, 0) == (zg, k) by {
      ReadEncodedValue(s, j, zg);
    }
    PairsFront(s, i, zl, j, zg, k);
  }

  /** The first pair read at index i, and where reading goes on. */
  lemma PairsFront(s: string, i: nat, latValue: nat, j: nat, lngValue: nat, k: nat)
    requires i < |s|
    requires ReadValue(s, i, 0, 0) == (latValue, j) && ReadValue(s, j, 0, 0) == (lngValue, k)
    ensures Pairs(s, i) == [Coord(ZigzagDecode(latValue), ZigzagDecode(lngValue))] + Pairs(s, k)
  {
  }

  /** Summing the changes between consecutive points rebuilds the points. */
  lemma {:induction false} PrefixSumsOfDeltas(pts: seq<Coord>, lat: int, lng: int)
    ensures PrefixSums(Deltas(pts, lat, lng), lat, lng) == pts
  {
    if pts != [] {
      PrefixSumsOfDeltas(pts[1..], pts[0].lat, pts[0].lng);
    }
  }

  /** Points within the valid ranges at a precision of at most 6 digits have changes that
      fit in 30 bits. */
  lemma {:induction false} InRangeDeltasFit(pts: seq<Coord>, lat: int, lng: int, factor: nat)
    requires factor <= 1_000_000
    requires InRange(Coord(lat, lng), factor)
    requires forall k :: 0 <= k < |pts| ==> InRange(pts[k], factor)
    ensures DeltasFit(pts, lat, lng)
  {
    if pts != [] {
      assert InRange(pts[0], factor);
      InRangeDeltasFit(pts[1..], pts[0].lat, pts[0].lng, factor);
    }
  }

  /** Decoding the standard encoding of in-range points gives back exactly those points. */
  lemma DecodeEncode(pts: seq<Coord>, precision: nat)
    requires precision <= 6
    requires forall k :: 0 <= k < |pts| ==> InRange(pts[k], Pow10(precision))
    ensures Decoded(Encode(pts, 0, 0), Pow10(precision)) == pts
  {
    var s := Encode(pts, 0, 0);
    assert Pow10(precision) <= 1_000_000 by {
      var p := precision;
      assert p == 0 || p == 1 || p == 2 || p == 3 || p == 4 || p == 5 || p == 6;
    }
    InRangeDeltasFit(pts, 0, 0, Pow10(precision));
    PairsOfEncoding(s, 0, pts, 0, 0);
    PrefixSumsOfDeltas(pts, 0, 0);
    KeepValidAll(pts, Pow10(precision));
  }
}
