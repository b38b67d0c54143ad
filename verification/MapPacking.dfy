/** Packing the heights of a map tile: range, lower limit, choice of width, quantisation. */
module MapPacking {

  const USE_MIN_HEIGHT: real := -500.0
  const FLOAT_TO_INT8_LIMIT: real := 2.0
  const FLOAT_TO_INT16_LIMIT: real := 2048.0
  const FLAT_HEIGHT_DELTA_LIMIT: real := 0.005
  const NO_MAXIMUM: real := -20000.0
  const NO_MINIMUM: real := 20000.0

  datatype Conf = Conf(allowHeightLimit: bool, allowFloatToInt: bool)

  // ----- range of heights -----

  function Highest(s: seq<real>, start: real): real {
    if s == [] then start else Highest(s[1..], if start < s[0] then s[0] else start)
  }

  function Lowest(s: seq<real>, start: real): real {
    if s == [] then start else Lowest(s[1..], if start > s[0] then s[0] else start)
  }

  lemma {:induction false} RangeBounds(s: seq<real>, low: real, high: real)
    ensures Lowest(s, low) <= low && high <= Highest(s, high)
    ensures forall h :: h in s ==> Lowest(s, low) <= h <= Highest(s, high)
  {
    if s != [] {
      assert s == [s[0]] + s[1..];
      RangeBounds(s[1..], if low > s[0] then s[0] else low, if high < s[0] then s[0] else high);
    }
  }

  /** The two loops over a height array that track the extremes. */
  method FindRange(a: array<real>, low: real, high: real) returns (min: real, max: real)
    ensures min == Lowest(a[..], low) && max == Highest(a[..], high)
  {
    min, max := low, high;
    for i := 0 to a.Length
      invariant Lowest(a[i..], min) == Lowest(a[..], low)
      invariant Highest(a[i..], max) == Highest(a[..], high)
    {
      assert a[i..][0] == a[i] && a[i..][1..] == a[i + 1..];
      if max < a[i] { max := a[i]; }
      if min > a[i] { min := a[i]; }
    }
  }

  function Raised(h: real): real { if h < USE_MIN_HEIGHT then USE_MIN_HEIGHT else h }

  function AllRaised(s: seq<real>): seq<real> {
    seq(|s|, i requires 0 <= i < |s| => Raised(s[i]))
  }

  /** The clamp loop, in place. */
  method RaiseHeights(a: array<real>)
    modifies a
    ensures a[..] == AllRaised(old(a[..]))
  {
    for i := 0 to a.Length
      invariant forall k :: 0 <= k < i ==> a[k] == Raised(old(a[k]))
      invariant forall k :: i <= k < a.Length ==> a[k] == old(a[k])
    {
      if a[i] < USE_MIN_HEIGHT {
        a[i] := USE_MIN_HEIGHT;
      }
    }
  }

  // ----- choice of width -----

  datatype Mode = Flat | AsInt8 | AsInt16 | AsFloat

  function PackMode(conf: Conf, min: real, max: real): Mode {
    if max == min || (conf.allowFloatToInt && max - min < FLAT_HEIGHT_DELTA_LIMIT) then Flat
    else if !conf.allowFloatToInt then AsFloat
    else if max - min < FLOAT_TO_INT8_LIMIT then AsInt8
    else if max - min < FLOAT_TO_INT16_LIMIT then AsInt16
    else AsFloat
  }

  // ----- quantisation -----

  /** selectUInt8StepStore and selectUInt16StepStore: `levels` is 255 or 65535. */
  function StepStore(levels: nat, diff: real): real
    requires diff > 0.0
  {
    levels as real / diff
  }

  /** GridMap's multiplier on the stored integer. */
  function Decoded(levels: nat, min: real, max: real, q: int): real
    requires levels > 0
  {
    q as real * ((max - min) / levels as real) + min
  }

  /** Scaling up by `k` and down by `m` on a range of length `diff`. */
  lemma Scale(x: real, k: real, m: real, levels: real, diff: real)
    requires diff > 0.0 && levels > 0.0 && k * diff == levels && m * levels == diff
    ensures x * k * m == x
    ensures m > 0.0
    ensures 0.0 <= x <= diff ==> 0.0 <= x * k <= levels
  {
    assert k * m == 1.0 by {
      assert (k * m) * diff == 1.0 * diff;
      SameFactor(k * m, 1.0, diff);
    }
    assert x * k * m == x * (k * m);
    assert k > 0.0 && m > 0.0;
    if 0.0 <= x <= diff {
      assert x * k <= diff * k;
    }
  }

  lemma HalfStep(e: real, m: real)
    requires -0.5 <= e <= 0.5 && m >= 0.0
    ensures -(m / 2.0) <= e * m <= m / 2.0
  {
    assert e * m <= 0.5 * m && -0.5 * m <= e * m;
  }

  lemma SameFactor(x: real, y: real, n: real)
    requires n > 0.0 && x * n == y * n
    ensures x == y
  {
    assert x == x * n / n && y == y * n / n;
  }

  /** The integer stored for a height; the conversion of the code truncates, and the value is
      never negative nor too wide for its field. */
  function Quantised(levels: nat, min: real, max: real, h: real): (q: nat)
    requires levels > 0 && min < max && min <= h <= max
    ensures q <= levels
  {
    Scale(h - min, StepStore(levels, max - min), (max - min) / levels as real, levels as real, max - min);
    ((h - min) * StepStore(levels, max - min) + 0.5).Floor
  }

  /** A height within the range comes back within half a step. */
  lemma QuantisationIsFaithful(levels: nat, min: real, max: real, h: real)
    requires levels > 0 && min < max && min <= h <= max
    ensures var error := Decoded(levels, min, max, Quantised(levels, min, max, h)) - h;
            -HalfStepSize(levels, min, max) <= error <= HalfStepSize(levels, min, max)
  {
    var diff, n := max - min, levels as real;
    var k, m := StepStore(levels, diff), diff / n;
    var q := Quantised(levels, min, max, h);
    Scale(h - min, k, m, n, diff);
    var t := (h - min) * k;
    assert q as real <= t + 0.5 < q as real + 1.0;
    var e := q as real - t;
    HalfStep(e, m);
    assert q as real * m == e * m + t * m;
  }

  /** Half the distance of two neighbouring stored heights. */
  function HalfStepSize(levels: nat, min: real, max: real): real
    requires levels > 0
  {
    (max - min) / levels as real / 2.0
  }

  // ----- a whole tile -----

  datatype HeightData =
    | NoHeights
    | Int8Heights(v9: seq<nat>, v8: seq<nat>)
    | Int16Heights(w9: seq<nat>, w8: seq<nat>)
    | FloatHeights(f9: seq<real>, f8: seq<real>)

  datatype HeightSection = HeightSection(min: real, max: real, data: HeightData)

  function LowestOf(v9: seq<real>, v8: seq<real>): real { Lowest(v9, Lowest(v8, NO_MINIMUM)) }
  function HighestOf(v9: seq<real>, v8: seq<real>): real { Highest(v9, Highest(v8, NO_MAXIMUM)) }

  predicate Limited(conf: Conf, v9: seq<real>, v8: seq<real>) {
    conf.allowHeightLimit && LowestOf(v9, v8) < USE_MIN_HEIGHT
  }

  predicate Within(s: seq<real>, min: real, max: real) {
    forall i :: 0 <= i < |s| ==> min <= s[i] <= max
  }

  function QuantisedAll(levels: nat, min: real, max: real, s: seq<real>): (q: seq<nat>)
    requires levels > 0 && min < max && Within(s, min, max)
  {
    seq(|s|, i requires 0 <= i < |s| => Quantised(levels, min, max, s[i]))
  }

  function Pack(mode: Mode, min: real, max: real, v9: seq<real>, v8: seq<real>): HeightData
    requires mode.AsInt8? || mode.AsInt16? ==> min < max && Within(v9, min, max) && Within(v8, min, max)
  {
    match mode
    case Flat => NoHeights
    case AsInt8 => Int8Heights(QuantisedAll(255, min, max, v9), QuantisedAll(255, min, max, v8))
    case AsInt16 => Int16Heights(QuantisedAll(65535, min, max, v9), QuantisedAll(65535, min, max, v8))
    case AsFloat => FloatHeights(v9, v8)
  }

  lemma RangeHolds(v9: seq<real>, v8: seq<real>)
    ensures Within(v9, LowestOf(v9, v8), HighestOf(v9, v8))
    ensures Within(v8, LowestOf(v9, v8), HighestOf(v9, v8))
  {
    RangeBounds(v8, NO_MINIMUM, NO_MAXIMUM);
    RangeBounds(v9, Lowest(v8, NO_MINIMUM), Highest(v8, NO_MAXIMUM));
    forall i | 0 <= i < |v8| ensures LowestOf(v9, v8) <= v8[i] <= HighestOf(v9, v8) { assert v8[i] in v8; }
    forall i | 0 <= i < |v9| ensures LowestOf(v9, v8) <= v9[i] <= HighestOf(v9, v8) { assert v9[i] in v9; }
  }

  lemma RaisedRangeHolds(s: seq<real>, min: real, max: real)
    requires Within(s, min, max)
    ensures Within(AllRaised(s), Raised(min), Raised(max))
  {
  }

  /** The range, the limit and the packing of ConvertADT. */
  function PackHeights(conf: Conf, v9: seq<real>, v8: seq<real>): HeightSection
    requires v9 != []
  {
    var min, max := LowestOf(v9, v8), HighestOf(v9, v8);
    RangeHolds(v9, v8);
    if Limited(conf, v9, v8) then
      RaisedRangeHolds(v9, min, max);
      RaisedRangeHolds(v8, min, max);
      PackRange(conf, Raised(min), Raised(max), AllRaised(v9), AllRaised(v8))
    else PackRange(conf, min, max, v9, v8)
  }

  function PackRange(conf: Conf, min: real, max: real, v9: seq<real>, v8: seq<real>): HeightSection
    requires v9 != [] && Within(v9, min, max) && Within(v8, min, max)
  {
    assert min <= v9[0] <= max;
    HeightSection(min, max, Pack(PackMode(conf, min, max), min, max, v9, v8))
  }

  // ----- what the reader gets back -----

  /** GridMap's height at the corner (v9) or centre (v8) point `i`. */
  function HeightAt(s: HeightSection, corner: bool, i: nat): real
    requires s.data.Int8Heights? ==> i < if corner then |s.data.v9| else |s.data.v8|
    requires s.data.Int16Heights? ==> i < if corner then |s.data.w9| else |s.data.w8|
    requires s.data.FloatHeights? ==> i < if corner then |s.data.f9| else |s.data.f8|
  {
    match s.data
    case NoHeights => s.min
    case Int8Heights(v9, v8) => Decoded(255, s.min, s.max, if corner then v9[i] else v8[i])
    case Int16Heights(w9, w8) => Decoded(65535, s.min, s.max, if corner then w9[i] else w8[i])
    case FloatHeights(f9, f8) => if corner then f9[i] else f8[i]
  }

  /** The accuracy each form promises: 1/255 for eight bits, 1024/65535 for sixteen. */
  function Accuracy(data: HeightData): real {
    match data
    case NoHeights => FLAT_HEIGHT_DELTA_LIMIT
    case Int8Heights(_, _) => 1.0 / 255.0
    case Int16Heights(_, _) => 1024.0 / 65535.0
    case FloatHeights(_, _) => 0.0
  }

  predicate Close(a: real, b: real, bound: real) { -bound <= a - b <= bound }

  lemma HalfStepBounds(min: real, max: real)
    ensures min < max && max - min < FLOAT_TO_INT8_LIMIT ==> 0.0 < HalfStepSize(255, min, max) < 1.0 / 255.0
    ensures min < max && max - min < FLOAT_TO_INT16_LIMIT ==> 0.0 < HalfStepSize(65535, min, max) < 1024.0 / 65535.0
  {
  }

  lemma PackedPoint(conf: Conf, min: real, max: real, v9: seq<real>, v8: seq<real>, corner: bool, i: nat)
    requires v9 != [] && Within(v9, min, max) && Within(v8, min, max)
    requires i < if corner then |v9| else |v8|
    ensures var s := PackRange(conf, min, max, v9, v8);
            Close(HeightAt(s, corner, i), if corner then v9[i] else v8[i], Accuracy(s.data))
  {
    var h := if corner then v9[i] else v8[i];
    HalfStepBounds(min, max);
    match PackMode(conf, min, max)
    case Flat =>
    case AsInt8 => QuantisationIsFaithful(255, min, max, h);
    case AsInt16 => QuantisationIsFaithful(65535, min, max, h);
    case AsFloat =>
  }

  /** The height a tile should show at a point: its own, but not below the configured minimum. */
  function Wanted(conf: Conf, h: real): real {
    if conf.allowHeightLimit then Raised(h) else h
  }

  /** Whatever the configuration and the heights: every point comes back within the accuracy of
      the form that was chosen. */
  lemma HeightsAreRecovered(conf: Conf, v9: seq<real>, v8: seq<real>, corner: bool, i: nat)
    requires v9 != []
    requires i < if corner then |v9| else |v8|
    ensures var s := PackHeights(conf, v9, v8);
            Close(HeightAt(s, corner, i), Wanted(conf, if corner then v9[i] else v8[i]), Accuracy(s.data))
  {
    hide PackRange, HeightAt, Accuracy, Highest, Lowest;
    var min, max := LowestOf(v9, v8), HighestOf(v9, v8);
    RangeHolds(v9, v8);
    if Limited(conf, v9, v8) {
      RaisedRangeHolds(v9, min, max);
      RaisedRangeHolds(v8, min, max);
      PackedPoint(conf, Raised(min), Raised(max), AllRaised(v9), AllRaised(v8), corner, i);
    } else {
      PackedPoint(conf, min, max, v9, v8, corner, i);
    }
  }

  // ----- which form is chosen -----

  lemma {:induction false} RangeAttained(s: seq<real>, low: real, high: real)
    ensures Lowest(s, low) == low || Lowest(s, low) in s
    ensures Highest(s, high) == high || Highest(s, high) in s
  {
    if s != [] { RangeAttained(s[1..], if low > s[0] then s[0] else low, if high < s[0] then s[0] else high); }
  }

  /** `h` is the wanted height of some point. */
  predicate IsWanted(conf: Conf, v9: seq<real>, v8: seq<real>, h: real) {
    (exists i :: 0 <= i < |v9| && Wanted(conf, v9[i]) == h) || (exists i :: 0 <= i < |v8| && Wanted(conf, v8[i]) == h)
  }

  /** The range of a tile is that of its wanted heights, as long as these are below 20000 in
      either direction, and its spread decides the form: one height if there is none, or less than
      0.005 where rounding is allowed; then, if it is, 8 bits below 2, 16 bits below 2048; floats
      otherwise. */
  lemma FormExact(conf: Conf, v9: seq<real>, v8: seq<real>)
    requires v9 != [] && forall h :: h in v9 || h in v8 ==> -20000.0 < h < 20000.0
    ensures var s := PackHeights(conf, v9, v8); var spread := s.max - s.min; var round := conf.allowFloatToInt;
      && IsWanted(conf, v9, v8, s.min) && IsWanted(conf, v9, v8, s.max)
      && (forall i :: 0 <= i < |v9| ==> s.min <= Wanted(conf, v9[i]) <= s.max)
      && (forall i :: 0 <= i < |v8| ==> s.min <= Wanted(conf, v8[i]) <= s.max)
      && (s.data.NoHeights? <==> spread == 0.0 || (round && spread < 0.005))
      && (s.data.Int8Heights? <==> round && 0.005 <= spread < 2.0)
      && (s.data.Int16Heights? <==> round && 2.0 <= spread < 2048.0)
      && (s.data.FloatHeights? <==> if round then spread >= 2048.0 else spread != 0.0)
  {
    RangeHolds(v9, v8);
    var low, high := LowestOf(v9, v8), HighestOf(v9, v8);
    RangeInside(v9, v8);
    Attained(conf, v9, v8, low);
    Attained(conf, v9, v8, high);
    hide LowestOf, HighestOf, IsWanted, PackRange;
    if conf.allowHeightLimit && !Limited(conf, v9, v8) { assert Raised(low) == low && Raised(high) == high; }
    if Limited(conf, v9, v8) {
      RaisedRangeHolds(v9, low, high);
      RaisedRangeHolds(v8, low, high);
      RangeForm(conf, Raised(low), Raised(high), AllRaised(v9), AllRaised(v8));
    } else {
      RangeForm(conf, low, high, v9, v8);
    }
  }

  /** The extremes are heights of the tile. */
  lemma RangeInside(v9: seq<real>, v8: seq<real>)
    requires v9 != [] && forall h :: h in v9 || h in v8 ==> -20000.0 < h < 20000.0
    ensures LowestOf(v9, v8) in v9 || LowestOf(v9, v8) in v8
    ensures HighestOf(v9, v8) in v9 || HighestOf(v9, v8) in v8
  {
    RangeHolds(v9, v8);
    RangeAttained(v8, NO_MINIMUM, NO_MAXIMUM);
    RangeAttained(v9, Lowest(v8, NO_MINIMUM), Highest(v8, NO_MAXIMUM));
    assert v9[0] in v9 && LowestOf(v9, v8) <= v9[0] <= HighestOf(v9, v8);
    hide Lowest, Highest;
  }

  lemma RangeForm(conf: Conf, min: real, max: real, v9: seq<real>, v8: seq<real>)
    requires v9 != [] && Within(v9, min, max) && Within(v8, min, max)
    ensures var s := PackRange(conf, min, max, v9, v8); var spread := max - min; var round := conf.allowFloatToInt;
      && s.min == min && s.max == max
      && (s.data.NoHeights? <==> spread == 0.0 || (round && spread < 0.005))
      && (s.data.Int8Heights? <==> round && 0.005 <= spread < 2.0)
      && (s.data.Int16Heights? <==> round && 2.0 <= spread < 2048.0)
      && (s.data.FloatHeights? <==> if round then spread >= 2048.0 else spread != 0.0)
  {
    hide QuantisedAll;
    assert min <= v9[0] <= max;
  }

  lemma Attained(conf: Conf, v9: seq<real>, v8: seq<real>, h: real)
    requires h in v9 || h in v8
    ensures IsWanted(conf, v9, v8, Wanted(conf, h))
  {
    if h in v9 {
      var i :| 0 <= i < |v9| && v9[i] == h;
      assert Wanted(conf, v9[i]) == Wanted(conf, h);
    } else {
      var i :| 0 <= i < |v8| && v8[i] == h;
      assert Wanted(conf, v8[i]) == Wanted(conf, h);
    }
  }
}
