/** The flap helpers of the dashboard. A flap lever position is turned into
    its symbol by the first table entry within a tolerance; the optimal flap
    setting for a weight and a speed comes from speed bands given per weight,
    interpolated linearly between the two weights around the actual one. The
    tables are read from a JSON file at start-up; here they are parameters.
    Numbers are reals. */
module FlapUtils {
  import opened Outcomes

  // ---------------------------------------------------------------------------
  // get_flap_symbol(position, flap_data)

  /** The flap2symbol part of the JSON file: (position, symbol) pairs and the
      tolerance. */
  datatype FlapData = FlapData(table: seq<(real, string)>, tolerance: real)

  function Abs(x: real): real {
    if x < 0.0 then -x else x
  }

  /** An entry matches a position within the tolerance. */
  predicate Near(position: real, entry: (real, string), tolerance: real) {
    Abs(position - entry.0) <= tolerance
  }

  /** The symbol of the first entry at or after `from` that matches. */
  function FirstSymbol(table: seq<(real, string)>, position: real, tolerance: real, from: nat): (r: Option<string>)
    ensures r.None? <==> forall j :: from <= j < |table| ==> !Near(position, table[j], tolerance)
    ensures r.Some? ==> exists k :: from <= k < |table| && Near(position, table[k], tolerance)
                                    && r.value == table[k].1
                                    && forall j :: from <= j < k ==> !Near(position, table[j], tolerance)
    decreases |table| - from
  {
    if from >= |table| then None
    else if Near(position, table[from], tolerance) then Some(table[from].1)
    else FirstSymbol(table, position, tolerance, from + 1)
  }

  /** r is the symbol of the first entry of d's table within d's tolerance of
      the position, or None when no entry is. */
  predicate FirstMatch(d: FlapData, position: real, r: Option<string>) {
    && (r.None? <==> forall j :: 0 <= j < |d.table| ==> !Near(position, d.table[j], d.tolerance))
    && (r.Some? ==> exists k :: 0 <= k < |d.table| && Near(position, d.table[k], d.tolerance)
                                && r.value == d.table[k].1
                                && forall j :: 0 <= j < k ==> !Near(position, d.table[j], d.tolerance))
  }

  /** get_flap_symbol: an explicit flap_data replaces the table and tolerance
      loaded at start-up; the result is the symbol of the first entry in
      table order within the tolerance, or None. */
  function GetFlapSymbol(position: real, flapData: Option<FlapData>, loaded: FlapData): (r: Option<string>)
    ensures flapData.Some? ==> FirstMatch(flapData.value, position, r)
    ensures flapData.None? ==> FirstMatch(loaded, position, r)
  {
    var d := if flapData.None? then loaded else flapData.value;
    FirstSymbol(d.table, position, d.tolerance, 0)
  }

  // ---------------------------------------------------------------------------
  // get_optimal_flap(gewicht, geschwindigkeit)

  /** One speed band of the polar: its flap symbol (wk) and, per weight, the
      speed range [min, max] in km/h. A weight key is the decimal text of the
      weight in the file; here it is the weight itself. */
  datatype Band = Band(wk: string, speeds: map<real, seq<real>>)

  /** The two weights to interpolate between and how far the actual weight
      lies from the first towards the second. */
  datatype WeightBracket = WeightBracket(w1: real, w2: real, factor: real)

  /** The while loop: from idx, step on while the next weight is below g. */
  function WeightIndex(weights: seq<real>, g: real, idx: nat): (k: nat)
    requires idx < |weights|
    ensures idx <= k < |weights|
    ensures k + 1 < |weights| ==> g <= weights[k + 1]
    ensures forall j :: idx < j <= k ==> weights[j] < g
    decreases |weights| - idx
  {
    if idx < |weights| - 1 && weights[idx + 1] < g then WeightIndex(weights, g, idx + 1) else idx
  }

  /** The weights and factor of get_optimal_flap: a weight at or below the
      first entry or at or above the last clamps to it with factor 0;
      otherwise the first consecutive pair w1 < g <= w2, with factor
      (g - w1) / (w2 - w1). */
  function BracketOf(weights: seq<real>, g: real): (b: WeightBracket)
    requires weights != []
    ensures g <= weights[0] ==> b == WeightBracket(weights[0], weights[0], 0.0)
    ensures weights[0] < g && g >= weights[|weights| - 1] ==>
              b == WeightBracket(weights[|weights| - 1], weights[|weights| - 1], 0.0)
    ensures weights[0] < g < weights[|weights| - 1] ==>
              exists i :: 0 <= i < |weights| - 1 && b.w1 == weights[i] && b.w2 == weights[i + 1]
    ensures weights[0] < g < weights[|weights| - 1] ==> b.w1 < g <= b.w2
  {
    if g <= weights[0] then WeightBracket(weights[0], weights[0], 0.0)
    else if g >= weights[|weights| - 1] then WeightBracket(weights[|weights| - 1], weights[|weights| - 1], 0.0)
    else
      var idx := WeightIndex(weights, g, 0);
      assert weights[idx] < g;
      var w1 := weights[idx];
      var w2 := weights[idx + 1];
      WeightBracket(w1, w2, (g - w1) / (w2 - w1))
  }

  /** Between two consecutive weights the factor lies in (0, 1]; at the
      clamped ends it is 0. */
  lemma {:induction false} FactorRange(weights: seq<real>, g: real)
    requires weights != []
    ensures var b := BracketOf(weights, g);
            weights[0] < g < weights[|weights| - 1] ==> 0.0 < b.factor <= 1.0
    ensures var b := BracketOf(weights, g);
            !(weights[0] < g < weights[|weights| - 1]) ==> b.factor == 0.0 && b.w1 == b.w2
  {
    var b := BracketOf(weights, g);
    if weights[0] < g < weights[|weights| - 1] {
      var d := b.w2 - b.w1;
      assert b.factor * d == g - b.w1;
      if b.factor <= 0.0 {
        MulNonnegative(-b.factor, d);
      }
      if b.factor > 1.0 {
        MulPositive(b.factor - 1.0, d);
      }
    }
  }

  /** Between the end weights the factor places g on the line from w1 to
      w2: factor * (w2 - w1) == g - w1, the linear interpolation at g. */
  lemma BracketFactor(weights: seq<real>, g: real)
    requires weights != [] && weights[0] < g < weights[|weights| - 1]
    ensures var b := BracketOf(weights, g);
            b.w1 < b.w2 && b.factor * (b.w2 - b.w1) == g - b.w1
  {
  }

  lemma MulNonnegative(a: real, b: real)
    requires 0.0 <= a && 0.0 <= b
    ensures 0.0 <= a * b
  {
  }

  lemma DivSelf(d: real)
    requires d != 0.0
    ensures d / d == 1.0
  {
  }

  lemma MulPositive(a: real, b: real)
    requires 0.0 < a && 0.0 < b
    ensures 0.0 < a * b
  {
  }

  /** The interpolated bound v1 + factor * (v2 - v1). */
  function Interpolate(v1: real, v2: real, factor: real): real {
    v1 + factor * (v2 - v1)
  }

  /** An interpolated bound lies between the bounds of the two weights, and
      is the first weight's bound for factor 0. */
  lemma Interpolation(v1: real, v2: real, factor: real)
    requires 0.0 <= factor <= 1.0
    ensures v1 <= v2 ==> v1 <= Interpolate(v1, v2, factor) <= v2
    ensures v2 <= v1 ==> v2 <= Interpolate(v1, v2, factor) <= v1
    ensures factor == 0.0 ==> Interpolate(v1, v2, factor) == v1
  {
    var d := v2 - v1;
    var e := factor * d;
    assert (1.0 - factor) * d == d - e;
    assert factor * -d == -e && (1.0 - factor) * -d == e - d;
    if d >= 0.0 {
      MulNonnegative(factor, d);
      MulNonnegative(1.0 - factor, d);
    } else {
      MulNonnegative(factor, -d);
      MulNonnegative(1.0 - factor, -d);
    }
  }

  /** A speed range is used only if it is present and not empty (Python's
      truth value of a list). */
  predicate Truthy(range: Option<seq<real>>) {
    range.Some? && |range.value| > 0
  }

  /** speed_data.get(str(w)). */
  function Get(speeds: map<real, seq<real>>, w: real): Option<seq<real>> {
    if w in speeds then Some(speeds[w]) else None
  }

  /** The test of one band: with ranges for both weights, the speed must lie
      in the interpolated range; with a range for w1 only, in that range;
      otherwise the band is skipped. IndexError for a range with fewer than
      two bounds where the upper bound is read (a chained comparison that
      fails at the lower bound does not read it). */
  function BandHolds(band: Band, b: WeightBracket, v: real): (r: Result<bool>)
    ensures r.Err? ==> r.fault == IndexError
    ensures r == Ok(true) ==> Truthy(Get(band.speeds, b.w1))
    ensures var r1, r2 := Get(band.speeds, b.w1), Get(band.speeds, b.w2);
            Truthy(r1) && Truthy(r2) && 2 <= |r1.value| && 2 <= |r2.value| ==>
              r == Ok(Interpolate(r1.value[0], r2.value[0], b.factor) <= v <= Interpolate(r1.value[1], r2.value[1], b.factor))
    ensures var r1, r2 := Get(band.speeds, b.w1), Get(band.speeds, b.w2);
            Truthy(r1) && !Truthy(r2) && 2 <= |r1.value| ==> r == Ok(r1.value[0] <= v <= r1.value[1])
    ensures var r1, r2 := Get(band.speeds, b.w1), Get(band.speeds, b.w2);
            Truthy(r1) && !Truthy(r2) && v < r1.value[0] ==> r == Ok(false)
    ensures !Truthy(Get(band.speeds, b.w1)) ==> r == Ok(false)
    ensures var r1, r2 := Get(band.speeds, b.w1), Get(band.speeds, b.w2);
            r.Err? <==> Truthy(r1) && ((Truthy(r2) && (|r1.value| < 2 || |r2.value| < 2))
                                       || (!Truthy(r2) && |r1.value| < 2 && r1.value[0] <= v))
  {
    var r1 := Get(band.speeds, b.w1);
    var r2 := Get(band.speeds, b.w2);
    if Truthy(r1) && Truthy(r2) then
      if |r1.value| < 2 || |r2.value| < 2 then Err(IndexError)
      else
        var vMin := Interpolate(r1.value[0], r2.value[0], b.factor);
        var vMax := Interpolate(r1.value[1], r2.value[1], b.factor);
        Ok(vMin <= v <= vMax)
    else if Truthy(r1) then
      if r1.value[0] <= v then
        if |r1.value| < 2 then Err(IndexError) else Ok(v <= r1.value[1])
      else Ok(false)
    else Ok(false)
  }

  /** A speed inside a band's ranges for both weights is inside the range
      interpolated between them: the band holds at every weight in between. */
  lemma BandHoldsBetween(band: Band, b: WeightBracket, v: real)
    requires 0.0 <= b.factor <= 1.0
    requires Truthy(Get(band.speeds, b.w1)) && Truthy(Get(band.speeds, b.w2))
    requires var r1, r2 := Get(band.speeds, b.w1).value, Get(band.speeds, b.w2).value;
             2 <= |r1| && 2 <= |r2| && r1[0] <= v <= r1[1] && r2[0] <= v <= r2[1]
    ensures BandHolds(band, b, v) == Ok(true)
  {
    var r1, r2 := Get(band.speeds, b.w1).value, Get(band.speeds, b.w2).value;
    Interpolation(r1[0], r2[0], b.factor);
    Interpolation(r1[1], r2[1], b.factor);
  }

  /** At a clamped weight (both weights the same, factor 0) the interpolated
      test is the test of that weight's own range. */
  lemma BandHoldsClamped(band: Band, w: real, v: real)
    requires Truthy(Get(band.speeds, w)) && 2 <= |Get(band.speeds, w).value|
    ensures var r := Get(band.speeds, w).value;
            BandHolds(band, WeightBracket(w, w, 0.0), v) == Ok(r[0] <= v <= r[1])
  {
  }

  /** The wk of the first band at or after `from` whose test holds. */
  function FirstBand(bands: seq<Band>, b: WeightBracket, v: real, from: nat): (r: Result<Option<string>>)
    ensures r == Ok(None) ==> forall j :: from <= j < |bands| ==> BandHolds(bands[j], b, v) == Ok(false)
    ensures r.Ok? && r.value.Some? ==>
              exists k :: from <= k < |bands| && BandHolds(bands[k], b, v) == Ok(true)
                          && r.value.value == bands[k].wk
                          && forall j :: from <= j < k ==> BandHolds(bands[j], b, v) == Ok(false)
    ensures r.Err? ==> exists k :: from <= k < |bands| && BandHolds(bands[k], b, v) == Err(r.fault)
                                   && forall j :: from <= j < k ==> BandHolds(bands[j], b, v) == Ok(false)
    decreases |bands| - from
  {
    if from >= |bands| then Ok(None)
    else match BandHolds(bands[from], b, v)
      case Err(f) => Err(f)
      case Ok(true) => Ok(Some(bands[from].wk))
      case Ok(false) => FirstBand(bands, b, v, from + 1)
  }

  /** get_optimal_flap: None without weights or bands; otherwise the wk of the
      first band whose range for the weight holds the speed. */
  function OptimalFlap(weights: seq<real>, bands: seq<Band>, g: real, v: real): (r: Result<Option<string>>)
    ensures weights == [] || bands == [] ==> r == Ok(None)
  {
    if weights == [] || bands == [] then Ok(None)
    else FirstBand(bands, BracketOf(weights, g), v, 0)
  }

  /** The weight part of get_optimal_flap, with its while loop. */
  method FindWeights(weights: seq<real>, g: real) returns (b: WeightBracket)
    requires weights != []
    ensures b == BracketOf(weights, g)
  {
    var w1: real, w2: real, factor: real;
    if g <= weights[0] {
      w1, w2, factor := weights[0], weights[0], 0.0;
    } else if g >= weights[|weights| - 1] {
      w1, w2, factor := weights[|weights| - 1], weights[|weights| - 1], 0.0;
    } else {
      var idx := 0;
      while idx < |weights| - 1 && weights[idx + 1] < g
        invariant 0 <= idx < |weights| - 1
        invariant weights[idx] < g
        invariant WeightIndex(weights, g, 0) == WeightIndex(weights, g, idx)
      {
        idx := idx + 1;
      }
      w1 := weights[idx];
      w2 := weights[idx + 1];
      factor := (g - w1) / (w2 - w1);
    }
    b := WeightBracket(w1, w2, factor);
  }

  /** get_optimal_flap: the weights, then the first-match loop over the
      bands. */
  method GetOptimalFlap(weights: seq<real>, bands: seq<Band>, g: real, v: real) returns (r: Result<Option<string>>)
    ensures r == OptimalFlap(weights, bands, g, v)
  {
    if weights == [] || bands == [] {
      return Ok(None);
    }
    var b := FindWeights(weights, g);
    for i := 0 to |bands|
      invariant FirstBand(bands, b, v, 0) == FirstBand(bands, b, v, i)
    {
      var holds := BandHolds(bands[i], b, v);
      if holds.Err? {
        return Err(holds.fault);
      }
      if holds.value {
        return Ok(Some(bands[i].wk));
      }
    }
    return Ok(None);
  }

  /** At a weight that is itself a table entry between the ends, the bands of
      the weight below are interpolated up to this one: factor 1 reads this
      weight's ranges unchanged. */
  lemma {:induction false} ExactWeight(weights: seq<real>, i: nat)
    requires 0 < i < |weights| - 1
    requires forall j, k :: 0 <= j < k < |weights| ==> weights[j] < weights[k]
    ensures BracketOf(weights, weights[i]) == WeightBracket(weights[i - 1], weights[i], 1.0)
  {
    var g := weights[i];
    var k := WeightIndex(weights, g, 0);
    assert k == i - 1;
    DivSelf(weights[i] - weights[i - 1]);
  }

  // ---------------------------------------------------------------------------
  // The documented examples

  /** The example tables: weights 390, 430 and 550 kg and the bands L, +2 and
      0 with the ranges quoted beside the examples. */
  function ExampleWeights(): seq<real> {
    [390.0, 430.0, 550.0]
  }

  function ExampleBands(): seq<Band> {
    [Band("L", map[390.0 := [0.0, 76.0], 430.0 := [0.0, 80.0]]),
     Band("+2", map[390.0 := [76.0, 80.0], 430.0 := [80.0, 83.0]]),
     Band("0", map[430.0 := [94.0, 128.0], 550.0 := [106.0, 145.0]])]
  }

  /** 410 kg lies halfway between 390 and 430: band L spans [0, 78] and holds
      78 km/h. */
  lemma ExampleL()
    ensures OptimalFlap(ExampleWeights(), ExampleBands(), 410.0, 78.0) == Ok(Some("L"))
  {
    var w := ExampleWeights();
    assert WeightIndex(w, 410.0, 0) == 0;
    assert BracketOf(w, 410.0) == WeightBracket(390.0, 430.0, 0.5);
    assert BandHolds(ExampleBands()[0], WeightBracket(390.0, 430.0, 0.5), 78.0) == Ok(true);
  }

  /** 79 km/h at 410 kg is above L's [0, 78] and falls to +2, which spans
      [78, 81.5]. */
  lemma ExamplePlusTwo()
    ensures OptimalFlap(ExampleWeights(), ExampleBands(), 410.0, 79.0) == Ok(Some("+2"))
  {
    var w := ExampleWeights();
    var bs := ExampleBands();
    assert WeightIndex(w, 410.0, 0) == 0;
    assert BracketOf(w, 410.0) == WeightBracket(390.0, 430.0, 0.5);
    assert BandHolds(bs[0], WeightBracket(390.0, 430.0, 0.5), 79.0) == Ok(false);
    assert BandHolds(bs[1], WeightBracket(390.0, 430.0, 0.5), 79.0) == Ok(true);
  }

  /** At 500 kg the bands L and +2 have no range for 550 and use their 430
      range, and band 0 spans about [101, 137.9] and holds 130 km/h. */
  lemma ExampleZero()
    ensures OptimalFlap(ExampleWeights(), ExampleBands(), 500.0, 130.0) == Ok(Some("0"))
  {
    var w := ExampleWeights();
    var bs := ExampleBands();
    assert WeightIndex(w, 500.0, 0) == 1;
    var b := WeightBracket(430.0, 550.0, 70.0 / 120.0);
    assert BracketOf(w, 500.0) == b;
    assert BandHolds(bs[0], b, 130.0) == Ok(false);
    assert BandHolds(bs[1], b, 130.0) == Ok(false);
    assert BandHolds(bs[2], b, 130.0) == Ok(true);
  }
}
