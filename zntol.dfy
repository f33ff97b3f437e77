/**
 * `calculate_zntol`: the zero-net takeoff limit of the EMB-120 for an ISA
 * deviation, a minimum safe altitude and the fuel burned to the obstacle.
 *
 * The weight table the function reads (`all_points`, ISA deviation ->
 * (MSA -> weight)) is a parameter here; weights and altitudes are in pounds
 * and feet, as reals, and the outputs are the values before `round()`.
 */
module Zntol {
  import opened Common
  import opened Interp

  const StructuralMtow: real := 26433.0
  const MinMsa: real := 8000.0
  const MaxMsa: real := 26000.0
  const MinIsa: real := -20.0
  const MaxIsa: real := 30.0
  const StructuralMsaThreshold: real := 15000.0
  /** The lowest weight the result is clamped to. */
  const MinWeight: real := 4600.0
  /** Above this entered MSA the clearance offset is subtracted. */
  const OffsetAbove: real := 6000.0
  const ClearanceOffset: real := 1000.0
  /** Above this effective MSA the cold pull-down applies. */
  const PullDownAbove: real := 18000.0

  /** ISA deviation -> (MSA -> maximum weight at the obstacle). */
  type Table = map<real, map<real, real>>

  datatype Error =
    | IsaOutOfRange
    | MsaOutOfRange
    | NegativeFuelBurn
      /** `min()` over the keys of an empty table raises instead of returning. */
    | NoIsaRows

  /** Which path produced the obstacle weight (the `source` string). */
  datatype Source =
    | StructuralLimit
    | LinearInterp(closestIsa: real, fallback: bool, pulledDown: bool)

  datatype Outcome =
    | Failed(error: Error)
    | Computed(wObstacleMax: real, zntol: real, capped: bool, source: Source, effectiveMsa: real)

  /** The input checks, in the order the source makes them. */
  function Validate(isaDev: real, msa: real, fuelBurn: real): (e: Option<Error>)
    ensures e.None? <==> MinIsa <= isaDev <= MaxIsa && MinMsa <= msa <= MaxMsa && fuelBurn >= 0.0
    ensures e == Some(IsaOutOfRange) <==> isaDev < MinIsa || isaDev > MaxIsa
    ensures e == Some(MsaOutOfRange) <==> MinIsa <= isaDev <= MaxIsa && (msa < MinMsa || msa > MaxMsa)
    ensures e == Some(NegativeFuelBurn) <==> MinIsa <= isaDev <= MaxIsa && MinMsa <= msa <= MaxMsa && fuelBurn < 0.0
    ensures e != Some(NoIsaRows)
  {
    if isaDev < MinIsa || isaDev > MaxIsa then Some(IsaOutOfRange)
    else if msa < MinMsa || msa > MaxMsa then Some(MsaOutOfRange)
    else if fuelBurn < 0.0 then Some(NegativeFuelBurn)
    else None
  }

  function EffectiveMsa(msa: real): (eff: real)
    ensures msa > OffsetAbove ==> eff == msa - ClearanceOffset
    ensures msa <= OffsetAbove ==> eff == msa
  {
    if msa > OffsetAbove then msa - ClearanceOffset else msa
  }

  /** The cold/high pull-down, `max(0, -1500 * (isa_dev + 10) / 10)`. */
  function PullDown(isaDev: real): (p: real)
    ensures p >= 0.0
    ensures isaDev >= -10.0 ==> p == 0.0
    ensures isaDev < -10.0 ==> p == -150.0 * (isaDev + 10.0)
    ensures isaDev == -20.0 ==> p == 1500.0
  {
    Max(0.0, -1500.0 * (isaDev + 10.0) / 10.0)
  }

  /** `min(max(w, 4600), STRUCTURAL_MTOW)`. */
  function ClampWeight(w: real): (r: real)
    ensures MinWeight <= r <= StructuralMtow
    ensures MinWeight <= w <= StructuralMtow ==> r == w
    ensures w < MinWeight ==> r == MinWeight
    ensures w > StructuralMtow ==> r == StructuralMtow
  {
    Min(Max(w, MinWeight), StructuralMtow)
  }

  lemma ClampMonotone(a: real, b: real)
    requires a >= b
    ensures ClampWeight(a) >= ClampWeight(b)
  {
  }

  /** The selected ISA row: the key nearest `isaDev`, the lowest such key on a tie. */
  function ClosestIsa(table: Table, isaDev: real): (c: real)
    requires table != map[]
    ensures c in table
  {
    var isas := SortedKeys(table.Keys);
    isas[ClosestIndex(isas, isaDev)]
  }

  /** No key of the table is nearer `isaDev` than the selected one, and a tie goes to the lower key. */
  lemma ClosestIsaIsNearest(table: Table, isaDev: real)
    requires table != map[]
    ensures forall k | k in table :: Abs(ClosestIsa(table, isaDev) - isaDev) <= Abs(k - isaDev)
    ensures forall k | k in table && Abs(k - isaDev) == Abs(ClosestIsa(table, isaDev) - isaDev) ::
      ClosestIsa(table, isaDev) <= k
  {
    ClosestKeyIsLeast(SortedKeys(table.Keys), isaDev);
  }

  lemma ClosestKeyIsLeast(isas: seq<real>, t: real)
    requires |isas| > 0 && StrictlyIncreasing(isas)
    ensures forall k | k in isas :: Abs(isas[ClosestIndex(isas, t)] - t) <= Abs(k - t)
    ensures forall k | k in isas && Abs(k - t) == Abs(isas[ClosestIndex(isas, t)] - t) :: isas[ClosestIndex(isas, t)] <= k
  {
    var i := ClosestIndex(isas, t);
    forall k | k in isas
      ensures Abs(isas[i] - t) <= Abs(k - t)
      ensures Abs(k - t) == Abs(isas[i] - t) ==> isas[i] <= k
    {
      var m :| 0 <= m < |isas| && isas[m] == k;
      if Abs(k - t) == Abs(isas[i] - t) {
        ClosestTieGoesLow(isas, t, m);
      }
    }
  }

  /** A row's samples, in ascending MSA order, and the weights that go with them. */
  function RowMsas(row: map<real, real>): seq<real>
  {
    SortedKeys(row.Keys)
  }

  function RowWeights(row: map<real, real>): (ws: seq<real>)
    ensures |ws| == |RowMsas(row)|
    ensures forall k | 0 <= k < |ws| :: RowMsas(row)[k] in row && ws[k] == row[RowMsas(row)[k]]
  {
    var msas := RowMsas(row);
    seq(|msas|, k requires 0 <= k < |msas| => row[msas[k]])
  }

  /** Does the cold/high pull-down apply to this query? */
  predicate PullDownApplies(isaDev: real, eff: real)
  {
    isaDev <= 0.0 && eff > PullDownAbove
  }

  /**
   * The obstacle weight before the final clamp, with its source; None when the
   * interpolation path is reached with an empty table.
   */
  function RawObstacleWeight(table: Table, isaDev: real, eff: real): (r: Option<(real, Source)>)
    ensures r.None? <==> eff > StructuralMsaThreshold && table == map[]
  {
    if eff <= StructuralMsaThreshold then Some((StructuralMtow, StructuralLimit))
    else if table == map[] then None
    else
      var closest := ClosestIsa(table, isaDev);
      var points := table[closest];
      var msas := RowMsas(points);
      if |msas| < 2 then Some((StructuralMtow, LinearInterp(closest, true, false)))
      else
        var w := Interpolate(msas, RowWeights(points), eff);
        if PullDownApplies(isaDev, eff)
        then Some((w - PullDown(isaDev), LinearInterp(closest, false, true)))
        else Some((w, LinearInterp(closest, false, false)))
  }

  /** `zntol = min(w + fuel_burn, STRUCTURAL_MTOW)` and whether the cap was hit. */
  function AddFuel(w: real, fuelBurn: real): (z: (real, bool))
    ensures z.0 <= StructuralMtow
    ensures z.0 <= w + fuelBurn
    ensures z.0 == w + fuelBurn || z.0 == StructuralMtow
    ensures z.1 <==> w + fuelBurn > StructuralMtow
  {
    var uncapped := w + fuelBurn;
    (Min(uncapped, StructuralMtow), uncapped > StructuralMtow)
  }

  function CalculateZntol(table: Table, isaDev: real, msa: real, fuelBurn: real): (r: Outcome)
    // the three range checks, in order, each an error result with no weight
    ensures r == Failed(IsaOutOfRange) <==> isaDev < MinIsa || isaDev > MaxIsa
    ensures r == Failed(MsaOutOfRange) <==>
      MinIsa <= isaDev <= MaxIsa && (msa < MinMsa || msa > MaxMsa)
    ensures r == Failed(NegativeFuelBurn) <==>
      MinIsa <= isaDev <= MaxIsa && MinMsa <= msa <= MaxMsa && fuelBurn < 0.0
    ensures r == Failed(NoIsaRows) <==>
      Validate(isaDev, msa, fuelBurn) == None && msa - ClearanceOffset > StructuralMsaThreshold && table == map[]
    // every accepted query yields a clamped result assembled from it
    ensures r.Computed? ==>
      && r.effectiveMsa == msa - ClearanceOffset
      && MinWeight <= r.wObstacleMax <= StructuralMtow
      && r.wObstacleMax <= r.zntol <= StructuralMtow
      && r.zntol <= r.wObstacleMax + fuelBurn
      && (r.capped <==> r.wObstacleMax + fuelBurn > StructuralMtow)
      && (!r.capped ==> r.zntol == r.wObstacleMax + fuelBurn)
      && (r.capped ==> r.zntol == StructuralMtow)
  {
    match Validate(isaDev, msa, fuelBurn)
    case Some(e) => Failed(e)
    case None =>
      var eff := EffectiveMsa(msa);
      match RawObstacleWeight(table, isaDev, eff)
      case None => Failed(NoIsaRows)
      case Some((w, src)) =>
        var wc := ClampWeight(w);
        var (z, capped) := AddFuel(wc, fuelBurn);
        Computed(wc, z, capped, src, eff)
  }

  /** An accepted query's result is assembled from the raw obstacle weight at its effective MSA. */
  lemma CalculateFromRaw(table: Table, isaDev: real, msa: real, fuelBurn: real)
    requires Validate(isaDev, msa, fuelBurn) == None
    requires RawObstacleWeight(table, isaDev, msa - ClearanceOffset).Some?
    ensures
      var raw := RawObstacleWeight(table, isaDev, msa - ClearanceOffset).value;
      var w := ClampWeight(raw.0);
      CalculateZntol(table, isaDev, msa, fuelBurn) ==
        Computed(w, AddFuel(w, fuelBurn).0, AddFuel(w, fuelBurn).1, raw.1, msa - ClearanceOffset)
  {
  }

  /** The checks run before any lookup: a rejected query's result does not depend on the table. */
  lemma ValidationPrecedesLookup(t1: Table, t2: Table, isaDev: real, msa: real, fuelBurn: real)
    requires Validate(isaDev, msa, fuelBurn).Some?
    ensures CalculateZntol(t1, isaDev, msa, fuelBurn) == CalculateZntol(t2, isaDev, msa, fuelBurn)
    ensures CalculateZntol(t1, isaDev, msa, fuelBurn).Failed?
  {
  }

  /**
   * Up to MSA 16000 (effective MSA 15000, boundary included) the answer is the
   * structural weight, whatever the table, ISA deviation or fuel burn.
   */
  lemma StructuralShortCircuit(table: Table, isaDev: real, msa: real, fuelBurn: real)
    requires Validate(isaDev, msa, fuelBurn) == None
    requires msa <= StructuralMsaThreshold + ClearanceOffset
    ensures CalculateZntol(table, isaDev, msa, fuelBurn).Computed?
    ensures CalculateZntol(table, isaDev, msa, fuelBurn).wObstacleMax == StructuralMtow
    ensures CalculateZntol(table, isaDev, msa, fuelBurn).source == StructuralLimit
    ensures CalculateZntol(table, isaDev, msa, fuelBurn).zntol == StructuralMtow
    ensures CalculateZntol(table, isaDev, msa, fuelBurn).capped <==> fuelBurn > 0.0
  {
  }

  /** Above the threshold the table is consulted: the structural path is never taken. */
  lemma AboveThresholdInterpolates(table: Table, isaDev: real, msa: real, fuelBurn: real)
    requires Validate(isaDev, msa, fuelBurn) == None
    requires msa > StructuralMsaThreshold + ClearanceOffset
    requires table != map[]
    ensures CalculateZntol(table, isaDev, msa, fuelBurn).Computed?
    ensures CalculateZntol(table, isaDev, msa, fuelBurn).source ==
      LinearInterp(ClosestIsa(table, isaDev),
                   |table[ClosestIsa(table, isaDev)]| < 2,
                   |table[ClosestIsa(table, isaDev)]| >= 2 && PullDownApplies(isaDev, msa - ClearanceOffset))
  {
    assert |RowMsas(table[ClosestIsa(table, isaDev)])| == |table[ClosestIsa(table, isaDev)]|;
  }

  /** A nearest row with fewer than two samples falls back to the structural weight. */
  lemma SparseRowFallsBack(table: Table, isaDev: real, msa: real, fuelBurn: real)
    requires Validate(isaDev, msa, fuelBurn) == None
    requires msa > StructuralMsaThreshold + ClearanceOffset
    requires table != map[] && |table[ClosestIsa(table, isaDev)]| < 2
    ensures CalculateZntol(table, isaDev, msa, fuelBurn).Computed?
    ensures CalculateZntol(table, isaDev, msa, fuelBurn).wObstacleMax == StructuralMtow
  {
    assert |RowMsas(table[ClosestIsa(table, isaDev)])| == |table[ClosestIsa(table, isaDev)]|;
  }

  /**
   * When the effective MSA is sampled in the nearest row, the weight is that
   * sample, less the pull-down where it applies, then clamped.
   */
  lemma SampledAltitudeIsExact(table: Table, isaDev: real, msa: real, fuelBurn: real)
    requires Validate(isaDev, msa, fuelBurn) == None
    requires msa > StructuralMsaThreshold + ClearanceOffset
    requires table != map[]
    requires |table[ClosestIsa(table, isaDev)]| >= 2
    requires msa - ClearanceOffset in table[ClosestIsa(table, isaDev)]
    ensures CalculateZntol(table, isaDev, msa, fuelBurn).Computed?
    ensures CalculateZntol(table, isaDev, msa, fuelBurn).wObstacleMax ==
      ClampWeight(table[ClosestIsa(table, isaDev)][msa - ClearanceOffset]
                  - (if PullDownApplies(isaDev, msa - ClearanceOffset) then PullDown(isaDev) else 0.0))
  {
    RawAtSample(table, isaDev, msa - ClearanceOffset);
    CalculateFromRaw(table, isaDev, msa, fuelBurn);
  }

  lemma RawAtSample(table: Table, isaDev: real, eff: real)
    requires eff > StructuralMsaThreshold && table != map[]
    requires |table[ClosestIsa(table, isaDev)]| >= 2
    requires eff in table[ClosestIsa(table, isaDev)]
    ensures RawObstacleWeight(table, isaDev, eff).Some?
    ensures RawObstacleWeight(table, isaDev, eff).value.0 ==
      table[ClosestIsa(table, isaDev)][eff] - (if PullDownApplies(isaDev, eff) then PullDown(isaDev) else 0.0)
  {
    var row := table[ClosestIsa(table, isaDev)];
    var msas := RowMsas(row);
    assert |msas| >= 2;
    var k :| 0 <= k < |msas| && msas[k] == eff;
    InterpolateAtKnot(msas, RowWeights(row), k);
  }

  /**
   * Between two sampled altitudes of the nearest row, the weight before the
   * pull-down lies between the two samples.
   */
  lemma InterpolatedBetweenSamples(table: Table, isaDev: real, eff: real, k: nat)
    requires eff > StructuralMsaThreshold && table != map[]
    requires k + 1 < |RowMsas(table[ClosestIsa(table, isaDev)])|
    requires RowMsas(table[ClosestIsa(table, isaDev)])[k] <= eff <= RowMsas(table[ClosestIsa(table, isaDev)])[k + 1]
    ensures RawObstacleWeight(table, isaDev, eff).Some?
    ensures
      var row := table[ClosestIsa(table, isaDev)];
      var w := RawObstacleWeight(table, isaDev, eff).value.0
        + (if PullDownApplies(isaDev, eff) then PullDown(isaDev) else 0.0);
      Min(row[RowMsas(row)[k]], row[RowMsas(row)[k + 1]]) <= w <= Max(row[RowMsas(row)[k]], row[RowMsas(row)[k + 1]])
  {
    var row := table[ClosestIsa(table, isaDev)];
    InterpolateBetween(RowMsas(row), RowWeights(row), k, eff);
  }

  /** The pull-down never raises the weight, and applies only when cold and high. */
  lemma PullDownNeverRaises(table: Table, isaDev: real, eff: real)
    requires eff > StructuralMsaThreshold && table != map[]
    requires |table[ClosestIsa(table, isaDev)]| >= 2
    ensures RawObstacleWeight(table, isaDev, eff).Some?
    ensures
      var row := table[ClosestIsa(table, isaDev)];
      var interpolated := Interpolate(RowMsas(row), RowWeights(row), eff);
      && RawObstacleWeight(table, isaDev, eff).value.0 <= interpolated
      && (!PullDownApplies(isaDev, eff) ==> RawObstacleWeight(table, isaDev, eff).value.0 == interpolated)
  {
    assert |RowMsas(table[ClosestIsa(table, isaDev)])| == |table[ClosestIsa(table, isaDev)]|;
  }

  /**
   * For a row whose weights never rise with altitude, the obstacle weight
   * never rises with MSA either, across the whole accepted range.
   */
  lemma WeightFallsWithAltitude(table: Table, isaDev: real, msa1: real, msa2: real, fuelBurn: real)
    requires Validate(isaDev, msa1, fuelBurn) == None && Validate(isaDev, msa2, fuelBurn) == None
    requires msa1 <= msa2
    requires table != map[]
    requires NonIncreasing(RowWeights(table[ClosestIsa(table, isaDev)]))
    ensures CalculateZntol(table, isaDev, msa1, fuelBurn).Computed?
    ensures CalculateZntol(table, isaDev, msa2, fuelBurn).Computed?
    ensures CalculateZntol(table, isaDev, msa1, fuelBurn).wObstacleMax >=
            CalculateZntol(table, isaDev, msa2, fuelBurn).wObstacleMax
  {
    RawFallsWithAltitude(table, isaDev, msa1 - ClearanceOffset, msa2 - ClearanceOffset);
    CalculateFromRaw(table, isaDev, msa1, fuelBurn);
    CalculateFromRaw(table, isaDev, msa2, fuelBurn);
  }

  lemma RawFallsWithAltitude(table: Table, isaDev: real, eff1: real, eff2: real)
    requires eff1 <= eff2 && table != map[]
    requires NonIncreasing(RowWeights(table[ClosestIsa(table, isaDev)]))
    ensures RawObstacleWeight(table, isaDev, eff1).Some? && RawObstacleWeight(table, isaDev, eff2).Some?
    ensures ClampWeight(RawObstacleWeight(table, isaDev, eff1).value.0) >=
            ClampWeight(RawObstacleWeight(table, isaDev, eff2).value.0)
  {
    var row := table[ClosestIsa(table, isaDev)];
    var w1 := RawObstacleWeight(table, isaDev, eff1).value.0;
    var w2 := RawObstacleWeight(table, isaDev, eff2).value.0;
    if eff1 <= StructuralMsaThreshold {
      assert w1 == StructuralMtow;
    } else if |RowMsas(row)| < 2 {
      assert w1 == StructuralMtow && w2 == StructuralMtow;
    } else {
      InterpolateMonotone(RowMsas(row), RowWeights(row), eff1, eff2);
      RawAboveThreshold(table, isaDev, eff1);
      RawAboveThreshold(table, isaDev, eff2);
      ClampMonotone(w1, w2);
    }
  }

  /** Above the structural threshold a row of two or more samples gives the interpolated weight less any pull-down. */
  lemma RawAboveThreshold(table: Table, isaDev: real, eff: real)
    requires eff > StructuralMsaThreshold && table != map[]
    requires |RowMsas(table[ClosestIsa(table, isaDev)])| >= 2
    ensures RawObstacleWeight(table, isaDev, eff).Some?
    ensures
      var row := table[ClosestIsa(table, isaDev)];
      RawObstacleWeight(table, isaDev, eff).value.0 ==
        Interpolate(RowMsas(row), RowWeights(row), eff) - (if PullDownApplies(isaDev, eff) then PullDown(isaDev) else 0.0)
  {
  }
}
