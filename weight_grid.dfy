/**
 * The module-level weight grid of the calculator, as values: an ISA-deviation
 * by MSA grid of optional weights (None for a NaN cell), the two chart fills
 * that write it, and the 3x3 neighbourhood mean (`generic_filter` with
 * `np.nanmean`, off-grid positions counted as missing) that replaces every
 * cell at the end. The array methods in GridBuild are proved against these.
 */
module WeightGrid {
  import opened Common

  /** Rows are ISA deviations, columns MSAs. */
  type Grid = seq<seq<Option<real>>>

  // ---------------------------------------------------------------------
  // Configuration data: the axes and the two charts
  // ---------------------------------------------------------------------

  const IsaAxis: seq<int> := [-20, -15, -10, -5, 0, 5, 10, 15, 20, 25, 30]
  const MsaAxis: seq<int> :=
    [8000, 10000, 12000, 14000, 16000, 18000, 19000, 20000, 21000, 22000, 23000, 24000, 25000, 26000]
  /** The altitudes of the high-altitude chart, in the order of its rows. */
  const HighMsas: seq<int> := [19000, 20000, 21000, 22000, 23000, 24000, 25000, 26000]

  /** The high-altitude chart: ISA deviation -> weights at HighMsas. */
  const HighData: map<int, seq<real>> := map[
    -20 := [25000.0, 25000.0, 24400.0, 23200.0, 21900.0, 20600.0, 19400.0, 18000.0],
    -15 := [25000.0, 25000.0, 23600.0, 22200.0, 20900.0, 19600.0, 18400.0, 17100.0],
    -10 := [25000.0, 24100.0, 22600.0, 21300.0, 19900.0, 18600.0, 17400.0, 16100.0],
    -5 := [24600.0, 23100.0, 21700.0, 20300.0, 19000.0, 17700.0, 16400.0, 15100.0],
    0 := [23600.0, 22200.0, 20800.0, 19400.0, 18000.0, 16700.0, 15400.0, 14100.0],
    5 := [22600.0, 21100.0, 19700.0, 18300.0, 17000.0, 15700.0, 14300.0, 13000.0],
    10 := [21600.0, 20000.0, 18600.0, 17200.0, 15900.0, 14500.0, 13100.0, 11700.0],
    15 := [20600.0, 19000.0, 17500.0, 16000.0, 14700.0, 13300.0, 11900.0, 10400.0],
    20 := [19400.0, 17900.0, 16300.0, 14900.0, 13200.0, 11800.0, 10400.0, 8800.0],
    25 := [18200.0, 16600.0, 15000.0, 13500.0, 12000.0, 10400.0, 8700.0, 6900.0],
    30 := [16400.0, 14800.0, 13200.0, 11600.0, 9900.0, 8100.0, 6400.0, 4600.0]
  ]

  /** The low-altitude chart: ISA deviation -> (MSA -> weight). */
  const LowData: map<int, map<int, real>> := map[
    0 := map[23000 := 19350.0, 22000 := 20100.0, 20000 := 21550.0, 18000 := 23000.0, 16000 := 24550.0],
    5 := map[22000 := 19350.0, 20000 := 20750.0, 18000 := 22200.0, 16000 := 23700.0, 14000 := 25200.0,
             12000 := 26433.0],
    10 := map[20000 := 20000.0, 18000 := 21450.0, 16000 := 22950.0, 14000 := 24400.0, 12000 := 25750.0,
              10000 := 26433.0],
    15 := map[20000 := 19300.0, 18000 := 20650.0, 16000 := 22000.0, 14000 := 23450.0, 12000 := 24850.0,
              10000 := 26433.0],
    20 := map[18000 := 19900.0, 16000 := 21200.0, 14000 := 22500.0, 12000 := 23950.0, 10000 := 25300.0,
              8000 := 26433.0]
  ]

  // ---------------------------------------------------------------------
  // Grid shape and lookups
  // ---------------------------------------------------------------------

  predicate IsRect(G: Grid, rows: nat, cols: nat)
  {
    |G| == rows && forall i | 0 <= i < rows :: |G[i]| == cols
  }

  predicate Distinct(s: seq<int>)
  {
    forall a, b | 0 <= a < b < |s| :: s[a] != s[b]
  }

  /**
   * The first position of `x` in `s`: `list.index(x)` when `x` occurs, and
   * `np.where(s == x)[0][0]` guarded by `len(...) > 0`.
   */
  function Find(s: seq<int>, x: int): (r: Option<nat>)
    ensures r.Some? ==> r.value < |s| && s[r.value] == x
    ensures r.None? <==> x !in s
  {
    if |s| == 0 then None
    else if s[0] == x then Some(0)
    else match Find(s[1..], x)
      case None => None
      case Some(k) => Some(k + 1)
  }

  /** The position found is the first that holds `x`, as `np.where(...)[0][0]` is. */
  lemma {:induction false} FindIsFirst(s: seq<int>, x: int)
    ensures Find(s, x).Some? ==> forall m | 0 <= m < Find(s, x).value :: s[m] != x
  {
    if |s| > 0 && s[0] != x {
      FindIsFirst(s[1..], x);
      if Find(s, x).Some? {
        forall m | 0 <= m < Find(s, x).value ensures s[m] != x {
          if m > 0 {
            assert s[m] == s[1..][m - 1];
          }
        }
      }
    }
  }

  /** In a sequence without repeats, every element is found where it stands. */
  lemma FindAt(s: seq<int>, k: nat)
    requires Distinct(s) && k < |s|
    ensures Find(s, s[k]) == Some(k)
  {
  }

  /** `np.full((rows, cols), np.nan)`. */
  function EmptyGrid(rows: nat, cols: nat): (G: Grid)
    ensures IsRect(G, rows, cols)
    ensures forall i, j | 0 <= i < rows && 0 <= j < cols :: G[i][j].None?
  {
    seq(rows, _ => seq(cols, _ => None))
  }

  // ---------------------------------------------------------------------
  // The high-altitude fill
  // ---------------------------------------------------------------------

  /** Every chart row the fill reads has a weight for each chart altitude. */
  predicate HighRowsLongEnough(isaAxis: seq<int>, highMsas: seq<int>, high: map<int, seq<real>>)
  {
    forall i | 0 <= i < |isaAxis| && isaAxis[i] in high :: |highMsas| <= |high[isaAxis[i]]|
  }

  lemma HighDataFitsAxes()
    ensures HighRowsLongEnough(IsaAxis, HighMsas, HighData)
  {
    assert forall isa | isa in HighData :: |HighData[isa]| == |HighMsas|;
  }

  /** Cell (i, j) after the high-altitude fill, given its value before. */
  function HighCell(prev: Option<real>, isaAxis: seq<int>, msaAxis: seq<int>, highMsas: seq<int>,
                    high: map<int, seq<real>>, i: nat, j: nat): Option<real>
    requires i < |isaAxis| && j < |msaAxis| && HighRowsLongEnough(isaAxis, highMsas, high)
  {
    if isaAxis[i] in high && msaAxis[j] in highMsas
    then
      var k := Find(highMsas, msaAxis[j]).value;
      assert highMsas[k] == msaAxis[j];
      Some(high[isaAxis[i]][k])
    else prev
  }

  function HighFill(G: Grid, isaAxis: seq<int>, msaAxis: seq<int>, highMsas: seq<int>,
                    high: map<int, seq<real>>): (H: Grid)
    requires IsRect(G, |isaAxis|, |msaAxis|) && HighRowsLongEnough(isaAxis, highMsas, high)
    ensures IsRect(H, |isaAxis|, |msaAxis|)
  {
    seq(|isaAxis|, i requires 0 <= i < |isaAxis| =>
      seq(|msaAxis|, j requires 0 <= j < |msaAxis| => HighCell(G[i][j], isaAxis, msaAxis, highMsas, high, i, j)))
  }

  /**
   * After the high-altitude fill of an empty grid, row `i` holds the chart's
   * k-th weight in the column of the k-th chart altitude ...
   */
  lemma HighFillOfEmptyHit(isaAxis: seq<int>, msaAxis: seq<int>, highMsas: seq<int>, high: map<int, seq<real>>,
                           i: nat, j: nat, k: nat)
    requires HighRowsLongEnough(isaAxis, highMsas, high)
    requires Distinct(highMsas) && i < |isaAxis| && j < |msaAxis| && k < |highMsas|
    requires isaAxis[i] in high && msaAxis[j] == highMsas[k]
    ensures k < |high[isaAxis[i]]|
    ensures HighFill(EmptyGrid(|isaAxis|, |msaAxis|), isaAxis, msaAxis, highMsas, high)[i][j]
         == Some(high[isaAxis[i]][k])
  {
    var H := HighFill(EmptyGrid(|isaAxis|, |msaAxis|), isaAxis, msaAxis, highMsas, high);
    FindAt(highMsas, k);
    assert H[i][j] == HighCell(None, isaAxis, msaAxis, highMsas, high, i, j);
  }

  /** ... and every other cell is still missing. */
  lemma HighFillOfEmptyMiss(isaAxis: seq<int>, msaAxis: seq<int>, highMsas: seq<int>, high: map<int, seq<real>>,
                            i: nat, j: nat)
    requires HighRowsLongEnough(isaAxis, highMsas, high)
    requires i < |isaAxis| && j < |msaAxis|
    requires isaAxis[i] !in high || msaAxis[j] !in highMsas
    ensures HighFill(EmptyGrid(|isaAxis|, |msaAxis|), isaAxis, msaAxis, highMsas, high)[i][j].None?
  {
    var H := HighFill(EmptyGrid(|isaAxis|, |msaAxis|), isaAxis, msaAxis, highMsas, high);
    assert H[i][j] == HighCell(None, isaAxis, msaAxis, highMsas, high, i, j);
  }

  // ---------------------------------------------------------------------
  // The low-altitude fill
  // ---------------------------------------------------------------------

  /**
   * Does the low-altitude chart write cell (i, j)? Only at the first row with
   * the entry's ISA and the first column with its MSA.
   */
  predicate LowWrites(isaAxis: seq<int>, msaAxis: seq<int>, low: map<int, map<int, real>>, i: nat, j: nat)
    requires i < |isaAxis| && j < |msaAxis|
  {
    isaAxis[i] in low && Find(isaAxis, isaAxis[i]) == Some(i) && ColumnWritten(msaAxis, low[isaAxis[i]], j)
  }

  /** Does one chart row write column c? Only at the first column with that MSA. */
  predicate ColumnWritten(msaAxis: seq<int>, data: map<int, real>, c: nat)
    requires c < |msaAxis|
  {
    msaAxis[c] in data && Find(msaAxis, msaAxis[c]) == Some(c)
  }

  /** Cell (i, j) after the low-altitude fill, given its value before. */
  function LowCell(prev: Option<real>, isaAxis: seq<int>, msaAxis: seq<int>, low: map<int, map<int, real>>,
                   i: nat, j: nat): Option<real>
    requires i < |isaAxis| && j < |msaAxis|
  {
    if LowWrites(isaAxis, msaAxis, low, i, j) then Some(low[isaAxis[i]][msaAxis[j]]) else prev
  }

  function LowFill(G: Grid, isaAxis: seq<int>, msaAxis: seq<int>, low: map<int, map<int, real>>): (H: Grid)
    requires IsRect(G, |isaAxis|, |msaAxis|)
    ensures IsRect(H, |isaAxis|, |msaAxis|)
  {
    seq(|isaAxis|, i requires 0 <= i < |isaAxis| =>
      seq(|msaAxis|, j requires 0 <= j < |msaAxis| => LowCell(G[i][j], isaAxis, msaAxis, low, i, j)))
  }

  /** One cell of the low-altitude fill: the chart's weight where it writes, the previous value elsewhere. */
  lemma LowFillAt(G: Grid, isaAxis: seq<int>, msaAxis: seq<int>, low: map<int, map<int, real>>, i: nat, j: nat)
    requires IsRect(G, |isaAxis|, |msaAxis|) && i < |isaAxis| && j < |msaAxis|
    ensures LowWrites(isaAxis, msaAxis, low, i, j) ==>
      LowFill(G, isaAxis, msaAxis, low)[i][j] == Some(low[isaAxis[i]][msaAxis[j]])
    ensures !LowWrites(isaAxis, msaAxis, low, i, j) ==> LowFill(G, isaAxis, msaAxis, low)[i][j] == G[i][j]
  {
    assert LowFill(G, isaAxis, msaAxis, low)[i][j] == LowCell(G[i][j], isaAxis, msaAxis, low, i, j);
  }

  /** Every low-altitude entry whose ISA and MSA are both on the grid lands in its cell, overriding what was there. */
  lemma LowFillWritesEntry(G: Grid, isaAxis: seq<int>, msaAxis: seq<int>, low: map<int, map<int, real>>,
                           isa: int, msa: int)
    requires IsRect(G, |isaAxis|, |msaAxis|)
    requires isa in low && msa in low[isa] && isa in isaAxis && msa in msaAxis
    ensures Find(isaAxis, isa).Some? && Find(msaAxis, msa).Some?
    ensures LowFill(G, isaAxis, msaAxis, low)[Find(isaAxis, isa).value][Find(msaAxis, msa).value] == Some(low[isa][msa])
  {
  }

  /** A cell that differs after the low-altitude fill is the first on-grid position of some entry. */
  lemma LowFillChangesOnlyEntries(G: Grid, isaAxis: seq<int>, msaAxis: seq<int>, low: map<int, map<int, real>>,
                                  i: nat, j: nat)
    requires IsRect(G, |isaAxis|, |msaAxis|) && i < |isaAxis| && j < |msaAxis|
    requires LowFill(G, isaAxis, msaAxis, low)[i][j] != G[i][j]
    ensures exists isa, msa :: isa in low && msa in low[isa] && Find(isaAxis, isa) == Some(i) && Find(msaAxis, msa) == Some(j)
  {
    assert LowWrites(isaAxis, msaAxis, low, i, j);
  }

  /** An entry whose ISA is not on the grid writes nothing. */
  lemma LowFillIgnoresOffGridIsa(G: Grid, isaAxis: seq<int>, msaAxis: seq<int>, low: map<int, map<int, real>>,
                                 isa: int)
    requires IsRect(G, |isaAxis|, |msaAxis|) && isa !in isaAxis
    ensures LowFill(G, isaAxis, msaAxis, low) == LowFill(G, isaAxis, msaAxis, low - {isa})
  {
    var A, B := LowFill(G, isaAxis, msaAxis, low), LowFill(G, isaAxis, msaAxis, low - {isa});
    forall i | 0 <= i < |isaAxis| ensures A[i] == B[i] {
      assert isaAxis[i] != isa;
    }
  }

  /** An entry whose MSA is not on the grid writes nothing. */
  lemma LowFillIgnoresOffGridMsa(G: Grid, isaAxis: seq<int>, msaAxis: seq<int>, low: map<int, map<int, real>>,
                                 isa: int, msa: int)
    requires IsRect(G, |isaAxis|, |msaAxis|) && isa in low && msa !in msaAxis
    ensures LowFill(G, isaAxis, msaAxis, low) == LowFill(G, isaAxis, msaAxis, low[isa := low[isa] - {msa}])
  {
    var low' := low[isa := low[isa] - {msa}];
    var A, B := LowFill(G, isaAxis, msaAxis, low), LowFill(G, isaAxis, msaAxis, low');
    forall i | 0 <= i < |isaAxis| ensures A[i] == B[i] {
      forall j | 0 <= j < |msaAxis| ensures A[i][j] == B[i][j] {
        assert msaAxis[j] != msa;
        assert LowWrites(isaAxis, msaAxis, low, i, j) == LowWrites(isaAxis, msaAxis, low', i, j);
      }
    }
  }

  // ---------------------------------------------------------------------
  // The 3x3 neighbourhood mean
  // ---------------------------------------------------------------------

  /** A grid position, with everything off the grid read as missing (`cval=np.nan`). */
  function At(G: Grid, i: int, j: int): Option<real>
  {
    if 0 <= i < |G| && 0 <= j < |G[i]| then G[i][j] else None
  }

  /** The 3x3 footprint around a cell, row by row. */
  const Offsets: seq<(int, int)> :=
    [(-1, -1), (-1, 0), (-1, 1), (0, -1), (0, 0), (0, 1), (1, -1), (1, 0), (1, 1)]

  function Window(G: Grid, i: int, j: int): (w: seq<Option<real>>)
    ensures |w| == |Offsets|
  {
    seq(|Offsets|, k requires 0 <= k < |Offsets| => At(G, i + Offsets[k].0, j + Offsets[k].1))
  }

  function ValueOr0(x: Option<real>): real
  {
    match x
    case Some(v) => v
    case None => 0.0
  }

  /** The sum of the present values. */
  function PresentSum(w: seq<Option<real>>): real
  {
    if w == [] then 0.0 else PresentSum(w[..|w| - 1]) + ValueOr0(w[|w| - 1])
  }

  /** The number of present values. */
  function PresentCount(w: seq<Option<real>>): nat
  {
    if w == [] then 0 else PresentCount(w[..|w| - 1]) + (if w[|w| - 1].Some? then 1 else 0)
  }

  lemma {:induction false} CountZeroIffAllMissing(w: seq<Option<real>>)
    ensures PresentCount(w) == 0 <==> forall k | 0 <= k < |w| :: w[k].None?
  {
    if w != [] {
      var w' := w[..|w| - 1];
      CountZeroIffAllMissing(w');
      assert forall k | 0 <= k < |w'| :: w'[k] == w[k];
    }
  }

  lemma {:induction false} SumAtLeast(w: seq<Option<real>>, lo: real)
    requires forall k | 0 <= k < |w| && w[k].Some? :: lo <= w[k].value
    ensures PresentCount(w) as real * lo <= PresentSum(w)
  {
    if w != [] {
      var w' := w[..|w| - 1];
      assert forall k | 0 <= k < |w'| :: w'[k] == w[k];
      SumAtLeast(w', lo);
      var c := PresentCount(w') as real;
      if w[|w| - 1].Some? {
        assert PresentCount(w) as real == c + 1.0;
        Distribute(c, lo);
      }
    }
  }

  lemma {:induction false} SumAtMost(w: seq<Option<real>>, hi: real)
    requires forall k | 0 <= k < |w| && w[k].Some? :: w[k].value <= hi
    ensures PresentSum(w) <= PresentCount(w) as real * hi
  {
    if w != [] {
      var w' := w[..|w| - 1];
      assert forall k | 0 <= k < |w'| :: w'[k] == w[k];
      SumAtMost(w', hi);
      var c := PresentCount(w') as real;
      if w[|w| - 1].Some? {
        assert PresentCount(w) as real == c + 1.0;
        Distribute(c, hi);
      }
    }
  }

  lemma Distribute(c: real, x: real)
    ensures (c + 1.0) * x == c * x + x
  {
  }

  /** `np.nanmean`: the mean of the present values, missing when none is present. */
  function NanMean(w: seq<Option<real>>): (m: Option<real>)
    ensures m.None? <==> forall k | 0 <= k < |w| :: w[k].None?
  {
    CountZeroIffAllMissing(w);
    if PresentCount(w) == 0 then None else Some(PresentSum(w) / PresentCount(w) as real)
  }

  /** The mean lies within any bounds on the present values. */
  lemma NanMeanWithin(w: seq<Option<real>>, lo: real, hi: real)
    requires forall k | 0 <= k < |w| && w[k].Some? :: lo <= w[k].value <= hi
    requires NanMean(w).Some?
    ensures lo <= NanMean(w).value <= hi
  {
    SumAtLeast(w, lo);
    SumAtMost(w, hi);
    var c := PresentCount(w) as real;
    var s := PresentSum(w);
    assert c > 0.0;
    QuotientWithin(s, c, lo, hi);
  }

  lemma QuotientWithin(s: real, c: real, lo: real, hi: real)
    requires c > 0.0 && c * lo <= s <= c * hi
    ensures lo <= s / c <= hi
  {
    assert s / c - lo == (s - c * lo) / c;
    assert hi - s / c == (c * hi - s) / c;
  }

  /** `generic_filter(G, nanmean, size=3, mode='constant', cval=np.nan)`. */
  function Smoothed(G: Grid): (S: Grid)
    ensures |S| == |G|
    ensures forall i | 0 <= i < |G| :: |S[i]| == |G[i]|
  {
    seq(|G|, i requires 0 <= i < |G| => seq(|G[i]|, j requires 0 <= j < |G[i]| => NanMean(Window(G, i, j))))
  }

  lemma OffsetsCoverSquare(di: int, dj: int)
    requires -1 <= di <= 1 && -1 <= dj <= 1
    ensures Offsets[(di + 1) * 3 + (dj + 1)] == (di, dj)
  {
  }

  /** A cell stays missing exactly when its whole 3x3 neighbourhood is missing. */
  lemma SmoothedMissingIffNeighbourhoodMissing(G: Grid, i: nat, j: nat)
    requires i < |G| && j < |G[i]|
    ensures Smoothed(G)[i][j].None? <==>
      forall r, c | i - 1 <= r <= i + 1 && j - 1 <= c <= j + 1 :: At(G, r, c).None?
  {
    var w := Window(G, i, j);
    if forall r, c | i - 1 <= r <= i + 1 && j - 1 <= c <= j + 1 :: At(G, r, c).None? {
      forall k | 0 <= k < |w| ensures w[k].None? {
        assert -1 <= Offsets[k].0 <= 1 && -1 <= Offsets[k].1 <= 1;
        assert w[k] == At(G, i + Offsets[k].0, j + Offsets[k].1);
      }
    } else {
      var r, c :| i - 1 <= r <= i + 1 && j - 1 <= c <= j + 1 && At(G, r, c).Some?;
      OffsetsCoverSquare(r - i, c - j);
      assert w[(r - i + 1) * 3 + (c - j + 1)] == At(G, r, c);
    }
  }

  /** A cell that was present is still present after smoothing. */
  lemma SmoothingKeepsPresentCells(G: Grid, i: nat, j: nat)
    requires i < |G| && j < |G[i]| && G[i][j].Some?
    ensures Smoothed(G)[i][j].Some?
  {
    assert Window(G, i, j)[4] == G[i][j];
  }

  /** The smoothed value lies within any bounds on the present values of the 3x3 neighbourhood. */
  lemma SmoothedWithinNeighbourhood(G: Grid, i: nat, j: nat, lo: real, hi: real)
    requires i < |G| && j < |G[i]| && Smoothed(G)[i][j].Some?
    requires forall r, c | i - 1 <= r <= i + 1 && j - 1 <= c <= j + 1 && At(G, r, c).Some? ::
      lo <= At(G, r, c).value <= hi
    ensures lo <= Smoothed(G)[i][j].value <= hi
  {
    var w := Window(G, i, j);
    forall k | 0 <= k < |w| && w[k].Some? ensures lo <= w[k].value <= hi {
      assert -1 <= Offsets[k].0 <= 1 && -1 <= Offsets[k].1 <= 1;
      assert w[k] == At(G, i + Offsets[k].0, j + Offsets[k].1);
    }
    NanMeanWithin(w, lo, hi);
  }

  // ---------------------------------------------------------------------
  // The whole build
  // ---------------------------------------------------------------------

  function Unsmoothed(isaAxis: seq<int>, msaAxis: seq<int>, highMsas: seq<int>, high: map<int, seq<real>>,
                      low: map<int, map<int, real>>): (G: Grid)
    requires HighRowsLongEnough(isaAxis, highMsas, high)
    ensures IsRect(G, |isaAxis|, |msaAxis|)
  {
    LowFill(HighFill(EmptyGrid(|isaAxis|, |msaAxis|), isaAxis, msaAxis, highMsas, high), isaAxis, msaAxis, low)
  }

  function BuiltGrid(isaAxis: seq<int>, msaAxis: seq<int>, highMsas: seq<int>, high: map<int, seq<real>>,
                     low: map<int, map<int, real>>): (G: Grid)
    requires HighRowsLongEnough(isaAxis, highMsas, high)
    ensures IsRect(G, |isaAxis|, |msaAxis|)
  {
    Smoothed(Unsmoothed(isaAxis, msaAxis, highMsas, high, low))
  }
}
