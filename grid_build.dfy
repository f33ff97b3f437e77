/**
 * The grid build as the calculator performs it: a NaN-filled 2-D array, the
 * two chart loops writing into it in place, and the neighbourhood mean
 * producing a new array. Each method is proved against its counterpart in
 * WeightGrid, so every property proved there holds of the arrays built here.
 */
module GridBuild {
  import opened Common
  import opened WeightGrid

  /** The contents of a grid array, row by row. */
  ghost function Cells(g: array2<Option<real>>): (G: Grid)
    reads g
    ensures IsRect(G, g.Length0, g.Length1)
    ensures forall i, j | 0 <= i < g.Length0 && 0 <= j < g.Length1 :: G[i][j] == g[i, j]
  {
    seq(g.Length0, i requires 0 <= i < g.Length0 reads g =>
      seq(g.Length1, j requires 0 <= j < g.Length1 reads g => g[i, j]))
  }

  /** Two grids of the same shape that agree everywhere are equal. */
  lemma SameCells(A: Grid, B: Grid, rows: nat, cols: nat)
    requires IsRect(A, rows, cols) && IsRect(B, rows, cols)
    requires forall i, j | 0 <= i < rows && 0 <= j < cols :: A[i][j] == B[i][j]
    ensures A == B
  {
    forall i | 0 <= i < rows ensures A[i] == B[i] {
    }
  }

  /** `np.full((rows, cols), np.nan)`. */
  method NewGrid(rows: nat, cols: nat) returns (g: array2<Option<real>>)
    ensures fresh(g)
    ensures g.Length0 == rows && g.Length1 == cols
    ensures Cells(g) == EmptyGrid(rows, cols)
  {
    g := new Option<real>[rows, cols]((i, j) => None);
    SameCells(Cells(g), EmptyGrid(rows, cols), rows, cols);
  }

  /**
   * The high-altitude loop: for each grid row whose ISA deviation has a chart
   * row, every column whose MSA is a chart altitude takes the chart's weight
   * at that altitude's position in the altitude list.
   */
  method FillHigh(g: array2<Option<real>>, isaAxis: seq<int>, msaAxis: seq<int>, highMsas: seq<int>,
                  high: map<int, seq<real>>)
    requires g.Length0 == |isaAxis| && g.Length1 == |msaAxis|
    requires HighRowsLongEnough(isaAxis, highMsas, high)
    modifies g
    ensures Cells(g) == HighFill(old(Cells(g)), isaAxis, msaAxis, highMsas, high)
  {
    ghost var G0 := Cells(g);
    for i := 0 to |isaAxis|
      invariant forall r, c | 0 <= r < |isaAxis| && 0 <= c < |msaAxis| ::
        g[r, c] == if r < i then HighCell(G0[r][c], isaAxis, msaAxis, highMsas, high, r, c) else G0[r][c]
    {
      if isaAxis[i] in high {
        for j := 0 to |msaAxis|
          invariant forall r, c | 0 <= r < |isaAxis| && 0 <= c < |msaAxis| ::
            g[r, c] == if r < i || (r == i && c < j) then HighCell(G0[r][c], isaAxis, msaAxis, highMsas, high, r, c)
                       else G0[r][c]
        {
          if msaAxis[j] in highMsas {
            var idx := Find(highMsas, msaAxis[j]).value;
            assert highMsas[idx] == msaAxis[j];
            g[i, j] := Some(high[isaAxis[i]][idx]);
          }
        }
      }
    }
    SameCells(Cells(g), HighFill(G0, isaAxis, msaAxis, highMsas, high), |isaAxis|, |msaAxis|);
  }

  /** What the low-altitude loop has written once the ISA keys in `done` are finished. */
  ghost predicate LowDone(isaAxis: seq<int>, msaAxis: seq<int>, low: map<int, map<int, real>>,
                          done: set<int>, r: nat, c: nat)
    requires r < |isaAxis| && c < |msaAxis|
  {
    LowWrites(isaAxis, msaAxis, low, r, c) && isaAxis[r] in done
  }

  /** The inner low-altitude loop: every MSA key of one chart row found on the grid overwrites its cell in row i. */
  method FillLowRow(g: array2<Option<real>>, msaAxis: seq<int>, i: nat, data: map<int, real>)
    requires i < g.Length0 && g.Length1 == |msaAxis|
    modifies g
    ensures forall r, c | 0 <= r < g.Length0 && r != i && 0 <= c < |msaAxis| :: g[r, c] == old(g[r, c])
    ensures forall c | 0 <= c < |msaAxis| ::
      g[i, c] == if ColumnWritten(msaAxis, data, c) then Some(data[msaAxis[c]]) else old(g[i, c])
  {
    var msas := data.Keys;
    ghost var doneMsas: set<int> := {};
    while msas != {}
      invariant msas <= data.Keys && doneMsas == data.Keys - msas
      invariant forall r, c | 0 <= r < g.Length0 && r != i && 0 <= c < |msaAxis| :: g[r, c] == old(g[r, c])
      invariant forall c | 0 <= c < |msaAxis| ::
        g[i, c] == if ColumnWritten(msaAxis, data, c) && msaAxis[c] in doneMsas then Some(data[msaAxis[c]])
                   else old(g[i, c])
      decreases |msas|
    {
      ghost var _ := NonEmptyHas(msas);
      var msa :| msa in msas;
      var col := Find(msaAxis, msa);
      if col.Some? {
        g[i, col.value] := Some(data[msa]);
      }
      ColumnStep(msaAxis, data, doneMsas, msa);
      msas := msas - {msa};
      doneMsas := doneMsas + {msa};
    }
  }

  /** Finishing MSA key `msa` of a chart row adds exactly its first column on the grid. */
  lemma ColumnStep(msaAxis: seq<int>, data: map<int, real>, doneMsas: set<int>, msa: int)
    requires msa in data
    ensures forall c | 0 <= c < |msaAxis| ::
      (ColumnWritten(msaAxis, data, c) && msaAxis[c] in doneMsas + {msa}) <==>
        (ColumnWritten(msaAxis, data, c) && msaAxis[c] in doneMsas) || Find(msaAxis, msa) == Some(c)
  {
  }

  /**
   * The low-altitude loop: for each ISA key found on the grid, its chart row
   * is written into the first grid row with that ISA. Keys are taken in any
   * order: each entry has its own cell, so the result does not depend on it.
   */
  method FillLow(g: array2<Option<real>>, isaAxis: seq<int>, msaAxis: seq<int>, low: map<int, map<int, real>>)
    requires g.Length0 == |isaAxis| && g.Length1 == |msaAxis|
    modifies g
    ensures Cells(g) == LowFill(old(Cells(g)), isaAxis, msaAxis, low)
  {
    ghost var G0 := Cells(g);
    var pending := low.Keys;
    ghost var done: set<int> := {};
    while pending != {}
      invariant pending <= low.Keys && done == low.Keys - pending
      invariant forall r, c | 0 <= r < |isaAxis| && 0 <= c < |msaAxis| ::
        g[r, c] == if LowDone(isaAxis, msaAxis, low, done, r, c) then Some(low[isaAxis[r]][msaAxis[c]]) else G0[r][c]
      decreases |pending|
    {
      ghost var _ := NonEmptyHas(pending);
      var isa :| isa in pending;
      var found := Find(isaAxis, isa);
      label Before:
      if found.Some? {
        FillLowRow(g, msaAxis, found.value, low[isa]);
      }
      LowRowStep(isaAxis, msaAxis, low, done, isa);
      forall r, c | 0 <= r < |isaAxis| && 0 <= c < |msaAxis|
        ensures g[r, c] == if LowDone(isaAxis, msaAxis, low, done + {isa}, r, c)
                           then Some(low[isaAxis[r]][msaAxis[c]]) else G0[r][c]
      {
        if found.Some? && r == found.value {
          assert isaAxis[r] == isa && !LowDone(isaAxis, msaAxis, low, done, r, c);
        } else {
          assert g[r, c] == old@Before(g[r, c]);
        }
      }
      pending := pending - {isa};
      done := done + {isa};
    }
    forall r, c | 0 <= r < |isaAxis| && 0 <= c < |msaAxis|
      ensures Cells(g)[r][c] == LowFill(G0, isaAxis, msaAxis, low)[r][c]
    {
      assert LowFill(G0, isaAxis, msaAxis, low)[r][c] == LowCell(G0[r][c], isaAxis, msaAxis, low, r, c);
    }
    SameCells(Cells(g), LowFill(G0, isaAxis, msaAxis, low), |isaAxis|, |msaAxis|);
  }

  /** Finishing ISA key `isa` adds exactly the cells its chart row writes in its grid row. */
  lemma LowRowStep(isaAxis: seq<int>, msaAxis: seq<int>, low: map<int, map<int, real>>, done: set<int>, isa: int)
    requires isa in low && isa !in done
    ensures forall r, c | 0 <= r < |isaAxis| && 0 <= c < |msaAxis| ::
      LowDone(isaAxis, msaAxis, low, done + {isa}, r, c) <==>
        LowDone(isaAxis, msaAxis, low, done, r, c)
        || (Find(isaAxis, isa) == Some(r) && ColumnWritten(msaAxis, low[isa], c))
  {
  }

  /**
   * `np.nanmean` over the 3x3 footprint of cell (i, j), with positions off the
   * array read as NaN (`mode='constant', cval=np.nan`).
   */
  method WindowMeanAt(g: array2<Option<real>>, i: int, j: int) returns (m: Option<real>)
    ensures m == NanMean(Window(Cells(g), i, j))
  {
    ghost var W := Window(Cells(g), i, j);
    var sum := 0.0;
    var count: nat := 0;
    for k := 0 to |Offsets|
      invariant sum == PresentSum(W[..k]) && count == PresentCount(W[..k])
    {
      var r, c := i + Offsets[k].0, j + Offsets[k].1;
      assert W[k] == At(Cells(g), r, c);
      if 0 <= r < g.Length0 && 0 <= c < g.Length1 {
        match g[r, c]
        case Some(v) =>
          sum := sum + v;
          count := count + 1;
        case None =>
      }
      assert W[..k + 1][..k] == W[..k];
    }
    assert W[..|Offsets|] == W;
    if count == 0 {
      m := None;
    } else {
      m := Some(sum / count as real);
    }
  }

  /** `generic_filter(g, nanmean, size=3, mode='constant', cval=np.nan)`: a new array of the means. */
  method Smooth(g: array2<Option<real>>) returns (s: array2<Option<real>>)
    ensures fresh(s)
    ensures s.Length0 == g.Length0 && s.Length1 == g.Length1
    ensures Cells(s) == Smoothed(Cells(g))
  {
    s := new Option<real>[g.Length0, g.Length1]((i, j) => None);
    ghost var G := Cells(g);
    for i := 0 to g.Length0
      invariant forall r, c | 0 <= r < i && 0 <= c < g.Length1 :: s[r, c] == NanMean(Window(G, r, c))
    {
      for j := 0 to g.Length1
        invariant forall r, c | 0 <= r < i && 0 <= c < g.Length1 :: s[r, c] == NanMean(Window(G, r, c))
        invariant forall c | 0 <= c < j :: s[i, c] == NanMean(Window(G, i, c))
      {
        var m := WindowMeanAt(g, i, j);
        s[i, j] := m;
      }
    }
    SameCells(Cells(s), Smoothed(G), g.Length0, g.Length1);
  }

  /** The whole build: an empty grid, the high chart, the low chart over it, then the mean. */
  method BuildWeightGrid(isaAxis: seq<int>, msaAxis: seq<int>, highMsas: seq<int>, high: map<int, seq<real>>,
                         low: map<int, map<int, real>>) returns (g: array2<Option<real>>)
    requires HighRowsLongEnough(isaAxis, highMsas, high)
    ensures fresh(g)
    ensures g.Length0 == |isaAxis| && g.Length1 == |msaAxis|
    ensures Cells(g) == BuiltGrid(isaAxis, msaAxis, highMsas, high, low)
  {
    var raw := NewGrid(|isaAxis|, |msaAxis|);
    FillHigh(raw, isaAxis, msaAxis, highMsas, high);
    FillLow(raw, isaAxis, msaAxis, low);
    g := Smooth(raw);
  }

  /** The calculator's module-level grid, built from its own axes and charts. */
  method BuildChartGrid() returns (g: array2<Option<real>>)
    ensures fresh(g)
    ensures g.Length0 == |IsaAxis| && g.Length1 == |MsaAxis|
    ensures HighRowsLongEnough(IsaAxis, HighMsas, HighData)
    ensures Cells(g) == BuiltGrid(IsaAxis, MsaAxis, HighMsas, HighData, LowData)
  {
    HighDataFitsAxes();
    g := BuildWeightGrid(IsaAxis, MsaAxis, HighMsas, HighData, LowData);
  }
}
