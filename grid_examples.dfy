/**
 * The grid the calculator builds from its own two charts, checked at a few
 * cells: the low-altitude chart overriding the high one at ISA 0, a corner
 * the neighbourhood mean leaves missing, and a known cell it replaces.
 */
module GridExamples {
  import opened Common
  import opened WeightGrid

  lemma AxesDistinct()
    ensures Distinct(IsaAxis) && Distinct(MsaAxis)
  {
  }

  lemma ChartAltitudesDistinct()
    ensures Distinct(HighMsas)
  {
  }

  /** Where the cells used below sit on the axes and in the high chart's altitude list. */
  lemma PositionsOnAxes()
    ensures Find(IsaAxis, -20) == Some(0) && Find(IsaAxis, -15) == Some(1) && Find(IsaAxis, 0) == Some(4)
    ensures Find(MsaAxis, 20000) == Some(7) && Find(MsaAxis, 21000) == Some(8)
    ensures Find(MsaAxis, 22000) == Some(9) && Find(MsaAxis, 23000) == Some(10)
    ensures Find(HighMsas, 20000) == Some(1) && Find(HighMsas, 21000) == Some(2)
    ensures Find(HighMsas, 22000) == Some(3) && Find(HighMsas, 23000) == Some(4)
    ensures Find(HighMsas, 25000) == Some(6) && Find(HighMsas, 26000) == Some(7)
  {
    AxesDistinct();
    ChartAltitudesDistinct();
    FindAt(IsaAxis, 0);
    FindAt(IsaAxis, 1);
    FindAt(IsaAxis, 4);
    FindAt(MsaAxis, 7);
    FindAt(MsaAxis, 8);
    FindAt(MsaAxis, 9);
    FindAt(MsaAxis, 10);
    FindAt(HighMsas, 1);
    FindAt(HighMsas, 2);
    FindAt(HighMsas, 3);
    FindAt(HighMsas, 4);
    FindAt(HighMsas, 6);
    FindAt(HighMsas, 7);
  }

  lemma HighRowIsaZero()
    ensures 0 in HighData && HighData[0] == [23600.0, 22200.0, 20800.0, 19400.0, 18000.0, 16700.0, 15400.0, 14100.0]
  {
  }

  lemma LowRowIsaZero()
    ensures 0 in LowData
    ensures 20000 in LowData[0] && LowData[0][20000] == 21550.0
    ensures 21000 !in LowData[0]
    ensures 22000 in LowData[0] && LowData[0][22000] == 20100.0
    ensures 23000 in LowData[0] && LowData[0][23000] == 19350.0
  {
    var row := map[23000 := 19350.0, 22000 := 20100.0, 20000 := 21550.0, 18000 := 23000.0, 16000 := 24550.0];
    assert LowData[0] == row;
  }

  /** The high chart's weights at ISA 0 at 20000 and 21000 ft land in row 4. */
  lemma HighAtIsaZeroLow()
    ensures HighRowsLongEnough(IsaAxis, HighMsas, HighData)
    ensures var H := HighFill(EmptyGrid(|IsaAxis|, |MsaAxis|), IsaAxis, MsaAxis, HighMsas, HighData);
      H[4][7] == Some(22200.0) && H[4][8] == Some(20800.0)
  {
    HighDataFitsAxes();
    ChartAltitudesDistinct();
    HighRowIsaZero();
    assert IsaAxis[4] == 0;
    HighFillOfEmptyHit(IsaAxis, MsaAxis, HighMsas, HighData, 4, 7, 1);
    HighFillOfEmptyHit(IsaAxis, MsaAxis, HighMsas, HighData, 4, 8, 2);
  }

  /** The high chart's weights at ISA 0 at 22000 and 23000 ft land in row 4. */
  lemma HighAtIsaZeroHigh()
    ensures HighRowsLongEnough(IsaAxis, HighMsas, HighData)
    ensures var H := HighFill(EmptyGrid(|IsaAxis|, |MsaAxis|), IsaAxis, MsaAxis, HighMsas, HighData);
      H[4][9] == Some(19400.0) && H[4][10] == Some(18000.0)
  {
    HighDataFitsAxes();
    ChartAltitudesDistinct();
    HighRowIsaZero();
    assert IsaAxis[4] == 0;
    HighFillOfEmptyHit(IsaAxis, MsaAxis, HighMsas, HighData, 4, 9, 3);
    HighFillOfEmptyHit(IsaAxis, MsaAxis, HighMsas, HighData, 4, 10, 4);
  }

  /** The low chart writes ISA 0 at 20000, 22000 and 23000 ft, and not at 21000 ft. */
  lemma LowWritesAtIsaZero()
    ensures LowWrites(IsaAxis, MsaAxis, LowData, 4, 7) && !LowWrites(IsaAxis, MsaAxis, LowData, 4, 8)
    ensures LowWrites(IsaAxis, MsaAxis, LowData, 4, 9) && LowWrites(IsaAxis, MsaAxis, LowData, 4, 10)
    ensures LowData[IsaAxis[4]][MsaAxis[7]] == 21550.0 && LowData[IsaAxis[4]][MsaAxis[9]] == 20100.0
    ensures LowData[IsaAxis[4]][MsaAxis[10]] == 19350.0
  {
    PositionsOnAxes();
    LowRowIsaZero();
    assert IsaAxis[4] == 0;
    assert MsaAxis[7] == 20000 && MsaAxis[8] == 21000 && MsaAxis[9] == 22000 && MsaAxis[10] == 23000;
  }

  /**
   * At ISA 0 the low chart overrides the high one at 20000, 22000 and 23000 ft
   * and leaves 21000 ft, which it does not list, at the high chart's 20800.
   */
  lemma LowOverridesHighAtIsaZero()
    ensures HighRowsLongEnough(IsaAxis, HighMsas, HighData)
    ensures var U := Unsmoothed(IsaAxis, MsaAxis, HighMsas, HighData, LowData);
      && U[4][7] == Some(21550.0) && U[4][8] == Some(20800.0)
      && U[4][9] == Some(20100.0) && U[4][10] == Some(19350.0)
  {
    HighAtIsaZeroLow();
    HighAtIsaZeroHigh();
    LowWritesAtIsaZero();
    var H := HighFill(EmptyGrid(|IsaAxis|, |MsaAxis|), IsaAxis, MsaAxis, HighMsas, HighData);
    LowFillAt(H, IsaAxis, MsaAxis, LowData, 4, 7);
    LowFillAt(H, IsaAxis, MsaAxis, LowData, 4, 8);
    LowFillAt(H, IsaAxis, MsaAxis, LowData, 4, 9);
    LowFillAt(H, IsaAxis, MsaAxis, LowData, 4, 10);
  }

  /** Before the mean, ISA -20 and -15 at 8000 and 10000 ft are missing: neither chart lists them. */
  lemma BottomCornerCells()
    ensures HighRowsLongEnough(IsaAxis, HighMsas, HighData)
    ensures var U := Unsmoothed(IsaAxis, MsaAxis, HighMsas, HighData, LowData);
      && U[0][0].None? && U[0][1].None? && U[1][0].None? && U[1][1].None?
  {
    HighDataFitsAxes();
    var H := HighFill(EmptyGrid(|IsaAxis|, |MsaAxis|), IsaAxis, MsaAxis, HighMsas, HighData);
    assert MsaAxis[0] == 8000 && MsaAxis[1] == 10000 && 8000 !in HighMsas && 10000 !in HighMsas;
    HighFillOfEmptyMiss(IsaAxis, MsaAxis, HighMsas, HighData, 0, 0);
    HighFillOfEmptyMiss(IsaAxis, MsaAxis, HighMsas, HighData, 0, 1);
    HighFillOfEmptyMiss(IsaAxis, MsaAxis, HighMsas, HighData, 1, 0);
    HighFillOfEmptyMiss(IsaAxis, MsaAxis, HighMsas, HighData, 1, 1);
    HighRowsTopCorner();
    assert IsaAxis[0] == -20 && IsaAxis[1] == -15;
    LowFillAt(H, IsaAxis, MsaAxis, LowData, 0, 0);
    LowFillAt(H, IsaAxis, MsaAxis, LowData, 0, 1);
    LowFillAt(H, IsaAxis, MsaAxis, LowData, 1, 0);
    LowFillAt(H, IsaAxis, MsaAxis, LowData, 1, 1);
  }

  /** In any grid, a corner whose in-grid neighbours are all missing stays missing. */
  lemma MissingCornerStaysMissing(G: Grid)
    requires |G| >= 2 && |G[0]| >= 2 && |G[1]| >= 2
    requires G[0][0].None? && G[0][1].None? && G[1][0].None? && G[1][1].None?
    ensures Smoothed(G)[0][0].None?
  {
    forall r, c | -1 <= r <= 1 && -1 <= c <= 1 ensures At(G, r, c).None? {
    }
    SmoothedMissingIffNeighbourhoodMissing(G, 0, 0);
  }

  /**
   * ISA -20 at 8000 ft is still missing after the neighbourhood mean: no
   * chart covers its 3x3 neighbourhood.
   */
  lemma CornerStaysMissing()
    ensures HighRowsLongEnough(IsaAxis, HighMsas, HighData)
    ensures BuiltGrid(IsaAxis, MsaAxis, HighMsas, HighData, LowData)[0][0].None?
  {
    BottomCornerCells();
    MissingCornerStaysMissing(Unsmoothed(IsaAxis, MsaAxis, HighMsas, HighData, LowData));
  }

  lemma HighRowsTopCorner()
    ensures -20 in HighData && HighData[-20] == [25000.0, 25000.0, 24400.0, 23200.0, 21900.0, 20600.0, 19400.0, 18000.0]
    ensures -15 in HighData && HighData[-15] == [25000.0, 25000.0, 23600.0, 22200.0, 20900.0, 19600.0, 18400.0, 17100.0]
    ensures -20 !in LowData && -15 !in LowData
  {
  }

  /** The unsmoothed cells around ISA -20 at 26000 ft: the last two chart altitudes at ISA -20 and -15. */
  lemma TopCornerCells()
    ensures HighRowsLongEnough(IsaAxis, HighMsas, HighData)
    ensures var U := Unsmoothed(IsaAxis, MsaAxis, HighMsas, HighData, LowData);
      && U[0][12] == Some(19400.0) && U[0][13] == Some(18000.0)
      && U[1][12] == Some(18400.0) && U[1][13] == Some(17100.0)
  {
    HighDataFitsAxes();
    var H := HighFill(EmptyGrid(|IsaAxis|, |MsaAxis|), IsaAxis, MsaAxis, HighMsas, HighData);
    ChartAltitudesDistinct();
    HighRowsTopCorner();
    assert IsaAxis[0] == -20 && IsaAxis[1] == -15;
    HighFillOfEmptyHit(IsaAxis, MsaAxis, HighMsas, HighData, 0, 12, 6);
    HighFillOfEmptyHit(IsaAxis, MsaAxis, HighMsas, HighData, 0, 13, 7);
    HighFillOfEmptyHit(IsaAxis, MsaAxis, HighMsas, HighData, 1, 12, 6);
    HighFillOfEmptyHit(IsaAxis, MsaAxis, HighMsas, HighData, 1, 13, 7);
    assert -20 !in LowData && -15 !in LowData;
    LowFillAt(H, IsaAxis, MsaAxis, LowData, 0, 12);
    LowFillAt(H, IsaAxis, MsaAxis, LowData, 0, 13);
    LowFillAt(H, IsaAxis, MsaAxis, LowData, 1, 12);
    LowFillAt(H, IsaAxis, MsaAxis, LowData, 1, 13);
  }

  /** The mean at the top-left edge of an 11 x 14 grid whose present cells around it are the four given. */
  lemma MeanAtTopEdge(G: Grid)
    requires IsRect(G, 11, 14)
    requires G[0][12] == Some(19400.0) && G[0][13] == Some(18000.0)
    requires G[1][12] == Some(18400.0) && G[1][13] == Some(17100.0)
    ensures Smoothed(G)[0][13] == Some(18225.0)
  {
    var w := Window(G, 0, 13);
    assert w == [None, None, None, Some(19400.0), Some(18000.0), None, Some(18400.0), Some(17100.0), None];
    assert PresentCount(w[..1]) == 0 && PresentSum(w[..1]) == 0.0 by { assert w[..1][..0] == [] && w[..1][0] == None; }
    assert PresentCount(w[..2]) == 0 && PresentSum(w[..2]) == 0.0 by { assert w[..2][..1] == w[..1]; }
    assert PresentCount(w[..3]) == 0 && PresentSum(w[..3]) == 0.0 by { assert w[..3][..2] == w[..2]; }
    assert PresentCount(w[..4]) == 1 && PresentSum(w[..4]) == 19400.0 by { assert w[..4][..3] == w[..3]; }
    assert PresentCount(w[..5]) == 2 && PresentSum(w[..5]) == 37400.0 by { assert w[..5][..4] == w[..4]; }
    assert PresentCount(w[..6]) == 2 && PresentSum(w[..6]) == 37400.0 by { assert w[..6][..5] == w[..5]; }
    assert PresentCount(w[..7]) == 3 && PresentSum(w[..7]) == 55800.0 by { assert w[..7][..6] == w[..6]; }
    assert PresentCount(w[..8]) == 4 && PresentSum(w[..8]) == 72900.0 by { assert w[..8][..7] == w[..7]; }
    assert PresentCount(w[..9]) == 4 && PresentSum(w[..9]) == 72900.0 by { assert w[..9][..8] == w[..8]; }
    assert w[..9] == w;
  }

  /**
   * ISA -20 at 26000 ft was 18000 on the chart; the mean over its present
   * neighbours (19400, 18000, 18400, 17100) replaces it with 18225.
   */
  lemma KnownCellIsReplaced()
    ensures HighRowsLongEnough(IsaAxis, HighMsas, HighData)
    ensures Unsmoothed(IsaAxis, MsaAxis, HighMsas, HighData, LowData)[0][13] == Some(18000.0)
    ensures BuiltGrid(IsaAxis, MsaAxis, HighMsas, HighData, LowData)[0][13] == Some(18225.0)
  {
    TopCornerCells();
    MeanAtTopEdge(Unsmoothed(IsaAxis, MsaAxis, HighMsas, HighData, LowData));
  }
}
