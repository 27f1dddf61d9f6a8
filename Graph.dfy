/**
  The pixel grid: a res_x by res_y array of per-pixel iterators, the
  rectangle of the complex plane it shows, and the frame counter. Every frame
  advances each pixel that is still inside the set by one step and draws it.
 */
module Graph {
  import opened ComplexPlane
  import opened Escape
  import opened Viewport
  import opened Palette

  /** Pixels listed column by column, top to bottom: the order in which a frame visits them. */
  ghost predicate InScanOrder(ps: seq<(int, int)>)
  {
    forall k, l :: 0 <= k < l < |ps| ==> ps[k].0 < ps[l].0 || (ps[k].0 == ps[l].0 && ps[k].1 < ps[l].1)
  }

  lemma ScanOrderAppend(before: seq<(int, int)>, column: seq<(int, int)>, x: int)
    requires InScanOrder(before) && forall k :: 0 <= k < |before| ==> before[k].0 < x
    requires InScanOrder(column) && forall k :: 0 <= k < |column| ==> column[k].0 == x
    ensures InScanOrder(before + column) && forall k :: 0 <= k < |before + column| ==> (before + column)[k].0 < x + 1
  {
  }

  class MandelbrotSetGraph {
    const resX: nat
    const resY: nat
    var reMin: real
    var reMax: real
    var imMin: real
    var imMax: real
    /** Frames drawn since the last initialization; it selects the stroke colour. */
    var step: nat
    const data: array2<MandelbrotFunction>
    /** The cell objects, the footprint the methods may change. */
    ghost const Cells: set<MandelbrotFunction>
    /** The pixel each cell belongs to: no object is shared between two pixels. */
    ghost const Index: map<MandelbrotFunction, (int, int)>

    /** The array has the grid's size and holds one distinct cell per pixel. */
    ghost predicate Shaped()
      reads data
    {
      && 0 < resX && 0 < resY
      && data.Length0 == resX && data.Length1 == resY
      && forall x, y :: 0 <= x < resX && 0 <= y < resY ==>
           data[x, y] in Cells && data[x, y] in Index && Index[data[x, y]] == (x, y)
    }

    /**
      The grid invariant: every cell's constant is its pixel's point in the
      current region, and its z is the orbit of that point advanced by as many
      steps as the frames since the last initialization allowed.
     */
    ghost predicate Valid()
      reads this, data, Cells
    {
      && Shaped()
      && forall x, y :: 0 <= x < resX && 0 <= y < resY ==>
           && data[x, y].C() == GetPixelComplex(x as real, y as real)
           && data[x, y].Z() == Iterate(data[x, y].C(), StepsTaken(data[x, y].C(), step))
    }

    /**
      The point of the plane shown at pixel (x, y). Coordinates are not
      clamped: points outside the grid extrapolate the same linear map.
     */
    function GetPixelComplex(x: real, y: real): (c: Complex)
      requires 0 < resX && 0 < resY
      reads this`reMin, this`reMax, this`imMin, this`imMax
      ensures x == 0.0 && y == 0.0 ==> c == Complex(reMin, imMin)
      ensures x == resX as real && y == resY as real ==> c == Complex(reMax, imMax)
      ensures c.re == reMin + (x / resX as real) * (reMax - reMin)
      ensures c.im == imMin + (y / resY as real) * (imMax - imMin)
    {
      MapRangeIsInterpolation(x, 0.0, resX as real, reMin, reMax);
      MapRangeIsInterpolation(y, 0.0, resY as real, imMin, imMax);
      Complex(MapRange(x, 0.0, resX as real, reMin, reMax), MapRange(y, 0.0, resY as real, imMin, imMax))
    }

    /** A grid on the default region [-2, 2] x [-2, 2], every cell at z = 0. */
    constructor (resX: nat, resY: nat)
      requires 0 < resX && 0 < resY
      ensures Valid() && fresh(data) && fresh(Cells)
      ensures this.resX == resX && this.resY == resY
      ensures reMin == -2.0 && reMax == 2.0 && imMin == -2.0 && imMax == 2.0
      ensures step == 0
      ensures forall x, y :: 0 <= x < resX && 0 <= y < resY ==>
                data[x, y].Z() == Zero && data[x, y].C() == GetPixelComplex(x as real, y as real)
    {
      this.resX := resX;
      this.resY := resY;
      reMin, reMax, imMin, imMax := -2.0, 2.0, -2.0, 2.0;
      step := 0;
      var placeholder := new MandelbrotFunction(0.0, 0.0);
      var grid := new MandelbrotFunction[resX, resY]((_, _) => placeholder);
      ghost var cells: set<MandelbrotFunction> := {};
      ghost var index: map<MandelbrotFunction, (int, int)> := map[];
      for x := 0 to resX
        invariant fresh(cells)
        invariant forall i, j :: 0 <= i < x && 0 <= j < resY ==>
                    && grid[i, j] in cells && grid[i, j] in index && index[grid[i, j]] == (i, j)
                    && grid[i, j].Z() == Zero
                    && grid[i, j].C() == Complex(MapRange(i as real, 0.0, resX as real, -2.0, 2.0),
                                                 MapRange(j as real, 0.0, resY as real, -2.0, 2.0))
      {
        for y := 0 to resY
          invariant fresh(cells)
          invariant forall i, j :: 0 <= i < resX && 0 <= j < resY && (i < x || (i == x && j < y)) ==>
                      && grid[i, j] in cells && grid[i, j] in index && index[grid[i, j]] == (i, j)
                      && grid[i, j].Z() == Zero
                      && grid[i, j].C() == Complex(MapRange(i as real, 0.0, resX as real, -2.0, 2.0),
                                                   MapRange(j as real, 0.0, resY as real, -2.0, 2.0))
        {
          var cRe := MapRange(x as real, 0.0, resX as real, -2.0, 2.0);
          var cIm := MapRange(y as real, 0.0, resY as real, -2.0, 2.0);
          var cell := new MandelbrotFunction(cRe, cIm);
          grid[x, y] := cell;
          cells := cells + {cell};
          index := index[cell := (x, y)];
        }
      }
      data := grid;
      Cells := cells;
      Index := index;
    }

    /** Back to frame 0: every cell restarts at z = 0 from its pixel's point. */
    method Initialize()
      requires Shaped()
      modifies this`step, Cells
      ensures Valid()
      ensures step == 0
      ensures forall x, y :: 0 <= x < resX && 0 <= y < resY ==>
                data[x, y].Z() == Zero && data[x, y].C() == GetPixelComplex(x as real, y as real)
    {
      step := 0;
      for x := 0 to resX
        invariant step == 0
        invariant forall i, j :: 0 <= i < x && 0 <= j < resY ==>
                    data[i, j].Z() == Zero && data[i, j].C() == GetPixelComplex(i as real, j as real)
      {
        for y := 0 to resY
          invariant step == 0
          invariant forall i, j :: 0 <= i < resX && 0 <= j < resY && (i < x || (i == x && j < y)) ==>
                      data[i, j].Z() == Zero && data[i, j].C() == GetPixelComplex(i as real, j as real)
        {
          var c := GetPixelComplex(x as real, y as real);
          data[x, y].Initialize(c.re, c.im);
        }
      }
    }

    /**
      Recentre and rescale: the region becomes the rectangle of half-widths
      resX * scale and resY * scale about the centre, and the grid restarts.
     */
    method SetRegion(centerRe: real, centerIm: real, scale: real)
      requires Shaped()
      modifies this`reMin, this`reMax, this`imMin, this`imMax, this`step, Cells
      ensures reMin == centerRe - resX as real * scale && reMax == centerRe + resX as real * scale
      ensures imMin == centerIm - resY as real * scale && imMax == centerIm + resY as real * scale
      ensures GetPixelComplex(resX as real / 2.0, resY as real / 2.0) == Complex(centerRe, centerIm)
      ensures Valid()
      ensures step == 0
      ensures forall x, y :: 0 <= x < resX && 0 <= y < resY ==>
                data[x, y].Z() == Zero && data[x, y].C() == GetPixelComplex(x as real, y as real)
    {
      reMin := centerRe - resX as real * scale;
      reMax := centerRe + resX as real * scale;
      imMin := centerIm - resY as real * scale;
      imMax := centerIm + resY as real * scale;
      Initialize();
      MidpointMapsToCenter(resX, centerRe, scale);
      MidpointMapsToCenter(resY, centerIm, scale);
    }

    /**
      One frame: every cell that is out at the start of the frame is left
      alone, every other cell is stepped once and drawn in the frame's colour;
      then the counter moves on.
     */
    method Draw() returns (colour: Colour, drawn: seq<(int, int)>)
      requires Valid()
      modifies this`step, Cells
      ensures Valid()
      ensures step == old(step) + 1
      ensures colour == GetColor(old(step))
      ensures forall x, y :: 0 <= x < resX && 0 <= y < resY ==>
                && data[x, y].C() == old(data[x, y].C())
                && data[x, y].Z() == Advance(old(data[x, y].Z()), old(data[x, y].C()))
      ensures forall x, y :: (x, y) in drawn <==>
                0 <= x < resX && 0 <= y < resY && !Escaped(old(data[x, y].Z()))
      ensures InScanOrder(drawn)
    {
      colour := GetColor(step);
      drawn := [];
      for x := 0 to resX
        invariant Shaped() && step == old(step)
        invariant forall i, j :: 0 <= i < resX && 0 <= j < resY ==> data[i, j].C() == old(data[i, j].C())
        invariant forall i, j :: 0 <= i < x && 0 <= j < resY ==>
                    data[i, j].Z() == Advance(old(data[i, j].Z()), old(data[i, j].C()))
        invariant forall i, j :: x <= i < resX && 0 <= j < resY ==> data[i, j].Z() == old(data[i, j].Z())
        invariant forall i, j :: (i, j) in drawn <==>
                    0 <= i < x && 0 <= j < resY && !Escaped(old(data[i, j].Z()))
        invariant InScanOrder(drawn) && forall k :: 0 <= k < |drawn| ==> drawn[k].0 < x
      {
        var column := DrawColumn(x);
        ScanOrderAppend(drawn, column, x);
        drawn := drawn + column;
      }
      step := step + 1;
      forall x, y | 0 <= x < resX && 0 <= y < resY
        ensures data[x, y].Z() == Iterate(data[x, y].C(), StepsTaken(data[x, y].C(), step))
      {
        var c := data[x, y].C();
        assert old(data[x, y].Z()) == Iterate(c, StepsTaken(c, old(step)));
        AdvanceOneFrame(c, old(step));
      }
    }

    /** The inner loop of a frame: column x advanced, every other column unchanged. */
    method DrawColumn(x: int) returns (drawn: seq<(int, int)>)
      requires Shaped() && 0 <= x < resX
      modifies Cells
      ensures forall i, j :: 0 <= i < resX && 0 <= j < resY ==> data[i, j].C() == old(data[i, j].C())
      ensures forall j :: 0 <= j < resY ==> data[x, j].Z() == Advance(old(data[x, j].Z()), old(data[x, j].C()))
      ensures forall i, j :: 0 <= i < resX && i != x && 0 <= j < resY ==> data[i, j].Z() == old(data[i, j].Z())
      ensures forall i, j :: (i, j) in drawn <==> i == x && 0 <= j < resY && !Escaped(old(data[i, j].Z()))
      ensures InScanOrder(drawn) && forall k :: 0 <= k < |drawn| ==> drawn[k].0 == x
    {
      drawn := [];
      for y := 0 to resY
        invariant forall i, j :: 0 <= i < resX && 0 <= j < resY ==> data[i, j].C() == old(data[i, j].C())
        invariant forall j :: 0 <= j < y ==> data[x, j].Z() == Advance(old(data[x, j].Z()), old(data[x, j].C()))
        invariant forall i, j :: 0 <= i < resX && 0 <= j < resY && (i != x || y <= j) ==>
                    data[i, j].Z() == old(data[i, j].Z())
        invariant forall i, j :: (i, j) in drawn <==> i == x && 0 <= j < y && !Escaped(old(data[i, j].Z()))
        invariant InScanOrder(drawn) && forall k :: 0 <= k < |drawn| ==> drawn[k].0 == x && drawn[k].1 < y
      {
        var cell := data[x, y];
        assert forall i, j :: 0 <= i < resX && 0 <= j < resY && (i, j) != (x, y) ==> data[i, j] != cell;
        if !cell.IsOutOfMandelbrotSet() {
          cell.Step();
          drawn := drawn + [(x, y)];
        }
      }
    }

    /**
      Frame 0 of a consistent grid is a single state: every cell at z = 0 on
      its pixel's point. So Initialize, whose result is such a state and which
      keeps the region, gives the same grid when called a second time.
     */
    lemma FrameZeroIsInitialState(x: int, y: int)
      requires Valid() && step == 0 && 0 <= x < resX && 0 <= y < resY
      ensures data[x, y].Z() == Zero
      ensures data[x, y].C() == GetPixelComplex(x as real, y as real)
    {
    }

    /** A cell that is still inside has been stepped in every frame since initialization. */
    lemma InsideCellHasStepEveryFrame(x: int, y: int)
      requires Valid() && 0 <= x < resX && 0 <= y < resY
      requires !data[x, y].IsOutOfMandelbrotSet()
      ensures data[x, y].Z() == Iterate(GetPixelComplex(x as real, y as real), step)
    {
      InsideMeansEveryFrameStepped(data[x, y].C(), step);
    }

    /**
      A cell that is out stays out with z frozen: whatever number of further
      frames is drawn, the grid invariant then demands the z it has now.
     */
    lemma EscapedCellStaysFrozen(x: int, y: int, later: nat)
      requires Valid() && 0 <= x < resX && 0 <= y < resY
      requires data[x, y].IsOutOfMandelbrotSet()
      requires step <= later
      ensures Iterate(data[x, y].C(), StepsTaken(data[x, y].C(), later)) == data[x, y].Z()
    {
      EscapedStaysFrozen(data[x, y].C(), step, later);
    }
  }
}
