/**
  The sketch's module-level state as one object: the grid `ms` on a 400 x 400
  canvas and the current `scale`. Setting up centres the default region on
  the origin; a click zooms in five-fold about the clicked point.
 */
module Sketch {
  import opened ComplexPlane
  import opened Viewport
  import opened Graph

  const ResX: nat := 400
  const ResY: nat := 400
  /** Each click multiplies the scale, and so the region's extent, by this factor. */
  const ZoomFactor: real := 0.2

  class Sketch {
    const ms: MandelbrotSetGraph
    var scale: real

    /** The grid is consistent and its region spans 2 * resolution * scale in each direction. */
    ghost predicate Valid()
      reads this, ms, ms.data, ms.Cells
    {
      && ms.Valid()
      && ms.resX == ResX && ms.resY == ResY
      && ms.reMax - ms.reMin == 2.0 * ResX as real * scale
      && ms.imMax - ms.imMin == 2.0 * ResY as real * scale
    }

    /** Set-up: a fresh grid, scale 2 / res_x, and the region recentred on 0, i.e. [-2, 2] x [-2, 2]. */
    constructor ()
      ensures Valid() && fresh(ms) && fresh(ms.data) && fresh(ms.Cells)
      ensures scale == 2.0 / ResX as real
      ensures ms.reMin == -2.0 && ms.reMax == 2.0 && ms.imMin == -2.0 && ms.imMax == 2.0
      ensures ms.step == 0
    {
      ms := new MandelbrotSetGraph(ResX, ResY);
      scale := 1.0 * 2.0 / ResX as real;
      new;
      ms.SetRegion(0.0, 0.0, scale);
      InitialScaleGivesDefaultRange(ResX);
    }

    /**
      A click at (mouseX, mouseY): the point under the mouse, taken in the
      region before the click, becomes the centre of a region five times
      smaller, and the grid restarts.
     */
    method MouseClicked(mouseX: real, mouseY: real)
      requires Valid()
      modifies this`scale, ms, ms.Cells
      ensures Valid()
      ensures scale == old(scale) * ZoomFactor
      ensures ms.GetPixelComplex(ResX as real / 2.0, ResY as real / 2.0) == old(ms.GetPixelComplex(mouseX, mouseY))
      ensures ms.reMax - ms.reMin == ZoomFactor * old(ms.reMax - ms.reMin)
      ensures ms.imMax - ms.imMin == ZoomFactor * old(ms.imMax - ms.imMin)
      ensures ms.step == 0
    {
      var c := ms.GetPixelComplex(mouseX, mouseY);
      scale := scale * ZoomFactor;
      ms.SetRegion(c.re, c.im, scale);
    }
  }
}
