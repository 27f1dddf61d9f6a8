/**
  The linear re-mapping the sketch uses to turn pixel coordinates into points
  of the complex plane: p5's `map(n, start1, stop1, start2, stop2)` with its
  default of no clamping, so values outside [start1, stop1] extrapolate.
 */
module Viewport {

  /** p5's map: the value n of the range [start1, stop1] moved linearly onto [start2, stop2]. */
  function MapRange(n: real, start1: real, stop1: real, start2: real, stop2: real): (r: real)
    requires start1 != stop1
    ensures n == start1 ==> r == start2
    ensures n == stop1 ==> r == stop2
  {
    var width := stop1 - start1;
    var t := (n - start1) / width;
    assert width / width == 1.0;
    assert n == start1 ==> t == 0.0;
    assert n == stop1 ==> t == width / width;
    t * (stop2 - start2) + start2
  }

  /** Helper: MapRange written as interpolation from start2 by the fraction t = (n - start1) / (stop1 - start1). */
  lemma MapRangeIsInterpolation(n: real, start1: real, stop1: real, start2: real, stop2: real)
    requires start1 != stop1
    ensures MapRange(n, start1, stop1, start2, stop2)
         == start2 + ((n - start1) / (stop1 - start1)) * (stop2 - start2)
  {
  }

  /** Mapping back from [start2, stop2] onto [start1, stop1] returns the original value. */
  lemma MapRangeRoundTrip(n: real, start1: real, stop1: real, start2: real, stop2: real)
    requires start1 != stop1 && start2 != stop2
    ensures MapRange(MapRange(n, start1, stop1, start2, stop2), start2, stop2, start1, stop1) == n
  {
    var t := (n - start1) / (stop1 - start1);
    var m := MapRange(n, start1, stop1, start2, stop2);
    assert m - start2 == t * (stop2 - start2);
    assert (m - start2) / (stop2 - start2) == t;
    assert t * (stop1 - start1) == n - start1;
  }

  /** MapRange is affine: it preserves every weighted mean t * a + (1 - t) * b. */
  lemma MapRangeIsAffine(a: real, b: real, t: real, start1: real, stop1: real, start2: real, stop2: real)
    requires start1 != stop1
    ensures MapRange(t * a + (1.0 - t) * b, start1, stop1, start2, stop2)
         == t * MapRange(a, start1, stop1, start2, stop2) + (1.0 - t) * MapRange(b, start1, stop1, start2, stop2)
  {
  }

  /**
    The centre of [0, size] lands on the centre of a range of half-width
    size * scale about `center`, which is the range the sketch's setRegion builds.
   */
  lemma MidpointMapsToCenter(size: nat, center: real, scale: real)
    requires size > 0
    ensures MapRange(size as real / 2.0, 0.0, size as real, center - size as real * scale, center + size as real * scale) == center
  {
  }

  /** The initial scale 2 / size gives the half-width 2, i.e. the range [-2, 2] about 0. */
  lemma InitialScaleGivesDefaultRange(size: nat)
    requires size > 0
    ensures 0.0 - size as real * (1.0 * 2.0 / size as real) == -2.0
    ensures 0.0 + size as real * (1.0 * 2.0 / size as real) == 2.0
  {
  }
}
