# Mandelbrot set explorer: escape-time engine and viewport

A Dafny model of the computational core of a p5.js sketch (`sketch.js`) that
draws the Mandelbrot set incrementally. Every pixel owns a small iterator of
z := z^2 + c, started at z = 0 with c the pixel's point of the plane. Each
display frame advances every pixel that has not yet left the disc of radius 2
by one step and draws it in a colour picked from the frame counter. A click
recentres the view on the clicked point and zooms in five-fold, which restarts
every pixel.

Files and modules:

- `Complex.dfy` (`ComplexPlane`): complex numbers over exact reals.
- `Escape.dfy` (`Escape`): the recurrence as pure functions.
  - `StepZ` is one step and `Escaped` is the test |z|^2 > 4.
  - `Iterate` is the orbit of 0.
  - `StepsTaken(c, n)` is how many steps a pixel has taken after n frames.
  - The class `MandelbrotFunction` is the per-pixel object of the sketch, with fields updated in place.
- `Viewport.dfy` (`Viewport`): p5's `map`, the linear re-mapping used to turn pixels into points, and its properties.
- `Palette.dfy` (`Palette`): the frame-counter colour rule.
- `Graph.dfy` (`Graph`): the class `MandelbrotSetGraph`.
  - It holds an `array2` of distinct `MandelbrotFunction` objects, the region rectangle and the frame counter.
  - Its invariant `Valid()` says that every cell's c is its pixel's point in the current region.
  - It also says that every cell's z is `Iterate(c, StepsTaken(c, step))`. So the grid after n frames is exactly the escape-time state of each pixel capped at n.
- `Sketch.dfy` (`Sketch`): the module-level globals `ms` and `scale` as one object. It holds the set-up of the region and the click handler.

Coordinates are Dafny `real`s, so all arithmetic is exact. The sketch uses
IEEE doubles. The exact identities proved here, such as "the centre pixel maps
exactly to the centre", hold only approximately there.

The sketch has no iteration cap, and neither does the model. No iteration
count or escape flag is stored; escape is always recomputed from z, as the
code does. `StepsTaken` together with the grid invariant gives what such a
count would.

The region is not required to satisfy re_min < re_max: `setRegion` accepts
any scale, zero and negative included, and so does the model.

## Model

| member | source | states |
|---|---|---|
| `Palette.GetColor` | sketch.js:46-54 | Frame 0 is black, and a step over 100 is white (both as iff). Every other step gives gradient slot `step % 16`, always below 16. |
| `Palette.GradientRepeats` | sketch.js:46-54 | Between frame 1 and the white ceiling, the colour repeats with period 16 and is always a gradient slot. |
| `Escape.MandelbrotFunction.constructor` | sketch.js:62-67 | A new cell starts at z = 0 with the given c. |
| `Escape.MandelbrotFunction.Initialize` | sketch.js:69-74 | Resets z to 0 and stores the new c. |
| `Escape.MandelbrotFunction.Step` | sketch.js:80-85 | The new z is the complex square of the old z plus c, both parts computed from the old z. c is unchanged. |
| `Escape.MandelbrotFunction.IsOutOfMandelbrotSet` | sketch.js:90-92 | True iff the squared modulus of z exceeds 4, i.e. the distance to the origin exceeds 2. |
| `Escape.FirstStepIsC` | sketch.js:69-92 | One step from z = 0 gives z = c. So a point is out after its first step iff its squared modulus exceeds 4. |
| `Escape.ZeroNeverEscapes` | sketch.js:80-92 | The orbit of c = 0 stays at 0 for any number of steps and is never out. |
| `Escape.AdvanceOneFrame` | sketch.js:154-159 | One more frame moves the grid's per-cell state as the frame rule says: an out cell is kept, any other cell is stepped. |
| `Escape.StepsTakenIsEscapeTime` | sketch.js:151-164 | After n frames a cell has taken at most n steps, and all its earlier iterates were inside. It has taken fewer than n only if it is out. |
| `Escape.InsideMeansEveryFrameStepped` | sketch.js:151-164 | A cell that is inside after n frames was stepped in every one of them. |
| `Escape.EscapedStaysFrozen` | sketch.js:151-164 | Once a cell is out, any number of later frames leave its step count, and so its z, unchanged. |
| `Escape.FirstFrameStepsEveryCell` | sketch.js:151-164 | z = 0 is inside, so the first frame after initialization steps every cell. |
| `Escape.LargeConstantEscapesInFirstFrame` | sketch.js:146-166 | A point with squared modulus above 4 is stepped exactly once, in the first frame, and is out from then on. |
| `Escape.ZeroIsSteppedEveryFrame` | sketch.js:146-166 | The point c = 0 is stepped in every frame. |
| `Viewport.MapRange` | sketch.js:97-98 | The start of the source range maps to the start of the target range, and the end to the end. |
| `Viewport.MapRangeRoundTrip` | sketch.js:97-98 | Mapping a value onto the target range and back onto the source range returns it unchanged, whenever both ranges are non-degenerate: the pixel-to-plane map is invertible. |
| `Viewport.MapRangeIsAffine` | sketch.js:96-100 | The map preserves every weighted mean t * a + (1 - t) * b. There is no clamping. |
| `Viewport.MidpointMapsToCenter` | sketch.js:137-140 | The middle of [0, res] lands exactly on the centre of the range that `setRegion` builds about a centre. |
| `Viewport.InitialScaleGivesDefaultRange` | sketch.js:15-16 | The initial scale 2 / res gives the range [-2, 2] about 0. |
| `Graph.MandelbrotSetGraph.GetPixelComplex` | sketch.js:96-100 | Pixel (0, 0) maps to (re_min, im_min) and pixel (res_x, res_y) to (re_max, im_max). Every pixel, inside the grid or not, maps to re_min + x / res_x * (re_max - re_min), and likewise for the imaginary part. |
| `Graph.MandelbrotSetGraph.constructor` | sketch.js:102-123 | The region is [-2, 2] x [-2, 2] and the counter is 0. Every pixel gets its own fresh cell with z = 0 and c its point. The grid invariant holds. |
| `Graph.MandelbrotSetGraph.Initialize` | sketch.js:125-134 | The counter is 0 and every cell has z = 0 and c its pixel's point. The region is not modified, and the grid invariant holds. |
| `Graph.MandelbrotSetGraph.SetRegion` | sketch.js:136-144 | The region becomes centre -/+ res_x * scale and centre -/+ res_y * scale. The middle pixel maps exactly to the centre, and the grid is reinitialised as by Initialize. |
| `Graph.MandelbrotSetGraph.Draw` | sketch.js:146-166 | A cell out at the start of the frame is unchanged, and every other cell is stepped exactly once. No c changes and the counter grows by 1. The colour is that of the old counter. The drawn pixels are exactly the cells not out at frame start, in scan order without repeats. The grid invariant is kept. |
| `Graph.MandelbrotSetGraph.DrawColumn` | sketch.js:152-161 | The inner loop of a frame: column x is advanced as Draw says, and every other column is unchanged. |
| `Graph.MandelbrotSetGraph.FrameZeroIsInitialState` | sketch.js:125-134 | A consistent grid at frame 0 has every cell at z = 0 on its pixel's point. So a second Initialize gives the same grid as the first. |
| `Graph.MandelbrotSetGraph.InsideCellHasStepEveryFrame` | sketch.js:151-164 | A cell still inside has z equal to its point's orbit after exactly `step` steps. |
| `Graph.MandelbrotSetGraph.EscapedCellStaysFrozen` | sketch.js:151-164 | A cell that is out has the z that the invariant demands after any later number of frames. Across later `Draw` calls (which keep the invariant and every c) it stays out and frozen until the next initialization. |
| `Sketch.Sketch.constructor` | sketch.js:14-16 | Set-up makes a 400 x 400 grid with scale 2 / 400 and recentres it on 0. This gives the region [-2, 2] x [-2, 2] at frame 0. |
| `Sketch.Sketch.MouseClicked` | sketch.js:40-44 | The scale is multiplied by 0.2, and so is the region's extent in both directions. The point under the mouse, taken in the old region, becomes the exact centre of the new one. The grid restarts at frame 0. |

## Left out

- The p5 drawing calls `stroke` and `point` (sketch.js:148, 160) are foreign I/O. `Draw` instead returns the frame's colour and the list of pixels it would draw.
- `createCanvas` and `frameRate` in `setup` (sketch.js:10-11), and the `draw` callback that only calls `ms.draw()` (sketch.js:36-38), are event wiring of the p5 runtime.
- `mouseX` and `mouseY` are not modelled as inputs from the window system. They are parameters of `MouseClicked`.
- `console.log` (sketch.js:141, 165) is debugging output only.
- The RGB values of the sixteen-entry gradient table (sketch.js:18-33) are left out. A colour is `Black`, `White` or `Slot(i)`.
- IEEE-754 double rounding is not modelled, because all coordinates are exact `real`s.
- The grid and `GetPixelComplex` require `res_x > 0` and `res_y > 0`. In the source a zero-sized grid is simply empty: the loops of the constructor, `initialize` and `draw` never run. Only a click's `getPixelComplex` would divide by zero, giving NaN or Infinity rather than an exception. The precondition therefore also excludes that empty grid, which the source accepts.
- The nested JavaScript arrays `data[x][y]` are one `array2`, and its cells are distinct objects.
- The inner `for y` loop of `draw` is the separate method `DrawColumn`, to keep each proof small. The order of steps and draws is unchanged.
- The constructor computes each cell's point with `map` on the literal default region `[-2, 2]`, where the source calls `getPixelComplex` on the freshly set fields. The values are the same.
