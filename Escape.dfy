/**
  The escape-time recurrence z := z^2 + c for one point of the plane, both as
  pure functions (the orbit and how far one cell of the grid has advanced after
  a number of frames) and as the mutable per-pixel object of the sketch.
 */
module Escape {
  import opened ComplexPlane

  /** One application of f(z) = z^2 + c. */
  function StepZ(z: Complex, c: Complex): Complex
  {
    Add(Mul(z, z), c)
  }

  /** Out of the Mandelbrot set: the distance to the origin exceeds 2. */
  predicate Escaped(z: Complex)
  {
    NormSq(z) > 4.0
  }

  /** The orbit of 0 under f: the value of z after k steps from z = 0. */
  function Iterate(c: Complex, k: nat): Complex
  {
    if k == 0 then Zero else StepZ(Iterate(c, k - 1), c)
  }

  /**
    What one frame does to a cell: a cell that is out at the start of the frame
    is left alone, any other cell is stepped once.
   */
  function Advance(z: Complex, c: Complex): Complex
  {
    if Escaped(z) then z else StepZ(z, c)
  }

  /**
    The number of steps a cell with constant c has taken after `frames` frames
    since its initialization.
   */
  function StepsTaken(c: Complex, frames: nat): nat
  {
    if frames == 0 then 0
    else
      var k := StepsTaken(c, frames - 1);
      if Escaped(Iterate(c, k)) then k else k + 1
  }

  /** The first step is z := c: a point is out after one step iff |c| > 2. */
  lemma FirstStepIsC(c: Complex)
    ensures Iterate(c, 1) == c
    ensures Escaped(Iterate(c, 1)) <==> NormSq(c) > 4.0
  {
    assert Iterate(c, 0) == Zero;
    assert Mul(Zero, Zero) == Zero;
  }

  /** The orbit of c = 0 stays at 0 and so never leaves the set. */
  lemma {:induction false} ZeroNeverEscapes(k: nat)
    ensures Iterate(Zero, k) == Zero
    ensures !Escaped(Iterate(Zero, k))
  {
    if k > 0 {
      ZeroNeverEscapes(k - 1);
      assert Iterate(Zero, k) == StepZ(Iterate(Zero, k - 1), Zero);
      assert StepZ(Zero, Zero) == Zero;
    }
    assert !Escaped(Zero);
  }

  /** Advancing the frame-state by one frame is applying Advance to the cell. */
  lemma AdvanceOneFrame(c: Complex, frames: nat)
    ensures Iterate(c, StepsTaken(c, frames + 1)) == Advance(Iterate(c, StepsTaken(c, frames)), c)
  {
  }

  /**
    StepsTaken is the escape time capped at the frame count: it never exceeds
    the number of frames, every earlier iterate was still inside, and it falls
    short of the frame count only when the cell has escaped.
   */
  lemma {:induction false} StepsTakenIsEscapeTime(c: Complex, frames: nat)
    ensures StepsTaken(c, frames) <= frames
    ensures forall j :: 0 <= j < StepsTaken(c, frames) ==> !Escaped(Iterate(c, j))
    ensures StepsTaken(c, frames) < frames ==> Escaped(Iterate(c, StepsTaken(c, frames)))
  {
    if frames > 0 {
      StepsTakenIsEscapeTime(c, frames - 1);
    }
  }

  /** A cell that is inside after some frames has been stepped in every frame. */
  lemma InsideMeansEveryFrameStepped(c: Complex, frames: nat)
    ensures !Escaped(Iterate(c, StepsTaken(c, frames))) ==> StepsTaken(c, frames) == frames
  {
    StepsTakenIsEscapeTime(c, frames);
  }

  /** Once a cell is out it stays out, frozen, through any number of later frames. */
  lemma {:induction false} EscapedStaysFrozen(c: Complex, frames: nat, later: nat)
    requires Escaped(Iterate(c, StepsTaken(c, frames)))
    requires frames <= later
    ensures StepsTaken(c, later) == StepsTaken(c, frames)
  {
    if frames < later {
      EscapedStaysFrozen(c, frames, later - 1);
    }
  }

  /** z = 0 is inside the set, so the first frame after initialization steps every cell. */
  lemma FirstFrameStepsEveryCell(c: Complex)
    ensures !Escaped(Iterate(c, 0))
    ensures StepsTaken(c, 1) == 1
  {
  }

  /** A point with |c| > 2 takes exactly one step, in the first frame, and is then out. */
  lemma LargeConstantEscapesInFirstFrame(c: Complex, frames: nat)
    requires NormSq(c) > 4.0
    requires frames >= 1
    ensures StepsTaken(c, frames) == 1
    ensures Escaped(Iterate(c, StepsTaken(c, frames)))
  {
    FirstStepIsC(c);
    FirstFrameStepsEveryCell(c);
    EscapedStaysFrozen(c, 1, frames);
  }

  /** c = 0 is stepped in every frame and never drawn as escaped. */
  lemma ZeroIsSteppedEveryFrame(frames: nat)
    ensures StepsTaken(Zero, frames) == frames
  {
    ZeroNeverEscapes(StepsTaken(Zero, frames));
    InsideMeansEveryFrameStepped(Zero, frames);
  }

  /**
    One pixel of the picture: the current orbit value z and the constant c.
    The sketch recomputes "out of the set" from z every time; no iteration
    count or escape flag is stored.
   */
  class MandelbrotFunction {
    var zRe: real
    var zIm: real
    var cRe: real
    var cIm: real

    function Z(): Complex
      reads this
    {
      Complex(zRe, zIm)
    }

    function C(): Complex
      reads this
    {
      Complex(cRe, cIm)
    }

    constructor (cRe: real, cIm: real)
      ensures Z() == Zero && C() == Complex(cRe, cIm)
    {
      this.zRe := 0.0;
      this.zIm := 0.0;
      this.cRe := cRe;
      this.cIm := cIm;
    }

    method Initialize(cRe: real, cIm: real)
      modifies this
      ensures Z() == Zero && C() == Complex(cRe, cIm)
    {
      this.zRe := 0.0;
      this.zIm := 0.0;
      this.cRe := cRe;
      this.cIm := cIm;
    }

    /** One step of f(z) = z^2 + c, both new parts computed from the old z. */
    method Step()
      modifies this
      ensures Z() == StepZ(old(Z()), old(C()))
      ensures C() == old(C())
    {
      var re := zRe * zRe - zIm * zIm + cRe;
      var im := zRe * zIm + zIm * zRe + cIm;
      zRe := re;
      zIm := im;
    }

    predicate IsOutOfMandelbrotSet()
      reads this
      ensures IsOutOfMandelbrotSet() <==> Escaped(Z())
    {
      zRe * zRe + zIm * zIm > 4.0
    }
  }
}
