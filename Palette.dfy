/**
  The stroke colour of a frame, chosen from the frame counter alone. The RGB
  values of the sixteen-entry gradient table are not modelled: a colour is
  black, white or the index of a slot of that table.
 */
module Palette {

  const PaletteSize: nat := 16
  /** From this frame count on every drawn pixel is white. */
  const WhiteAfter: nat := 100

  datatype Colour = Black | White | Slot(index: nat)

  function GetColor(step: nat): (r: Colour)
    ensures r == Black <==> step == 0
    ensures r == White <==> step > WhiteAfter
    ensures r.Slot? ==> r.index < PaletteSize && r.index == step % PaletteSize
  {
    if step == 0 then Black
    else if step > WhiteAfter then White
    else Slot(step % PaletteSize)
  }

  /** Between the first frame and the white ceiling the gradient repeats with period 16. */
  lemma GradientRepeats(step: nat)
    requires 0 < step && step + PaletteSize <= WhiteAfter
    ensures GetColor(step + PaletteSize) == GetColor(step)
    ensures GetColor(step).Slot?
  {
  }
}
