/**
  Complex numbers over exact reals. The sketch keeps the real and imaginary
  parts of every number in separate JavaScript doubles; this model uses Dafny's
  `real` instead, so all arithmetic here is exact and IEEE-754 rounding is not
  modelled.
 */
module ComplexPlane {

  datatype Complex = Complex(re: real, im: real)

  const Zero := Complex(0.0, 0.0)

  function Add(a: Complex, b: Complex): Complex
  {
    Complex(a.re + b.re, a.im + b.im)
  }

  /**
    Complex multiplication (re, im) * (re', im'). The ensures is a helper fact
    for the orbit proofs: zero times anything is zero.
   */
  function Mul(a: Complex, b: Complex): (r: Complex)
    ensures a == Zero ==> r == Zero
  {
    Complex(a.re * b.re - a.im * b.im, a.re * b.im + a.im * b.re)
  }

  /** The squared modulus |z|^2, which avoids a square root. */
  function NormSq(z: Complex): real
  {
    z.re * z.re + z.im * z.im
  }
}
