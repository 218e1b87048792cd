/** Exact complex arithmetic on pairs of reals, built from the kernel's two
    multiplication helpers zmultr and zmulti. */
module ComplexArith {

  datatype Complex = Complex(re: real, im: real)

  const Zero: Complex := Complex(0.0, 0.0)

  /** The imaginary unit. */
  const I: Complex := Complex(0.0, 1.0)

  /** zmultr: real part of (ar + ai i)(br + bi i). */
  function ZMulR(ar: real, ai: real, br: real, bi: real): real
  {
    (ar * br) - (ai * bi)
  }

  /** zmulti: imaginary part of (ar + ai i)(br + bi i). */
  function ZMulI(ar: real, ai: real, br: real, bi: real): real
  {
    (ar * bi) + (ai * br)
  }

  function Add(a: Complex, b: Complex): Complex
  {
    Complex(a.re + b.re, a.im + b.im)
  }

  /** The product the kernel forms: real part by zmultr, imaginary part by zmulti. */
  function Mul(a: Complex, b: Complex): Complex
  {
    Complex(ZMulR(a.re, a.im, b.re, b.im), ZMulI(a.re, a.im, b.re, b.im))
  }

  function Conj(a: Complex): Complex
  {
    Complex(a.re, -a.im)
  }

  /** Squared modulus |a|^2. */
  function Norm2(a: Complex): real
  {
    a.re * a.re + a.im * a.im
  }

  /** a * x + b * y. */
  function Lincomb(a: Complex, x: Complex, b: Complex, y: Complex): Complex
  {
    Add(Mul(a, x), Mul(b, y))
  }

  /** zmultr/zmulti multiply as complex numbers do: i * i = -1, reals multiply as reals,
      and the product is commutative, associative and distributes over addition. */
  lemma MulIsComplexProduct(a: Complex, b: Complex, c: Complex, x: real, y: real)
    ensures Mul(I, I) == Complex(-1.0, 0.0)
    ensures Mul(Complex(x, 0.0), Complex(y, 0.0)) == Complex(x * y, 0.0)
    ensures Mul(a, b) == Mul(b, a)
    ensures Mul(a, Mul(b, c)) == Mul(Mul(a, b), c)
    ensures Mul(a, Add(b, c)) == Add(Mul(a, b), Mul(a, c))
  {
    MulAssociates(a, b, c);
  }

  lemma MulAssociates(a: Complex, b: Complex, c: Complex)
    ensures Mul(a, Mul(b, c)) == Mul(Mul(a, b), c)
  {
    var p, q := Mul(a, Mul(b, c)), Mul(Mul(a, b), c);
    assert p.re == a.re * (b.re * c.re - b.im * c.im) - a.im * (b.re * c.im + b.im * c.re);
    assert q.re == (a.re * b.re - a.im * b.im) * c.re - (a.re * b.im + a.im * b.re) * c.im;
    assert p.im == a.re * (b.re * c.im + b.im * c.re) + a.im * (b.re * c.re - b.im * c.im);
    assert q.im == (a.re * b.re - a.im * b.im) * c.im + (a.re * b.im + a.im * b.re) * c.re;
  }

  /** The modulus is multiplicative: |a b|^2 = |a|^2 |b|^2. */
  lemma NormMultiplicative(a: Complex, b: Complex)
    ensures Norm2(Mul(a, b)) == Norm2(a) * Norm2(b)
  {
    var ar, ai, br, bi := a.re, a.im, b.re, b.im;
    calc {
      Norm2(Mul(a, b));
      (ar * br - ai * bi) * (ar * br - ai * bi) + (ar * bi + ai * br) * (ar * bi + ai * br);
      (ar * ar) * (br * br) + (ai * ai) * (bi * bi) + (ar * ar) * (bi * bi) + (ai * ai) * (br * br);
      (ar * ar + ai * ai) * (br * br + bi * bi);
    }
  }

  /** A real factor scales both parts: this is how the kernels multiply when one operand is real. */
  lemma MulReal(c: Complex, x: real)
    ensures Mul(Complex(x, 0.0), c) == Complex(x * c.re, x * c.im)
    ensures Mul(c, Complex(x, 0.0)) == Complex(c.re * x, c.im * x)
  {
  }

  /** A number times its conjugate is the real number |a|^2. */
  lemma ConjTimesSelf(a: Complex)
    ensures Mul(Conj(a), a) == Complex(Norm2(a), 0.0)
  {
  }

  /** Conjugation commutes with addition and multiplication. */
  lemma ConjHomomorphism(a: Complex, b: Complex)
    ensures Conj(Add(a, b)) == Add(Conj(a), Conj(b))
    ensures Conj(Mul(a, b)) == Mul(Conj(a), Conj(b))
    ensures Conj(Conj(a)) == a
  {
  }

  /** Multiplying a linear combination on the right. */
  lemma LincombMulRight(a: Complex, x: Complex, b: Complex, y: Complex, s: Complex)
    ensures Mul(Lincomb(a, x, b, y), s) == Lincomb(a, Mul(x, s), b, Mul(y, s))
  {
    MulAssociates(a, x, s);
    MulAssociates(b, y, s);
  }

  /** Multiplying a linear combination on the left. */
  lemma LincombMulLeft(w: Complex, a: Complex, x: Complex, b: Complex, y: Complex)
    ensures Mul(w, Lincomb(a, x, b, y)) == Lincomb(a, Mul(w, x), b, Mul(w, y))
  {
    MulAssociates(w, a, x);
    MulAssociates(a, w, x);
    MulAssociates(w, b, y);
    MulAssociates(b, w, y);
    assert Mul(w, a) == Mul(a, w) && Mul(w, b) == Mul(b, w);
  }

  /** Adding two linear combinations with the same coefficients. */
  lemma LincombAdd(a: Complex, x1: Complex, b: Complex, y1: Complex, x2: Complex, y2: Complex)
    ensures Add(Lincomb(a, x1, b, y1), Lincomb(a, x2, b, y2)) == Lincomb(a, Add(x1, x2), b, Add(y1, y2))
  {
  }

  lemma LincombZero(a: Complex, b: Complex)
    ensures Lincomb(a, Zero, b, Zero) == Zero
  {
  }
}
