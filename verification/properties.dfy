/** Properties of the grown block as a function of the operands.

    A GrowLeft step is the transfer map of one site: for fixed site tensor and
    operator it is linear in the left block, so a zero left block grows into a
    zero block; and on a single site with all extents 1 it reduces to
    |A|^2 * W * L, which shows that the conjugated copy of A is the bra copy. */
module GrowLeftProperties {
  import opened Index
  import opened ComplexArith
  import opened GrowLeftSpec

  /** g3 has the shape, site tensor and operator of g1 and g2, and its left
      block is a * (left block of g1) + b * (left block of g2), element by element. */
  predicate LeftCombined(g3: Inputs, g1: Inputs, g2: Inputs, a: Complex, b: Complex)
    requires WellShaped(g1) && WellShaped(g2) && WellShaped(g3)
  {
    g1.sh == g3.sh && g2.sh == g3.sh
    && g1.site == g3.site && g2.site == g3.site
    && g1.mpo == g3.mpo && g2.mpo == g3.mpo
    && forall i: nat | i < Product(LeftDims(g3.sh)) ::
         At(g3.left, i) == Lincomb(a, At(g1.left, i), b, At(g2.left, i))
  }

  lemma LeftElementCombined(g3: Inputs, g1: Inputs, g2: Inputs, a: Complex, b: Complex,
                            conjCol: nat, opRow: nat, row: nat)
    requires WellShaped(g1) && WellShaped(g2) && WellShaped(g3) && LeftCombined(g3, g1, g2, a, b)
    requires conjCol < g3.sh.row && opRow < g3.sh.opRow && row < g3.sh.row
    ensures Left(g3, conjCol, opRow, row) == Lincomb(a, Left(g1, conjCol, opRow, row), b, Left(g2, conjCol, opRow, row))
  {
    var i := A3Dex(conjCol, opRow, row, LeftDims(g3.sh));
    assert i < Product(LeftDims(g3.sh));
  }

  lemma {:induction false} RowSumLinear(g3: Inputs, g1: Inputs, g2: Inputs, a: Complex, b: Complex,
                                        conjCol: nat, opRow: nat, bra: nat, ket: nat, col: nat, n: nat)
    requires WellShaped(g1) && WellShaped(g2) && WellShaped(g3) && LeftCombined(g3, g1, g2, a, b)
    requires n <= g3.sh.row
    requires conjCol < g3.sh.row && opRow < g3.sh.opRow && bra < g3.sh.hilby && ket < g3.sh.hilby && col < g3.sh.col
    ensures RowSum(g3, conjCol, opRow, bra, ket, col, n)
         == Lincomb(a, RowSum(g1, conjCol, opRow, bra, ket, col, n), b, RowSum(g2, conjCol, opRow, bra, ket, col, n))
  {
    if n == 0 {
      LincombZero(a, b);
    } else {
      RowSumLinear(g3, g1, g2, a, b, conjCol, opRow, bra, ket, col, n - 1);
      LeftElementCombined(g3, g1, g2, a, b, conjCol, opRow, n - 1);
      var s := Site(g3, n - 1, col, bra, ket);
      assert Site(g1, n - 1, col, bra, ket) == s && Site(g2, n - 1, col, bra, ket) == s;
      LincombMulRight(a, Left(g1, conjCol, opRow, n - 1), b, Left(g2, conjCol, opRow, n - 1), s);
      LincombAdd(a, RowSum(g1, conjCol, opRow, bra, ket, col, n - 1), b, RowSum(g2, conjCol, opRow, bra, ket, col, n - 1),
                 Mul(Left(g1, conjCol, opRow, n - 1), s), Mul(Left(g2, conjCol, opRow, n - 1), s));
    }
  }

  lemma {:induction false} OpRowSumLinear(g3: Inputs, g1: Inputs, g2: Inputs, a: Complex, b: Complex,
                                          conjCol: nat, conjBra: nat, conjKet: nat, bra: nat, ket: nat,
                                          col: nat, opCol: nat, n: nat)
    requires WellShaped(g1) && WellShaped(g2) && WellShaped(g3) && LeftCombined(g3, g1, g2, a, b)
    requires n <= g3.sh.opRow
    requires conjCol < g3.sh.row && conjBra < g3.sh.hilby && conjKet < g3.sh.hilby
    requires bra < g3.sh.hilby && ket < g3.sh.hilby && col < g3.sh.col && opCol < g3.sh.opCol
    ensures OpRowSum(g3, conjCol, conjBra, conjKet, bra, ket, col, opCol, n)
         == Lincomb(a, OpRowSum(g1, conjCol, conjBra, conjKet, bra, ket, col, opCol, n),
                    b, OpRowSum(g2, conjCol, conjBra, conjKet, bra, ket, col, opCol, n))
  {
    if n == 0 {
      LincombZero(a, b);
    } else {
      OpRowSumLinear(g3, g1, g2, a, b, conjCol, conjBra, conjKet, bra, ket, col, opCol, n - 1);
      RowSumLinear(g3, g1, g2, a, b, conjCol, n - 1, bra, ket, col, g3.sh.row);
      var w := Mpo(g3, conjBra, conjKet, bra, ket, n - 1, opCol);
      assert Mpo(g1, conjBra, conjKet, bra, ket, n - 1, opCol) == w && Mpo(g2, conjBra, conjKet, bra, ket, n - 1, opCol) == w;
      var r1, r2 := RowSum(g1, conjCol, n - 1, bra, ket, col, g3.sh.row), RowSum(g2, conjCol, n - 1, bra, ket, col, g3.sh.row);
      LincombMulLeft(w, a, r1, b, r2);
      LincombAdd(a, OpRowSum(g1, conjCol, conjBra, conjKet, bra, ket, col, opCol, n - 1),
                 b, OpRowSum(g2, conjCol, conjBra, conjKet, bra, ket, col, opCol, n - 1), Mul(w, r1), Mul(w, r2));
    }
  }

  lemma {:induction false} KetSumLinear(g3: Inputs, g1: Inputs, g2: Inputs, a: Complex, b: Complex,
                                        conjCol: nat, conjBra: nat, conjKet: nat, bra: nat,
                                        col: nat, opCol: nat, n: nat)
    requires WellShaped(g1) && WellShaped(g2) && WellShaped(g3) && LeftCombined(g3, g1, g2, a, b)
    requires n <= g3.sh.hilby
    requires conjCol < g3.sh.row && conjBra < g3.sh.hilby && conjKet < g3.sh.hilby
    requires bra < g3.sh.hilby && col < g3.sh.col && opCol < g3.sh.opCol
    ensures KetSum(g3, conjCol, conjBra, conjKet, bra, col, opCol, n)
         == Lincomb(a, KetSum(g1, conjCol, conjBra, conjKet, bra, col, opCol, n),
                    b, KetSum(g2, conjCol, conjBra, conjKet, bra, col, opCol, n))
  {
    if n == 0 {
      LincombZero(a, b);
    } else {
      KetSumLinear(g3, g1, g2, a, b, conjCol, conjBra, conjKet, bra, col, opCol, n - 1);
      OpRowSumLinear(g3, g1, g2, a, b, conjCol, conjBra, conjKet, bra, n - 1, col, opCol, g3.sh.opRow);
      LincombAdd(a, KetSum(g1, conjCol, conjBra, conjKet, bra, col, opCol, n - 1),
                 b, KetSum(g2, conjCol, conjBra, conjKet, bra, col, opCol, n - 1),
                 OpRowSum(g1, conjCol, conjBra, conjKet, bra, n - 1, col, opCol, g3.sh.opRow),
                 OpRowSum(g2, conjCol, conjBra, conjKet, bra, n - 1, col, opCol, g3.sh.opRow));
    }
  }

  lemma {:induction false} BraSumLinear(g3: Inputs, g1: Inputs, g2: Inputs, a: Complex, b: Complex,
                                        conjCol: nat, conjBra: nat, conjKet: nat, col: nat, opCol: nat, n: nat)
    requires WellShaped(g1) && WellShaped(g2) && WellShaped(g3) && LeftCombined(g3, g1, g2, a, b)
    requires n <= g3.sh.hilby
    requires conjCol < g3.sh.row && conjBra < g3.sh.hilby && conjKet < g3.sh.hilby
    requires col < g3.sh.col && opCol < g3.sh.opCol
    ensures BraSum(g3, conjCol, conjBra, conjKet, col, opCol, n)
         == Lincomb(a, BraSum(g1, conjCol, conjBra, conjKet, col, opCol, n),
                    b, BraSum(g2, conjCol, conjBra, conjKet, col, opCol, n))
  {
    if n == 0 {
      LincombZero(a, b);
    } else {
      BraSumLinear(g3, g1, g2, a, b, conjCol, conjBra, conjKet, col, opCol, n - 1);
      KetSumLinear(g3, g1, g2, a, b, conjCol, conjBra, conjKet, n - 1, col, opCol, g3.sh.hilby);
      LincombAdd(a, BraSum(g1, conjCol, conjBra, conjKet, col, opCol, n - 1),
                 b, BraSum(g2, conjCol, conjBra, conjKet, col, opCol, n - 1),
                 KetSum(g1, conjCol, conjBra, conjKet, n - 1, col, opCol, g3.sh.hilby),
                 KetSum(g2, conjCol, conjBra, conjKet, n - 1, col, opCol, g3.sh.hilby));
    }
  }

  lemma {:induction false} ConjKetSumLinear(g3: Inputs, g1: Inputs, g2: Inputs, a: Complex, b: Complex,
                                            conjRow: nat, conjCol: nat, conjBra: nat, col: nat, opCol: nat, n: nat)
    requires WellShaped(g1) && WellShaped(g2) && WellShaped(g3) && LeftCombined(g3, g1, g2, a, b)
    requires n <= g3.sh.hilby
    requires conjRow < g3.sh.col && conjCol < g3.sh.row && conjBra < g3.sh.hilby
    requires col < g3.sh.col && opCol < g3.sh.opCol
    ensures ConjKetSum(g3, conjRow, conjCol, conjBra, col, opCol, n)
         == Lincomb(a, ConjKetSum(g1, conjRow, conjCol, conjBra, col, opCol, n),
                    b, ConjKetSum(g2, conjRow, conjCol, conjBra, col, opCol, n))
  {
    if n == 0 {
      LincombZero(a, b);
    } else {
      ConjKetSumLinear(g3, g1, g2, a, b, conjRow, conjCol, conjBra, col, opCol, n - 1);
      BraSumLinear(g3, g1, g2, a, b, conjCol, conjBra, n - 1, col, opCol, g3.sh.hilby);
      var c := Conj(Site(g3, conjCol, conjRow, conjBra, n - 1));
      assert Conj(Site(g1, conjCol, conjRow, conjBra, n - 1)) == c && Conj(Site(g2, conjCol, conjRow, conjBra, n - 1)) == c;
      var w1, w2 := BraSum(g1, conjCol, conjBra, n - 1, col, opCol, g3.sh.hilby), BraSum(g2, conjCol, conjBra, n - 1, col, opCol, g3.sh.hilby);
      LincombMulLeft(c, a, w1, b, w2);
      LincombAdd(a, ConjKetSum(g1, conjRow, conjCol, conjBra, col, opCol, n - 1),
                 b, ConjKetSum(g2, conjRow, conjCol, conjBra, col, opCol, n - 1), Mul(c, w1), Mul(c, w2));
    }
  }

  lemma {:induction false} ConjBraSumLinear(g3: Inputs, g1: Inputs, g2: Inputs, a: Complex, b: Complex,
                                            conjRow: nat, conjCol: nat, col: nat, opCol: nat, n: nat)
    requires WellShaped(g1) && WellShaped(g2) && WellShaped(g3) && LeftCombined(g3, g1, g2, a, b)
    requires n <= g3.sh.hilby
    requires conjRow < g3.sh.col && conjCol < g3.sh.row && col < g3.sh.col && opCol < g3.sh.opCol
    ensures ConjBraSum(g3, conjRow, conjCol, col, opCol, n)
         == Lincomb(a, ConjBraSum(g1, conjRow, conjCol, col, opCol, n), b, ConjBraSum(g2, conjRow, conjCol, col, opCol, n))
  {
    if n == 0 {
      LincombZero(a, b);
    } else {
      ConjBraSumLinear(g3, g1, g2, a, b, conjRow, conjCol, col, opCol, n - 1);
      ConjKetSumLinear(g3, g1, g2, a, b, conjRow, conjCol, n - 1, col, opCol, g3.sh.hilby);
      LincombAdd(a, ConjBraSum(g1, conjRow, conjCol, col, opCol, n - 1), b, ConjBraSum(g2, conjRow, conjCol, col, opCol, n - 1),
                 ConjKetSum(g1, conjRow, conjCol, n - 1, col, opCol, g3.sh.hilby),
                 ConjKetSum(g2, conjRow, conjCol, n - 1, col, opCol, g3.sh.hilby));
    }
  }

  lemma {:induction false} ConjColSumLinear(g3: Inputs, g1: Inputs, g2: Inputs, a: Complex, b: Complex,
                                            conjRow: nat, col: nat, opCol: nat, n: nat)
    requires WellShaped(g1) && WellShaped(g2) && WellShaped(g3) && LeftCombined(g3, g1, g2, a, b)
    requires n <= g3.sh.row
    requires conjRow < g3.sh.col && col < g3.sh.col && opCol < g3.sh.opCol
    ensures ConjColSum(g3, conjRow, col, opCol, n)
         == Lincomb(a, ConjColSum(g1, conjRow, col, opCol, n), b, ConjColSum(g2, conjRow, col, opCol, n))
  {
    if n == 0 {
      LincombZero(a, b);
    } else {
      ConjColSumLinear(g3, g1, g2, a, b, conjRow, col, opCol, n - 1);
      ConjBraSumLinear(g3, g1, g2, a, b, conjRow, n - 1, col, opCol, g3.sh.hilby);
      LincombAdd(a, ConjColSum(g1, conjRow, col, opCol, n - 1), b, ConjColSum(g2, conjRow, col, opCol, n - 1),
                 ConjBraSum(g1, conjRow, n - 1, col, opCol, g3.sh.hilby),
                 ConjBraSum(g2, conjRow, n - 1, col, opCol, g3.sh.hilby));
    }
  }

  /** For fixed site tensor and operator, the grown block is a complex-linear
      function of the left block. */
  lemma GrownLinear(g3: Inputs, g1: Inputs, g2: Inputs, a: Complex, b: Complex,
                    conjRow: nat, opCol: nat, col: nat)
    requires WellShaped(g1) && WellShaped(g2) && WellShaped(g3) && LeftCombined(g3, g1, g2, a, b)
    requires conjRow < g3.sh.col && opCol < g3.sh.opCol && col < g3.sh.col
    ensures Grown(g3, conjRow, opCol, col) == Lincomb(a, Grown(g1, conjRow, opCol, col), b, Grown(g2, conjRow, opCol, col))
  {
    ConjColSumLinear(g3, g1, g2, a, b, conjRow, col, opCol, g3.sh.row);
  }

  /** A left block of zeros grows into a block of zeros. */
  lemma ZeroLeftBlock(g: Inputs, conjRow: nat, opCol: nat, col: nat)
    requires WellShaped(g)
    requires forall i: nat | i < Product(LeftDims(g.sh)) :: At(g.left, i) == Zero
    requires conjRow < g.sh.col && opCol < g.sh.opCol && col < g.sh.col
    ensures Grown(g, conjRow, opCol, col) == Zero
  {
    forall i: nat | i < Product(LeftDims(g.sh))
      ensures At(g.left, i) == Lincomb(Zero, At(g.left, i), Zero, At(g.left, i))
    {
      LincombZero(Zero, Zero);
    }
    GrownLinear(g, g, g, Zero, Zero, conjRow, opCol, col);
  }

  /** With every extent 1 the step multiplies W * L by |A|^2: the site element
      enters once conjugated and once as is. */
  lemma SingleSite(g: Inputs)
    requires WellShaped(g) && g.sh == Shape(1, 1, 1, 1, 1)
    ensures Grown(g, 0, 0, 0)
         == Mul(Complex(Norm2(Site(g, 0, 0, 0, 0)), 0.0), Mul(Mpo(g, 0, 0, 0, 0, 0, 0), Left(g, 0, 0, 0)))
  {
    var A, W, L := Site(g, 0, 0, 0, 0), Mpo(g, 0, 0, 0, 0, 0, 0), Left(g, 0, 0, 0);
    assert RowSum(g, 0, 0, 0, 0, 0, 1) == Mul(L, A);
    assert OpRowSum(g, 0, 0, 0, 0, 0, 0, 0, 1) == Mul(W, Mul(L, A));
    assert KetSum(g, 0, 0, 0, 0, 0, 0, 1) == Mul(W, Mul(L, A));
    assert BraSum(g, 0, 0, 0, 0, 0, 1) == Mul(W, Mul(L, A));
    assert ConjKetSum(g, 0, 0, 0, 0, 0, 1) == Mul(Conj(A), Mul(W, Mul(L, A)));
    assert ConjBraSum(g, 0, 0, 0, 0, 1) == Mul(Conj(A), Mul(W, Mul(L, A)));
    assert ConjColSum(g, 0, 0, 0, 1) == Mul(Conj(A), Mul(W, Mul(L, A)));
    calc {
      Mul(Conj(A), Mul(W, Mul(L, A)));
      { MulAssociates(W, L, A); }
      Mul(Conj(A), Mul(Mul(W, L), A));
      { assert Mul(Mul(W, L), A) == Mul(A, Mul(W, L)); }
      Mul(Conj(A), Mul(A, Mul(W, L)));
      { MulAssociates(Conj(A), A, Mul(W, L)); }
      Mul(Mul(Conj(A), A), Mul(W, L));
      { ConjTimesSelf(A); }
      Mul(Complex(Norm2(A), 0.0), Mul(W, L));
    }
  }

  /** g and h have the same extents and the same elements, however their
      buffers are laid out. */
  predicate SameElements(g: Inputs, h: Inputs)
    requires WellShaped(g) && WellShaped(h)
  {
    g.sh == h.sh
    && (forall i: nat | i < Product(SiteDims(g.sh)) :: At(g.site, i) == At(h.site, i))
    && (forall i: nat | i < Product(MpoDims(g.sh)) :: At(g.mpo, i) == At(h.mpo, i))
    && (forall i: nat | i < Product(LeftDims(g.sh)) :: At(g.left, i) == At(h.left, i))
  }

  lemma SameLeft(g: Inputs, h: Inputs, conjCol: nat, opRow: nat, row: nat)
    requires WellShaped(g) && WellShaped(h) && SameElements(g, h)
    requires conjCol < g.sh.row && opRow < g.sh.opRow && row < g.sh.row
    ensures Left(g, conjCol, opRow, row) == Left(h, conjCol, opRow, row)
  {
    assert A3Dex(conjCol, opRow, row, LeftDims(g.sh)) < Product(LeftDims(g.sh));
  }

  lemma SameSite(g: Inputs, h: Inputs, row: nat, col: nat, bra: nat, ket: nat)
    requires WellShaped(g) && WellShaped(h) && SameElements(g, h)
    requires row < g.sh.row && col < g.sh.col && bra < g.sh.hilby && ket < g.sh.hilby
    ensures Site(g, row, col, bra, ket) == Site(h, row, col, bra, ket)
  {
    assert A4Dex(row, col, bra, ket, SiteDims(g.sh)) < Product(SiteDims(g.sh));
  }

  lemma SameMpo(g: Inputs, h: Inputs, conjBra: nat, conjKet: nat, bra: nat, ket: nat, opRow: nat, opCol: nat)
    requires WellShaped(g) && WellShaped(h) && SameElements(g, h)
    requires conjBra < g.sh.hilby && conjKet < g.sh.hilby && bra < g.sh.hilby && ket < g.sh.hilby
    requires opRow < g.sh.opRow && opCol < g.sh.opCol
    ensures Mpo(g, conjBra, conjKet, bra, ket, opRow, opCol) == Mpo(h, conjBra, conjKet, bra, ket, opRow, opCol)
  {
    assert A6Dex(conjBra, conjKet, bra, ket, opRow, opCol, MpoDims(g.sh)) < Product(MpoDims(g.sh));
  }

  lemma {:induction false} RowSumSame(g: Inputs, h: Inputs, conjCol: nat, opRow: nat, bra: nat, ket: nat, col: nat, n: nat)
    requires WellShaped(g) && WellShaped(h) && SameElements(g, h) && n <= g.sh.row
    requires conjCol < g.sh.row && opRow < g.sh.opRow && bra < g.sh.hilby && ket < g.sh.hilby && col < g.sh.col
    ensures RowSum(g, conjCol, opRow, bra, ket, col, n) == RowSum(h, conjCol, opRow, bra, ket, col, n)
  {
    if n > 0 {
      RowSumSame(g, h, conjCol, opRow, bra, ket, col, n - 1);
      SameLeft(g, h, conjCol, opRow, n - 1);
      SameSite(g, h, n - 1, col, bra, ket);
    }
  }

  lemma {:induction false} OpRowSumSame(g: Inputs, h: Inputs, conjCol: nat, conjBra: nat, conjKet: nat, bra: nat, ket: nat,
                                        col: nat, opCol: nat, n: nat)
    requires WellShaped(g) && WellShaped(h) && SameElements(g, h) && n <= g.sh.opRow
    requires conjCol < g.sh.row && conjBra < g.sh.hilby && conjKet < g.sh.hilby
    requires bra < g.sh.hilby && ket < g.sh.hilby && col < g.sh.col && opCol < g.sh.opCol
    ensures OpRowSum(g, conjCol, conjBra, conjKet, bra, ket, col, opCol, n)
         == OpRowSum(h, conjCol, conjBra, conjKet, bra, ket, col, opCol, n)
  {
    if n > 0 {
      OpRowSumSame(g, h, conjCol, conjBra, conjKet, bra, ket, col, opCol, n - 1);
      RowSumSame(g, h, conjCol, n - 1, bra, ket, col, g.sh.row);
      SameMpo(g, h, conjBra, conjKet, bra, ket, n - 1, opCol);
    }
  }

  lemma {:induction false} KetSumSame(g: Inputs, h: Inputs, conjCol: nat, conjBra: nat, conjKet: nat, bra: nat,
                                      col: nat, opCol: nat, n: nat)
    requires WellShaped(g) && WellShaped(h) && SameElements(g, h) && n <= g.sh.hilby
    requires conjCol < g.sh.row && conjBra < g.sh.hilby && conjKet < g.sh.hilby
    requires bra < g.sh.hilby && col < g.sh.col && opCol < g.sh.opCol
    ensures KetSum(g, conjCol, conjBra, conjKet, bra, col, opCol, n) == KetSum(h, conjCol, conjBra, conjKet, bra, col, opCol, n)
  {
    if n > 0 {
      KetSumSame(g, h, conjCol, conjBra, conjKet, bra, col, opCol, n - 1);
      OpRowSumSame(g, h, conjCol, conjBra, conjKet, bra, n - 1, col, opCol, g.sh.opRow);
    }
  }

  lemma {:induction false} BraSumSame(g: Inputs, h: Inputs, conjCol: nat, conjBra: nat, conjKet: nat,
                                      col: nat, opCol: nat, n: nat)
    requires WellShaped(g) && WellShaped(h) && SameElements(g, h) && n <= g.sh.hilby
    requires conjCol < g.sh.row && conjBra < g.sh.hilby && conjKet < g.sh.hilby
    requires col < g.sh.col && opCol < g.sh.opCol
    ensures BraSum(g, conjCol, conjBra, conjKet, col, opCol, n) == BraSum(h, conjCol, conjBra, conjKet, col, opCol, n)
  {
    if n > 0 {
      BraSumSame(g, h, conjCol, conjBra, conjKet, col, opCol, n - 1);
      KetSumSame(g, h, conjCol, conjBra, conjKet, n - 1, col, opCol, g.sh.hilby);
    }
  }

  lemma {:induction false} ConjKetSumSame(g: Inputs, h: Inputs, conjRow: nat, conjCol: nat, conjBra: nat,
                                          col: nat, opCol: nat, n: nat)
    requires WellShaped(g) && WellShaped(h) && SameElements(g, h) && n <= g.sh.hilby
    requires conjRow < g.sh.col && conjCol < g.sh.row && conjBra < g.sh.hilby
    requires col < g.sh.col && opCol < g.sh.opCol
    ensures ConjKetSum(g, conjRow, conjCol, conjBra, col, opCol, n) == ConjKetSum(h, conjRow, conjCol, conjBra, col, opCol, n)
  {
    if n > 0 {
      ConjKetSumSame(g, h, conjRow, conjCol, conjBra, col, opCol, n - 1);
      BraSumSame(g, h, conjCol, conjBra, n - 1, col, opCol, g.sh.hilby);
      SameSite(g, h, conjCol, conjRow, conjBra, n - 1);
    }
  }

  lemma {:induction false} ConjBraSumSame(g: Inputs, h: Inputs, conjRow: nat, conjCol: nat, col: nat, opCol: nat, n: nat)
    requires WellShaped(g) && WellShaped(h) && SameElements(g, h) && n <= g.sh.hilby
    requires conjRow < g.sh.col && conjCol < g.sh.row && col < g.sh.col && opCol < g.sh.opCol
    ensures ConjBraSum(g, conjRow, conjCol, col, opCol, n) == ConjBraSum(h, conjRow, conjCol, col, opCol, n)
  {
    if n > 0 {
      ConjBraSumSame(g, h, conjRow, conjCol, col, opCol, n - 1);
      ConjKetSumSame(g, h, conjRow, conjCol, n - 1, col, opCol, g.sh.hilby);
    }
  }

  lemma {:induction false} ConjColSumSame(g: Inputs, h: Inputs, conjRow: nat, col: nat, opCol: nat, n: nat)
    requires WellShaped(g) && WellShaped(h) && SameElements(g, h) && n <= g.sh.row
    requires conjRow < g.sh.col && col < g.sh.col && opCol < g.sh.opCol
    ensures ConjColSum(g, conjRow, col, opCol, n) == ConjColSum(h, conjRow, col, opCol, n)
  {
    if n > 0 {
      ConjColSumSame(g, h, conjRow, col, opCol, n - 1);
      ConjBraSumSame(g, h, conjRow, n - 1, col, opCol, g.sh.hilby);
    }
  }

  /** The grown block depends on the operands' element values only. */
  lemma GrownSame(g: Inputs, h: Inputs, conjRow: nat, opCol: nat, col: nat)
    requires WellShaped(g) && WellShaped(h) && SameElements(g, h)
    requires conjRow < g.sh.col && opCol < g.sh.opCol && col < g.sh.col
    ensures Grown(g, conjRow, opCol, col) == Grown(h, conjRow, opCol, col)
  {
    ConjColSumSame(g, h, conjRow, col, opCol, g.sh.row);
  }

  /** A complex array with the same real part and, where t is real, an
      imaginary part of zeros. */
  function ZeroPadded(t: CTensor): (p: CTensor)
    ensures IsComplex(p) && p.re == t.re
    ensures forall n: nat :: HasSize(t, n) ==> HasSize(p, n)
  {
    CTensor(t.re, Some(if t.im.Some? then t.im.value else seq(|t.re|, _ => 0.0)))
  }

  /** The operands as GrowLeft_ZZZ receives them when every missing imaginary
      array is replaced by zeros. */
  function Padded(g: Inputs): (p: Inputs)
    ensures WellShaped(g) ==> WellShaped(p)
  {
    Inputs(g.sh, ZeroPadded(g.site), ZeroPadded(g.mpo), ZeroPadded(g.left))
  }

  /** Zero-filling the missing imaginary arrays changes no element. */
  lemma PaddedSameElements(g: Inputs)
    requires WellShaped(g)
    ensures WellShaped(Padded(g)) && SameElements(g, Padded(g))
  {
  }

  /** A block that is the grown block of the operands is also what GrowLeft_ZZZ
      grows from the zero-padded operands. */
  lemma GrownBlockPadded(upd: CTensor, g: Inputs)
    requires WellShaped(g) && IsGrownBlock(upd, g)
    ensures WellShaped(Padded(g)) && IsGrownBlock(upd, Padded(g))
  {
    PaddedSameElements(g);
    forall conjRow: nat, opCol: nat, col: nat | conjRow < g.sh.col && opCol < g.sh.opCol && col < g.sh.col
      ensures Grown(g, conjRow, opCol, col) == Grown(Padded(g), conjRow, opCol, col)
    {
      GrownSame(g, Padded(g), conjRow, opCol, col);
    }
  }
}
