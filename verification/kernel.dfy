/** The GrowLeft contraction loop nest.

    The eight GrowLeft_XYZ routines share one loop nest and differ only in
    which operands carry an imaginary buffer (X: site tensor, Y: operator,
    Z: left block; R real, Z complex). Here each loop body branches on the
    buffers present, and every branch is the statement the matching routines
    execute, so no imaginary buffer is read unless it exists and no routine
    forms a product with an imaginary part it does not have.

    Each loop level is a method proved against the prefix sum of GrowLeftSpec
    it accumulates; the product each innermost statement adds is computed by
    a small method of its own (index computation, element reads, product). */
module GrowLeftKernel {
  import opened Index
  import opened ComplexArith
  import opened GrowLeftSpec

  /** FA is complex in the routines whose site tensor or left block is complex. */
  predicate FAComplex(g: Inputs)
  {
    IsComplex(g.site) || IsComplex(g.left)
  }

  /** WFA (and AWFA) are complex in every routine but GrowLeft_RRR. */
  predicate WFAComplex(g: Inputs)
  {
    IsComplex(g.site) || IsComplex(g.mpo) || IsComplex(g.left)
  }

  /** The term `FA += L[leftdex] * A[sitedex]` adds, in each routine's own form. */
  method RowTerm(g: Inputs, conjCol: nat, opRow: nat, bra: nat, ket: nat, col: nat, row: nat)
    returns (pR: real, pI: real)
    requires WellShaped(g)
    requires conjCol < g.sh.row && opRow < g.sh.opRow && row < g.sh.row
    requires col < g.sh.col && bra < g.sh.hilby && ket < g.sh.hilby
    ensures Complex(pR, pI) == Mul(Left(g, conjCol, opRow, row), Site(g, row, col, bra, ket))
    ensures !FAComplex(g) ==> pI == 0.0
  {
    var site, left := g.site, g.left;
    var leftdex := A3Dex(conjCol, opRow, row, LeftDims(g.sh));
    var sitedex := A4Dex(row, col, bra, ket, SiteDims(g.sh));
    if site.im.Some? && left.im.Some? {
      // GrowLeft_ZRZ, GrowLeft_ZZZ
      pR := ZMulR(left.re[leftdex], left.im.value[leftdex], site.re[sitedex], site.im.value[sitedex]);
      pI := ZMulI(left.re[leftdex], left.im.value[leftdex], site.re[sitedex], site.im.value[sitedex]);
    } else if left.im.Some? {
      // GrowLeft_RRZ, GrowLeft_RZZ
      pR := left.re[leftdex] * site.re[sitedex];
      pI := left.im.value[leftdex] * site.re[sitedex];
    } else if site.im.Some? {
      // GrowLeft_ZRR, GrowLeft_ZZR
      pR := left.re[leftdex] * site.re[sitedex];
      pI := left.re[leftdex] * site.im.value[sitedex];
    } else {
      // GrowLeft_RRR, GrowLeft_RZR: FA has no imaginary part
      pR, pI := left.re[leftdex] * site.re[sitedex], 0.0;
    }
  }

  /** The row loop: FA = sum over row of L[conjCol, opRow, row] * A[row, col, bra, ket]. */
  method RowContraction(g: Inputs, conjCol: nat, opRow: nat, bra: nat, ket: nat, col: nat)
    returns (faR: real, faI: real)
    requires WellShaped(g)
    requires conjCol < g.sh.row && opRow < g.sh.opRow && col < g.sh.col && bra < g.sh.hilby && ket < g.sh.hilby
    ensures Complex(faR, faI) == RowSum(g, conjCol, opRow, bra, ket, col, g.sh.row)
    ensures !FAComplex(g) ==> faI == 0.0
  {
    faR, faI := 0.0, 0.0;
    var row := 0;
    while row < g.sh.row
      invariant row <= g.sh.row
      invariant Complex(faR, faI) == RowSum(g, conjCol, opRow, bra, ket, col, row)
      invariant !FAComplex(g) ==> faI == 0.0
    {
      var pR, pI := RowTerm(g, conjCol, opRow, bra, ket, col, row);
      faR, faI := faR + pR, faI + pI;
      row := row + 1;
    }
  }

  /** The term `WFA += W[mpodex] * FA` adds, in each routine's own form. */
  method OperatorTerm(g: Inputs, conjBra: nat, conjKet: nat, bra: nat, ket: nat, opRow: nat, opCol: nat,
                      faR: real, faI: real)
    returns (pR: real, pI: real)
    requires WellShaped(g)
    requires conjBra < g.sh.hilby && conjKet < g.sh.hilby && bra < g.sh.hilby && ket < g.sh.hilby
    requires opRow < g.sh.opRow && opCol < g.sh.opCol
    requires !FAComplex(g) ==> faI == 0.0
    ensures Complex(pR, pI) == Mul(Mpo(g, conjBra, conjKet, bra, ket, opRow, opCol), Complex(faR, faI))
    ensures !WFAComplex(g) ==> pI == 0.0
  {
    var mpo := g.mpo;
    var mpodex := A6Dex(conjBra, conjKet, bra, ket, opRow, opCol, MpoDims(g.sh));
    if mpo.im.Some? && FAComplex(g) {
      // GrowLeft_RZZ, GrowLeft_ZZR, GrowLeft_ZZZ
      pR := ZMulR(mpo.re[mpodex], mpo.im.value[mpodex], faR, faI);
      pI := ZMulI(mpo.re[mpodex], mpo.im.value[mpodex], faR, faI);
    } else if mpo.im.Some? {
      // GrowLeft_RZR
      pR := mpo.re[mpodex] * faR;
      pI := mpo.im.value[mpodex] * faR;
    } else if FAComplex(g) {
      // GrowLeft_RRZ, GrowLeft_ZRR, GrowLeft_ZRZ
      pR := mpo.re[mpodex] * faR;
      pI := mpo.re[mpodex] * faI;
    } else {
      // GrowLeft_RRR: WFA has no imaginary part
      pR, pI := mpo.re[mpodex] * faR, 0.0;
    }
  }

  /** The opRow loop, continuing WFA from (w0R, w0I): each pass runs the row
      loop and adds W[conjBra, conjKet, bra, ket, opRow, opCol] * FA. */
  method OpRowContraction(g: Inputs, conjCol: nat, conjBra: nat, conjKet: nat, bra: nat, ket: nat,
                          col: nat, opCol: nat, w0R: real, w0I: real)
    returns (wR: real, wI: real)
    requires WellShaped(g)
    requires conjCol < g.sh.row && conjBra < g.sh.hilby && conjKet < g.sh.hilby
    requires bra < g.sh.hilby && ket < g.sh.hilby && col < g.sh.col && opCol < g.sh.opCol
    ensures Complex(wR, wI)
         == Add(Complex(w0R, w0I), OpRowSum(g, conjCol, conjBra, conjKet, bra, ket, col, opCol, g.sh.opRow))
    ensures !WFAComplex(g) && w0I == 0.0 ==> wI == 0.0
  {
    wR, wI := w0R, w0I;
    var opRow := 0;
    while opRow < g.sh.opRow
      invariant opRow <= g.sh.opRow
      invariant Complex(wR, wI)
             == Add(Complex(w0R, w0I), OpRowSum(g, conjCol, conjBra, conjKet, bra, ket, col, opCol, opRow))
      invariant !WFAComplex(g) && w0I == 0.0 ==> wI == 0.0
    {
      var faR, faI := RowContraction(g, conjCol, opRow, bra, ket, col);
      var pR, pI := OperatorTerm(g, conjBra, conjKet, bra, ket, opRow, opCol, faR, faI);
      wR, wI := wR + pR, wI + pI;
      opRow := opRow + 1;
    }
  }

  /** The ket loop, continuing WFA from (w0R, w0I). */
  method KetContraction(g: Inputs, conjCol: nat, conjBra: nat, conjKet: nat, bra: nat,
                        col: nat, opCol: nat, w0R: real, w0I: real)
    returns (wR: real, wI: real)
    requires WellShaped(g)
    requires conjCol < g.sh.row && conjBra < g.sh.hilby && conjKet < g.sh.hilby
    requires bra < g.sh.hilby && col < g.sh.col && opCol < g.sh.opCol
    ensures Complex(wR, wI)
         == Add(Complex(w0R, w0I), KetSum(g, conjCol, conjBra, conjKet, bra, col, opCol, g.sh.hilby))
    ensures !WFAComplex(g) && w0I == 0.0 ==> wI == 0.0
  {
    wR, wI := w0R, w0I;
    var ket := 0;
    while ket < g.sh.hilby
      invariant ket <= g.sh.hilby
      invariant Complex(wR, wI)
             == Add(Complex(w0R, w0I), KetSum(g, conjCol, conjBra, conjKet, bra, col, opCol, ket))
      invariant !WFAComplex(g) && w0I == 0.0 ==> wI == 0.0
    {
      wR, wI := OpRowContraction(g, conjCol, conjBra, conjKet, bra, ket, col, opCol, wR, wI);
      ket := ket + 1;
    }
  }

  /** The bra loop: WFA = sum over bra, ket, opRow of W[conjBra, conjKet, bra, ket, opRow, opCol] * FA,
      starting from zero. */
  method OperatorContraction(g: Inputs, conjCol: nat, conjBra: nat, conjKet: nat, col: nat, opCol: nat)
    returns (wR: real, wI: real)
    requires WellShaped(g)
    requires conjCol < g.sh.row && conjBra < g.sh.hilby && conjKet < g.sh.hilby
    requires col < g.sh.col && opCol < g.sh.opCol
    ensures Complex(wR, wI) == BraSum(g, conjCol, conjBra, conjKet, col, opCol, g.sh.hilby)
    ensures !WFAComplex(g) ==> wI == 0.0
  {
    wR, wI := 0.0, 0.0;
    var bra := 0;
    while bra < g.sh.hilby
      invariant bra <= g.sh.hilby
      invariant Complex(wR, wI) == BraSum(g, conjCol, conjBra, conjKet, col, opCol, bra)
      invariant !WFAComplex(g) ==> wI == 0.0
    {
      wR, wI := KetContraction(g, conjCol, conjBra, conjKet, bra, col, opCol, wR, wI);
      bra := bra + 1;
    }
  }

  /** The term `AWFA += conj(A[conjdex]) * WFA` adds, in each routine's own form. */
  method ConjugateTerm(g: Inputs, conjCol: nat, conjRow: nat, conjBra: nat, conjKet: nat, wR: real, wI: real)
    returns (pR: real, pI: real)
    requires WellShaped(g)
    requires conjCol < g.sh.row && conjRow < g.sh.col && conjBra < g.sh.hilby && conjKet < g.sh.hilby
    requires !WFAComplex(g) ==> wI == 0.0
    ensures Complex(pR, pI) == Mul(Conj(Site(g, conjCol, conjRow, conjBra, conjKet)), Complex(wR, wI))
    ensures !WFAComplex(g) ==> pI == 0.0
  {
    var site := g.site;
    var conjdex := A4Dex(conjCol, conjRow, conjBra, conjKet, SiteDims(g.sh));
    if site.im.Some? {
      // GrowLeft_ZRR, GrowLeft_ZRZ, GrowLeft_ZZR, GrowLeft_ZZZ
      pR := ZMulR(site.re[conjdex], -site.im.value[conjdex], wR, wI);
      pI := ZMulI(site.re[conjdex], -site.im.value[conjdex], wR, wI);
    } else if WFAComplex(g) {
      // GrowLeft_RRZ, GrowLeft_RZR, GrowLeft_RZZ
      pR := site.re[conjdex] * wR;
      pI := site.re[conjdex] * wI;
    } else {
      // GrowLeft_RRR: AWFA has no imaginary part
      pR, pI := site.re[conjdex] * wR, 0.0;
    }
  }

  /** The conjKet loop, continuing AWFA from (a0R, a0I): each pass runs the bra
      loop from a fresh WFA and adds conj(A[conjCol, conjRow, conjBra, conjKet]) * WFA. */
  method ConjKetContraction(g: Inputs, conjRow: nat, conjCol: nat, conjBra: nat, col: nat, opCol: nat,
                            a0R: real, a0I: real)
    returns (aR: real, aI: real)
    requires WellShaped(g)
    requires conjRow < g.sh.col && conjCol < g.sh.row && conjBra < g.sh.hilby
    requires col < g.sh.col && opCol < g.sh.opCol
    ensures Complex(aR, aI)
         == Add(Complex(a0R, a0I), ConjKetSum(g, conjRow, conjCol, conjBra, col, opCol, g.sh.hilby))
    ensures !WFAComplex(g) && a0I == 0.0 ==> aI == 0.0
  {
    aR, aI := a0R, a0I;
    var conjKet := 0;
    while conjKet < g.sh.hilby
      invariant conjKet <= g.sh.hilby
      invariant Complex(aR, aI)
             == Add(Complex(a0R, a0I), ConjKetSum(g, conjRow, conjCol, conjBra, col, opCol, conjKet))
      invariant !WFAComplex(g) && a0I == 0.0 ==> aI == 0.0
    {
      var wR, wI := OperatorContraction(g, conjCol, conjBra, conjKet, col, opCol);
      var pR, pI := ConjugateTerm(g, conjCol, conjRow, conjBra, conjKet, wR, wI);
      aR, aI := aR + pR, aI + pI;
      conjKet := conjKet + 1;
    }
  }

  /** The conjBra loop, continuing AWFA from (a0R, a0I). */
  method ConjBraContraction(g: Inputs, conjRow: nat, conjCol: nat, col: nat, opCol: nat, a0R: real, a0I: real)
    returns (aR: real, aI: real)
    requires WellShaped(g)
    requires conjRow < g.sh.col && conjCol < g.sh.row && col < g.sh.col && opCol < g.sh.opCol
    ensures Complex(aR, aI) == Add(Complex(a0R, a0I), ConjBraSum(g, conjRow, conjCol, col, opCol, g.sh.hilby))
    ensures !WFAComplex(g) && a0I == 0.0 ==> aI == 0.0
  {
    aR, aI := a0R, a0I;
    var conjBra := 0;
    while conjBra < g.sh.hilby
      invariant conjBra <= g.sh.hilby
      invariant Complex(aR, aI) == Add(Complex(a0R, a0I), ConjBraSum(g, conjRow, conjCol, col, opCol, conjBra))
      invariant !WFAComplex(g) && a0I == 0.0 ==> aI == 0.0
    {
      aR, aI := ConjKetContraction(g, conjRow, conjCol, conjBra, col, opCol, aR, aI);
      conjBra := conjBra + 1;
    }
  }

  /** The conjCol loop: AWFA, the element L'[conjRow, opCol, col] of the grown block. */
  method ConjugateContraction(g: Inputs, conjRow: nat, opCol: nat, col: nat)
    returns (aR: real, aI: real)
    requires WellShaped(g)
    requires conjRow < g.sh.col && opCol < g.sh.opCol && col < g.sh.col
    ensures Complex(aR, aI) == Grown(g, conjRow, opCol, col)
    ensures !WFAComplex(g) ==> aI == 0.0
  {
    aR, aI := 0.0, 0.0;
    var conjCol := 0;
    while conjCol < g.sh.row
      invariant conjCol <= g.sh.row
      invariant Complex(aR, aI) == ConjColSum(g, conjRow, col, opCol, conjCol)
      invariant !WFAComplex(g) ==> aI == 0.0
    {
      aR, aI := ConjBraContraction(g, conjRow, conjCol, col, opCol, aR, aI);
      conjCol := conjCol + 1;
    }
  }

  /** The update-block slots below flat position n hold their elements of the
      grown block: slot a3dex(conjRow, opCol, col) holds L'[conjRow, opCol, col],
      its imaginary part too when the block is complex. */
  ghost predicate Filled(g: Inputs, re: seq<real>, im: seq<real>, complex: bool, n: nat)
    requires WellShaped(g)
  {
    forall r: nat, o: nat, c: nat | r < g.sh.col && o < g.sh.opCol && c < g.sh.col && A3Dex(r, o, c, UpdDims(g.sh)) < n ::
      A3Dex(r, o, c, UpdDims(g.sh)) < |re| && re[A3Dex(r, o, c, UpdDims(g.sh))] == Grown(g, r, o, c).re
      && if complex then A3Dex(r, o, c, UpdDims(g.sh)) < |im| && im[A3Dex(r, o, c, UpdDims(g.sh))] == Grown(g, r, o, c).im
         else Grown(g, r, o, c).im == 0.0
  }

  /** Storing L'[conjRow, opCol, col] at its own offset n extends the filled prefix by one slot. */
  lemma FilledExtend(g: Inputs, re: seq<real>, im: seq<real>, complex: bool,
                     conjRow: nat, opCol: nat, col: nat, aR: real, aI: real)
    requires WellShaped(g)
    requires conjRow < g.sh.col && opCol < g.sh.opCol && col < g.sh.col
    requires |re| == Product(UpdDims(g.sh)) && (complex ==> |im| == |re|)
    requires Filled(g, re, im, complex, A3Dex(conjRow, opCol, col, UpdDims(g.sh)))
    requires Complex(aR, aI) == Grown(g, conjRow, opCol, col) && (!complex ==> aI == 0.0)
    ensures var n := A3Dex(conjRow, opCol, col, UpdDims(g.sh));
            Filled(g, re[n := aR], if complex then im[n := aI] else im, complex, n + 1)
  {
    var dims, n := UpdDims(g.sh), A3Dex(conjRow, opCol, col, UpdDims(g.sh));
    var re', im' := re[n := aR], if complex then im[n := aI] else im;
    forall r: nat, o: nat, c: nat | r < g.sh.col && o < g.sh.opCol && c < g.sh.col && A3Dex(r, o, c, dims) < n + 1
      ensures A3Dex(r, o, c, dims) < |re'| && re'[A3Dex(r, o, c, dims)] == Grown(g, r, o, c).re
      ensures if complex then A3Dex(r, o, c, dims) < |im'| && im'[A3Dex(r, o, c, dims)] == Grown(g, r, o, c).im
              else Grown(g, r, o, c).im == 0.0
    {
      if A3Dex(r, o, c, dims) == n {
        A3DexInjective(r, o, c, conjRow, opCol, col, dims);
      }
    }
  }

  /** The conjRow loop of one (col, opCol) pair: computes L'[conjRow, opCol, col]
      for every conjRow and stores each at the running position updex. */
  method GrowRun(g: Inputs, updRe: array<real>, updIm: array<real>, complex: bool,
                 opCol: nat, col: nat, updex0: nat)
    returns (updex: nat)
    requires WellShaped(g) && opCol < g.sh.opCol && col < g.sh.col
    requires complex == WFAComplex(g)
    requires updRe.Length == Product(UpdDims(g.sh)) && (complex ==> updIm.Length == updRe.Length)
    requires updRe != updIm
    requires updex0 == A3Dex(0, opCol, col, UpdDims(g.sh))
    requires Filled(g, updRe[..], updIm[..], complex, updex0)
    modifies updRe, updIm
    ensures updex == A3Dex(0, opCol + 1, col, UpdDims(g.sh))
    ensures Filled(g, updRe[..], updIm[..], complex, updex)
  {
    var updims := UpdDims(g.sh);
    updex := updex0;
    var conjRow := 0;
    while conjRow < g.sh.col
      invariant conjRow <= g.sh.col
      invariant updex == A3Dex(conjRow, opCol, col, updims)
      invariant Filled(g, updRe[..], updIm[..], complex, updex)
    {
      var aR, aI := ConjugateContraction(g, conjRow, opCol, col);
      FilledExtend(g, updRe[..], updIm[..], complex, conjRow, opCol, col, aR, aI);
      updRe[updex] := aR;
      if complex {
        updIm[updex] := aI;
      }
      A3DexOrder(conjRow, opCol, col, updims);
      updex := updex + 1;
      conjRow := conjRow + 1;
    }
    A3DexOrder(conjRow, opCol, col, updims);
  }

  /** The opCol loop of one col: runs GrowRun for every opCol, filling the
      slots of column col in storage order. */
  method GrowColumn(g: Inputs, updRe: array<real>, updIm: array<real>, complex: bool, col: nat, updex0: nat)
    returns (updex: nat)
    requires WellShaped(g) && col < g.sh.col
    requires complex == WFAComplex(g)
    requires updRe.Length == Product(UpdDims(g.sh)) && (complex ==> updIm.Length == updRe.Length)
    requires updRe != updIm
    requires updex0 == A3Dex(0, 0, col, UpdDims(g.sh))
    requires Filled(g, updRe[..], updIm[..], complex, updex0)
    modifies updRe, updIm
    ensures updex == A3Dex(0, 0, col + 1, UpdDims(g.sh))
    ensures Filled(g, updRe[..], updIm[..], complex, updex)
  {
    var updims := UpdDims(g.sh);
    updex := updex0;
    var opCol := 0;
    while opCol < g.sh.opCol
      invariant opCol <= g.sh.opCol
      invariant updex == A3Dex(0, opCol, col, updims)
      invariant Filled(g, updRe[..], updIm[..], complex, updex)
    {
      updex := GrowRun(g, updRe, updIm, complex, opCol, col, updex);
      opCol := opCol + 1;
    }
    A3DexOrder(0, opCol, col, updims);
  }

  /** A GrowLeft routine's loop nest and result: every element of the grown
      block is computed and stored at the column-major offset of
      (conjRow, opCol, col); the real buffer always, the imaginary one when some
      operand is complex. The result is the array the routine hands back. */
  method Grow(g: Inputs) returns (upd: CTensor)
    requires WellShaped(g)
    ensures IsGrownBlock(upd, g)
    ensures IsComplex(upd) == WFAComplex(g)
  {
    var updims := UpdDims(g.sh);
    var numel := g.sh.col * g.sh.opCol * g.sh.col;
    ProductOfThree(updims);
    var complex := WFAComplex(g);
    var updRe := new real[numel];
    var updIm := new real[if complex then numel else 0];
    var updex := 0;
    var col := 0;
    A3DexOrder(0, 0, 0, updims);
    while col < g.sh.col
      invariant col <= g.sh.col
      invariant updex == A3Dex(0, 0, col, updims)
      invariant Filled(g, updRe[..], updIm[..], complex, updex)
    {
      updex := GrowColumn(g, updRe, updIm, complex, col, updex);
      col := col + 1;
    }
    A3DexOrder(0, 0, col, updims);
    FilledBlock(g, updRe[..], updIm[..], complex);
    upd := CTensor(updRe[..], if complex then Some(updIm[..]) else None);
  }

  /** Once every slot is filled, the buffers hold the grown block element by element. */
  lemma FilledBlock(g: Inputs, re: seq<real>, im: seq<real>, complex: bool)
    requires WellShaped(g)
    requires |re| == Product(UpdDims(g.sh)) && (complex ==> |im| == |re|)
    requires Filled(g, re, im, complex, Product(UpdDims(g.sh)))
    ensures IsGrownBlock(CTensor(re, if complex then Some(im) else None), g)
  {
  }
}
