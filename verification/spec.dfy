/** What one GrowLeft step computes: the next left environment block of a
    matrix-product-operator network, as a closed-form nested sum.

      L'[conjRow, opCol, col] =
        sum over conjCol, conjBra, conjKet of
          conj(A[conjCol, conjRow, conjBra, conjKet]) *
          sum over bra, ket, opRow of
            W[conjBra, conjKet, bra, ket, opRow, opCol] *
            sum over row of L[conjCol, opRow, row] * A[row, col, bra, ket]

    Each sum is written as a prefix sum over its last index, nested in the
    same order as the kernel's loops, so that a loop's accumulator equals the
    prefix sum of the iterations done so far. */
module GrowLeftSpec {
  import opened Index
  import opened ComplexArith

  /** The five bond and physical sizes: ROW_SIZE, COL_SIZE, HILBY, OP_ROW, OP_COL. */
  datatype Shape = Shape(row: nat, col: nat, hilby: nat, opRow: nat, opCol: nat)

  /** Site tensor A: (row, col, bra, ket). */
  function SiteDims(sh: Shape): seq<nat> { [sh.row, sh.col, sh.hilby, sh.hilby] }

  /** Operator tensor W: (bra, ket, bra', ket', opRow, opCol). */
  function MpoDims(sh: Shape): seq<nat> { [sh.hilby, sh.hilby, sh.hilby, sh.hilby, sh.opRow, sh.opCol] }

  /** Left block L: (conjCol, opRow, row). */
  function LeftDims(sh: Shape): seq<nat> { [sh.row, sh.opRow, sh.row] }

  /** Updated block L': (conjRow, opCol, col). */
  function UpdDims(sh: Shape): seq<nat> { [sh.col, sh.opCol, sh.col] }

  datatype Option<T> = None | Some(value: T)

  /** A dense double array as the host environment hands it over: a real buffer,
      and an imaginary buffer exactly when the array is complex. */
  datatype CTensor = CTensor(re: seq<real>, im: Option<seq<real>>)

  predicate IsComplex(t: CTensor)
  {
    t.im.Some?
  }

  /** Both buffers (the imaginary one when present) hold n elements. */
  predicate HasSize(t: CTensor, n: nat)
  {
    |t.re| == n && (t.im.Some? ==> |t.im.value| == n)
  }

  /** Element i as a complex number; a real array has imaginary part zero. */
  function At(t: CTensor, i: nat): Complex
    requires i < |t.re| && (t.im.Some? ==> i < |t.im.value|)
  {
    Complex(t.re[i], if t.im.Some? then t.im.value[i] else 0.0)
  }

  /** The three operands of one step, each holding exactly as many elements as its extents say. */
  datatype Inputs = Inputs(sh: Shape, site: CTensor, mpo: CTensor, left: CTensor)

  predicate WellShaped(g: Inputs)
  {
    HasSize(g.site, Product(SiteDims(g.sh)))
    && HasSize(g.mpo, Product(MpoDims(g.sh)))
    && HasSize(g.left, Product(LeftDims(g.sh)))
  }

  function Site(g: Inputs, row: nat, col: nat, bra: nat, ket: nat): Complex
    requires WellShaped(g)
    requires row < g.sh.row && col < g.sh.col && bra < g.sh.hilby && ket < g.sh.hilby
  {
    At(g.site, A4Dex(row, col, bra, ket, SiteDims(g.sh)))
  }

  function Mpo(g: Inputs, conjBra: nat, conjKet: nat, bra: nat, ket: nat, opRow: nat, opCol: nat): Complex
    requires WellShaped(g)
    requires conjBra < g.sh.hilby && conjKet < g.sh.hilby && bra < g.sh.hilby && ket < g.sh.hilby
    requires opRow < g.sh.opRow && opCol < g.sh.opCol
  {
    At(g.mpo, A6Dex(conjBra, conjKet, bra, ket, opRow, opCol, MpoDims(g.sh)))
  }

  function Left(g: Inputs, conjCol: nat, opRow: nat, row: nat): Complex
    requires WellShaped(g)
    requires conjCol < g.sh.row && opRow < g.sh.opRow && row < g.sh.row
  {
    At(g.left, A3Dex(conjCol, opRow, row, LeftDims(g.sh)))
  }

  /** FA: sum over row < n of L[conjCol, opRow, row] * A[row, col, bra, ket]. */
  function RowSum(g: Inputs, conjCol: nat, opRow: nat, bra: nat, ket: nat, col: nat, n: nat): Complex
    requires WellShaped(g) && n <= g.sh.row
    requires conjCol < g.sh.row && opRow < g.sh.opRow && bra < g.sh.hilby && ket < g.sh.hilby && col < g.sh.col
  {
    if n == 0 then Zero
    else Add(RowSum(g, conjCol, opRow, bra, ket, col, n - 1),
             Mul(Left(g, conjCol, opRow, n - 1), Site(g, n - 1, col, bra, ket)))
  }

  /** Sum over opRow < n of W[conjBra, conjKet, bra, ket, opRow, opCol] * FA. */
  function OpRowSum(g: Inputs, conjCol: nat, conjBra: nat, conjKet: nat, bra: nat, ket: nat,
                    col: nat, opCol: nat, n: nat): Complex
    requires WellShaped(g) && n <= g.sh.opRow
    requires conjCol < g.sh.row && conjBra < g.sh.hilby && conjKet < g.sh.hilby
    requires bra < g.sh.hilby && ket < g.sh.hilby && col < g.sh.col && opCol < g.sh.opCol
  {
    if n == 0 then Zero
    else Add(OpRowSum(g, conjCol, conjBra, conjKet, bra, ket, col, opCol, n - 1),
             Mul(Mpo(g, conjBra, conjKet, bra, ket, n - 1, opCol),
                 RowSum(g, conjCol, n - 1, bra, ket, col, g.sh.row)))
  }

  /** Sum over ket < n of the full opRow sum. */
  function KetSum(g: Inputs, conjCol: nat, conjBra: nat, conjKet: nat, bra: nat,
                  col: nat, opCol: nat, n: nat): Complex
    requires WellShaped(g) && n <= g.sh.hilby
    requires conjCol < g.sh.row && conjBra < g.sh.hilby && conjKet < g.sh.hilby
    requires bra < g.sh.hilby && col < g.sh.col && opCol < g.sh.opCol
  {
    if n == 0 then Zero
    else Add(KetSum(g, conjCol, conjBra, conjKet, bra, col, opCol, n - 1),
             OpRowSum(g, conjCol, conjBra, conjKet, bra, n - 1, col, opCol, g.sh.opRow))
  }

  /** WFA: sum over bra < n of the full ket sum. */
  function BraSum(g: Inputs, conjCol: nat, conjBra: nat, conjKet: nat,
                  col: nat, opCol: nat, n: nat): Complex
    requires WellShaped(g) && n <= g.sh.hilby
    requires conjCol < g.sh.row && conjBra < g.sh.hilby && conjKet < g.sh.hilby
    requires col < g.sh.col && opCol < g.sh.opCol
  {
    if n == 0 then Zero
    else Add(BraSum(g, conjCol, conjBra, conjKet, col, opCol, n - 1),
             KetSum(g, conjCol, conjBra, conjKet, n - 1, col, opCol, g.sh.hilby))
  }

  /** Sum over conjKet < n of conj(A[conjCol, conjRow, conjBra, conjKet]) * WFA. */
  function ConjKetSum(g: Inputs, conjRow: nat, conjCol: nat, conjBra: nat,
                      col: nat, opCol: nat, n: nat): Complex
    requires WellShaped(g) && n <= g.sh.hilby
    requires conjRow < g.sh.col && conjCol < g.sh.row && conjBra < g.sh.hilby
    requires col < g.sh.col && opCol < g.sh.opCol
  {
    if n == 0 then Zero
    else Add(ConjKetSum(g, conjRow, conjCol, conjBra, col, opCol, n - 1),
             Mul(Conj(Site(g, conjCol, conjRow, conjBra, n - 1)),
                 BraSum(g, conjCol, conjBra, n - 1, col, opCol, g.sh.hilby)))
  }

  /** Sum over conjBra < n of the full conjKet sum. */
  function ConjBraSum(g: Inputs, conjRow: nat, conjCol: nat, col: nat, opCol: nat, n: nat): Complex
    requires WellShaped(g) && n <= g.sh.hilby
    requires conjRow < g.sh.col && conjCol < g.sh.row && col < g.sh.col && opCol < g.sh.opCol
  {
    if n == 0 then Zero
    else Add(ConjBraSum(g, conjRow, conjCol, col, opCol, n - 1),
             ConjKetSum(g, conjRow, conjCol, n - 1, col, opCol, g.sh.hilby))
  }

  /** AWFA: sum over conjCol < n of the full conjBra sum. */
  function ConjColSum(g: Inputs, conjRow: nat, col: nat, opCol: nat, n: nat): Complex
    requires WellShaped(g) && n <= g.sh.row
    requires conjRow < g.sh.col && col < g.sh.col && opCol < g.sh.opCol
  {
    if n == 0 then Zero
    else Add(ConjColSum(g, conjRow, col, opCol, n - 1),
             ConjBraSum(g, conjRow, n - 1, col, opCol, g.sh.hilby))
  }

  /** L'[conjRow, opCol, col]: the element of the grown block. */
  function Grown(g: Inputs, conjRow: nat, opCol: nat, col: nat): Complex
    requires WellShaped(g)
    requires conjRow < g.sh.col && opCol < g.sh.opCol && col < g.sh.col
  {
    ConjColSum(g, conjRow, col, opCol, g.sh.row)
  }

  /** upd is the grown block of g: it holds as many elements as its extents
      (COL_SIZE, OP_COL, COL_SIZE) say, and slot a3dex(conjRow, opCol, col)
      holds L'[conjRow, opCol, col]. */
  predicate IsGrownBlock(upd: CTensor, g: Inputs)
    requires WellShaped(g)
  {
    HasSize(upd, Product(UpdDims(g.sh)))
    && forall conjRow: nat, opCol: nat, col: nat | conjRow < g.sh.col && opCol < g.sh.opCol && col < g.sh.col ::
         A3Dex(conjRow, opCol, col, UpdDims(g.sh)) < Product(UpdDims(g.sh))
         && At(upd, A3Dex(conjRow, opCol, col, UpdDims(g.sh))) == Grown(g, conjRow, opCol, col)
  }
}
