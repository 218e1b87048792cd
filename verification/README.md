# GrowLeft: one step of the left-environment contraction

`dev/utils/GrowLeft.c` is a MEX routine of a matrix-product-operator (MPO)
code. Given a site tensor `A` (extents `ROW, COL, HILBY, HILBY`), an MPO
tensor `W` (extents `HILBY, HILBY, HILBY, HILBY, OP_ROW, OP_COL`) and the
left block `L` (extents `ROW, OP_ROW, ROW`), it computes the next left block
`L'` (extents `COL, OP_COL, COL`):

    L'[conjRow, opCol, col] =
      sum over conjCol, conjBra, conjKet of conj(A[conjCol, conjRow, conjBra, conjKet]) *
        sum over bra, ket, opRow of W[conjBra, conjKet, bra, ket, opRow, opCol] *
          sum over row of L[conjCol, opRow, row] * A[row, col, bra, ket]

All arrays are dense and column-major (the first index varies fastest). The
file contains:

- the offset helpers `a3dex`, `a4dex` and `a6dex`;
- the complex product helpers `zmultr` and `zmulti`;
- eight copies of the ten-deep loop nest, `GrowLeft_XYZ`. Here X, Y and Z say
  whether the site tensor, the operator and the left block are real (R) or
  complex (Z). Each copy uses only the imaginary arrays it has;
- `mexFunction`, which picks the copy that matches the operands.

The Dafny model has six modules:

- `Index` (`index.dfy`): the offset helpers. They are defined through a
  reference linearisation `Offset`, which is proved to be a bijection between
  in-range multi-indices and flat positions below the element count.
  Closed-form lemmas show that this definition equals the expanded sum the C
  helpers write out.
- `ComplexArith` (`complex.dfy`): `zmultr`, `zmulti` and the complex algebra
  built on them.
- `GrowLeftSpec` (`spec.dfy`): the operands as dense arrays. Each has a real
  buffer, and an imaginary buffer exactly when it is complex. This module also
  writes the formula above as nested prefix sums, one per loop level.
- `GrowLeftKernel` (`kernel.dfy`): the loop nest as imperative Dafny, with one
  method per loop level. The output buffers are arrays filled in place. Each
  loop body branches on the imaginary buffers that are present, and each
  branch is the statement the matching `GrowLeft_XYZ` routines execute.
- `GrowLeftMex` (`mex.dfy`): the eight entry routines and the dispatch.
- `GrowLeftProperties` (`properties.dfy`): properties of the contraction:
  - it is linear in the left block;
  - a zero block grows into a zero block;
  - with all extents equal to 1 it reduces to a single product;
  - it depends only on element values, so each specialised routine agrees
    with `GrowLeft_ZZZ` run with zero imaginary arrays.

## Model

| member | source | states |
|---|---|---|
| Index.A3Dex | dev/utils/GrowLeft.c:14-20 | for indices each below its extent, the offset is below the element count d0*d1*d2 |
| Index.A3DexClosedForm | dev/utils/GrowLeft.c:14-20 | the offset is exactly the sum a3dex writes out, i2*d1*d0 + i1*d0 + i0 |
| Index.A3DexInjective | dev/utils/GrowLeft.c:14-20 | distinct in-range triples have distinct offsets |
| Index.A3DexOrder | dev/utils/GrowLeft.c:14-20 | column-major order: (0,0,0) is at 0; raising the first index adds one; an index reaching its extent carries into the next; the final carry lands on the element count, so consecutive output slots are consecutive triples |
| Index.A4Dex | dev/utils/GrowLeft.c:22-29 | an in-range 4-index has an offset below the element count |
| Index.A4DexClosedForm | dev/utils/GrowLeft.c:22-29 | the offset is exactly the sum a4dex writes out |
| Index.A6Dex | dev/utils/GrowLeft.c:31-41 | an in-range 6-index has an offset below the element count |
| Index.A6DexClosedForm | dev/utils/GrowLeft.c:31-41 | the offset is exactly the sum a6dex writes out |
| Index.OffsetBelowProduct | dev/utils/GrowLeft.c:14-41 | every in-range multi-index, of any rank, has an offset below the product of the extents |
| Index.OffsetInjective | dev/utils/GrowLeft.c:14-41 | two in-range multi-indices with the same offset are equal |
| Index.DigitsRoundTrip | dev/utils/GrowLeft.c:14-41 | every flat position below the element count is the offset of an in-range multi-index, so the offsets cover the whole buffer |
| Index.DigitsOfOffset | dev/utils/GrowLeft.c:14-41 | decoding the offset of an in-range multi-index gives that multi-index back |
| Index.ProductOfThree | dev/utils/GrowLeft.c:61-63 | NUMEL = COL*OP_COL*COL is the element count of an array with extents {COL, OP_COL, COL} |
| ComplexArith.MulIsComplexProduct | dev/utils/GrowLeft.c:43-55 | zmultr and zmulti are the real and imaginary parts of the complex product: i*i = -1, reals multiply as reals, and the product is commutative, associative and distributive |
| ComplexArith.MulAssociates | dev/utils/GrowLeft.c:43-55 | the zmultr/zmulti product is associative |
| ComplexArith.NormMultiplicative | dev/utils/GrowLeft.c:43-55 | the squared modulus of a zmultr/zmulti product is the product of the squared moduli |
| ComplexArith.MulReal | dev/utils/GrowLeft.c:140-149 | multiplying by a real factor scales both parts, which is what the routines with a real operand compute instead of calling zmultr/zmulti |
| ComplexArith.ConjTimesSelf | dev/utils/GrowLeft.c:500-501 | passing the negated imaginary part conjugates: conj(a)*a is the real number abs(a)^2 |
| ComplexArith.ConjHomomorphism | dev/utils/GrowLeft.c:500-501 | conjugation commutes with sums and products and is an involution |
| GrowLeftKernel.RowTerm | dev/utils/GrowLeft.c:490-493 | each routine's FA increment (lines 86, 140-141, 315-316, 492-493 and the others) is L[conjCol,opRow,row]*A[row,col,bra,ket], with neither factor conjugated; it is real exactly when site and block are real |
| GrowLeftKernel.RowContraction | dev/utils/GrowLeft.c:487-494 | FA after the row loop is the sum over row of L*A |
| GrowLeftKernel.OperatorTerm | dev/utils/GrowLeft.c:486-496 | each routine's WFA increment (lines 88, 143-144, 200-201, 259-260, 495-496 and the others) is W[conjBra,conjKet,bra,ket,opRow,opCol]*FA, unconjugated; it is real only in GrowLeft_RRR |
| GrowLeftKernel.OpRowContraction | dev/utils/GrowLeft.c:485-497 | the opRow loop adds the sum over opRow of W*FA to the running WFA |
| GrowLeftKernel.KetContraction | dev/utils/GrowLeft.c:484-498 | the ket loop adds the sum over ket and opRow to the running WFA |
| GrowLeftKernel.OperatorContraction | dev/utils/GrowLeft.c:481-499 | WFA after the bra loop is the sum over bra, ket and opRow of W*FA; it is real when every operand is real |
| GrowLeftKernel.ConjugateTerm | dev/utils/GrowLeft.c:500-501 | each routine's AWFA increment (lines 92, 148-149, 323-324, 382-383, 441-442, 500-501) is conj(A[conjCol,conjRow,conjBra,conjKet])*WFA: only this outer site factor is conjugated |
| GrowLeftKernel.ConjKetContraction | dev/utils/GrowLeft.c:479-502 | the conjKet loop adds the sum over conjKet of conj(A)*WFA to the running AWFA |
| GrowLeftKernel.ConjBraContraction | dev/utils/GrowLeft.c:478-503 | the conjBra loop adds the sum over conjBra and conjKet to the running AWFA |
| GrowLeftKernel.ConjugateContraction | dev/utils/GrowLeft.c:475-504 | AWFA after the conjCol loop is the element L'[conjRow,opCol,col] of the closed-form sum; it is real when every operand is real |
| GrowLeftKernel.FilledExtend | dev/utils/GrowLeft.c:505-507 | storing L'[conjRow,opCol,col] at its own offset keeps every earlier slot and fills one more, because offsets are injective |
| GrowLeftKernel.GrowRun | dev/utils/GrowLeft.c:474-508 | the conjRow loop writes L'[conjRow,opCol,col] to slot updex = a3dex(conjRow,opCol,col) and leaves updex at the first slot of the next opCol |
| GrowLeftKernel.GrowColumn | dev/utils/GrowLeft.c:473-509 | the opCol loop fills all slots of column col and leaves updex at the first slot of col+1 |
| GrowLeftKernel.FilledBlock | dev/utils/GrowLeft.c:505-513 | once updex has reached NUMEL, the buffers handed back hold the grown block element by element |
| GrowLeftKernel.Grow | dev/utils/GrowLeft.c:459-516 | the routine returns an array of NUMEL elements whose slot a3dex(conjRow,opCol,col) holds L'[conjRow,opCol,col]; the result has an imaginary buffer exactly when some operand is complex |
| GrowLeftMex.GrowLeftRRR | dev/utils/GrowLeft.c:57-105 | the result is real, it is the grown block, it equals what GrowLeft_ZZZ computes with zero imaginary arrays, and that result's imaginary part is exactly zero |
| GrowLeftMex.GrowLeftRRZ | dev/utils/GrowLeft.c:107-164 | the result is complex, it is the grown block, and it equals GrowLeft_ZZZ's result with zero site and operator imaginary arrays |
| GrowLeftMex.GrowLeftRZR | dev/utils/GrowLeft.c:166-221 | the result is complex, it is the grown block, and it equals GrowLeft_ZZZ's result with zero site and block imaginary arrays |
| GrowLeftMex.GrowLeftRZZ | dev/utils/GrowLeft.c:223-280 | the result is complex, it is the grown block, and it equals GrowLeft_ZZZ's result with a zero site imaginary array |
| GrowLeftMex.GrowLeftZRR | dev/utils/GrowLeft.c:282-339 | the result is complex, it is the grown block, and it equals GrowLeft_ZZZ's result with zero operator and block imaginary arrays |
| GrowLeftMex.GrowLeftZRZ | dev/utils/GrowLeft.c:341-398 | the result is complex, it is the grown block, and it equals GrowLeft_ZZZ's result with a zero operator imaginary array |
| GrowLeftMex.GrowLeftZZR | dev/utils/GrowLeft.c:400-457 | the result is complex, it is the grown block, and it equals GrowLeft_ZZZ's result with a zero block imaginary array |
| GrowLeftMex.GrowLeftZZZ | dev/utils/GrowLeft.c:459-516 | the result is complex and is the grown block of the three complex operands |
| GrowLeftMex.MexFunction | dev/utils/GrowLeft.c:535-587 | every combination of the three complex flags reaches a routine, and only imaginary arrays whose flag is set are read; the result is the grown block, and it is complex exactly when some operand is complex |
| GrowLeftProperties.RowSumLinear | dev/utils/GrowLeft.c:487-494 | FA is linear in the left block |
| GrowLeftProperties.GrownLinear | dev/utils/GrowLeft.c:472-510 | for fixed A and W, the grown block of a*L1 + b*L2 is a times that of L1 plus b times that of L2, for complex a and b |
| GrowLeftProperties.ZeroLeftBlock | dev/utils/GrowLeft.c:475-493 | a left block of zeros grows into a block of zeros |
| GrowLeftProperties.SingleSite | dev/utils/GrowLeft.c:472-510 | with every extent 1, L'[0,0,0] = abs(A)^2 * W * L, so the site element enters once conjugated and once as it is |
| GrowLeftProperties.GrownSame | dev/utils/GrowLeft.c:472-510 | the grown block depends only on the element values of the operands, not on which imaginary buffers are present |
| GrowLeftProperties.PaddedSameElements | dev/utils/GrowLeft.c:57-457 | replacing each missing imaginary array by zeros changes no element |
| GrowLeftProperties.GrownBlockPadded | dev/utils/GrowLeft.c:57-516 | a block that is the grown block of some operands is also the grown block of those operands zero-padded to the GrowLeft_ZZZ form |

## Left out

- MEX marshalling is modelled only as parameters. This covers `prhs`/`plhs`, `mxGetPr`/`mxGetPi`, `mxIsComplex` and the `mxGetScalar` size arguments (lines 520-555). The arrays arrive as sequences and the five sizes as a `Shape` of naturals, so the truncating cast of non-integral or negative sizes is not modelled.
- The `siteDims`, `mpoDims` and `lBlockDims` arrays are not separate parameters. `mexFunction` builds them from the five sizes (lines 531-533), and the model computes them from the `Shape`.
- The source does not check that the array lengths match the sizes. The model states this as a precondition (`WellShaped`, `GrowLeftMex.Fits`).
- Memory ownership is not modelled. This includes `mxCreateUninitNumericArray`, `mxMalloc` and `mxSetPr`/`mxSetPi`. In particular, the uninitialised data of the array created at line 62 is replaced by `mxSetPr` without being freed. The model returns the two filled buffers as the result array.
- IEEE double rounding is not modelled: values are exact reals. The closed-form equalities, linearity and the agreement between routines therefore hold in exact arithmetic, not bit for bit. In particular, the routines add their terms in loop order, and the model keeps that order, but floating-point sums depend on it.
- `mwIndex` overflow of `NUMEL` or of an offset is not modelled; indices are unbounded naturals.
- The eight routines are not eight copies of the loop nest. They share one loop nest (`GrowLeftKernel`) whose bodies branch on the imaginary buffers present, and each branch is the statement of the matching routines. `GrowLeftMex.GrowLeftXYZ` fixes which buffers are present.
- In routines where `FAi` or `WFAi` does not exist, the model carries the value 0.0 in its place and never adds to it.
- The offset helpers are defined in nested (Horner) form. `Index.A3DexClosedForm`, `Index.A4DexClosedForm` and `Index.A6DexClosedForm` prove them equal to the expanded sums of lines 16, 25-26 and 35-38.
- Hermitian symmetry of the grown block for a Hermitian operator and block is not modelled. The routines neither assume nor promise it.
