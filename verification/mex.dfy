/** The eight GrowLeft_XYZ entry routines and the MEX gateway that picks one.

    In a routine's name X says whether the site tensor is real (R) or complex
    (Z), Y the same of the operator, and Z of the left block. Each routine
    receives the real buffer of every operand and the imaginary buffer of
    exactly its complex operands, and returns the grown block, which is
    complex unless all three operands are real. */
module GrowLeftMex {
  import opened Index
  import opened ComplexArith
  import opened GrowLeftSpec
  import opened GrowLeftKernel
  import opened GrowLeftProperties

  /** The buffers hold as many elements as the extents say (the routines read
      them unchecked). */
  predicate Fits(sh: Shape, siteLen: nat, mpoLen: nat, leftLen: nat)
  {
    siteLen == Product(SiteDims(sh)) && mpoLen == Product(MpoDims(sh)) && leftLen == Product(LeftDims(sh))
  }

  method GrowLeftRRR(siteReal: seq<real>, mpoReal: seq<real>, leftReal: seq<real>, sh: Shape)
    returns (upd: CTensor)
    requires Fits(sh, |siteReal|, |mpoReal|, |leftReal|)
    ensures !IsComplex(upd)
    ensures IsGrownBlock(upd, Inputs(sh, CTensor(siteReal, None), CTensor(mpoReal, None), CTensor(leftReal, None)))
    ensures IsGrownBlock(upd, Padded(Inputs(sh, CTensor(siteReal, None), CTensor(mpoReal, None), CTensor(leftReal, None))))
    ensures forall conjRow: nat, opCol: nat, col: nat | conjRow < sh.col && opCol < sh.opCol && col < sh.col ::
              Grown(Padded(Inputs(sh, CTensor(siteReal, None), CTensor(mpoReal, None), CTensor(leftReal, None))), conjRow, opCol, col).im == 0.0
  {
    var g := Inputs(sh, CTensor(siteReal, None), CTensor(mpoReal, None), CTensor(leftReal, None));
    upd := Grow(g);
    GrownBlockPadded(upd, g);
  }

  method GrowLeftRRZ(siteReal: seq<real>, mpoReal: seq<real>, leftReal: seq<real>, leftImag: seq<real>, sh: Shape)
    returns (upd: CTensor)
    requires Fits(sh, |siteReal|, |mpoReal|, |leftReal|) && |leftImag| == |leftReal|
    ensures IsComplex(upd)
    ensures IsGrownBlock(upd, Inputs(sh, CTensor(siteReal, None), CTensor(mpoReal, None), CTensor(leftReal, Some(leftImag))))
    ensures IsGrownBlock(upd, Padded(Inputs(sh, CTensor(siteReal, None), CTensor(mpoReal, None), CTensor(leftReal, Some(leftImag)))))
  {
    var g := Inputs(sh, CTensor(siteReal, None), CTensor(mpoReal, None), CTensor(leftReal, Some(leftImag)));
    upd := Grow(g);
    GrownBlockPadded(upd, g);
  }

  method GrowLeftRZR(siteReal: seq<real>, mpoReal: seq<real>, mpoImag: seq<real>, leftReal: seq<real>, sh: Shape)
    returns (upd: CTensor)
    requires Fits(sh, |siteReal|, |mpoReal|, |leftReal|) && |mpoImag| == |mpoReal|
    ensures IsComplex(upd)
    ensures IsGrownBlock(upd, Inputs(sh, CTensor(siteReal, None), CTensor(mpoReal, Some(mpoImag)), CTensor(leftReal, None)))
    ensures IsGrownBlock(upd, Padded(Inputs(sh, CTensor(siteReal, None), CTensor(mpoReal, Some(mpoImag)), CTensor(leftReal, None))))
  {
    var g := Inputs(sh, CTensor(siteReal, None), CTensor(mpoReal, Some(mpoImag)), CTensor(leftReal, None));
    upd := Grow(g);
    GrownBlockPadded(upd, g);
  }

  method GrowLeftRZZ(siteReal: seq<real>, mpoReal: seq<real>, mpoImag: seq<real>,
                     leftReal: seq<real>, leftImag: seq<real>, sh: Shape)
    returns (upd: CTensor)
    requires Fits(sh, |siteReal|, |mpoReal|, |leftReal|) && |mpoImag| == |mpoReal| && |leftImag| == |leftReal|
    ensures IsComplex(upd)
    ensures IsGrownBlock(upd, Inputs(sh, CTensor(siteReal, None), CTensor(mpoReal, Some(mpoImag)),
                                     CTensor(leftReal, Some(leftImag))))
    ensures IsGrownBlock(upd, Padded(Inputs(sh, CTensor(siteReal, None), CTensor(mpoReal, Some(mpoImag)),
                                     CTensor(leftReal, Some(leftImag)))))
  {
    var g := Inputs(sh, CTensor(siteReal, None), CTensor(mpoReal, Some(mpoImag)),
                                     CTensor(leftReal, Some(leftImag)));
    upd := Grow(g);
    GrownBlockPadded(upd, g);
  }

  method GrowLeftZRR(siteReal: seq<real>, siteImag: seq<real>, mpoReal: seq<real>, leftReal: seq<real>, sh: Shape)
    returns (upd: CTensor)
    requires Fits(sh, |siteReal|, |mpoReal|, |leftReal|) && |siteImag| == |siteReal|
    ensures IsComplex(upd)
    ensures IsGrownBlock(upd, Inputs(sh, CTensor(siteReal, Some(siteImag)), CTensor(mpoReal, None), CTensor(leftReal, None)))
    ensures IsGrownBlock(upd, Padded(Inputs(sh, CTensor(siteReal, Some(siteImag)), CTensor(mpoReal, None), CTensor(leftReal, None))))
  {
    var g := Inputs(sh, CTensor(siteReal, Some(siteImag)), CTensor(mpoReal, None), CTensor(leftReal, None));
    upd := Grow(g);
    GrownBlockPadded(upd, g);
  }

  method GrowLeftZRZ(siteReal: seq<real>, siteImag: seq<real>, mpoReal: seq<real>,
                     leftReal: seq<real>, leftImag: seq<real>, sh: Shape)
    returns (upd: CTensor)
    requires Fits(sh, |siteReal|, |mpoReal|, |leftReal|) && |siteImag| == |siteReal| && |leftImag| == |leftReal|
    ensures IsComplex(upd)
    ensures IsGrownBlock(upd, Inputs(sh, CTensor(siteReal, Some(siteImag)), CTensor(mpoReal, None),
                                     CTensor(leftReal, Some(leftImag))))
    ensures IsGrownBlock(upd, Padded(Inputs(sh, CTensor(siteReal, Some(siteImag)), CTensor(mpoReal, None),
                                     CTensor(leftReal, Some(leftImag)))))
  {
    var g := Inputs(sh, CTensor(siteReal, Some(siteImag)), CTensor(mpoReal, None),
                                     CTensor(leftReal, Some(leftImag)));
    upd := Grow(g);
    GrownBlockPadded(upd, g);
  }

  method GrowLeftZZR(siteReal: seq<real>, siteImag: seq<real>, mpoReal: seq<real>, mpoImag: seq<real>,
                     leftReal: seq<real>, sh: Shape)
    returns (upd: CTensor)
    requires Fits(sh, |siteReal|, |mpoReal|, |leftReal|) && |siteImag| == |siteReal| && |mpoImag| == |mpoReal|
    ensures IsComplex(upd)
    ensures IsGrownBlock(upd, Inputs(sh, CTensor(siteReal, Some(siteImag)), CTensor(mpoReal, Some(mpoImag)),
                                     CTensor(leftReal, None)))
    ensures IsGrownBlock(upd, Padded(Inputs(sh, CTensor(siteReal, Some(siteImag)), CTensor(mpoReal, Some(mpoImag)),
                                     CTensor(leftReal, None))))
  {
    var g := Inputs(sh, CTensor(siteReal, Some(siteImag)), CTensor(mpoReal, Some(mpoImag)),
                                     CTensor(leftReal, None));
    upd := Grow(g);
    GrownBlockPadded(upd, g);
  }

  method GrowLeftZZZ(siteReal: seq<real>, siteImag: seq<real>, mpoReal: seq<real>, mpoImag: seq<real>,
                     leftReal: seq<real>, leftImag: seq<real>, sh: Shape)
    returns (upd: CTensor)
    requires Fits(sh, |siteReal|, |mpoReal|, |leftReal|)
    requires |siteImag| == |siteReal| && |mpoImag| == |mpoReal| && |leftImag| == |leftReal|
    ensures IsComplex(upd)
    ensures IsGrownBlock(upd, Inputs(sh, CTensor(siteReal, Some(siteImag)), CTensor(mpoReal, Some(mpoImag)),
                                     CTensor(leftReal, Some(leftImag))))
  {
    var g := Inputs(sh, CTensor(siteReal, Some(siteImag)), CTensor(mpoReal, Some(mpoImag)),
                                     CTensor(leftReal, Some(leftImag)));
    upd := Grow(g);
  }

  /** The gateway: tests which operands are complex and calls the routine for
      that combination, passing the imaginary buffers of the complex ones. */
  method MexFunction(site: CTensor, mpo: CTensor, left: CTensor, sh: Shape) returns (upd: CTensor)
    requires WellShaped(Inputs(sh, site, mpo, left))
    ensures IsComplex(upd) <==> IsComplex(site) || IsComplex(mpo) || IsComplex(left)
    ensures IsGrownBlock(upd, Inputs(sh, site, mpo, left))
  {
    var siteComplex, mpoComplex, leftComplex := IsComplex(site), IsComplex(mpo), IsComplex(left);
    if siteComplex {
      if leftComplex {
        if mpoComplex {
          upd := GrowLeftZZZ(site.re, site.im.value, mpo.re, mpo.im.value, left.re, left.im.value, sh);
        } else {
          upd := GrowLeftZRZ(site.re, site.im.value, mpo.re, left.re, left.im.value, sh);
        }
      } else {
        if mpoComplex {
          upd := GrowLeftZZR(site.re, site.im.value, mpo.re, mpo.im.value, left.re, sh);
        } else {
          upd := GrowLeftZRR(site.re, site.im.value, mpo.re, left.re, sh);
        }
      }
    } else {
      if leftComplex {
        if mpoComplex {
          upd := GrowLeftRZZ(site.re, mpo.re, mpo.im.value, left.re, left.im.value, sh);
        } else {
          upd := GrowLeftRRZ(site.re, mpo.re, left.re, left.im.value, sh);
        }
      } else {
        if mpoComplex {
          upd := GrowLeftRZR(site.re, mpo.re, mpo.im.value, left.re, sh);
        } else {
          upd := GrowLeftRRR(site.re, mpo.re, left.re, sh);
        }
      }
    }
  }
}
