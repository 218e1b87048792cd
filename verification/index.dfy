/** Column-major ("first axis varies fastest") linearisation of multi-indices,
    as used by the host environment's dense arrays. */
module Index {

  /** Number of elements of an array with extents `dims`. */
  function Product(dims: seq<nat>): nat
  {
    if dims == [] then 1 else dims[0] * Product(dims[1..])
  }

  /** Every index is below the extent of its axis. */
  predicate InRange(idx: seq<nat>, dims: seq<nat>)
  {
    |idx| == |dims| && forall k :: 0 <= k < |idx| ==> idx[k] < dims[k]
  }

  /** Reference linearisation: i0 + d0 * (i1 + d1 * (i2 + ...)). */
  function Offset(idx: seq<nat>, dims: seq<nat>): nat
    requires |idx| == |dims|
  {
    if idx == [] then 0 else idx[0] + dims[0] * Offset(idx[1..], dims[1..])
  }

  /** All extents are positive. */
  predicate Positive(dims: seq<nat>)
  {
    forall k :: 0 <= k < |dims| ==> dims[k] > 0
  }

  /** The multi-index of flat position `s` (the inverse of Offset). */
  function Digits(s: nat, dims: seq<nat>): (idx: seq<nat>)
    requires Positive(dims)
    ensures |idx| == |dims|
    decreases dims
  {
    if dims == [] then []
    else
      DivMod(s, dims[0]);
      [s % dims[0]] + Digits(s / dims[0], dims[1..])
  }

  lemma DivMod(s: nat, d: nat)
    requires d > 0
    ensures 0 <= s / d && 0 <= s % d < d && s == d * (s / d) + s % d
  {
  }

  lemma MulMonotone(a: nat, x: nat, y: nat)
    requires x <= y
    ensures a * x <= a * y
  {
    assert a * y == a * x + a * (y - x);
  }

  /** Two "digit plus multiple of the base" decompositions agree only when both parts agree. */
  lemma DigitUnique(d: nat, a: nat, x: nat, b: nat, y: nat)
    requires a < d && b < d && a + d * x == b + d * y
    ensures a == b && x == y
  {
    if x < y {
      MulMonotone(d, x + 1, y);
      assert false;
    } else if y < x {
      MulMonotone(d, y + 1, x);
      assert false;
    }
  }

  lemma {:induction false} OffsetBelowProduct(idx: seq<nat>, dims: seq<nat>)
    requires InRange(idx, dims)
    ensures Offset(idx, dims) < Product(dims)
  {
    if idx != [] {
      assert InRange(idx[1..], dims[1..]) by {
        forall k | 0 <= k < |idx[1..]| ensures idx[1..][k] < dims[1..][k] {
          assert idx[1..][k] == idx[k + 1];
        }
      }
      OffsetBelowProduct(idx[1..], dims[1..]);
      var r, p := Offset(idx[1..], dims[1..]), Product(dims[1..]);
      MulMonotone(dims[0], r, p - 1);
      assert dims[0] * (p - 1) == dims[0] * p - dims[0];
    }
  }

  /** Distinct in-range multi-indices have distinct offsets. */
  lemma {:induction false} OffsetInjective(i: seq<nat>, j: seq<nat>, dims: seq<nat>)
    requires InRange(i, dims) && InRange(j, dims)
    requires Offset(i, dims) == Offset(j, dims)
    ensures i == j
  {
    if i != [] {
      assert InRange(i[1..], dims[1..]) by {
        forall k | 0 <= k < |i[1..]| ensures i[1..][k] < dims[1..][k] {
          assert i[1..][k] == i[k + 1];
        }
      }
      assert InRange(j[1..], dims[1..]) by {
        forall k | 0 <= k < |j[1..]| ensures j[1..][k] < dims[1..][k] {
          assert j[1..][k] == j[k + 1];
        }
      }
      DigitUnique(dims[0], i[0], Offset(i[1..], dims[1..]), j[0], Offset(j[1..], dims[1..]));
      OffsetInjective(i[1..], j[1..], dims[1..]);
      assert i == [i[0]] + i[1..];
      assert j == [j[0]] + j[1..];
    }
  }

  /** Every flat position below the element count is the offset of exactly the multi-index Digits gives. */
  lemma {:induction false} DigitsRoundTrip(s: nat, dims: seq<nat>)
    requires s < Product(dims)
    decreases dims
    ensures Positive(dims)
    ensures InRange(Digits(s, dims), dims)
    ensures Offset(Digits(s, dims), dims) == s
  {
    if dims != [] {
      var d, p := dims[0], Product(dims[1..]);
      ProductPositive(dims);
      DivMod(s, d);
      var q := s / d;
      if q >= p {
        MulMonotone(d, p, q);
        assert false;
      }
      DigitsRoundTrip(q, dims[1..]);
      var idx := Digits(s, dims);
      assert idx[0] == s % d && idx[1..] == Digits(q, dims[1..]);
      forall k | 0 <= k < |dims| ensures idx[k] < dims[k] {
        if k > 0 {
          assert dims[k] == dims[1..][k - 1];
          assert idx[k] == idx[1..][k - 1];
        }
      }
      OffsetCons(idx, dims);
    }
  }

  lemma {:induction false} ProductPositive(dims: seq<nat>)
    requires Product(dims) > 0
    ensures Positive(dims)
  {
    if dims != [] {
      assert dims[0] != 0;
      assert Product(dims[1..]) != 0;
      ProductPositive(dims[1..]);
      forall k | 0 < k < |dims| ensures dims[k] > 0 {
        assert dims[k] == dims[1..][k - 1];
      }
    }
  }

  /** Digits recovers every in-range multi-index from its offset. */
  lemma DigitsOfOffset(idx: seq<nat>, dims: seq<nat>)
    requires InRange(idx, dims)
    ensures Positive(dims)
    ensures Digits(Offset(idx, dims), dims) == idx
  {
    OffsetBelowProduct(idx, dims);
    DigitsRoundTrip(Offset(idx, dims), dims);
    OffsetInjective(Digits(Offset(idx, dims), dims), idx, dims);
  }

  /** a3dex: offset of (i0, i1, i2) in an array of extents dims[0..3]. */
  function A3Dex(i0: nat, i1: nat, i2: nat, dims: seq<nat>): (r: nat)
    requires |dims| == 3
    ensures i0 < dims[0] && i1 < dims[1] && i2 < dims[2] ==> r < Product(dims)
  {
    assert i0 < dims[0] && i1 < dims[1] && i2 < dims[2] ==> InRange([i0, i1, i2], dims);
    OffsetBelowProductIf([i0, i1, i2], dims);
    Offset([i0, i1, i2], dims)
  }

  /** a4dex: offset of (i0, i1, i2, i3) in an array of extents dims[0..4]. */
  function A4Dex(i0: nat, i1: nat, i2: nat, i3: nat, dims: seq<nat>): (r: nat)
    requires |dims| == 4
    ensures i0 < dims[0] && i1 < dims[1] && i2 < dims[2] && i3 < dims[3] ==> r < Product(dims)
  {
    assert i0 < dims[0] && i1 < dims[1] && i2 < dims[2] && i3 < dims[3] ==> InRange([i0, i1, i2, i3], dims);
    OffsetBelowProductIf([i0, i1, i2, i3], dims);
    Offset([i0, i1, i2, i3], dims)
  }

  /** a6dex: offset of (i0, ..., i5) in an array of extents dims[0..6]. */
  function A6Dex(i0: nat, i1: nat, i2: nat, i3: nat, i4: nat, i5: nat, dims: seq<nat>): (r: nat)
    requires |dims| == 6
    ensures i0 < dims[0] && i1 < dims[1] && i2 < dims[2] && i3 < dims[3] && i4 < dims[4] && i5 < dims[5]
            ==> r < Product(dims)
  {
    assert i0 < dims[0] && i1 < dims[1] && i2 < dims[2] && i3 < dims[3] && i4 < dims[4] && i5 < dims[5]
           ==> InRange([i0, i1, i2, i3, i4, i5], dims);
    OffsetBelowProductIf([i0, i1, i2, i3, i4, i5], dims);
    Offset([i0, i1, i2, i3, i4, i5], dims)
  }

  /** The expanded sum a3dex writes out equals the nested (Horner) form. */
  lemma A3DexClosedForm(i0: nat, i1: nat, i2: nat, dims: seq<nat>)
    requires |dims| == 3
    ensures A3Dex(i0, i1, i2, dims) == i2 * dims[1] * dims[0] + i1 * dims[0] + i0
  {
    Offset3(i0, i1, i2, dims);
  }

  /** The expanded sum a4dex writes out equals the nested (Horner) form. */
  lemma A4DexClosedForm(i0: nat, i1: nat, i2: nat, i3: nat, dims: seq<nat>)
    requires |dims| == 4
    ensures A4Dex(i0, i1, i2, i3, dims)
         == i3 * dims[2] * dims[1] * dims[0] + i2 * dims[1] * dims[0] + i1 * dims[0] + i0
  {
    Offset4(i0, i1, i2, i3, dims);
  }

  /** The expanded sum a6dex writes out equals the nested (Horner) form. */
  lemma A6DexClosedForm(i0: nat, i1: nat, i2: nat, i3: nat, i4: nat, i5: nat, dims: seq<nat>)
    requires |dims| == 6
    ensures A6Dex(i0, i1, i2, i3, i4, i5, dims)
         == i5 * dims[4] * dims[3] * dims[2] * dims[1] * dims[0]
          + i4 * dims[3] * dims[2] * dims[1] * dims[0]
          + i3 * dims[2] * dims[1] * dims[0]
          + i2 * dims[1] * dims[0] + i1 * dims[0] + i0
  {
    Offset6(i0, i1, i2, i3, i4, i5, dims);
  }

  /** Column-major order: the offset advances by one with the first index, and an
      index running off its extent carries into the next one; the last carry lands
      on the element count. */
  lemma A3DexOrder(i0: nat, i1: nat, i2: nat, dims: seq<nat>)
    requires |dims| == 3
    ensures A3Dex(0, 0, 0, dims) == 0
    ensures A3Dex(i0 + 1, i1, i2, dims) == A3Dex(i0, i1, i2, dims) + 1
    ensures A3Dex(dims[0], i1, i2, dims) == A3Dex(0, i1 + 1, i2, dims)
    ensures A3Dex(0, dims[1], i2, dims) == A3Dex(0, 0, i2 + 1, dims)
    ensures A3Dex(0, 0, dims[2], dims) == Product(dims)
  {
    var d0, d1, d2 := dims[0], dims[1], dims[2];
    A3DexClosedForm(0, 0, 0, dims);
    A3DexClosedForm(i0 + 1, i1, i2, dims);
    A3DexClosedForm(i0, i1, i2, dims);
    CarryFirst(i1, i2, dims);
    CarrySecond(i2, dims);
    A3DexEnd(dims);
  }

  lemma A3DexEnd(dims: seq<nat>)
    requires |dims| == 3
    ensures A3Dex(0, 0, dims[2], dims) == Product(dims)
  {
    var d0, d1, d2 := dims[0], dims[1], dims[2];
    A3DexClosedForm(0, 0, d2, dims);
    ProductOfThree(dims);
    MulComm(d0 * d1, d2);
    MulAssoc(d2, d0, d1);
    MulComm(d0, d1);
  }

  /** The element count of a three-axis array is the product of its extents. */
  lemma ProductOfThree(dims: seq<nat>)
    requires |dims| == 3
    ensures Product(dims) == dims[0] * dims[1] * dims[2]
  {
    var d0, d1, d2 := dims[0], dims[1], dims[2];
    assert Product(dims[2..][1..]) == 1;
    assert Product(dims[2..]) == d2;
    assert dims[1..][1..] == dims[2..];
    assert Product(dims[1..]) == d1 * d2;
    assert Product(dims) == d0 * (d1 * d2);
    MulAssoc(d0, d1, d2);
  }

  lemma CarryFirst(i1: nat, i2: nat, dims: seq<nat>)
    requires |dims| == 3
    ensures A3Dex(dims[0], i1, i2, dims) == A3Dex(0, i1 + 1, i2, dims)
  {
    A3DexClosedForm(dims[0], i1, i2, dims);
    A3DexClosedForm(0, i1 + 1, i2, dims);
    MulDistrib(dims[0], i1, 1);
    MulComm(dims[0], i1 + 1);
    MulComm(dims[0], i1);
  }

  lemma CarrySecond(i2: nat, dims: seq<nat>)
    requires |dims| == 3
    ensures A3Dex(0, dims[1], i2, dims) == A3Dex(0, 0, i2 + 1, dims)
  {
    var p := dims[1] * dims[0];
    A3DexClosedForm(0, dims[1], i2, dims);
    A3DexClosedForm(0, 0, i2 + 1, dims);
    assert (i2 + 1) * dims[1] * dims[0] == (i2 + 1) * p;
    assert i2 * dims[1] * dims[0] == i2 * p;
    MulDistrib(p, i2, 1);
    MulComm(p, i2 + 1);
    MulComm(p, i2);
  }

  /** Distinct in-range triples have distinct a3dex offsets. */
  lemma A3DexInjective(i0: nat, i1: nat, i2: nat, j0: nat, j1: nat, j2: nat, dims: seq<nat>)
    requires |dims| == 3
    requires i0 < dims[0] && i1 < dims[1] && i2 < dims[2]
    requires j0 < dims[0] && j1 < dims[1] && j2 < dims[2]
    requires A3Dex(i0, i1, i2, dims) == A3Dex(j0, j1, j2, dims)
    ensures i0 == j0 && i1 == j1 && i2 == j2
  {
    assert InRange([i0, i1, i2], dims) && InRange([j0, j1, j2], dims);
    OffsetInjective([i0, i1, i2], [j0, j1, j2], dims);
    assert [i0, i1, i2][0] == [j0, j1, j2][0];
    assert [i0, i1, i2][1] == [j0, j1, j2][1];
    assert [i0, i1, i2][2] == [j0, j1, j2][2];
  }

  lemma MulComm(a: int, b: int)
    ensures a * b == b * a
  {
  }

  lemma MulDistrib(a: int, b: int, c: int)
    ensures a * (b + c) == a * b + a * c
  {
  }

  lemma MulAssoc(a: int, b: int, c: int)
    ensures a * (b * c) == (a * b) * c
  {
  }

  lemma OffsetNil()
    ensures Offset([], []) == 0
  {
  }

  lemma OffsetCons(idx: seq<nat>, dims: seq<nat>)
    requires |idx| == |dims| > 0
    ensures Offset(idx, dims) == idx[0] + dims[0] * Offset(idx[1..], dims[1..])
  {
  }

  lemma Offset1(i0: nat, dims: seq<nat>)
    requires |dims| == 1
    ensures Offset([i0], dims) == i0
  {
    assert [i0][1..] == [] && dims[1..] == [];
    OffsetCons([i0], dims);
    OffsetNil();
  }

  lemma Offset3(i0: nat, i1: nat, i2: nat, dims: seq<nat>)
    requires |dims| == 3
    ensures Offset([i0, i1, i2], dims) == i2 * dims[1] * dims[0] + i1 * dims[0] + i0
  {
    var d0, d1 := dims[0], dims[1];
    assert [i0, i1, i2][1..] == [i1, i2] && [i1, i2][1..] == [i2];
    assert dims[1..][1..] == dims[2..];
    Offset1(i2, dims[2..]);
    OffsetCons([i1, i2], dims[1..]);
    OffsetCons([i0, i1, i2], dims);
    MulDistrib(d0, i1, d1 * i2);
    MulComm(d0, i1);
    MulAssoc(d0, d1, i2);
    MulComm(d0, d1);
    MulAssoc(d1, d0, i2);
    MulComm(d1 * d0, i2);
    MulAssoc(i2, d1, d0);
  }

  lemma Offset4(i0: nat, i1: nat, i2: nat, i3: nat, dims: seq<nat>)
    requires |dims| == 4
    ensures Offset([i0, i1, i2, i3], dims)
         == i3 * dims[2] * dims[1] * dims[0] + i2 * dims[1] * dims[0] + i1 * dims[0] + i0
  {
    var d0, d1, d2 := dims[0], dims[1], dims[2];
    assert [i0, i1, i2, i3][1..] == [i1, i2, i3];
    assert dims[1..][0] == d1 && dims[1..][1] == d2;
    Offset3(i1, i2, i3, dims[1..]);
    OffsetCons([i0, i1, i2, i3], dims);
    var a, b := i3 * d2 * d1, i2 * d1;
    MulDistrib(d0, a + b, i1);
    MulDistrib(d0, a, b);
    MulComm(d0, a);
    MulComm(d0, b);
    MulComm(d0, i1);
  }

  lemma Offset6(i0: nat, i1: nat, i2: nat, i3: nat, i4: nat, i5: nat, dims: seq<nat>)
    requires |dims| == 6
    ensures Offset([i0, i1, i2, i3, i4, i5], dims)
         == i5 * dims[4] * dims[3] * dims[2] * dims[1] * dims[0]
          + i4 * dims[3] * dims[2] * dims[1] * dims[0]
          + i3 * dims[2] * dims[1] * dims[0]
          + i2 * dims[1] * dims[0] + i1 * dims[0] + i0
  {
    var d0, d1, d2, d3, d4 := dims[0], dims[1], dims[2], dims[3], dims[4];
    assert [i0, i1, i2, i3, i4, i5][1..] == [i1, i2, i3, i4, i5];
    assert dims[1..][0] == d1 && dims[1..][1] == d2 && dims[1..][2] == d3 && dims[1..][3] == d4;
    Offset5(i1, i2, i3, i4, i5, dims[1..]);
    OffsetCons([i0, i1, i2, i3, i4, i5], dims);
    var a, b, c, e := i5 * d4 * d3 * d2 * d1, i4 * d3 * d2 * d1, i3 * d2 * d1, i2 * d1;
    MulDistrib(d0, a + b + c + e, i1);
    MulDistrib(d0, a + b + c, e);
    MulDistrib(d0, a + b, c);
    MulDistrib(d0, a, b);
    MulComm(d0, a);
    MulComm(d0, b);
    MulComm(d0, c);
    MulComm(d0, e);
    MulComm(d0, i1);
  }

  lemma Offset5(i0: nat, i1: nat, i2: nat, i3: nat, i4: nat, dims: seq<nat>)
    requires |dims| == 5
    ensures Offset([i0, i1, i2, i3, i4], dims)
         == i4 * dims[3] * dims[2] * dims[1] * dims[0]
          + i3 * dims[2] * dims[1] * dims[0]
          + i2 * dims[1] * dims[0] + i1 * dims[0] + i0
  {
    var d0, d1, d2, d3 := dims[0], dims[1], dims[2], dims[3];
    assert [i0, i1, i2, i3, i4][1..] == [i1, i2, i3, i4];
    assert dims[1..][0] == d1 && dims[1..][1] == d2 && dims[1..][2] == d3;
    Offset4(i1, i2, i3, i4, dims[1..]);
    OffsetCons([i0, i1, i2, i3, i4], dims);
    var a, b, c := i4 * d3 * d2 * d1, i3 * d2 * d1, i2 * d1;
    MulDistrib(d0, a + b + c, i1);
    MulDistrib(d0, a + b, c);
    MulDistrib(d0, a, b);
    MulComm(d0, a);
    MulComm(d0, b);
    MulComm(d0, c);
    MulComm(d0, i1);
  }

  lemma OffsetBelowProductIf(idx: seq<nat>, dims: seq<nat>)
    requires |idx| == |dims|
    ensures InRange(idx, dims) ==> Offset(idx, dims) < Product(dims)
  {
    if InRange(idx, dims) {
      OffsetBelowProduct(idx, dims);
    }
  }
}
