/** The tensor operations that the time-domain loss is built from, over exact
    reals: a flat contiguous buffer, a strided three-dimensional view of it,
    element-wise squaring, the mean along the last axis, the swap of the two
    inner axes, zero padding and subtraction along the last axis, and the
    mean absolute error.  A tensor of rank two or three is a sequence of
    rows; IsBox2 and IsBox3 say that it is rectangular. */
module Tensors {

  type Triple = (int, int, int)
  type Tensor2 = seq<seq<real>>
  type Tensor3 = seq<seq<seq<real>>>

  predicate IsBox2(t: Tensor2, d0: int, d1: int)
  {
    |t| == d0 && forall b | 0 <= b < |t| :: |t[b]| == d1
  }

  predicate IsBox3(t: Tensor3, d0: int, d1: int, d2: int)
  {
    |t| == d0 && forall b | 0 <= b < |t| :: IsBox2(t[b], d1, d2)
  }

  function Abs(x: real): (r: real)
    ensures r >= 0.0
    ensures r == x || r == -x
  {
    if x < 0.0 then -x else x
  }

  // ---------------------------------------------------------------- sums

  /** torch.sum over a one-dimensional tensor. */
  function Sum(s: seq<real>): real
  {
    if s == [] then 0.0 else s[0] + Sum(s[1..])
  }

  lemma {:induction false} SumNonNegative(s: seq<real>)
    requires forall i | 0 <= i < |s| :: s[i] >= 0.0
    ensures Sum(s) >= 0.0
  {
    if s != [] {
      SumNonNegative(s[1..]);
    }
  }

  /** A sum of non-negative terms vanishes exactly when every term does. */
  lemma {:induction false} SumZeroIff(s: seq<real>)
    requires forall i | 0 <= i < |s| :: s[i] >= 0.0
    ensures Sum(s) == 0.0 <==> forall i | 0 <= i < |s| :: s[i] == 0.0
  {
    if s != [] {
      SumZeroIff(s[1..]);
      SumNonNegative(s[1..]);
      if Sum(s) == 0.0 {
        forall i | 0 <= i < |s| ensures s[i] == 0.0 {
          if i > 0 { assert s[i] == s[1..][i - 1]; }
        }
      }
      if forall i | 0 <= i < |s| :: s[i] == 0.0 {
        assert forall i | 0 <= i < |s[1..]| :: s[1..][i] == s[i + 1];
      }
    }
  }

  lemma {:induction false} SumConstant(s: seq<real>, c: real)
    requires forall i | 0 <= i < |s| :: s[i] == c
    ensures Sum(s) == |s| as real * c
  {
    if s != [] {
      SumConstant(s[1..], c);
    }
  }

  /** Adding c to each of n terms adds n * c to their sum. */
  lemma {:induction false} SumShift(s: seq<real>, t: seq<real>, c: real)
    requires |t| == |s|
    requires forall i | 0 <= i < |s| :: t[i] == s[i] + c
    ensures Sum(t) == Sum(s) + |s| as real * c
  {
    if s != [] {
      SumShift(s[1..], t[1..], c);
    }
  }

  /** torch.mean over a one-dimensional tensor (undefined when empty). */
  function Mean(s: seq<real>): real
    requires |s| > 0
  {
    Sum(s) / |s| as real
  }

  lemma MeanConstant(s: seq<real>, c: real)
    requires |s| > 0 && forall i | 0 <= i < |s| :: s[i] == c
    ensures Mean(s) == c
  {
    SumConstant(s, c);
    var n := |s| as real;
    assert Sum(s) / n == (n * c) / n == c;
  }

  lemma MeanSingleton(x: real)
    ensures Mean([x]) == x
  {
    assert [x][1..] == [];
    assert Sum([x]) == x + Sum([]);
  }

  lemma MeanShift(s: seq<real>, t: seq<real>, c: real)
    requires |t| == |s| > 0
    requires forall i | 0 <= i < |s| :: t[i] == s[i] + c
    ensures Mean(t) == Mean(s) + c
  {
    SumShift(s, t, c);
    var n := |s| as real;
    calc {
      Mean(t);
      (Sum(s) + n * c) / n;
      Sum(s) / n + c;
    }
  }

  // ------------------------------------------------------------ l1_loss

  function AbsDiff(a: seq<real>, b: seq<real>): (r: seq<real>)
    requires |a| == |b|
  {
    seq(|a|, i requires 0 <= i < |a| => Abs(a[i] - b[i]))
  }

  /** F.l1_loss with its default 'mean' reduction: the mean absolute
      difference of two tensors of the same (non-empty) shape. */
  function L1Loss(a: seq<real>, b: seq<real>): (r: real)
    requires |a| == |b| > 0
    ensures r >= 0.0
  {
    SumNonNegative(AbsDiff(a, b));
    Sum(AbsDiff(a, b)) / |a| as real
  }

  /** The l1 loss is zero exactly when the two tensors are equal. */
  lemma L1LossZeroIff(a: seq<real>, b: seq<real>)
    requires |a| == |b| > 0
    ensures L1Loss(a, b) == 0.0 <==> a == b
  {
    var d := AbsDiff(a, b);
    SumZeroIff(d);
    assert forall i | 0 <= i < |a| :: d[i] == 0.0 <==> a[i] == b[i];
    assert a == b <==> forall i | 0 <= i < |a| :: a[i] == b[i];
  }

  /** Against a copy shifted by c, the l1 loss is |c|. */
  lemma L1LossOfShift(a: seq<real>, b: seq<real>, c: real)
    requires |a| == |b| > 0
    requires forall i | 0 <= i < |a| :: b[i] == a[i] + c
    ensures L1Loss(a, b) == Abs(c)
  {
    var d := AbsDiff(a, b);
    assert forall i | 0 <= i < |d| :: d[i] == Abs(c);
    SumConstant(d, Abs(c));
  }

  // ----------------------------------------------------------- flattening

  /** The row-major order of the elements of a rank-two tensor. */
  function Flatten2(t: Tensor2): seq<real>
  {
    if t == [] then [] else t[0] + Flatten2(t[1..])
  }

  function Flatten3(t: Tensor3): seq<real>
  {
    Flatten2(seq(|t|, b requires 0 <= b < |t| => Flatten2(t[b])))
  }

  lemma {:induction false} Flatten2Length(t: Tensor2, d0: int, d1: int)
    requires IsBox2(t, d0, d1)
    ensures |Flatten2(t)| == d0 * d1
  {
    if t != [] {
      Flatten2Length(t[1..], d0 - 1, d1);
    }
  }

  lemma Flatten3Length(t: Tensor3, d0: int, d1: int, d2: int)
    requires IsBox3(t, d0, d1, d2)
    ensures |Flatten3(t)| == d0 * (d1 * d2)
  {
    var rows := seq(|t|, b requires 0 <= b < |t| => Flatten2(t[b]));
    forall b | 0 <= b < |t| ensures |rows[b]| == d1 * d2 {
      Flatten2Length(t[b], d1, d2);
    }
    Flatten2Length(rows, d0, d1 * d2);
  }

  /** The first element of a flattened rank-three tensor is its corner. */
  lemma Flatten3Head(t: Tensor3)
    requires |t| > 0 && |t[0]| > 0 && |t[0][0]| > 0
    ensures |Flatten3(t)| > 0 && Flatten3(t)[0] == t[0][0][0]
  {
    var rows := seq(|t|, b requires 0 <= b < |t| => Flatten2(t[b]));
    assert Flatten2(t[0]) == t[0][0] + Flatten2(t[0][1..]);
    assert Flatten2(rows) == rows[0] + Flatten2(rows[1..]);
  }

  /** Element k of row b of a d0-by-d1 tensor sits at b * d1 + k once
      flattened. */
  lemma {:induction false} Flatten2At(t: Tensor2, d0: int, d1: int, b: int, k: int)
    requires IsBox2(t, d0, d1)
    requires 0 <= b < d0 && 0 <= k < d1
    ensures |Flatten2(t)| == d0 * d1
    ensures 0 <= b * d1 + k < d0 * d1
    ensures Flatten2(t)[b * d1 + k] == t[b][k]
  {
    Flatten2Length(t, d0, d1);
    MulMonotone(b + 1, d0, d1);
    MulMonotone(0, b, d1);
    if b > 0 {
      Flatten2At(t[1..], d0 - 1, d1, b - 1, k);
      assert b * d1 + k == d1 + ((b - 1) * d1 + k);
    }
  }

  /** Flattening commutes with adding a constant to every element. */
  lemma {:induction false} Flatten2Shift(t: Tensor2, u: Tensor2, c: real)
    requires |u| == |t|
    requires forall b | 0 <= b < |t| :: |u[b]| == |t[b]|
    requires forall b, k | 0 <= b < |t| && 0 <= k < |t[b]| :: u[b][k] == t[b][k] + c
    ensures |Flatten2(u)| == |Flatten2(t)|
    ensures forall i | 0 <= i < |Flatten2(t)| :: Flatten2(u)[i] == Flatten2(t)[i] + c
  {
    if t != [] {
      Flatten2Shift(t[1..], u[1..], c);
      var ft, fu := Flatten2(t), Flatten2(u);
      assert ft == t[0] + Flatten2(t[1..]);
      assert fu == u[0] + Flatten2(u[1..]);
      forall i | 0 <= i < |ft| ensures fu[i] == ft[i] + c {
        if i >= |t[0]| {
          assert ft[i] == Flatten2(t[1..])[i - |t[0]|];
          assert fu[i] == Flatten2(u[1..])[i - |u[0]|];
        }
      }
    }
  }

  // -------------------------------------------------------- strided view

  /** Stride footprint check of torch.as_strided on a contiguous buffer of
      `size` elements with zero storage offset: sizes and strides are not
      negative, and unless the view is empty its last element,
      sum of (size_d - 1) * stride_d, is inside the buffer. */
  predicate Fits(shape: Triple, stride: Triple, size: int)
  {
    && shape.0 >= 0 && shape.1 >= 0 && shape.2 >= 0
    && stride.0 >= 0 && stride.1 >= 0 && stride.2 >= 0
    && (shape.0 == 0 || shape.1 == 0 || shape.2 == 0 ||
        (shape.0 - 1) * stride.0 + (shape.1 - 1) * stride.1 + (shape.2 - 1) * stride.2 < size)
  }

  /** The buffer position that view element [b][k][j] reads. */
  function Offset(stride: Triple, b: int, k: int, j: int): int
  {
    b * stride.0 + k * stride.1 + j * stride.2
  }

  lemma MulMonotone(a: int, b: int, s: int)
    requires 0 <= a <= b && 0 <= s
    ensures a * s <= b * s
  {
  }

  lemma MulSucc(a: int, w: int)
    ensures (a + 1) * w == a * w + w
  {
  }

  lemma OffsetInside(shape: Triple, stride: Triple, size: int, b: int, k: int, j: int)
    requires Fits(shape, stride, size)
    requires 0 <= b < shape.0 && 0 <= k < shape.1 && 0 <= j < shape.2
    ensures 0 <= Offset(stride, b, k, j) < size
  {
    MulMonotone(b, shape.0 - 1, stride.0);
    MulMonotone(k, shape.1 - 1, stride.1);
    MulMonotone(j, shape.2 - 1, stride.2);
    MulMonotone(0, b, stride.0);
    MulMonotone(0, k, stride.1);
    MulMonotone(0, j, stride.2);
  }

  /** The buffer element that view element [b][k][j] reads. */
  function Element(x: seq<real>, shape: Triple, stride: Triple, b: int, k: int, j: int): real
    requires Fits(shape, stride, |x|)
    requires 0 <= b < shape.0 && 0 <= k < shape.1 && 0 <= j < shape.2
  {
    OffsetInside(shape, stride, |x|, b, k, j);
    x[Offset(stride, b, k, j)]
  }

  /** torch.as_strided(x, shape, stride) on a contiguous buffer x. */
  function AsStrided(x: seq<real>, shape: Triple, stride: Triple): (v: Tensor3)
    requires Fits(shape, stride, |x|)
  {
    seq(shape.0, b requires 0 <= b < shape.0 =>
      seq(shape.1, k requires 0 <= k < shape.1 =>
        seq(shape.2, j requires 0 <= j < shape.2 => Element(x, shape, stride, b, k, j))))
  }

  /** The view is a (shape.0, shape.1, shape.2) box whose element [b][k][j]
      is buffer element b * stride.0 + k * stride.1 + j * stride.2. */
  lemma AsStridedAt(x: seq<real>, shape: Triple, stride: Triple)
    requires Fits(shape, stride, |x|)
    ensures IsBox3(AsStrided(x, shape, stride), shape.0, shape.1, shape.2)
    ensures forall b, k, j | 0 <= b < shape.0 && 0 <= k < shape.1 && 0 <= j < shape.2 ::
              AsStrided(x, shape, stride)[b][k][j] == Element(x, shape, stride, b, k, j)
  {
  }

  // ----------------------------------------------- element-wise and axes

  /** x ** 2 on a flat sequence. */
  function Squares(s: seq<real>): (r: seq<real>)
    ensures |r| == |s|
  {
    seq(|s|, i requires 0 <= i < |s| => s[i] * s[i])
  }

  /** t ** 2, element-wise: every innermost row squared. */
  function Square(t: Tensor3): (r: Tensor3)
  {
    seq(|t|, b requires 0 <= b < |t| =>
      seq(|t[b]|, k requires 0 <= k < |t[b]| => Squares(t[b][k])))
  }

  predicate InnerNonEmpty(t: Tensor3)
  {
    forall b, k | 0 <= b < |t| && 0 <= k < |t[b]| :: |t[b][k]| > 0
  }

  /** torch.mean(t, dim=-1). */
  function MeanLastAxis(t: Tensor3): (r: Tensor2)
    requires InnerNonEmpty(t)
  {
    seq(|t|, b requires 0 <= b < |t| =>
      seq(|t[b]|, k requires 0 <= k < |t[b]| => Mean(t[b][k])))
  }

  /** t.transpose(1, 2) of a tensor of shape (d0, d1, d2). */
  function Transpose12(t: Tensor3, d1: int, d2: int): Tensor3
    requires d1 >= 0 && d2 >= 0 && IsBox3(t, |t|, d1, d2)
  {
    seq(|t|, b requires 0 <= b < |t| =>
      seq(d2, j requires 0 <= j < d2 =>
        seq(d1, k requires 0 <= k < d1 => t[b][k][j])))
  }

  lemma Transpose12At(t: Tensor3, d1: int, d2: int)
    requires d1 >= 0 && d2 >= 0 && IsBox3(t, |t|, d1, d2)
    ensures IsBox3(Transpose12(t, d1, d2), |t|, d2, d1)
    ensures forall b, j, k | 0 <= b < |t| && 0 <= j < d2 && 0 <= k < d1 ::
              Transpose12(t, d1, d2)[b][j][k] == t[b][k][j]
  {
  }

  /** F.pad(v, (before, after), "constant", 0) along one axis. */
  function Pad(v: seq<real>, before: nat, after: nat): seq<real>
  {
    seq(before, _ => 0.0) + v + seq(after, _ => 0.0)
  }

  function Sub(a: seq<real>, b: seq<real>): seq<real>
    requires |a| == |b|
  {
    seq(|a|, i requires 0 <= i < |a| => a[i] - b[i])
  }

  /** The phase proxy of one row: F.pad(v, (1, 0)) - F.pad(v, (0, 1)). */
  function PaddedDiff(v: seq<real>): seq<real>
  {
    Sub(Pad(v, 1, 0), Pad(v, 0, 1))
  }

  /** The padded difference has one element more than its row; element i is
      v[i-1] - v[i], an out-of-range neighbour reading as zero. */
  lemma PaddedDiffAt(v: seq<real>)
    ensures |PaddedDiff(v)| == |v| + 1
    ensures forall i | 0 <= i <= |v| ::
              PaddedDiff(v)[i] == (if i > 0 then v[i - 1] else 0.0) - (if i < |v| then v[i] else 0.0)
    ensures |v| > 0 ==> PaddedDiff(v)[0] == -v[0] && PaddedDiff(v)[|v|] == v[|v| - 1]
  {
    var l, r := Pad(v, 1, 0), Pad(v, 0, 1);
    assert forall i | 0 <= i <= |v| :: l[i] == if i > 0 then v[i - 1] else 0.0;
    assert forall i | 0 <= i <= |v| :: r[i] == if i < |v| then v[i] else 0.0;
  }

  /** A constant offset cancels in the inner elements of the padded
      difference but not in its two ends, where it meets the zero padding. */
  lemma PaddedDiffOfShift(v: seq<real>, w: seq<real>, c: real)
    requires |w| == |v| > 0
    requires forall i | 0 <= i < |v| :: w[i] == v[i] + c
    ensures |PaddedDiff(w)| == |PaddedDiff(v)|
    ensures forall i | 0 < i < |v| :: PaddedDiff(w)[i] == PaddedDiff(v)[i]
    ensures PaddedDiff(w)[0] == PaddedDiff(v)[0] - c
    ensures PaddedDiff(w)[|v|] == PaddedDiff(v)[|v|] + c
  {
    PaddedDiffAt(v);
    PaddedDiffAt(w);
  }

  /** Pad both ends of the last axis and subtract, row by row. */
  function PaddedDiffLastAxis(t: Tensor3): (r: Tensor3)
  {
    seq(|t|, b requires 0 <= b < |t| =>
      seq(|t[b]|, k requires 0 <= k < |t[b]| => PaddedDiff(t[b][k])))
  }

  lemma PaddedDiffLastAxisShape(t: Tensor3, d0: int, d1: int, d2: int)
    requires IsBox3(t, d0, d1, d2)
    ensures IsBox3(PaddedDiffLastAxis(t), d0, d1, d2 + 1)
  {
    forall b, k | 0 <= b < d0 && 0 <= k < d1 ensures |PaddedDiff(t[b][k])| == d2 + 1 {
      PaddedDiffAt(t[b][k]);
    }
  }
}
