/** The multi-resolution time-domain loss of the vocoder trainer.

    For each (frame size, hop size) configuration the constructor fixes the
    shape (batch, frame count, frame) and the strides (segment, hop, 1) of a
    strided view that cuts every batch row of a flat waveform buffer into
    overlapping frames.  The forward pass compares, configuration by
    configuration, the per-frame mean energy, the per-frame mean amplitude
    and a zero-padded first difference ("phase") of the real and the
    generated waveform with the mean absolute error, and adds everything
    up. */
module Losses {
  import opened Tensors

  const DefaultSegmentSize: int := 3200
  const DefaultFrameSizes: seq<int> := [1, 240, 480, 960]
  const DefaultHopSizes: seq<int> := [1, 120, 240, 480]

  // ------------------------------------------------------------ geometry

  /** Python's floor division a // d, for a divisor of either sign. */
  function FloorDiv(a: int, d: int): (q: int)
    requires d != 0
    ensures d > 0 ==> q * d <= a < q * d + d
    ensures d < 0 ==> q * d >= a > q * d + d
  {
    if d > 0 then a / d else (-a) / (-d)
  }

  /** (segment - (frame - hop)) // hop: the number of frames in a row. */
  function FrameCount(seg: int, frame: int, hop: int): int
    requires hop != 0
  {
    var noOverlap := frame - hop;
    FloorDiv(seg - noOverlap, hop)
  }

  function ViewShape(batch: int, seg: int, frame: int, hop: int): Triple
    requires hop != 0
  {
    (batch, FrameCount(seg, frame, hop), frame)
  }

  function ViewStride(seg: int, hop: int): Triple
  {
    (seg, hop, 1)
  }

  /** What the forward pass relies on for one configuration without ever
      checking it: a non-empty batch, a positive hop, and a non-empty frame
      no longer than the segment. */
  predicate Windowed(batch: int, seg: int, frame: int, hop: int)
  {
    batch >= 1 && hop >= 1 && 1 <= frame <= seg
  }

  /** With a positive hop there is at least one frame exactly when the frame
      fits in the segment. */
  lemma FrameCountPositiveIff(seg: int, frame: int, hop: int)
    requires hop >= 1
    ensures FrameCount(seg, frame, hop) >= 1 <==> frame <= seg
  {
    var n := FrameCount(seg, frame, hop);
    if frame > seg && n >= 1 {
      MulMonotone(1, n, hop);
    }
    if frame <= seg && n <= 0 {
      MulMonotone(0, -n, hop);
    }
  }

  /** The frames of a row all end inside the segment, and one frame more
      would not: the frame count is the largest that fits. */
  lemma WindowsInSegment(seg: int, frame: int, hop: int)
    requires hop >= 1 && 1 <= frame <= seg
    ensures FrameCount(seg, frame, hop) >= 1
    ensures (FrameCount(seg, frame, hop) - 1) * hop + frame <= seg
    ensures seg < FrameCount(seg, frame, hop) * hop + frame
  {
    FrameCountPositiveIff(seg, frame, hop);
    var n := FrameCount(seg, frame, hop);
    MulSucc(n - 1, hop);
  }

  /** Every sample that frame k of row b reads lies in row b's own segment,
      so neighbouring batch rows never read into each other. */
  lemma AddressInRow(batch: int, seg: int, frame: int, hop: int, b: int, k: int, j: int)
    requires Windowed(batch, seg, frame, hop)
    requires 0 <= b < batch && 0 <= k < FrameCount(seg, frame, hop) && 0 <= j < frame
    ensures b * seg <= Offset(ViewStride(seg, hop), b, k, j) < (b + 1) * seg
  {
    WindowsInSegment(seg, frame, hop);
    MulMonotone(0, k, hop);
    MulMonotone(k, FrameCount(seg, frame, hop) - 1, hop);
    MulSucc(b, seg);
  }

  /** A configuration's strided view is one that torch.as_strided accepts
      over a buffer of batch * seg samples, and none of its axes is empty. */
  lemma ViewFramed(batch: int, seg: int, frame: int, hop: int)
    requires Windowed(batch, seg, frame, hop)
    ensures Framed(ViewShape(batch, seg, frame, hop), ViewStride(seg, hop), batch * seg)
  {
    var n := FrameCount(seg, frame, hop);
    WindowsInSegment(seg, frame, hop);
    AddressInRow(batch, seg, frame, hop, batch - 1, n - 1, frame - 1);
    MulSucc(batch - 1, seg);
  }

  /** Frame k of row b is the contiguous run of `frame` samples starting at
      b * seg + k * hop. */
  lemma FrameIsWindow(x: seq<real>, batch: int, seg: int, frame: int, hop: int, b: int, k: int)
    requires Windowed(batch, seg, frame, hop) && |x| == batch * seg
    requires 0 <= b < batch && 0 <= k < FrameCount(seg, frame, hop)
    ensures 0 <= b * seg + k * hop && b * seg + k * hop + frame <= |x|
    ensures AsStrided(x, ViewShape(batch, seg, frame, hop), ViewStride(seg, hop))[b] [k]
            == x[b * seg + k * hop .. b * seg + k * hop + frame]
  {
    var shape, stride := ViewShape(batch, seg, frame, hop), ViewStride(seg, hop);
    ViewFramed(batch, seg, frame, hop);
    AsStridedAt(x, shape, stride);
    AddressInRow(batch, seg, frame, hop, b, k, 0);
    AddressInRow(batch, seg, frame, hop, b, k, frame - 1);
    MulSucc(b, seg);
    MulMonotone(b + 1, batch, seg);
  }

  /** Consecutive frames share frame - hop samples: the tail of frame k is
      the head of frame k + 1. */
  lemma FramesOverlap(x: seq<real>, batch: int, seg: int, frame: int, hop: int, b: int, k: int)
    requires Windowed(batch, seg, frame, hop) && |x| == batch * seg && hop <= frame
    requires 0 <= b < batch && 0 <= k && k + 1 < FrameCount(seg, frame, hop)
    ensures var v := AsStrided(x, ViewShape(batch, seg, frame, hop), ViewStride(seg, hop));
            v[b][k][hop..] == v[b][k + 1][..frame - hop]
  {
    FrameIsWindow(x, batch, seg, frame, hop, b, k);
    FrameIsWindow(x, batch, seg, frame, hop, b, k + 1);
    MulSucc(k, hop);
  }

  /** The default geometry: the view shapes fixed for the default segment
      length and configurations. */
  lemma DefaultGeometry(batch: int)
    ensures forall i | 0 <= i < 4 :: DefaultHopSizes[i] != 0
    ensures seq(4, i requires 0 <= i < 4 =>
                 ViewShape(batch, DefaultSegmentSize, DefaultFrameSizes[i], DefaultHopSizes[i]))
            == [(batch, 3200, 1), (batch, 25, 240), (batch, 12, 480), (batch, 5, 960)]
    ensures batch >= 1 ==> forall i | 0 <= i < 4 ::
              Windowed(batch, DefaultSegmentSize, DefaultFrameSizes[i], DefaultHopSizes[i])
  {
  }

  // --------------------------------------------------- the three terms

  /** A (shape, stride) pair the forward pass can evaluate on a buffer of
      `size` samples: as_strided accepts it and no axis is empty. */
  predicate Framed(shape: Triple, stride: Triple, size: int)
  {
    Fits(shape, stride, size) && shape.0 >= 1 && shape.1 >= 1 && shape.2 >= 1
  }

  lemma MulPositive(a: int, b: int)
    requires a >= 1 && b >= 1
    ensures a * b >= 1
  {
    MulMonotone(1, a, b);
  }

  lemma FrameMeansShape(t: Tensor3, d0: int, d1: int, d2: int)
    requires IsBox3(t, d0, d1, d2) && d0 >= 1 && d1 >= 1 && d2 >= 1
    ensures InnerNonEmpty(t)
    ensures IsBox2(MeanLastAxis(t), d0, d1)
    ensures |Flatten2(MeanLastAxis(t))| == d0 * d1 >= 1
  {
    Flatten2Length(MeanLastAxis(t), d0, d1);
    MulPositive(d0, d1);
  }

  lemma SquareShape(t: Tensor3, d0: int, d1: int, d2: int)
    requires IsBox3(t, d0, d1, d2)
    ensures IsBox3(Square(t), d0, d1, d2)
  {
  }

  /** The per-frame mean energy of a signal under one configuration, in
      row-major (batch row, frame) order. */
  function FrameEnergies(x: seq<real>, shape: Triple, stride: Triple): seq<real>
    requires Framed(shape, stride, |x|)
  {
    var v := AsStrided(x, shape, stride);
    AsStridedAt(x, shape, stride);
    SquareShape(v, shape.0, shape.1, shape.2);
    FrameMeansShape(Square(v), shape.0, shape.1, shape.2);
    Flatten2(MeanLastAxis(Square(v)))
  }

  /** The per-frame mean amplitude of a signal under one configuration. */
  function FrameMeans(x: seq<real>, shape: Triple, stride: Triple): seq<real>
    requires Framed(shape, stride, |x|)
  {
    var v := AsStrided(x, shape, stride);
    AsStridedAt(x, shape, stride);
    FrameMeansShape(v, shape.0, shape.1, shape.2);
    Flatten2(MeanLastAxis(v))
  }

  /** There is one mean energy and one mean amplitude per frame. */
  lemma FrameStatisticsLength(x: seq<real>, shape: Triple, stride: Triple)
    requires Framed(shape, stride, |x|)
    ensures |FrameEnergies(x, shape, stride)| == shape.0 * shape.1 >= 1
    ensures |FrameMeans(x, shape, stride)| == shape.0 * shape.1 >= 1
  {
    var v := AsStrided(x, shape, stride);
    AsStridedAt(x, shape, stride);
    SquareShape(v, shape.0, shape.1, shape.2);
    FrameMeansShape(Square(v), shape.0, shape.1, shape.2);
    FrameMeansShape(v, shape.0, shape.1, shape.2);
  }

  /** Entry b * frames + k of the per-frame energies is the mean of the
      squares of frame k of row b. */
  lemma FrameEnergyAt(x: seq<real>, shape: Triple, stride: Triple, b: int, k: int)
    requires Framed(shape, stride, |x|) && 0 <= b < shape.0 && 0 <= k < shape.1
    ensures |AsStrided(x, shape, stride)[b][k]| == shape.2 >= 1
    ensures |FrameEnergies(x, shape, stride)| == shape.0 * shape.1
    ensures 0 <= b * shape.1 + k < shape.0 * shape.1
    ensures FrameEnergies(x, shape, stride)[b * shape.1 + k] == Mean(Squares(AsStrided(x, shape, stride)[b][k]))
  {
    var v := AsStrided(x, shape, stride);
    AsStridedAt(x, shape, stride);
    SquareShape(v, shape.0, shape.1, shape.2);
    FrameMeansShape(Square(v), shape.0, shape.1, shape.2);
    Flatten2At(MeanLastAxis(Square(v)), shape.0, shape.1, b, k);
  }

  /** Entry b * frames + k of the per-frame mean amplitudes is the mean of
      frame k of row b. */
  lemma FrameMeanAt(x: seq<real>, shape: Triple, stride: Triple, b: int, k: int)
    requires Framed(shape, stride, |x|) && 0 <= b < shape.0 && 0 <= k < shape.1
    ensures |AsStrided(x, shape, stride)[b][k]| == shape.2 >= 1
    ensures |FrameMeans(x, shape, stride)| == shape.0 * shape.1
    ensures 0 <= b * shape.1 + k < shape.0 * shape.1
    ensures FrameMeans(x, shape, stride)[b * shape.1 + k] == Mean(AsStrided(x, shape, stride)[b][k])
  {
    var v := AsStrided(x, shape, stride);
    AsStridedAt(x, shape, stride);
    FrameMeansShape(v, shape.0, shape.1, shape.2);
    Flatten2At(MeanLastAxis(v), shape.0, shape.1, b, k);
  }

  /** The number of elements of the phase proxy: shape (d0, d2, d1 + 1) for
      configuration 0 and (d0, d1, d2 + 1) for the others. */
  function PhaseSize(i: int, shape: Triple): int
  {
    if i == 0 then shape.0 * (shape.2 * (shape.1 + 1)) else shape.0 * (shape.1 * (shape.2 + 1))
  }

  /** The phase proxy of a signal tensor under configuration i: the padded
      first difference runs along the frame axis for configuration 0 (after
      swapping the frame and sample axes) and along the sample axis for the
      others. */
  function PhaseOfView(i: int, v: Tensor3, shape: Triple): Tensor3
    requires shape.1 >= 0 && shape.2 >= 0 && IsBox3(v, shape.0, shape.1, shape.2)
  {
    if i == 0 then PaddedDiffLastAxis(Transpose12(v, shape.1, shape.2)) else PaddedDiffLastAxis(v)
  }

  /** The phase proxy of a signal under configuration i, flattened. */
  function PhaseSignal(i: int, x: seq<real>, shape: Triple, stride: Triple): seq<real>
    requires Framed(shape, stride, |x|)
  {
    AsStridedAt(x, shape, stride);
    Flatten3(PhaseOfView(i, AsStrided(x, shape, stride), shape))
  }

  /** For configuration 0 the padded difference runs along the frame axis:
      entry [b][j][k] is sample j of frame k - 1 minus sample j of frame k,
      a frame outside the view reading as zero. */
  lemma FrameAxisPhaseAt(v: Tensor3, shape: Triple, b: int, j: int, k: int)
    requires shape.1 >= 0 && shape.2 >= 0 && IsBox3(v, shape.0, shape.1, shape.2)
    requires 0 <= b < shape.0 && 0 <= j < shape.2 && 0 <= k <= shape.1
    ensures |PhaseOfView(0, v, shape)| == shape.0 && |PhaseOfView(0, v, shape)[b]| == shape.2
    ensures |PhaseOfView(0, v, shape)[b][j]| == shape.1 + 1
    ensures PhaseOfView(0, v, shape)[b][j][k]
            == (if k > 0 then v[b][k - 1][j] else 0.0) - (if k < shape.1 then v[b][k][j] else 0.0)
  {
    var t := Transpose12(v, shape.1, shape.2);
    Transpose12At(v, shape.1, shape.2);
    PaddedDiffAt(t[b][j]);
  }

  /** For the other configurations it runs along the sample axis: entry
      [b][k][j] is sample j - 1 minus sample j of frame k. */
  lemma SampleAxisPhaseAt(i: int, v: Tensor3, shape: Triple, b: int, k: int, j: int)
    requires i != 0
    requires shape.1 >= 0 && shape.2 >= 0 && IsBox3(v, shape.0, shape.1, shape.2)
    requires 0 <= b < shape.0 && 0 <= k < shape.1 && 0 <= j <= shape.2
    ensures |PhaseOfView(i, v, shape)| == shape.0 && |PhaseOfView(i, v, shape)[b]| == shape.1
    ensures |PhaseOfView(i, v, shape)[b][k]| == shape.2 + 1
    ensures PhaseOfView(i, v, shape)[b][k][j]
            == (if j > 0 then v[b][k][j - 1] else 0.0) - (if j < shape.2 then v[b][k][j] else 0.0)
  {
    PaddedDiffAt(v[b][k]);
  }

  /** With frame 1 and hop 1 the view of row b is one frame per sample, so
      the phase proxy of row b (configuration 0) is the padded difference of
      the row's own samples. */
  lemma UnitPhaseRow(x: seq<real>, batch: int, seg: int, b: int)
    requires batch >= 1 && seg >= 1 && |x| == batch * seg && 0 <= b < batch
    ensures Framed(ViewShape(batch, seg, 1, 1), ViewStride(seg, 1), |x|)
    ensures 0 <= b * seg && b * seg + seg <= |x|
    ensures PhaseOfView(0, AsStrided(x, ViewShape(batch, seg, 1, 1), ViewStride(seg, 1)), ViewShape(batch, seg, 1, 1))[b]
            == [PaddedDiff(x[b * seg .. b * seg + seg])]
  {
    var shape, stride := ViewShape(batch, seg, 1, 1), ViewStride(seg, 1);
    assert shape == (batch, seg, 1);
    ViewFramed(batch, seg, 1, 1);
    var v := AsStrided(x, shape, stride);
    AsStridedAt(x, shape, stride);
    RowInside(batch, seg, b);
    var row := x[b * seg .. b * seg + seg];
    var t := Transpose12(v, seg, 1);
    Transpose12At(v, seg, 1);
    forall k | 0 <= k < seg ensures t[b][0][k] == row[k] {
      FrameIsWindow(x, batch, seg, 1, 1, b, k);
    }
    assert t[b][0] == row;
    assert PaddedDiffLastAxis(t)[b] == [PaddedDiff(t[b][0])];
  }

  /** Row b of a buffer of batch rows of seg samples lies inside the buffer. */
  lemma RowInside(batch: int, seg: int, b: int)
    requires seg >= 1 && 0 <= b < batch
    ensures 0 <= b * seg && b * seg + seg <= batch * seg
  {
    MulSucc(b, seg);
    MulMonotone(b + 1, batch, seg);
  }

  lemma PhaseSignalLength(i: int, x: seq<real>, shape: Triple, stride: Triple)
    requires Framed(shape, stride, |x|)
    ensures |PhaseSignal(i, x, shape, stride)| == PhaseSize(i, shape) >= 1
  {
    var v := AsStrided(x, shape, stride);
    AsStridedAt(x, shape, stride);
    if i == 0 {
      var t := Transpose12(v, shape.1, shape.2);
      Transpose12At(v, shape.1, shape.2);
      PaddedDiffLastAxisShape(t, shape.0, shape.2, shape.1);
      Flatten3Length(PaddedDiffLastAxis(t), shape.0, shape.2, shape.1 + 1);
      MulPositive(shape.2, shape.1 + 1);
      MulPositive(shape.0, shape.2 * (shape.1 + 1));
    } else {
      PaddedDiffLastAxisShape(v, shape.0, shape.1, shape.2);
      Flatten3Length(PaddedDiffLastAxis(v), shape.0, shape.1, shape.2 + 1);
      MulPositive(shape.1, shape.2 + 1);
      MulPositive(shape.0, shape.1 * (shape.2 + 1));
    }
  }

  /** loss_e[i]: l1 loss between the per-frame mean energies. */
  function EnergyLoss(shape: Triple, stride: Triple, y: seq<real>, yHat: seq<real>): (r: real)
    requires Framed(shape, stride, |y|) && |yHat| == |y|
    ensures r >= 0.0
  {
    FrameStatisticsLength(y, shape, stride);
    FrameStatisticsLength(yHat, shape, stride);
    L1Loss(FrameEnergies(y, shape, stride), FrameEnergies(yHat, shape, stride))
  }

  /** loss_t[i]: l1 loss between the per-frame mean amplitudes. */
  function TimeLoss(shape: Triple, stride: Triple, y: seq<real>, yHat: seq<real>): (r: real)
    requires Framed(shape, stride, |y|) && |yHat| == |y|
    ensures r >= 0.0
  {
    FrameStatisticsLength(y, shape, stride);
    FrameStatisticsLength(yHat, shape, stride);
    L1Loss(FrameMeans(y, shape, stride), FrameMeans(yHat, shape, stride))
  }

  /** loss_p[i]: l1 loss between the phase proxies. */
  function PhaseLoss(i: int, shape: Triple, stride: Triple, y: seq<real>, yHat: seq<real>): (r: real)
    requires Framed(shape, stride, |y|) && |yHat| == |y|
    ensures r >= 0.0
  {
    PhaseSignalLength(i, y, shape, stride);
    PhaseSignalLength(i, yHat, shape, stride);
    L1Loss(PhaseSignal(i, y, shape, stride), PhaseSignal(i, yHat, shape, stride))
  }

  /** Each of the three terms vanishes exactly when the statistics it
      compares agree; in particular all three vanish on identical signals. */
  lemma ConfigurationLossesZeroIff(i: int, shape: Triple, stride: Triple, y: seq<real>, yHat: seq<real>)
    requires Framed(shape, stride, |y|) && |yHat| == |y|
    ensures EnergyLoss(shape, stride, y, yHat) == 0.0
            <==> FrameEnergies(y, shape, stride) == FrameEnergies(yHat, shape, stride)
    ensures TimeLoss(shape, stride, y, yHat) == 0.0
            <==> FrameMeans(y, shape, stride) == FrameMeans(yHat, shape, stride)
    ensures PhaseLoss(i, shape, stride, y, yHat) == 0.0
            <==> PhaseSignal(i, y, shape, stride) == PhaseSignal(i, yHat, shape, stride)
  {
    FrameStatisticsLength(y, shape, stride);
    FrameStatisticsLength(yHat, shape, stride);
    PhaseSignalLength(i, y, shape, stride);
    PhaseSignalLength(i, yHat, shape, stride);
    L1LossZeroIff(FrameEnergies(y, shape, stride), FrameEnergies(yHat, shape, stride));
    L1LossZeroIff(FrameMeans(y, shape, stride), FrameMeans(yHat, shape, stride));
    L1LossZeroIff(PhaseSignal(i, y, shape, stride), PhaseSignal(i, yHat, shape, stride));
  }


  /** Position r of a buffer of rows of seg samples is sample r % seg of row
      r / seg. */
  lemma RowMajor(batch: int, seg: int, r: int)
    requires seg >= 1 && 0 <= r < batch * seg
    ensures 0 <= r / seg < batch && 0 <= r % seg < seg
    ensures r == (r / seg) * seg + r % seg
  {
    if r / seg >= batch {
      MulMonotone(batch, r / seg, seg);
    }
  }

  /** With frame 1 and hop 1 frame k of row b is the single sample
      b * seg + k. */
  lemma UnitFrameAt(x: seq<real>, batch: int, seg: int, r: int)
    requires batch >= 1 && seg >= 1 && |x| == batch * seg && 0 <= r < |x|
    ensures Framed(ViewShape(batch, seg, 1, 1), ViewStride(seg, 1), |x|)
    ensures 0 <= r / seg < batch && 0 <= r % seg < seg
    ensures r == (r / seg) * seg + r % seg
    ensures AsStrided(x, ViewShape(batch, seg, 1, 1), ViewStride(seg, 1))[r / seg][r % seg] == [x[r]]
  {
    RowMajor(batch, seg, r);
    FrameIsWindow(x, batch, seg, 1, 1, r / seg, r % seg);
  }

  /** With frame 1 and hop 1 (the first default configuration) the view has
      one frame per sample, so the per-frame means are the samples
      themselves... */
  lemma UnitFrameMeans(x: seq<real>, batch: int, seg: int)
    requires batch >= 1 && seg >= 1 && |x| == batch * seg
    ensures ViewShape(batch, seg, 1, 1) == (batch, seg, 1)
    ensures Framed(ViewShape(batch, seg, 1, 1), ViewStride(seg, 1), |x|)
    ensures FrameMeans(x, ViewShape(batch, seg, 1, 1), ViewStride(seg, 1)) == x
  {
    var shape, stride := ViewShape(batch, seg, 1, 1), ViewStride(seg, 1);
    ViewFramed(batch, seg, 1, 1);
    var v := AsStrided(x, shape, stride);
    AsStridedAt(x, shape, stride);
    FrameMeansShape(v, batch, seg, 1);
    var means := FrameMeans(x, shape, stride);
    forall r | 0 <= r < |x| ensures means[r] == x[r] {
      var b, k := r / seg, r % seg;
      UnitFrameAt(x, batch, seg, r);
      Flatten2At(MeanLastAxis(v), batch, seg, b, k);
      assert means[r] == Mean(v[b][k]);
      MeanSingleton(x[r]);
    }
  }

  /** ... and the per-frame energies are the squared samples. */
  lemma UnitFrameEnergies(x: seq<real>, batch: int, seg: int)
    requires batch >= 1 && seg >= 1 && |x| == batch * seg
    ensures Framed(ViewShape(batch, seg, 1, 1), ViewStride(seg, 1), |x|)
    ensures FrameEnergies(x, ViewShape(batch, seg, 1, 1), ViewStride(seg, 1)) == Squares(x)
  {
    var shape, stride := ViewShape(batch, seg, 1, 1), ViewStride(seg, 1);
    ViewFramed(batch, seg, 1, 1);
    var v := AsStrided(x, shape, stride);
    AsStridedAt(x, shape, stride);
    SquareShape(v, batch, seg, 1);
    FrameMeansShape(Square(v), batch, seg, 1);
    FrameStatisticsLength(x, shape, stride);
    var energies, squares := FrameEnergies(x, shape, stride), Squares(x);
    forall r | 0 <= r < |x| ensures energies[r] == squares[r] {
      UnitFrameEnergyAt(x, batch, seg, r);
    }
  }

  lemma UnitFrameEnergyAt(x: seq<real>, batch: int, seg: int, r: int)
    requires batch >= 1 && seg >= 1 && |x| == batch * seg && 0 <= r < |x|
    ensures Framed(ViewShape(batch, seg, 1, 1), ViewStride(seg, 1), |x|)
    ensures |FrameEnergies(x, ViewShape(batch, seg, 1, 1), ViewStride(seg, 1))| == |x|
    ensures FrameEnergies(x, ViewShape(batch, seg, 1, 1), ViewStride(seg, 1))[r] == x[r] * x[r]
  {
    var shape, stride := ViewShape(batch, seg, 1, 1), ViewStride(seg, 1);
    assert shape == (batch, seg, 1);
    UnitFrameAt(x, batch, seg, r);
    var b, k := r / seg, r % seg;
    FrameEnergyAt(x, shape, stride, b, k);
    SingletonEnergy(x[r]);
  }

  /** A frame holding the single sample a has mean energy a * a. */
  lemma SingletonEnergy(a: real)
    ensures Mean(Squares([a])) == a * a
  {
    var sq := Squares([a]);
    assert |sq| == 1 && sq[0] == a * a;
    assert sq == [a * a];
    MeanSingleton(a * a);
  }

  /** Under the unit configuration the time term is the l1 loss of the
      samples and the energy term that of the squared samples. */
  lemma UnitFrameTerms(y: seq<real>, yHat: seq<real>, batch: int, seg: int)
    requires batch >= 1 && seg >= 1 && |y| == batch * seg && |yHat| == |y|
    ensures Framed(ViewShape(batch, seg, 1, 1), ViewStride(seg, 1), |y|)
    ensures TimeLoss(ViewShape(batch, seg, 1, 1), ViewStride(seg, 1), y, yHat) == L1Loss(y, yHat)
    ensures EnergyLoss(ViewShape(batch, seg, 1, 1), ViewStride(seg, 1), y, yHat)
            == L1Loss(Squares(y), Squares(yHat))
  {
    UnitFrameMeans(y, batch, seg);
    UnitFrameMeans(yHat, batch, seg);
    UnitFrameEnergies(y, batch, seg);
    UnitFrameEnergies(yHat, batch, seg);
  }

  /** Adding a constant c to the generated waveform moves every per-frame
      mean by c, so the time term of any configuration is exactly |c|. */
  lemma TimeLossOfShift(shape: Triple, stride: Triple, y: seq<real>, yHat: seq<real>, c: real)
    requires Framed(shape, stride, |y|) && |yHat| == |y|
    requires forall i | 0 <= i < |y| :: yHat[i] == y[i] + c
    ensures TimeLoss(shape, stride, y, yHat) == Abs(c)
  {
    var v, w := AsStrided(y, shape, stride), AsStrided(yHat, shape, stride);
    AsStridedAt(y, shape, stride);
    AsStridedAt(yHat, shape, stride);
    FrameMeansShape(v, shape.0, shape.1, shape.2);
    FrameMeansShape(w, shape.0, shape.1, shape.2);
    var mv, mw := MeanLastAxis(v), MeanLastAxis(w);
    forall b, k | 0 <= b < |mv| && 0 <= k < |mv[b]| ensures mw[b][k] == mv[b][k] + c {
      forall j | 0 <= j < shape.2 ensures w[b][k][j] == v[b][k][j] + c {
        OffsetInside(shape, stride, |y|, b, k, j);
      }
      MeanShift(v[b][k], w[b][k], c);
    }
    Flatten2Shift(mv, mw, c);
    FrameStatisticsLength(y, shape, stride);
    L1LossOfShift(Flatten2(mv), Flatten2(mw), c);
  }

  /** Whatever the configuration, the phase proxy starts with -x[0]: the
      zero padded in front of the first sample of the first frame. */
  lemma PhaseSignalHead(i: int, x: seq<real>, shape: Triple, stride: Triple)
    requires Framed(shape, stride, |x|)
    ensures |PhaseSignal(i, x, shape, stride)| > 0 && |x| > 0
    ensures PhaseSignal(i, x, shape, stride)[0] == -x[0]
  {
    var v := AsStrided(x, shape, stride);
    AsStridedAt(x, shape, stride);
    OffsetInside(shape, stride, |x|, 0, 0, 0);
    var t := if i == 0 then Transpose12(v, shape.1, shape.2) else v;
    if i == 0 {
      Transpose12At(v, shape.1, shape.2);
    }
    assert t[0][0][0] == x[0];
    PaddedDiffAt(t[0][0]);
    assert PaddedDiffLastAxis(t)[0][0] == PaddedDiff(t[0][0]);
    Flatten3Head(PaddedDiffLastAxis(t));
  }

  /** A non-zero constant offset between the waveforms never leaves the phase
      term at zero, in any configuration: the offset survives at the padded
      ends of the difference. */
  lemma PhaseLossOfShift(i: int, shape: Triple, stride: Triple, y: seq<real>, yHat: seq<real>, c: real)
    requires Framed(shape, stride, |y|) && |yHat| == |y|
    requires forall k | 0 <= k < |y| :: yHat[k] == y[k] + c
    requires c != 0.0
    ensures PhaseLoss(i, shape, stride, y, yHat) > 0.0
  {
    PhaseSignalHead(i, y, shape, stride);
    PhaseSignalHead(i, yHat, shape, stride);
    ConfigurationLossesZeroIff(i, shape, stride, y, yHat);
  }

  /** How much an offset c changes the square of each sample:
      |(x + c)^2 - x^2| = |2 c x + c^2|. */
  function SquareShifts(x: seq<real>, c: real): seq<real>
  {
    seq(|x|, r requires 0 <= r < |x| => Abs(2.0 * c * x[r] + c * c))
  }

  lemma SquaresOfShift(y: seq<real>, yHat: seq<real>, c: real)
    requires |yHat| == |y|
    requires forall r | 0 <= r < |y| :: yHat[r] == y[r] + c
    ensures AbsDiff(Squares(y), Squares(yHat)) == SquareShifts(y, c)
  {
    var d, e := AbsDiff(Squares(y), Squares(yHat)), SquareShifts(y, c);
    forall r | 0 <= r < |y| ensures d[r] == e[r] {
      assert yHat[r] * yHat[r] - y[r] * y[r] == 2.0 * c * y[r] + c * c;
    }
  }

  /** Under the unit configuration an offset c costs, in the energy term,
      the mean of |2 c y[r] + c^2| over the samples. */
  lemma UnitEnergyOfShift(y: seq<real>, yHat: seq<real>, c: real, batch: int, seg: int)
    requires batch >= 1 && seg >= 1 && |y| == batch * seg && |yHat| == |y|
    requires forall r | 0 <= r < |y| :: yHat[r] == y[r] + c
    ensures EnergyLoss(ViewShape(batch, seg, 1, 1), ViewStride(seg, 1), y, yHat) == Mean(SquareShifts(y, c))
  {
    UnitFrameTerms(y, yHat, batch, seg);
    SquaresOfShift(y, yHat, c);
  }

  /** The energy term does not grow with the size of the offset: for a
      constant non-zero waveform a, the offset -2a costs nothing while the
      smaller offset -a costs a * a. */
  lemma EnergyLossOfShifts(y: seq<real>, far: seq<real>, near: seq<real>, a: real, batch: int, seg: int)
    requires batch >= 1 && seg >= 1 && |y| == batch * seg && |far| == |near| == |y| && a != 0.0
    requires forall r | 0 <= r < |y| :: y[r] == a && far[r] == y[r] - 2.0 * a && near[r] == y[r] - a
    ensures EnergyLoss(ViewShape(batch, seg, 1, 1), ViewStride(seg, 1), y, far) == 0.0
    ensures EnergyLoss(ViewShape(batch, seg, 1, 1), ViewStride(seg, 1), y, near) == a * a > 0.0
  {
    UnitEnergyOfShift(y, far, -2.0 * a, batch, seg);
    UnitEnergyOfShift(y, near, -a, batch, seg);
    MulPositive(batch, seg);
    ConstantShifts(y, a);
  }

  lemma ConstantShifts(y: seq<real>, a: real)
    requires |y| > 0 && forall r | 0 <= r < |y| :: y[r] == a
    ensures Mean(SquareShifts(y, -2.0 * a)) == 0.0
    ensures Mean(SquareShifts(y, -a)) == a * a
  {
    var c, d := -2.0 * a, -a;
    var far, near := SquareShifts(y, c), SquareShifts(y, d);
    var sq := a * a;
    assert sq >= 0.0 by {
      if a < 0.0 {
        assert sq == (-a) * (-a);
      }
    }
    assert 2.0 * c * a + c * c == c * (2.0 * a + c) == 0.0;
    assert 2.0 * d * a + d * d == d * (2.0 * a + d) == -sq;
    forall r | 0 <= r < |y| ensures far[r] == 0.0 && near[r] == sq {
      assert far[r] == Abs(2.0 * c * a + c * c);
      assert near[r] == Abs(2.0 * d * a + d * d);
    }
    MeanConstant(far, 0.0);
    MeanConstant(near, sq);
  }

  // ------------------------------------------------------------ total

  predicate AllFramed(shapes: seq<Triple>, strides: seq<Triple>, size: int)
  {
    |strides| == |shapes| && forall i | 0 <= i < |shapes| :: Framed(shapes[i], strides[i], size)
  }

  /** The three kinds of term the forward pass computes per configuration:
      the arrays loss_e, loss_t and loss_p. */
  datatype Term = Energy | Time | Phase

  function TermLoss(term: Term, i: int, shape: Triple, stride: Triple, y: seq<real>, yHat: seq<real>): (r: real)
    requires Framed(shape, stride, |y|) && |yHat| == |y|
    ensures r >= 0.0
  {
    match term
    case Energy => EnergyLoss(shape, stride, y, yHat)
    case Time => TimeLoss(shape, stride, y, yHat)
    case Phase => PhaseLoss(i, shape, stride, y, yHat)
  }

  /** The first n entries of one term array once the loop has filled it:
      entry i is the term of configuration i. */
  function Terms(term: Term, shapes: seq<Triple>, strides: seq<Triple>, y: seq<real>, yHat: seq<real>, n: nat)
    : (r: seq<real>)
    requires AllFramed(shapes, strides, |y|) && |yHat| == |y| && n <= |shapes|
  {
    seq(n, j requires 0 <= j < n => TermLoss(term, j, shapes[j], strides[j], y, yHat))
  }

  /** One pass of the loop of the forward computation: the views of both
      waveforms under configuration i, and the three terms compared on them
      written into slot i of the three buffers. */
  method StoreConfigurationLosses(i: int, shape: Triple, stride: Triple, y: seq<real>, yHat: seq<real>,
                                  lossE: array<real>, lossT: array<real>, lossP: array<real>)
    requires Framed(shape, stride, |y|) && |yHat| == |y|
    requires lossE != lossT && lossT != lossP && lossE != lossP
    requires 0 <= i < lossE.Length && i < lossT.Length && i < lossP.Length
    modifies lossE, lossT, lossP
    ensures lossE[..] == old(lossE[..])[i := TermLoss(Energy, i, shape, stride, y, yHat)]
    ensures lossT[..] == old(lossT[..])[i := TermLoss(Time, i, shape, stride, y, yHat)]
    ensures lossP[..] == old(lossP[..])[i := TermLoss(Phase, i, shape, stride, y, yHat)]
  {
    lossE[i] := EnergyLoss(shape, stride, y, yHat);
    lossT[i] := TimeLoss(shape, stride, y, yHat);
    lossP[i] := PhaseLoss(i, shape, stride, y, yHat);
  }

  lemma TermsSnoc(term: Term, shapes: seq<Triple>, strides: seq<Triple>, y: seq<real>, yHat: seq<real>,
                  n: nat, v: real)
    requires AllFramed(shapes, strides, |y|) && |yHat| == |y| && n < |shapes|
    requires v == TermLoss(term, n, shapes[n], strides[n], y, yHat)
    ensures Terms(term, shapes, strides, y, yHat, n + 1) == Terms(term, shapes, strides, y, yHat, n) + [v]
  {
    var longer, shorter := Terms(term, shapes, strides, y, yHat, n + 1), Terms(term, shapes, strides, y, yHat, n);
    assert forall j | 0 <= j < n :: longer[j] == shorter[j];
    Snoc(longer, shorter, v);
  }

  /** A sequence that agrees with another on all its positions and has one
      more element v is that sequence extended by v. */
  lemma Snoc(longer: seq<real>, shorter: seq<real>, v: real)
    requires |longer| == |shorter| + 1 && longer[|shorter|] == v
    requires forall j | 0 <= j < |shorter| :: longer[j] == shorter[j]
    ensures longer == shorter + [v]
  {
  }

  /** The value of the forward pass: the sums of the three term arrays. */
  function TotalLoss(shapes: seq<Triple>, strides: seq<Triple>, y: seq<real>, yHat: seq<real>): real
    requires AllFramed(shapes, strides, |y|) && |yHat| == |y|
  {
    var n := |shapes|;
    Sum(Terms(Energy, shapes, strides, y, yHat, n)) + Sum(Terms(Time, shapes, strides, y, yHat, n))
      + Sum(Terms(Phase, shapes, strides, y, yHat, n))
  }

  lemma TermsNonNegative(term: Term, shapes: seq<Triple>, strides: seq<Triple>, y: seq<real>, yHat: seq<real>)
    requires AllFramed(shapes, strides, |y|) && |yHat| == |y|
    ensures Sum(Terms(term, shapes, strides, y, yHat, |shapes|)) >= 0.0
  {
    var t := Terms(term, shapes, strides, y, yHat, |shapes|);
    forall i | 0 <= i < |shapes| ensures t[i] >= 0.0 {
    }
    SumNonNegative(t);
  }

  lemma TotalLossNonNegative(shapes: seq<Triple>, strides: seq<Triple>, y: seq<real>, yHat: seq<real>)
    requires AllFramed(shapes, strides, |y|) && |yHat| == |y|
    ensures TotalLoss(shapes, strides, y, yHat) >= 0.0
  {
    TermsNonNegative(Energy, shapes, strides, y, yHat);
    TermsNonNegative(Time, shapes, strides, y, yHat);
    TermsNonNegative(Phase, shapes, strides, y, yHat);
  }

  lemma TermsOfEqualSignals(term: Term, shapes: seq<Triple>, strides: seq<Triple>, y: seq<real>)
    requires AllFramed(shapes, strides, |y|)
    ensures forall i | 0 <= i < |shapes| :: Terms(term, shapes, strides, y, y, |shapes|)[i] == 0.0
    ensures Sum(Terms(term, shapes, strides, y, y, |shapes|)) == 0.0
  {
    var t := Terms(term, shapes, strides, y, y, |shapes|);
    forall i | 0 <= i < |shapes| ensures t[i] == 0.0 {
      ConfigurationLossesZeroIff(i, shapes[i], strides[i], y, y);
    }
    SumConstant(t, 0.0);
  }

  /** Identical real and generated waveforms cost nothing. */
  lemma TotalLossOfEqualSignals(shapes: seq<Triple>, strides: seq<Triple>, y: seq<real>)
    requires AllFramed(shapes, strides, |y|)
    ensures TotalLoss(shapes, strides, y, y) == 0.0
  {
    TermsOfEqualSignals(Energy, shapes, strides, y);
    TermsOfEqualSignals(Time, shapes, strides, y);
    TermsOfEqualSignals(Phase, shapes, strides, y);
  }

  /** Storing into slot i of a buffer extends its prefix of length i by the
      stored value. */
  lemma StoredPrefix(s: seq<real>, i: int, v: real)
    requires 0 <= i < |s|
    ensures s[i := v][..i + 1] == s[..i] + [v]
    ensures s[i := v][..i] == s[..i]
  {
  }

  lemma WholePrefix(s: seq<real>)
    ensures s[..|s|] == s
  {
  }

  // --------------------------------------------------------- the module

  class TimeDomainLoss {
    var shapes: seq<Triple>
    var strides: seq<Triple>
    var segSize: int
    var len: int
    // the construction arguments, kept to state what shapes and strides are
    ghost var batchSize: int
    ghost var frameSizes: seq<int>
    ghost var hopSizes: seq<int>

    ghost predicate Valid()
      reads this
    {
      && len == |shapes| == |strides| == |frameSizes| <= |hopSizes|
      && forall i | 0 <= i < len ::
           && hopSizes[i] != 0
           && shapes[i] == ViewShape(batchSize, segSize, frameSizes[i], hopSizes[i])
           && strides[i] == ViewStride(segSize, hopSizes[i])
    }

    /** Configuration i is read from frameSizes[i] and hopSizes[i]; a missing
        hop size or a zero hop size would raise, so neither may occur. */
    constructor (batchSize: int, segmentSize: int := DefaultSegmentSize,
                 frameSizes: seq<int> := DefaultFrameSizes, hopSizes: seq<int> := DefaultHopSizes)
      requires |frameSizes| <= |hopSizes|
      requires forall i | 0 <= i < |frameSizes| :: hopSizes[i] != 0
      ensures Valid()
      ensures this.batchSize == batchSize && segSize == segmentSize
      ensures this.frameSizes == frameSizes && this.hopSizes == hopSizes
      ensures len == |frameSizes|
    {
      this.batchSize := batchSize;
      this.frameSizes := frameSizes;
      this.hopSizes := hopSizes;
      shapes := [];
      strides := [];
      segSize := segmentSize;
      len := 0;
      new;
      for i := 0 to |frameSizes|
        invariant |shapes| == |strides| == i
        invariant forall j | 0 <= j < i ::
                    && shapes[j] == ViewShape(batchSize, segmentSize, frameSizes[j], hopSizes[j])
                    && strides[j] == ViewStride(segmentSize, hopSizes[j])
        invariant segSize == segmentSize && this.batchSize == batchSize
        invariant this.frameSizes == frameSizes && this.hopSizes == hopSizes
      {
        var noOverlap := frameSizes[i] - hopSizes[i];
        shapes := shapes + [(batchSize, FloorDiv(segmentSize - noOverlap, hopSizes[i]), frameSizes[i])];
        strides := strides + [(segmentSize, hopSizes[i], 1)];
      }
      len := |shapes|;
    }

    lemma ConfigurationsFramed(size: int)
      requires Valid()
      requires forall i | 0 <= i < len :: Windowed(batchSize, segSize, frameSizes[i], hopSizes[i])
      requires size == batchSize * segSize
      ensures AllFramed(shapes, strides, size)
    {
      forall i | 0 <= i < len ensures Framed(shapes[i], strides[i], size) {
        ViewFramed(batchSize, segSize, frameSizes[i], hopSizes[i]);
      }
    }

    /** The total time-domain loss between a real waveform y and a generated
        waveform yHat, each batchSize rows of segSize samples laid out
        contiguously. */
    method Forward(y: seq<real>, yHat: seq<real>) returns (totalLoss: real)
      requires Valid()
      requires forall i | 0 <= i < len :: Windowed(batchSize, segSize, frameSizes[i], hopSizes[i])
      requires |y| == batchSize * segSize && |yHat| == |y|
      ensures AllFramed(shapes, strides, |y|)
      ensures totalLoss == TotalLoss(shapes, strides, y, yHat)
      ensures totalLoss >= 0.0
      ensures y == yHat ==> totalLoss == 0.0
    {
      ConfigurationsFramed(|y|);
      var shapes, strides := this.shapes, this.strides;
      var lossE := new real[len](_ => 0.0);
      var lossT := new real[len](_ => 0.0);
      var lossP := new real[len](_ => 0.0);
      for i := 0 to len
        invariant lossE[..i] == Terms(Energy, shapes, strides, y, yHat, i)
        invariant lossT[..i] == Terms(Time, shapes, strides, y, yHat, i)
        invariant lossP[..i] == Terms(Phase, shapes, strides, y, yHat, i)
      {
        ghost var e := TermLoss(Energy, i, shapes[i], strides[i], y, yHat);
        ghost var t := TermLoss(Time, i, shapes[i], strides[i], y, yHat);
        ghost var p := TermLoss(Phase, i, shapes[i], strides[i], y, yHat);
        TermsSnoc(Energy, shapes, strides, y, yHat, i, e);
        TermsSnoc(Time, shapes, strides, y, yHat, i, t);
        TermsSnoc(Phase, shapes, strides, y, yHat, i, p);
        StoredPrefix(lossE[..], i, e);
        StoredPrefix(lossT[..], i, t);
        StoredPrefix(lossP[..], i, p);
        StoreConfigurationLosses(i, shapes[i], strides[i], y, yHat, lossE, lossT, lossP);
      }
      WholePrefix(lossE[..]);
      WholePrefix(lossT[..]);
      WholePrefix(lossP[..]);
      totalLoss := Sum(lossE[..]) + Sum(lossT[..]) + Sum(lossP[..]);
      TotalLossNonNegative(shapes, strides, y, yHat);
      if y == yHat {
        TotalLossOfEqualSignals(shapes, strides, y);
      }
    }
  }
}
