# Time-domain loss of the vocoder trainer

This project models `TimeDomainLoss`, the multi-resolution time-domain loss
used to train the vocoder's generator. It is modelled in Dafny over exact
reals.

The constructor takes a batch size, a segment length and a list of
(frame size, hop size) configurations. For each configuration it computes
two triples:

- the view shape `(batch, (seg - (frame - hop)) // hop, frame)`;
- the strides `(seg, hop, 1)`.

The forward pass cuts each row of the real waveform `y` and the generated
waveform `y_hat` into overlapping frames through a strided view. For every
configuration it writes three terms into three zero-initialised arrays:

- `loss_e[i]`: the l1 distance between the per-frame mean energies;
- `loss_t[i]`: the l1 distance between the per-frame mean amplitudes;
- `loss_p[i]`: the l1 distance between a "phase" proxy built as a
  zero-padded first difference.

For configuration 0 the phase proxy runs along the frame axis; for the
others, along the sample axis. The result is the sum of the three arrays.

The project has two modules:

- `Tensors` (tensors.dfy): the tensor operations the loss is built from, as
  pure functions on nested sequences of reals. These are the strided view
  (an index map `b*s0 + k*s1 + j*s2` over a flat contiguous buffer), squaring,
  the mean along the last axis, the swap of axes 1 and 2, zero padding and
  subtraction along the last axis, and the mean absolute error.
- `Losses` (losses.dfy):
  - the geometry, in integers: Python's floor division, frame counts,
    bounds and overlap of the frames;
  - the three per-configuration terms as functions, with their properties;
  - the specification `TotalLoss`;
  - the class `TimeDomainLoss`. Its constructor is the loop that appends to
    `shapes` and `strides`. `Forward` is the loop that fills three arrays
    and sums them, proved equal to `TotalLoss`.

Caller obligations that the code never checks become preconditions of
`Forward`:

- a non-empty batch;
- a positive hop;
- a non-empty frame no longer than the segment;
- signals of exactly `batch * seg` samples.

The constructor requires exactly what would otherwise make Python raise:

- a hop size for every frame size (IndexError);
- no zero hop (ZeroDivisionError).

One might expect a constant offset `y_hat = y + c` to make the mean and
energy terms grow with `|c|` while the phase term stays at zero, since a
constant cancels under differencing. The code behaves differently on two
counts:

- The zero padding keeps the two end elements of every difference from
  cancelling, so a non-zero offset always gives a positive phase term
  (`Losses.PhaseLossOfShift`, `Tensors.PaddedDiffOfShift`).
- The energy term is not monotone in the offset. For a constant waveform
  `a ≠ 0`, the offset `-2a` costs nothing, while the smaller offset `-a`
  costs `a*a` (`Losses.EnergyLossOfShifts`).

The time term is exactly `|c|` for every configuration, so it is monotone
(`Losses.TimeLossOfShift`).

## Model

| member | source | states |
|---|---|---|
| Losses.TimeDomainLoss.constructor | encoders/losses.py:59-76 | one shape and one stride per configuration, in input order; shape i is `(batch, (seg-(frame_i-hop_i))//hop_i, frame_i)`; stride i is `(seg, hop_i, 1)`; `len` equals the number of configurations; defaults are 3200 and [1,240,480,960]/[1,120,240,480] |
| Losses.FloorDiv | encoders/losses.py:69 | the result of `//` is the floor of the quotient, for a divisor of either sign |
| Losses.FrameCountPositiveIff | encoders/losses.py:67-71 | with a positive hop, the frame count is at least 1 exactly when the frame fits in the segment |
| Losses.WindowsInSegment | encoders/losses.py:67-71 | with hop >= 1 and 1 <= frame <= seg, n >= 1 and `(n-1)*hop + frame <= seg < n*hop + frame`: n is the largest count of frames that fits |
| Losses.AddressInRow | encoders/losses.py:68-75 | every address `b*seg + k*hop + j` of the view lies in `[b*seg, (b+1)*seg)`, so no row reads into its neighbour |
| Losses.ViewFramed | encoders/losses.py:94-95 | the view of each configuration stays inside a buffer of `batch*seg` samples and has no empty axis |
| Losses.FrameIsWindow | encoders/losses.py:72-75 | through the strided view, frame k of row b is exactly `y[b*seg + k*hop .. b*seg + k*hop + frame]` |
| Losses.FramesOverlap | encoders/losses.py:72-75 | when hop <= frame, consecutive frames share `frame - hop` samples: the tail of frame k is the head of frame k+1 |
| Losses.DefaultGeometry | encoders/losses.py:59-61 | the default configurations give the shapes (batch,3200,1), (batch,25,240), (batch,12,480), (batch,5,960), and all of them are valid windowings for batch >= 1 |
| Losses.UnitFrameAt | encoders/losses.py:67-71 | with frame 1 and hop 1, frame `r % seg` of row `r / seg` is the single sample `y[r]` |
| Losses.UnitFrameMeans | encoders/losses.py:98 | with frame 1 and hop 1, the view has seg frames per row and the per-frame means are the samples themselves |
| Losses.UnitFrameEnergies | encoders/losses.py:97 | with frame 1 and hop 1, the per-frame mean energies are the squared samples |
| Losses.FrameMeanAt | encoders/losses.py:94-98 | entry `b*frames + k` of the per-frame mean amplitudes is the mean of frame k of row b |
| Losses.FrameEnergyAt | encoders/losses.py:94-97 | entry `b*frames + k` of the per-frame energies is the mean of the squares of frame k of row b |
| Losses.UnitFrameEnergyAt | encoders/losses.py:97 | with frame 1 and hop 1, energy entry r is `y[r]*y[r]` |
| Losses.SingletonEnergy | encoders/losses.py:97 | a frame holding the single sample a has mean energy a*a |
| Losses.UnitFrameTerms | encoders/losses.py:97-98 | for the first default configuration, the time term is the l1 loss of the samples and the energy term the l1 loss of their squares |
| Losses.FrameStatisticsLength | encoders/losses.py:97-98 | there is exactly one mean energy and one mean amplitude per frame, `batch * frames` of each |
| Losses.PhaseSignalLength | encoders/losses.py:99-104 | the phase proxy has `d0*d2*(d1+1)` elements for configuration 0 (transposed) and `d0*d1*(d2+1)` for the others |
| Losses.EnergyLoss | encoders/losses.py:97 | the energy term is non-negative |
| Losses.TimeLoss | encoders/losses.py:98 | the time term is non-negative |
| Losses.PhaseLoss | encoders/losses.py:99-105 | the phase term is non-negative |
| Losses.ConfigurationLossesZeroIff | encoders/losses.py:97-105 | each term is zero if and only if the two statistics it compares are equal |
| Losses.TimeLossOfShift | encoders/losses.py:98 | for `y_hat = y + c`, the time term of every configuration is exactly `abs(c)` |
| Losses.PhaseSignalHead | encoders/losses.py:99-104 | the phase proxy of every configuration starts with `-y[0]` |
| Losses.PhaseLossOfShift | encoders/losses.py:99-105 | for `y_hat = y + c` with c non-zero, the phase term is strictly positive |
| Losses.SquaresOfShift | encoders/losses.py:97 | an offset c changes each squared sample by `abs(2*c*y[r] + c*c)` |
| Losses.UnitEnergyOfShift | encoders/losses.py:97 | for the unit configuration, the energy term of an offset c is the mean of `abs(2*c*y[r] + c*c)` |
| Losses.ConstantShifts | encoders/losses.py:97 | for a constant waveform a, the offset -2a changes no squared sample, while the offset -a changes each one by a*a |
| Losses.EnergyLossOfShifts | encoders/losses.py:97 | for a constant waveform `a != 0`, the energy term is 0 for the offset -2a but `a*a > 0` for the offset -a: it is not monotone in the offset |
| Losses.TermLoss | encoders/losses.py:97-105 | each entry the loop writes is non-negative |
| Losses.StoreConfigurationLosses | encoders/losses.py:94-105 | one loop pass changes slot i of the three arrays, to the energy, time and phase terms of configuration i, and nothing else |
| Losses.TermsSnoc | encoders/losses.py:93-105 | after pass n the filled prefix of an array is the filled prefix of length n extended by configuration n's term |
| Losses.TermsNonNegative | encoders/losses.py:97-107 | the sum of the `len` entries of each array is non-negative |
| Losses.TotalLossNonNegative | encoders/losses.py:107 | the total loss is non-negative |
| Losses.TermsOfEqualSignals | encoders/losses.py:97-107 | when `y == y_hat`, every entry of each array is zero, and so is its sum |
| Losses.TotalLossOfEqualSignals | encoders/losses.py:107 | when `y == y_hat`, the total loss is 0 |
| Losses.TimeDomainLoss.ConfigurationsFramed | encoders/losses.py:94-95 | under the caller obligations, every configuration of a constructed loss gives a view inside the signal |
| Losses.TimeDomainLoss.Forward | encoders/losses.py:78-109 | the result is the sum of the `len` energy, time and phase terms (`TotalLoss`); it is non-negative, and 0 when `y == y_hat` (the loop invariants, not the contract, say that the zero-initialised arrays are filled slot by slot) |
| Losses.FrameAxisPhaseAt | encoders/losses.py:99-101 | for configuration 0, the transposed and padded difference at `[b][j][k]` is `(k > 0 ? v[b][k-1][j] : 0) - (k < frames ? v[b][k][j] : 0)`: a difference along the frame axis, one longer than the frame count |
| Losses.SampleAxisPhaseAt | encoders/losses.py:102-104 | for the other configurations, entry `[b][k][j]` is `(j > 0 ? v[b][k][j-1] : 0) - (j < frame ? v[b][k][j] : 0)`: a difference along the sample axis |
| Losses.UnitPhaseRow | encoders/losses.py:99-101 | with frame 1 and hop 1, row b of the configuration-0 phase proxy is the padded difference of the row's own samples `y[b*seg .. (b+1)*seg]` |
| Losses.FrameCount | encoders/losses.py:67-69 | definition: `(seg - (frame - hop)) // hop`, with `//` as `FloorDiv`; its properties are in `FrameCountPositiveIff` and `WindowsInSegment` |
| Losses.ViewShape | encoders/losses.py:68-71 | definition: the shape triple `(batch, FrameCount(seg, frame, hop), frame)` appended to `self.shapes` |
| Losses.ViewStride | encoders/losses.py:72-75 | definition: the stride triple `(seg, hop, 1)` appended to `self.strides` |
| Tensors.AsStrided | encoders/losses.py:94-95 | definition of `torch.as_strided` on a contiguous buffer: element `[b][k][j]` is `x[b*s0 + k*s1 + j*s2]`; it has no contract of its own, see `FrameIsWindow` |
| Tensors.Squares | encoders/losses.py:97 | definition of `** 2` on one sequence: entry i is `s[i] * s[i]`, and the length is kept |
| Tensors.Square | encoders/losses.py:97 | definition of `y_tmp ** 2`: `Squares` applied to every innermost row; see `FrameEnergyAt` |
| Tensors.Mean | encoders/losses.py:97-98 | definition of `torch.mean` of a non-empty sequence: `Sum(s) / |s|` |
| Tensors.MeanLastAxis | encoders/losses.py:97-98 | definition of `torch.mean(..., dim=-1)`: the `Mean` of every innermost row; see `FrameMeanAt` and `FrameEnergyAt` |
| Tensors.Transpose12 | encoders/losses.py:100-101 | definition of `transpose(1, 2)`: entry `[b][j][k]` is `t[b][k][j]`; see `FrameAxisPhaseAt` |
| Tensors.PaddedDiff | encoders/losses.py:100-104 | definition of `F.pad(v, (1, 0)) - F.pad(v, (0, 1))` on one row, as `Sub(Pad(v, 1, 0), Pad(v, 0, 1))`; see `PaddedDiffAt` |
| Tensors.PaddedDiffLastAxis | encoders/losses.py:103-104 | definition: `PaddedDiff` applied to every innermost row; see `PaddedDiffLastAxisShape` |
| Tensors.Sum | encoders/losses.py:107 | definition of `torch.sum` of a sequence, by recursion on its head; see `SumNonNegative` and `SumZeroIff` |
| Losses.FrameEnergies | encoders/losses.py:97 | definition of `torch.mean(y_tmp**2, dim=-1)`, flattened in row-major order; see `FrameEnergyAt` |
| Losses.FrameMeans | encoders/losses.py:98 | definition of `torch.mean(y_tmp, dim=-1)`, flattened in row-major order; see `FrameMeanAt` |
| Losses.PhaseOfView | encoders/losses.py:99-104 | definition of the phase proxy of a view: transposed first when i is 0; see `FrameAxisPhaseAt` and `SampleAxisPhaseAt` |
| Losses.PhaseSignal | encoders/losses.py:99-104 | definition: `PhaseOfView` of the strided view, flattened; see `PhaseSignalLength` and `PhaseSignalHead` |
| Losses.Terms | encoders/losses.py:93-105 | definition: the first n entries of one term array, entry j being the term of configuration j; see `TermsSnoc` |
| Losses.TotalLoss | encoders/losses.py:107 | definition of `torch.sum(loss_e) + torch.sum(loss_t) + torch.sum(loss_p)` over all configurations; see `TotalLossNonNegative` and `TotalLossOfEqualSignals` |
| Tensors.PaddedDiffAt | encoders/losses.py:100-104 | the padded difference of a length-m sequence has length m+1; element i is `v[i-1] - v[i]`, counting out-of-range entries as 0; element 0 is `-v[0]` and element m is `v[m-1]` |
| Tensors.PaddedDiffLastAxisShape | encoders/losses.py:100-104 | padding and differencing along the last axis lengthens that axis by one |
| Tensors.PaddedDiffOfShift | encoders/losses.py:100-104 | adding c to every element leaves the inner differences unchanged, and moves the two end elements by -c and +c |
| Tensors.L1LossZeroIff | encoders/losses.py:97-105 | `l1_loss` (mean reduction) of two equal-length non-empty sequences is 0 if and only if they are equal |
| Tensors.L1LossOfShift | encoders/losses.py:98 | the l1 loss between a sequence and the same sequence shifted by c is `abs(c)` |
| Tensors.L1Loss | encoders/losses.py:97-105 | the l1 loss is non-negative |

## Left out

- `spectral_reconstruction_loss`, `adversarial_g_loss`, `feature_loss` and `adversarial_d_loss` are not part of this model. They live in the same file, outside `TimeDomainLoss`, and rest on torchaudio's mel spectrogram and torch's reshaping and broadcasting rules.
- Floating-point rounding is not modelled. All arithmetic is exact `real`, so the model claims no bit-level agreement with float32 tensors.
- Autograd, device placement (`.to(y)`) and the `nn.Module` base class are not modelled. They do not affect the computed value.
- The memory layout of `torch.as_strided` is modelled only as the index map over a flat, contiguous buffer of `batch * seg` samples, with storage offset 0.
- Tensors are modelled as nested sequences; a tensor is flattened in row-major order before `l1_loss` averages it, which gives the same mean.
- Losses.TimeDomainLoss.Forward: requires the obligations the code never checks: batch >= 1, hop >= 1, 1 <= frame <= seg, and exactly `batch * seg` samples. The model excludes every other case. In the source, a view that reaches past the buffer makes torch raise, and so do a negative hop (as_strided refuses a negative stride) and a frame so much longer than the segment that the frame count is negative (for example seg 10, frame 30, hop 5 gives -3). An empty frame, an empty batch, or a frame longer than the segment whose frame count is 0 (for example seg 10, frame 15, hop 10) gives empty means, and `l1_loss` of an empty tensor returns NaN. A signal of any other length raises nothing as long as the storage covers every address of the view, because `torch.as_strided` only checks the storage size. The source then returns a number in three cases. Rows longer than `seg` make the windows, which start at multiples of `seg`, misaligned with the rows. A bigger batch than the one given at construction leaves the extra rows out of the loss. A signal shorter than `batch * seg` is possible with a configuration list whose windows stop short of `seg`, and its missing tail is then never read. None of these outcomes is modelled.
- Losses.TimeDomainLoss.constructor: requires a hop size for every frame size and no zero hop, where Python would raise IndexError or ZeroDivisionError. Those exceptions are not modelled.
- Losses.EnergyLossOfShifts: shows that the energy term is not monotone in the offset by one family of inputs. It does not characterise the energy term for general offsets.
