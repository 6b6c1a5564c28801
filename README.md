# SpectrumGenerator painter, modelled in Dafny

This project models the core of the SpectrumGenerator library: the spectrum
painter `default_generator::operator()`, its window helper `clamp_it`, and the
`clamp` and `guass` primitives of `math_ext`.

Given a list of modulations, the painter builds a buffer of `points` real
samples, all zero at the start. For each modulation it does the following:

- It sweeps an integer cursor from slot 128 in steps of `frequency`. The
  cursor is truncated back to `int` after every step. The sweep stops once the
  cursor reaches `points + frequency`.
- At every cursor position it paints a tree of sidebands. Order `i`
  (for `0 <= i <= sidebands`) has `2^i` Gaussian peaks, each of height
  `snr / 2^i`. The peaks sit symmetrically about the cursor.
- Each peak adds `guass(k, centre, sigma) * power` to every slot `k` of a
  half-open window. That window is `[trunc(centre - 3 sigma), trunc(centre + 3 sigma))`,
  clamped to the buffer.

Finally one noise sample is added to every slot.

The project has three modules:

- `MathExt` (`math_ext.dfy`) models the primitives.
  - `Clamp` is the comparator form of `clamp`, with its asserted precondition
    as a `requires`. `ClampInt` is the three-argument form on `int`.
  - `guass` is not computed. A bell is any function `Gaussian` that satisfies
    the ghost predicate `IsGuass`. For a positive width it states the
    doc-comment promise that the value lies in (0, 1] and is 1 at the mean.
    It also states that the value depends only on the distance from the mean,
    which follows from the squared difference in the formula of `guass`.
  - `RationalBell` shows that `IsGuass` can be met.
- `SpectrumGenerator` (`spectrum_generator.dfy`) holds the data model and the
  painter.
  - `ModulationOps` and `SpectrumOps` are the two option records. `Peak` is one
    painted peak. `Range` is the iterator pair `clamp_it` returns, written as
    indices.
  - What the painter computes is stated as values. `AllPeaks` lists every peak
    in painting order. `PaintAll` adds the peaks one after the other into the
    zero buffer. `SpectrumOf` adds the noise.
  - The loops of `operator()` are methods on an `array<real>`:
    - `TransformWindow` is the `std::transform` with its sampler;
    - `PaintPeak` is one `clamp_it` plus the transform;
    - `PaintOrder` is the `j` loop;
    - `PaintComb` is the `i` loop;
    - `PaintModulation` is the `while` loop on the cursor;
    - `AddNoiseInPlace` is the final transform;
    - `Generate` is the whole operator.

    Each method is proved to leave exactly the specification's value in the
    array.
- `SpectrumProperties` (`spectrum_properties.dfy`) proves properties of that
  specification. They cover the window of one peak, the buffer as a sum of
  contributions, the counts, heights and positions of the sideband tree, the
  sweep of the cursor, superposition of modulations, and concrete
  configurations.

Conversions from `double` to `int` truncate toward zero (`Trunc`). Both the
cursor step and the `int` parameters of `clamp_it` use it. The window this
produces is not symmetric about the peak. For a peak at slot `c` with
`sigma = 0.5` and `2 <= c < points`, the slots painted are `c - 2`, `c - 1` and `c`
(`SinglePeakPerCursor`); nearer slot 0 the window is clamped.
A peak centred on a slot whose half-width `3 sigma` is below one slot does not
paint that slot (`NarrowPeakMissesCentre`). The model keeps this behaviour as written.

The bell and the noise are parameters.

- Every method, function and lemma that evaluates a peak takes the bell `g`.
  The lemmas that need its shape require `IsGuass(g)`.
- The noise is a sequence with one draw per slot, in slot order.

## Model

| member | source | states |
|---|---|---|
| MathExt.Clamp | SpectrumGenerator/math_ext.h:11-16 | requires `!comp(hi, lo)`; the result is `lo` when `comp(v, lo)`, otherwise `hi` when `comp(hi, v)`, otherwise `v`; it lies within the bounds for any comparator irreflexive on them |
| MathExt.ClampInt | SpectrumGenerator/math_ext.h:18-22 | delegates to `Clamp` with `<`, as the source passes `std::less`; requires `lo <= hi`; the result lies in `[lo, hi]` and is `lo` when `v < lo`, `hi` when `hi < v`, and `v` otherwise |
| MathExt.ClampIdempotent | SpectrumGenerator/math_ext.h:14-15 | for any comparator with `!comp(hi, lo)`, clamping a clamped value changes nothing |
| MathExt.ClampIntIdempotent | SpectrumGenerator/math_ext.h:15-21 | the three-argument clamp is idempotent |
| MathExt.IsGuass | SpectrumGenerator/math_ext.h:24-33 | no contract of its own: its definition states, for `sigma > 0`, the doc-comment promise of `guass` (value in (0, 1], 1 at the mean) and the symmetry that the squared difference of the formula gives (a function of `|val - mean|` only), which the lemmas below use |
| MathExt.GuassMaximumAtMean | SpectrumGenerator/math_ext.h:24-27 | a bell's value lies in (0, 1] and is highest, 1, at the mean |
| MathExt.GuassSymmetric | SpectrumGenerator/math_ext.h:29-32 | a bell takes the same value at `mean + d` and `mean - d` |
| MathExt.RationalBellIsGuass | SpectrumGenerator/math_ext.h:24-25 | the contract of `guass` is satisfiable: a rational bell meets it |
| SpectrumGenerator.DefaultModulation | SpectrumGenerator/spectrum_generator.h:16-20 | no contract of its own: the default member values (`frequency` 1, `sidebands` 0, `sideband_offset` 0, `sigma` 0, `snr` 1); `DefaultModulationPaintsNothing` states what it paints |
| SpectrumGenerator.Trunc | SpectrumGenerator/spectrum_generator.h:71 | the result is the integer part of `x` toward zero: within one of `x` and no farther from zero than `x` |
| SpectrumGenerator.Pow2 | SpectrumGenerator/spectrum_generator.h:54 | `1 << i` as `2^i`, at least 1, so every order paints at least one peak |
| SpectrumGenerator.ClampIt | SpectrumGenerator/spectrum_generator.h:83-93 | the window satisfies `begin <= end <= size` and holds exactly the buffer slots in `[offsetBegin, offsetEnd)` |
| SpectrumGenerator.Peak.Width | SpectrumGenerator/spectrum_generator.h:58 | no contract of its own: `peak_width`, three times `sigma`; `PeakHeight` and `NarrowPeakMissesCentre` state what it decides |
| SpectrumGenerator.Peak.Reaches | SpectrumGenerator/spectrum_generator.h:63 | no contract of its own: the slots from the truncated left edge up to, but excluding, the truncated right edge; `WindowIsReach` ties it to the clamped window |
| SpectrumGenerator.Window | SpectrumGenerator/spectrum_generator.h:63 | the window of a peak ends inside the buffer |
| SpectrumGenerator.Paint | SpectrumGenerator/spectrum_generator.h:63-66 | painting a peak keeps the buffer length |
| SpectrumGenerator.Contribution | SpectrumGenerator/spectrum_generator.h:65 | no contract of its own: the addend of the sampling lambda, `guass(k, centre, sigma) * power` inside the peak's reach and 0 outside; `ContributionBounded` bounds it |
| SpectrumGenerator.PaintSlot | SpectrumGenerator/spectrum_generator.h:63-66 | every slot gets exactly the peak's contribution, which is zero outside its reach |
| SpectrumGenerator.PaintAll | SpectrumGenerator/spectrum_generator.h:46-73 | painting any list of peaks keeps the buffer length |
| SpectrumGenerator.PaintAllAppend | SpectrumGenerator/spectrum_generator.h:46-73 | painting `ps + qs` is painting `ps` and then `qs` |
| SpectrumGenerator.InvPow2 | SpectrumGenerator/spectrum_generator.h:55 | no contract of its own: `inv_pow2`, `1 / 2^i`; `OuterCentres` and `CentreClosedForm` use it |
| SpectrumGenerator.OrderPower | SpectrumGenerator/spectrum_generator.h:57 | no contract of its own: `power`, `snr / 2^i`; `OrderShape` states that it halves from one order to the next |
| SpectrumGenerator.Orders | SpectrumGenerator/spectrum_generator.h:51 | no contract of its own: the number of passes of the `i` loop, `sidebands + 1`, or 0 for a negative `sidebands`; the contract of `CombPeaks` counts the peaks it gives |
| SpectrumGenerator.OrderPeaks | SpectrumGenerator/spectrum_generator.h:54-61 | order `i` has `2^i` peaks |
| SpectrumGenerator.Centre | SpectrumGenerator/spectrum_generator.h:59-67 | no contract of its own: `local_offset` as the loop accumulates it, the first value plus one step per earlier peak; `CentreClosedForm` gives its closed form |
| SpectrumGenerator.OrdersBelow | SpectrumGenerator/spectrum_generator.h:51-61 | the peaks of orders `0 .. n-1`, in painting order, number `2^n - 1` |
| SpectrumGenerator.CombPeaks | SpectrumGenerator/spectrum_generator.h:51-69 | one cursor position paints `2^(sidebands+1) - 1` peaks, and none when `sidebands` is negative |
| SpectrumGenerator.Continues | SpectrumGenerator/spectrum_generator.h:49 | no contract of its own: the loop condition `offset < points + frequency`; `CursorsSweep` and `SweepStartsAt128` state the sweep it bounds |
| SpectrumGenerator.Cursors | SpectrumGenerator/spectrum_generator.h:48-71 | no contract of its own: the cursor positions of the `while` loop in visiting order; `CursorsSweep` states their properties |
| SpectrumGenerator.CombsAt | SpectrumGenerator/spectrum_generator.h:49-72 | no contract of its own: the sideband trees at the given cursor positions, in painting order; `PaintModulation` is proved against it and `CombsAtSigma` states a property of it |
| SpectrumGenerator.ModulationPeaks | SpectrumGenerator/spectrum_generator.h:47-72 | no contract of its own: every peak one modulation paints, the trees at the cursors of the sweep; `PaintModulation`, `ModulationWithoutWidth` and `UnenteredSweepPaintsNothing` state its meaning |
| SpectrumGenerator.AllPeaks | SpectrumGenerator/spectrum_generator.h:46-73 | no contract of its own: every peak in painting order, modulation by modulation; `AllPeaksAppend` and `SpectrumAt` state its properties |
| SpectrumGenerator.CursorsSweep | SpectrumGenerator/spectrum_generator.h:48-71 | the sweep is empty exactly when the loop is not entered; it starts at the given cursor; every visited position is below `points + frequency`; each position is the truncation of the previous plus `frequency`; the position after the last one ends the loop |
| SpectrumGenerator.Zeros | SpectrumGenerator/spectrum_generator.h:45 | the vector holds `points` zeros |
| SpectrumGenerator.AddNoise | SpectrumGenerator/spectrum_generator.h:74 | every slot gets exactly its own noise draw added; the length is unchanged |
| SpectrumGenerator.SpectrumOf | SpectrumGenerator/spectrum_generator.h:43-76 | the spectrum has exactly `points` slots |
| SpectrumGenerator.TransformWindow | SpectrumGenerator/spectrum_generator.h:64-66 | with the sampler starting at the window's first index and advancing by one, each window slot `q` gets `guass(q, centre, sigma) * power` added and no other slot changes |
| SpectrumGenerator.PaintPeak | SpectrumGenerator/spectrum_generator.h:63-66 | the array afterwards is `Paint` of its old contents |
| SpectrumGenerator.PaintOrder | SpectrumGenerator/spectrum_generator.h:53-68 | the `j` loop, with `local_offset` accumulated step by step, paints exactly the `2^i` peaks of `OrderPeaks`, in order |
| SpectrumGenerator.PaintComb | SpectrumGenerator/spectrum_generator.h:51-69 | the `i` loop paints exactly the sideband tree `CombPeaks` at the cursor |
| SpectrumGenerator.PaintModulation | SpectrumGenerator/spectrum_generator.h:48-72 | the `while` loop ends and paints the trees at exactly the cursor positions of the sweep, in order |
| SpectrumGenerator.AddNoiseInPlace | SpectrumGenerator/spectrum_generator.h:74 | the array afterwards is its old contents plus one noise draw per slot |
| SpectrumGenerator.Generate | SpectrumGenerator/spectrum_generator.h:43-76 | a negative `points` fails with a length error; otherwise the result is exactly `SpectrumOf`: every modulation's peaks painted into zeros, then the noise |
| SpectrumProperties.TruncMonotone | SpectrumGenerator/spectrum_generator.h:63 | truncation toward zero is monotone |
| SpectrumProperties.WindowIsReach | SpectrumGenerator/spectrum_generator.h:84-88 | a peak's clamped window is exactly the buffer slots in `[trunc(centre - width), trunc(centre + width))` |
| SpectrumProperties.PaintWithoutWidth | SpectrumGenerator/spectrum_generator.h:58-66 | with `sigma <= 0` a peak reaches no slot, so `guass` is never evaluated and the buffer is unchanged |
| SpectrumProperties.PaintOutsideBuffer | SpectrumGenerator/spectrum_generator.h:84-88 | a peak whose reach lies wholly before slot 0 or after the last slot leaves the buffer unchanged |
| SpectrumProperties.ContributionBounded | SpectrumGenerator/spectrum_generator.h:65 | for a bell that satisfies its contract and a non-negative power, a peak of any width adds between 0 and `power` to any slot |
| SpectrumProperties.PeakHeight | SpectrumGenerator/spectrum_generator.h:57-66 | a peak centred on slot `k` whose half-width reaches at least one slot adds exactly `power` at `k`, for a power of either sign |
| SpectrumProperties.PeakAtMostPower | SpectrumGenerator/spectrum_generator.h:57-66 | a peak of positive width and non-negative power adds between 0 and `power` to every slot |
| SpectrumProperties.NarrowPeakMissesCentre | SpectrumGenerator/spectrum_generator.h:63 | a peak centred on slot `k` with half-width below one slot leaves slot `k` unchanged |
| SpectrumProperties.TotalAppend | SpectrumGenerator/spectrum_generator.h:65-66 | contributions sum over concatenated peak lists |
| SpectrumProperties.PaintAllIsSum | SpectrumGenerator/spectrum_generator.h:46-73 | each slot ends as its initial value plus the sum of every painted peak's contribution |
| SpectrumProperties.PaintAllWithoutWidth | SpectrumGenerator/spectrum_generator.h:58-66 | peaks that all have `sigma <= 0` leave the buffer unchanged |
| SpectrumProperties.OrderShape | SpectrumGenerator/spectrum_generator.h:53-61 | order `i` has `2^i` peaks, each with the modulation's `sigma` and height `snr / 2^i`; the height halves from one order to the next |
| SpectrumProperties.CentreClosedForm | SpectrumGenerator/spectrum_generator.h:59-67 | the accumulated `local_offset` of peak `j` at order `i` is `offset + sideband_offset * (2j + 1 - 2^i) / 2^i` |
| SpectrumProperties.CentresSymmetric | SpectrumGenerator/spectrum_generator.h:59-67 | peaks `j` and `2^i - 1 - j` lie symmetrically about the cursor |
| SpectrumProperties.OuterCentres | SpectrumGenerator/spectrum_generator.h:59-67 | the first peak of order `i` is at `offset - sideband_offset * (1 - 1/2^i)` and the last at `offset + sideband_offset * (1 - 1/2^i)` |
| SpectrumProperties.CursorAdvances | SpectrumGenerator/spectrum_generator.h:71 | with `frequency >= 1` the cursor moves on by at least one slot |
| SpectrumProperties.CursorStalls | SpectrumGenerator/spectrum_generator.h:71 | with `0 <= frequency < 1` a non-negative cursor does not move |
| SpectrumProperties.SweepStartsAt128 | SpectrumGenerator/spectrum_generator.h:48-49 | the sweep is empty exactly when `points + frequency <= 128`, otherwise it starts at 128, and every position is below `points + frequency` |
| SpectrumProperties.WholeStepSweep | SpectrumGenerator/spectrum_generator.h:48-71 | with a whole-number `frequency` `f`, position `t` of the sweep is `offset + f * t` |
| SpectrumProperties.CombEvery512 | SpectrumGenerator/spectrum_generator.h:48-71 | with 4096 points and `frequency` 512 the comb is at 128, 640, ..., 4224: nine positions |
| SpectrumProperties.SinglePeakPerCursor | SpectrumGenerator/spectrum_generator.h:51-66 | without sidebands, and with `sigma` 0.5 and `snr` 2e8, each cursor `c` paints one peak at `c` with window `[c - 2, c + 1)`, and slot `c` gets exactly 2e8 |
| SpectrumProperties.SidebandPair | SpectrumGenerator/spectrum_generator.h:51-68 | with one sideband order and `sideband_offset` 8, a cursor `c` paints the main peak, then peaks at `c - 4` and `c + 4` of half the height |
| SpectrumProperties.AllPeaksAppend | SpectrumGenerator/spectrum_generator.h:46-73 | the peaks of `xs + ys` are those of `xs` followed by those of `ys` |
| SpectrumProperties.SpectrumAt | SpectrumGenerator/spectrum_generator.h:43-76 | each slot of the spectrum is its noise draw plus the contributions of every peak of every modulation |
| SpectrumProperties.Superposition | SpectrumGenerator/spectrum_generator.h:43-76 | the spectrum of `xs + ys` is the spectrum of `xs` plus the noise-free spectrum of `ys`; the noise is added once |
| SpectrumProperties.OrdersBelowSigma | SpectrumGenerator/spectrum_generator.h:58-65 | every peak of the sideband tree has the modulation's `sigma` |
| SpectrumProperties.CombsAtSigma | SpectrumGenerator/spectrum_generator.h:58-65 | every peak of a modulation, at every cursor position, has the modulation's `sigma` |
| SpectrumProperties.ModulationWithoutWidth | SpectrumGenerator/spectrum_generator.h:58-66 | a modulation with `sigma <= 0` leaves the buffer unchanged |
| SpectrumProperties.DefaultModulationPaintsNothing | SpectrumGenerator/spectrum_generator.h:14-21 | a default-constructed modulation, whose `sigma` is 0, has a sweep that ends and leaves the buffer unchanged |
| SpectrumProperties.UnenteredSweepPaintsNothing | SpectrumGenerator/spectrum_generator.h:48-54 | with 100 points and `frequency` 10 the `while` loop is never entered, so a modulation with 40 sideband orders is accepted and paints nothing |
| SpectrumProperties.AllPeaksSigma | SpectrumGenerator/spectrum_generator.h:46-73 | when no modulation has a positive `sigma`, no painted peak has one |
| SpectrumProperties.SpectrumWithoutWidth | SpectrumGenerator/spectrum_generator.h:43-76 | when no modulation has a positive `sigma`, the spectrum is the noise alone |

## Left out

- `SpectrumGenerator/main.cpp` is not part of this model. It builds the options, calls an inverse FFT from a third-party library and prints the results.
- The random source is a parameter. The model does not include the `std::random_device` seeding, the engine, `normal_`, or the unused `uniform_`. The noise enters as a sequence of one draw per slot, in slot order.
- `std::transform` does not promise to apply its function in order. The model assumes slot order for both transforms: the `sampler++` lambda gives slot `k` the bell at `k`, and slot `k` gets the `k`-th noise draw.
- The value of `guass` is abstract. The model does not compute `exp`, and leaves out `guass_normal` and the constants `pi` and `inv_sqrt_tau`. Only the doc-comment contract of `guass` is modelled, as `IsGuass`.
- `MathExt.IsGuass` is stated in terms of the distance `|val - mean|`, not its square. It states the same dependence, but it is weaker than the exact formula.
- Doubles are modelled as exact reals. Rounding is not modelled, either in the accumulated `local_offset` or in `inv_pow2`.
- Integer width is not modelled. A `double` outside the `int` range converted by `Trunc` is undefined behaviour in the source; the model truncates exactly.
- `SpectrumGenerator.PaintComb` requires `sidebands <= 30`, so that `1 << i` stays a positive `int`. `1 << 31` is undefined in C++11, implementation-defined in C++14 and C++17, and `INT_MIN` from C++20 on; with `INT_MIN` the `j` loop of order 31 would paint nothing. Shifts by 32 or more are undefined. `ValidModulation`, which `PaintModulation` and `Generate` require, asks this only of a modulation whose sweep is entered; the model does not cover orders from 31 on.
- `SpectrumGenerator.PaintModulation` requires that the sweep ends: either `frequency >= 1`, or the loop is not entered at all. Otherwise the source does not end normally. For `-1 < frequency < 1` the truncated cursor stops moving and the loop runs forever; `CursorStalls` shows this for `0 <= frequency < 1`. For `frequency <= -1` the cursor falls by at least one slot per step until the conversion at `spectrum_generator.h:71` leaves the `int` range, which is undefined behaviour.
- `SpectrumGenerator.Generate` models a negative `points` as `Failure(LengthError)`. It stands for the exception the vector constructor throws.
- `Clamp` models the asserted `!comp(hi, lo)` of `clamp` as a precondition. It is not modelled as a runtime abort.
- `clamp` returns a reference; the model returns a value.
- `clamp_it` calls `clamp` with an `int` and a `ptrdiff_t`. The model reads both as mathematical integers. The three-argument `clamp(offset_begin, 0, size)` deduces a single `T` only where `ptrdiff_t` is `int`; elsewhere the call does not compile.
- The model does not interpret the unused `rbw` field. It also omits the dead `scale` and the commented-out random start of the cursor; the start stays at 128.
- `SpectrumGenerator.PaintAll` and `SpectrumGenerator.Paint` state only the length in their own contracts. What each slot receives is stated by `PaintSlot` and `PaintAllIsSum`.
