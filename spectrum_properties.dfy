/** Properties of the spectrum painter: the window of one peak, the sum that
    the painted buffer equals, the shape of the sideband tree, the sweep of
    the comb and the spectrum as a whole. */
module SpectrumProperties {
  import opened MathExt
  import opened SpectrumGenerator

  // ---------------------------------------------------------------------
  // Truncation and the window of one peak

  /** Truncation toward zero keeps the order of its arguments. */
  lemma TruncMonotone(x: real, y: real)
    requires x <= y
    ensures Trunc(x) <= Trunc(y)
  {
    if x < 0.0 && y >= 0.0 {
      assert Trunc(x) <= 0 <= Trunc(y);
    } else if x >= 0.0 {
      assert Trunc(x) as real <= x <= y < Trunc(y) as real + 1.0;
    } else {
      assert Trunc(x) as real - 1.0 < x <= y <= Trunc(y) as real;
    }
  }

  /** The clamped window of a peak holds exactly the slots of the buffer the
      peak reaches. */
  lemma WindowIsReach(size: nat, p: Peak, k: int)
    ensures Window(size, p).Contains(k) <==> 0 <= k < size && p.Reaches(k)
  {
  }

  /** A peak of width zero or less reaches no slot, so painting it leaves the
      buffer as it was and the bell is never evaluated. */
  lemma PaintWithoutWidth(s: seq<real>, p: Peak, g: Gaussian)
    requires p.sigma <= 0.0
    ensures forall k :: !p.Reaches(k)
    ensures Paint(s, p, g) == s
  {
    TruncMonotone(p.centre + p.Width(), p.centre - p.Width());
    forall k | 0 <= k < |s|
      ensures Paint(s, p, g)[k] == s[k]
    {
      PaintSlot(s, p, g, k);
    }
  }

  /** A peak whose reach lies wholly before slot 0 or wholly after the last
      slot leaves the buffer as it was. */
  lemma PaintOutsideBuffer(s: seq<real>, p: Peak, g: Gaussian)
    requires Trunc(p.centre + p.Width()) <= 0 || Trunc(p.centre - p.Width()) >= |s|
    ensures Paint(s, p, g) == s
  {
    forall k | 0 <= k < |s|
      ensures Paint(s, p, g)[k] == s[k]
    {
      PaintSlot(s, p, g, k);
    }
  }

  /** A peak of non-negative power adds between nothing and its full power
      to any slot; a peak without width adds nothing at all. */
  lemma ContributionBounded(p: Peak, g: Gaussian, k: int)
    requires IsGuass(g) && p.power >= 0.0
    ensures 0.0 <= Contribution(p, g, k) <= p.power
  {
    if p.sigma > 0.0 {
      GuassMaximumAtMean(g, k as real, p.centre, p.sigma);
      ContributionScale(p, g, k);
    } else {
      PaintWithoutWidth([], p, g);
    }
  }

  lemma ContributionScale(p: Peak, g: Gaussian, k: int)
    requires p.power >= 0.0 && 0.0 <= g(k as real, p.centre, p.sigma) <= 1.0
    ensures 0.0 <= Contribution(p, g, k) <= p.power
  {
    if p.Reaches(k) {
      ScaleBetween(g(k as real, p.centre, p.sigma), p.power);
    }
  }

  lemma ScaleBetween(v: real, w: real)
    requires 0.0 <= v <= 1.0 && w >= 0.0
    ensures 0.0 <= v * w <= w
  {
    assert w - v * w == (1.0 - v) * w;
  }

  /** A peak centred on slot `k` whose half-width `3 * sigma` reaches at
      least one slot adds exactly its power there, whatever its sign. */
  lemma PeakHeight(s: seq<real>, p: Peak, g: Gaussian, k: int)
    requires IsGuass(g)
    requires 0 <= k < |s| && p.centre == k as real && p.Width() >= 1.0
    ensures Paint(s, p, g)[k] == s[k] + p.power
  {
    assert p.sigma > 0.0;
    assert p.Reaches(k);
    GuassMaximumAtMean(g, k as real, p.centre, p.sigma);
    PaintSlot(s, p, g, k);
  }

  /** A peak of positive width and non-negative power adds between nothing
      and its power to every slot. */
  lemma PeakAtMostPower(s: seq<real>, p: Peak, g: Gaussian)
    requires IsGuass(g) && p.sigma > 0.0 && p.power >= 0.0
    ensures forall q :: 0 <= q < |s| ==> s[q] <= Paint(s, p, g)[q] <= s[q] + p.power
  {
    forall q | 0 <= q < |s|
      ensures s[q] <= Paint(s, p, g)[q] <= s[q] + p.power
    {
      PaintSlot(s, p, g, q);
      ContributionBounded(p, g, q);
    }
  }

  /** A peak centred on slot `k` whose half-width `3 * sigma` is below one
      slot adds nothing to slot `k`: the half-open window ends at the
      truncated right edge, which is `k` itself. */
  lemma NarrowPeakMissesCentre(s: seq<real>, p: Peak, g: Gaussian, k: int)
    requires 0 <= k < |s| && p.centre == k as real && 0.0 <= p.Width() < 1.0
    ensures Paint(s, p, g)[k] == s[k]
  {
    PaintSlot(s, p, g, k);
  }

  // ---------------------------------------------------------------------
  // The painted buffer as a sum of contributions

  /** The sum of the contributions of `ps` to slot `k`. */
  function Total(ps: seq<Peak>, g: Gaussian, k: int): real
    decreases |ps|
  {
    if ps == [] then 0.0 else Total(ps[..|ps| - 1], g, k) + Contribution(ps[|ps| - 1], g, k)
  }

  lemma {:induction false} TotalAppend(ps: seq<Peak>, qs: seq<Peak>, g: Gaussian, k: int)
    ensures Total(ps + qs, g, k) == Total(ps, g, k) + Total(qs, g, k)
    decreases |qs|
  {
    if qs == [] {
      assert ps + qs == ps;
    } else {
      assert (ps + qs)[..|ps + qs| - 1] == ps + qs[..|qs| - 1];
      TotalAppend(ps, qs[..|qs| - 1], g, k);
    }
  }

  /** Painting only adds: every slot ends up as what it held plus the sum of
      the contributions of all painted peaks. */
  lemma {:induction false} PaintAllIsSum(s: seq<real>, ps: seq<Peak>, g: Gaussian, k: int)
    requires 0 <= k < |s|
    ensures PaintAll(s, ps, g)[k] == s[k] + Total(ps, g, k)
    decreases |ps|
  {
    if ps != [] {
      var front := ps[..|ps| - 1];
      PaintAllIsSum(s, front, g, k);
      PaintSlot(PaintAll(s, front, g), ps[|ps| - 1], g, k);
    }
  }

  /** Peaks that all have no width leave the buffer as it was. */
  lemma {:induction false} PaintAllWithoutWidth(s: seq<real>, ps: seq<Peak>, g: Gaussian)
    requires forall p :: p in ps ==> p.sigma <= 0.0
    ensures PaintAll(s, ps, g) == s
    decreases |ps|
  {
    if ps != [] {
      var front := ps[..|ps| - 1];
      assert forall p :: p in front ==> p in ps;
      PaintAllWithoutWidth(s, front, g);
      PaintWithoutWidth(s, ps[|ps| - 1], g);
    }
  }

  // ---------------------------------------------------------------------
  // The sideband tree

  /** Order `i` paints `2^i` peaks, each of height `snr / 2^i`, and the
      height halves from one order to the next. */
  lemma OrderShape(offset: int, m: ModulationOps, i: nat)
    ensures |OrderPeaks(offset, m, i)| == Pow2(i)
    ensures forall p :: p in OrderPeaks(offset, m, i) ==>
      p.power == m.snr / Pow2(i) as real && p.sigma == m.sigma
    ensures OrderPower(m, i + 1) * 2.0 == OrderPower(m, i)
  {
    var n := Pow2(i) as real;
    assert m.snr * (1.0 / n) == m.snr / n;
    assert Pow2(i + 1) as real == 2.0 * n;
    assert m.snr * (1.0 / (2.0 * n)) * 2.0 == m.snr * (1.0 / n);
  }

  /** `sideband_offset * inv_pow2`, the half-spacing of the peaks of order `i`. */
  function HalfSpacing(m: ModulationOps, i: nat): real
  {
    m.sidebandOffset * InvPow2(i)
  }

  lemma InvPow2Times(i: nat)
    ensures InvPow2(i) * Pow2(i) as real == 1.0
  {
  }

  lemma Distribute(q: real, a: real, b: real)
    ensures q * (a + b) == q * a + q * b
  {
  }

  /** Peak `j` of order `i` sits at `offset + sideband_offset * (2j + 1 - 2^i) / 2^i`:
      the accumulated `local_offset` equals this closed form. */
  lemma {:induction false} CentreClosedForm(offset: int, m: ModulationOps, i: nat, j: nat)
    ensures Centre(offset, m, i, j)
         == offset as real + HalfSpacing(m, i) * (2.0 * j as real + 1.0 - Pow2(i) as real)
  {
    var q, n := HalfSpacing(m, i), Pow2(i) as real;
    if j == 0 {
      InvPow2Times(i);
      assert m.sidebandOffset * (InvPow2(i) - 1.0) == q - m.sidebandOffset;
      assert q * n == m.sidebandOffset * (InvPow2(i) * n);
      Distribute(q, 1.0, -n);
    } else {
      CentreClosedForm(offset, m, i, j - 1);
      var before := 2.0 * (j - 1) as real + 1.0 - n;
      Distribute(q, before, 2.0);
      assert m.sidebandOffset * InvPow2(i) * 2.0 == q * 2.0;
    }
  }

  /** The peaks of order `i` lie symmetrically about the cursor: peak `j`
      and peak `2^i - 1 - j` are equally far on either side. */
  lemma CentresSymmetric(offset: int, m: ModulationOps, i: nat, j: nat)
    requires j < Pow2(i)
    ensures Centre(offset, m, i, j) + Centre(offset, m, i, Pow2(i) - 1 - j) == 2.0 * offset as real
  {
    var q, n := HalfSpacing(m, i), Pow2(i) as real;
    var mirror := Pow2(i) - 1 - j;
    var a := 2.0 * j as real + 1.0 - n;
    var b := 2.0 * mirror as real + 1.0 - n;
    CentreClosedForm(offset, m, i, j);
    CentreClosedForm(offset, m, i, mirror);
    NegatedFactor(q, a, b);
  }

  lemma NegatedFactor(q: real, a: real, b: real)
    requires b == -a
    ensures q * b == -(q * a)
  {
  }

  /** The first peak of order `i` sits at `offset - sideband_offset * (1 - 1/2^i)`
      and the last at `offset + sideband_offset * (1 - 1/2^i)`. */
  lemma OuterCentres(offset: int, m: ModulationOps, i: nat)
    ensures Centre(offset, m, i, 0) == offset as real - m.sidebandOffset * (1.0 - InvPow2(i))
    ensures Centre(offset, m, i, Pow2(i) - 1) == offset as real + m.sidebandOffset * (1.0 - InvPow2(i))
  {
    var q, n := HalfSpacing(m, i), Pow2(i) as real;
    CentreClosedForm(offset, m, i, Pow2(i) - 1);
    InvPow2Times(i);
    assert q * n == m.sidebandOffset * (InvPow2(i) * n);
    assert 2.0 * (Pow2(i) - 1) as real + 1.0 - n == n - 1.0;
    Distribute(q, n, -1.0);
  }

  // ---------------------------------------------------------------------
  // The sweep of the comb

  /** With `frequency >= 1` the cursor moves on by at least one slot. */
  lemma CursorAdvances(offset: int, frequency: real)
    requires frequency >= 1.0
    ensures Trunc(offset as real + frequency) >= offset + 1
  {
    TruncMonotone((offset + 1) as real, offset as real + frequency);
  }

  /** With `0 <= frequency < 1` a non-negative cursor never moves, so a sweep
      that is entered never ends: this is why the sweep needs
      `frequency >= 1` once `128 < points + frequency`. */
  lemma CursorStalls(offset: int, frequency: real)
    requires offset >= 0 && 0.0 <= frequency < 1.0
    ensures Trunc(offset as real + frequency) == offset
  {
  }

  /** The comb starts at slot 128 whenever the sweep is entered at all. */
  lemma SweepStartsAt128(m: ModulationOps, points: int)
    requires SweepEnds(m, points)
    ensures var cs := Cursors(m, points, StartOffset);
      && (|cs| == 0 <==> points as real + m.frequency <= 128.0)
      && (|cs| > 0 ==> cs[0] == 128)
      && (forall t :: 0 <= t < |cs| ==> cs[t] as real < points as real + m.frequency)
  {
    CursorsSweep(m, points, StartOffset);
  }

  /** With a whole-number frequency `f` no truncation happens: the `t`-th
      position of the sweep is `offset + f * t`. */
  lemma {:induction false} WholeStepSweep(m: ModulationOps, points: int, offset: int, f: nat)
    requires f >= 1 && m.frequency == f as real
    ensures forall t :: 0 <= t < |Cursors(m, points, offset)| ==> Cursors(m, points, offset)[t] == offset + f * t
    decreases (points as real + m.frequency).Floor + 1 - offset
  {
    if Continues(m, points, offset) {
      var next := Trunc(offset as real + m.frequency);
      assert next == offset + f;
      WholeStepSweep(m, points, next, f);
      var cs, rest := Cursors(m, points, offset), Cursors(m, points, next);
      assert cs == [offset] + rest;
      forall t | 0 < t < |cs|
        ensures cs[t] == offset + f * t
      {
        assert 0 <= t - 1 < |rest|;
        assert cs[t] == rest[t - 1];
        assert rest[t - 1] == next + f * (t - 1);
        assert f * (t - 1) == f * t - f;
      }
    }
  }

  /** A comb repeating every 512 bins over 4096 points: the sweep visits the
      nine positions 128, 640, ..., 4224, the last because it is still below
      `4096 + 512`. */
  lemma CombEvery512()
    ensures var cs := Cursors(ModulationOps(512.0, 0, 0.0, 0.5, 200000000.0), 4096, StartOffset);
      && |cs| == 9
      && forall t :: 0 <= t < |cs| ==> cs[t] == 128 + 512 * t
  {
    var m := ModulationOps(512.0, 0, 0.0, 0.5, 200000000.0);
    var cs := Cursors(m, 4096, StartOffset);
    WholeStepSweep(m, 4096, StartOffset, 512);
    CursorsSweep(m, 4096, StartOffset);
    var n := |cs|;
    assert n > 0;
    assert cs[n - 1] == 128 + 512 * (n - 1);
    assert Trunc(cs[n - 1] as real + 512.0) == 128 + 512 * n;
  }

  /** Without sidebands each cursor position `c` paints one peak of height
      `snr` centred on `c`. With `sigma = 0.5` its window is `[c - 2, c + 1)`,
      two slots to the left of `c` and none to the right, and slot `c` gets
      exactly `snr` added. */
  lemma SinglePeakPerCursor(s: seq<real>, g: Gaussian, c: int)
    requires IsGuass(g) && 2 <= c < |s|
    ensures var m := ModulationOps(512.0, 0, 0.0, 0.5, 200000000.0);
      var p := Peak(c as real, 0.5, 200000000.0);
      && CombPeaks(c, m) == [p]
      && Window(|s|, p) == Range(c - 2, c + 1)
      && Paint(s, p, g)[c] == s[c] + 200000000.0
  {
    var m := ModulationOps(512.0, 0, 0.0, 0.5, 200000000.0);
    var p := Peak(c as real, 0.5, 200000000.0);
    assert OrderPeaks(c, m, 0) == [p];
    assert CombPeaks(c, m) == OrdersBelow(c, m, 0) + OrderPeaks(c, m, 0);
    assert Trunc(c as real - 1.5) == c - 2;
    assert Trunc(c as real + 1.5) == c + 1;
    PeakHeight(s, p, g, c);
  }

  /** With one sideband order and `sideband_offset = 8`, each cursor position
      `c` paints the main peak and then a pair four bins to either side at
      half its height. */
  lemma SidebandPair(c: int)
    ensures CombPeaks(c, ModulationOps(512.0, 1, 8.0, 0.5, 200000000.0))
         == [Peak(c as real, 0.5, 200000000.0),
             Peak(c as real - 4.0, 0.5, 100000000.0),
             Peak(c as real + 4.0, 0.5, 100000000.0)]
  {
    var m := ModulationOps(512.0, 1, 8.0, 0.5, 200000000.0);
    assert Pow2(1) == 2;
    assert Centre(c, m, 1, 0) == c as real - 4.0;
    assert Centre(c, m, 1, 1) == c as real + 4.0;
    assert OrderPeaks(c, m, 0) == [Peak(c as real, 0.5, 200000000.0)];
    assert OrderPeaks(c, m, 1) == [Peak(c as real - 4.0, 0.5, 100000000.0), Peak(c as real + 4.0, 0.5, 100000000.0)];
    assert Orders(m) == 2;
    assert OrdersBelow(c, m, 1) == OrdersBelow(c, m, 0) + OrderPeaks(c, m, 0);
    assert OrdersBelow(c, m, 2) == OrdersBelow(c, m, 1) + OrderPeaks(c, m, 1);
  }

  // ---------------------------------------------------------------------
  // The whole spectrum

  lemma {:induction false} AllPeaksAppend(xs: seq<ModulationOps>, ys: seq<ModulationOps>, points: int)
    requires forall t :: 0 <= t < |xs| ==> SweepEnds(xs[t], points)
    requires forall t :: 0 <= t < |ys| ==> SweepEnds(ys[t], points)
    ensures forall t :: 0 <= t < |xs + ys| ==> SweepEnds((xs + ys)[t], points)
    ensures AllPeaks(xs + ys, points) == AllPeaks(xs, points) + AllPeaks(ys, points)
    decreases |ys|
  {
    forall t | 0 <= t < |xs + ys|
      ensures SweepEnds((xs + ys)[t], points)
    {
      if t < |xs| {
        assert (xs + ys)[t] == xs[t];
      } else {
        assert (xs + ys)[t] == ys[t - |xs|];
      }
    }
    if ys == [] {
      assert xs + ys == xs;
    } else {
      var front := ys[..|ys| - 1];
      assert (xs + ys)[..|xs + ys| - 1] == xs + front;
      AllPeaksAppend(xs, front, points);
    }
  }

  /** Every slot of the spectrum is its one noise draw plus the sum of the
      contributions of every peak of every modulation. */
  lemma SpectrumAt(ops: SpectrumOps, noise: seq<real>, g: Gaussian, k: int)
    requires ops.points >= 0 && ValidOps(ops) && |noise| == ops.points
    requires 0 <= k < ops.points
    ensures SpectrumOf(ops, noise, g)[k] == noise[k] + Total(AllPeaks(ops.modulation, ops.points), g, k)
  {
    PaintAllIsSum(Zeros(ops.points), AllPeaks(ops.modulation, ops.points), g, k);
  }

  /** Modulations superimpose: the spectrum of `xs + ys` is the spectrum of
      `xs` plus the noise-free spectrum of `ys`; the noise is added once. */
  lemma Superposition(xs: seq<ModulationOps>, ys: seq<ModulationOps>, points: nat, rbw: real,
                      noise: seq<real>, g: Gaussian, k: int)
    requires ValidOps(SpectrumOps(xs, points, rbw)) && ValidOps(SpectrumOps(ys, points, rbw))
    requires |noise| == points && 0 <= k < points
    ensures ValidOps(SpectrumOps(xs + ys, points, rbw))
    ensures SpectrumOf(SpectrumOps(xs + ys, points, rbw), noise, g)[k]
         == SpectrumOf(SpectrumOps(xs, points, rbw), noise, g)[k]
          + SpectrumOf(SpectrumOps(ys, points, rbw), Zeros(points), g)[k]
  {
    assert forall t :: 0 <= t < |xs + ys| ==>
      (xs + ys)[t] == if t < |xs| then xs[t] else ys[t - |xs|];
    AllPeaksAppend(xs, ys, points);
    SpectrumAt(SpectrumOps(xs + ys, points, rbw), noise, g, k);
    SpectrumAt(SpectrumOps(xs, points, rbw), noise, g, k);
    SpectrumAt(SpectrumOps(ys, points, rbw), Zeros(points), g, k);
    TotalAppend(AllPeaks(xs, points), AllPeaks(ys, points), g, k);
  }

  lemma {:induction false} OrdersBelowSigma(offset: int, m: ModulationOps, n: nat)
    ensures forall p :: p in OrdersBelow(offset, m, n) ==> p.sigma == m.sigma
  {
    if n > 0 {
      OrdersBelowSigma(offset, m, n - 1);
      OrderShape(offset, m, n - 1);
    }
  }

  lemma {:induction false} CombsAtSigma(cs: seq<int>, m: ModulationOps)
    ensures forall p :: p in CombsAt(cs, m) ==> p.sigma == m.sigma
    decreases |cs|
  {
    if cs != [] {
      CombsAtSigma(cs[..|cs| - 1], m);
      OrdersBelowSigma(cs[|cs| - 1], m, Orders(m));
    }
  }

  /** A modulation with `sigma <= 0` leaves the buffer as it was. */
  lemma ModulationWithoutWidth(s: seq<real>, m: ModulationOps, points: int, g: Gaussian)
    requires SweepEnds(m, points) && m.sigma <= 0.0
    ensures PaintAll(s, ModulationPeaks(m, points), g) == s
  {
    CombsAtSigma(Cursors(m, points, StartOffset), m);
    PaintAllWithoutWidth(s, ModulationPeaks(m, points), g);
  }

  /** A default-constructed modulation, whose `sigma` is 0, paints nothing,
      whatever the length of the buffer. */
  lemma DefaultModulationPaintsNothing(s: seq<real>, points: int, g: Gaussian)
    ensures SweepEnds(DefaultModulation, points)
    ensures PaintAll(s, ModulationPeaks(DefaultModulation, points), g) == s
  {
    ModulationWithoutWidth(s, DefaultModulation, points, g);
  }

  /** A sweep that never starts places no bound on `sidebands`: with 100
      points and `frequency` 10 the cursor 128 is already past `110`, so even
      40 sideband orders are accepted and nothing is painted. */
  lemma UnenteredSweepPaintsNothing()
    ensures ValidModulation(ModulationOps(10.0, 40, 0.0, 1.0, 1.0), 100)
    ensures ModulationPeaks(ModulationOps(10.0, 40, 0.0, 1.0, 1.0), 100) == []
  {
    var m := ModulationOps(10.0, 40, 0.0, 1.0, 1.0);
    assert !Continues(m, 100, StartOffset);
    assert Cursors(m, 100, StartOffset) == [];
  }

  lemma {:induction false} AllPeaksSigma(mods: seq<ModulationOps>, points: int)
    requires forall t :: 0 <= t < |mods| ==> SweepEnds(mods[t], points) && mods[t].sigma <= 0.0
    ensures forall p :: p in AllPeaks(mods, points) ==> p.sigma <= 0.0
    decreases |mods|
  {
    if mods != [] {
      AllPeaksSigma(mods[..|mods| - 1], points);
      CombsAtSigma(Cursors(mods[|mods| - 1], points, StartOffset), mods[|mods| - 1]);
    }
  }

  /** When no modulation has a positive `sigma`, the spectrum is the noise
      alone. */
  lemma SpectrumWithoutWidth(ops: SpectrumOps, noise: seq<real>, g: Gaussian)
    requires ops.points >= 0 && ValidOps(ops) && |noise| == ops.points
    requires forall t :: 0 <= t < |ops.modulation| ==> ops.modulation[t].sigma <= 0.0
    ensures SpectrumOf(ops, noise, g) == noise
  {
    AllPeaksSigma(ops.modulation, ops.points);
    PaintAllWithoutWidth(Zeros(ops.points), AllPeaks(ops.modulation, ops.points), g);
  }
}
