/** The spectrum painter of `default_generator`: Gaussian peaks, arranged as
    a tree of sidebands and repeated along a comb, are added into a buffer of
    `points` real samples, and one noise sample is added to every slot.

    The specification is a list of peaks (`AllPeaks`) added one after the
    other into a zero buffer (`PaintAll`); the methods model the loops of the
    source and are proved to compute exactly that. */
module SpectrumGenerator {
  import opened MathExt

  /** One modulation applied to the spectrum; defaults as in the source. */
  datatype ModulationOps = ModulationOps(
    frequency: real,       // spacing of the comb, in slots
    sidebands: int,        // number of sideband orders after the main peak
    sidebandOffset: real,  // offset of the first-order sidebands from the main peak
    sigma: real,           // width of each Gaussian peak
    snr: real)             // height of the main peak

  const DefaultModulation := ModulationOps(1.0, 0, 0.0, 0.0, 1.0)

  /** The request: the modulations, the length of the result and the
      resolution bandwidth, which has no effect. */
  datatype SpectrumOps = SpectrumOps(modulation: seq<ModulationOps>, points: int, rbw: real)

  /** Allocating a vector of a negative length throws. */
  datatype Error = LengthError

  datatype Result<T> = Success(value: T) | Failure(error: Error)

  /** The fixed first position of the comb cursor. */
  const StartOffset: int := 128

  /** A peak covers `PeakWidthFactor * sigma` slots on either side. */
  const PeakWidthFactor: real := 3.0

  /** `1 << i` is defined for `i` up to 30 only. */
  const MaxSidebands: int := 30

  /** The source converts a double to `int` by truncation toward zero. */
  function Trunc(x: real): (n: int)
    ensures 0.0 <= x ==> n as real <= x < n as real + 1.0
    ensures x < 0.0 ==> n as real - 1.0 < x <= n as real
  {
    if x >= 0.0 then x.Floor else -((-x).Floor)
  }

  /** `1 << i`. */
  function Pow2(i: nat): (p: nat)
    ensures p >= 1
  {
    if i == 0 then 1 else 2 * Pow2(i - 1)
  }

  /** A half-open window `[begin, end)` of buffer slots, the pair of
      iterators `clamp_it` returns, given as indices. */
  datatype Range = Range(begin: nat, end: nat) {
    predicate Contains(k: int) {
      begin <= k < end
    }
  }

  /** `clamp_it`: the window `[offsetBegin, offsetEnd)` clamped to a buffer
      of `size` slots. It holds exactly the slots of the buffer that lie in
      `[offsetBegin, offsetEnd)`, and it is empty when `offsetEnd <= offsetBegin`. */
  function ClampIt(size: nat, offsetBegin: int, offsetEnd: int): (w: Range)
    ensures w.begin <= w.end <= size
    ensures forall k :: w.Contains(k) <==> 0 <= k < size && offsetBegin <= k < offsetEnd
  {
    var first := ClampInt(offsetBegin, 0, size);
    var last := ClampInt(offsetEnd, first, size);
    Range(first, last)
  }

  /** One peak as the painter lays it down: its centre `local_offset`, the
      modulation's `sigma` and its height `power`. */
  datatype Peak = Peak(centre: real, sigma: real, power: real) {
    /** `peak_width`. */
    function Width(): real {
      sigma * PeakWidthFactor
    }

    /** The slots the peak reaches, before clamping to the buffer: from the
        truncated left edge up to, but excluding, the truncated right edge. */
    predicate Reaches(k: int) {
      Trunc(centre - Width()) <= k < Trunc(centre + Width())
    }
  }

  /** What a peak adds to slot `k`: the bell at `k` scaled by the power,
      inside the reach, and nothing outside it. */
  function Contribution(p: Peak, g: Gaussian, k: int): real
  {
    if p.Reaches(k) then g(k as real, p.centre, p.sigma) * p.power else 0.0
  }

  /** The window `clamp_it` computes for a peak in a buffer of `size` slots. */
  function Window(size: nat, p: Peak): (w: Range)
    ensures w.end <= size
  {
    ClampIt(size, Trunc(p.centre - p.Width()), Trunc(p.centre + p.Width()))
  }

  /** One peak painted into `s`: the slots of its clamped window get the bell
      scaled by the power added; the length is unchanged. */
  function Paint(s: seq<real>, p: Peak, g: Gaussian): (r: seq<real>)
    ensures |r| == |s|
  {
    var w := Window(|s|, p);
    seq(|s|, k requires 0 <= k < |s| =>
      if w.Contains(k) then s[k] + g(k as real, p.centre, p.sigma) * p.power else s[k])
  }

  lemma PaintInWindow(s: seq<real>, p: Peak, g: Gaussian, k: int)
    requires 0 <= k < |s|
    ensures Paint(s, p, g)[k]
         == if Window(|s|, p).Contains(k) then s[k] + g(k as real, p.centre, p.sigma) * p.power else s[k]
  {
  }

  /** Every slot gets the peak's contribution: slots outside its reach are
      left as they were. */
  lemma PaintSlot(s: seq<real>, p: Peak, g: Gaussian, k: int)
    requires 0 <= k < |s|
    ensures Paint(s, p, g)[k] == s[k] + Contribution(p, g, k)
  {
  }

  /** The peaks `ps` painted into `s` one after the other, first to last. */
  function PaintAll(s: seq<real>, ps: seq<Peak>, g: Gaussian): (r: seq<real>)
    ensures |r| == |s|
    decreases |ps|
  {
    if ps == [] then s else Paint(PaintAll(s, ps[..|ps| - 1], g), ps[|ps| - 1], g)
  }

  /** Painting two lists of peaks is painting their concatenation. */
  lemma {:induction false} PaintAllAppend(s: seq<real>, ps: seq<Peak>, qs: seq<Peak>, g: Gaussian)
    ensures PaintAll(s, ps + qs, g) == PaintAll(PaintAll(s, ps, g), qs, g)
    decreases |qs|
  {
    if qs != [] {
      var front := qs[..|qs| - 1];
      assert (ps + qs)[..|ps + qs| - 1] == ps + front;
      PaintAllAppend(s, ps, front, g);
    } else {
      assert ps + qs == ps;
    }
  }

  // ---------------------------------------------------------------------
  // The sideband tree at one cursor position

  /** `inv_pow2` at order `i`. */
  function InvPow2(i: nat): real
  {
    1.0 / Pow2(i) as real
  }

  /** `power` at order `i`: the main height scaled by `1 / 2^i`. */
  function OrderPower(m: ModulationOps, i: nat): real
  {
    m.snr * InvPow2(i)
  }

  /** `local_offset` for peak `j` of order `i` at cursor `offset`: the first
      peak sits at `offset + sideband_offset * (inv_pow2 - 1)`, and every
      further one `sideband_offset * inv_pow2 * 2` to the right of the one
      before. */
  function Centre(offset: int, m: ModulationOps, i: nat, j: nat): real
  {
    if j == 0 then offset as real + m.sidebandOffset * (InvPow2(i) - 1.0)
    else Centre(offset, m, i, j - 1) + m.sidebandOffset * InvPow2(i) * 2.0
  }

  /** The `2^i` peaks of order `i`, in painting order. */
  function OrderPeaks(offset: int, m: ModulationOps, i: nat): (ps: seq<Peak>)
    ensures |ps| == Pow2(i)
  {
    seq(Pow2(i), j requires 0 <= j < Pow2(i) => Peak(Centre(offset, m, i, j), m.sigma, OrderPower(m, i)))
  }

  /** The number of orders painted: `sidebands + 1`, or none when
      `sidebands` is negative. */
  function Orders(m: ModulationOps): nat
  {
    if m.sidebands < 0 then 0 else m.sidebands + 1
  }

  /** The peaks of orders `0 .. n-1`, in painting order: `2^n - 1` of them. */
  function OrdersBelow(offset: int, m: ModulationOps, n: nat): (ps: seq<Peak>)
    ensures |ps| == Pow2(n) - 1
  {
    if n == 0 then [] else OrdersBelow(offset, m, n - 1) + OrderPeaks(offset, m, n - 1)
  }

  /** Every peak painted at cursor position `offset`. */
  function CombPeaks(offset: int, m: ModulationOps): (ps: seq<Peak>)
    ensures |ps| == Pow2(Orders(m)) - 1
    ensures m.sidebands >= 0 ==> |ps| == Pow2(m.sidebands + 1) - 1
  {
    OrdersBelow(offset, m, Orders(m))
  }

  // ---------------------------------------------------------------------
  // The comb: cursor positions of one modulation

  /** The sweep goes on while the cursor is below `points + frequency`. */
  predicate Continues(m: ModulationOps, points: int, offset: int)
  {
    (offset as real) < points as real + m.frequency
  }

  /** The sweep of a modulation ends: either the cursor advances by at least
      one slot per step, or the loop is never entered. */
  predicate SweepEnds(m: ModulationOps, points: int)
  {
    m.frequency >= 1.0 || !Continues(m, points, StartOffset)
  }

  /** What the source needs of a modulation: the sweep ends, and, when the
      sweep is entered at all, `1 << i` stays a positive `int`. */
  predicate ValidModulation(m: ModulationOps, points: int)
  {
    SweepEnds(m, points) && (Continues(m, points, StartOffset) ==> m.sidebands <= MaxSidebands)
  }

  /** The cursor positions visited from `offset` on, in order. */
  function Cursors(m: ModulationOps, points: int, offset: int): (cs: seq<int>)
    requires m.frequency >= 1.0 || !Continues(m, points, offset)
    decreases (points as real + m.frequency).Floor + 1 - offset
  {
    if Continues(m, points, offset) then
      [offset] + Cursors(m, points, Trunc(offset as real + m.frequency))
    else
      []
  }

  /** The sweep visits `offset` first, every position it visits is below
      `points + frequency`, each is the truncation of the previous one plus
      `frequency`, and the position after the last one ends the sweep. */
  lemma {:induction false} CursorsSweep(m: ModulationOps, points: int, offset: int)
    requires m.frequency >= 1.0 || !Continues(m, points, offset)
    ensures var cs := Cursors(m, points, offset);
      && (|cs| == 0 <==> !Continues(m, points, offset))
      && (|cs| > 0 ==> cs[0] == offset)
      && (forall t :: 0 <= t < |cs| ==> Continues(m, points, cs[t]))
      && (forall t :: 0 < t < |cs| ==> cs[t] == Trunc(cs[t - 1] as real + m.frequency))
      && (|cs| > 0 ==> !Continues(m, points, Trunc(cs[|cs| - 1] as real + m.frequency)))
    decreases (points as real + m.frequency).Floor + 1 - offset
  {
    if Continues(m, points, offset) {
      var next := Trunc(offset as real + m.frequency);
      CursorsSweep(m, points, next);
      var cs, rest := Cursors(m, points, offset), Cursors(m, points, next);
      assert cs == [offset] + rest;
      forall t | 0 < t < |cs|
        ensures cs[t] == Trunc(cs[t - 1] as real + m.frequency)
      {
        if t > 1 {
          assert cs[t] == rest[t - 1] && cs[t - 1] == rest[t - 2];
        }
      }
    }
  }

  /** The peaks painted at the cursor positions `cs`, in order. */
  function CombsAt(cs: seq<int>, m: ModulationOps): seq<Peak>
  {
    if cs == [] then [] else CombsAt(cs[..|cs| - 1], m) + CombPeaks(cs[|cs| - 1], m)
  }

  /** Every peak one modulation paints into a buffer of `points` slots. */
  function ModulationPeaks(m: ModulationOps, points: int): seq<Peak>
    requires SweepEnds(m, points)
  {
    CombsAt(Cursors(m, points, StartOffset), m)
  }

  /** Every peak the modulations `mods` paint, first modulation first. */
  function AllPeaks(mods: seq<ModulationOps>, points: int): seq<Peak>
    requires forall t :: 0 <= t < |mods| ==> SweepEnds(mods[t], points)
  {
    if mods == [] then [] else AllPeaks(mods[..|mods| - 1], points) + ModulationPeaks(mods[|mods| - 1], points)
  }

  function Zeros(n: nat): (z: seq<real>)
    ensures |z| == n && forall k :: 0 <= k < n ==> z[k] == 0.0
  {
    seq(n, _ => 0.0)
  }

  /** The final pass: one noise sample added to every slot. */
  function AddNoise(s: seq<real>, noise: seq<real>): (r: seq<real>)
    requires |noise| == |s|
    ensures |r| == |s| && forall k :: 0 <= k < |s| ==> r[k] == s[k] + noise[k]
  {
    seq(|s|, k requires 0 <= k < |s| => s[k] + noise[k])
  }

  predicate ValidOps(ops: SpectrumOps)
  {
    forall t :: 0 <= t < |ops.modulation| ==> ValidModulation(ops.modulation[t], ops.points)
  }

  /** The spectrum the generator returns for `ops`, given the noise draws. */
  function SpectrumOf(ops: SpectrumOps, noise: seq<real>, g: Gaussian): (r: seq<real>)
    requires ops.points >= 0 && ValidOps(ops) && |noise| == ops.points
    ensures |r| == ops.points
  {
    AddNoise(PaintAll(Zeros(ops.points), AllPeaks(ops.modulation, ops.points), g), noise)
  }

  // ---------------------------------------------------------------------
  // The painter

  /** The `std::transform` over a window: the sampler starts at the window's
      first index and advances by one per slot, and every slot of the window
      gets the bell at the sampler, scaled by the power, added. */
  method TransformWindow(a: array<real>, range: Range, p: Peak, g: Gaussian)
    requires range.begin <= range.end <= a.Length
    modifies a
    ensures forall q :: range.Contains(q) ==> a[q] == old(a[q]) + g(q as real, p.centre, p.sigma) * p.power
    ensures forall q :: 0 <= q < a.Length && !range.Contains(q) ==> a[q] == old(a[q])
  {
    var sampler := range.begin as real;
    var k := range.begin;
    while k < range.end
      invariant range.begin <= k <= range.end
      invariant sampler == k as real
      invariant forall q :: range.begin <= q < k ==> a[q] == old(a[q]) + g(q as real, p.centre, p.sigma) * p.power
      invariant forall q :: 0 <= q < range.begin || k <= q < a.Length ==> a[q] == old(a[q])
    {
      a[k] := a[k] + g(sampler, p.centre, p.sigma) * p.power;
      sampler := sampler + 1.0;
      k := k + 1;
    }
  }

  /** One peak: `clamp_it` on `local_offset -/+ peak_width`, then the
      transform over that window. */
  method PaintPeak(a: array<real>, p: Peak, g: Gaussian)
    modifies a
    ensures a[..] == Paint(old(a[..]), p, g)
  {
    var peakWidth := p.Width();
    var range := ClampIt(a.Length, Trunc(p.centre - peakWidth), Trunc(p.centre + peakWidth));
    TransformWindow(a, range, p, g);
    ghost var painted := Paint(old(a[..]), p, g);
    forall q | 0 <= q < a.Length
      ensures a[q] == painted[q]
    {
      PaintInWindow(old(a[..]), p, g, q);
    }
  }

  /** The inner `for` loop at order `i`: `2^i` peaks of height
      `snr / 2^i`, the first at `offset + sideband_offset * (inv_pow2 - 1)`,
      each further one `sideband_offset * inv_pow2 * 2` to the right. */
  method PaintOrder(a: array<real>, offset: int, m: ModulationOps, i: nat, g: Gaussian)
    modifies a
    ensures a[..] == PaintAll(old(a[..]), OrderPeaks(offset, m, i), g)
  {
    var pow2 := Pow2(i);
    var invPow2 := 1.0 / pow2 as real;
    var power := m.snr * invPow2;
    assert power == OrderPower(m, i);
    var localOffset := offset as real + m.sidebandOffset * (invPow2 - 1.0);
    ghost var order := OrderPeaks(offset, m, i);
    var j := 0;
    while j < pow2
      invariant 0 <= j <= pow2
      invariant localOffset == Centre(offset, m, i, j)
      invariant a[..] == PaintAll(old(a[..]), order[..j], g)
    {
      OrderPeakAt(offset, m, i, j);
      PaintNextPeak(old(a[..]), order, j, g);
      ghost var prev := a[..];
      var peak := Peak(localOffset, m.sigma, power);
      assert peak == order[j];
      PaintPeak(a, peak, g);
      assert a[..] == Paint(prev, order[j], g);
      localOffset := localOffset + m.sidebandOffset * invPow2 * 2.0;
      j := j + 1;
    }
    assert order[..pow2] == order;
  }

  lemma OrderPeakAt(offset: int, m: ModulationOps, i: nat, j: nat)
    requires j < Pow2(i)
    ensures OrderPeaks(offset, m, i)[j] == Peak(Centre(offset, m, i, j), m.sigma, OrderPower(m, i))
  {
  }

  lemma PaintNextPeak(s: seq<real>, ps: seq<Peak>, j: nat, g: Gaussian)
    requires j < |ps|
    ensures PaintAll(s, ps[..j + 1], g) == Paint(PaintAll(s, ps[..j], g), ps[j], g)
  {
    assert ps[..j + 1][..j] == ps[..j];
  }

  lemma PaintNextOrder(s: seq<real>, offset: int, m: ModulationOps, i: nat, g: Gaussian)
    ensures PaintAll(s, OrdersBelow(offset, m, i + 1), g)
         == PaintAll(PaintAll(s, OrdersBelow(offset, m, i), g), OrderPeaks(offset, m, i), g)
  {
    PaintAllAppend(s, OrdersBelow(offset, m, i), OrderPeaks(offset, m, i), g);
  }

  /** The `for` loop over the orders `0 ..= sidebands` at one cursor position. */
  method PaintComb(a: array<real>, offset: int, m: ModulationOps, g: Gaussian)
    requires m.sidebands <= MaxSidebands
    modifies a
    ensures a[..] == PaintAll(old(a[..]), CombPeaks(offset, m), g)
  {
    var i := 0;
    while i <= m.sidebands
      invariant 0 <= i <= Orders(m)
      invariant a[..] == PaintAll(old(a[..]), OrdersBelow(offset, m, i), g)
    {
      PaintOrder(a, offset, m, i, g);
      PaintNextOrder(old(a[..]), offset, m, i, g);
      i := i + 1;
    }
    assert i == Orders(m);
  }

  lemma PaintNextComb(s: seq<real>, done: seq<int>, offset: int, m: ModulationOps, g: Gaussian)
    ensures PaintAll(s, CombsAt(done + [offset], m), g)
         == PaintAll(PaintAll(s, CombsAt(done, m), g), CombPeaks(offset, m), g)
  {
    assert (done + [offset])[..|done|] == done;
    PaintAllAppend(s, CombsAt(done, m), CombPeaks(offset, m), g);
  }

  lemma CursorsStep(m: ModulationOps, points: int, offset: int, done: seq<int>)
    requires m.frequency >= 1.0 && Continues(m, points, offset)
    ensures done + Cursors(m, points, offset)
         == (done + [offset]) + Cursors(m, points, Trunc(offset as real + m.frequency))
  {
  }

  /** The `while` loop of one modulation: the cursor starts at 128 and moves
      on by `frequency`, truncated to `int`, until it passes
      `points + frequency`. */
  method PaintModulation(a: array<real>, m: ModulationOps, g: Gaussian)
    requires ValidModulation(m, a.Length)
    modifies a
    ensures a[..] == PaintAll(old(a[..]), ModulationPeaks(m, a.Length), g)
  {
    var offset := StartOffset;
    ghost var done: seq<int> := [];
    while (offset as real) < a.Length as real + m.frequency
      invariant m.frequency >= 1.0 || !Continues(m, a.Length, offset)
      invariant StartOffset <= offset
      invariant Cursors(m, a.Length, StartOffset) == done + Cursors(m, a.Length, offset)
      invariant a[..] == PaintAll(old(a[..]), CombsAt(done, m), g)
      decreases (a.Length as real + m.frequency).Floor + 1 - offset
    {
      PaintComb(a, offset, m, g);
      PaintNextComb(old(a[..]), done, offset, m, g);
      CursorsStep(m, a.Length, offset, done);
      done := done + [offset];
      offset := Trunc(offset as real + m.frequency);
    }
    assert done + Cursors(m, a.Length, offset) == done;
  }

  /** The final `std::transform`: one noise draw added to every slot, in slot
      order. */
  method AddNoiseInPlace(a: array<real>, noise: seq<real>)
    requires |noise| == a.Length
    modifies a
    ensures a[..] == AddNoise(old(a[..]), noise)
  {
    var k := 0;
    while k < a.Length
      invariant 0 <= k <= a.Length
      invariant forall q :: 0 <= q < k ==> a[q] == old(a[q]) + noise[q]
      invariant forall q :: k <= q < a.Length ==> a[q] == old(a[q])
    {
      a[k] := a[k] + noise[k];
      k := k + 1;
    }
    ghost var noisy := AddNoise(old(a[..]), noise);
    assert forall q :: 0 <= q < a.Length ==> a[q] == noisy[q];
  }

  lemma PaintNextModulation(s: seq<real>, mods: seq<ModulationOps>, t: nat, points: int, g: Gaussian)
    requires t < |mods| && forall u :: 0 <= u < |mods| ==> SweepEnds(mods[u], points)
    ensures PaintAll(s, AllPeaks(mods[..t + 1], points), g)
         == PaintAll(PaintAll(s, AllPeaks(mods[..t], points), g), ModulationPeaks(mods[t], points), g)
  {
    assert mods[..t + 1][..t] == mods[..t];
    PaintAllAppend(s, AllPeaks(mods[..t], points), ModulationPeaks(mods[t], points), g);
  }

  /** `operator()`: a zero buffer of `points` slots, every modulation painted
      into it in order, then one noise sample added to every slot. A negative
      `points` makes the vector constructor throw. */
  method Generate(ops: SpectrumOps, noise: seq<real>, g: Gaussian) returns (r: Result<seq<real>>)
    requires ops.points >= 0 ==> ValidOps(ops) && |noise| == ops.points
    ensures ops.points < 0 ==> r == Failure(LengthError)
    ensures ops.points >= 0 ==> r == Success(SpectrumOf(ops, noise, g))
  {
    if ops.points < 0 {
      return Failure(LengthError);
    }
    var spectrum := new real[ops.points](_ => 0.0);
    assert spectrum[..] == Zeros(ops.points);
    var mods := ops.modulation;
    var t := 0;
    while t < |mods|
      invariant 0 <= t <= |mods|
      invariant spectrum[..] == PaintAll(Zeros(ops.points), AllPeaks(mods[..t], ops.points), g)
    {
      PaintModulation(spectrum, mods[t], g);
      PaintNextModulation(Zeros(ops.points), mods, t, ops.points, g);
      t := t + 1;
    }
    assert mods[..t] == mods;
    AddNoiseInPlace(spectrum, noise);
    return Success(spectrum[..]);
  }
}
