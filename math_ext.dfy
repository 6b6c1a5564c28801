/** Mathematical helpers of the spectrum generator: clamping and the
    Gaussian bell used to shape every peak. */
module MathExt {

  /** The four-argument clamp: `v` bounded to `[lo, hi]` under the strict
      comparator `less`. The source asserts `!less(hi, lo)`; a violation is a
      programming error, so it is a precondition here. */
  function Clamp<T(==)>(v: T, lo: T, hi: T, less: (T, T) -> bool): (r: T)
    requires !less(hi, lo)
    ensures r == v || r == lo || r == hi
    ensures less(v, lo) ==> r == lo
    ensures !less(v, lo) && less(hi, v) ==> r == hi
    ensures !less(v, lo) && !less(hi, v) ==> r == v
    ensures !less(lo, lo) && !less(hi, hi) ==> !less(r, lo) && !less(hi, r)
  {
    if less(v, lo) then lo else if less(hi, v) then hi else v
  }

  /** The three-argument clamp on `int`, which delegates to the comparator
      form with `<`. */
  function ClampInt(v: int, lo: int, hi: int): (r: int)
    requires lo <= hi
    ensures lo <= r <= hi
    ensures v < lo ==> r == lo
    ensures hi < v ==> r == hi
    ensures lo <= v <= hi ==> r == v
  {
    Clamp(v, lo, hi, (a: int, b: int) => a < b)
  }

  /** Clamping a value that is already clamped changes nothing, for any
      comparator. */
  lemma ClampIdempotent<T>(v: T, lo: T, hi: T, less: (T, T) -> bool)
    requires !less(hi, lo)
    ensures Clamp(Clamp(v, lo, hi, less), lo, hi, less) == Clamp(v, lo, hi, less)
  {
  }

  /** The three-argument clamp is idempotent. */
  lemma ClampIntIdempotent(v: int, lo: int, hi: int)
    requires lo <= hi
    ensures ClampInt(ClampInt(v, lo, hi), lo, hi) == ClampInt(v, lo, hi)
  {
  }

  /** The shape of `guass(val, mean, sigma)`: `exp(-(val-mean)^2 / (2 sigma^2))`.
      The exponential itself is not modelled; a Gaussian is any function of
      this signature that keeps the promises of `IsGuass`. */
  type Gaussian = (real, real, real) -> real

  /** What `guass` promises for a positive width: its value lies in (0, 1]
      and it is 1 at the mean. Because its formula squares `val - mean`, it
      also depends on `val` only through the distance `|val - mean|`. */
  ghost predicate IsGuass(g: Gaussian)
  {
    && (forall val, mean, sigma :: sigma > 0.0 ==> 0.0 < g(val, mean, sigma) <= 1.0)
    && (forall mean, sigma :: sigma > 0.0 ==> g(mean, mean, sigma) == 1.0)
    && (forall v1, v2, mean, sigma ::
          sigma > 0.0 && Distance(v1, mean) == Distance(v2, mean)
          ==> g(v1, mean, sigma) == g(v2, mean, sigma))
  }

  /** The bell is highest at its mean. */
  lemma GuassMaximumAtMean(g: Gaussian, val: real, mean: real, sigma: real)
    requires IsGuass(g) && sigma > 0.0
    ensures 0.0 < g(val, mean, sigma) <= g(mean, mean, sigma) == 1.0
  {
  }

  /** The bell is symmetric about its mean. */
  lemma GuassSymmetric(g: Gaussian, d: real, mean: real, sigma: real)
    requires IsGuass(g) && sigma > 0.0
    ensures g(mean + d, mean, sigma) == g(mean - d, mean, sigma)
  {
    assert Distance(mean + d, mean) == Distance(mean - d, mean);
  }

  function Distance(a: real, b: real): (r: real)
    ensures r >= 0.0 && (r == 0.0 <==> a == b)
  {
    if a < b then b - a else a - b
  }

  /** A rational bell `1 / (1 + |val - mean| / sigma)`, which keeps the same
      promises as `guass`; it shows that `IsGuass` can be met. */
  function RationalBell(val: real, mean: real, sigma: real): real
  {
    if sigma > 0.0 then 1.0 / (1.0 + Ratio(Distance(val, mean), sigma)) else 1.0
  }

  function Ratio(a: real, b: real): (r: real)
    requires a >= 0.0 && b > 0.0
    ensures r >= 0.0 && (a == 0.0 ==> r == 0.0)
  {
    a / b
  }

  lemma RationalBellIsGuass()
    ensures IsGuass(RationalBell)
  {
  }
}
