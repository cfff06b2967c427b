/** The arithmetic of a paced run: cyclic turns, and starts that keep a rate. */
module Pacing {

  lemma NextTurn(i: nat, n: nat)
    requires n > 0
    ensures (i + 1) % n == if i % n + 1 == n then 0 else i % n + 1
  {
    var q, r := i / n, i % n;
    assert i == q * n + r;
    if r + 1 == n {
      assert i + 1 == (q + 1) * n;
      Remainder(q + 1, n, 0);
    } else {
      assert i + 1 == q * n + (r + 1);
      Remainder(q, n, r + 1);
    }
  }

  lemma Remainder(q: nat, n: nat, r: nat)
    requires r < n
    ensures (q * n + r) % n == r
  {
    var x := q * n + r;
    var d := x / n - q;
    assert d * n == r - x % n;
    if d >= 1 { MultipleAtLeast(d, n); }
    if -d >= 1 { MultipleAtLeast(-d, n); }
  }

  lemma MultipleAtLeast(d: int, n: nat)
    requires d >= 1
    ensures d * n >= n
  {
  }

  lemma Gap(rate: real)
    requires rate > 0.0
    ensures 1.0 / rate > 0.0 && (1.0 / rate) * rate == 1.0
  {
  }

  ghost predicate Spaced(starts: seq<real>, gap: real) {
    forall k | 0 < k < |starts| :: starts[k] - starts[k - 1] >= gap
  }

  /** Consecutive spacing adds up. */
  lemma {:induction false} SpacedFrom(starts: seq<real>, gap: real, i: nat, j: nat)
    requires Spaced(starts, gap) && i <= j < |starts|
    ensures starts[j] - starts[i] >= (j - i) as real * gap
  {
    if i < j {
      SpacedFrom(starts, gap, i, j - 1);
      assert (j - i) as real * gap == (j - 1 - i) as real * gap + gap;
    }
  }

  /** Spaced starts that all lie within the duration are at most `rate * duration + 1`. */
  lemma {:induction false} StartsBounded(starts: seq<real>, rate: real, began: real, duration: real)
    requires rate > 0.0 && starts != [] && Spaced(starts, 1.0 / rate)
    requires starts[0] >= began && starts[|starts| - 1] < began + duration
    ensures (|starts| - 1) as real < rate * duration
  {
    var n, gap := (|starts| - 1) as real, 1.0 / rate;
    Gap(rate);
    SpacedFrom(starts, gap, 0, |starts| - 1);
    assert n * gap < duration;
    ScaledLess(n * gap, duration, rate);
    assert (n * gap) * rate == n * (gap * rate);
  }

  lemma ScaledLess(a: real, b: real, c: real)
    requires a < b && c > 0.0
    ensures a * c < b * c
  {
    assert (b - a) * c > 0.0;
  }

  /** Any two starts are as far apart as the rate asks, all lie within the run, and so their number is bounded. */
  ghost predicate KeepsRate(starts: seq<real>, rate: real, began: real, next: real, duration: real)
    requires rate > 0.0
  {
    && FarApart(starts, 1.0 / rate)
    && (forall k | 0 <= k < |starts| :: next <= starts[k] < began + duration)
    && (starts != [] ==> (|starts| - 1) as real < rate * duration)
  }

  /** Any two starts are as many gaps apart as they are turns apart. */
  ghost predicate FarApart(starts: seq<real>, gap: real) {
    forall i, j | 0 <= i <= j < |starts| :: starts[j] - starts[i] >= (j - i) as real * gap
  }

  lemma {:induction false} SpacedAll(starts: seq<real>, gap: real)
    requires Spaced(starts, gap)
    ensures FarApart(starts, gap)
  {
    forall i, j | 0 <= i <= j < |starts| ensures starts[j] - starts[i] >= (j - i) as real * gap {
      SpacedFrom(starts, gap, i, j);
    }
  }

  lemma {:induction false} RateKept(starts: seq<real>, rate: real, began: real, next: real, duration: real)
    requires rate > 0.0 && began <= next && Spaced(starts, 1.0 / rate)
    requires forall k | 0 <= k < |starts| :: next <= starts[k] < began + duration
    ensures KeepsRate(starts, rate, began, next, duration)
  {
    SpacedAll(starts, 1.0 / rate);
    if starts != [] {
      StartsBounded(starts, rate, began, duration);
    }
  }
}
