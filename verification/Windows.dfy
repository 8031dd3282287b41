/** Time windows (internal/partition/router.go, internal/partition/partition.go). */
module Windows {
  import opened Bytes

  /** A positive partition duration in nanoseconds. */
  type Duration = d: int | 0 < d <= 0x7FFF_FFFF_FFFF_FFFF witness 1

  datatype Window = Window(start: int, end: int) {
    /** PartitionWindow.Overlaps. */
    predicate Overlaps(lo: int, hi: int) {
      start < hi && end > lo
    }

    predicate Contains(ts: int) {
      start <= ts < end
    }
  }

  /** Two non-empty intervals overlap exactly when some timestamp lies in both. */
  lemma OverlapsIff(w: Window, lo: int, hi: int)
    requires w.start < w.end && lo < hi
    ensures w.Overlaps(lo, hi) <==> exists ts :: w.Contains(ts) && lo <= ts < hi
  {
    if w.Overlaps(lo, hi) {
      assert w.Contains(if lo < w.start then w.start else lo);
    }
  }

  /** Go int64 arithmetic wraps around. */
  function Wrap64(x: int): (r: int)
    ensures MIN_INT64 <= r <= MAX_INT64
    ensures MIN_INT64 <= x <= MAX_INT64 ==> r == x
  {
    (x + 0x8000_0000_0000_0000) % TWO_64 - 0x8000_0000_0000_0000
  }

  /** floorDiv: truncated division corrected by one when the signs differ and it is inexact. */
  function FloorDiv(a: int, b: int): int
    requires b != 0
  {
    var q := GoDiv(a, b);
    if (a < 0) != (b < 0) && q * b != a then q - 1 else q
  }

  lemma FloorDivIsFloor(a: int, b: int)
    requires b > 0
    ensures FloorDiv(a, b) * b <= a < FloorDiv(a, b) * b + b
  {
    if a < 0 {
      assert -a == (-a / b) * b + (-a) % b;
      assert (-(-a / b)) * b == -((-a / b) * b);
      assert (-(-a / b) - 1) * b == -((-a / b) * b) - b;
    }
  }

  /** Router.windowFor. */
  function WindowFor(ts: Int64, d: Duration): Window {
    var start := Wrap64(FloorDiv(ts, d) * d);
    Window(start, Wrap64(start + d))
  }

  /** The mathematical start of the aligned window holding ts. */
  function WindowStart(ts: int, d: Duration): int {
    FloorDiv(ts, d) * d
  }

  /** No bound of ts's window leaves the int64 range. */
  predicate WindowFits(ts: int, d: Duration) {
    MIN_INT64 <= WindowStart(ts, d) && WindowStart(ts, d) + d <= MAX_INT64
  }

  /** The computed window holds its timestamp exactly when neither bound overflows. */
  lemma WindowHoldsTimestamp(ts: Int64, d: Duration)
    ensures WindowFor(ts, d).Contains(ts) <==> WindowFits(ts, d)
    ensures WindowFits(ts, d) ==> WindowFor(ts, d) == Window(WindowStart(ts, d), WindowStart(ts, d) + d)
  {
    FloorDivIsFloor(ts, d);
    var s := WindowStart(ts, d);
    if s < MIN_INT64 {
      assert s > ts - d >= MIN_INT64 - TWO_64 / 2;
      assert Wrap64(s) == s + TWO_64;
    } else if s + d > MAX_INT64 {
      assert Wrap64(s + d) == s + d - TWO_64;
    }
  }

  lemma MultiplesApart(q: int, p: int, d: int)
    requires d > 0 && q < p
    ensures q * d + d <= p * d
  {
    assert (p - q - 1) * d >= 0;
    assert (p - q - 1) * d == p * d - q * d - d;
  }

  /** Windows tile time: two timestamps share a window, or their windows are disjoint. */
  lemma WindowsTile(a: Int64, b: Int64, d: Duration)
    requires WindowFits(a, d) && WindowFits(b, d)
    ensures WindowFor(a, d).Contains(b) <==> WindowFor(b, d) == WindowFor(a, d)
    ensures WindowFor(a, d) != WindowFor(b, d) ==>
              WindowFor(a, d).end <= WindowFor(b, d).start || WindowFor(b, d).end <= WindowFor(a, d).start
  {
    WindowHoldsTimestamp(a, d);
    WindowHoldsTimestamp(b, d);
    FloorDivIsFloor(a, d);
    FloorDivIsFloor(b, d);
    var q, p := FloorDiv(a, d), FloorDiv(b, d);
    if q < p { MultiplesApart(q, p, d); } else if p < q { MultiplesApart(p, q, d); }
  }

  predicate PowerOfTwo(x: nat) {
    x == 1 || (x > 1 && x % 2 == 0 && PowerOfTwo(x / 2))
  }

  /** The only odd divisor of a power of two is 1. */
  lemma {:induction false} OddDivisor(n: nat, d: nat, x: nat)
    requires PowerOfTwo(x) && n % 2 == 1 && n * d == x
    ensures n == 1
  {
    if x > 1 {
      assert n * d == 2 * (n / 2 * d) + d;
      assert d % 2 == 0 && 2 * (n * (d / 2)) == x;
      OddDivisor(n, d / 2, x / 2);
    }
  }

  lemma ScaledLe(a: int, b: int, d: int)
    requires a <= b && d > 0
    ensures a * d <= b * d
  {}

  /** A multiple of d above -h - d, for h a multiple of d, is not below -h. */
  lemma AlignedBelow(q: int, m: int, d: int)
    requires d > 0 && (-m - 1) * d < q * d
    ensures -m <= q
  {
    if q <= -m - 1 { ScaledLe(q, -m - 1, d); }
  }

  /** q * d and (q + n) * d cannot lie a power of two 2 * h apart on both sides of [-h, h). */
  lemma WrappedStart(q: int, n: nat, d: nat, h: int)
    requires 0 < d < h && PowerOfTwo(2 * h) && n * d == 2 * h && -h - d < q * d
    ensures (q + n) * d >= h
  {
    if n % 2 == 1 { OddDivisor(n, d, 2 * h); }
    var m := n / 2;
    assert n == 2 * m;
    HalfOf(m, d, h);
    AlignedBelow(q, m, d);
    ScaledLe(m, q + n, d);
  }

  lemma HalfOf(m: int, d: int, h: int)
    requires 2 * m * d == 2 * h
    ensures m * d == h && (-m - 1) * d == -h - d
  {
    assert 2 * m * d == 2 * (m * d);
    assert (-m - 1) * d == -(m * d) - d;
  }

  /** Two starts that the int64 arithmetic does not tell apart are equal. */
  lemma StartsApart(a: Int64, b: Int64, d: Duration)
    requires WindowStart(b, d) != WindowStart(a, d) + TWO_64 ==> WindowStart(b, d) <= WindowStart(a, d)
    ensures WindowStart(b, d) <= WindowStart(a, d)
  {
    FloorDivIsFloor(a, d);
    FloorDivIsFloor(b, d);
    if WindowStart(b, d) == WindowStart(a, d) + TWO_64 {
      WordSize();
      FarStart(FloorDiv(a, d), FloorDiv(b, d), d, 0x8000_0000_0000_0000);
    }
  }

  lemma WordSize()
    ensures PowerOfTwo(2 * 0x8000_0000_0000_0000)
  {
    assert PowerOfTwo(0x100);
    PowersMultiply(0x100, 0x100);
    PowersMultiply(0x1_0000, 0x1_0000);
    PowersMultiply(0x1_0000_0000, 0x1_0000_0000);
  }

  lemma {:induction false} PowersMultiply(x: nat, y: nat)
    requires PowerOfTwo(x) && PowerOfTwo(y)
    ensures PowerOfTwo(x * y)
  {
    if y > 1 {
      PowersMultiply(x, y / 2);
      assert x * y == 2 * (x * (y / 2));
      assert x * (y / 2) >= 1;
    }
  }

  lemma FarStart(q: int, p: int, d: nat, h: int)
    requires 0 < d < h && PowerOfTwo(2 * h) && p * d == q * d + 2 * h && -h - d < q * d
    ensures p * d >= h
  {
    assert (p - q) * d == p * d - q * d;
    if p <= q { ScaledLe(p, q, d); }
    WrappedStart(q, p - q, d, h);
  }

  /** The start of the aligned window identifies the router's window, also where a bound overflows. */
  lemma WindowKey(a: Int64, b: Int64, d: Duration)
    ensures WindowFor(a, d) == WindowFor(b, d) <==> WindowStart(a, d) == WindowStart(b, d)
  {
    var s, t := WindowStart(a, d), WindowStart(b, d);
    if Wrap64(s) == Wrap64(t) {
      SameWrap(a, b, d);
      StartsApart(a, b, d);
      StartsApart(b, a, d);
    }
  }

  lemma SameWrap(a: Int64, b: Int64, d: Duration)
    requires Wrap64(WindowStart(a, d)) == Wrap64(WindowStart(b, d))
    ensures WindowStart(b, d) - WindowStart(a, d) in {0, TWO_64, -TWO_64}
  {
    FloorDivIsFloor(a, d);
    FloorDivIsFloor(b, d);
  }
}
