/** Bytes, fixed-width integers and the little-endian encoding used by every on-disk format. */
module Bytes {
  type Byte = b: int | 0 <= b < 256
  type Data = seq<Byte>

  const MIN_INT64: int := -0x8000_0000_0000_0000
  const MAX_INT64: int := 0x7FFF_FFFF_FFFF_FFFF
  const TWO_32: int := 0x1_0000_0000
  const TWO_64: int := 0x1_0000_0000_0000_0000

  type Int64 = x: int | -0x8000_0000_0000_0000 <= x <= 0x7FFF_FFFF_FFFF_FFFF
  type Uint32 = x: int | 0 <= x < 0x1_0000_0000

  datatype Option<+T> = None | Some(value: T)

  function Min(a: int, b: int): (r: int)
    ensures r <= a && r <= b && (r == a || r == b)
  {
    if a <= b then a else b
  }

  lemma SubSlice(s: Data, i: nat, j: nat, a: nat, b: nat)
    requires i <= j <= |s| && a <= b <= j - i
    ensures s[i..j][a..b] == s[i + a..i + b]
  {
    var x, y := s[i..j][a..b], s[i + a..i + b];
    assert |x| == |y|;
    forall k | 0 <= k < |x|
      ensures x[k] == y[k]
    {
      assert x[k] == s[i..j][a + k] == s[i + a + k] == y[k];
    }
  }

  function Pow256(k: nat): nat {
    if k == 0 then 1 else 256 * Pow256(k - 1)
  }

  /** n without its i lowest bytes. */
  function Shift(n: nat, i: nat): nat {
    if i == 0 then n else Shift(n, i - 1) / 256
  }

  /** The low k bytes of n, least significant first; higher bits are dropped, as Go's
      integer conversions do before PutUint32 and PutUint64. */
  function PutLE(n: nat, k: nat): (b: Data)
    ensures |b| == k
  {
    seq(k, i requires i >= 0 => Shift(n, i) % 256)
  }

  /** The number whose bytes, least significant first, are b from i on. */
  function GetFrom(b: Data, i: nat): nat
    requires i <= |b|
    decreases |b| - i
  {
    if i == |b| then 0 else b[i] + 256 * GetFrom(b, i + 1)
  }

  function GetLE(b: Data): nat {
    GetFrom(b, 0)
  }

  lemma {:induction false} ShiftedOut(n: nat, k: nat, i: nat)
    requires i <= k && n < Pow256(k)
    ensures Shift(n, i) < Pow256(k - i)
  {
    if i > 0 {
      ShiftedOut(n, k, i - 1);
      assert Pow256(k - i + 1) == 256 * Pow256(k - i);
    }
  }

  lemma {:induction false} GetPutFrom(n: nat, k: nat, i: nat)
    requires i <= k && n < Pow256(k)
    ensures GetFrom(PutLE(n, k), i) == Shift(n, i)
    decreases k - i
  {
    ShiftedOut(n, k, i);
    if i < k {
      GetPutFrom(n, k, i + 1);
      assert Shift(n, i + 1) == Shift(n, i) / 256;
    }
  }

  lemma GetPut(n: nat, k: nat)
    requires n < Pow256(k)
    ensures GetLE(PutLE(n, k)) == n
  {
    GetPutFrom(n, k, 0);
  }

  lemma {:induction false} GetFromBound(b: Data, i: nat)
    requires i <= |b|
    ensures GetFrom(b, i) < Pow256(|b| - i)
    decreases |b| - i
  {
    if i < |b| { GetFromBound(b, i + 1); }
  }

  lemma GetBound(b: Data)
    ensures GetLE(b) < Pow256(|b|)
  {
    GetFromBound(b, 0);
  }

  lemma {:induction false} ShiftGet(b: Data, i: nat)
    requires i <= |b|
    ensures Shift(GetLE(b), i) == GetFrom(b, i)
  {
    if i > 0 { ShiftGet(b, i - 1); }
  }

  lemma PutGet(b: Data)
    ensures PutLE(GetLE(b), |b|) == b
  {
    var c := PutLE(GetLE(b), |b|);
    forall i | 0 <= i < |b|
      ensures c[i] == b[i]
    {
      ShiftGet(b, i);
    }
  }

  lemma Widths()
    ensures Pow256(2) == 0x1_0000
    ensures Pow256(4) == TWO_32
    ensures Pow256(8) == TWO_64
  {
    assert Pow256(1) == 256;
    assert Pow256(2) == 0x1_0000;
    assert Pow256(3) == 0x100_0000;
    assert Pow256(4) == TWO_32;
    assert Pow256(5) == 0x100_0000_0000;
    assert Pow256(6) == 0x1_0000_0000_0000;
    assert Pow256(7) == 0x100_0000_0000_0000;
  }

  /** binary.LittleEndian.PutUint32(buf, uint32(n)). */
  function PutU32(n: nat): (b: Data)
    ensures |b| == 4
    ensures n < TWO_32 ==> GetU32(b) == n
  {
    assert n < TWO_32 ==> GetLE(PutLE(n, 4)) == n by {
      Widths();
      if n < TWO_32 { GetPut(n, 4); }
    }
    PutLE(n, 4)
  }

  function GetU32(b: Data): (n: Uint32)
    requires |b| == 4
  {
    GetBound(b);
    Widths();
    GetLE(b)
  }

  /** binary.LittleEndian.PutUint64(buf, n) for n already reduced to 64 bits. */
  function PutU64(n: nat): (b: Data)
    ensures |b| == 8
    ensures n < TWO_64 ==> GetU64(b) == n
  {
    assert n < TWO_64 ==> GetLE(PutLE(n, 8)) == n by {
      Widths();
      if n < TWO_64 { GetPut(n, 8); }
    }
    PutLE(n, 8)
  }

  function GetU64(b: Data): (n: nat)
    requires |b| == 8
    ensures n < TWO_64
  {
    GetBound(b);
    Widths();
    GetLE(b)
  }

  /** PutUint64(buf, uint64(x)) of a signed value: two's complement. */
  function PutI64(x: Int64): (b: Data)
    ensures |b| == 8
    ensures GetI64(b) == x
  {
    PutU64(if x < 0 then x + TWO_64 else x)
  }

  function GetI64(b: Data): Int64
    requires |b| == 8
  {
    var n := GetU64(b);
    if n <= MAX_INT64 then n else n - TWO_64
  }

  lemma PutGetU32(b: Data)
    requires |b| == 4
    ensures PutU32(GetU32(b)) == b
  {
    PutGet(b);
  }

  lemma PutGetI64(b: Data)
    requires |b| == 8
    ensures PutI64(GetI64(b)) == b
  {
    PutGet(b);
  }

  /** buf carries piece at off. */
  predicate Holds(buf: Data, off: nat, piece: Data) {
    off + |piece| <= |buf| && buf[off..off + |piece|] == piece
  }

  lemma HoldsConcat(buf: Data, off: nat, a: Data, b: Data)
    ensures Holds(buf, off, a + b) <==> Holds(buf, off, a) && Holds(buf, off + |a|, b)
  {
    if off + |a| + |b| <= |buf| {
      var x := buf[off..off + |a + b|];
      assert x[..|a|] == buf[off..off + |a|] && x[|a|..] == buf[off + |a|..off + |a| + |b|];
      assert (a + b)[..|a|] == a && (a + b)[|a|..] == b;
      assert x == x[..|a|] + x[|a|..];
    }
  }

  lemma JoinFive(buf: Data, o: nat, i: nat, j: nat, k: nat, l: nat, end: nat, a: Data, b: Data, c: Data, d: Data,
                 e: Data)
    requires o <= i <= j <= k <= l <= end <= |buf|
    requires buf[o..i] == a && buf[i..j] == b && buf[j..k] == c && buf[k..l] == d && buf[l..end] == e
    ensures Holds(buf, o, a + b + c + d + e)
  {
    JoinTwo(buf, o, i, j, a, b);
    JoinTwo(buf, o, j, k, a + b, c);
    JoinTwo(buf, o, k, l, a + b + c, d);
    JoinTwo(buf, o, l, end, a + b + c + d, e);
  }

  lemma JoinTwo(buf: Data, o: nat, i: nat, j: nat, a: Data, b: Data)
    requires o <= i <= j <= |buf| && buf[o..i] == a && buf[i..j] == b
    ensures buf[o..j] == a + b && |a + b| == j - o
  {
    assert buf[o..j] == buf[o..i] + buf[i..j];
  }

  lemma SplitTwo(buf: Data, o: nat, i: nat, j: nat, a: Data, b: Data)
    requires i == o + |a| && j == i + |b| && j <= |buf| && buf[o..j] == a + b
    ensures buf[o..i] == a && buf[i..j] == b
  {
    SubSlice(buf, o, j, 0, i - o);
    SubSlice(buf, o, j, i - o, j - o);
    assert (a + b)[0..i - o] == a && (a + b)[i - o..j - o] == b;
  }

  lemma SplitFive(buf: Data, o: nat, i: nat, j: nat, k: nat, l: nat, end: nat, a: Data, b: Data, c: Data, d: Data,
                  e: Data)
    requires i == o + |a| && j == i + |b| && k == j + |c| && l == k + |d| && end == l + |e|
    requires Holds(buf, o, a + b + c + d + e)
    ensures end <= |buf| && buf[o..i] == a && buf[i..j] == b && buf[j..k] == c && buf[k..l] == d && buf[l..end] == e
  {
    SplitTwo(buf, o, l, end, a + b + c + d, e);
    SplitTwo(buf, o, k, l, a + b + c, d);
    SplitTwo(buf, o, j, k, a + b, c);
    SplitTwo(buf, o, i, j, a, b);
  }

  lemma Assoc(a: Data, b: Data, c: Data)
    ensures a + b + c == a + (b + c)
  {}

  lemma HoldsMiddle(a: Data, piece: Data, b: Data)
    ensures Holds(a + piece + b, |a|, piece)
  {
    assert (a + piece + b)[|a|..|a| + |piece|] == piece;
  }

  /** Go's `/`, which truncates toward zero. */
  function GoDiv(a: int, b: int): int
    requires b != 0
  {
    if a >= 0 then (if b > 0 then a / b else -(a / -b))
    else (if b > 0 then -(-a / b) else -a / -b)
  }

  /** The remainder has the sign of the dividend and is smaller than the divisor. */
  lemma GoDivTruncates(a: int, b: int)
    requires b != 0
    ensures var r := a - GoDiv(a, b) * b;
            (if a >= 0 then r >= 0 else r <= 0) && (if b > 0 then -b < r < b else b < r < -b)
  {
    var x, y := if a >= 0 then a else -a, if b > 0 then b else -b;
    var q := x / y;
    assert x == q * y + x % y;
    SignedProducts(q, y);
  }

  lemma SignedProducts(q: int, y: int)
    ensures (-q) * y == -(q * y) && q * (-y) == -(q * y) && (-q) * (-y) == q * y
  {}
}
