/** Records and the (Timestamp, SourceID) order every layer keeps (internal/record/record.go). */
module Records {
  import opened Bytes

  datatype Record = Record(ts: Int64, src: Data, payload: Data)

  /** Timestamp(8) | SrcIDLen(4) | SourceID | PayloadLen(4) | Payload, in WAL bodies and in row blocks. */
  function RecordBody(r: Record): (b: Data)
    ensures |b| == 16 + |r.src| + |r.payload|
  {
    PutI64(r.ts) + PutU32(|r.src|) + r.src + PutU32(|r.payload|) + r.payload
  }

  /** bytes.Compare(a, b) < 0. */
  predicate LexLess(a: Data, b: Data) {
    b != [] && (a == [] || a[0] < b[0] || (a[0] == b[0] && LexLess(a[1..], b[1..])))
  }

  /** The comparison of the heaps, the memtable and the writer's order check. */
  predicate KeyLess(a: Record, b: Record) {
    a.ts < b.ts || (a.ts == b.ts && LexLess(a.src, b.src))
  }

  predicate KeyLe(a: Record, b: Record) {
    !KeyLess(b, a)
  }

  predicate SameKey(a: Record, b: Record) {
    a.ts == b.ts && a.src == b.src
  }

  lemma {:induction false} LexTrichotomy(a: Data, b: Data)
    ensures LexLess(a, b) || LexLess(b, a) || a == b
    ensures !(LexLess(a, b) && LexLess(b, a))
    ensures !LexLess(a, a)
  {
    if a != [] {
      LexTrichotomy(a[1..], a[1..]);
      if b != [] {
        LexTrichotomy(a[1..], b[1..]);
        if a[0] == b[0] && a[1..] == b[1..] {
          assert a == [a[0]] + a[1..] == b;
        }
      }
    }
  }

  lemma {:induction false} LexTransitive(a: Data, b: Data, c: Data)
    requires LexLess(a, b) && LexLess(b, c)
    ensures LexLess(a, c)
  {
    if a != [] && a[0] == b[0] && b[0] == c[0] {
      LexTransitive(a[1..], b[1..], c[1..]);
    }
  }

  lemma KeyTotal(a: Record, b: Record)
    ensures KeyLe(a, b) || KeyLe(b, a)
    ensures KeyLe(a, b) && KeyLe(b, a) ==> SameKey(a, b)
    ensures SameKey(a, b) ==> KeyLe(a, b)
  {
    LexTrichotomy(a.src, b.src);
  }

  lemma KeyTransitive(a: Record, b: Record, c: Record)
    requires KeyLe(a, b) && KeyLe(b, c)
    ensures KeyLe(a, c)
  {
    LexTrichotomy(a.src, b.src);
    LexTrichotomy(b.src, c.src);
    LexTrichotomy(a.src, c.src);
    if a.ts == b.ts == c.ts && LexLess(a.src, b.src) && LexLess(b.src, c.src) {
      LexTransitive(a.src, b.src, c.src);
    }
  }

  ghost predicate Sorted(s: seq<Record>) {
    forall i, j :: 0 <= i < j < |s| ==> KeyLe(s[i], s[j])
  }

  /** A sorted list stays sorted when a record no smaller than its last one is appended. */
  lemma SortedAppend(s: seq<Record>, r: Record)
    requires Sorted(s)
    requires s != [] ==> KeyLe(s[|s| - 1], r)
    ensures Sorted(s + [r])
  {
    forall i | 0 <= i < |s|
      ensures KeyLe(s[i], r)
    {
      if i < |s| - 1 {
        KeyTransitive(s[i], s[|s| - 1], r);
      }
    }
  }

  // ---------------------------------------------------------------- the order, byte by byte

  /** a is a proper prefix of b, or smaller at the first byte in which they differ. */
  ghost predicate ByteLess(a: Data, b: Data) {
    a < b || exists k {:trigger a[k]} {:trigger b[k]} ::
      0 <= k < |a| && k < |b| && a[..k] == b[..k] && a[k] < b[k]
  }

  lemma {:induction false} LexIsByteOrder(a: Data, b: Data)
    ensures LexLess(a, b) <==> ByteLess(a, b)
  {
    if a != [] && b != [] {
      LexIsByteOrder(a[1..], b[1..]);
      assert a == [a[0]] + a[1..] && b == [b[0]] + b[1..];
      if a[0] == b[0] { TailDiffers(a, b); } else { HeadDiffers(a, b); }
    }
  }

  lemma HeadDiffers(a: Data, b: Data)
    requires a != [] && b != [] && a[0] != b[0]
    ensures ByteLess(a, b) <==> a[0] < b[0]
  {
    if a[0] < b[0] {
      assert a[..0] == b[..0];
    }
    forall k | 0 <= k < |a| && k < |b| && a[..k] == b[..k]
      ensures k == 0
    {
      PrefixHead(a, b, k);
    }
  }

  lemma PrefixHead(a: Data, b: Data, k: nat)
    requires k <= |a| && k <= |b| && a[..k] == b[..k]
    ensures k > 0 ==> a[0] == b[0]
  {
    assert k > 0 ==> a[..k][0] == a[0];
  }

  lemma TailDiffers(a: Data, b: Data)
    requires a != [] && b != [] && a[0] == b[0]
    ensures ByteLess(a, b) <==> ByteLess(a[1..], b[1..])
  {
    var x, y := a[1..], b[1..];
    assert a == [a[0]] + x && b == [b[0]] + y;
    assert a < b <==> x < y;
    forall k | 0 <= k < |x| && k < |y| && x[..k] == y[..k] && x[k] < y[k]
      ensures ByteLess(a, b)
    {
      assert a[..k + 1] == [a[0]] + x[..k] && b[..k + 1] == [b[0]] + y[..k] && a[k + 1] < b[k + 1];
    }
    forall k | 0 <= k < |a| && k < |b| && a[..k] == b[..k] && a[k] < b[k]
      ensures ByteLess(x, y)
    {
      assert k > 0;
      assert x[..k - 1] == a[..k][1..] && y[..k - 1] == b[..k][1..] && x[k - 1] < y[k - 1];
    }
  }

  /** By timestamp, and by the bytes of the source among equal timestamps. */
  ghost predicate Precedes(a: Record, b: Record) {
    a.ts < b.ts || (a.ts == b.ts && ByteLess(a.src, b.src))
  }

  /** Every earlier record has a smaller timestamp, or the same one and a source that is no greater byte by byte. */
  ghost predicate InByteOrder(rs: seq<Record>) {
    forall i, j :: 0 <= i < j < |rs| ==>
      rs[i].ts < rs[j].ts || (rs[i].ts == rs[j].ts && (rs[i].src == rs[j].src || ByteLess(rs[i].src, rs[j].src)))
  }

  lemma KeyIsByteOrder(a: Record, b: Record)
    ensures KeyLess(a, b) <==> Precedes(a, b)
  {
    LexIsByteOrder(a.src, b.src);
  }

  lemma KeyLeIsByteOrder(a: Record, b: Record)
    ensures KeyLe(a, b) <==> (a.ts < b.ts || (a.ts == b.ts && (a.src == b.src || ByteLess(a.src, b.src))))
  {
    LexTrichotomy(a.src, b.src);
    LexIsByteOrder(a.src, b.src);
  }

  lemma SortedIsByteOrder(rs: seq<Record>)
    ensures Sorted(rs) <==> InByteOrder(rs)
  {
    forall i, j | 0 <= i < j < |rs| {
      KeyLeIsByteOrder(rs[i], rs[j]);
    }
  }
}
