/** The bytes of an SSTable file and how NewReader reads them back (internal/sstable/writer.go,
    internal/sstable/reader.go). */
module TableFormat {
  import opened Bytes
  import opened Records
  import opened Framing
  import opened Blocks

  /** CRC32 and the two compression libraries, as parameters. None is an error of the library. */
  datatype Codec = Codec(crc: Checksum, compress: (Byte, Data) -> Option<Data>,
                         decompress: (Byte, Data) -> Option<Data>)

  /** Decompression undoes compression. */
  ghost predicate Lossless(codec: Codec) {
    forall ct: Byte, d: Data :: codec.compress(ct, d).Some? ==>
      codec.decompress(ct, codec.compress(ct, d).value) == Some(d)
  }

  /** compression 0 is none. */
  datatype Options = Options(blockSize: int, indexSources: bool, partStart: Int64, partEnd: Int64, compression: Byte,
                             columnar: bool)

  // ---------------------------------------------------------------- stored blocks

  function StoredBlock(codec: Codec, opts: Options, block: seq<Record>): Option<Data> {
    var encoded := if opts.columnar then ColBlock(codec.crc, block) else RowBlock(codec.crc, block);
    if opts.compression == 0 then Some(encoded) else codec.compress(opts.compression, encoded)
  }

  function Expand(codec: Codec, compression: Byte, stored: Data): Option<Data> {
    if compression == 0 then Some(stored) else codec.decompress(compression, stored)
  }

  /** readBlockRaw, without the cache: the checked part of a row block. */
  function RowPart(codec: Codec, compression: Byte, stored: Data): (p: Option<Data>)
    ensures p.Some? ==> |p.value| >= 4
  {
    match Expand(codec, compression, stored)
    case None => None
    case Some(data) => Unseal(codec.crc, data, 8)
  }

  /** What a reader of the given version makes of a stored block. */
  function LoadBlock(codec: Codec, compression: Byte, columnar: bool, stored: Data): Option<seq<Record>> {
    if columnar then
      match Expand(codec, compression, stored)
      case None => None
      case Some(data) => DecodeColBlock(codec.crc, data)
    else
      match RowPart(codec, compression, stored)
      case None => None
      case Some(p) => ParseRows(p, 4, GetU32(p[..4]))
  }

  /** Every 32-bit field of the block holds its value. */
  predicate BlockFits(columnar: bool, block: seq<Record>) {
    |block| < TWO_32 && AllLengths32(block) && (columnar ==> |Column(Sources(block))| < TWO_32)
  }

  lemma LoadStored(codec: Codec, opts: Options, block: seq<Record>)
    requires Lossless(codec) && BlockFits(opts.columnar, block) && StoredBlock(codec, opts, block).Some?
    ensures LoadBlock(codec, opts.compression, opts.columnar, StoredBlock(codec, opts, block).value) == Some(block)
  {
    if opts.columnar {
      ColRoundTrip(codec.crc, block);
    } else {
      RowRoundTrip(codec.crc, block);
    }
  }

  // ---------------------------------------------------------------- header and version detection

  const HEADER_MAGIC: nat := 0x3152444842524D54
  const FOOTER_MAGIC: nat := 0x54494D4245524442
  const HEADER_SIZE: nat := 16
  const FOOTER_SIZE: nat := 80
  const ENTRY_SIZE: nat := 20

  predicate HasHeader(opts: Options) {
    opts.compression != 0 || opts.columnar
  }

  function HeaderBytes(opts: Options): Data {
    PutU64(HEADER_MAGIC) + PutLE(if opts.columnar then 2 else 1, 2) + PutLE(opts.compression, 2) + PutLE(0, 4)
  }

  function Header(opts: Options): (h: Data)
    ensures |h| == if HasHeader(opts) then HEADER_SIZE else 0
  {
    if HasHeader(opts) then HeaderBytes(opts) else []
  }

  datatype Version = Version(compression: Byte, columnar: bool)

  /** The detection of NewReader on a file of at least 16 bytes. */
  function Detect(file: Data, timeIndexOffset: nat): Version
    requires |file| >= HEADER_SIZE
  {
    if timeIndexOffset >= HEADER_SIZE && GetU64(file[..8]) == HEADER_MAGIC
    then Version(GetLE(file[10..12]) % 256, GetLE(file[8..10]) >= 2)
    else Version(0, false)
  }

  lemma HeaderDetected(opts: Options, rest: Data, timeIndexOffset: nat)
    requires HasHeader(opts) && timeIndexOffset >= HEADER_SIZE
    ensures Detect(HeaderBytes(opts) + rest, timeIndexOffset) == Version(opts.compression, opts.columnar)
  {
    var v: nat := if opts.columnar then 2 else 1;
    var a, b, c, d := PutU64(HEADER_MAGIC), PutLE(v, 2), PutLE(opts.compression, 2), PutLE(0, 4);
    HeaderPieces(a, b, c, d, rest);
    HeaderRead(a + b + c + d + rest, v, opts.compression, timeIndexOffset);
  }

  lemma HeaderRead(f: Data, v: nat, compression: Byte, timeIndexOffset: nat)
    requires |f| >= HEADER_SIZE && timeIndexOffset >= HEADER_SIZE && v <= 2
    requires f[..8] == PutU64(HEADER_MAGIC) && f[8..10] == PutLE(v, 2) && f[10..12] == PutLE(compression, 2)
    ensures Detect(f, timeIndexOffset) == Version(compression, v >= 2)
  {
    SmallWord(v);
    SmallWord(compression);
  }

  lemma SmallWord(n: nat)
    requires n < 256
    ensures GetLE(PutLE(n, 2)) == n && n % 256 == n
  {
    Widths();
    GetPut(n, 2);
  }

  lemma HeaderPieces(a: Data, b: Data, c: Data, d: Data, rest: Data)
    requires |a| == 8 && |b| == 2 && |c| == 2 && |d| == 4
    ensures var f := a + b + c + d + rest; f[..8] == a && f[8..10] == b && f[10..12] == c
  {}

  /** The first eight bytes of a headerless file: the first block's record count and the low half of its first
      timestamp. */
  lemma RowBlockStart(crc: Checksum, block: seq<Record>, rest: Data)
    requires block != []
    ensures |RowBlock(crc, block)| >= 24
    ensures (RowBlock(crc, block) + rest)[..8] == PutU32(|block|) + PutI64(block[0].ts)[..4]
  {
    var body, more := RecordBody(block[0]), Rows(block[1..]);
    RecordStart(block[0]);
    StartPieces(PutU32(|block|), body, more, PutU32(crc(RowPayload(block))), rest);
  }

  lemma RecordStart(r: Record)
    ensures RecordBody(r)[..8] == PutI64(r.ts)
  {}

  lemma StartPieces(a: Data, body: Data, more: Data, c: Data, rest: Data)
    requires |a| == 4 && |body| >= 16
    ensures (a + (body + more) + c + rest)[..8] == a + body[..8][..4]
  {}

  lemma {:induction false} SplitWord(a: Data, b: Data, i: nat)
    requires i <= |a|
    ensures GetFrom(a + b, i) == GetFrom(a, i) + Pow256(|a| - i) * GetLE(b)
    decreases |a| - i
  {
    if i == |a| {
      TailWord(a, b, 0);
    } else {
      SplitWord(a, b, i + 1);
      var p, g := Pow256(|a| - i - 1), GetLE(b);
      assert Pow256(|a| - i) == 256 * p;
      assert 256 * (p * g) == (256 * p) * g;
    }
  }

  lemma {:induction false} TailWord(a: Data, b: Data, i: nat)
    requires i <= |b|
    ensures GetFrom(a + b, |a| + i) == GetFrom(b, i)
    decreases |b| - i
  {
    if i < |b| { TailWord(a, b, i + 1); }
  }

  /** The low four bytes of a word, as a number. */
  lemma LowHalf(x: Int64)
    ensures GetLE(PutI64(x)[..4]) == x % TWO_32
  {
    var b := PutI64(x);
    var lo, hi := b[..4], b[4..];
    assert b == lo + hi;
    SplitWord(lo, hi, 0);
    Widths();
    GetBound(lo);
    var n := GetU64(b);
    assert n == GetLE(lo) + TWO_32 * GetLE(hi);
    assert x == n || x == n - TWO_64;
    LowHalfOf(x, GetLE(lo), if x == n then GetLE(hi) else GetLE(hi) - TWO_32);
  }

  lemma LowHalfOf(x: int, lo: int, k: int)
    requires 0 <= lo < TWO_32 && x == lo + TWO_32 * k
    ensures lo == x % TWO_32
  {}

  /** A headerless file is taken for a later version exactly when its first block holds 0x42524D54 records and its
      first timestamp ends in 0x31524448. */
  predicate LooksVersioned(block: seq<Record>) {
    block != [] && |block| % TWO_32 == 0x42524D54 && block[0].ts % TWO_32 == 0x31524448
  }

  lemma HeaderlessDetected(crc: Checksum, block: seq<Record>, rest: Data, timeIndexOffset: nat)
    requires block != [] && |block| < TWO_32 && timeIndexOffset >= HEADER_SIZE
    ensures |RowBlock(crc, block)| >= 24
    ensures GetU64((RowBlock(crc, block) + rest)[..8]) == HEADER_MAGIC <==> LooksVersioned(block)
  {
    RowBlockStart(crc, block, rest);
    var lo, hi := PutU32(|block|), PutI64(block[0].ts)[..4];
    SplitWord(lo, hi, 0);
    LowHalf(block[0].ts);
    Widths();
    GetBound(hi);
    assert GetLE(lo) == GetU32(lo) == |block|;
    WordHalves(|block|, block[0].ts % TWO_32);
  }

  lemma WordHalves(lo: nat, hi: nat)
    requires lo < TWO_32 && hi < TWO_32
    ensures lo + TWO_32 * hi == HEADER_MAGIC <==> lo == 0x42524D54 && hi == 0x31524448
  {}

  // ---------------------------------------------------------------- fixed-width words

  /** 64-bit words, one after the other. */
  function Words(ws: seq<nat>): (b: Data)
    ensures |b| == 8 * |ws|
  {
    if ws == [] then [] else PutU64(ws[0]) + Words(ws[1..])
  }

  function WordAt(b: Data, i: nat): nat
    requires 8 * i + 8 <= |b|
  {
    GetU64(b[8 * i..8 * i + 8])
  }

  lemma {:induction false} WordsAt(ws: seq<nat>, i: nat)
    requires i < |ws| && ws[i] < TWO_64
    ensures WordAt(Words(ws), i) == ws[i]
  {
    var a, rest := PutU64(ws[0]), Words(ws[1..]);
    if i == 0 {
      assert (a + rest)[0..8] == a;
    } else {
      WordsAt(ws[1..], i - 1);
      var j := 8 * (i - 1);
      assert (a + rest)[8 + j..8 + j + 8] == rest[j..j + 8];
    }
  }

  function Unsigned(x: Int64): (n: nat)
    ensures n < TWO_64 && Signed(n) == x
  {
    if x < 0 then x + TWO_64 else x
  }

  function Signed(n: nat): Int64
    requires n < TWO_64
  {
    if n <= MAX_INT64 then n else n - TWO_64
  }

  // ---------------------------------------------------------------- footer

  datatype Meta = Meta(minTs: Int64, maxTs: Int64, tiOff: nat, tiSize: nat, siOff: nat, siSize: nat, count: nat,
                       partStart: Int64, partEnd: Int64)

  function FooterWords(m: Meta): seq<nat> {
    [Unsigned(m.minTs), Unsigned(m.maxTs), m.tiOff, m.tiSize, m.siOff, m.siSize, m.count, Unsigned(m.partStart),
     Unsigned(m.partEnd), FOOTER_MAGIC]
  }

  function Footer(m: Meta): (b: Data)
    ensures |b| == FOOTER_SIZE
  {
    Words(FooterWords(m))
  }

  function ParseFooter(b: Data): Option<Meta>
    requires |b| == FOOTER_SIZE
  {
    if WordAt(b, 9) != FOOTER_MAGIC then None
    else Some(Meta(Signed(WordAt(b, 0)), Signed(WordAt(b, 1)), WordAt(b, 2), WordAt(b, 3), WordAt(b, 4), WordAt(b, 5),
                   WordAt(b, 6), Signed(WordAt(b, 7)), Signed(WordAt(b, 8))))
  }

  predicate MetaFits(m: Meta) {
    m.tiOff < TWO_64 && m.tiSize < TWO_64 && m.siOff < TWO_64 && m.siSize < TWO_64 && m.count < TWO_64
  }

  lemma FooterRoundTrip(m: Meta)
    requires MetaFits(m)
    ensures ParseFooter(Footer(m)) == Some(m)
  {
    var ws := FooterWords(m);
    forall i | 0 <= i < 10
      ensures WordAt(Words(ws), i) == ws[i]
    {
      WordsAt(ws, i);
    }
  }

  // ---------------------------------------------------------------- time index

  datatype IndexEntry = IndexEntry(minTs: Int64, offset: nat, size: nat)

  function EntryBytes(e: IndexEntry): (b: Data)
    ensures |b| == ENTRY_SIZE
  {
    PutI64(e.minTs) + PutU64(e.offset) + PutU32(e.size)
  }

  function TimeIndexBytes(es: seq<IndexEntry>): (b: Data)
    ensures |b| == ENTRY_SIZE * |es|
  {
    if es == [] then [] else EntryBytes(es[0]) + TimeIndexBytes(es[1..])
  }

  function EntryAt(b: Data, i: nat): IndexEntry
    requires ENTRY_SIZE * i + ENTRY_SIZE <= |b|
  {
    var off := ENTRY_SIZE * i;
    ParseEntry(b[off..off + ENTRY_SIZE])
  }

  function ParseEntry(b: Data): IndexEntry
    requires |b| == ENTRY_SIZE
  {
    IndexEntry(GetI64(b[..8]), GetU64(b[8..16]), GetU32(b[16..20]))
  }

  function ParseTimeIndex(b: Data): seq<IndexEntry> {
    seq(|b| / ENTRY_SIZE, i requires 0 <= i < |b| / ENTRY_SIZE => EntryAt(b, i))
  }

  predicate EntryFits(e: IndexEntry) {
    e.offset < TWO_64 && e.size < TWO_32
  }

  lemma EntryRoundTrip(e: IndexEntry)
    requires EntryFits(e)
    ensures ParseEntry(EntryBytes(e)) == e
  {
    var b := EntryBytes(e);
    assert b[..8] == PutI64(e.minTs) && b[8..16] == PutU64(e.offset) && b[16..20] == PutU32(e.size);
  }

  lemma {:induction false} TimeIndexAt(es: seq<IndexEntry>, i: nat)
    requires i < |es| && EntryFits(es[i])
    ensures EntryAt(TimeIndexBytes(es), i) == es[i]
  {
    var a, rest := EntryBytes(es[0]), TimeIndexBytes(es[1..]);
    if i == 0 {
      assert (a + rest)[0..ENTRY_SIZE] == a;
      EntryRoundTrip(es[0]);
    } else {
      TimeIndexAt(es[1..], i - 1);
      var j := ENTRY_SIZE * (i - 1);
      assert (a + rest)[ENTRY_SIZE + j..ENTRY_SIZE + j + ENTRY_SIZE] == rest[j..j + ENTRY_SIZE];
    }
  }

  lemma TimeIndexRoundTrip(es: seq<IndexEntry>)
    requires forall i :: 0 <= i < |es| ==> EntryFits(es[i])
    ensures ParseTimeIndex(TimeIndexBytes(es)) == es
  {
    var b := TimeIndexBytes(es);
    assert |b| / ENTRY_SIZE == |es|;
    forall i | 0 <= i < |es|
      ensures ParseTimeIndex(b)[i] == es[i]
    {
      TimeIndexAt(es, i);
    }
  }

  // ---------------------------------------------------------------- source index

  datatype SrcEntry = SrcEntry(firstBlock: nat, count: nat)

  function SrcEntryBytes(key: Data, e: SrcEntry): (b: Data)
    ensures |b| == 20 + |key|
  {
    PutU32(|key|) + key + PutU64(e.firstBlock) + PutU64(e.count)
  }

  function SrcIndexBytes(keys: seq<Data>, index: map<Data, SrcEntry>): Data
    requires forall k :: k in keys ==> k in index
  {
    if keys == [] then [] else SrcEntryBytes(keys[0], index[keys[0]]) + SrcIndexBytes(keys[1..], index)
  }

  datatype SrcParsed = SrcParsed(key: Data, entry: SrcEntry, next: nat)

  function ParseSrcEntry(b: Data, off: nat): (r: Option<SrcParsed>)
    ensures r.Some? ==> off < r.value.next <= |b|
  {
    if off + 4 > |b| then None
    else
      var o := off + 4;
      var e := o + GetU32(b[off..o]);
      if e + 16 > |b| then None
      else Some(SrcParsed(b[o..e], SrcEntry(GetU64(b[e..e + 8]), GetU64(b[e + 8..e + 16])), e + 16))
  }

  function ParseSrcIndex(b: Data, off: nat, acc: map<Data, SrcEntry>): Option<map<Data, SrcEntry>>
    requires off <= |b|
    decreases |b| - off
  {
    if off == |b| then Some(acc)
    else
      match ParseSrcEntry(b, off)
      case None => None
      case Some(p) => ParseSrcIndex(b, p.next, acc[p.key := p.entry])
  }

  predicate SrcFits(key: Data, e: SrcEntry) {
    |key| < TWO_32 && e.firstBlock < TWO_64 && e.count < TWO_64
  }

  lemma SrcEntryRoundTrip(b: Data, off: nat, key: Data, e: SrcEntry, next: nat)
    requires SrcFits(key, e) && Holds(b, off, SrcEntryBytes(key, e)) && next == off + 20 + |key|
    ensures ParseSrcEntry(b, off) == Some(SrcParsed(key, e, next))
  {
    var o := off + 4;
    var k := o + |key|;
    var a, c, d := PutU32(|key|), PutU64(e.firstBlock), PutU64(e.count);
    SplitTwo(b, off, k + 8, next, a + key + c, d);
    SplitTwo(b, off, k, k + 8, a + key, c);
    SplitTwo(b, off, o, k, a, key);
  }

  /** acc, then the entries of keys in turn. */
  function Loaded(acc: map<Data, SrcEntry>, keys: seq<Data>, index: map<Data, SrcEntry>): map<Data, SrcEntry>
    requires forall k :: k in keys ==> k in index
    decreases |keys|
  {
    if keys == [] then acc else Loaded(acc[keys[0] := index[keys[0]]], keys[1..], index)
  }

  lemma {:induction false} SrcIndexParses(b: Data, off: nat, acc: map<Data, SrcEntry>, keys: seq<Data>,
                                          index: map<Data, SrcEntry>)
    requires off <= |b| && (forall k :: k in keys ==> k in index && SrcFits(k, index[k]))
    requires b[off..] == SrcIndexBytes(keys, index)
    ensures ParseSrcIndex(b, off, acc) == Some(Loaded(acc, keys, index))
    decreases |keys|
  {
    if keys != [] {
      var e := index[keys[0]];
      var head, rest := SrcEntryBytes(keys[0], e), SrcIndexBytes(keys[1..], index);
      var next := off + 20 + |keys[0]|;
      SplitTwo(b, off, next, |b|, head, rest);
      assert b[off..|b|] == b[off..] && b[next..|b|] == b[next..];
      SrcEntryRoundTrip(b, off, keys[0], e, next);
      SrcIndexParses(b, next, acc[keys[0] := e], keys[1..], index);
    }
  }

  lemma {:induction false} LoadedIsIndex(acc: map<Data, SrcEntry>, keys: seq<Data>, index: map<Data, SrcEntry>)
    requires forall k :: k in keys ==> k in index
    requires forall k :: k in acc ==> k in index && acc[k] == index[k]
    requires forall k :: k in index ==> k in acc || k in keys
    ensures Loaded(acc, keys, index) == index
    decreases |keys|
  {
    if keys != [] {
      LoadedIsIndex(acc[keys[0] := index[keys[0]]], keys[1..], index);
    }
  }

  lemma SrcIndexRoundTrip(keys: seq<Data>, index: map<Data, SrcEntry>)
    requires (forall k :: k in keys <==> k in index) && forall k :: k in index ==> SrcFits(k, index[k])
    ensures ParseSrcIndex(SrcIndexBytes(keys, index), 0, map[]) == Some(index)
  {
    var b := SrcIndexBytes(keys, index);
    assert b[0..] == b;
    SrcIndexParses(b, 0, map[], keys, index);
    LoadedIsIndex(map[], keys, index);
  }

  // ---------------------------------------------------------------- reading arbitrary bytes

  lemma PutGetU64(b: Data)
    requires |b| == 8
    ensures PutU64(GetU64(b)) == b
  {
    PutGet(b);
  }

  /** Eighty bytes are the footer of m, magic included, exactly when they are parsed as m. */
  lemma ParseFooterIff(b: Data, m: Meta)
    requires |b| == FOOTER_SIZE
    ensures ParseFooter(b) == Some(m) <==> b == Footer(m) && MetaFits(m)
  {
    if ParseFooter(b) == Some(m) {
      WordsBack(b, FooterWords(m));
    } else if b == Footer(m) && MetaFits(m) {
      FooterRoundTrip(m);
    }
  }

  /** Bytes that read as the words ws are those words. */
  lemma {:induction false} WordsBack(b: Data, ws: seq<nat>)
    requires |b| == 8 * |ws| && forall i :: 0 <= i < |ws| ==> WordAt(b, i) == ws[i]
    ensures b == Words(ws)
  {
    if ws != [] {
      var rest := b[8..];
      forall i | 0 <= i < |ws| - 1
        ensures WordAt(rest, i) == ws[1..][i]
      {
        SubSlice(b, 8, |b|, 8 * i, 8 * i + 8);
        assert rest == b[8..|b|] && WordAt(b, i + 1) == ws[i + 1];
      }
      WordsBack(rest, ws[1..]);
      PutGetU64(b[0..8]);
      assert WordAt(b, 0) == ws[0] && b == b[0..8] + rest;
    }
  }

  lemma EntryBack(b: Data, e: IndexEntry)
    requires |b| == ENTRY_SIZE
    ensures ParseEntry(b) == e <==> b == EntryBytes(e) && EntryFits(e)
  {
    PutGetI64(b[..8]);
    PutGetU64(b[8..16]);
    PutGetU32(b[16..20]);
    assert b == b[..8] + b[8..16] + b[16..20];
    if b == EntryBytes(e) && EntryFits(e) { EntryRoundTrip(e); }
  }

  /** On any bytes: the time index is the list whose encoding lies at the front, with less than one entry left over. */
  lemma {:induction false} ParseTimeIndexIff(b: Data, es: seq<IndexEntry>)
    ensures ParseTimeIndex(b) == es
            <==> |es| == |b| / ENTRY_SIZE && b[..ENTRY_SIZE * |es|] == TimeIndexBytes(es)
                 && forall i :: 0 <= i < |es| ==> EntryFits(es[i])
    decreases |b|
  {
    if |b| >= ENTRY_SIZE && es != [] {
      var rest := b[ENTRY_SIZE..];
      ParseTimeIndexIff(rest, es[1..]);
      EntryBack(b[..ENTRY_SIZE], es[0]);
      FirstEntry(b);
      EntriesFront(b, es);
      assert es == [es[0]] + es[1..];
      assert (forall i :: 0 <= i < |es| ==> EntryFits(es[i]))
             <==> EntryFits(es[0]) && forall i :: 0 <= i < |es[1..]| ==> EntryFits(es[1..][i]) by {
        assert forall i :: 0 <= i < |es[1..]| ==> es[1..][i] == es[i + 1];
      }
    }
  }

  lemma FirstEntry(b: Data)
    requires |b| >= ENTRY_SIZE
    ensures ParseTimeIndex(b) == [ParseEntry(b[..ENTRY_SIZE])] + ParseTimeIndex(b[ENTRY_SIZE..])
  {
    var rest := b[ENTRY_SIZE..];
    assert |b| / ENTRY_SIZE == |rest| / ENTRY_SIZE + 1;
    assert EntryAt(b, 0) == ParseEntry(b[..ENTRY_SIZE]);
    forall i | 0 <= i < |rest| / ENTRY_SIZE
      ensures EntryAt(b, i + 1) == EntryAt(rest, i)
    {
      SubSlice(b, ENTRY_SIZE, |b|, ENTRY_SIZE * i, ENTRY_SIZE * i + ENTRY_SIZE);
      assert rest == b[ENTRY_SIZE..|b|];
    }
  }

  lemma EntriesFront(b: Data, es: seq<IndexEntry>)
    requires |b| >= ENTRY_SIZE && es != []
    ensures |es| == |b| / ENTRY_SIZE ==>
              (b[..ENTRY_SIZE * |es|] == TimeIndexBytes(es)
               <==> b[..ENTRY_SIZE] == EntryBytes(es[0])
                    && b[ENTRY_SIZE..][..ENTRY_SIZE * |es[1..]|] == TimeIndexBytes(es[1..]))
  {
    if |es| == |b| / ENTRY_SIZE {
      var n := ENTRY_SIZE * |es|;
      var front := b[..n];
      assert front == front[..ENTRY_SIZE] + front[ENTRY_SIZE..];
      assert front[..ENTRY_SIZE] == b[..ENTRY_SIZE] && front[ENTRY_SIZE..] == b[ENTRY_SIZE..][..n - ENTRY_SIZE];
      SameParts(front, EntryBytes(es[0]), TimeIndexBytes(es[1..]));
    }
  }

  lemma SameParts(x: Data, a: Data, c: Data)
    requires |x| == |a| + |c|
    ensures x == a + c <==> x[..|a|] == a && x[|a|..] == c
  {
    assert x == x[..|a|] + x[|a|..];
  }

  /** A source and its entry, as the source index lists them. */
  datatype SrcItem = SrcItem(key: Data, entry: SrcEntry)

  function SrcItemsBytes(es: seq<SrcItem>): Data {
    if es == [] then [] else SrcEntryBytes(es[0].key, es[0].entry) + SrcItemsBytes(es[1..])
  }

  /** The map that the listed entries leave; a source listed twice keeps its last entry. */
  function SrcMap(acc: map<Data, SrcEntry>, es: seq<SrcItem>): map<Data, SrcEntry>
    decreases |es|
  {
    if es == [] then acc else SrcMap(acc[es[0].key := es[0].entry], es[1..])
  }

  predicate SrcItemsFit(es: seq<SrcItem>) {
    forall i :: 0 <= i < |es| ==> SrcFits(es[i].key, es[i].entry)
  }

  lemma SrcEntryBack(b: Data, off: nat, key: Data, e: SrcEntry)
    requires off <= |b|
    ensures ParseSrcEntry(b, off) == Some(SrcParsed(key, e, off + 20 + |key|))
            <==> Holds(b, off, SrcEntryBytes(key, e)) && SrcFits(key, e)
  {
    if ParseSrcEntry(b, off) == Some(SrcParsed(key, e, off + 20 + |key|)) {
      var o := off + 4;
      var k := o + |key|;
      PutGetU32(b[off..o]);
      PutGetU64(b[k..k + 8]);
      PutGetU64(b[k + 8..k + 16]);
      JoinTwo(b, off, o, k, b[off..o], key);
      JoinTwo(b, off, k, k + 8, b[off..o] + key, b[k..k + 8]);
      JoinTwo(b, off, k + 8, k + 16, b[off..o] + key + b[k..k + 8], b[k + 8..k + 16]);
    } else if Holds(b, off, SrcEntryBytes(key, e)) && SrcFits(key, e) {
      SrcEntryRoundTrip(b, off, key, e, off + 20 + |key|);
    }
  }

  /** On any bytes: when the source index parses, the bytes are the encoding of a list of entries that leave that map.
      */
  lemma {:induction false} ParsedSrcIndex(b: Data, off: nat, acc: map<Data, SrcEntry>) returns (es: seq<SrcItem>)
    requires off <= |b| && ParseSrcIndex(b, off, acc).Some?
    ensures b[off..] == SrcItemsBytes(es) && SrcItemsFit(es) && ParseSrcIndex(b, off, acc) == Some(SrcMap(acc, es))
    decreases |b| - off
  {
    if off == |b| {
      es := [];
    } else {
      var p := ParseSrcEntry(b, off).value;
      assert p.next == off + 20 + |p.key|;
      SrcEntryBack(b, off, p.key, p.entry);
      var rest := ParsedSrcIndex(b, p.next, acc[p.key := p.entry]);
      es := [SrcItem(p.key, p.entry)] + rest;
      assert es[1..] == rest;
      assert b[off..] == b[off..p.next] + b[p.next..];
    }
  }

  lemma {:induction false} SrcItemsParse(b: Data, off: nat, acc: map<Data, SrcEntry>, es: seq<SrcItem>)
    requires off <= |b| && b[off..] == SrcItemsBytes(es) && SrcItemsFit(es)
    ensures ParseSrcIndex(b, off, acc) == Some(SrcMap(acc, es))
    decreases |es|
  {
    if es != [] {
      var x := es[0];
      var head, rest := SrcEntryBytes(x.key, x.entry), SrcItemsBytes(es[1..]);
      var next := off + 20 + |x.key|;
      SplitTwo(b, off, next, |b|, head, rest);
      assert b[off..|b|] == b[off..] && b[next..|b|] == b[next..];
      SrcEntryRoundTrip(b, off, x.key, x.entry, next);
      SrcItemsParse(b, next, acc[x.key := x.entry], es[1..]);
    }
  }

  /** The bytes are a list of whole entries that leave index. */
  ghost predicate LeavesMap(b: Data, index: map<Data, SrcEntry>) {
    exists es :: b == SrcItemsBytes(es) && SrcItemsFit(es) && index == SrcMap(map[], es)
  }

  lemma ParseSrcIndexIff(b: Data, index: map<Data, SrcEntry>)
    ensures ParseSrcIndex(b, 0, map[]) == Some(index) <==> LeavesMap(b, index)
  {
    assert b[0..] == b;
    if ParseSrcIndex(b, 0, map[]) == Some(index) {
      var es := ParsedSrcIndex(b, 0, map[]);
      assert b == SrcItemsBytes(es) && SrcItemsFit(es) && index == SrcMap(map[], es);
    } else if LeavesMap(b, index) {
      var es :| b == SrcItemsBytes(es) && SrcItemsFit(es) && index == SrcMap(map[], es);
      SrcItemsParse(b, 0, map[], es);
    }
  }
}
