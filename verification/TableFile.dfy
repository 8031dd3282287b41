/** Whole SSTable files: what Writer leaves on disk and what NewReader makes of it (internal/sstable/writer.go,
    internal/sstable/reader.go). */
module TableFile {
  import opened Bytes
  import opened Records
  import opened Blocks
  import opened TableFormat

  function Flat(blocks: seq<seq<Record>>): seq<Record> {
    if blocks == [] then [] else Flat(blocks[..|blocks| - 1]) + blocks[|blocks| - 1]
  }

  function Concat(blobs: seq<Data>): Data {
    if blobs == [] then [] else Concat(blobs[..|blobs| - 1]) + blobs[|blobs| - 1]
  }

  lemma FlatAppend(blocks: seq<seq<Record>>, block: seq<Record>)
    ensures Flat(blocks + [block]) == Flat(blocks) + block
  {
    assert (blocks + [block])[..|blocks|] == blocks;
  }

  lemma ConcatAppend(blobs: seq<Data>, blob: Data)
    ensures Concat(blobs + [blob]) == Concat(blobs) + blob
  {
    assert (blobs + [blob])[..|blobs|] == blobs;
  }

  lemma {:induction false} ConcatAt(blobs: seq<Data>, i: nat)
    requires i < |blobs|
    ensures Holds(Concat(blobs), |Concat(blobs[..i])|, blobs[i])
  {
    var n := |blobs| - 1;
    var front := blobs[..n];
    if i == n {
      HoldsMiddle(Concat(front), blobs[n], []);
      assert Concat(front) + blobs[n] + [] == Concat(blobs);
    } else {
      ConcatAt(front, i);
      assert front[..i] == blobs[..i] && front[i] == blobs[i];
      HoldsInFront(Concat(front), blobs[n], |Concat(blobs[..i])|, blobs[i]);
    }
  }

  lemma HoldsInFront(a: Data, b: Data, off: nat, piece: Data)
    requires Holds(a, off, piece)
    ensures Holds(a + b, off, piece)
  {
    assert (a + b)[off..off + |piece|] == a[off..off + |piece|];
  }

  lemma HoldsBehind(a: Data, b: Data, off: nat, piece: Data, at: nat)
    requires Holds(b, off, piece) && at == |a| + off
    ensures Holds(a + b, at, piece)
  {
    assert (a + b)[at..at + |piece|] == b[off..off + |piece|];
  }

  // ---------------------------------------------------------------- what a writer leaves

  /** Everything a finished file is made of. */
  datatype Image = Image(opts: Options, blocks: seq<seq<Record>>, blobs: seq<Data>, entries: seq<IndexEntry>,
                         keys: seq<Data>, index: map<Data, SrcEntry>, meta: Meta)

  /** Entry i describes block i and where its bytes start. */
  ghost predicate Indexed(codec: Codec, opts: Options, blocks: seq<seq<Record>>, blobs: seq<Data>,
                          entries: seq<IndexEntry>) {
    |blocks| == |blobs| == |entries|
    && forall i {:trigger IndexedAt(codec, opts, blocks, blobs, entries, i)} :: 0 <= i < |blocks| ==>
         IndexedAt(codec, opts, blocks, blobs, entries, i)
  }

  ghost predicate IndexedAt(codec: Codec, opts: Options, blocks: seq<seq<Record>>, blobs: seq<Data>,
                            entries: seq<IndexEntry>, i: nat)
    requires i < |blocks| == |blobs| == |entries|
  {
    blocks[i] != [] && StoredBlock(codec, opts, blocks[i]) == Some(blobs[i])
    && entries[i] == IndexEntry(blocks[i][0].ts, |Header(opts)| + |Concat(blobs[..i])|, |blobs[i]| % TWO_32)
  }

  function SourceSet(rs: seq<Record>): set<Data> {
    set r | r in rs :: r.src
  }

  ghost predicate KeysCover(keys: seq<Data>, index: map<Data, SrcEntry>) {
    forall k :: k in keys <==> k in index
  }

  /** Data blocks, time index, source index, footer. */
  function FileBytes(im: Image): Data
    requires forall k :: k in im.keys ==> k in im.index
  {
    Body(im) + Footer(im.meta)
  }

  function Body(im: Image): Data
    requires forall k :: k in im.keys ==> k in im.index
  {
    Header(im.opts) + Concat(im.blobs) + TimeIndexBytes(im.entries) + SrcIndexBytes(im.keys, im.index)
  }

  ghost predicate Summary(m: Meta, rs: seq<Record>) {
    m.count == |rs| && (rs != [] ==> m.minTs == rs[0].ts && m.maxTs == rs[|rs| - 1].ts)
  }

  ghost predicate Finished(codec: Codec, im: Image) {
    KeysCover(im.keys, im.index) && Indexed(codec, im.opts, im.blocks, im.blobs, im.entries)
    && Sorted(Flat(im.blocks)) && Summary(im.meta, Flat(im.blocks))
    && im.index.Keys == (if im.opts.indexSources then SourceSet(Flat(im.blocks)) else {})
    && im.meta.tiOff == |Header(im.opts)| + |Concat(im.blobs)| && im.meta.tiSize == |TimeIndexBytes(im.entries)|
    && im.meta.siOff == im.meta.tiOff + im.meta.tiSize && im.meta.siSize == |SrcIndexBytes(im.keys, im.index)|
  }

  /** No length, offset or count outgrows the field that stores it. */
  ghost predicate ImageFits(im: Image)
    requires KeysCover(im.keys, im.index)
  {
    |FileBytes(im)| < TWO_64 && im.meta.count < TWO_64
    && (forall i :: 0 <= i < |im.blobs| ==> |im.blobs[i]| < TWO_32)
    && (forall i :: 0 <= i < |im.blocks| ==> BlockFits(im.opts.columnar, im.blocks[i]))
    && forall k :: k in im.index ==> SrcFits(k, im.index[k])
  }

  // ---------------------------------------------------------------- opening

  datatype Reader = Reader(path: string, file: Data, meta: Meta, timeIndex: seq<IndexEntry>,
                           srcIndex: Option<map<Data, SrcEntry>>, version: Version)

  datatype OpenError = InvalidMagic | ReadFailed | CorruptSourceIndex

  datatype Opening = Opened(reader: Reader) | Refused(error: OpenError)

  function ReadAt(file: Data, off: nat, size: nat): (r: Option<Data>)
    ensures r.Some? <==> off + size <= |file|
  {
    if off + size <= |file| then Some(file[off..off + size]) else None
  }

  /** NewReader. */
  function OpenFile(path: string, file: Data): Opening {
    if |file| < FOOTER_SIZE then Refused(InvalidMagic)
    else
      var footer := ParseFooter(file[|file| - FOOTER_SIZE..]);
      if footer.None? || (footer.value.count > 0 && footer.value.tiSize == 0) then Refused(InvalidMagic)
      else OpenIndexes(path, file, footer.value)
  }

  /** The two index loaders and version detection. */
  function OpenIndexes(path: string, file: Data, m: Meta): Opening
    requires |file| >= HEADER_SIZE
  {
    if m.tiSize != 0 && ReadAt(file, m.tiOff, m.tiSize).None? then Refused(ReadFailed)
    else if m.siSize != 0 && ReadAt(file, m.siOff, m.siSize).None? then Refused(ReadFailed)
    else
      var timeIndex := if m.tiSize == 0 then [] else ParseTimeIndex(ReadAt(file, m.tiOff, m.tiSize).value);
      if m.siSize == 0 then Opened(Reader(path, file, m, timeIndex, None, Detect(file, m.tiOff)))
      else
        match ParseSrcIndex(ReadAt(file, m.siOff, m.siSize).value, 0, map[])
        case None => Refused(CorruptSourceIndex)
        case Some(index) => Opened(Reader(path, file, m, timeIndex, Some(index), Detect(file, m.tiOff)))
  }

  /** The file ends in the footer of m, whose last eight bytes are the magic number. */
  ghost predicate EndsInFooter(file: Data, m: Meta) {
    |file| >= 80 && file[|file| - 80..] == Footer(m) && MetaFits(m)
    && file[|file| - 8..] == PutU64(0x54494D4245524442) && (m.count > 0 ==> m.tiSize != 0)
  }

  /** The time index lies where the footer says, as es. */
  ghost predicate TimeIndexThere(file: Data, m: Meta, es: seq<IndexEntry>) {
    if m.tiSize == 0 then es == []
    else
      m.tiOff + m.tiSize <= |file| && |es| == m.tiSize / 20 && Holds(file, m.tiOff, TimeIndexBytes(es))
      && forall i :: 0 <= i < |es| ==> EntryFits(es[i])
  }

  /** The source index lies where the footer says, as a list of entries that leave index. */
  ghost predicate SrcIndexThere(file: Data, m: Meta, index: Option<map<Data, SrcEntry>>) {
    if m.siSize == 0 then index == None
    else
      m.siOff + m.siSize <= |file| && index.Some? && LeavesMap(file[m.siOff..m.siOff + m.siSize], index.value)
  }

  /** A file whose time index begins behind a header with the magic number has the version and compression that the
      header names, columnar from version 2 on; any other file is an uncompressed row file. */
  ghost predicate VersionThere(file: Data, tiOff: nat, v: Version) {
    if |file| >= 16 && tiOff >= 16 && file[..8] == PutU64(0x3152444842524D54) then
      v.compression == file[10] && (v.columnar <==> file[8] >= 2 || file[9] > 0)
    else v == Version(0, false)
  }

  lemma VersionIff(file: Data, tiOff: nat, v: Version)
    requires |file| >= HEADER_SIZE
    ensures Detect(file, tiOff) == v <==> VersionThere(file, tiOff, v)
  {
    MagicIff(file[..8]);
    TwoBytes(file[8..10]);
    TwoBytes(file[10..12]);
  }

  lemma MagicIff(b: Data)
    requires |b| == 8
    ensures GetU64(b) == HEADER_MAGIC <==> b == PutU64(0x3152444842524D54)
  {
    PutGetU64(b);
  }

  lemma TwoBytes(b: Data)
    requires |b| == 2
    ensures (GetLE(b) >= 2 <==> b[0] >= 2 || b[1] > 0) && GetLE(b) % 256 == b[0]
  {
    assert GetFrom(b, 2) == 0 && GetFrom(b, 1) == b[1] as int + 256 * GetFrom(b, 2);
    var hi: int := GetFrom(b, 1);
    assert GetLE(b) == b[0] as int + 256 * hi;
  }

  lemma FooterThere(file: Data, m: Meta)
    requires |file| >= FOOTER_SIZE
    ensures ParseFooter(file[|file| - FOOTER_SIZE..]) == Some(m) && (m.count > 0 ==> m.tiSize != 0)
            <==> EndsInFooter(file, m)
  {
    var b := file[|file| - FOOTER_SIZE..];
    ParseFooterIff(b, m);
    if b == Footer(m) {
      LastWord(FooterWords(m));
      assert b[72..] == file[|file| - 8..];
    }
  }

  lemma {:induction false} LastWord(ws: seq<nat>)
    requires ws != []
    ensures Words(ws)[8 * |ws| - 8..] == PutU64(ws[|ws| - 1])
  {
    if |ws| == 1 {
      assert Words(ws) == PutU64(ws[0]) + Words(ws[1..]) && Words(ws[1..]) == [];
    } else {
      LastWord(ws[1..]);
      var n := 8 * |ws|;
      assert Words(ws)[8..] == Words(ws[1..]);
      SubSlice(Words(ws), 8, n, n - 16, n - 8);
      assert Words(ws)[8..n] == Words(ws[1..]);
    }
  }

  lemma TimeIndexRead(file: Data, m: Meta, es: seq<IndexEntry>)
    requires m.tiSize != 0 && m.tiOff + m.tiSize <= |file|
    ensures ParseTimeIndex(ReadAt(file, m.tiOff, m.tiSize).value) == es <==> TimeIndexThere(file, m, es)
  {
    var b := file[m.tiOff..m.tiOff + m.tiSize];
    ParseTimeIndexIff(b, es);
    if |es| == m.tiSize / 20 {
      SubSlice(file, m.tiOff, m.tiOff + m.tiSize, 0, 20 * |es|);
      assert b[..20 * |es|] == b[0..20 * |es|];
    }
  }

  /** NewReader on arbitrary bytes: it opens a file, as rd, exactly when the file ends in rd's footer, magic included,
      and both indexes lie where the footer says. */
  lemma OpenedIff(path: string, file: Data, rd: Reader)
    ensures OpenFile(path, file) == Opened(rd)
            <==> EndsInFooter(file, rd.meta) && TimeIndexThere(file, rd.meta, rd.timeIndex)
                 && SrcIndexThere(file, rd.meta, rd.srcIndex) && rd.path == path && rd.file == file
                 && VersionThere(file, rd.meta.tiOff, rd.version)
  {
    if |file| >= FOOTER_SIZE {
      VersionIff(file, rd.meta.tiOff, rd.version);
      IndexesIff(path, file, rd);
      FooterThere(file, rd.meta);
      OpensItsMeta(path, file, rd);
    }
  }

  /** A reader has the metadata of the footer that was parsed. */
  lemma OpensItsMeta(path: string, file: Data, rd: Reader)
    requires |file| >= FOOTER_SIZE
    ensures var footer := ParseFooter(file[|file| - FOOTER_SIZE..]);
            OpenFile(path, file) == Opened(rd)
            <==> footer == Some(rd.meta) && (rd.meta.count > 0 ==> rd.meta.tiSize != 0)
                 && OpenIndexes(path, file, rd.meta) == Opened(rd)
  {}

  lemma TimeIndexIff(file: Data, m: Meta, es: seq<IndexEntry>)
    ensures TimeIndexThere(file, m, es)
            <==> if m.tiSize == 0 then es == []
                 else ReadAt(file, m.tiOff, m.tiSize).Some?
                      && es == ParseTimeIndex(ReadAt(file, m.tiOff, m.tiSize).value)
  {
    if m.tiSize != 0 && m.tiOff + m.tiSize <= |file| { TimeIndexRead(file, m, es); }
  }

  lemma SrcIndexIff(file: Data, m: Meta, index: Option<map<Data, SrcEntry>>)
    ensures SrcIndexThere(file, m, index)
            <==> if m.siSize == 0 then index == None
                 else ReadAt(file, m.siOff, m.siSize).Some? && index.Some?
                      && index == ParseSrcIndex(ReadAt(file, m.siOff, m.siSize).value, 0, map[])
  {
    if m.siSize != 0 && m.siOff + m.siSize <= |file| && index.Some? {
      ParseSrcIndexIff(file[m.siOff..m.siOff + m.siSize], index.value);
    }
  }

  lemma IndexesIff(path: string, file: Data, rd: Reader)
    requires |file| >= HEADER_SIZE
    ensures OpenIndexes(path, file, rd.meta) == Opened(rd)
            <==> TimeIndexThere(file, rd.meta, rd.timeIndex) && SrcIndexThere(file, rd.meta, rd.srcIndex)
                 && rd.path == path && rd.file == file && rd.version == Detect(file, rd.meta.tiOff)
  {
    TimeIndexIff(file, rd.meta, rd.timeIndex);
    SrcIndexIff(file, rd.meta, rd.srcIndex);
  }

  /** It reports a bad magic number exactly for a file without such a footer. */
  lemma InvalidMagicIff(path: string, file: Data)
    ensures OpenFile(path, file) == Refused(InvalidMagic) <==> forall m :: !EndsInFooter(file, m)
  {
    if |file| >= FOOTER_SIZE {
      forall m {
        FooterThere(file, m);
      }
      var footer := ParseFooter(file[|file| - FOOTER_SIZE..]);
      if footer.Some? { assert EndsInFooter(file, footer.value) <==>
                         !(footer.value.count > 0 && footer.value.tiSize == 0); }
    }
  }

  method LoadTimeIndex(file: Data, m: Meta) returns (r: Option<seq<IndexEntry>>)
    ensures m.tiSize == 0 ==> r == Some([])
    ensures m.tiSize != 0 && ReadAt(file, m.tiOff, m.tiSize).None? ==> r == None
    ensures m.tiSize != 0 && ReadAt(file, m.tiOff, m.tiSize).Some? ==>
              r == Some(ParseTimeIndex(ReadAt(file, m.tiOff, m.tiSize).value))
  {
    if m.tiSize == 0 { return Some([]); }
    var buf := ReadAt(file, m.tiOff, m.tiSize);
    if buf.None? { return None; }
    var count := |buf.value| / ENTRY_SIZE;
    var entries: seq<IndexEntry> := [];
    for i := 0 to count
      invariant |entries| == i && forall j :: 0 <= j < i ==> entries[j] == EntryAt(buf.value, j)
    {
      entries := entries + [EntryAt(buf.value, i)];
    }
    assert entries == ParseTimeIndex(buf.value);
    return Some(entries);
  }

  method LoadSrcIndex(buf: Data) returns (r: Option<map<Data, SrcEntry>>)
    ensures r == ParseSrcIndex(buf, 0, map[])
  {
    var index: map<Data, SrcEntry> := map[];
    var off := 0;
    while off < |buf|
      invariant 0 <= off <= |buf| && ParseSrcIndex(buf, off, index) == ParseSrcIndex(buf, 0, map[])
    {
      var p := ParseSrcEntry(buf, off);
      if p.None? { return None; }
      index := index[p.value.key := p.value.entry];
      off := p.value.next;
    }
    return Some(index);
  }

  method NewReader(path: string, file: Data) returns (r: Opening)
    ensures r == OpenFile(path, file)
    ensures r.Opened? ==> EndsInFooter(file, r.reader.meta) && TimeIndexThere(file, r.reader.meta, r.reader.timeIndex)
                          && SrcIndexThere(file, r.reader.meta, r.reader.srcIndex)
  {
    ghost var opening := OpenFile(path, file);
    if opening.Opened? { OpenedIff(path, file, opening.reader); }
    if |file| < FOOTER_SIZE { return Refused(InvalidMagic); }
    var footer := ParseFooter(file[|file| - FOOTER_SIZE..]);
    if footer.None? { return Refused(InvalidMagic); }
    var m := footer.value;
    if m.count > 0 && m.tiSize == 0 { return Refused(InvalidMagic); }
    var timeIndex := LoadTimeIndex(file, m);
    if timeIndex.None? { return Refused(ReadFailed); }
    var index: Option<map<Data, SrcEntry>> := None;
    if m.siSize != 0 {
      var buf := ReadAt(file, m.siOff, m.siSize);
      if buf.None? { return Refused(ReadFailed); }
      index := LoadSrcIndex(buf.value);
      if index.None? { return Refused(CorruptSourceIndex); }
    }
    return Opened(Reader(path, file, m, timeIndex.value, index, Detect(file, m.tiOff)));
  }

  // ---------------------------------------------------------------- reading back what was written

  /** The bytes of block i, as the time index places them. */
  function StoredAt(rd: Reader, i: nat): Option<Data>
    requires i < |rd.timeIndex|
  {
    ReadAt(rd.file, rd.timeIndex[i].offset, rd.timeIndex[i].size)
  }

  function BlockAt(codec: Codec, rd: Reader, i: nat): Option<seq<Record>>
    requires i < |rd.timeIndex|
  {
    match StoredAt(rd, i)
    case None => None
    case Some(b) => LoadBlock(codec, rd.version.compression, rd.version.columnar, b)
  }

  /** A reader over a table whose blocks are these. */
  ghost predicate Represents(codec: Codec, rd: Reader, blocks: seq<seq<Record>>) {
    |rd.timeIndex| == |blocks| && Sorted(Flat(blocks)) && Summary(rd.meta, Flat(blocks))
    && (forall i {:trigger BlockAt(codec, rd, i)} :: 0 <= i < |blocks| ==> BlockAt(codec, rd, i) == Some(blocks[i]))
    && (forall i :: 0 <= i < |blocks| ==> blocks[i] != [] && rd.timeIndex[i].minTs == blocks[i][0].ts)
    && (rd.srcIndex.Some? ==> rd.srcIndex.value.Keys == SourceSet(Flat(blocks)))
  }

  function OwnVersion(im: Image): Version {
    Version(im.opts.compression, im.opts.columnar)
  }

  /** The reader of a finished file. */
  function ReaderOf(path: string, im: Image): Reader
    requires forall k :: k in im.keys ==> k in im.index
  {
    Reader(path, FileBytes(im), im.meta, im.entries, if im.keys == [] then None else Some(im.index), OwnVersion(im))
  }

  /** A headerless file that does not look like a later version. */
  ghost predicate Unambiguous(im: Image) {
    HasHeader(im.opts) || im.blocks == [] || !LooksVersioned(im.blocks[0])
  }

  lemma FileSections(im: Image, footer: Data)
    requires KeysCover(im.keys, im.index) && footer == Footer(im.meta)
    ensures var f, h, c := FileBytes(im), Header(im.opts), Concat(im.blobs);
            var t, s := TimeIndexBytes(im.entries), SrcIndexBytes(im.keys, im.index);
            |f| == |h| + |c| + |t| + |s| + FOOTER_SIZE && f == h + (c + t + s + footer) && Holds(f, |h|, c)
            && Holds(f, |h| + |c|, t) && Holds(f, |h| + |c| + |t|, s)
            && f[|f| - FOOTER_SIZE..] == footer
  {
    SectionsOf(Header(im.opts), Concat(im.blobs), TimeIndexBytes(im.entries), SrcIndexBytes(im.keys, im.index), footer);
  }

  lemma SectionsOf(h: Data, c: Data, t: Data, s: Data, footer: Data)
    ensures var f := h + c + t + s + footer;
            f == h + (c + t + s + footer) && Holds(f, |h|, c) && Holds(f, |h| + |c|, t) && Holds(f, |h| + |c| + |t|, s)
            && f[|f| - |footer|..] == footer
  {
    var f := h + c + t + s + footer;
    var i, j, k, l := |h|, |h| + |c|, |h| + |c| + |t|, |h| + |c| + |t| + |s|;
    assert f[i..j] == c && f[j..k] == t && f[k..l] == s && f[l..] == footer;
  }

  lemma VersionWritten(codec: Codec, im: Image)
    requires Finished(codec, im) && ImageFits(im) && Unambiguous(im)
    ensures |FileBytes(im)| >= FOOTER_SIZE && Detect(FileBytes(im), im.meta.tiOff) == OwnVersion(im)
  {
    var h, c, t, s := Header(im.opts), Concat(im.blobs), TimeIndexBytes(im.entries), SrcIndexBytes(im.keys, im.index);
    var f := FileBytes(im);
    FileSections(im, Footer(im.meta));
    if HasHeader(im.opts) {
      HeaderDetected(im.opts, c + t + s + Footer(im.meta), im.meta.tiOff);
    } else if im.blocks == [] {
      assert Concat(im.blobs) == [];
    } else {
      FirstBlock(codec, im);
      var first := RowBlock(codec.crc, im.blocks[0]);
      HeaderlessDetected(codec.crc, im.blocks[0], f[|first|..], HEADER_SIZE);
      assert f == first + f[|first|..];
    }
  }

  lemma FirstBlock(codec: Codec, im: Image)
    requires Finished(codec, im) && ImageFits(im) && !HasHeader(im.opts) && im.blocks != []
    ensures Holds(FileBytes(im), 0, RowBlock(codec.crc, im.blocks[0])) && |im.blocks[0]| < TWO_32 && im.blocks[0] != []
  {
    assert IndexedAt(codec, im.opts, im.blocks, im.blobs, im.entries, 0) && BlockFits(im.opts.columnar, im.blocks[0]);
    BlobInFile(im, 0);
    assert Concat(im.blobs[..0]) == [];
  }

  lemma BlobInFile(im: Image, i: nat)
    requires KeysCover(im.keys, im.index) && i < |im.blobs|
    ensures Holds(FileBytes(im), |Header(im.opts)| + |Concat(im.blobs[..i])|, im.blobs[i])
  {
    var h, c, t, s := Header(im.opts), Concat(im.blobs), TimeIndexBytes(im.entries), SrcIndexBytes(im.keys, im.index);
    var off := |Concat(im.blobs[..i])|;
    ConcatAt(im.blobs, i);
    HoldsBehind(h, c, off, im.blobs[i], |h| + off);
    HoldsInFront(h + c, t, |h| + off, im.blobs[i]);
    HoldsInFront(h + c + t, s, |h| + off, im.blobs[i]);
    HoldsInFront(h + c + t + s, Footer(im.meta), |h| + off, im.blobs[i]);
  }

  lemma EntriesFit(codec: Codec, im: Image)
    requires Finished(codec, im) && ImageFits(im)
    ensures forall i :: 0 <= i < |im.entries| ==> EntryFits(im.entries[i])
    ensures MetaFits(im.meta) && (im.meta.count > 0 ==> im.meta.tiSize > 0)
  {
    FileSections(im, Footer(im.meta));
    forall i | 0 <= i < |im.entries|
      ensures EntryFits(im.entries[i])
    {
      assert IndexedAt(codec, im.opts, im.blocks, im.blobs, im.entries, i);
      ConcatAt(im.blobs, i);
    }
    if im.blocks == [] { assert Flat(im.blocks) == []; }
  }

  lemma SrcBytesEmpty(keys: seq<Data>, index: map<Data, SrcEntry>)
    requires forall k :: k in keys ==> k in index
    ensures |SrcIndexBytes(keys, index)| == 0 <==> keys == []
  {}

  /** NewReader on a finished file recovers the writer's metadata, both indexes and the version. */
  lemma OpenWritten(codec: Codec, im: Image, path: string)
    requires Finished(codec, im) && ImageFits(im) && Unambiguous(im)
    ensures OpenFile(path, FileBytes(im)) == Opened(ReaderOf(path, im))
  {
    FooterRead(codec, im);
    VersionWritten(codec, im);
    ReadTimeIndex(codec, im);
    ReadSrcIndex(codec, im);
    SrcBytesEmpty(im.keys, im.index);
    OpenPieces(path, FileBytes(im), im.meta, TimeIndexBytes(im.entries), SrcIndexBytes(im.keys, im.index), im.index);
  }

  lemma OpenPieces(path: string, file: Data, m: Meta, times: Data, sources: Data, index: map<Data, SrcEntry>)
    requires |file| >= FOOTER_SIZE && ParseFooter(file[|file| - FOOTER_SIZE..]) == Some(m)
             && (m.count > 0 ==> m.tiSize > 0)
    requires |times| == m.tiSize && ReadAt(file, m.tiOff, m.tiSize) == Some(times)
    requires |sources| == m.siSize && ReadAt(file, m.siOff, m.siSize) == Some(sources)
             && ParseSrcIndex(sources, 0, map[]) == Some(index)
    ensures OpenFile(path, file)
            == Opened(Reader(path, file, m, ParseTimeIndex(times),
                             if m.siSize == 0 then None else Some(index), Detect(file, m.tiOff)))
  {}

  lemma FooterRead(codec: Codec, im: Image)
    requires Finished(codec, im) && ImageFits(im)
    ensures |FileBytes(im)| >= FOOTER_SIZE
            && ParseFooter(FileBytes(im)[|FileBytes(im)| - FOOTER_SIZE..]) == Some(im.meta)
    ensures im.meta.count > 0 ==> im.meta.tiSize > 0
  {
    EntriesFit(codec, im);
    FileSections(im, Footer(im.meta));
    FooterRoundTrip(im.meta);
  }

  lemma HoldsReads(file: Data, off: nat, piece: Data)
    requires Holds(file, off, piece)
    ensures ReadAt(file, off, |piece|) == Some(piece)
  {}

  lemma ReadTimeIndex(codec: Codec, im: Image)
    requires Finished(codec, im) && ImageFits(im)
    ensures ReadAt(FileBytes(im), im.meta.tiOff, im.meta.tiSize) == Some(TimeIndexBytes(im.entries))
    ensures ParseTimeIndex(TimeIndexBytes(im.entries)) == im.entries
  {
    EntriesFit(codec, im);
    FileSections(im, Footer(im.meta));
    TimeIndexRoundTrip(im.entries);
    HoldsReads(FileBytes(im), im.meta.tiOff, TimeIndexBytes(im.entries));
  }

  lemma ReadSrcIndex(codec: Codec, im: Image)
    requires Finished(codec, im) && ImageFits(im)
    ensures ReadAt(FileBytes(im), im.meta.siOff, im.meta.siSize) == Some(SrcIndexBytes(im.keys, im.index))
    ensures ParseSrcIndex(SrcIndexBytes(im.keys, im.index), 0, map[]) == Some(im.index)
  {
    FileSections(im, Footer(im.meta));
    SrcIndexRoundTrip(im.keys, im.index);
    HoldsReads(FileBytes(im), im.meta.siOff, SrcIndexBytes(im.keys, im.index));
  }

  lemma BlobReads(codec: Codec, im: Image, path: string, i: nat)
    requires Finished(codec, im) && ImageFits(im) && i < |im.blocks|
    ensures StoredAt(ReaderOf(path, im), i) == Some(im.blobs[i])
  {
    assert IndexedAt(codec, im.opts, im.blocks, im.blobs, im.entries, i);
    assert |im.blobs[i]| % TWO_32 == |im.blobs[i]| by { NoTruncation(|im.blobs[i]|); }
    BlobInFile(im, i);
    HeldIsStored(ReaderOf(path, im), i, im.blobs[i]);
  }

  lemma NoTruncation(n: nat)
    requires n < TWO_32
    ensures n % TWO_32 == n
  {}

  lemma HeldIsStored(rd: Reader, i: nat, blob: Data)
    requires i < |rd.timeIndex| && rd.timeIndex[i].size == |blob| && Holds(rd.file, rd.timeIndex[i].offset, blob)
    ensures StoredAt(rd, i) == Some(blob)
  {}

  lemma BlobLoads(codec: Codec, im: Image, i: nat)
    requires Lossless(codec) && Finished(codec, im) && ImageFits(im) && i < |im.blocks|
    ensures LoadBlock(codec, im.opts.compression, im.opts.columnar, im.blobs[i]) == Some(im.blocks[i])
  {
    assert IndexedAt(codec, im.opts, im.blocks, im.blobs, im.entries, i);
    assert BlockFits(im.opts.columnar, im.blocks[i]);
    LoadStored(codec, im.opts, im.blocks[i]);
  }

  /** Every block of a finished file reads back as the records that went in. */
  lemma WrittenBlock(codec: Codec, im: Image, path: string, i: nat)
    requires Lossless(codec) && Finished(codec, im) && ImageFits(im) && i < |im.blocks|
    ensures BlockAt(codec, ReaderOf(path, im), i) == Some(im.blocks[i])
  {
    BlobReads(codec, im, path, i);
    BlobLoads(codec, im, i);
  }

  lemma WrittenRepresents(codec: Codec, im: Image, path: string)
    requires Lossless(codec) && Finished(codec, im) && ImageFits(im)
    ensures Represents(codec, ReaderOf(path, im), im.blocks)
  {
    var rd := ReaderOf(path, im);
    forall i | 0 <= i < |im.blocks|
      ensures BlockAt(codec, rd, i) == Some(im.blocks[i])
    {
      WrittenBlock(codec, im, path, i);
    }
    forall i | 0 <= i < |im.blocks|
      ensures im.blocks[i] != [] && rd.timeIndex[i].minTs == im.blocks[i][0].ts
    {
      assert IndexedAt(codec, im.opts, im.blocks, im.blobs, im.entries, i);
    }
    if im.keys != [] { assert im.keys[0] in im.index; }
  }
}
