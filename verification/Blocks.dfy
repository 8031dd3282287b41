/** The row and columnar data blocks (internal/sstable/block.go). */
module Blocks {
  import opened Bytes
  import opened Records
  import opened Framing

  // ---------------------------------------------------------------- the checksum trailer

  function Seal(crc: Checksum, payload: Data): (d: Data)
    ensures |d| == |payload| + 4
  {
    payload + PutU32(crc(payload))
  }

  /** The part before the checksum of a block of at least least bytes whose checksum is right. */
  function Unseal(crc: Checksum, data: Data, least: nat): (p: Option<Data>)
    requires least >= 4
    ensures p.Some? ==> |p.value| == |data| - 4 && |data| >= least
  {
    if |data| < least then None
    else
      var n := |data| - 4;
      if crc(data[..n]) != GetU32(data[n..]) then None else Some(data[..n])
  }

  lemma UnsealSeal(crc: Checksum, payload: Data, least: nat)
    requires 4 <= least <= |payload| + 4
    ensures Unseal(crc, Seal(crc, payload), least) == Some(payload)
  {
    var d := Seal(crc, payload);
    assert d[..|payload|] == payload && d[|payload|..] == PutU32(crc(payload));
  }

  /** On any bytes and for any checksum function: exactly a long enough block that ends in its checksum is accepted. */
  lemma UnsealIff(crc: Checksum, data: Data, least: nat, payload: Data)
    requires least >= 4
    ensures Unseal(crc, data, least) == Some(payload) <==> |data| >= least && data == payload + PutU32(crc(payload))
  {
    if |data| >= least {
      var n := |data| - 4;
      assert data == data[..n] + data[n..];
      PutGetU32(data[n..]);
      if data == payload + PutU32(crc(payload)) { assert data[..n] == payload && data[n..] == PutU32(crc(payload)); }
    }
  }

  // ---------------------------------------------------------------- row blocks

  /** Lengths that fit their 32-bit fields. */
  predicate Lengths32(r: Record) {
    |r.src| < TWO_32 && |r.payload| < TWO_32
  }

  predicate AllLengths32(rs: seq<Record>) {
    forall i :: 0 <= i < |rs| ==> Lengths32(rs[i])
  }

  datatype Parsed = Parsed(view: Record, next: nat)

  /** parseRecordAt: None is ErrBlockCorrupt, next the advanced offset. */
  function ParseRecordAt(payload: Data, off: nat): (r: Option<Parsed>)
    ensures r.Some? ==> off < r.value.next <= |payload|
  {
    if off + 12 > |payload| then None
    else
      var srcLen := GetU32(payload[off + 8..off + 12]);
      var o := off + 12;
      if o + srcLen + 4 > |payload| then None
      else
        var o2 := o + srcLen + 4;
        var payloadLen := GetU32(payload[o + srcLen..o2]);
        if o2 + payloadLen > |payload| then None
        else Some(Parsed(Record(GetI64(payload[off..off + 8]), payload[o..o + srcLen], payload[o2..o2 + payloadLen]),
                         o2 + payloadLen))
  }

  /** The five fields of r, one after the other from off to end. */
  ghost predicate Pieces(payload: Data, off: nat, r: Record, s: nat, p: nat, end: nat) {
    s == off + 12 + |r.src| && p == s + 4 && end == p + |r.payload| && end <= |payload|
    && payload[off..off + 8] == PutI64(r.ts) && payload[off + 8..off + 12] == PutU32(|r.src|)
    && payload[off + 12..s] == r.src
    && payload[s..p] == PutU32(|r.payload|) && payload[p..end] == r.payload
  }

  lemma PiecesParse(payload: Data, off: nat, r: Record, s: nat, p: nat, end: nat)
    requires Lengths32(r) && Pieces(payload, off, r, s, p, end)
    ensures ParseRecordAt(payload, off) == Some(Parsed(r, end))
  {
    var o := off + 12;
    assert GetU32(payload[off + 8..o]) == |r.src| && o + |r.src| == s;
    assert GetU32(payload[s..p]) == |r.payload|;
    assert payload[o..s] == r.src && payload[p..end] == r.payload;
  }

  lemma ParsedPieces(payload: Data, off: nat, s: nat, p: nat)
    requires ParseRecordAt(payload, off).Some?
    requires s == off + 12 + |ParseRecordAt(payload, off).value.view.src| && p == s + 4
    ensures Pieces(payload, off, ParseRecordAt(payload, off).value.view, s, p, ParseRecordAt(payload, off).value.next)
  {
    var v := ParseRecordAt(payload, off).value.view;
    assert PutI64(v.ts) == payload[off..off + 8] by { PutGetI64(payload[off..off + 8]); }
    assert PutU32(|v.src|) == payload[off + 8..off + 12] by { PutGetU32(payload[off + 8..off + 12]); }
    assert PutU32(|v.payload|) == payload[s..p] by { PutGetU32(payload[s..p]); }
  }

  lemma PiecesAreBody(payload: Data, off: nat, r: Record, s: nat, p: nat, end: nat)
    requires Pieces(payload, off, r, s, p, end)
    ensures Holds(payload, off, RecordBody(r))
  {
    JoinFive(payload, off, off + 8, off + 12, s, p, end, PutI64(r.ts), PutU32(|r.src|), r.src, PutU32(|r.payload|),
             r.payload);
  }

  lemma BodyInPieces(payload: Data, off: nat, r: Record, s: nat, p: nat, end: nat)
    requires Holds(payload, off, RecordBody(r)) && s == off + 12 + |r.src| && p == s + 4 && end == p + |r.payload|
    ensures Pieces(payload, off, r, s, p, end)
  {
    SplitFive(payload, off, off + 8, off + 12, s, p, end, PutI64(r.ts), PutU32(|r.src|), r.src, PutU32(|r.payload|),
              r.payload);
  }

  lemma EncodedRecordParses(payload: Data, off: nat, r: Record, end: nat)
    requires Lengths32(r) && Holds(payload, off, RecordBody(r)) && end == off + |RecordBody(r)|
    ensures ParseRecordAt(payload, off) == Some(Parsed(r, end))
  {
    var s := off + 12 + |r.src|;
    var p := s + 4;
    assert Pieces(payload, off, r, s, p, end) by { BodyInPieces(payload, off, r, s, p, end); }
    PiecesParse(payload, off, r, s, p, end);
  }

  lemma ParsedRecordIsThere(payload: Data, off: nat)
    requires ParseRecordAt(payload, off).Some?
    ensures var p := ParseRecordAt(payload, off).value;
            Lengths32(p.view) && p.next == off + |RecordBody(p.view)| && Holds(payload, off, RecordBody(p.view))
  {
    var p := ParseRecordAt(payload, off).value;
    var s := off + 12 + |p.view.src|;
    ParsedPieces(payload, off, s, s + 4);
    PiecesAreBody(payload, off, p.view, s, s + 4, p.next);
  }

  function Rows(rs: seq<Record>): Data {
    if rs == [] then [] else RecordBody(rs[0]) + Rows(rs[1..])
  }

  function ParseRows(payload: Data, off: nat, n: nat): (r: Option<seq<Record>>)
    ensures r.Some? ==> |r.value| == n
    decreases n
  {
    if n == 0 then Some([])
    else
      match ParseRecordAt(payload, off)
      case None => None
      case Some(p) =>
        var rest := ParseRows(payload, p.next, n - 1);
        if rest.None? then None else Some([p.view] + rest.value)
  }

  lemma ParseRowsStep(payload: Data, off: nat, r: Record, next: nat, rs: seq<Record>)
    requires ParseRecordAt(payload, off) == Some(Parsed(r, next)) && ParseRows(payload, next, |rs|) == Some(rs)
    ensures ParseRows(payload, off, |rs| + 1) == Some([r] + rs)
  {}

  lemma {:induction false} EncodedRowsParse(payload: Data, off: nat, rs: seq<Record>)
    requires AllLengths32(rs) && Holds(payload, off, Rows(rs))
    ensures ParseRows(payload, off, |rs|) == Some(rs)
    decreases |rs|
  {
    if rs != [] {
      var next := off + |RecordBody(rs[0])|;
      assert rs == [rs[0]] + rs[1..];
      HoldsConcat(payload, off, RecordBody(rs[0]), Rows(rs[1..]));
      assert forall i :: 0 <= i < |rs[1..]| ==> rs[1..][i] == rs[i + 1];
      EncodedRowsParse(payload, next, rs[1..]);
      assert ParseRecordAt(payload, off) == Some(Parsed(rs[0], next)) by {
        EncodedRecordParses(payload, off, rs[0], next);
      }
      ParseRowsStep(payload, off, rs[0], next, rs[1..]);
    }
  }

  lemma {:induction false} ParsedRowsAreThere(payload: Data, off: nat, n: nat)
    requires off <= |payload| && ParseRows(payload, off, n).Some?
    ensures var rs := ParseRows(payload, off, n).value;
            AllLengths32(rs) && Holds(payload, off, Rows(rs))
    decreases n
  {
    if n > 0 {
      var p := ParseRecordAt(payload, off).value;
      var rest := ParseRows(payload, p.next, n - 1).value;
      ParsedRowsAreThere(payload, p.next, n - 1);
      ParsedRecordIsThere(payload, off);
      RowInFront(payload, off, p.view, rest);
    }
  }

  lemma RowInFront(payload: Data, off: nat, r: Record, rest: seq<Record>)
    requires Lengths32(r) && Holds(payload, off, RecordBody(r)) && AllLengths32(rest)
    requires Holds(payload, off + |RecordBody(r)|, Rows(rest))
    ensures AllLengths32([r] + rest) && Holds(payload, off, Rows([r] + rest))
  {
    assert ([r] + rest)[1..] == rest;
    HoldsConcat(payload, off, RecordBody(r), Rows(rest));
  }

  function RowPayload(rs: seq<Record>): Data {
    PutU32(|rs|) + Rows(rs)
  }

  function RowBlock(crc: Checksum, rs: seq<Record>): Data {
    Seal(crc, RowPayload(rs))
  }

  /** decodeBlock. */
  function DecodeRowBlock(crc: Checksum, data: Data): Option<seq<Record>> {
    match Unseal(crc, data, 8)
    case None => None
    case Some(payload) => ParseRows(payload, 4, GetU32(payload[..4]))
  }

  /** On any bytes: decodeBlock accepts exactly a checked count and that many encodings; what follows is ignored. */
  lemma RowDecodeIff(crc: Checksum, data: Data, rs: seq<Record>)
    ensures DecodeRowBlock(crc, data) == Some(rs)
            <==> Unseal(crc, data, 8).Some? && |rs| < TWO_32 && AllLengths32(rs)
                 && Holds(Unseal(crc, data, 8).value, 0, RowPayload(rs))
  {
    if Unseal(crc, data, 8).Some? {
      var payload := Unseal(crc, data, 8).value;
      var n := GetU32(payload[..4]);
      HoldsConcat(payload, 0, PutU32(|rs|), Rows(rs));
      PutGetU32(payload[..4]);
      if DecodeRowBlock(crc, data) == Some(rs) {
        ParsedRowsAreThere(payload, 4, n);
      } else if Holds(payload, 4, Rows(rs)) && AllLengths32(rs) {
        EncodedRowsParse(payload, 4, rs);
      }
    }
  }

  lemma RowRoundTrip(crc: Checksum, rs: seq<Record>)
    requires |rs| < TWO_32 && AllLengths32(rs)
    ensures DecodeRowBlock(crc, RowBlock(crc, rs)) == Some(rs)
  {
    UnsealSeal(crc, RowPayload(rs), 8);
    var p := RowPayload(rs);
    assert p[0..|p|] == p;
    RowDecodeIff(crc, RowBlock(crc, rs), rs);
  }

  lemma {:induction false} RowsAppend(rs: seq<Record>, r: Record)
    ensures Rows(rs + [r]) == Rows(rs) + RecordBody(r)
  {
    if rs == [] {
      assert Rows([r]) == RecordBody(r) + Rows([]);
    } else {
      assert (rs + [r])[1..] == rs[1..] + [r];
      RowsAppend(rs[1..], r);
    }
  }

  method EncodeBlock(crc: Checksum, rs: seq<Record>) returns (buf: Data)
    ensures buf == RowBlock(crc, rs)
  {
    buf := PutU32(|rs|);
    for i := 0 to |rs|
      invariant buf == PutU32(|rs|) + Rows(rs[..i])
    {
      RowsAppend(rs[..i], rs[i]);
      assert rs[..i + 1] == rs[..i] + [rs[i]];
      Assoc(PutU32(|rs|), Rows(rs[..i]), RecordBody(rs[i]));
      buf := buf + RecordBody(rs[i]);
    }
    assert rs[..|rs|] == rs;
    buf := buf + PutU32(crc(buf));
  }

  /** done, then what is still to be decoded. */
  function Resumed<T>(done: seq<T>, rest: Option<seq<T>>): Option<seq<T>> {
    if rest.None? then None else Some(done + rest.value)
  }

  lemma ResumeRow(payload: Data, off: nat, n: nat, done: seq<Record>)
    requires n > 0 && ParseRecordAt(payload, off).Some?
    ensures var p := ParseRecordAt(payload, off).value;
            Resumed(done, ParseRows(payload, off, n)) == Resumed(done + [p.view], ParseRows(payload, p.next, n - 1))
  {
    var p := ParseRecordAt(payload, off).value;
    var rest := ParseRows(payload, p.next, n - 1);
    if rest.Some? { assert done + ([p.view] + rest.value) == done + [p.view] + rest.value; }
  }

  method DecodeBlock(crc: Checksum, data: Data) returns (r: Option<seq<Record>>)
    ensures r == DecodeRowBlock(crc, data)
  {
    var checked := ValidateBlock(crc, data);
    if checked.None? { return None; }
    var payload := checked.value;
    var count := GetU32(payload[..4]);
    var records: seq<Record> := [];
    var off := 4;
    ghost var whole := ParseRows(payload, 4, count);
    if whole.Some? { assert [] + whole.value == whole.value; }
    for i := 0 to count
      invariant 4 <= off <= |payload|
      invariant whole == Resumed(records, ParseRows(payload, off, count - i))
    {
      var p := ParseRecordAt(payload, off);
      if p.None? { return None; }
      ResumeRow(payload, off, count - i, records);
      records := records + [p.value.view];
      off := p.value.next;
    }
    assert ParseRows(payload, off, 0) == Some([]) && records + [] == records;
    return Some(records);
  }

  /** validateBlock, of a row block. */
  method ValidateBlock(crc: Checksum, data: Data) returns (p: Option<Data>)
    ensures p == Unseal(crc, data, 8)
  {
    if |data| < 8 { return None; }
    var payload := data[..|data| - 4];
    if crc(payload) != GetU32(data[|data| - 4..]) { return None; }
    return Some(payload);
  }

  // ---------------------------------------------------------------- length-prefixed columns

  /** Len(4) | bytes, for each field. */
  function Column(fields: seq<Data>): Data {
    if fields == [] then [] else PutU32(|fields[0]|) + fields[0] + Column(fields[1..])
  }

  predicate AllFit32(fields: seq<Data>) {
    forall i :: 0 <= i < |fields| ==> |fields[i]| < TWO_32
  }

  datatype Fields = Fields(all: seq<Data>, next: nat)

  /** The decoder's loop over one column that may not reach past end. */
  function ParseColumn(payload: Data, off: nat, end: nat, n: nat): (r: Option<Fields>)
    requires off <= end <= |payload|
    ensures r.Some? ==> |r.value.all| == n && r.value.next <= end
    decreases n
  {
    if n == 0 then Some(Fields([], off))
    else if off + 4 > end then None
    else
      var len := GetU32(payload[off..off + 4]);
      if off + 4 + len > end then None
      else
        match ParseColumn(payload, off + 4 + len, end, n - 1)
        case None => None
        case Some(rest) => Some(Fields([payload[off + 4..off + 4 + len]] + rest.all, rest.next))
  }

  lemma FieldThere(payload: Data, off: nat, mid: nat, next: nat, field: Data)
    requires mid == off + 4 && next == mid + |field| && next <= |payload| && |field| < TWO_32
    ensures Holds(payload, off, PutU32(|field|) + field) <==>
              GetU32(payload[off..mid]) == |field| && payload[mid..next] == field
  {
    PutGetU32(payload[off..mid]);
    if GetU32(payload[off..mid]) == |field| && payload[mid..next] == field {
      JoinTwo(payload, off, mid, next, PutU32(|field|), field);
    } else if Holds(payload, off, PutU32(|field|) + field) {
      SplitTwo(payload, off, mid, next, PutU32(|field|), field);
    }
  }

  lemma {:induction false} EncodedColumnParses(payload: Data, off: nat, end: nat, fields: seq<Data>, next: nat)
    requires end <= |payload| && next == off + |Column(fields)| && next <= end
    requires AllFit32(fields) && Holds(payload, off, Column(fields))
    ensures ParseColumn(payload, off, end, |fields|) == Some(Fields(fields, next))
    decreases |fields|
  {
    if fields != [] {
      var field, rest := fields[0], fields[1..];
      var mid := off + 4;
      var o := mid + |field|;
      assert fields == [field] + rest;
      HoldsConcat(payload, off, PutU32(|field|) + field, Column(rest));
      FieldThere(payload, off, mid, o, field);
      EncodedColumnParses(payload, o, end, rest, next);
    }
  }

  lemma {:induction false} ParsedColumnIsThere(payload: Data, off: nat, end: nat, n: nat)
    requires off <= end <= |payload| && ParseColumn(payload, off, end, n).Some?
    ensures var r := ParseColumn(payload, off, end, n).value;
            AllFit32(r.all) && r.next == off + |Column(r.all)| && Holds(payload, off, Column(r.all))
    decreases n
  {
    if n > 0 {
      var r := ParseColumn(payload, off, end, n).value;
      var mid := off + 4;
      var o := mid + GetU32(payload[off..mid]);
      var field, rest := payload[mid..o], ParseColumn(payload, o, end, n - 1).value;
      ParsedColumnIsThere(payload, o, end, n - 1);
      FieldThere(payload, off, mid, o, field);
      assert r.all == [field] + rest.all && r.all[1..] == rest.all;
      HoldsConcat(payload, off, PutU32(|field|) + field, Column(rest.all));
    }
  }

  // ---------------------------------------------------------------- the timestamps column

  function Stamps(rs: seq<Record>): (ts: seq<Int64>)
    ensures |ts| == |rs|
  {
    seq(|rs|, i requires 0 <= i < |rs| => rs[i].ts)
  }

  function Sources(rs: seq<Record>): (s: seq<Data>)
    ensures |s| == |rs|
  {
    seq(|rs|, i requires 0 <= i < |rs| => rs[i].src)
  }

  function Payloads(rs: seq<Record>): (s: seq<Data>)
    ensures |s| == |rs|
  {
    seq(|rs|, i requires 0 <= i < |rs| => rs[i].payload)
  }

  function Times(ts: seq<Int64>): (b: Data)
    ensures |b| == 8 * |ts|
  {
    if ts == [] then [] else PutI64(ts[0]) + Times(ts[1..])
  }

  /** The timestamp at position i of the column at off. */
  function TimeAt(payload: Data, off: nat, i: nat): Int64
    requires off + 8 * i + 8 <= |payload|
  {
    GetI64(payload[off + 8 * i..off + 8 * i + 8])
  }

  ghost predicate TimesThere(payload: Data, off: nat, ts: seq<Int64>) {
    off + 8 * |ts| <= |payload| && forall i :: 0 <= i < |ts| ==> TimeAt(payload, off, i) == ts[i]
  }

  lemma TimeThere(payload: Data, off: nat, next: nat, t: Int64)
    requires next == off + 8 && next <= |payload|
    ensures Holds(payload, off, PutI64(t)) <==> TimeAt(payload, off, 0) == t
  {
    PutGetI64(payload[off..next]);
    assert TimeAt(payload, off, 0) == GetI64(payload[off..next]);
  }

  lemma {:induction false} TimesIff(payload: Data, off: nat, ts: seq<Int64>)
    ensures Holds(payload, off, Times(ts)) <==> TimesThere(payload, off, ts)
    decreases |ts|
  {
    if ts != [] && off + 8 * |ts| <= |payload| {
      var rest, next := ts[1..], off + 8;
      HoldsConcat(payload, off, PutI64(ts[0]), Times(rest));
      TimesIff(payload, next, rest);
      TimeThere(payload, off, next, ts[0]);
      TimesShift(payload, off, next, ts, rest);
    }
  }

  lemma TimesShift(payload: Data, off: nat, next: nat, ts: seq<Int64>, rest: seq<Int64>)
    requires ts != [] && rest == ts[1..] && next == off + 8 && off + 8 * |ts| <= |payload|
    ensures TimesThere(payload, off, ts) <==> TimeAt(payload, off, 0) == ts[0] && TimesThere(payload, next, rest)
  {
    forall i | 0 <= i < |rest|
      ensures TimeAt(payload, next, i) == TimeAt(payload, off, i + 1) && rest[i] == ts[i + 1]
    {
    }
    if TimeAt(payload, off, 0) == ts[0] && TimesThere(payload, next, rest) {
      forall i | 0 <= i < |ts|
        ensures TimeAt(payload, off, i) == ts[i]
      {
        if i > 0 { assert TimeAt(payload, next, i - 1) == rest[i - 1]; }
      }
    }
  }

  // ---------------------------------------------------------------- columnar blocks

  function ColHeader(rs: seq<Record>): (b: Data)
    ensures |b| == 12
  {
    PutU32(|rs|) + PutU32(|Column(Sources(rs))|) + PutU32(|Column(Payloads(rs))|)
  }

  function ColPayload(rs: seq<Record>): Data {
    ColHeader(rs) + Times(Stamps(rs)) + Column(Sources(rs)) + Column(Payloads(rs))
  }

  function ColBlock(crc: Checksum, rs: seq<Record>): Data {
    Seal(crc, ColPayload(rs))
  }

  /** Timestamps from the column at 12, the rest from the other two columns. */
  function Zip(payload: Data, sources: seq<Data>, payloads: seq<Data>): (rs: seq<Record>)
    requires |sources| == |payloads| && 12 + 8 * |sources| <= |payload|
    ensures |rs| == |sources|
  {
    seq(|sources|, i requires 0 <= i < |sources| => Record(TimeAt(payload, 12, i), sources[i], payloads[i]))
  }

  /** decodeColBlock, after the checksum. */
  function ParseColumns(p: Data): Option<seq<Record>>
    requires |p| >= 12
  {
    var n, size := GetU32(p[..4]), GetU32(p[4..8]);
    var tsEnd := 12 + 8 * n;
    var srcEnd := tsEnd + size;
    if tsEnd > |p| || srcEnd > |p| then None
    else
      var sources, payloads := ParseColumn(p, tsEnd, srcEnd, n), ParseColumn(p, srcEnd, |p|, n);
      if sources.None? || payloads.None? then None else Some(Zip(p, sources.value.all, payloads.value.all))
  }

  function DecodeColBlock(crc: Checksum, data: Data): Option<seq<Record>> {
    match Unseal(crc, data, 16)
    case None => None
    case Some(p) => ParseColumns(p)
  }

  /** The columns of rs where the header's sizes put them; the sources may leave slack, and so may the end. */
  ghost predicate ColumnsThere(p: Data, rs: seq<Record>, size: nat, tsEnd: nat, srcEnd: nat)
    requires |p| >= 12
  {
    p[..4] == PutU32(|rs|) && p[4..8] == PutU32(size) && tsEnd == 12 + 8 * |rs| && srcEnd == tsEnd + size
    && srcEnd <= |p|
    && |rs| < TWO_32 && size < TWO_32 && AllLengths32(rs) && Holds(p, 12, Times(Stamps(rs)))
    && tsEnd + |Column(Sources(rs))| <= srcEnd && Holds(p, tsEnd, Column(Sources(rs)))
    && Holds(p, srcEnd, Column(Payloads(rs)))
  }

  lemma ZipBack(p: Data, rs: seq<Record>)
    requires 12 + 8 * |rs| <= |p| && TimesThere(p, 12, Stamps(rs))
    ensures Zip(p, Sources(rs), Payloads(rs)) == rs
  {
    var z := Zip(p, Sources(rs), Payloads(rs));
    forall i | 0 <= i < |rs|
      ensures z[i] == rs[i]
    {
      assert TimeAt(p, 12, i) == Stamps(rs)[i];
    }
  }

  lemma LengthsOfColumns(rs: seq<Record>)
    ensures AllLengths32(rs) <==> AllFit32(Sources(rs)) && AllFit32(Payloads(rs))
  {
    if AllFit32(Sources(rs)) && AllFit32(Payloads(rs)) {
      forall i | 0 <= i < |rs|
        ensures Lengths32(rs[i])
      {
        assert Sources(rs)[i] == rs[i].src && Payloads(rs)[i] == rs[i].payload;
      }
    }
  }

  lemma EncodedColumnsParse(p: Data, rs: seq<Record>, size: nat, tsEnd: nat, srcEnd: nat)
    requires |p| >= 12 && ColumnsThere(p, rs, size, tsEnd, srcEnd)
    ensures ParseColumns(p) == Some(rs)
  {
    var end1, end2 := tsEnd + |Column(Sources(rs))|, srcEnd + |Column(Payloads(rs))|;
    LengthsOfColumns(rs);
    assert ParseColumn(p, tsEnd, srcEnd, |rs|) == Some(Fields(Sources(rs), end1)) by {
      EncodedColumnParses(p, tsEnd, srcEnd, Sources(rs), end1);
    }
    assert ParseColumn(p, srcEnd, |p|, |rs|) == Some(Fields(Payloads(rs), end2)) by {
      EncodedColumnParses(p, srcEnd, |p|, Payloads(rs), end2);
    }
    assert Zip(p, Sources(rs), Payloads(rs)) == rs by {
      TimesIff(p, 12, Stamps(rs));
      ZipBack(p, rs);
    }
    ColumnsParse(p, |rs|, size, tsEnd, srcEnd, Fields(Sources(rs), end1), Fields(Payloads(rs), end2));
  }

  lemma ColumnsParse(p: Data, n: nat, size: nat, tsEnd: nat, srcEnd: nat, sources: Fields, payloads: Fields)
    requires |p| >= 12 && n < TWO_32 && size < TWO_32 && p[..4] == PutU32(n) && p[4..8] == PutU32(size)
    requires tsEnd == 12 + 8 * n && srcEnd == tsEnd + size && srcEnd <= |p|
    requires ParseColumn(p, tsEnd, srcEnd, n) == Some(sources) && ParseColumn(p, srcEnd, |p|, n) == Some(payloads)
    ensures ParseColumns(p) == Some(Zip(p, sources.all, payloads.all))
  {}

  lemma Unzip(p: Data, sources: seq<Data>, payloads: seq<Data>)
    requires |sources| == |payloads| && 12 + 8 * |sources| <= |p|
    ensures Sources(Zip(p, sources, payloads)) == sources && Payloads(Zip(p, sources, payloads)) == payloads
    ensures TimesThere(p, 12, Stamps(Zip(p, sources, payloads)))
  {}

  lemma ParsedColumnsAreThere(p: Data, size: nat, tsEnd: nat, srcEnd: nat)
    requires |p| >= 12 && ParseColumns(p).Some? && size == GetU32(p[4..8])
    requires tsEnd == 12 + 8 * GetU32(p[..4]) && srcEnd == tsEnd + size
    ensures ColumnsThere(p, ParseColumns(p).value, size, tsEnd, srcEnd)
  {
    var n, rs := GetU32(p[..4]), ParseColumns(p).value;
    var sources, payloads := ParseColumn(p, tsEnd, srcEnd, n).value, ParseColumn(p, srcEnd, |p|, n).value;
    ParsedColumnIsThere(p, tsEnd, srcEnd, n);
    ParsedColumnIsThere(p, srcEnd, |p|, n);
    Unzip(p, sources.all, payloads.all);
    TimesIff(p, 12, Stamps(rs));
    LengthsOfColumns(rs);
    PutGetU32(p[..4]);
    PutGetU32(p[4..8]);
  }

  /** The columns of rs where the header of p puts them. */
  ghost predicate ColumnsHeld(p: Data, rs: seq<Record>)
    requires |p| >= 12
  {
    var size, tsEnd := GetU32(p[4..8]), 12 + 8 * |rs|;
    var srcEnd := tsEnd + size;
    ColumnsThere(p, rs, size, tsEnd, srcEnd)
  }

  lemma ParseColumnsIff(p: Data, rs: seq<Record>)
    requires |p| >= 12
    ensures ParseColumns(p) == Some(rs) <==> ColumnsHeld(p, rs)
  {
    var size, tsEnd := GetU32(p[4..8]), 12 + 8 * |rs|;
    var srcEnd := tsEnd + size;
    if ParseColumns(p) == Some(rs) {
      ParsedColumnsAreThere(p, size, tsEnd, srcEnd);
    }
    if ColumnsThere(p, rs, size, tsEnd, srcEnd) {
      EncodedColumnsParse(p, rs, size, tsEnd, srcEnd);
    }
  }

  /** On any bytes: decodeColBlock accepts exactly a checked header with its three columns in place. */
  lemma ColDecodeIff(crc: Checksum, data: Data, rs: seq<Record>)
    ensures DecodeColBlock(crc, data) == Some(rs) <==>
              Unseal(crc, data, 16).Some? && ColumnsHeld(Unseal(crc, data, 16).value, rs)
  {
    if Unseal(crc, data, 16).Some? {
      ParseColumnsIff(Unseal(crc, data, 16).value, rs);
    }
  }

  lemma ColRoundTrip(crc: Checksum, rs: seq<Record>)
    requires |rs| < TWO_32 && AllLengths32(rs) && |Column(Sources(rs))| < TWO_32
    ensures DecodeColBlock(crc, ColBlock(crc, rs)) == Some(rs)
  {
    var size, tsEnd := |Column(Sources(rs))|, 12 + 8 * |rs|;
    var srcEnd := tsEnd + size;
    UnsealSeal(crc, ColPayload(rs), 16);
    ColPayloadThere(rs, size, tsEnd, srcEnd);
    EncodedColumnsParse(ColPayload(rs), rs, size, tsEnd, srcEnd);
  }

  lemma ColPayloadThere(rs: seq<Record>, size: nat, tsEnd: nat, srcEnd: nat)
    requires |rs| < TWO_32 && AllLengths32(rs) && size < TWO_32
    requires size == |Column(Sources(rs))| && tsEnd == 12 + 8 * |rs| && srcEnd == tsEnd + size
    ensures ColumnsThere(ColPayload(rs), rs, size, tsEnd, srcEnd)
  {
    var h, t, s, q := ColHeader(rs), Times(Stamps(rs)), Column(Sources(rs)), Column(Payloads(rs));
    var p := h + t + s + q;
    HeaderThere(h, t, s, q, PutU32(|rs|), PutU32(size), PutU32(|q|));
    FourSections(h, t, s, q, 12, tsEnd, srcEnd);
  }

  lemma HeaderThere(h: Data, t: Data, s: Data, q: Data, a: Data, b: Data, c: Data)
    requires h == a + b + c && |a| == 4 && |b| == 4 && |c| == 4
    ensures var p := h + t + s + q; p[..4] == a && p[4..8] == b
  {}

  lemma FourSections(h: Data, t: Data, s: Data, q: Data, i: nat, j: nat, k: nat)
    requires i == |h| && j == i + |t| && k == j + |s|
    ensures var p := h + t + s + q; Holds(p, i, t) && Holds(p, j, s) && Holds(p, k, q)
  {
    var p := h + t + s + q;
    assert p[i..j] == t && p[j..k] == s && p[k..k + |q|] == q;
  }

  /** decodeColBlockTimestamps. */
  function DecodeColTimes(crc: Checksum, data: Data): Option<seq<Int64>> {
    match Unseal(crc, data, 16)
    case None => None
    case Some(p) =>
      var n := GetU32(p[..4]);
      if 12 + 8 * n > |p| then None else Some(seq(n, i requires 0 <= i < n => TimeAt(p, 12, i)))
  }

  /** On any bytes: the timestamps-only decode is the timestamps of the full decode. */
  lemma TimesAreProjection(crc: Checksum, data: Data)
    requires DecodeColBlock(crc, data).Some?
    ensures DecodeColTimes(crc, data) == Some(Stamps(DecodeColBlock(crc, data).value))
  {
    var p, rs := Unseal(crc, data, 16).value, DecodeColBlock(crc, data).value;
    var ts := seq(|rs|, i requires 0 <= i < |rs| => TimeAt(p, 12, i));
    assert ts == Stamps(rs);
  }

  lemma {:induction false} ColumnAppend(fields: seq<Data>, field: Data)
    ensures Column(fields + [field]) == Column(fields) + (PutU32(|field|) + field)
  {
    if fields == [] {
      assert fields + [field] == [field] && [field][1..] == [];
      assert Column([field]) == PutU32(|field|) + field + Column([]);
    } else {
      assert (fields + [field])[1..] == fields[1..] + [field];
      ColumnAppend(fields[1..], field);
      Assoc(PutU32(|fields[0]|) + fields[0], Column(fields[1..]), PutU32(|field|) + field);
    }
  }

  lemma {:induction false} TimesAppend(ts: seq<Int64>, t: Int64)
    ensures Times(ts + [t]) == Times(ts) + PutI64(t)
  {
    if ts == [] {
      assert ts + [t] == [t] && [t][1..] == [];
    } else {
      assert (ts + [t])[1..] == ts[1..] + [t];
      TimesAppend(ts[1..], t);
      Assoc(PutI64(ts[0]), Times(ts[1..]), PutI64(t));
    }
  }

  /** A column of the first i + 1 fields. */
  lemma ColumnGrows(fields: seq<Data>, i: nat)
    requires i < |fields|
    ensures Column(fields[..i + 1]) == Column(fields[..i]) + (PutU32(|fields[i]|) + fields[i])
  {
    ColumnAppend(fields[..i], fields[i]);
    assert fields[..i + 1] == fields[..i] + [fields[i]];
  }

  /** Appends one column to buf. */
  method AppendColumn(buf: Data, fields: seq<Data>) returns (r: Data)
    ensures r == buf + Column(fields)
  {
    r := buf;
    for i := 0 to |fields|
      invariant r == buf + Column(fields[..i])
    {
      ColumnGrows(fields, i);
      Assoc(buf, Column(fields[..i]), PutU32(|fields[i]|) + fields[i]);
      r := r + (PutU32(|fields[i]|) + fields[i]);
    }
    assert fields[..|fields|] == fields;
  }

  method ColumnSize(fields: seq<Data>) returns (size: nat)
    ensures size == |Column(fields)|
  {
    size := 0;
    for i := 0 to |fields|
      invariant size == |Column(fields[..i])|
    {
      ColumnGrows(fields, i);
      size := size + 4 + |fields[i]|;
    }
    assert fields[..|fields|] == fields;
  }

  method AppendTimes(buf: Data, ts: seq<Int64>) returns (r: Data)
    ensures r == buf + Times(ts)
  {
    r := buf;
    for i := 0 to |ts|
      invariant r == buf + Times(ts[..i])
    {
      TimesAppend(ts[..i], ts[i]);
      assert ts[..i + 1] == ts[..i] + [ts[i]];
      Assoc(buf, Times(ts[..i]), PutI64(ts[i]));
      r := r + PutI64(ts[i]);
    }
    assert ts[..|ts|] == ts;
  }

  method EncodeColBlock(crc: Checksum, rs: seq<Record>) returns (buf: Data)
    ensures buf == ColBlock(crc, rs)
  {
    var srcSize := ColumnSize(Sources(rs));
    var payloadSize := ColumnSize(Payloads(rs));
    buf := PutU32(|rs|) + PutU32(srcSize) + PutU32(payloadSize);
    buf := AppendTimes(buf, Stamps(rs));
    buf := AppendColumn(buf, Sources(rs));
    buf := AppendColumn(buf, Payloads(rs));
    buf := buf + PutU32(crc(buf));
  }

  lemma ResumeColumn(p: Data, off: nat, end: nat, n: nat, done: seq<Data>, mid: nat, next: nat)
    requires off <= end <= |p| && n > 0 && mid == off + 4 && mid <= end && next == mid + GetU32(p[off..mid])
             && next <= end
    ensures ResumedColumn(done, ParseColumn(p, off, end, n))
              == ResumedColumn(done + [p[mid..next]], ParseColumn(p, next, end, n - 1))
  {
    var rest := ParseColumn(p, next, end, n - 1);
    if rest.Some? { assert done + ([p[mid..next]] + rest.value.all) == done + [p[mid..next]] + rest.value.all; }
  }

  function ResumedColumn(done: seq<Data>, rest: Option<Fields>): Option<seq<Data>> {
    if rest.None? then None else Some(done + rest.value.all)
  }

  /** One of the decoder's two column loops. */
  method ReadColumn(p: Data, start: nat, end: nat, n: nat) returns (r: Option<seq<Data>>)
    requires start <= end <= |p|
    ensures match ParseColumn(p, start, end, n)
            case None => r == None
            case Some(fields) => r == Some(fields.all)
  {
    var done: seq<Data> := [];
    var off: nat := start;
    ghost var whole := ParseColumn(p, start, end, n);
    if whole.Some? { assert [] + whole.value.all == whole.value.all; }
    for i := 0 to n
      invariant off <= end && ResumedColumn([], whole) == ResumedColumn(done, ParseColumn(p, off, end, n - i))
    {
      if off + 4 > end { return None; }
      var mid: nat := off + 4;
      var next: nat := mid + GetU32(p[off..mid]);
      if next > end { return None; }
      ResumeColumn(p, off, end, n - i, done, mid, next);
      done := done + [p[mid..next]];
      off := next;
    }
    assert done + [] == done;
    return Some(done);
  }

  method DecodeColumnar(crc: Checksum, data: Data) returns (r: Option<seq<Record>>)
    ensures r == DecodeColBlock(crc, data)
  {
    if |data| < 16 { return None; }
    var p := data[..|data| - 4];
    if crc(p) != GetU32(data[|data| - 4..]) { return None; }
    var count: nat, size: nat := GetU32(p[..4]), GetU32(p[4..8]);
    var tsEnd: nat := 12 + count * 8;
    if tsEnd > |p| { return None; }
    var srcEnd: nat := tsEnd + size;
    if srcEnd > |p| { return None; }
    var sources := ReadColumn(p, tsEnd, srcEnd, count);
    if sources.None? { return None; }
    var payloads := ReadColumn(p, srcEnd, |p|, count);
    if payloads.None? { return None; }
    var records := ZipColumns(p, sources.value, payloads.value);
    return Some(records);
  }

  method ZipColumns(p: Data, sources: seq<Data>, payloads: seq<Data>) returns (records: seq<Record>)
    requires |sources| == |payloads| && 12 + 8 * |sources| <= |p|
    ensures records == Zip(p, sources, payloads)
  {
    records := [];
    for i := 0 to |sources|
      invariant |records| == i
                && forall j :: 0 <= j < i ==> records[j] == Record(TimeAt(p, 12, j), sources[j], payloads[j])
    {
      records := records + [Record(TimeAt(p, 12, i), sources[i], payloads[i])];
    }
  }

  method DecodeTimestamps(crc: Checksum, data: Data) returns (r: Option<seq<Int64>>)
    ensures r == DecodeColTimes(crc, data)
  {
    if |data| < 16 { return None; }
    var p := data[..|data| - 4];
    if crc(p) != GetU32(data[|data| - 4..]) { return None; }
    var count: nat := GetU32(p[..4]);
    if 12 + count * 8 > |p| { return None; }
    var ts: seq<Int64> := [];
    for i := 0 to count
      invariant |ts| == i && forall j :: 0 <= j < i ==> ts[j] == TimeAt(p, 12, j)
    {
      ts := ts + [TimeAt(p, 12, i)];
    }
    assert ts == seq(count, i requires 0 <= i < count => TimeAt(p, 12, i));
    return Some(ts);
  }
}
