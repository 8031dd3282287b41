/** The write-ahead log (internal/wal/wal.go). */
module Wal {
  import opened Bytes
  import opened Records
  import opened Framing

  const MAX_BODY: nat := 10 * 1024 * 1024

  /** decodeBody. */
  function DecodeBody(body: Data): Option<Record> {
    if |body| < 16 then None
    else
      var srcLen := GetU32(body[8..12]);
      if 12 + srcLen + 4 > |body| then None
      else
        var off := 12 + srcLen;
        var payloadLen := GetU32(body[off..off + 4]);
        if off + 4 + payloadLen != |body| then None
        else Some(Record(GetI64(body[..8]), body[12..off], body[off + 4..]))
  }

  /** Lengths that fit the 32-bit fields. */
  predicate Fits(r: Record) {
    16 + |r.src| + |r.payload| < TWO_32
  }

  lemma BodyRoundTrip(r: Record)
    requires Fits(r)
    ensures DecodeBody(RecordBody(r)) == Some(r)
  {
    Encoded(r);
  }

  /** On any bytes: a body decodes to r exactly when it is r's encoding. */
  lemma BodyDecodeIff(body: Data, r: Record)
    ensures DecodeBody(body) == Some(r) <==> body == RecordBody(r) && |r.src| < TWO_32 && |r.payload| < TWO_32
  {
    if DecodeBody(body) == Some(r) {
      var off := 12 + |r.src|;
      PutGetI64(body[..8]);
      PutGetU32(body[8..12]);
      PutGetU32(body[off..off + 4]);
      assert body == body[..8] + body[8..12] + body[12..off] + body[off..off + 4] + body[off + 4..];
    } else if body == RecordBody(r) && |r.src| < TWO_32 && |r.payload| < TWO_32 {
      Encoded(r);
    }
  }

  lemma Encoded(r: Record)
    requires |r.src| < TWO_32 && |r.payload| < TWO_32
    ensures DecodeBody(RecordBody(r)) == Some(r)
  {
    var b := RecordBody(r);
    var off := 12 + |r.src|;
    assert b[..8] == PutI64(r.ts) && b[8..12] == PutU32(|r.src|) && b[12..off] == r.src;
    assert b[off..off + 4] == PutU32(|r.payload|) && b[off + 4..] == r.payload;
  }

  function Bodies(rs: seq<Record>): (bs: seq<Data>)
    ensures |bs| == |rs|
  {
    if rs == [] then [] else [RecordBody(rs[0])] + Bodies(rs[1..])
  }

  predicate AllFit(rs: seq<Record>) {
    forall i :: 0 <= i < |rs| ==> Fits(rs[i])
  }

  lemma {:induction false} BodiesAt(rs: seq<Record>, i: nat)
    requires i < |rs|
    ensures Bodies(rs)[i] == RecordBody(rs[i])
  {
    if i > 0 { BodiesAt(rs[1..], i - 1); }
  }

  /** The records a replay from pos delivers, and whether it ends in a read error. */
  datatype Replayed = Replayed(records: seq<Record>, failed: bool)

  function ReplayFrom(crc: Checksum, log: Data, pos: nat): Replayed
    requires pos <= |log|
    decreases |log| - pos
  {
    match ReadFrame(crc, log, pos, MAX_BODY)
    case Stop => Replayed([], false)
    case ReadError => Replayed([], true)
    case Framed(body, next) =>
      match DecodeBody(body)
      case None => Replayed([], false)
      case Some(r) =>
        var rest := ReplayFrom(crc, log, next);
        Replayed([r] + rest.records, rest.failed)
  }

  /** Decode bodies up to the first malformed one. */
  function DecodeAll(bodies: seq<Data>): (rs: seq<Record>) {
    if bodies == [] || DecodeBody(bodies[0]).None? then [] else [DecodeBody(bodies[0]).value] + DecodeAll(bodies[1..])
  }

  /** When every scanned body decodes, replay delivers them all. */
  lemma {:induction false} ReplayDecodesScan(crc: Checksum, log: Data, pos: nat)
    requires pos <= |log|
    requires forall i :: 0 <= i < |ScanFrom(crc, log, pos, MAX_BODY).bodies| ==>
               DecodeBody(ScanFrom(crc, log, pos, MAX_BODY).bodies[i]).Some?
    ensures ReplayFrom(crc, log, pos) ==
            Replayed(DecodeAll(ScanFrom(crc, log, pos, MAX_BODY).bodies), ScanFrom(crc, log, pos, MAX_BODY).failed)
    decreases |log| - pos
  {
    var turn := ReadFrame(crc, log, pos, MAX_BODY);
    if turn.Framed? {
      var sc, rest := ScanFrom(crc, log, pos, MAX_BODY), ScanFrom(crc, log, turn.next, MAX_BODY);
      assert sc.bodies[0] == turn.body && sc.bodies[1..] == rest.bodies;
      assert forall i :: 0 <= i < |rest.bodies| ==> rest.bodies[i] == sc.bodies[i + 1];
      ReplayDecodesScan(crc, log, turn.next);
    }
  }

  lemma {:induction false} DecodeAllOf(bodies: seq<Data>, rs: seq<Record>)
    requires |bodies| == |rs| && forall i :: 0 <= i < |rs| ==> DecodeBody(bodies[i]) == Some(rs[i])
    ensures DecodeAll(bodies) == rs
  {
    if rs != [] { DecodeAllOf(bodies[1..], rs[1..]); }
  }

  lemma DecodeBodies(rs: seq<Record>)
    requires AllFit(rs)
    ensures Encodable(Bodies(rs)) && forall i :: 0 <= i < |rs| ==> DecodeBody(Bodies(rs)[i]) == Some(rs[i])
  {
    forall i | 0 <= i < |rs|
      ensures |Bodies(rs)[i]| < TWO_32 && DecodeBody(Bodies(rs)[i]) == Some(rs[i])
    {
      BodiesAt(rs, i);
      BodyRoundTrip(rs[i]);
    }
  }

  /** WAL prefix recovery. Cut the log of any records at any byte: replay delivers, in order, exactly the records whose
      frames lie wholly before the cut and before the first frame over the size cap; it fails if and only if the cut
      falls exactly after the header of the frame it reached. */
  lemma PrefixRecovery(crc: Checksum, rs: seq<Record>, cut: nat)
    requires AllFit(rs) && cut <= |Log(crc, Bodies(rs))|
    ensures ReplayFrom(crc, Log(crc, Bodies(rs))[..cut], 0) ==
            Replayed(rs[..Whole(Bodies(rs), MAX_BODY, cut)], CutAfterHeader(Bodies(rs), MAX_BODY, cut))
  {
    var bs := Bodies(rs);
    var log := Log(crc, bs)[..cut];
    assert log[0..] == log;
    var n := Whole(bs, MAX_BODY, cut);
    DecodeBodies(rs);
    DecodeAllOf(bs[..n], rs[..n]);
    ScanCut(crc, log, 0, bs, MAX_BODY, cut);
    ReplayDecodesScan(crc, log, 0);
  }

  /** An uncut log is replayed in full exactly when no record exceeds the size cap that only the reader enforces. */
  lemma FullReplay(crc: Checksum, rs: seq<Record>)
    requires AllFit(rs)
    ensures !ReplayFrom(crc, Log(crc, Bodies(rs)), 0).failed
    ensures ReplayFrom(crc, Log(crc, Bodies(rs)), 0).records == rs <==>
            forall i :: 0 <= i < |rs| ==> 16 + |rs[i].src| + |rs[i].payload| <= MAX_BODY
  {
    var bs := Bodies(rs);
    var log := Log(crc, bs);
    assert log[..|log|] == log;
    PrefixRecovery(crc, rs, |log|);
    WholeLogNotCut(crc, bs, MAX_BODY);
    AllWhole(crc, bs, MAX_BODY);
    SizesMatch(rs);
    var n := Whole(bs, MAX_BODY, |log|);
    assert rs[..n] == rs <==> n == |rs|;
  }

  lemma SizesMatch(rs: seq<Record>)
    ensures (forall i :: 0 <= i < |rs| ==> 16 + |rs[i].src| + |rs[i].payload| <= MAX_BODY)
            <==> forall i :: 0 <= i < |rs| ==> |Bodies(rs)[i]| <= MAX_BODY
  {
    forall i | 0 <= i < |rs|
      ensures |Bodies(rs)[i]| == 16 + |rs[i].src| + |rs[i].payload|
    {
      BodiesAt(rs, i);
    }
  }

  // ---------------------------------------------------------------- replaying arbitrary bytes

  /** The frame of r lies at e, whole, with the right checksum and no body over the cap. */
  ghost predicate RecordAt(crc: Checksum, file: Data, e: nat, r: Record) {
    16 + |r.src| + |r.payload| <= 10 * 1024 * 1024 && Holds(file, e, Frame(crc, RecordBody(r)))
  }

  ghost predicate AllRecordsSmall(rs: seq<Record>) {
    forall i :: 0 <= i < |rs| ==> 16 + |rs[i].src| + |rs[i].payload| <= 10 * 1024 * 1024
  }

  /** The frames of rs lie at pos, one after the other, no record lies behind them, and failed tells whether the file
      ends there with a bare header. */
  ghost predicate RecordsAt(crc: Checksum, file: Data, pos: nat, rs: seq<Record>, failed: bool) {
    AllRecordsSmall(rs) && Holds(file, pos, Log(crc, Bodies(rs)))
    && RecordsEnd(crc, file, pos + |Log(crc, Bodies(rs))|, failed)
  }

  ghost predicate RecordsEnd(crc: Checksum, file: Data, end: nat, failed: bool) {
    (forall r :: !RecordAt(crc, file, end, r)) && failed == BareHeader(file, end, MAX_BODY)
  }

  /** One turn of the replay loop delivers a record exactly when its frame lies there. */
  lemma TurnIff(crc: Checksum, file: Data, pos: nat, r: Record)
    requires pos <= |file|
    ensures RecordAt(crc, file, pos, r)
            <==> ReadFrame(crc, file, pos, MAX_BODY) == Framed(RecordBody(r), pos + 24 + |r.src| + |r.payload|)
                 && DecodeBody(RecordBody(r)) == Some(r)
  {
    ReadFrameIff(crc, file, pos, MAX_BODY, RecordBody(r), pos + 24 + |r.src| + |r.payload|);
    BodyDecodeIff(RecordBody(r), r);
  }

  lemma RecordsCons(crc: Checksum, file: Data, pos: nat, r: Record, rs: seq<Record>, failed: bool)
    ensures RecordsAt(crc, file, pos, [r] + rs, failed)
            <==> RecordAt(crc, file, pos, r) && RecordsAt(crc, file, pos + 24 + |r.src| + |r.payload|, rs, failed)
  {
    SmallCons(r, rs);
    LogCons(crc, r, rs);
    HoldsConcat(file, pos, Frame(crc, RecordBody(r)), Log(crc, Bodies(rs)));
    assert pos + |Log(crc, Bodies([r] + rs))| == pos + 24 + |r.src| + |r.payload| + |Log(crc, Bodies(rs))|;
  }

  lemma LogCons(crc: Checksum, r: Record, rs: seq<Record>)
    ensures Log(crc, Bodies([r] + rs)) == Frame(crc, RecordBody(r)) + Log(crc, Bodies(rs))
  {
    assert ([r] + rs)[1..] == rs;
    assert Bodies([r] + rs) == [RecordBody(r)] + Bodies(rs);
    assert ([RecordBody(r)] + Bodies(rs))[1..] == Bodies(rs);
  }

  lemma SmallCons(r: Record, rs: seq<Record>)
    ensures AllRecordsSmall([r] + rs) <==> 16 + |r.src| + |r.payload| <= 10 * 1024 * 1024 && AllRecordsSmall(rs)
  {
    var all := [r] + rs;
    assert all[0] == r && forall i :: 0 <= i < |rs| ==> all[i + 1] == rs[i];
  }

  /** A record at pos is delivered and replay goes on behind it. */
  lemma ReplayRecordAt(crc: Checksum, file: Data, pos: nat, r: Record)
    requires RecordAt(crc, file, pos, r)
    ensures var rest := ReplayFrom(crc, file, pos + 24 + |r.src| + |r.payload|);
            ReplayFrom(crc, file, pos) == Replayed([r] + rest.records, rest.failed)
  {
    TurnIff(crc, file, pos, r);
  }

  /** Where no record lies replay ends. */
  lemma ReplayNoRecord(crc: Checksum, file: Data, pos: nat)
    requires pos <= |file| && forall r :: !RecordAt(crc, file, pos, r)
    ensures ReplayFrom(crc, file, pos) == Replayed([], BareHeader(file, pos, MAX_BODY))
  {
    var turn := ReadFrame(crc, file, pos, MAX_BODY);
    ReadsFrame(crc, file, pos, MAX_BODY);
    if turn.Framed? {
      ReadFrameIff(crc, file, pos, MAX_BODY, turn.body, turn.next);
      if DecodeBody(turn.body).Some? {
        var r := DecodeBody(turn.body).value;
        BodyDecodeIff(turn.body, r);
        assert RecordAt(crc, file, pos, r);
      }
    }
  }

  lemma {:induction false} ReplayedAt(crc: Checksum, file: Data, pos: nat)
    requires pos <= |file|
    ensures RecordsAt(crc, file, pos, ReplayFrom(crc, file, pos).records, ReplayFrom(crc, file, pos).failed)
    decreases |file| - pos
  {
    if r :| RecordAt(crc, file, pos, r) {
      ReplayRecordAt(crc, file, pos, r);
      var next := pos + 24 + |r.src| + |r.payload|;
      ReplayedAt(crc, file, next);
      var rest := ReplayFrom(crc, file, next);
      RecordsCons(crc, file, pos, r, rest.records, rest.failed);
    } else {
      ReplayNoRecord(crc, file, pos);
      NoRecords(crc, file, pos, BareHeader(file, pos, MAX_BODY));
    }
  }

  lemma NoRecords(crc: Checksum, file: Data, pos: nat, failed: bool)
    requires pos <= |file|
    ensures RecordsAt(crc, file, pos, [], failed)
            <==> (forall r :: !RecordAt(crc, file, pos, r)) && failed == BareHeader(file, pos, MAX_BODY)
  {
    assert Log(crc, Bodies([])) == [];
  }

  lemma {:induction false} RecordsReplayed(crc: Checksum, file: Data, pos: nat, rs: seq<Record>, failed: bool)
    requires pos <= |file| && RecordsAt(crc, file, pos, rs, failed)
    ensures ReplayFrom(crc, file, pos) == Replayed(rs, failed)
    decreases |rs|
  {
    if rs == [] {
      NoRecords(crc, file, pos, failed);
      ReplayNoRecord(crc, file, pos);
    } else {
      var r, rest := rs[0], rs[1..];
      assert rs == [r] + rest;
      RecordsCons(crc, file, pos, r, rest, failed);
      ReplayRecordAt(crc, file, pos, r);
      RecordsReplayed(crc, file, pos + 24 + |r.src| + |r.payload|, rest, failed);
    }
  }

  /** Replaying any bytes, with any checksum function: the records delivered are those whose frames lie, whole, within
      the size cap and with the right checksum, one after the other at the front of the file, up to the first place
      where none lies; the replay fails exactly when the file ends there in a bare header. */
  lemma ReplayIff(crc: Checksum, file: Data, rs: seq<Record>, failed: bool)
    ensures ReplayFrom(crc, file, 0) == Replayed(rs, failed) <==> RecordsAt(crc, file, 0, rs, failed)
  {
    ReplayedAt(crc, file, 0);
    if RecordsAt(crc, file, 0, rs, failed) { RecordsReplayed(crc, file, 0, rs, failed); }
  }

  /** appendEncodeRecord: the body is laid out behind the length, then the checksum goes in front. */
  function Encode(crc: Checksum, r: Record): (f: Data)
    ensures f == Frame(crc, RecordBody(r))
  {
    var lenAndBody := PutU32(8 + 4 + |r.src| + 4 + |r.payload|) + RecordBody(r);
    PutU32(crc(lenAndBody)) + lenAndBody
  }

  lemma LogRecord(crc: Checksum, rs: seq<Record>, r: Record)
    ensures Log(crc, Bodies(rs + [r])) == Log(crc, Bodies(rs)) + Frame(crc, RecordBody(r))
  {
    BodiesAppend(rs, r);
    LogAppend(crc, Bodies(rs), RecordBody(r));
  }

  // ---------------------------------------------------------------- the log as an object

  /** A WAL segment under SyncAlways: what Append returned for is on disk. */
  class WAL {
    const crc: Checksum
    var file: Data
    var buf: Data
    ghost var appended: seq<Record>

    ghost predicate Valid()
      reads this
    {
      AllFit(appended) && file == Log(crc, Bodies(appended))
    }

    constructor (crc: Checksum)
      ensures Valid() && appended == [] && this.crc == crc
    {
      this.crc := crc;
      file, buf, appended := [], [], [];
    }

    /** appendEncodeRecord into the reused buffer, then write and fsync. */
    method Append(r: Record)
      requires Valid() && Fits(r)
      modifies this
      ensures Valid() && appended == old(appended) + [r]
      ensures file == old(file) + Frame(crc, RecordBody(r))
    {
      buf := Encode(crc, r);
      file := file + buf;
      LogRecord(crc, appended, r);
      appended := appended + [r];
    }

    /** The replay loop over whatever the file holds. */
    method Replay() returns (records: seq<Record>, failed: bool)
      ensures Replayed(records, failed) == ReplayFrom(crc, file, 0)
      ensures RecordsAt(crc, file, 0, records, failed)
    {
      ReplayedAt(crc, file, 0);
      records, failed := [], false;
      var pos := 0;
      while true
        invariant pos <= |file| && !failed
        invariant ReplayFrom(crc, file, 0) ==
                  Replayed(records + ReplayFrom(crc, file, pos).records, ReplayFrom(crc, file, pos).failed)
        decreases |file| - pos
      {
        match ReadFrame(crc, file, pos, MAX_BODY)
        case Stop => return;
        case ReadError => failed := true; return;
        case Framed(body, next) =>
          match DecodeBody(body)
          case None => return;
          case Some(r) =>
            assert records + ([r] + ReplayFrom(crc, file, next).records)
                     == (records + [r]) + ReplayFrom(crc, file, next).records;
            records := records + [r];
            pos := next;
      }
    }
  }

  lemma {:induction false} BodiesAppend(rs: seq<Record>, r: Record)
    ensures Bodies(rs + [r]) == Bodies(rs) + [RecordBody(r)]
  {
    if rs == [] {
      assert rs + [r] == [r];
      assert Bodies([r]) == [RecordBody(r)] + Bodies([]);
    } else {
      assert (rs + [r])[1..] == rs[1..] + [r];
      BodiesAppend(rs[1..], r);
    }
  }
}
