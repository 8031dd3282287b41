/** The CRC32 | Len | body frames that the WAL and the manifest share (internal/wal/wal.go,
    internal/manifest/manifest.go). The checksum is a parameter: nothing here depends on which function it is. */
module Framing {
  import opened Bytes

  type Checksum = Data -> Uint32

  /** One frame: the checksum covers Len and body. */
  function Frame(crc: Checksum, body: Data): (f: Data)
    ensures |f| == 8 + |body|
  {
    PutU32(crc(PutU32(|body|) + body)) + PutU32(|body|) + body
  }

  /** What one turn of the replay loop reads at pos. */
  datatype Turn = Framed(body: Data, next: nat) | Stop | ReadError

  /** io.ReadFull reports io.EOF when it reads nothing and io.ErrUnexpectedEOF when it reads some of what was asked;
      the header accepts both as the end of the log, the body only the second. */
  function ReadFrame(crc: Checksum, log: Data, pos: nat, maxBody: nat): Turn
    requires pos <= |log|
  {
    if |log| - pos < 8 then Stop
    else
      var len := GetU32(log[pos + 4..pos + 8]);
      if len > maxBody then Stop
      else if |log| - (pos + 8) < len then (if |log| == pos + 8 then ReadError else Stop)
      else
        var body := log[pos + 8..pos + 8 + len];
        if crc(log[pos + 4..pos + 8] + body) != GetU32(log[pos..pos + 4]) then Stop
        else Framed(body, pos + 8 + len)
  }

  function Log(crc: Checksum, bodies: seq<Data>): Data {
    if bodies == [] then [] else Frame(crc, bodies[0]) + Log(crc, bodies[1..])
  }

  lemma {:induction false} LogAppend(crc: Checksum, bodies: seq<Data>, body: Data)
    ensures Log(crc, bodies + [body]) == Log(crc, bodies) + Frame(crc, body)
  {
    if bodies == [] {
      assert bodies + [body] == [body];
      assert Log(crc, [body]) == Frame(crc, body) + Log(crc, []);
    } else {
      assert (bodies + [body])[1..] == bodies[1..] + [body];
      LogAppend(crc, bodies[1..], body);
    }
  }

  /** Reading where a whole frame of acceptable size lies returns its body. */
  lemma ReadWholeFrame(crc: Checksum, log: Data, pos: nat, maxBody: nat, body: Data)
    requires pos + 8 + |body| <= |log| && log[pos..pos + 8 + |body|] == Frame(crc, body)
    requires |body| < TWO_32
    ensures ReadFrame(crc, log, pos, maxBody) == if |body| > maxBody then Stop else Framed(body, pos + 8 + |body|)
  {
    var f := Frame(crc, body);
    SubSlice(log, pos, pos + |f|, 0, 4);
    SubSlice(log, pos, pos + |f|, 4, 8);
    SubSlice(log, pos, pos + |f|, 8, |f|);
    assert f[..4] == PutU32(crc(PutU32(|body|) + body)) && f[4..8] == PutU32(|body|) && f[8..|f|] == body;
  }

  lemma CutPrefix(f: Data, tail: Data, a: nat, b: nat, c: nat)
    requires a <= b <= c <= |f| && tail == f[..c]
    ensures tail[a..b] == f[a..b]
  {}

  /** Reading where only the first c bytes of a frame are left: the end of the log, except exactly after the header. */
  lemma ReadCutFrame(crc: Checksum, log: Data, pos: nat, maxBody: nat, body: Data, c: nat)
    requires pos + c == |log| && c < 8 + |body| && log[pos..] == Frame(crc, body)[..c]
    requires |body| < TWO_32
    ensures ReadFrame(crc, log, pos, maxBody) == if c == 8 && |body| <= maxBody then ReadError else Stop
  {
    var f := Frame(crc, body);
    if c >= 8 {
      var tail := log[pos..];
      CutPrefix(f, tail, 4, 8, c);
      assert log[pos + 4..pos + 8] == tail[4..8] by {
        SubSlice(log, pos, |log|, 4, 8);
        assert log[pos..|log|] == tail;
      }
      assert f[4..8] == PutU32(|body|);
    }
  }

  // ---------------------------------------------------------------- a log cut at an arbitrary byte

  /** How many leading frames a reader accepts in the first cut bytes: whole ones, up to the first oversized one. */
  function Whole(bodies: seq<Data>, maxBody: nat, cut: nat): (n: nat)
    ensures n <= |bodies|
  {
    if bodies == [] || cut < 8 + |bodies[0]| || |bodies[0]| > maxBody then 0
    else 1 + Whole(bodies[1..], maxBody, cut - (8 + |bodies[0]|))
  }

  /** The cut falls exactly after the header of the first frame that is not whole. */
  predicate CutAfterHeader(bodies: seq<Data>, maxBody: nat, cut: nat) {
    bodies != [] && |bodies[0]| <= maxBody
    && (if cut < 8 + |bodies[0]| then cut == 8 else CutAfterHeader(bodies[1..], maxBody, cut - (8 + |bodies[0]|)))
  }

  predicate Encodable(bodies: seq<Data>) {
    forall i :: 0 <= i < |bodies| ==> |bodies[i]| < TWO_32
  }

  /** The bytes before the first frame that is not whole, or is oversized. */
  function WholeBytes(bodies: seq<Data>, maxBody: nat, cut: nat): (n: nat)
    ensures n <= cut
  {
    if bodies == [] || cut < 8 + |bodies[0]| || |bodies[0]| > maxBody then 0
    else 8 + |bodies[0]| + WholeBytes(bodies[1..], maxBody, cut - (8 + |bodies[0]|))
  }

  /** Every frame is whole and acceptable when the log is not cut and nothing is oversized; and only then. */
  lemma {:induction false} AllWhole(crc: Checksum, bodies: seq<Data>, maxBody: nat)
    ensures Whole(bodies, maxBody, |Log(crc, bodies)|) == |bodies| <==>
              forall i :: 0 <= i < |bodies| ==> |bodies[i]| <= maxBody
  {
    if bodies != [] {
      AllWhole(crc, bodies[1..], maxBody);
      HeadAndTail(bodies, maxBody);
    }
  }

  lemma HeadAndTail(bodies: seq<Data>, maxBody: nat)
    requires bodies != []
    ensures (forall i :: 0 <= i < |bodies| ==> |bodies[i]| <= maxBody)
            <==> |bodies[0]| <= maxBody && forall i :: 0 <= i < |bodies[1..]| ==> |bodies[1..][i]| <= maxBody
  {
    assert bodies == [bodies[0]] + bodies[1..];
  }

  // ---------------------------------------------------------------- reading frame after frame

  /** The bodies read from pos on, where the first unread frame starts, and whether a read error ended it. */
  datatype Scanned = Scanned(bodies: seq<Data>, end: nat, failed: bool)

  function ScanFrom(crc: Checksum, log: Data, pos: nat, maxBody: nat): Scanned
    requires pos <= |log|
    decreases |log| - pos
  {
    match ReadFrame(crc, log, pos, maxBody)
    case Stop => Scanned([], pos, false)
    case ReadError => Scanned([], pos, true)
    case Framed(body, next) =>
      var rest := ScanFrom(crc, log, next, maxBody);
      Scanned([body] + rest.bodies, rest.end, rest.failed)
  }

  /** The first frame of a cut log, and what follows it. */
  lemma FirstFrame(log: Data, pos: nat, f: Data, rest: Data, cut: nat)
    requires pos + cut == |log| && cut <= |f| + |rest| && log[pos..] == (f + rest)[..cut]
    ensures cut < |f| ==> log[pos..] == f[..cut]
    ensures |f| <= cut ==> log[pos..pos + |f|] == f && log[pos + |f|..] == rest[..cut - |f|]
  {
    if |f| <= cut {
      SubSlice(log, pos, |log|, 0, |f|);
      SubSlice(log, pos, |log|, |f|, cut);
      assert log[pos..] == f + rest[..cut - |f|];
    }
  }

  ghost predicate Cut(crc: Checksum, log: Data, pos: nat, bodies: seq<Data>, cut: nat) {
    pos + cut == |log| && cut <= |Log(crc, bodies)| && log[pos..] == Log(crc, bodies)[..cut]
  }

  lemma CutStep(crc: Checksum, log: Data, pos: nat, bodies: seq<Data>, maxBody: nat, cut: nat)
    requires Encodable(bodies) && bodies != [] && Cut(crc, log, pos, bodies, cut)
    ensures var body := bodies[0];
            if cut < 8 + |body| then
              ReadFrame(crc, log, pos, maxBody) == if cut == 8 && |body| <= maxBody then ReadError else Stop
            else
              ReadFrame(crc, log, pos, maxBody) == (if |body| > maxBody then Stop else Framed(body, pos + 8 + |body|))
              && Cut(crc, log, pos + 8 + |body|, bodies[1..], cut - (8 + |body|))
  {
    var body := bodies[0];
    var f := Frame(crc, body);
    FirstFrame(log, pos, f, Log(crc, bodies[1..]), cut);
    if cut < |f| {
      ReadCutFrame(crc, log, pos, maxBody, body, cut);
    } else {
      ReadWholeFrame(crc, log, pos, maxBody, body);
    }
  }

  lemma TakeCons(bodies: seq<Data>, n: nat)
    requires n < |bodies|
    ensures [bodies[0]] + bodies[1..][..n] == bodies[..n + 1]
  {}

  /** One frame on: the scan of the rest, and the counts of the rest. */
  lemma ScanOne(crc: Checksum, log: Data, pos: nat, bodies: seq<Data>, maxBody: nat, cut: nat, next: nat, left: nat)
    requires bodies != [] && 8 + |bodies[0]| <= cut && |bodies[0]| <= maxBody && pos + cut == |log|
    requires next == pos + 8 + |bodies[0]| && left == cut - (8 + |bodies[0]|)
    requires ReadFrame(crc, log, pos, maxBody) == Framed(bodies[0], next)
    requires ScanFrom(crc, log, next, maxBody) == CutScan(bodies[1..], maxBody, left, next)
    ensures ScanFrom(crc, log, pos, maxBody) == CutScan(bodies, maxBody, cut, pos)
  {
    var n, rest := Whole(bodies[1..], maxBody, left), CutScan(bodies[1..], maxBody, left, next);
    assert ScanFrom(crc, log, pos, maxBody) == Scanned([bodies[0]] + rest.bodies, rest.end, rest.failed);
    assert Whole(bodies, maxBody, cut) == n + 1;
    assert WholeBytes(bodies, maxBody, cut) == 8 + |bodies[0]| + WholeBytes(bodies[1..], maxBody, left);
    assert CutAfterHeader(bodies, maxBody, cut) == CutAfterHeader(bodies[1..], maxBody, left);
    TakeCons(bodies, n);
  }

  /** What scanning the first cut bytes of a log yields. */
  function CutScan(bodies: seq<Data>, maxBody: nat, cut: nat, pos: nat): Scanned {
    Scanned(bodies[..Whole(bodies, maxBody, cut)], pos + WholeBytes(bodies, maxBody, cut),
            CutAfterHeader(bodies, maxBody, cut))
  }

  /** Scanning a log cut at any byte yields the whole frames and stops at the first that is not. */
  lemma {:induction false} ScanCut(crc: Checksum, log: Data, pos: nat, bodies: seq<Data>, maxBody: nat, cut: nat)
    requires Encodable(bodies) && Cut(crc, log, pos, bodies, cut)
    ensures ScanFrom(crc, log, pos, maxBody) == CutScan(bodies, maxBody, cut, pos)
    decreases |bodies|
  {
    if bodies == [] || cut < 8 + |bodies[0]| || |bodies[0]| > maxBody {
      ScanStops(crc, log, pos, bodies, maxBody, cut);
    } else {
      CutStep(crc, log, pos, bodies, maxBody, cut);
      var next, left := pos + 8 + |bodies[0]|, cut - (8 + |bodies[0]|);
      ScanCut(crc, log, next, bodies[1..], maxBody, left);
      ScanOne(crc, log, pos, bodies, maxBody, cut, next, left);
    }
  }

  lemma ScanStops(crc: Checksum, log: Data, pos: nat, bodies: seq<Data>, maxBody: nat, cut: nat)
    requires Encodable(bodies) && Cut(crc, log, pos, bodies, cut)
    requires bodies == [] || cut < 8 + |bodies[0]| || |bodies[0]| > maxBody
    ensures ScanFrom(crc, log, pos, maxBody) == CutScan(bodies, maxBody, cut, pos)
  {
    if bodies != [] { CutStep(crc, log, pos, bodies, maxBody, cut); }
  }

  lemma {:induction false} WholeLogNotCut(crc: Checksum, bodies: seq<Data>, maxBody: nat)
    ensures !CutAfterHeader(bodies, maxBody, |Log(crc, bodies)|)
  {
    if bodies != [] { WholeLogNotCut(crc, bodies[1..], maxBody); }
  }

  /** The scanned bytes are the log of the scanned bodies. */
  lemma {:induction false} WholeBytesAreLog(crc: Checksum, bodies: seq<Data>, maxBody: nat, cut: nat)
    requires cut <= |Log(crc, bodies)|
    ensures Log(crc, bodies)[..WholeBytes(bodies, maxBody, cut)] == Log(crc, bodies[..Whole(bodies, maxBody, cut)])
  {
    if bodies != [] && 8 + |bodies[0]| <= cut && |bodies[0]| <= maxBody {
      var f, rest, c := Frame(crc, bodies[0]), bodies[1..], cut - (8 + |bodies[0]|);
      WholeBytesAreLog(crc, rest, maxBody, c);
      var n := Whole(rest, maxBody, c);
      var m := WholeBytes(rest, maxBody, c);
      assert bodies[..n + 1][0] == bodies[0] && bodies[..n + 1][1..] == rest[..n];
      assert (f + Log(crc, rest))[..|f| + m] == f + Log(crc, rest)[..m];
    }
  }

  // ---------------------------------------------------------------- reading arbitrary bytes

  /** A whole frame of acceptable size with the right checksum lies at e. */
  ghost predicate FrameAt(crc: Checksum, log: Data, e: nat, maxBody: nat, body: Data) {
    |body| <= maxBody && |body| < TWO_32 && Holds(log, e, Frame(crc, body))
  }

  ghost predicate NoFrameAt(crc: Checksum, log: Data, e: nat, maxBody: nat) {
    forall body :: !FrameAt(crc, log, e, maxBody, body)
  }

  /** The log ends right after a header that announces a body of acceptable size. */
  predicate BareHeader(log: Data, e: nat, maxBody: nat) {
    |log| == e + 8 && 0 < GetU32(log[e + 4..e + 8]) <= maxBody
  }

  /** Not even a header lies at e. */
  predicate Short(log: Data, e: nat) {
    |log| < e + 8
  }

  /** The header at e announces a body over the cap. */
  predicate Oversized(log: Data, e: nat, maxBody: nat) {
    |log| >= e + 8 && GetU32(log[e + 4..e + 8]) > maxBody
  }

  /** The body that the header at e announces is not all there. */
  predicate CutShort(log: Data, e: nat) {
    |log| >= e + 8 && |log| < e + 8 + GetU32(log[e + 4..e + 8])
  }

  /** Length and body at e do not have the checksum in front of them. */
  predicate Mismatch(crc: Checksum, log: Data, e: nat) {
    |log| >= e + 8 && |log| >= e + 8 + GetU32(log[e + 4..e + 8])
    && crc(log[e + 4..e + 8 + GetU32(log[e + 4..e + 8])]) != GetU32(log[e..e + 4])
  }

  /** Where a header lies, the frame it announces. */
  lemma FrameParts(crc: Checksum, log: Data, e: nat, body: Data)
    requires e + 8 <= |log| && |body| < TWO_32
    ensures Holds(log, e, Frame(crc, body))
            <==> GetU32(log[e + 4..e + 8]) == |body| && e + 8 + |body| <= |log| && log[e + 8..e + 8 + |body|] == body
                 && GetU32(log[e..e + 4]) == crc(log[e + 4..e + 8] + body)
  {
    var len := PutU32(|body|);
    var sum := PutU32(crc(len + body));
    HoldsConcat(log, e, sum + len, body);
    HoldsConcat(log, e, sum, len);
    PutGetU32(log[e..e + 4]);
    PutGetU32(log[e + 4..e + 8]);
  }

  /** One turn of the replay loop, on any bytes and for any checksum function. */
  lemma ReadFrameIff(crc: Checksum, log: Data, pos: nat, maxBody: nat, body: Data, next: nat)
    requires pos <= |log|
    ensures ReadFrame(crc, log, pos, maxBody) == Framed(body, next)
            <==> FrameAt(crc, log, pos, maxBody, body) && next == pos + 8 + |body|
    ensures ReadFrame(crc, log, pos, maxBody) == ReadError <==> BareHeader(log, pos, maxBody)
  {
    if |log| >= pos + 8 && |body| < TWO_32 { FrameParts(crc, log, pos, body); }
  }

  lemma ReadsFrame(crc: Checksum, log: Data, pos: nat, maxBody: nat)
    requires pos <= |log|
    ensures ReadFrame(crc, log, pos, maxBody).Framed? <==> !NoFrameAt(crc, log, pos, maxBody)
    ensures ReadFrame(crc, log, pos, maxBody) == ReadError <==> BareHeader(log, pos, maxBody)
  {
    var turn := ReadFrame(crc, log, pos, maxBody);
    if turn.Framed? {
      ReadFrameIff(crc, log, pos, maxBody, turn.body, turn.next);
      assert FrameAt(crc, log, pos, maxBody, turn.body);
    } else {
      forall body
        ensures !FrameAt(crc, log, pos, maxBody, body)
      {
        ReadFrameIff(crc, log, pos, maxBody, body, pos + 8 + |body|);
      }
    }
    ReadFrameIff(crc, log, pos, maxBody, [], 0);
  }

  /** What stands where no frame does: too few bytes for a header, an oversized length, a body cut short, or a checksum
      that does not match. */
  lemma NoFrameIff(crc: Checksum, log: Data, e: nat, maxBody: nat)
    requires e <= |log|
    ensures NoFrameAt(crc, log, e, maxBody)
            <==> Short(log, e) || Oversized(log, e, maxBody) || CutShort(log, e) || Mismatch(crc, log, e)
  {
    ReadsFrame(crc, log, e, maxBody);
    if |log| >= e + 8 && !CutShort(log, e) {
      var len := GetU32(log[e + 4..e + 8]);
      assert log[e + 4..e + 8] + log[e + 8..e + 8 + len] == log[e + 4..e + 8 + len];
    }
  }

  predicate Acceptable(bodies: seq<Data>, maxBody: nat) {
    forall i :: 0 <= i < |bodies| ==> |bodies[i]| <= maxBody && |bodies[i]| < TWO_32
  }

  /** The frames of bodies lie at pos, one after the other, and nothing readable follows them. */
  ghost predicate Front(crc: Checksum, log: Data, pos: nat, maxBody: nat, bodies: seq<Data>, failed: bool) {
    Acceptable(bodies, maxBody) && Holds(log, pos, Log(crc, bodies))
    && EndsAt(crc, log, pos + |Log(crc, bodies)|, maxBody, failed)
  }

  ghost predicate EndsAt(crc: Checksum, log: Data, end: nat, maxBody: nat, failed: bool) {
    NoFrameAt(crc, log, end, maxBody) && failed == BareHeader(log, end, maxBody)
  }

  lemma FrontCons(crc: Checksum, log: Data, pos: nat, maxBody: nat, body: Data, bodies: seq<Data>, failed: bool)
    ensures Front(crc, log, pos, maxBody, [body] + bodies, failed)
            <==> FrameAt(crc, log, pos, maxBody, body) && Front(crc, log, pos + 8 + |body|, maxBody, bodies, failed)
    ensures |Log(crc, [body] + bodies)| == 8 + |body| + |Log(crc, bodies)|
  {
    AcceptableCons(body, bodies, maxBody);
    assert ([body] + bodies)[1..] == bodies && Log(crc, [body] + bodies) == Frame(crc, body) + Log(crc, bodies);
    HoldsConcat(log, pos, Frame(crc, body), Log(crc, bodies));
    assert pos + |Log(crc, [body] + bodies)| == pos + 8 + |body| + |Log(crc, bodies)|;
  }

  lemma AcceptableCons(body: Data, bodies: seq<Data>, maxBody: nat)
    ensures Acceptable([body] + bodies, maxBody)
            <==> |body| <= maxBody && |body| < TWO_32 && Acceptable(bodies, maxBody)
  {
    var all := [body] + bodies;
    assert all[0] == body && forall i :: 0 <= i < |bodies| ==> all[i + 1] == bodies[i];
  }

  /** A frame at pos is read and scanning goes on behind it. */
  lemma ScanFrame(crc: Checksum, log: Data, pos: nat, maxBody: nat, body: Data)
    requires FrameAt(crc, log, pos, maxBody, body)
    ensures var rest := ScanFrom(crc, log, pos + 8 + |body|, maxBody);
            ScanFrom(crc, log, pos, maxBody) == Scanned([body] + rest.bodies, rest.end, rest.failed)
  {
    ReadFrameIff(crc, log, pos, maxBody, body, pos + 8 + |body|);
  }

  /** Where no frame lies scanning ends. */
  lemma ScanNoFrame(crc: Checksum, log: Data, pos: nat, maxBody: nat)
    requires pos <= |log| && NoFrameAt(crc, log, pos, maxBody)
    ensures ScanFrom(crc, log, pos, maxBody) == Scanned([], pos, BareHeader(log, pos, maxBody))
  {
    ReadsFrame(crc, log, pos, maxBody);
  }

  lemma {:induction false} FrontScanned(crc: Checksum, log: Data, pos: nat, maxBody: nat, bodies: seq<Data>,
                                        failed: bool)
    requires pos <= |log| && Front(crc, log, pos, maxBody, bodies, failed)
    ensures ScanFrom(crc, log, pos, maxBody) == Scanned(bodies, pos + |Log(crc, bodies)|, failed)
    decreases |bodies|
  {
    if bodies == [] {
      ScanNoFrame(crc, log, pos, maxBody);
    } else {
      var body, rest := bodies[0], bodies[1..];
      assert [body] + rest == bodies;
      FrontCons(crc, log, pos, maxBody, body, rest, failed);
      ScanFrame(crc, log, pos, maxBody, body);
      FrontScanned(crc, log, pos + 8 + |body|, maxBody, rest, failed);
    }
  }

  /** Some list of frames, perhaps empty, lies at pos with nothing readable behind it. */
  lemma {:induction false} FrontExists(crc: Checksum, log: Data, pos: nat, maxBody: nat)
    returns (bodies: seq<Data>, failed: bool)
    requires pos <= |log|
    ensures Front(crc, log, pos, maxBody, bodies, failed)
    decreases |log| - pos
  {
    if body :| FrameAt(crc, log, pos, maxBody, body) {
      var rest;
      rest, failed := FrontExists(crc, log, pos + 8 + |body|, maxBody);
      bodies := [body] + rest;
      FrontCons(crc, log, pos, maxBody, body, rest, failed);
    } else {
      bodies, failed := [], BareHeader(log, pos, maxBody);
      assert Log(crc, bodies) == [];
    }
  }

  /** Reading any bytes, with any checksum function: the bodies read are those whose frames lie whole, acceptable and
      with the right checksum one after the other, up to the first place where no such frame lies; a read error is
      reported exactly when that place is a bare header at the very end. */
  lemma ScanIff(crc: Checksum, log: Data, maxBody: nat, bodies: seq<Data>, end: nat, failed: bool)
    ensures ScanFrom(crc, log, 0, maxBody) == Scanned(bodies, end, failed)
            <==> end <= |log| && log[..end] == Log(crc, bodies) && Acceptable(bodies, maxBody)
                 && NoFrameAt(crc, log, end, maxBody) && failed == BareHeader(log, end, maxBody)
  {
    var bs, f := FrontExists(crc, log, 0, maxBody);
    FrontScanned(crc, log, 0, maxBody, bs, f);
    if Front(crc, log, 0, maxBody, bodies, failed) { FrontScanned(crc, log, 0, maxBody, bodies, failed); }
    assert end <= |log| ==> log[0..end] == log[..end];
    assert Holds(log, 0, Log(crc, bodies)) ==> log[..|Log(crc, bodies)|] == Log(crc, bodies);
  }
}
