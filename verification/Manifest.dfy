/** The manifest log (internal/manifest/manifest.go) over any number of sessions. */
module Manifest {
  import opened Bytes
  import opened Framing
  import P = Protocol

  type Edit = P.Edit

  const MAX_BODY: nat := 64 * 1024 * 1024

  datatype VersionEdit = VersionEdit(number: nat, edit: Edit)

  /** json.Marshal and json.Unmarshal. */
  datatype Json = Json(marshal: VersionEdit -> Data, unmarshal: Data -> Option<VersionEdit>)

  ghost predicate LeftInverse(j: Json) {
    forall e :: j.unmarshal(j.marshal(e)) == Some(e)
  }

  /** Sequence numbers are 1, 2, 3, ... */
  function Numbered(edits: seq<Edit>): seq<VersionEdit> {
    seq(|edits|, i requires 0 <= i < |edits| => VersionEdit(i + 1, edits[i]))
  }

  function Bodies(j: Json, edits: seq<Edit>): seq<Data> {
    seq(|edits|, i requires 0 <= i < |edits| => j.marshal(VersionEdit(i + 1, edits[i])))
  }

  function EditLog(crc: Checksum, j: Json, edits: seq<Edit>): Data {
    Log(crc, Bodies(j, edits))
  }

  // ---------------------------------------------------------------- replay

  /** The edits handed to the callback, the length of the valid prefix, and whether Replay returns an error. */
  datatype EditsRead = EditsRead(edits: seq<VersionEdit>, validBytes: nat, failed: bool)

  function ReplayFrom(crc: Checksum, j: Json, log: Data, pos: nat): (r: EditsRead)
    requires pos <= |log|
    ensures pos <= r.validBytes <= |log|
    decreases |log| - pos
  {
    match ReadFrame(crc, log, pos, MAX_BODY)
    case Stop => EditsRead([], pos, false)
    case ReadError => EditsRead([], pos, true)
    case Framed(body, next) =>
      match j.unmarshal(body)
      case None => EditsRead([], pos, false)
      case Some(e) =>
        var rest := ReplayFrom(crc, j, log, next);
        EditsRead([e] + rest.edits, rest.validBytes, rest.failed)
  }

  function MaxNumber(edits: seq<VersionEdit>): nat {
    if edits == [] then 0
    else if edits[|edits| - 1].number > MaxNumber(edits[..|edits| - 1]) then edits[|edits| - 1].number
    else MaxNumber(edits[..|edits| - 1])
  }

  lemma {:induction false} MaxOfNumbered(edits: seq<Edit>)
    ensures MaxNumber(Numbered(edits)) == |edits|
  {
    if edits != [] {
      var n := |edits| - 1;
      assert Numbered(edits)[..n] == Numbered(edits[..n]);
      MaxOfNumbered(edits[..n]);
    }
  }

  ghost predicate Decodes(j: Json, bodies: seq<Data>, vs: seq<VersionEdit>) {
    |bodies| == |vs| && forall i {:trigger bodies[i]} :: 0 <= i < |vs| ==> j.unmarshal(bodies[i]) == Some(vs[i])
  }

  lemma DecodesRest(j: Json, body: Data, bodies: seq<Data>, vs: seq<VersionEdit>)
    requires Decodes(j, [body] + bodies, vs)
    ensures vs != [] && j.unmarshal(body) == Some(vs[0]) && Decodes(j, bodies, vs[1..]) && vs == [vs[0]] + vs[1..]
  {
    var all := [body] + bodies;
    assert all[0] == body && forall i {:trigger bodies[i]} :: 0 <= i < |bodies| ==> bodies[i] == all[i + 1];
  }

  /** When every scanned body is the encoding of some edit, replay delivers those edits. */
  lemma {:induction false} ReplayDecodesScan(crc: Checksum, j: Json, log: Data, pos: nat, vs: seq<VersionEdit>)
    requires pos <= |log| && Decodes(j, ScanFrom(crc, log, pos, MAX_BODY).bodies, vs)
    ensures var sc := ScanFrom(crc, log, pos, MAX_BODY);
            ReplayFrom(crc, j, log, pos) == EditsRead(vs, sc.end, sc.failed)
    decreases |log| - pos
  {
    match ReadFrame(crc, log, pos, MAX_BODY)
    case Stop =>
    case ReadError =>
    case Framed(body, next) =>
      DecodesRest(j, body, ScanFrom(crc, log, next, MAX_BODY).bodies, vs);
      ReplayDecodesScan(crc, j, log, next, vs[1..]);
  }

  /** Replay of a manifest cut at any byte: the edits whose frames are whole and not oversized, the bytes they take,
      and an error exactly when the cut follows a header. */
  lemma CutManifest(crc: Checksum, j: Json, edits: seq<Edit>, cut: nat)
    requires LeftInverse(j) && Encodable(Bodies(j, edits)) && cut <= |EditLog(crc, j, edits)|
    ensures var bs := Bodies(j, edits);
            ReplayFrom(crc, j, EditLog(crc, j, edits)[..cut], 0) ==
            EditsRead(Numbered(edits[..Whole(bs, MAX_BODY, cut)]), WholeBytes(bs, MAX_BODY, cut),
                      CutAfterHeader(bs, MAX_BODY, cut))
  {
    var bs := Bodies(j, edits);
    var log := EditLog(crc, j, edits)[..cut];
    assert log[0..] == log;
    ScanCut(crc, log, 0, bs, MAX_BODY, cut);
    ReplayDecodesScan(crc, j, log, 0, Numbered(edits[..Whole(bs, MAX_BODY, cut)]));
  }

  // ---------------------------------------------------------------- replaying arbitrary bytes

  /** A frame whose body is the JSON of some edit lies at e. */
  ghost predicate EditAt(crc: Checksum, j: Json, file: Data, e: nat, body: Data) {
    FrameAt(crc, file, e, 64 * 1024 * 1024, body) && j.unmarshal(body).Some?
  }

  /** No such frame lies at end, and failed tells whether the file ends there with a bare header. */
  ghost predicate EditsEnd(crc: Checksum, j: Json, file: Data, end: nat, failed: bool) {
    (forall body :: !EditAt(crc, j, file, end, body)) && failed == BareHeader(file, end, MAX_BODY)
  }

  /** The frames of bodies, which decode to vs, lie at pos one after the other, and no edit lies behind them. */
  ghost predicate EditsAt(crc: Checksum, j: Json, file: Data, pos: nat, bodies: seq<Data>, vs: seq<VersionEdit>,
                          failed: bool)
  {
    Acceptable(bodies, MAX_BODY) && Decodes(j, bodies, vs) && Holds(file, pos, Log(crc, bodies))
    && EditsEnd(crc, j, file, pos + |Log(crc, bodies)|, failed)
  }

  lemma EditsCons(crc: Checksum, j: Json, file: Data, pos: nat, body: Data, bodies: seq<Data>, v: VersionEdit,
                  vs: seq<VersionEdit>, failed: bool)
    ensures EditsAt(crc, j, file, pos, [body] + bodies, [v] + vs, failed)
            <==> FrameAt(crc, file, pos, MAX_BODY, body) && j.unmarshal(body) == Some(v)
                 && EditsAt(crc, j, file, pos + 8 + |body|, bodies, vs, failed)
    ensures |Log(crc, [body] + bodies)| == 8 + |body| + |Log(crc, bodies)|
  {
    AcceptableCons(body, bodies, MAX_BODY);
    DecodesCons(j, body, bodies, v, vs);
    assert ([body] + bodies)[1..] == bodies && Log(crc, [body] + bodies) == Frame(crc, body) + Log(crc, bodies);
    HoldsConcat(file, pos, Frame(crc, body), Log(crc, bodies));
    assert pos + |Log(crc, [body] + bodies)| == pos + 8 + |body| + |Log(crc, bodies)|;
  }

  lemma DecodesCons(j: Json, body: Data, bodies: seq<Data>, v: VersionEdit, vs: seq<VersionEdit>)
    ensures Decodes(j, [body] + bodies, [v] + vs) <==> j.unmarshal(body) == Some(v) && Decodes(j, bodies, vs)
  {
    if Decodes(j, [body] + bodies, [v] + vs) {
      DecodesRest(j, body, bodies, [v] + vs);
      assert ([v] + vs)[1..] == vs;
    }
  }

  lemma NoEdits(crc: Checksum, j: Json, file: Data, pos: nat, failed: bool)
    requires pos <= |file|
    ensures EditsAt(crc, j, file, pos, [], [], failed) <==> EditsEnd(crc, j, file, pos, failed)
  {
    assert Log(crc, []) == [];
  }

  /** An edit at pos is delivered and replay goes on behind it. */
  lemma ReplayEditAt(crc: Checksum, j: Json, file: Data, pos: nat, body: Data)
    requires EditAt(crc, j, file, pos, body)
    ensures var rest := ReplayFrom(crc, j, file, pos + 8 + |body|);
            ReplayFrom(crc, j, file, pos)
            == EditsRead([j.unmarshal(body).value] + rest.edits, rest.validBytes, rest.failed)
  {
    ReadFrameIff(crc, file, pos, MAX_BODY, body, pos + 8 + |body|);
  }

  /** Where no edit lies replay ends. */
  lemma ReplayNoEdit(crc: Checksum, j: Json, file: Data, pos: nat)
    requires pos <= |file| && forall body :: !EditAt(crc, j, file, pos, body)
    ensures ReplayFrom(crc, j, file, pos) == EditsRead([], pos, BareHeader(file, pos, MAX_BODY))
  {
    var turn := ReadFrame(crc, file, pos, MAX_BODY);
    ReadsFrame(crc, file, pos, MAX_BODY);
    if turn.Framed? {
      ReadFrameIff(crc, file, pos, MAX_BODY, turn.body, turn.next);
      assert !EditAt(crc, j, file, pos, turn.body);
    }
  }

  /** The bodies of the frames that a replay delivers. */
  lemma {:induction false} ReplayedEdits(crc: Checksum, j: Json, file: Data, pos: nat, rp: EditsRead)
    returns (bodies: seq<Data>)
    requires pos <= |file| && rp == ReplayFrom(crc, j, file, pos)
    ensures EditsAt(crc, j, file, pos, bodies, rp.edits, rp.failed) && rp.validBytes == pos + |Log(crc, bodies)|
    decreases |file| - pos
  {
    if body :| EditAt(crc, j, file, pos, body) {
      ReplayEditAt(crc, j, file, pos, body);
      var rest := ReplayFrom(crc, j, file, pos + 8 + |body|);
      var more := ReplayedEdits(crc, j, file, pos + 8 + |body|, rest);
      bodies := [body] + more;
      EditsCons(crc, j, file, pos, body, more, j.unmarshal(body).value, rest.edits, rest.failed);
    } else {
      bodies := [];
      ReplayNoEdit(crc, j, file, pos);
      NoEdits(crc, j, file, pos, BareHeader(file, pos, MAX_BODY));
    }
  }

  lemma {:induction false} EditsReplayed(crc: Checksum, j: Json, file: Data, pos: nat, bodies: seq<Data>,
                                         vs: seq<VersionEdit>, failed: bool)
    requires pos <= |file| && EditsAt(crc, j, file, pos, bodies, vs, failed)
    ensures ReplayFrom(crc, j, file, pos) == EditsRead(vs, pos + |Log(crc, bodies)|, failed)
    decreases |bodies|
  {
    if bodies == [] {
      NothingReplayed(crc, j, file, pos, vs, failed);
    } else {
      FirstEdit(crc, j, file, pos, bodies, vs, failed);
      var next := pos + 8 + |bodies[0]|;
      EditsReplayed(crc, j, file, next, bodies[1..], vs[1..], failed);
      OneReplayed(crc, j, file, pos, bodies[0], vs[0], EditsRead(vs[1..], next + |Log(crc, bodies[1..])|, failed));
    }
  }

  lemma NothingReplayed(crc: Checksum, j: Json, file: Data, pos: nat, vs: seq<VersionEdit>, failed: bool)
    requires pos <= |file| && EditsAt(crc, j, file, pos, [], vs, failed)
    ensures ReplayFrom(crc, j, file, pos) == EditsRead(vs, pos, failed) && Log(crc, []) == []
  {
    assert vs == [];
    NoEdits(crc, j, file, pos, failed);
    ReplayNoEdit(crc, j, file, pos);
  }

  lemma OneReplayed(crc: Checksum, j: Json, file: Data, pos: nat, body: Data, v: VersionEdit, rest: EditsRead)
    requires EditAt(crc, j, file, pos, body) && j.unmarshal(body) == Some(v)
    requires ReplayFrom(crc, j, file, pos + 8 + |body|) == rest
    ensures ReplayFrom(crc, j, file, pos) == Preceded(v, rest)
  {
    ReplayEditAt(crc, j, file, pos, body);
  }

  lemma FirstEdit(crc: Checksum, j: Json, file: Data, pos: nat, bodies: seq<Data>, vs: seq<VersionEdit>, failed: bool)
    requires EditsAt(crc, j, file, pos, bodies, vs, failed) && bodies != []
    ensures vs != [] && vs == [vs[0]] + vs[1..] && j.unmarshal(bodies[0]) == Some(vs[0])
    ensures EditAt(crc, j, file, pos, bodies[0])
    ensures EditsAt(crc, j, file, pos + 8 + |bodies[0]|, bodies[1..], vs[1..], failed)
    ensures |Log(crc, bodies)| == 8 + |bodies[0]| + |Log(crc, bodies[1..])|
  {
    assert bodies == [bodies[0]] + bodies[1..] && vs == [vs[0]] + vs[1..];
    EditsCons(crc, j, file, pos, bodies[0], bodies[1..], vs[0], vs[1..], failed);
  }

  /** Replaying any bytes, with any checksum and any JSON functions: the edits delivered are those of the frames that
      lie, whole, within the size cap and with the right checksum, one after the other at the front of the file, up to
      the first place where no frame with a decodable body lies; n bytes hold exactly these frames, and the replay fails
      exactly when the file ends there in a bare header. */
  lemma ReplayIff(crc: Checksum, j: Json, file: Data, vs: seq<VersionEdit>, n: nat, failed: bool)
    ensures ReplayFrom(crc, j, file, 0) == EditsRead(vs, n, failed)
            <==> exists bodies :: n == |Log(crc, bodies)| && EditsAt(crc, j, file, 0, bodies, vs, failed)
  {
    var bodies := ReplayedEdits(crc, j, file, 0, ReplayFrom(crc, j, file, 0));
    forall bs | EditsAt(crc, j, file, 0, bs, vs, failed)
      ensures ReplayFrom(crc, j, file, 0) == EditsRead(vs, |Log(crc, bs)|, failed)
    {
      EditsReplayed(crc, j, file, 0, bs, vs, failed);
    }
  }

  // ---------------------------------------------------------------- the object

  class Manifest {
    const crc: Checksum
    const json: Json
    var file: Data
    var number: nat

    /** Open: the sequence counter is 0 until Replay sets it. */
    constructor (crc: Checksum, json: Json, file: Data)
      ensures this.crc == crc && this.json == json && this.file == file && number == 0
    {
      this.crc, this.json, this.file, number := crc, json, file, 0;
    }

    /** Number, encode, write and fsync; advance the counter last. */
    method Append(e: Edit)
      modifies this
      ensures file == old(file) + Frame(crc, json.marshal(VersionEdit(old(number) + 1, e)))
      ensures number == old(number) + 1
    {
      var next := number + 1;
      var body := json.marshal(VersionEdit(next, e));
      var len := PutU32(|body|);
      file := file + (PutU32(crc(len + body)) + len + body);
      number := next;
    }

    /** The replay loop, then truncation to the valid prefix; on a read error neither happens. */
    method Replay() returns (edits: seq<VersionEdit>, failed: bool, ghost bodies: seq<Data>)
      modifies this
      ensures EditsAt(crc, json, old(file), 0, bodies, edits, failed)
      ensures file == if failed then old(file) else Log(crc, bodies)
      ensures var rp := ReplayFrom(crc, json, old(file), 0);
              edits == rp.edits && failed == rp.failed
              && (if failed then file == old(file) && number == old(number)
                  else file == old(file)[..rp.validBytes] && number == MaxNumber(edits))
    {
      var validBytes, maxNumber;
      edits, validBytes, maxNumber, failed := ReadEdits();
      bodies := ReplayedEdits(crc, json, file, 0, EditsRead(edits, validBytes, failed));
      if failed { return; }
      number := maxNumber;
      file := file[..validBytes];
    }

    /** The loop of Replay. */
    method ReadEdits() returns (edits: seq<VersionEdit>, validBytes: nat, maxNumber: nat, failed: bool)
      ensures EditsRead(edits, validBytes, failed) == ReplayFrom(crc, json, file, 0) && maxNumber == MaxNumber(edits)
    {
      edits, validBytes, maxNumber, failed := [], 0, 0, false;
      ghost var all := ReplayFrom(crc, json, file, 0);
      while true
        invariant validBytes <= |file| && !failed && maxNumber == MaxNumber(edits)
        invariant Continues(all, edits, ReplayFrom(crc, json, file, validBytes))
        decreases |file| - validBytes
      {
        var turn := ReadOne(validBytes);
        if turn.Done? {
          failed := turn.failed;
          assert edits + [] == edits;
          return;
        }
        MoreEdits(all, edits, turn.e, ReplayFrom(crc, json, file, turn.next));
        edits := edits + [turn.e];
        if turn.e.number > maxNumber { maxNumber := turn.e.number; }
        validBytes := turn.next;
      }
    }

    /** One turn of the loop. */
    method ReadOne(pos: nat) returns (turn: EditTurn)
      requires pos <= |file|
      ensures turn.Done? ==> ReplayFrom(crc, json, file, pos) == EditsRead([], pos, turn.failed)
      ensures turn.Next? ==> pos < turn.next <= |file| && ReplayFrom(crc, json, file, pos) ==
                             Preceded(turn.e, ReplayFrom(crc, json, file, turn.next))
    {
      var frame := ReadFrame(crc, file, pos, MAX_BODY);
      if frame.ReadError? { return Done(true); }
      if frame.Stop? || json.unmarshal(frame.body).None? { return Done(false); }
      assert frame.next == pos + (8 + |frame.body|);
      return Next(json.unmarshal(frame.body).value, pos + (8 + |frame.body|));
    }
  }

  datatype EditTurn = Next(e: VersionEdit, next: nat) | Done(failed: bool)

  function Preceded(e: VersionEdit, rest: EditsRead): EditsRead {
    EditsRead([e] + rest.edits, rest.validBytes, rest.failed)
  }

  /** A replay that has delivered edits and still has rest to read. */
  ghost predicate Continues(all: EditsRead, edits: seq<VersionEdit>, rest: EditsRead) {
    all == EditsRead(edits + rest.edits, rest.validBytes, rest.failed)
  }

  lemma MoreEdits(all: EditsRead, edits: seq<VersionEdit>, e: VersionEdit, rest: EditsRead)
    requires Continues(all, edits, Preceded(e, rest))
    ensures Continues(all, edits + [e], rest)
    ensures MaxNumber(edits + [e]) == if e.number > MaxNumber(edits) then e.number else MaxNumber(edits)
  {
    assert edits + ([e] + rest.edits) == (edits + [e]) + rest.edits;
    assert (edits + [e])[..|edits|] == edits;
  }

  // ---------------------------------------------------------------- sessions

  /** Between processes the file may end in a torn frame; while one runs, its counter is set. */
  datatype Store = Up(file: Data, number: nat) | Halted(file: Data)

  datatype Event =
    | Append(e: Edit)             // returned: frame and fsync done
    | Torn(e: Edit, bytes: nat)   // the process died after this many bytes of the frame
    | Reopen                      // Open, then Replay

  function FrameOf(crc: Checksum, j: Json, n: nat, e: Edit): Data {
    Frame(crc, j.marshal(VersionEdit(n, e)))
  }

  predicate Possible(crc: Checksum, j: Json, s: Store, ev: Event) {
    match ev
    case Append(e) => s.Up?
    case Torn(e, bytes) => s.Up? && bytes <= |FrameOf(crc, j, s.number + 1, e)|
    case Reopen => true
  }

  /** Exactly what the methods do to the file and the counter. */
  function After(crc: Checksum, j: Json, s: Store, ev: Event): Store
    requires Possible(crc, j, s, ev)
  {
    match ev
    case Append(e) => Up(s.file + FrameOf(crc, j, s.number + 1, e), s.number + 1)
    case Torn(e, bytes) => Halted(s.file + FrameOf(crc, j, s.number + 1, e)[..bytes])
    case Reopen =>
      var rp := ReplayFrom(crc, j, s.file, 0);
      if rp.failed then Halted(s.file) else Up(s.file[..rp.validBytes], MaxNumber(rp.edits))
  }

  /** The edits whose frames are wholly in the file. */
  function Committed(crc: Checksum, j: Json, done: seq<Edit>, ev: Event): (done': seq<Edit>)
    ensures done <= done'
  {
    match ev
    case Append(e) => done + [e]
    case Torn(e, bytes) => if bytes == |FrameOf(crc, j, |done| + 1, e)| then done + [e] else done
    case Reopen => done
  }

  /** The edit written in ev, and the point where a crash leaves an unreadable manifest. */
  ghost predicate Readable(j: Json, done: seq<Edit>, ev: Event) {
    match ev
    case Append(e) => |j.marshal(VersionEdit(|done| + 1, e))| <= MAX_BODY
    case Torn(e, bytes) => 0 < |j.marshal(VersionEdit(|done| + 1, e))| <= MAX_BODY && bytes != 8
    case Reopen => true
  }

  /** s is a file holding exactly done, or done followed by a torn frame that was not cut after its header. */
  ghost predicate Stores(crc: Checksum, j: Json, s: Store, done: seq<Edit>) {
    (forall i :: 0 <= i < |done| ==> |Bodies(j, done)[i]| <= MAX_BODY)
    && match s
       case Up(file, number) => file == EditLog(crc, j, done) && number == |done|
       case Halted(file) =>
         file == EditLog(crc, j, done)
         || exists e, c :: 0 < |j.marshal(VersionEdit(|done| + 1, e))| <= MAX_BODY && c != 8
              && TornTail(crc, j, file, done, e, c)
  }

  ghost predicate TornTail(crc: Checksum, j: Json, file: Data, done: seq<Edit>, e: Edit, c: nat) {
    c < |FrameOf(crc, j, |done| + 1, e)| && file == EditLog(crc, j, done) + FrameOf(crc, j, |done| + 1, e)[..c]
  }

  lemma BodiesAppend(j: Json, done: seq<Edit>, e: Edit)
    ensures Bodies(j, done + [e]) == Bodies(j, done) + [j.marshal(VersionEdit(|done| + 1, e))]
  {}

  lemma LogOfAppend(crc: Checksum, j: Json, done: seq<Edit>, e: Edit)
    ensures EditLog(crc, j, done + [e]) == EditLog(crc, j, done) + FrameOf(crc, j, |done| + 1, e)
  {
    BodiesAppend(j, done, e);
    LogAppend(crc, Bodies(j, done), j.marshal(VersionEdit(|done| + 1, e)));
  }

  /** How far a cut inside one more frame lets a reader get: the frames before it, and nothing of it. */
  lemma {:induction false} CutInLast(crc: Checksum, bs: seq<Data>, body: Data, maxBody: nat, c: nat)
    requires (forall i :: 0 <= i < |bs| ==> |bs[i]| <= maxBody) && |body| <= maxBody && c < 8 + |body|
    ensures Whole(bs + [body], maxBody, |Log(crc, bs)| + c) == |bs|
    ensures WholeBytes(bs + [body], maxBody, |Log(crc, bs)| + c) == |Log(crc, bs)|
    ensures CutAfterHeader(bs + [body], maxBody, |Log(crc, bs)| + c) <==> c == 8
  {
    if bs == [] {
      assert bs + [body] == [body];
    } else {
      assert (bs + [body])[1..] == bs[1..] + [body] && (bs + [body])[0] == bs[0];
      assert |Log(crc, bs)| + c - (8 + |bs[0]|) == |Log(crc, bs[1..])| + c;
      CutInLast(crc, bs[1..], body, maxBody, c);
    }
  }

  lemma TornIsCut(crc: Checksum, j: Json, done: seq<Edit>, e: Edit, c: nat)
    requires c < |FrameOf(crc, j, |done| + 1, e)|
    ensures |EditLog(crc, j, done)| + c <= |EditLog(crc, j, done + [e])|
    ensures EditLog(crc, j, done + [e])[..|EditLog(crc, j, done)| + c] ==
            EditLog(crc, j, done) + FrameOf(crc, j, |done| + 1, e)[..c]
  {
    LogOfAppend(crc, j, done, e);
  }

  /** Reopening after a torn append: an error exactly when the frame was cut after its header, and otherwise the torn
      bytes are gone, the edits before them are delivered, numbered 1..n, and the counter is n. */
  lemma ReopenTorn(crc: Checksum, j: Json, done: seq<Edit>, e: Edit, c: nat)
    requires LeftInverse(j) && (forall i :: 0 <= i < |done| ==> |Bodies(j, done)[i]| <= MAX_BODY)
    requires |j.marshal(VersionEdit(|done| + 1, e))| <= MAX_BODY && c < |FrameOf(crc, j, |done| + 1, e)|
    ensures var rp := ReplayFrom(crc, j, EditLog(crc, j, done) + FrameOf(crc, j, |done| + 1, e)[..c], 0);
            rp == EditsRead(Numbered(done), |EditLog(crc, j, done)|, c == 8)
  {
    var cut := |EditLog(crc, j, done)| + c;
    WholeBeforeTear(crc, j, done, e, c);
    TornIsCut(crc, j, done, e, c);
    var log := EditLog(crc, j, done) + FrameOf(crc, j, |done| + 1, e)[..c];
    CutAt(crc, j, done + [e], cut, log, done, |EditLog(crc, j, done)|, c == 8);
  }

  /** CutManifest for a cut that leaves the edits done whole. */
  lemma CutAt(crc: Checksum, j: Json, edits: seq<Edit>, cut: nat, log: Data, done: seq<Edit>, bytes: nat, failed: bool)
    requires LeftInverse(j) && Encodable(Bodies(j, edits)) && cut <= |EditLog(crc, j, edits)|
    requires log == EditLog(crc, j, edits)[..cut] && done <= edits && Whole(Bodies(j, edits), MAX_BODY, cut) == |done|
    requires WholeBytes(Bodies(j, edits), MAX_BODY, cut) == bytes
    requires CutAfterHeader(Bodies(j, edits), MAX_BODY, cut) == failed
    ensures ReplayFrom(crc, j, log, 0) == EditsRead(Numbered(done), bytes, failed)
  {
    CutManifest(crc, j, edits, cut);
    assert edits[..|done|] == done;
  }

  /** The frames before the torn one are whole. */
  lemma WholeBeforeTear(crc: Checksum, j: Json, done: seq<Edit>, e: Edit, c: nat)
    requires forall i :: 0 <= i < |done| ==> |Bodies(j, done)[i]| <= MAX_BODY
    requires |j.marshal(VersionEdit(|done| + 1, e))| <= MAX_BODY && c < |FrameOf(crc, j, |done| + 1, e)|
    ensures var all, cut := Bodies(j, done + [e]), |EditLog(crc, j, done)| + c;
            Encodable(all) && Whole(all, MAX_BODY, cut) == |done|
            && WholeBytes(all, MAX_BODY, cut) == |EditLog(crc, j, done)|
            && CutAfterHeader(all, MAX_BODY, cut) == (c == 8)
  {
    var bs, all := Bodies(j, done), Bodies(j, done + [e]);
    BodiesAppend(j, done, e);
    assert Encodable(all) by { assert forall i :: 0 <= i < |bs| ==> all[i] == bs[i]; }
    CutInLast(crc, bs, j.marshal(VersionEdit(|done| + 1, e)), MAX_BODY, c);
  }

  lemma ReopenWhole(crc: Checksum, j: Json, done: seq<Edit>)
    requires LeftInverse(j) && (forall i :: 0 <= i < |done| ==> |Bodies(j, done)[i]| <= MAX_BODY)
    ensures ReplayFrom(crc, j, EditLog(crc, j, done), 0) == EditsRead(Numbered(done), |EditLog(crc, j, done)|, false)
  {
    var bs, log := Bodies(j, done), EditLog(crc, j, done);
    assert forall i :: 0 <= i < |bs| ==> |bs[i]| < TWO_32;
    AllWhole(crc, bs, MAX_BODY);
    WholeLogNotCut(crc, bs, MAX_BODY);
    WholeBytesAreLog(crc, bs, MAX_BODY, |log|);
    assert log[..|log|] == log && bs[..|bs|] == bs && done[..|done|] == done;
    CutManifest(crc, j, done, |log|);
    assert |log[..WholeBytes(bs, MAX_BODY, |log|)]| == WholeBytes(bs, MAX_BODY, |log|);
  }

  lemma AppendStep(crc: Checksum, j: Json, s: Store, done: seq<Edit>, e: Edit)
    requires Stores(crc, j, s, done) && s.Up? && |j.marshal(VersionEdit(|done| + 1, e))| <= MAX_BODY
    ensures Stores(crc, j, Up(s.file + FrameOf(crc, j, s.number + 1, e), s.number + 1), done + [e])
  {
    BodiesAppend(j, done, e);
    LogOfAppend(crc, j, done, e);
  }

  lemma TornStep(crc: Checksum, j: Json, s: Store, done: seq<Edit>, e: Edit, bytes: nat)
    requires Stores(crc, j, s, done) && Possible(crc, j, s, Torn(e, bytes)) && Readable(j, done, Torn(e, bytes))
    ensures Stores(crc, j, After(crc, j, s, Torn(e, bytes)), Committed(crc, j, done, Torn(e, bytes)))
  {
    var f := FrameOf(crc, j, |done| + 1, e);
    if bytes == |f| {
      assert f[..bytes] == f;
      AppendStep(crc, j, s, done, e);
    } else {
      assert TornTail(crc, j, s.file + f[..bytes], done, e, bytes);
    }
  }

  lemma ReopenStep(crc: Checksum, j: Json, s: Store, done: seq<Edit>)
    requires LeftInverse(j) && Stores(crc, j, s, done)
    ensures After(crc, j, s, Reopen) == Up(EditLog(crc, j, done), |done|)
    ensures ReplayFrom(crc, j, s.file, 0).edits == Numbered(done)
  {
    var log := EditLog(crc, j, done);
    MaxOfNumbered(done);
    if s.file == log {
      ReopenWhole(crc, j, done);
      assert log[..|log|] == log;
    } else {
      var e, c :| 0 < |j.marshal(VersionEdit(|done| + 1, e))| <= MAX_BODY && c != 8
                  && TornTail(crc, j, s.file, done, e, c);
      ReopenTorn(crc, j, done, e, c);
      assert s.file[..|log|] == log;
    }
  }

  lemma SessionStep(crc: Checksum, j: Json, s: Store, done: seq<Edit>, ev: Event)
    requires LeftInverse(j) && Stores(crc, j, s, done) && Possible(crc, j, s, ev) && Readable(j, done, ev)
    ensures Stores(crc, j, After(crc, j, s, ev), Committed(crc, j, done, ev))
  {
    match ev
    case Append(e) => AppendStep(crc, j, s, done, e);
    case Torn(e, bytes) => TornStep(crc, j, s, done, e, bytes);
    case Reopen => ReopenStep(crc, j, s, done);
  }

  // ---------------------------------------------------------------- whole histories

  ghost predicate History(crc: Checksum, j: Json, states: seq<Store>, dones: seq<seq<Edit>>, events: seq<Event>) {
    |states| == |events| + 1 == |dones| && states[0] == Halted([]) && dones[0] == []
    && forall k :: 0 <= k < |events| ==>
         Possible(crc, j, states[k], events[k]) && states[k + 1] == After(crc, j, states[k], events[k])
         && dones[k + 1] == Committed(crc, j, dones[k], events[k])
  }

  /** Over any number of sessions of appends, crashes in the middle of an append and reopenings, as long as no crash
      cuts a frame exactly after its header and no edit exceeds the reader's cap: every reopening succeeds, delivers
      every edit whose Append ever returned, in order, numbered 1..n, and leaves the file at a frame boundary. */
  lemma {:induction false} Sessions(crc: Checksum, j: Json, states: seq<Store>, dones: seq<seq<Edit>>,
                                    events: seq<Event>, n: nat)
    requires LeftInverse(j) && History(crc, j, states, dones, events) && n <= |events|
    requires forall k :: 0 <= k < n ==> Readable(j, dones[k], events[k])
    ensures Stores(crc, j, states[n], dones[n])
    ensures forall k :: 0 <= k <= n ==> dones[k] <= dones[n]
    ensures forall k :: 0 <= k < n && events[k].Reopen? ==>
              states[k + 1] == Up(EditLog(crc, j, dones[k]), |dones[k]|)
              && ReplayFrom(crc, j, states[k].file, 0).edits == Numbered(dones[k])
  {
    if n == 0 {
      assert Log(crc, Bodies(j, [])) == [];
    } else {
      Sessions(crc, j, states, dones, events, n - 1);
      SessionStep(crc, j, states[n - 1], dones[n - 1], events[n - 1]);
      if events[n - 1].Reopen? { ReopenStep(crc, j, states[n - 1], dones[n - 1]); }
    }
  }
}
