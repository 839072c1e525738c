/**
  The capture file: the record writer of cmd/replay/generate.go and the reader of
  cmd/replay/main.go. A record is a 4-byte delay, a 2-byte frame length and the frame.
 */
module Capture {
  import opened Bytes
  import opened Telemetry
  import opened Frames
  import opened FrameLaws
  import opened Decoder
  import opened Builders
  import opened WireFormat

  const HEADER := 6
  const MAX_FRAME := 300

  datatype Record = Record(delay: nat, frame: seq<byte>)

  // ----- writer -----

  function WriteRecord(r: Record): (bytes: seq<byte>)
    ensures |bytes| == HEADER + |r.frame|
  {
    PutU32(r.delay) + PutU16(|r.frame|) + r.frame
  }

  function WriteAll(rs: seq<Record>): seq<byte> {
    if rs == [] then [] else WriteRecord(rs[0]) + WriteAll(rs[1..])
  }

  /** The writing loop, with one header buffer reused for every record. */
  method WriteCapture(rs: seq<Record>) returns (file: seq<byte>)
    ensures file == WriteAll(rs)
  {
    file := [];
    var header := new byte[HEADER](_ => 0);
    for i := 0 to |rs|
      invariant file + WriteAll(rs[i..]) == WriteAll(rs)
    {
      PutUint32(header, 0, rs[i].delay);
      PutUint16(header, 4, |rs[i].frame|);
      assert header[..] == header[..6];
      WriteNext(file, header[..], rs, i);
      file := file + header[..];
      file := file + rs[i].frame;
    }
  }

  lemma WriteNext(file: seq<byte>, header: seq<byte>, rs: seq<Record>, i: nat)
    requires i < |rs| && file + WriteAll(rs[i..]) == WriteAll(rs)
    requires header == PutU32(rs[i].delay) + PutU16(|rs[i].frame|)
    ensures file + header + rs[i].frame + WriteAll(rs[i + 1..]) == WriteAll(rs)
  {
    assert rs[i..][1..] == rs[i + 1..] && rs[i..][0] == rs[i];
    assert WriteAll(rs[i..]) == header + rs[i].frame + WriteAll(rs[i + 1..]);
  }

  // ----- reader -----

  predicate ValidLength(n: nat) {
    1 <= n <= MAX_FRAME
  }

  /** The frames replayed from `data` in at most `k` turns of the loop. */
  function ReadTurns(data: seq<byte>, k: nat): seq<seq<byte>> {
    if k == 0 || |data| < HEADER then []
    else
      var n := U16(data, 4);
      if !ValidLength(n) then ReadTurns(data[HEADER..], k - 1)
      else if |data| < HEADER + n then []
      else [data[HEADER..HEADER + n]] + ReadTurns(data[HEADER + n..], k - 1)
  }

  /** The frames replayed when nothing interrupts: each turn takes at least a header. */
  function Read(data: seq<byte>): seq<seq<byte>> {
    ReadTurns(data, |data|)
  }

  /** A source of bytes that, when they are used up, reports the end of file or, if `broken`, some other error. */
  class Reader {
    const data: seq<byte>
    const broken: bool
    var pos: nat

    ghost predicate Valid()
      reads this
    {
      pos <= |data|
    }

    ghost function Rest(): seq<byte>
      reads this
      requires Valid()
    {
      data[pos..]
    }

    constructor (data: seq<byte>, broken: bool)
      ensures Valid() && Rest() == data && this.broken == broken
    {
      this.data, this.broken := data, broken;
      pos := 0;
    }

    /** io.ReadFull: all n bytes, or end of file or an error with whatever was left consumed. */
    method ReadFull(n: nat) returns (r: Option<seq<byte>>, failed: bool)
      requires Valid()
      modifies this
      ensures Valid()
      ensures if |old(Rest())| < n then r == None && failed == broken && Rest() == []
              else r == Some(old(Rest())[..n]) && !failed && Rest() == old(Rest())[n..]
    {
      if |data| - pos < n {
        pos := |data|;
        return None, broken;
      }
      r, failed := Some(data[pos..pos + n]), false;
      assert data[pos..][..n] == data[pos..pos + n] && data[pos..][n..] == data[pos + n..];
      pos := pos + n;
    }
  }

  /**
    replayFile; `signal` is the turn on which an interrupt is found pending. Frames sent are collected in order. An error of
    the reader ends the replay early, and is told apart from the end of the file.
   */
  method ReplayFile(r: Reader, signal: Option<nat>)
    returns (sent: nat, interrupted: bool, failed: bool, out: seq<seq<byte>>)
    requires r.Valid()
    modifies r
    ensures sent == |out|
    ensures interrupted ==> signal.Some? && out == ReadTurns(old(r.Rest()), signal.value)
    ensures !interrupted ==> out == Read(old(r.Rest())) && failed == r.broken
  {
    ghost var all := r.Rest();
    sent, interrupted, failed, out := 0, false, false, [];
    ghost var limit := if signal.Some? then signal.value else |all|;
    var turn := 0;
    while true
      invariant r.Valid() && sent == |out| && !interrupted && !failed
      invariant OnTrack(all, r.Rest(), out, turn, limit)
      decreases |r.Rest()|
    {
      ghost var rest := r.Rest();
      if signal == Some(turn) {
        interrupted := true;
        return;
      }
      var header, headerFailed := r.ReadFull(HEADER);
      if header == None {
        failed := headerFailed;
        return;
      }
      var frameLen := U16(header.value, 4);
      assert frameLen == U16(rest, 4);
      if !ValidLength(frameLen) {
        TrackSkipped(all, rest, out, turn, limit);
        turn := turn + 1;
        continue;
      }
      var frame, frameFailed := r.ReadFull(frameLen);
      if frame == None {
        failed := frameFailed;
        return;
      }
      TrackSent(all, rest, out, turn, limit, r.Rest(), frame.value);
      turn := turn + 1;
      out := out + [frame.value];
      sent := sent + 1;
    }
  }

  /** What the loop has done so far is right for the turns it has and for as many as it could need. */
  ghost predicate OnTrack(all: seq<byte>, rest: seq<byte>, out: seq<seq<byte>>, turn: nat, limit: nat) {
    && turn + |rest| <= |all| && turn <= limit
    && Progress(all, rest, out, turn, |all|) && Progress(all, rest, out, turn, limit)
  }

  lemma TrackSkipped(all: seq<byte>, rest: seq<byte>, out: seq<seq<byte>>, turn: nat, limit: nat)
    requires OnTrack(all, rest, out, turn, limit) && turn != limit
    requires |rest| >= HEADER && !ValidLength(U16(rest, 4))
    ensures OnTrack(all, rest[HEADER..], out, turn + 1, limit)
  {
    Skipped(all, rest, out, turn, |all|);
    Skipped(all, rest, out, turn, limit);
  }

  lemma TrackSent(all: seq<byte>, rest: seq<byte>, out: seq<seq<byte>>, turn: nat, limit: nat, after: seq<byte>, frame: seq<byte>)
    requires OnTrack(all, rest, out, turn, limit) && turn != limit
    requires |rest| >= HEADER && ValidLength(U16(rest, 4)) && |rest| >= HEADER + U16(rest, 4)
    requires frame == rest[HEADER..][..U16(rest, 4)] && after == rest[HEADER..][U16(rest, 4)..]
    ensures OnTrack(all, after, out + [frame], turn + 1, limit)
  {
    assert after == rest[HEADER + U16(rest, 4)..] && frame == rest[HEADER..HEADER + U16(rest, 4)];
    OneMoreSent(all, rest, out, turn, |all|);
    OneMoreSent(all, rest, out, turn, limit);
  }

  lemma Skipped(all: seq<byte>, rest: seq<byte>, out: seq<seq<byte>>, turn: nat, k: nat)
    requires Progress(all, rest, out, turn, k) && turn < k
    requires |rest| >= HEADER && !ValidLength(U16(rest, 4))
    ensures Progress(all, rest[HEADER..], out, turn + 1, k)
  {}

  lemma OneMoreSent(all: seq<byte>, rest: seq<byte>, out: seq<seq<byte>>, turn: nat, k: nat)
    requires Progress(all, rest, out, turn, k) && turn < k
    requires |rest| >= HEADER && ValidLength(U16(rest, 4)) && |rest| >= HEADER + U16(rest, 4)
    ensures Progress(all, rest[HEADER + U16(rest, 4)..], out + [rest[HEADER..HEADER + U16(rest, 4)]], turn + 1, k)
  {
    assert ReadTurns(rest, k - turn)
        == [rest[HEADER..HEADER + U16(rest, 4)]] + ReadTurns(rest[HEADER + U16(rest, 4)..], k - turn - 1);
  }

  /** What was sent in `turn` turns, followed by what the remaining turns send, is what all `k` turns send. */
  ghost predicate Progress(all: seq<byte>, rest: seq<byte>, out: seq<seq<byte>>, turn: nat, k: nat) {
    turn <= k && out + ReadTurns(rest, k - turn) == ReadTurns(all, k)
  }

  // ----- the format -----

  /** A record: four bytes of delay, two of length, the frame. */
  lemma RecordLayout(r: Record)
    ensures var b := WriteRecord(r);
      && |b| == 6 + |r.frame| && Number(b[0..4]) == r.delay % 0x1_0000_0000
      && Number(b[4..6]) == |r.frame| % 0x1_0000 && b[6..] == r.frame
  {
    var b := WriteRecord(r);
    assert b[0..4] == PutU32(r.delay) && b[4..6] == PutU16(|r.frame|);
    PutFour(r.delay);
    PutTwo(|r.frame|);
  }

  /**
    The replay, record by record: a length outside 1..300 costs its header and nothing else, a whole record is sent, and a
    cut one ends the replay.
   */
  lemma ReplayLaw(data: seq<byte>)
    ensures Read(data) ==
      if |data| < 6 then []
      else if Number(data[4..6]) == 0 || Number(data[4..6]) > 300 then Read(data[6..])
      else if |data| < 6 + Number(data[4..6]) then []
      else [data[6..6 + Number(data[4..6])]] + Read(data[6 + Number(data[4..6])..])
  {
    if |data| >= 6 {
      TwoBytes(data, 4);
      var n := U16(data, 4);
      EnoughTurns(data[6..], |data| - 1);
      if |data| >= 6 + n {
        EnoughTurns(data[6 + n..], |data| - 1);
      }
    }
  }

  // ----- the reader inverts the writer -----

  function FramesOf(rs: seq<Record>): (fs: seq<seq<byte>>)
    ensures |fs| == |rs|
  {
    seq(|rs|, i requires 0 <= i < |rs| => rs[i].frame)
  }

  /** How many records lie wholly inside the first k bytes of the file. */
  function Inside(rs: seq<Record>, k: int): (m: nat)
    ensures m <= |rs|
  {
    if rs == [] || k < |WriteRecord(rs[0])| then 0 else 1 + Inside(rs[1..], k - |WriteRecord(rs[0])|)
  }

  /** Turns beyond the number of bytes change nothing. */
  lemma {:induction false} EnoughTurns(data: seq<byte>, k: nat)
    requires |data| <= k
    ensures ReadTurns(data, k) == Read(data)
    decreases |data|
  {
    if |data| < HEADER {
    } else {
      var n := U16(data, 4);
      if !ValidLength(n) {
        EnoughTurns(data[HEADER..], k - 1);
        EnoughTurns(data[HEADER..], |data| - 1);
      } else if |data| >= HEADER + n {
        EnoughTurns(data[HEADER + n..], k - 1);
        EnoughTurns(data[HEADER + n..], |data| - 1);
      }
    }
  }

  /** Reading on from behind a good record. */
  lemma ReadRecord(r: Record, rest: seq<byte>)
    requires ValidLength(|r.frame|)
    ensures Read(WriteRecord(r) + rest) == [r.frame] + Read(rest)
  {
    var data := WriteRecord(r) + rest;
    LengthField(r, rest);
    assert data[HEADER..HEADER + |r.frame|] == r.frame && data[HEADER + |r.frame|..] == rest;
    EnoughTurns(rest, |data| - 1);
  }

  lemma LengthField(r: Record, rest: seq<byte>)
    requires ValidLength(|r.frame|)
    ensures U16(WriteRecord(r) + rest, 4) == |r.frame|
  {
    var len := PutU16(|r.frame|);
    assert WriteRecord(r) + rest == PutU32(r.delay) + len + (r.frame + rest);
    assert (WriteRecord(r) + rest)[4] == len[0] && (WriteRecord(r) + rest)[5] == len[1];
    assert U16(len, 0) == |r.frame|;
  }

  /** A file cut inside its first record yields nothing. */
  lemma CutRecord(r: Record, rest: seq<byte>, k: nat)
    requires ValidLength(|r.frame|) && k < |WriteRecord(r)|
    ensures Read((WriteRecord(r) + rest)[..k]) == []
  {
    var data := (WriteRecord(r) + rest)[..k];
    if k >= HEADER {
      LengthField(r, rest);
      assert data[4] == (WriteRecord(r) + rest)[4] && data[5] == (WriteRecord(r) + rest)[5];
      assert U16(data, 4) == |r.frame|;
    }
  }

  /** Any byte prefix of a capture replays exactly the records wholly inside it. */
  lemma {:induction false} PrefixReplays(rs: seq<Record>, k: nat)
    requires forall r :: r in rs ==> ValidLength(|r.frame|)
    requires k <= |WriteAll(rs)|
    ensures Read(WriteAll(rs)[..k]) == FramesOf(rs[..Inside(rs, k)])
  {
    if rs == [] {
      assert WriteAll(rs)[..k] == [];
    } else {
      var r, rest := rs[0], WriteAll(rs[1..]);
      if k < |WriteRecord(r)| {
        CutRecord(r, rest, k);
      } else {
        var k' := k - |WriteRecord(r)|;
        assert WriteAll(rs)[..k] == WriteRecord(r) + rest[..k'];
        ReadRecord(r, rest[..k']);
        PrefixReplays(rs[1..], k');
        var m := Inside(rs[1..], k');
        assert rs[..1 + m] == [r] + rs[1..][..m];
        assert FramesOf(rs[..1 + m]) == [r.frame] + FramesOf(rs[1..][..m]);
      }
    }
  }

  lemma {:induction false} AllInside(rs: seq<Record>)
    ensures Inside(rs, |WriteAll(rs)|) == |rs|
  {
    if rs == [] {
    } else {
      AllInside(rs[1..]);
    }
  }

  lemma {:induction false} ReadLengths(data: seq<byte>, k: nat)
    ensures forall f :: f in ReadTurns(data, k) ==> ValidLength(|f|)
    decreases k
  {
    if k == 0 || |data| < HEADER {
    } else {
      var n := U16(data, 4);
      if !ValidLength(n) {
        ReadLengths(data[HEADER..], k - 1);
      } else if |data| >= HEADER + n {
        ReadLengths(data[HEADER + n..], k - 1);
      }
    }
  }

  /** Writing then replaying gives back the frames exactly when every frame is 1 to 300 bytes long. */
  lemma CaptureRoundTrip(rs: seq<Record>)
    ensures Read(WriteAll(rs)) == FramesOf(rs) <==> forall r :: r in rs ==> 1 <= |r.frame| <= 300
  {
    if forall r :: r in rs ==> ValidLength(|r.frame|) {
      AllInside(rs);
      PrefixReplays(rs, |WriteAll(rs)|);
      assert WriteAll(rs)[..|WriteAll(rs)|] == WriteAll(rs) && rs[..|rs|] == rs;
    }
    if Read(WriteAll(rs)) == FramesOf(rs) {
      ReadLengths(WriteAll(rs), |WriteAll(rs)|);
      forall r | r in rs
        ensures ValidLength(|r.frame|)
      {
        var i :| 0 <= i < |rs| && rs[i] == r;
        assert FramesOf(rs)[i] in FramesOf(rs);
      }
    }
  }

  /** An interrupted replay has sent a prefix of what an uninterrupted one sends. */
  lemma {:induction false} InterruptedIsPrefix(data: seq<byte>, k: nat)
    ensures ReadTurns(data, k) <= Read(data)
    decreases |data|
  {
    if k == 0 || |data| < HEADER {
    } else {
      var n := U16(data, 4);
      if !ValidLength(n) {
        InterruptedIsPrefix(data[HEADER..], k - 1);
        EnoughTurns(data[HEADER..], |data| - 1);
      } else if |data| >= HEADER + n {
        InterruptedIsPrefix(data[HEADER + n..], k - 1);
        EnoughTurns(data[HEADER + n..], |data| - 1);
      }
    }
  }

  // ----- simulator to server through a file -----

  datatype Message = Message(delay: nat, sequence: byte, msgID: nat, payload: seq<byte>)

  /** generateCapture's frames come from system 1. */
  function Recorded(m: Message): Record {
    Record(m.delay, FrameBytes(m.sequence, 1, m.msgID, m.payload))
  }

  function RecordAll(ms: seq<Message>): (rs: seq<Record>)
    ensures |rs| == |ms|
  {
    seq(|ms|, i requires 0 <= i < |ms| => Recorded(ms[i]))
  }

  predicate Sendable(m: Message) {
    |m.payload| <= 255 && m.msgID in SIM_SEEDS && m.msgID < 0x100_0000
  }

  /** Every message recorded and replayed decodes to exactly its own payload, in order. */
  lemma CaptureToServer(ms: seq<Message>, addr: string, now: int)
    requires forall m :: m in ms ==> Sendable(m)
    ensures var out := Read(WriteAll(RecordAll(ms)));
      |out| == |ms| && forall i :: 0 <= i < |ms| ==>
        DecodePacket(out[i], addr, now)
        == match Validated(DecodePayload(Sent(ms[i].sequence, 1, ms[i].msgID, ms[i].payload)))
           case None => Err(InvalidTelemetry)
           case Some(p) => Ok(Event(DroneID(1, 1), ms[i].msgID, now, addr, p))
  {
    var rs := RecordAll(ms);
    forall r | r in rs
      ensures ValidLength(|r.frame|)
    {
      var i :| 0 <= i < |ms| && rs[i] == Recorded(ms[i]) && r == rs[i];
      assert ms[i] in ms;
    }
    CaptureRoundTrip(rs);
    forall i | 0 <= i < |ms|
      ensures DecodePacket(FramesOf(rs)[i], addr, now)
        == match Validated(DecodePayload(Sent(ms[i].sequence, 1, ms[i].msgID, ms[i].payload)))
           case None => Err(InvalidTelemetry)
           case Some(p) => Ok(Event(DroneID(1, 1), ms[i].msgID, now, addr, p))
    {
      assert ms[i] in ms;
      BuiltFrameDecodes(ms[i].sequence, 1, ms[i].msgID, ms[i].payload, addr, now);
    }
  }
}
