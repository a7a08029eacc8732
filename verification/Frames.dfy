// Streams of self-delimiting frames: a CBOR sequence (RFC 8742, section 2) whose items are
// each one zstd frame (RFC 8878, section 3). Compression and CBOR themselves stay abstract.
module Frames {
  import opened Wrappers

  type Byte = x: int | 0 <= x < 256

  type Bytes = seq<Byte>

  /** What a decoder finds at the front of some bytes: a frame and its record, the start of one, or damage. */
  datatype Scan<R> = Whole(length: nat, record: R) | Partial | Broken

  datatype Codec<!R> = Codec(scan: Bytes -> Scan<R>)

  datatype Fault = Truncated | Damaged

  /** What reading a stream yields: the records in order, and the error that ended it, if one did. */
  datatype Reading<R> = Reading(records: seq<R>, fault: Option<Fault>)

  function ScanOf<R>(c: Codec<R>, bytes: Bytes): Scan<R> {
    c.scan(bytes)
  }

  /** A frame's own bytes decide: they end it, whatever follows; every proper prefix of it is only a start. */
  ghost predicate Delimits<R(!new)>(c: Codec<R>, bytes: Bytes) {
    match ScanOf(c, bytes)
    case Whole(length, record) =>
      && 0 < length <= |bytes| && ScanOf(c, bytes[..length]) == Whole(length, record)
      && forall n: nat | n < length :: ScanOf(c, bytes[..n]).Partial?
    case _ => true
  }

  /** More input never changes a verdict that has been reached. */
  ghost predicate Settled<R(!new)>(c: Codec<R>, bytes: Bytes, more: Bytes) {
    !ScanOf(c, bytes).Partial? ==> ScanOf(c, bytes + more) == ScanOf(c, bytes)
  }

  ghost predicate ValidCodec<R(!new)>(c: Codec<R>) {
    && ScanOf(c, []).Partial?
    && (forall bytes {:trigger Delimits(c, bytes)} :: Delimits(c, bytes))
    && (forall bytes, more {:trigger Settled(c, bytes, more)} :: Settled(c, bytes, more))
  }

  /** The bytes are exactly one frame holding the record. */
  ghost predicate IsFrame<R>(c: Codec<R>, bytes: Bytes, record: R) {
    ScanOf(c, bytes) == Whole(|bytes|, record)
  }

  /** Frame by frame from the front, until the end of the bytes or the first fault. */
  ghost function Parse<R(!new)>(c: Codec<R>, bytes: Bytes): (reading: Reading<R>)
    requires ValidCodec(c)
    decreases |bytes|
  {
    if bytes == [] then Reading([], None)
    else match ScanOf(c, bytes)
      case Whole(length, record) =>
        assert Delimits(c, bytes);
        var rest := Parse(c, bytes[length..]);
        Reading([record] + rest.records, rest.fault)
      case Partial => Reading([], Some(Truncated))
      case Broken => Reading([], Some(Damaged))
  }

  lemma FrameAt<R(!new)>(c: Codec<R>, bytes: Bytes)
    requires ValidCodec(c) && ScanOf(c, bytes).Whole?
    ensures 0 < ScanOf(c, bytes).length <= |bytes|
    ensures IsFrame(c, bytes[..ScanOf(c, bytes).length], ScanOf(c, bytes).record)
  {
    assert Delimits(c, bytes);
  }

  /** Deciding on a front part of the bytes is deciding on all of them. */
  lemma ParseFront<R(!new)>(c: Codec<R>, bytes: Bytes, front: Bytes)
    requires ValidCodec(c) && front <= bytes && !ScanOf(c, front).Partial?
    ensures ScanOf(c, front).Broken? ==> Parse(c, bytes) == Reading([], Some(Damaged))
    ensures ScanOf(c, front).Whole? ==> 0 < ScanOf(c, front).length <= |front| && ParsesWith(c, bytes, ScanOf(c, front).length, ScanOf(c, front).record)
  {
    assert front + bytes[|front|..] == bytes;
    assert Settled(c, front, bytes[|front|..]);
    assert Delimits(c, front);
  }

  ghost predicate ParsesWith<R(!new)>(c: Codec<R>, bytes: Bytes, length: nat, record: R)
    requires ValidCodec(c) && length <= |bytes|
  {
    Parse(c, bytes) == Reading([record] + Parse(c, bytes[length..]).records, Parse(c, bytes[length..]).fault)
  }

  lemma NoFaultIsWhole<R(!new)>(c: Codec<R>, bytes: Bytes)
    requires ValidCodec(c) && bytes != [] && Parse(c, bytes).fault == None
    ensures ScanOf(c, bytes).Whole?
  {
  }

  /** What a readable stream is followed by reads as if it stood alone. */
  lemma {:induction false} ParseConcat<R(!new)>(c: Codec<R>, a: Bytes, b: Bytes)
    requires ValidCodec(c) && Parse(c, a).fault == None
    ensures Parse(c, a + b) == Reading(Parse(c, a).records + Parse(c, b).records, Parse(c, b).fault)
    decreases |a|
  {
    hide Parse, ValidCodec, ScanOf;
    if a == [] {
      ParseEmpty(c);
      assert a + b == b;
    } else {
      NoFaultIsWhole(c, a);
      var n := ScanOf(c, a).length;
      ParseFront(c, a, a);
      ParseFront(c, a + b, a);
      ParseConcat(c, a[n..], b);
      assert (a + b)[n..] == a[n..] + b;
    }
  }

  lemma ParseEmpty<R(!new)>(c: Codec<R>)
    requires ValidCodec(c)
    ensures Parse(c, []) == Reading([], None)
  {
  }

  lemma ParseFrame<R(!new)>(c: Codec<R>, frame: Bytes, record: R)
    requires ValidCodec(c) && IsFrame(c, frame, record)
    ensures frame != [] && Parse(c, frame) == Reading([record], None)
  {
    FrameAt(c, frame);
    assert frame[|frame|..] == [];
  }

  /** A frame cut short reads as a fault, and yields nothing. */
  lemma ParseTorn<R(!new)>(c: Codec<R>, frame: Bytes, record: R, n: nat)
    requires ValidCodec(c) && IsFrame(c, frame, record) && 0 < n < |frame|
    ensures Parse(c, frame[..n]) == Reading([], Some(Truncated))
  {
    assert Delimits(c, frame);
  }

  function Concat(frames: seq<Bytes>): Bytes {
    if frames == [] then [] else Concat(frames[..|frames| - 1]) + frames[|frames| - 1]
  }

  ghost predicate AreFrames<R>(c: Codec<R>, frames: seq<Bytes>, records: seq<R>) {
    |frames| == |records| && forall i | 0 <= i < |frames| :: IsFrame(c, frames[i], records[i])
  }

  /** Writing frames one after another and reading them back is the identity. */
  lemma {:induction false} ParseFrames<R(!new)>(c: Codec<R>, frames: seq<Bytes>, records: seq<R>)
    requires ValidCodec(c) && AreFrames(c, frames, records)
    ensures Parse(c, Concat(frames)) == Reading(records, None)
    decreases |frames|
  {
    if frames != [] {
      var n := |frames| - 1;
      ParseFrames(c, frames[..n], records[..n]);
      ParseConcat(c, Concat(frames[..n]), frames[n]);
      ParseFrame(c, frames[n], records[n]);
      assert records[..n] + [records[n]] == records;
    }
  }

  const CHUNK := 65536

  lemma ParseStart<R(!new)>(c: Codec<R>, bytes: Bytes)
    requires ValidCodec(c) && ScanOf(c, bytes).Partial?
    ensures Parse(c, bytes) == Reading([], if bytes == [] then None else Some(Truncated))
  {
  }

  /** Reads chunk by chunk; what a chunk holds beyond its frame is the start of the next. */
  method ReadRecords<R(!new)>(c: Codec<R>, stream: Bytes) returns (reading: Reading<R>)
    requires ValidCodec(c)
    ensures reading == Parse(c, stream)
  {
    hide Parse, ScanOf, ValidCodec;
    var records, position, pending := [], 0, [];
    ghost var start := 0;
    assert stream[0..] == stream;
    while true
      invariant 0 <= start <= position <= |stream| && pending == stream[start..position]
      invariant Parse(c, stream) == Reading(records + Parse(c, stream[start..]).records, Parse(c, stream[start..]).fault)
      decreases |stream| - start
    {
      var buffer: Bytes, sawBytes := [], false;
      while ScanOf(c, buffer).Partial?
        invariant start <= position <= |stream|
        invariant buffer + pending == stream[start..position]
        invariant pending != [] ==> buffer == []
        invariant sawBytes == (buffer != [])
        decreases |stream| - position + |pending|
      {
        var chunk := pending;
        if chunk == [] {
          var next := if |stream| - position <= CHUNK then |stream| else position + CHUNK;
          chunk := stream[position..next];
          assert stream[start..next] == stream[start..position] + chunk;
          position := next;
        }
        assert buffer + chunk == stream[start..position];
        pending := [];
        if chunk == [] {
          assert position == |stream|;
          assert buffer == stream[start..position] == stream[start..];
          ParseStart(c, buffer);
          return if sawBytes then Reading(records, Some(Truncated)) else Reading(records, None);
        }
        sawBytes := true;
        buffer := buffer + chunk;
      }
      EmptyIsPartial(c);
      assert buffer == stream[start..position] <= stream[start..];
      ParseFront(c, stream[start..], buffer);
      if ScanOf(c, buffer).Broken? {
        return Reading(records, Some(Damaged));
      }
      var length := ScanOf(c, buffer).length;
      records := records + [ScanOf(c, buffer).record];
      pending := buffer[length..];
      assert stream[start..][length..] == stream[start + length..];
      start := start + length;
    }
  }

  lemma EmptyIsPartial<R(!new)>(c: Codec<R>)
    requires ValidCodec(c)
    ensures ScanOf(c, []).Partial?
  {
  }
}
