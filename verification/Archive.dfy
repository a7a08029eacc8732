// Cold history payloads: append-only segment files per session and agent, with references
// that say where a frame lies.
module HistoryArchive {
  import opened Wrappers
  import opened Frames

  datatype Key = Key(session: string, agent: string)

  /** One segment file: its owner's directory and the number in its name. */
  datatype Location = Location(key: Key, number: nat)

  datatype Segment = Segment(number: nat, size: nat)

  type Files = map<Location, Bytes>

  /** The files, and what the running process remembers of the segments it appends to. */
  datatype Archive = Archive(files: Files, segments: map<Key, Segment>)

  datatype Record = Record(schemaVersion: int, entryId: string, payload: string)

  datatype Reference = Reference(location: Location, offset: nat, length: nat, digest: string, entryId: string)

  datatype Setup = Setup(maxSegmentBytes: nat, codec: Codec<Record>, digest: Bytes -> string)

  const SCHEMA_VERSION := 1

  /** File names carry six digits; a longer number is not recognised when segments are looked up. */
  const LISTED_NUMBERS := 1000000

  ghost predicate LongFrame(c: Codec<Record>, bytes: Bytes) {
    ScanOf(c, bytes).Whole? ==> ScanOf(c, bytes).length > 4
  }

  /** No frame is as short as its magic number. */
  ghost predicate ValidSetup(u: Setup) {
    u.maxSegmentBytes > 0 && ValidCodec(u.codec) && forall bytes {:trigger LongFrame(u.codec, bytes)} :: LongFrame(u.codec, bytes)
  }

  function Contents(files: Files, at: Location): Bytes {
    if at in files then files[at] else []
  }

  predicate Listed(at: Location, key: Key) {
    at.key == key && at.number < LISTED_NUMBERS
  }

  ghost predicate Sound(u: Setup, bytes: Bytes)
    requires ValidSetup(u)
  {
    Parse(u.codec, bytes).fault == None
  }

  /** What looking through a directory finds: the highest listed segment, if all listed segments read without a fault. */
  ghost predicate Restores(u: Setup, files: Files, key: Key, current: Option<Segment>)
    requires ValidSetup(u)
  {
    && (forall at | at in files && Listed(at, key) :: Sound(u, files[at]))
    && match current
       case None => forall at | at in files :: !Listed(at, key)
       case Some(segment) =>
         && Listed(Location(key, segment.number), key) && Location(key, segment.number) in files
         && segment.size == |files[Location(key, segment.number)]|
         && forall at | at in files && Listed(at, key) :: at.number <= segment.number
  }

  ghost predicate FindsCurrent(u: Setup, a: Archive, key: Key, current: Option<Segment>)
    requires ValidSetup(u)
  {
    if key in a.segments then current == Some(a.segments[key]) else Restores(u, a.files, key, current)
  }

  /** A segment takes the frame if it is empty or has room; otherwise the next one does. */
  function Chosen(u: Setup, current: Option<Segment>, length: nat): Segment {
    match current
    case None => Segment(0, 0)
    case Some(segment) =>
      if segment.size == 0 || segment.size + length <= u.maxSegmentBytes then segment else Segment(segment.number + 1, 0)
  }

  /** A completed append: the frame is at the end of its file, and the reference says so. */
  ghost predicate Appends(u: Setup, a: Archive, key: Key, entryId: string, frame: Bytes, b: Archive, r: Reference)
    requires ValidSetup(u)
  {
    exists current :: AppendsTo(u, a, key, entryId, frame, b, r, current)
  }

  ghost predicate AppendsTo(u: Setup, a: Archive, key: Key, entryId: string, frame: Bytes, b: Archive, r: Reference, current: Option<Segment>)
    requires ValidSetup(u)
  {
    && FindsCurrent(u, a, key, current)
    && var segment := Chosen(u, current, |frame|);
    && var at := Location(key, segment.number);
    && b == Archive(a.files[at := Contents(a.files, at) + frame], a.segments[key := Segment(segment.number, segment.size + |frame|)])
    && r == Reference(at, segment.size, |frame|, u.digest(frame), entryId)
  }

  datatype ReadError = PastEnd | DigestMismatch | Unreadable | WrongSchema | WrongEntry

  function Slice(bytes: Bytes, offset: nat, length: nat): Bytes {
    if offset >= |bytes| then []
    else if offset + length <= |bytes| then bytes[offset..offset + length] else bytes[offset..]
  }

  /** Decoding one frame on its own: anything but exactly one whole frame is unreadable. */
  function DecodeFrame(u: Setup, frame: Bytes): Option<Record> {
    match ScanOf(u.codec, frame)
    case Whole(length, record) => if length == |frame| then Some(record) else None
    case _ => None
  }

  function Read(u: Setup, files: Files, r: Reference): Result<Record, ReadError> {
    var frame := Slice(Contents(files, r.location), r.offset, r.length);
    if |frame| != r.length then Err(PastEnd)
    else if u.digest(frame) != r.digest then Err(DigestMismatch)
    else match DecodeFrame(u, frame)
      case None => Err(Unreadable)
      case Some(record) =>
        if record.schemaVersion != SCHEMA_VERSION then Err(WrongSchema)
        else if record.entryId != r.entryId then Err(WrongEntry)
        else Ok(record)
  }

  // ---- Invariant of every run in which no append has raised ----

  ghost predicate Tracks(a: Archive, key: Key, segment: Segment) {
    && segment.size == |Contents(a.files, Location(key, segment.number))|
    && forall at | at in a.files && at.key == key :: at.number <= segment.number
  }

  /** Within the limit, or a single frame that alone exceeds it. */
  ghost predicate Fits(u: Setup, bytes: Bytes)
    requires ValidSetup(u)
  {
    |bytes| <= u.maxSegmentBytes || |Parse(u.codec, bytes).records| == 1
  }

  ghost predicate Orderly(u: Setup, a: Archive)
    requires ValidSetup(u)
  {
    && (forall at | at in a.files :: Sound(u, a.files[at]) && Fits(u, a.files[at]))
    && (forall at | at in a.files :: at.number < LISTED_NUMBERS)
    && forall key | key in a.segments :: Tracks(a, key, a.segments[key])
  }

  /** The reference still yields its record. */
  ghost predicate Kept(u: Setup, files: Files, r: Reference, record: Record) {
    && r.location in files && r.offset + r.length <= |files[r.location]|
    && IsFrame(u.codec, files[r.location][r.offset..r.offset + r.length], record)
    && r.digest == u.digest(files[r.location][r.offset..r.offset + r.length])
    && record.schemaVersion == SCHEMA_VERSION && record.entryId == r.entryId
  }

  /** What a finished lookup finds is the true current segment. */
  lemma FoundIsTracked(u: Setup, a: Archive, key: Key, current: Option<Segment>)
    requires ValidSetup(u) && Orderly(u, a) && FindsCurrent(u, a, key, current)
    ensures current == None ==> forall at | at in a.files :: at.key != key
    ensures current.Some? ==> Tracks(a, key, current.value)
  {
    if key !in a.segments {
      forall at | at in a.files && at.key == key ensures Listed(at, key) {
      }
    }
  }

  lemma ParseOne(u: Setup, frame: Bytes, record: Record)
    requires ValidSetup(u) && IsFrame(u.codec, frame, record)
    ensures Sound(u, frame) && |Parse(u.codec, frame).records| == 1 && Parse(u.codec, frame).records == [record]
  {
    ParseFrame(u.codec, frame, record);
  }

  lemma ParseMore(u: Setup, bytes: Bytes, frame: Bytes, record: Record)
    requires ValidSetup(u) && Sound(u, bytes) && IsFrame(u.codec, frame, record)
    ensures Sound(u, bytes + frame) && Parse(u.codec, bytes + frame).records == Parse(u.codec, bytes).records + [record]
  {
    ParseConcat(u.codec, bytes, frame);
    ParseFrame(u.codec, frame, record);
  }

  /** The chosen segment's file grows by the frame, and stays sound and within its limit. */
  lemma AppendGrows(u: Setup, a: Archive, key: Key, entryId: string, frame: Bytes, record: Record, b: Archive, r: Reference)
    requires ValidSetup(u) && Orderly(u, a) && Appends(u, a, key, entryId, frame, b, r) && IsFrame(u.codec, frame, record)
    requires r.location.number < LISTED_NUMBERS
    ensures r.location.key == key && r.offset == |Contents(a.files, r.location)|
    ensures b.files == a.files[r.location := Contents(a.files, r.location) + frame]
    ensures Sound(u, b.files[r.location]) && Fits(u, b.files[r.location])
    ensures Parse(u.codec, b.files[r.location]).records == Parse(u.codec, Contents(a.files, r.location)).records + [record]
    ensures Tracks(b, key, b.segments[key])
  {
    var current :| AppendsTo(u, a, key, entryId, frame, b, r, current);
    FoundIsTracked(u, a, key, current);
    var before := Contents(a.files, r.location);
    assert r.offset == |before|;
    ParseEmpty(u.codec);
    assert Sound(u, before);
    ParseMore(u, before, frame, record);
    ParseOne(u, frame, record);
    assert |before| == 0 ==> before + frame == frame;
  }

  lemma AppendTouchesOneKey(u: Setup, a: Archive, key: Key, entryId: string, frame: Bytes, b: Archive, r: Reference)
    requires ValidSetup(u) && Appends(u, a, key, entryId, frame, b, r)
    ensures key in b.segments && b.segments == a.segments[key := b.segments[key]]
    ensures r.length == |frame| && r.digest == u.digest(frame) && r.entryId == entryId
  {
    var current :| AppendsTo(u, a, key, entryId, frame, b, r, current);
  }

  lemma TracksElsewhere(a: Archive, b: Archive, at: Location, bytes: Bytes, key: Key, segment: Segment)
    requires Tracks(a, key, segment) && b.files == a.files[at := bytes] && at.key != key
    ensures Tracks(b, key, segment)
  {
  }

  lemma AppendKeepsOrder(u: Setup, a: Archive, key: Key, entryId: string, frame: Bytes, record: Record, b: Archive, r: Reference)
    requires ValidSetup(u) && Orderly(u, a) && Appends(u, a, key, entryId, frame, b, r) && IsFrame(u.codec, frame, record)
    requires r.location.number < LISTED_NUMBERS
    ensures Orderly(u, b)
  {
    hide Appends, Sound, Fits, Tracks, ValidSetup, IsFrame;
    AppendGrows(u, a, key, entryId, frame, record, b, r);
    AppendTouchesOneKey(u, a, key, entryId, frame, b, r);
    forall k | k in b.segments ensures Tracks(b, k, b.segments[k]) {
      if k != key {
        TracksElsewhere(a, b, r.location, Contents(a.files, r.location) + frame, k, a.segments[k]);
      }
    }
  }

  /** What is filed stays filed: files only grow at their end. */
  lemma AppendKeepsReferences(u: Setup, a: Archive, key: Key, entryId: string, frame: Bytes, b: Archive, r: Reference, earlier: Reference, record: Record)
    requires ValidSetup(u) && Appends(u, a, key, entryId, frame, b, r) && Kept(u, a.files, earlier, record)
    ensures Kept(u, b.files, earlier, record)
  {
    var current :| AppendsTo(u, a, key, entryId, frame, b, r, current);
    var bytes := a.files[earlier.location];
    if earlier.location == r.location {
      assert (bytes + frame)[earlier.offset..earlier.offset + earlier.length] == bytes[earlier.offset..earlier.offset + earlier.length];
    }
  }

  /** A filed reference reads back exactly its record. */
  lemma KeptReadsBack(u: Setup, files: Files, r: Reference, record: Record)
    requires ValidSetup(u) && Kept(u, files, r, record)
    ensures Read(u, files, r) == Ok(record)
  {
  }

  // ---- Whole histories: appends and restarts, as long as no append has raised ----

  datatype Event =
    | Appended(key: Key, entryId: string, frame: Bytes, record: Record, reference: Reference)
    | Restarted

  ghost predicate Follows(u: Setup, a: Archive, e: Event, b: Archive)
    requires ValidSetup(u)
  {
    match e
    case Appended(key, entryId, frame, record, reference) =>
      && Appends(u, a, key, entryId, frame, b, reference) && IsFrame(u.codec, frame, record)
      && record.schemaVersion == SCHEMA_VERSION && record.entryId == entryId
    case Restarted => b == Archive(a.files, map[])
  }

  /** The same, as long as segment numbers are recognised again. */
  ghost predicate Next(u: Setup, a: Archive, e: Event, b: Archive)
    requires ValidSetup(u)
  {
    Follows(u, a, e, b) && (e.Appended? ==> e.reference.location.number < LISTED_NUMBERS)
  }

  ghost predicate History(u: Setup, states: seq<Archive>, events: seq<Event>)
    requires ValidSetup(u)
  {
    && |states| == |events| + 1 && Orderly(u, states[0])
    && forall i | 0 <= i < |events| :: Next(u, states[i], events[i], states[i + 1])
  }

  lemma NextKeepsOrder(u: Setup, a: Archive, e: Event, b: Archive)
    requires ValidSetup(u) && Orderly(u, a) && Next(u, a, e, b)
    ensures Orderly(u, b)
  {
    if e.Appended? {
      hide Orderly;
      AppendKeepsOrder(u, a, e.key, e.entryId, e.frame, e.record, b, e.reference);
    }
  }

  /** In every state, across rollovers and restarts, each segment holds whole frames only and is within its limit or a single frame. */
  lemma {:induction false} SegmentsStayOrderly(u: Setup, states: seq<Archive>, events: seq<Event>, n: nat)
    requires ValidSetup(u) && History(u, states, events) && n < |states|
    ensures Orderly(u, states[n])
  {
    hide Orderly;
    if n > 0 {
      SegmentsStayOrderly(u, states, events, n - 1);
      assert Next(u, states[n - 1], events[n - 1], states[n - 1 + 1]);
      NextKeepsOrder(u, states[n - 1], events[n - 1], states[n]);
    }
  }

  lemma NextKeepsReferences(u: Setup, a: Archive, e: Event, b: Archive, r: Reference, record: Record)
    requires ValidSetup(u) && Follows(u, a, e, b) && Kept(u, a.files, r, record)
    ensures Kept(u, b.files, r, record)
  {
    if e.Appended? {
      AppendKeepsReferences(u, a, e.key, e.entryId, e.frame, b, e.reference, r, record);
    }
  }

  /** The first records of a segment and then those appended to it, in order. */
  ghost function RecordsAfter(first: seq<Record>, events: seq<Event>, at: Location, n: nat): seq<Record>
    requires n <= |events|
  {
    if n == 0 then first
    else RecordsNext(RecordsAfter(first, events, at, n - 1), events[n - 1], at)
  }

  ghost function RecordsNext(records: seq<Record>, e: Event, at: Location): seq<Record> {
    if e.Appended? && e.reference.location == at then records + [e.record] else records
  }

  ghost predicate ReadsAs(u: Setup, files: Files, at: Location, records: seq<Record>)
    requires ValidSetup(u)
  {
    Parse(u.codec, Contents(files, at)) == Reading(records, None)
  }

  lemma NextAddsRecord(u: Setup, a: Archive, e: Event, b: Archive, at: Location, records: seq<Record>)
    requires ValidSetup(u) && Orderly(u, a) && Next(u, a, e, b) && ReadsAs(u, a.files, at, records)
    ensures ReadsAs(u, b.files, at, RecordsNext(records, e, at))
  {
    if e.Appended? {
      AppendGrows(u, a, e.key, e.entryId, e.frame, e.record, b, e.reference);
      hide Orderly, Appends, Parse;
    }
  }

  /** A segment reads as the records it started with and then those appended to it, in order. */
  lemma {:induction false} SegmentsListRecords(u: Setup, states: seq<Archive>, events: seq<Event>, at: Location, first: seq<Record>, n: nat)
    requires ValidSetup(u) && History(u, states, events) && n < |states| && ReadsAs(u, states[0].files, at, first)
    ensures ReadsAs(u, states[n].files, at, RecordsAfter(first, events, at, n))
  {
    hide ReadsAs, Orderly, RecordsNext, Follows;
    if n > 0 {
      SegmentsListRecords(u, states, events, at, first, n - 1);
      SegmentsStayOrderly(u, states, events, n - 1);
      NextOf(u, states, events, n - 1);
      hide Next, History;
      NextAddsRecord(u, states[n - 1], events[n - 1], states[n], at, RecordsAfter(first, events, at, n - 1));
    }
  }

  lemma NextOf(u: Setup, states: seq<Archive>, events: seq<Event>, i: nat)
    requires ValidSetup(u) && History(u, states, events) && i < |events|
    ensures Next(u, states[i], events[i], states[i + 1])
  {
  }

  // ---- Restart ----

  /** A lookup finds the true current segment exactly when its number still has six digits. */
  lemma RestartFindsCurrent(u: Setup, a: Archive, key: Key, segment: Segment)
    requires ValidSetup(u) && Tracks(a, key, segment) && Location(key, segment.number) in a.files
    requires forall at | at in a.files && at.key == key :: Sound(u, a.files[at])
    ensures Restores(u, a.files, key, Some(segment)) <==> segment.number < LISTED_NUMBERS
  {
  }

  /** Past that number a restart resumes an older segment, and no later append opens a fresh one. */
  lemma RestartForgetsLongNumbers(u: Setup, a: Archive, key: Key, segment: Segment, current: Option<Segment>, length: nat)
    requires ValidSetup(u) && Tracks(a, key, segment) && Location(key, segment.number) in a.files && segment.number >= LISTED_NUMBERS
    requires Restores(u, a.files, key, current)
    ensures current.Some? ==> current.value.number < segment.number
    ensures Chosen(u, current, length).number <= segment.number
  {
  }
}
