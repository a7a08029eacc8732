// The archive's stream reading and its append, in place.
module HistoryArchiveStore {
  import opened Arithmetic
  import opened Wrappers
  import opened Frames
  import opened HistoryArchive
  import opened HistoryArchiveRaises

  datatype Found = End | Got(frame: Bytes, record: Record) | Faulty

  /** What is next in a stream, given all that is left of it. */
  function NextFrame(c: Codec<Record>, rest: Bytes): Found {
    if rest == [] then End
    else match ScanOf(c, rest)
      case Whole(length, record) => if length <= |rest| then Got(rest[..length], record) else Faulty
      case _ => Faulty
  }

  lemma FrontDecides(u: Setup, rest: Bytes, front: Bytes)
    requires ValidSetup(u) && front <= rest
    ensures !ScanOf(u.codec, front).Partial? ==> ScanOf(u.codec, rest) == ScanOf(u.codec, front)
    ensures ScanOf(u.codec, front).Whole? ==> 4 < ScanOf(u.codec, front).length <= |front|
  {
    assert Settled(u.codec, front, rest[|front|..]) && front + rest[|front|..] == rest;
    assert Delimits(u.codec, front) && LongFrame(u.codec, front);
  }

  /** Reads four bytes and then chunks until a frame is whole; what was read past it is given back. */
  method ReadZstdFrame(u: Setup, stream: Bytes, position: nat) returns (found: Found, next: nat)
    requires ValidSetup(u) && position <= |stream|
    ensures found == NextFrame(u.codec, stream[position..])
    ensures found.Got? ==> next == position + |found.frame| && next <= |stream| && |found.frame| > 4
    ensures found.End? ==> next == position == |stream|
  {
    hide ValidSetup, ScanOf;
    ghost var rest := stream[position..];
    var prefixEnd := Min(position + 4, |stream|);
    var remaining := stream[position..prefixEnd];
    FrontDecides(u, rest, rest);
    if remaining == [] {
      return End, position;
    }
    if |remaining| != 4 {
      return Faulty, prefixEnd;
    }
    next := prefixEnd;
    while true
      invariant position + 4 <= next <= |stream| && remaining == stream[position..next]
      invariant |remaining| == 4 || ScanOf(u.codec, remaining).Partial?
      decreases |stream| - next
    {
      var chunkEnd := Min(next + CHUNK, |stream|);
      if chunkEnd == next {
        assert remaining == rest;
        return Faulty, next;
      }
      remaining := remaining + stream[next..chunkEnd];
      next := chunkEnd;
      assert remaining == stream[position..next] <= rest;
      FrontDecides(u, rest, remaining);
      match ScanOf(u.codec, remaining) {
        case Whole(length, record) =>
          assert remaining[..length] == rest[..length];
          return Got(remaining[..length], record), next - (|remaining| - length);
        case Partial =>
        case Broken =>
          return Faulty, next;
      }
    }
  }

  /** Reading frame after frame is parsing. */
  lemma ParseNext(u: Setup, stream: Bytes, position: nat)
    requires ValidSetup(u) && position <= |stream|
    ensures match NextFrame(u.codec, stream[position..])
      case End => Parse(u.codec, stream[position..]) == Reading([], None)
      case Faulty => Parse(u.codec, stream[position..]).records == [] && Parse(u.codec, stream[position..]).fault.Some?
      case Got(frame, record) =>
        && position + |frame| <= |stream|
        && Parse(u.codec, stream[position..]).records == [record] + Parse(u.codec, stream[position + |frame|..]).records
        && Parse(u.codec, stream[position..]).fault == Parse(u.codec, stream[position + |frame|..]).fault
  {
    var rest := stream[position..];
    FrontDecides(u, rest, rest);
    match ScanOf(u.codec, rest) {
      case Whole(length, record) => assert rest[length..] == stream[position + length..];
      case _ =>
    }
  }

  /** Yields the records of a segment in order, until its end or its first fault. */
  method IterRecords(u: Setup, stream: Bytes) returns (records: seq<Record>, failed: bool)
    requires ValidSetup(u)
    ensures records == Parse(u.codec, stream).records && failed == Parse(u.codec, stream).fault.Some?
  {
    hide Parse, ValidCodec, NextFrame;
    records := [];
    var position := 0;
    assert stream[0..] == stream;
    while true
      invariant position <= |stream|
      invariant Parse(u.codec, stream).records == records + Parse(u.codec, stream[position..]).records
      invariant Parse(u.codec, stream).fault == Parse(u.codec, stream[position..]).fault
      decreases |stream| - position
    {
      var found, next := ReadZstdFrame(u, stream, position);
      ParseNext(u, stream, position);
      match found {
        case End => return records, false;
        case Faulty => return records, true;
        case Got(frame, record) =>
          records := records + [record];
          position := next;
      }
    }
  }

  /** The size of a segment that reads without a fault; nothing otherwise. */
  method ValidatedSegmentSize(u: Setup, stream: Bytes) returns (size: Option<nat>)
    requires ValidSetup(u)
    ensures size == if Sound(u, stream) then Some(|stream|) else None
  {
    hide Parse, ValidCodec, NextFrame;
    var position := 0;
    assert stream[0..] == stream;
    while true
      invariant position <= |stream| && Parse(u.codec, stream).fault == Parse(u.codec, stream[position..]).fault
      decreases |stream| - position
    {
      var found, next := ReadZstdFrame(u, stream, position);
      ParseNext(u, stream, position);
      match found {
        case End => return Some(next);
        case Faulty => return None;
        case Got(_, _) => position := next;
      }
    }
  }

  class ArchiveDirectory {
    var files: Files

    constructor (files: Files)
      ensures this.files == files
    {
      this.files := files;
    }

    /** One unbuffered append, of which the file system takes as much as it does. */
    method AppendBytes(at: Location, bytes: Bytes, accepted: nat)
      requires accepted <= |bytes|
      modifies this
      ensures files == old(files)[at := Contents(old(files), at) + bytes[..accepted]]
    {
      files := files[at := Contents(files, at) + bytes[..accepted]];
    }
  }

  class HistoryArchiveStore {
    const u: Setup
    var segments: map<Key, Segment>

    constructor (u: Setup)
      ensures this.u == u && segments == map[]
    {
      this.u, segments := u, map[];
    }

    /** Looks through a directory in whatever order it is listed; a segment that does not read raises. */
    method RestoreCurrentSegment(directory: ArchiveDirectory, listing: seq<Location>, key: Key)
      returns (raised: bool, current: Option<Segment>)
      requires ValidSetup(u) && forall at :: at in directory.files <==> at in listing
      ensures !raised ==> Restores(u, directory.files, key, current)
      ensures raised <==> exists at :: at in directory.files && Listed(at, key) && !Sound(u, directory.files[at])
    {
      hide ValidSetup, Sound;
      raised, current := false, None;
      for n := 0 to |listing|
        invariant forall i | 0 <= i < n && Listed(listing[i], key) :: Sound(u, directory.files[listing[i]])
        invariant current == None ==> forall i | 0 <= i < n :: !Listed(listing[i], key)
        invariant current.Some? ==> exists i :: 0 <= i < n && listing[i] == Location(key, current.value.number)
        invariant current.Some? ==> Listed(Location(key, current.value.number), key)
        invariant current.Some? ==> Location(key, current.value.number) in directory.files && current.value.size == |directory.files[Location(key, current.value.number)]|
        invariant current.Some? ==> forall i | 0 <= i < n && Listed(listing[i], key) :: listing[i].number <= current.value.number
      {
        var at := listing[n];
        if Listed(at, key) {
          var size := ValidatedSegmentSize(u, directory.files[at]);
          if size == None {
            return true, None;
          }
          if current == None || at.number > current.value.number {
            current := Some(Segment(at.number, size.value));
          }
        }
      }
    }

    /** The segment the frame goes to; a new one is remembered before anything is written. */
    method SegmentFor(directory: ArchiveDirectory, listing: seq<Location>, key: Key, length: nat)
      returns (raised: bool, segment: Segment, ghost current: Option<Segment>)
      requires ValidSetup(u) && forall at :: at in directory.files <==> at in listing
      modifies this
      ensures !raised ==> FindsCurrent(u, Archive(directory.files, old(segments)), key, current)
      ensures !raised ==> segment == Chosen(u, current, length) && segments == old(segments)[key := segment]
      ensures raised ==> segments == old(segments)
    {
      hide ValidSetup, Restores;
      raised, segment := false, Segment(0, 0);
      var found: Option<Segment> := if key in segments then Some(segments[key]) else None;
      if found == None {
        raised, found := RestoreCurrentSegment(directory, listing, key);
        if raised {
          current := None;
          return;
        }
      }
      current := found;
      segment := match found
        case Some(last) =>
          if last.size == 0 || last.size + length <= u.maxSegmentBytes then last else Segment(last.number + 1, 0)
        case None => Segment(0, 0);
      segments := segments[key := segment];
    }

    /** Appends one frame. Only an append that raises may leave the file and the remembered size apart. */
    method Append(directory: ArchiveDirectory, listing: seq<Location>, key: Key, entryId: string, frame: Bytes,
                  opens: bool, accepted: nat, closes: bool) returns (reference: Option<Reference>)
      requires ValidSetup(u) && accepted <= |frame| && forall at :: at in directory.files <==> at in listing
      modifies this, directory
      ensures reference.Some? ==>
        Appends(u, Archive(old(directory.files), old(segments)), key, entryId, frame, Archive(directory.files, segments), reference.value)
      ensures reference.Some? ==> opens && accepted == |frame| && closes
      ensures reference == None ==>
        Raises(u, Archive(old(directory.files), old(segments)), key, frame, accepted, Archive(directory.files, segments))
    {
      hide ValidSetup, FindsCurrent;
      var raised, segment, current := SegmentFor(directory, listing, key, |frame|);
      if raised {
        return None;
      }
      if !opens {
        assert RaisesWith(u, Archive(old(directory.files), old(segments)), key, frame, accepted, Archive(directory.files, segments), current);
        return None;
      }
      var at := Location(key, segment.number);
      directory.AppendBytes(at, frame, accepted);
      if accepted != |frame| || !closes {
        assert RaisesWith(u, Archive(old(directory.files), old(segments)), key, frame, accepted, Archive(directory.files, segments), current);
        return None;
      }
      segments := segments[key := Segment(segment.number, segment.size + |frame|)];
      reference := Some(Reference(at, segment.size, |frame|, u.digest(frame), entryId));
      assert frame[..accepted] == frame;
      assert AppendsTo(u, Archive(old(directory.files), old(segments)), key, entryId, frame, Archive(directory.files, segments),
                       reference.value, current);
    }
  }
}
