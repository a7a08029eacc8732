// Histories in which appends may raise, over any files found at start: exactly which references read back.
module HistoryArchiveRaises {
  import opened Wrappers
  import opened Frames
  import opened HistoryArchive

  /** The segment is chosen and remembered; then the file is not opened, or takes a part of the frame that is not counted. */
  ghost predicate RaisesWith(u: Setup, a: Archive, key: Key, frame: Bytes, accepted: nat, b: Archive, current: Option<Segment>)
    requires ValidSetup(u) && accepted <= |frame|
  {
    && FindsCurrent(u, a, key, current)
    && var segment := Chosen(u, current, |frame|);
    && b.segments == a.segments[key := segment]
    && var at := Location(key, segment.number);
    (b.files == a.files || b.files == a.files[at := Contents(a.files, at) + frame[..accepted]])
  }

  /** An append that raises: it finds no segment and changes nothing, or raises after that. */
  ghost predicate Raises(u: Setup, a: Archive, key: Key, frame: Bytes, accepted: nat, b: Archive)
    requires ValidSetup(u)
  {
    accepted <= |frame| && (b == a || exists current :: RaisesWith(u, a, key, frame, accepted, b, current))
  }

  datatype Occurrence =
    | Done(event: Event)
    | Raising(key: Key, frame: Bytes, accepted: nat)

  ghost predicate Occurs(u: Setup, a: Archive, o: Occurrence, b: Archive)
    requires ValidSetup(u)
  {
    match o
    case Done(event) => Follows(u, a, event, b)
    case Raising(key, frame, accepted) => Raises(u, a, key, frame, accepted, b)
  }

  /** A process starts with nothing remembered, whatever files it finds. */
  ghost predicate LongHistory(u: Setup, states: seq<Archive>, os: seq<Occurrence>)
    requires ValidSetup(u)
  {
    && |states| == |os| + 1 && states[0].segments == map[]
    && forall i | 0 <= i < |os| :: Occurs(u, states[i], os[i], states[i + 1])
  }

  lemma OccursAt(u: Setup, states: seq<Archive>, os: seq<Occurrence>, i: nat)
    requires ValidSetup(u) && LongHistory(u, states, os) && i < |os|
    ensures Occurs(u, states[i], os[i], states[i + 1])
  {
  }

  // ---- Files only grow ----

  ghost predicate Grows(a: Files, b: Files) {
    forall at | at in a :: at in b && a[at] <= b[at]
  }

  lemma OccurrenceGrows(u: Setup, a: Archive, o: Occurrence, b: Archive)
    requires ValidSetup(u) && Occurs(u, a, o, b)
    ensures Grows(a.files, b.files)
  {
    hide ValidSetup, FindsCurrent;
    if o.Done? && o.event.Appended? {
      var e := o.event;
      var current :| AppendsTo(u, a, e.key, e.entryId, e.frame, b, e.reference, current);
    } else if o.Raising? && b != a {
      var current :| RaisesWith(u, a, o.key, o.frame, o.accepted, b, current);
    }
  }

  lemma {:induction false} HistoryGrows(u: Setup, states: seq<Archive>, os: seq<Occurrence>, m: nat, n: nat)
    requires ValidSetup(u) && LongHistory(u, states, os) && m <= n < |states|
    ensures Grows(states[m].files, states[n].files)
  {
    hide Occurs;
    if m < n {
      HistoryGrows(u, states, os, m, n - 1);
      OccursAt(u, states, os, n - 1);
      OccurrenceGrows(u, states[n - 1], os[n - 1], states[n]);
    }
  }

  // ---- Remembered sizes never run ahead of the files ----

  ghost predicate Behind(a: Archive) {
    forall key | key in a.segments :: a.segments[key].size <= |Contents(a.files, Location(key, a.segments[key].number))|
  }

  lemma ChosenIsBehind(u: Setup, a: Archive, key: Key, current: Option<Segment>, length: nat)
    requires ValidSetup(u) && Behind(a) && FindsCurrent(u, a, key, current)
    ensures var segment := Chosen(u, current, length); segment.size <= |Contents(a.files, Location(key, segment.number))|
  {
  }

  lemma OccurrenceStaysBehind(u: Setup, a: Archive, o: Occurrence, b: Archive)
    requires ValidSetup(u) && Behind(a) && Occurs(u, a, o, b)
    ensures Behind(b)
  {
    hide ValidSetup, FindsCurrent;
    if o.Done? && o.event.Appended? {
      var e := o.event;
      var current :| AppendsTo(u, a, e.key, e.entryId, e.frame, b, e.reference, current);
      ChosenIsBehind(u, a, e.key, current, |e.frame|);
    } else if o.Raising? && b != a {
      var current :| RaisesWith(u, a, o.key, o.frame, o.accepted, b, current);
      ChosenIsBehind(u, a, o.key, current, |o.frame|);
    }
  }

  lemma {:induction false} HistoryStaysBehind(u: Setup, states: seq<Archive>, os: seq<Occurrence>, n: nat)
    requires ValidSetup(u) && LongHistory(u, states, os) && n < |states|
    ensures Behind(states[n])
  {
    hide Occurs;
    if n > 0 {
      HistoryStaysBehind(u, states, os, n - 1);
      OccursAt(u, states, os, n - 1);
      OccurrenceStaysBehind(u, states[n - 1], os[n - 1], states[n]);
    }
  }

  // ---- Exactly which references read back ----

  /** Different bytes have different digests. */
  ghost predicate Injective(digest: Bytes -> string) {
    forall a, b {:trigger digest(a), digest(b)} :: digest(a) == digest(b) ==> a == b
  }

  /** The bytes that the reference of an append will point at: whatever the file holds past the remembered size comes first. */
  function PointedAt(before: Bytes, offset: nat, frame: Bytes): Bytes
    requires offset <= |before|
  {
    (before[offset..] + frame)[..|frame|]
  }

  lemma SliceOfGrown(before: Bytes, offset: nat, frame: Bytes, now: Bytes)
    requires offset <= |before| && before + frame <= now
    ensures Slice(now, offset, |frame|) == PointedAt(before, offset, frame)
  {
    var grown := before + frame;
    assert grown[offset..offset + |frame|] == PointedAt(before, offset, frame);
    assert now[offset..offset + |frame|] == grown[offset..offset + |frame|];
    if offset >= |now| {
      assert frame == [];
    }
  }

  /** What an append leaves behind, whatever state it found. */
  lemma AppendPointsAt(u: Setup, a: Archive, e: Event, b: Archive)
    requires ValidSetup(u) && Behind(a) && e.Appended? && Follows(u, a, e, b)
    ensures e.reference.offset <= |Contents(a.files, e.reference.location)| && e.reference.length == |e.frame|
    ensures e.reference.digest == u.digest(e.frame) && e.reference.entryId == e.entryId
    ensures e.reference.location in b.files && b.files[e.reference.location] == Contents(a.files, e.reference.location) + e.frame
  {
    hide ValidSetup, FindsCurrent;
    var current :| AppendsTo(u, a, e.key, e.entryId, e.frame, b, e.reference, current);
    ChosenIsBehind(u, a, e.key, current, |e.frame|);
  }

  /** A reference reads back its record, then and ever after, if and only if the bytes past the remembered size, followed by the
      frame, begin with the frame; otherwise reading it fails, then and ever after. Whatever is found at start, raises, or is numbered. */
  lemma ReadsBackExactly(u: Setup, states: seq<Archive>, os: seq<Occurrence>, i: nat, n: nat)
    requires ValidSetup(u) && Injective(u.digest) && LongHistory(u, states, os) && i < n < |states| && os[i].Done? && os[i].event.Appended?
    ensures var e := os[i].event; var before := Contents(states[i].files, e.reference.location);
      && e.reference.offset <= |before|
      && (Read(u, states[n].files, e.reference) == Ok(e.record) <==> PointedAt(before, e.reference.offset, e.frame) == e.frame)
      && (Read(u, states[n].files, e.reference) != Ok(e.record) ==> Read(u, states[n].files, e.reference) == Err(DigestMismatch))
  {
    hide ValidSetup, Appends;
    var e := os[i].event;
    HistoryStaysBehind(u, states, os, i);
    OccursAt(u, states, os, i);
    AppendPointsAt(u, states[i], e, states[i + 1]);
    HistoryGrows(u, states, os, i + 1, n);
    SliceOfGrown(Contents(states[i].files, e.reference.location), e.reference.offset, e.frame, Contents(states[n].files, e.reference.location));
  }

  /** In particular it reads back whenever the remembered size was right. */
  lemma RightSizeReadsBack(u: Setup, states: seq<Archive>, os: seq<Occurrence>, i: nat, n: nat)
    requires ValidSetup(u) && Injective(u.digest) && LongHistory(u, states, os) && i < n < |states| && os[i].Done? && os[i].event.Appended?
    requires os[i].event.reference.offset == |Contents(states[i].files, os[i].event.reference.location)|
    ensures Read(u, states[n].files, os[i].event.reference) == Ok(os[i].event.record)
  {
    hide Occurs, Read, Injective;
    ReadsBackExactly(u, states, os, i, n);
    var e := os[i].event;
    var before := Contents(states[i].files, e.reference.location);
    assert before[e.reference.offset..] + e.frame == e.frame;
  }

  // ---- When the remembered size is right ----

  ghost predicate Numbered(a: Archive) {
    forall at | at in a.files :: at.number < LISTED_NUMBERS
  }

  /** The segments that a raising append has written to. */
  ghost function TornNow(a: Archive, o: Occurrence, b: Archive): set<Location> {
    if o.Raising? then set at | at in b.files && Contents(b.files, at) != Contents(a.files, at) else {}
  }

  ghost function TornBy(states: seq<Archive>, os: seq<Occurrence>, n: nat): set<Location>
    requires n <= |os| < |states|
  {
    if n == 0 then {} else TornBy(states, os, n - 1) + TornNow(states[n - 1], os[n - 1], states[n])
  }

  /** The remembered segments are the last ones, and their sizes are right unless they are torn. */
  ghost predicate Remembers(a: Archive, torn: set<Location>, key: Key, segment: Segment) {
    && (forall at | at in a.files && at.key == key :: at.number <= segment.number)
    && (Location(key, segment.number) !in torn ==> segment.size == |Contents(a.files, Location(key, segment.number))|)
  }

  ghost predicate Fair(a: Archive, torn: set<Location>) {
    forall key | key in a.segments :: Remembers(a, torn, key, a.segments[key])
  }

  lemma FoundIsRemembered(u: Setup, a: Archive, torn: set<Location>, key: Key, current: Option<Segment>)
    requires ValidSetup(u) && Numbered(a) && Fair(a, torn) && FindsCurrent(u, a, key, current)
    ensures current == None ==> forall at | at in a.files :: at.key != key
    ensures current.Some? ==> Remembers(a, torn, key, current.value)
  {
    if key !in a.segments {
      forall at | at in a.files && at.key == key ensures Listed(at, key) {
      }
    }
  }

  lemma ChosenIsRemembered(u: Setup, a: Archive, torn: set<Location>, key: Key, current: Option<Segment>, length: nat)
    requires ValidSetup(u) && Numbered(a) && Fair(a, torn) && FindsCurrent(u, a, key, current)
    ensures Remembers(a, torn, key, Chosen(u, current, length))
  {
    FoundIsRemembered(u, a, torn, key, current);
  }

  /** One segment's file grows, or none does; everybody else's stay. */
  lemma GrowthKeepsOthers(a: Archive, b: Archive, torn: set<Location>, more: set<Location>, at: Location, bytes: Bytes, key: Key)
    requires Fair(a, torn) && key in a.segments && key != at.key && torn <= more
    requires b.files == a.files || b.files == a.files[at := bytes]
    ensures Remembers(b, more, key, a.segments[key])
  {
  }

  lemma AppendIsFair(u: Setup, a: Archive, e: Event, b: Archive, torn: set<Location>)
    requires ValidSetup(u) && Numbered(a) && Fair(a, torn) && e.Appended? && Follows(u, a, e, b)
    ensures Fair(b, torn)
    ensures e.reference.location !in torn ==> e.reference.offset == |Contents(a.files, e.reference.location)|
  {
    hide ValidSetup, Parse, FindsCurrent;
    var current :| AppendsTo(u, a, e.key, e.entryId, e.frame, b, e.reference, current);
    var segment, at := Chosen(u, current, |e.frame|), e.reference.location;
    ChosenIsRemembered(u, a, torn, e.key, current, |e.frame|);
    var bytes := Contents(a.files, at) + e.frame;
    forall key | key in b.segments ensures Remembers(b, torn, key, b.segments[key]) {
      if key != e.key {
        GrowthKeepsOthers(a, b, torn, torn, at, bytes, key);
      }
    }
  }

  lemma RaiseIsFair(u: Setup, a: Archive, o: Occurrence, b: Archive, torn: set<Location>)
    requires ValidSetup(u) && Numbered(a) && Fair(a, torn) && o.Raising? && Occurs(u, a, o, b)
    ensures Fair(b, torn + TornNow(a, o, b))
  {
    hide ValidSetup, FindsCurrent;
    var more := torn + TornNow(a, o, b);
    if b == a {
      forall key | key in b.segments ensures Remembers(b, more, key, b.segments[key]) {
        assert Remembers(a, torn, key, a.segments[key]);
      }
    } else {
      var current :| RaisesWith(u, a, o.key, o.frame, o.accepted, b, current);
      var segment := Chosen(u, current, |o.frame|);
      var at := Location(o.key, segment.number);
      ChosenIsRemembered(u, a, torn, o.key, current, |o.frame|);
      forall key | key in b.segments ensures Remembers(b, more, key, b.segments[key]) {
        if key != o.key {
          GrowthKeepsOthers(a, b, torn, more, at, Contents(a.files, at) + o.frame[..o.accepted], key);
        }
      }
    }
  }

  lemma {:induction false} HistoryIsFair(u: Setup, states: seq<Archive>, os: seq<Occurrence>, n: nat)
    requires ValidSetup(u) && LongHistory(u, states, os) && n < |states| && forall k | 0 <= k < n :: Numbered(states[k])
    ensures Fair(states[n], TornBy(states, os, n))
  {
    hide Follows, Numbered, Remembers, Raises, TornNow;
    if n > 0 {
      var k := n - 1;
      HistoryIsFair(u, states, os, k);
      OccursAt(u, states, os, k);
      if os[k].Raising? {
        RaiseIsFair(u, states[k], os[k], states[n], TornBy(states, os, k));
      } else {
        DoneIsFair(u, states[k], os[k].event, states[n], TornBy(states, os, k));
        NothingTorn(states[k], os[k], states[n]);
        assert TornBy(states, os, n) == TornBy(states, os, k);
      }
    }
  }

  lemma NothingTorn(a: Archive, o: Occurrence, b: Archive)
    requires o.Done?
    ensures TornNow(a, o, b) == {}
  {
  }

  lemma DoneIsFair(u: Setup, a: Archive, e: Event, b: Archive, torn: set<Location>)
    requires ValidSetup(u) && Numbered(a) && Fair(a, torn) && Follows(u, a, e, b)
    ensures Fair(b, torn)
  {
    if e.Appended? {
      AppendIsFair(u, a, e, b, torn);
    }
  }

  /** Files only grow: a raise never takes away what is filed. */
  lemma OccurrenceKeepsReferences(u: Setup, a: Archive, o: Occurrence, b: Archive, r: Reference, record: Record)
    requires ValidSetup(u) && Occurs(u, a, o, b) && Kept(u, a.files, r, record)
    ensures Kept(u, b.files, r, record)
  {
    if o.Done? {
      NextKeepsReferences(u, a, o.event, b, r, record);
    } else if b.files != a.files {
      var current :| RaisesWith(u, a, o.key, o.frame, o.accepted, b, current);
      var bytes := a.files[r.location];
      if r.location == Location(o.key, Chosen(u, current, |o.frame|).number) {
        assert (bytes + o.frame[..o.accepted])[r.offset..r.offset + r.length] == bytes[r.offset..r.offset + r.length];
      }
    }
  }

  lemma {:induction false} FiledStaysFiled(u: Setup, states: seq<Archive>, os: seq<Occurrence>, m: nat, n: nat, r: Reference, record: Record)
    requires ValidSetup(u) && LongHistory(u, states, os) && m <= n < |states| && Kept(u, states[m].files, r, record)
    ensures Kept(u, states[n].files, r, record)
  {
    hide Kept, Occurs;
    if m < n {
      FiledStaysFiled(u, states, os, m, n - 1, r, record);
      OccursAt(u, states, os, n - 1);
      OccurrenceKeepsReferences(u, states[n - 1], os[n - 1], states[n], r, record);
    }
  }

  /** With six-digit numbers the remembered size is right, and the reference reads back ever after, unless a raise has torn its segment before. */
  lemma ReferencesSurviveRaises(u: Setup, states: seq<Archive>, os: seq<Occurrence>, i: nat, n: nat)
    requires ValidSetup(u) && Injective(u.digest) && LongHistory(u, states, os) && i < n < |states| && os[i].Done? && os[i].event.Appended?
    requires (forall k | 0 <= k <= i :: Numbered(states[k])) && os[i].event.reference.location !in TornBy(states, os, i)
    ensures Read(u, states[n].files, os[i].event.reference) == Ok(os[i].event.record)
  {
    hide Follows, Numbered, Fair, Read, TornBy, Injective;
    HistoryIsFair(u, states, os, i);
    OccursAt(u, states, os, i);
    AppendIsFair(u, states[i], os[i].event, states[i + 1], TornBy(states, os, i));
    RightSizeReadsBack(u, states, os, i, n);
  }

  /** While no append has raised and numbers have six digits, every reference ever returned reads back its record, whatever files there were. */
  lemma ReferencesReadBack(u: Setup, states: seq<Archive>, os: seq<Occurrence>, i: nat, n: nat)
    requires ValidSetup(u) && Injective(u.digest) && LongHistory(u, states, os) && i < n < |states| && os[i].Done? && os[i].event.Appended?
    requires (forall k | 0 <= k <= i :: Numbered(states[k])) && forall k | 0 <= k < i :: os[k].Done?
    ensures Read(u, states[n].files, os[i].event.reference) == Ok(os[i].event.record)
  {
    hide Occurs, Read, Injective, Numbered;
    assert forall k | 0 <= k < i :: SilentAt(states, os, k);
    SilentRaisesTearNothing(states, os, i);
    ReferencesSurviveRaises(u, states, os, i, n);
  }

  ghost predicate SilentAt(states: seq<Archive>, os: seq<Occurrence>, i: nat)
    requires i < |os| < |states|
  {
    os[i].Raising? ==> forall at | at in states[i + 1].files :: Contents(states[i + 1].files, at) == Contents(states[i].files, at)
  }

  /** A raise that writes nothing tears nothing: if none has written, the guarantee is whole. */
  lemma {:induction false} SilentRaisesTearNothing(states: seq<Archive>, os: seq<Occurrence>, n: nat)
    requires n <= |os| < |states| && forall i | 0 <= i < n :: SilentAt(states, os, i)
    ensures TornBy(states, os, n) == {}
  {
    if n > 0 {
      SilentRaisesTearNothing(states, os, n - 1);
      assert SilentAt(states, os, n - 1);
    }
  }

  // ---- That reading fails ----

  ghost predicate IsRecordFrame(u: Setup, entryId: string, frame: Bytes, record: Record) {
    IsFrame(u.codec, frame, record) && record.schemaVersion == SCHEMA_VERSION && record.entryId == entryId
  }

  /** One byte is written of a frame before its append raises. Appended again, the frame gets a reference that does not read
      back, unless all its bytes are the same. */
  lemma ShortWriteBreaksReferences(u: Setup, key: Key, entryId: string, frame: Bytes, record: Record)
    returns (states: seq<Archive>, os: seq<Occurrence>)
    requires ValidSetup(u) && Injective(u.digest) && IsRecordFrame(u, entryId, frame, record)
    requires 1 < |frame| <= u.maxSegmentBytes && frame[1..] != frame[..|frame| - 1]
    ensures LongHistory(u, states, os) && |os| == 2 && os[0] == Raising(key, frame, 1) && states[0] == Archive(map[], map[])
    ensures os[1].Done? && os[1].event.Appended? && os[1].event.frame == frame
    ensures Read(u, states[2].files, os[1].event.reference) == Err(DigestMismatch)
  {
    hide ValidSetup, Parse, IsFrame;
    var at, none := Location(key, 0), Archive(map[], map[]);
    var torn := Archive(map[at := frame[..1]], map[key := Segment(0, 0)]);
    var whole := Archive(map[at := frame[..1] + frame], map[key := Segment(0, |frame|)]);
    var r := Reference(at, 0, |frame|, u.digest(frame), entryId);
    assert [] + frame[..1] == frame[..1];
    assert RaisesWith(u, none, key, frame, 1, torn, None);
    assert AppendsTo(u, torn, key, entryId, frame, whole, r, Some(Segment(0, 0)));
    states, os := [none, torn, whole], [Raising(key, frame, 1), Done(Appended(key, entryId, frame, record, r))];
    assert Occurs(u, states[0], os[0], states[1]) && Occurs(u, states[1], os[1], states[2]);
    ReadsBackExactly(u, states, os, 1, 2);
    var before := frame[..1];
    assert before[0..] == before && PointedAt(before, 0, frame) == frame[..1] + frame[..|frame| - 1];
    assert frame == frame[..1] + frame[1..];
  }

  /** With seven digits no raise is needed: the lookup resumes the last segment it recognises, and the next one is there already. */
  lemma LongNumberBreaksReferences(u: Setup, key: Key, entryId: string, frame: Bytes, record: Record, before: Bytes)
    returns (states: seq<Archive>, os: seq<Occurrence>)
    requires ValidSetup(u) && Injective(u.digest) && IsRecordFrame(u, entryId, frame, record)
    requires |frame| <= u.maxSegmentBytes < 2 * |frame| && (before + frame)[..|frame|] != frame
    ensures LongHistory(u, states, os) && |os| == 1 && os[0].Done? && os[0].event.Appended? && os[0].event.frame == frame
    ensures states[0].files == map[Location(key, LISTED_NUMBERS - 1) := frame, Location(key, LISTED_NUMBERS) := before]
    ensures Read(u, states[1].files, os[0].event.reference) == Err(DigestMismatch)
  {
    var last, next := Location(key, LISTED_NUMBERS - 1), Location(key, LISTED_NUMBERS);
    ParseOne(u, frame, record);
    hide ValidSetup, Parse, IsFrame, Sound;
    var start := Archive(map[last := frame, next := before], map[]);
    var after := Archive(start.files[next := before + frame], map[key := Segment(LISTED_NUMBERS, |frame|)]);
    var r := Reference(next, 0, |frame|, u.digest(frame), entryId);
    var current := Some(Segment(LISTED_NUMBERS - 1, |frame|));
    assert Restores(u, start.files, key, current);
    assert AppendsTo(u, start, key, entryId, frame, after, r, current);
    states, os := [start, after], [Done(Appended(key, entryId, frame, record, r))];
    assert Occurs(u, states[0], os[0], states[1]);
    ReadsBackExactly(u, states, os, 0, 1);
    assert before[0..] == before;
  }
}
