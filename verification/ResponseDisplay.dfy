// The visible items of a response on one log line: neighbours of one kind are shown as one.
module ResponseDisplay {
  import opened Wrappers

  /** Reasoning counts sealed and readable items; the other segments carry the item's type as it came. */
  datatype Segment =
    | Named(rawType: Option<string>, names: seq<string>)
    | Reasoning(enc: nat, txt: nat)
    | Unknown(rawType: Option<string>)
    | Anonymous(rawType: Option<string>)

  predicate Mergeable(a: Segment, b: Segment) {
    (a.Named? && b.Named? && a.rawType == b.rawType) || (a.Reasoning? && b.Reasoning?)
  }

  function Merge(a: Segment, b: Segment): Segment
    requires Mergeable(a, b)
  {
    if a.Named? then Named(a.rawType, a.names + b.names) else Reasoning(a.enc + b.enc, a.txt + b.txt)
  }

  /** Takes one more segment, into the last one if they go together. */
  function Add(coalesced: seq<Segment>, s: Segment): seq<Segment> {
    var n := |coalesced|;
    if n > 0 && Mergeable(coalesced[n - 1], s) then coalesced[..n - 1] + [Merge(coalesced[n - 1], s)] else coalesced + [s]
  }

  function Coalesced(segments: seq<Segment>, n: nat): seq<Segment>
    requires n <= |segments|
  {
    if n == 0 then [] else Add(Coalesced(segments, n - 1), segments[n - 1])
  }

  method Coalesce(segments: seq<Segment>) returns (coalesced: seq<Segment>)
    ensures coalesced == Coalesced(segments, |segments|)
  {
    hide Add;
    coalesced := [];
    for n := 0 to |segments|
      invariant coalesced == Coalesced(segments, n)
    {
      coalesced := Extend(coalesced, segments[n]);
    }
  }

  method Extend(coalesced: seq<Segment>, segment: Segment) returns (extended: seq<Segment>)
    ensures extended == Add(coalesced, segment)
  {
    if coalesced != [] {
      var last := coalesced[|coalesced| - 1];
      if last.Named? && segment.Named? && last.rawType == segment.rawType {
        return coalesced[..|coalesced| - 1] + [Named(last.rawType, last.names + segment.names)];
      }
      if last.Reasoning? && segment.Reasoning? {
        return coalesced[..|coalesced| - 1] + [Reasoning(last.enc + segment.enc, last.txt + segment.txt)];
      }
    }
    return coalesced + [segment];
  }

  /** No two neighbours go together any more. */
  ghost predicate Apart(segments: seq<Segment>) {
    forall i | 0 <= i < |segments| - 1 :: !Mergeable(segments[i], segments[i + 1])
  }

  lemma {:induction false} CoalescedIsApart(segments: seq<Segment>, n: nat)
    requires n <= |segments|
    ensures Apart(Coalesced(segments, n))
  {
    if n > 0 {
      CoalescedIsApart(segments, n - 1);
      var before := Coalesced(segments, n - 1);
      if before != [] && |before| > 1 && Mergeable(before[|before| - 1], segments[n - 1]) {
        assert !Mergeable(before[|before| - 2], before[|before| - 2 + 1]);
      }
    }
  }

  /** What is apart stays as it is. */
  lemma {:induction false} ApartIsUnchanged(segments: seq<Segment>, n: nat)
    requires n <= |segments| && Apart(segments)
    ensures Coalesced(segments, n) == segments[..n]
  {
    if n > 0 {
      ApartIsUnchanged(segments, n - 1);
      if n > 1 { assert !Mergeable(segments[n - 2], segments[n - 2 + 1]); }
    }
  }

  /** Showing what is shown once more changes nothing. */
  lemma CoalescingIsIdempotent(segments: seq<Segment>)
    ensures var once := Coalesced(segments, |segments|); Coalesced(once, |once|) == once
  {
    var once := Coalesced(segments, |segments|);
    CoalescedIsApart(segments, |segments|);
    ApartIsUnchanged(once, |once|);
    assert once[..|once|] == once;
  }

  /** Every called tool, with the type it was called by, in order. */
  function Calls(segments: seq<Segment>): seq<(Option<string>, string)> {
    if segments == [] then []
    else
      var last := segments[|segments| - 1];
      Calls(segments[..|segments| - 1]) + if last.Named? then CallsOf(last.rawType, last.names) else []
  }

  function CallsOf(rawType: Option<string>, names: seq<string>): (calls: seq<(Option<string>, string)>)
    ensures |calls| == |names| && forall i | 0 <= i < |names| :: calls[i] == (rawType, names[i])
  {
    seq(|names|, i requires 0 <= i < |names| => (rawType, names[i]))
  }

  function Sealed(segments: seq<Segment>): nat {
    if segments == [] then 0
    else Sealed(segments[..|segments| - 1]) + if segments[|segments| - 1].Reasoning? then segments[|segments| - 1].enc else 0
  }

  function Readable(segments: seq<Segment>): nat {
    if segments == [] then 0
    else Readable(segments[..|segments| - 1]) + if segments[|segments| - 1].Reasoning? then segments[|segments| - 1].txt else 0
  }

  lemma AddKeepsTotals(coalesced: seq<Segment>, s: Segment)
    ensures Calls(Add(coalesced, s)) == Calls(coalesced) + if s.Named? then CallsOf(s.rawType, s.names) else []
    ensures Sealed(Add(coalesced, s)) == Sealed(coalesced) + if s.Reasoning? then s.enc else 0
    ensures Readable(Add(coalesced, s)) == Readable(coalesced) + if s.Reasoning? then s.txt else 0
  {
    var n, added := |coalesced|, Add(coalesced, s);
    if n > 0 && Mergeable(coalesced[n - 1], s) {
      var last := coalesced[n - 1];
      assert added[..n - 1] == coalesced[..n - 1] && added[n - 1] == Merge(last, s);
      if s.Named? {
        assert CallsOf(last.rawType, last.names + s.names) == CallsOf(last.rawType, last.names) + CallsOf(s.rawType, s.names);
      }
    } else {
      assert added[..n] == coalesced;
    }
  }

  /** Nothing is lost or reordered: the same calls in the same order, and as many reasoning items of each kind. */
  lemma {:induction false} CoalescingKeepsTotals(segments: seq<Segment>, n: nat)
    requires n <= |segments|
    ensures Calls(Coalesced(segments, n)) == Calls(segments[..n])
    ensures Sealed(Coalesced(segments, n)) == Sealed(segments[..n]) && Readable(Coalesced(segments, n)) == Readable(segments[..n])
  {
    if n > 0 {
      CoalescingKeepsTotals(segments, n - 1);
      AddKeepsTotals(Coalesced(segments, n - 1), segments[n - 1]);
      assert segments[..n][..n - 1] == segments[..n - 1];
    }
  }
}
