// One request's capture: whether it still records, what it has lost, and what its
// committed frames prove.
module Captures {
  import opened Wrappers
  import opened Frames

  type Path = string

  datatype EventType =
    | RequestStart | RequestBody | RequestBodyEnd
    | AttemptStart | UpstreamRequestStart | UpstreamRequestBody
    | UpstreamResponseStart | UpstreamResponseBody | UpstreamResponseEnd | AttemptEnd
    | ClientResponseStart | ClientResponseBody | RequestEnd
    | Other(name: string)

  datatype DropReason =
    | StoreClosed | PathPoisoned | FileQuotaExceeded | TotalQuotaExceeded | WriterQueueFull
    | CaptureError | WriterError | RequestIncomplete

  /** The non-sensitive facts a committed frame proves. */
  datatype Evidence = Evidence(eventType: EventType, attempt: Option<int>, headersAvailable: bool, complete: Option<bool>)

  /** An event as its producer emits it; `body` stands for everything that is not evidence. */
  datatype Event = Event(evidence: Evidence, body: string)

  datatype Attempt = Attempt(
    attemptStarted: bool, requestStarted: bool, requestHeaders: bool, requestBody: bool,
    responseStarted: bool, responseHeaders: bool, responseBody: bool,
    responseEndComplete: bool, responseEndIncomplete: bool,
    attemptEndComplete: bool, attemptEndIncomplete: bool)

  const NO_ATTEMPT := Attempt(false, false, false, false, false, false, false, false, false, false, false)

  /** Everything a capture keeps about its committed frames. */
  datatype Ledger = Ledger(types: set<EventType>, bodyCommitted: bool, endComplete: bool, endIncomplete: bool, attempts: map<int, Attempt>)

  const EMPTY_LEDGER := Ledger({}, false, false, false, map[])

  datatype Capture = Capture(
    path: Path, requestId: string, enabled: bool, finished: bool, pending: int,
    dropReason: Option<DropReason>, firstDropped: Option<EventType>, writerErrorEvent: Option<EventType>,
    missing: set<EventType>, ledger: Ledger, incompleteEvent: Option<EventType>)

  function Fresh(path: Path, requestId: string): Capture {
    Capture(path, requestId, true, false, 0, None, None, None, {}, EMPTY_LEDGER, None)
  }

  function MarkDrop(c: Capture, reason: DropReason, eventType: EventType): Capture {
    c.(enabled := false,
       writerErrorEvent := if reason == WriterError && c.writerErrorEvent == None then Some(eventType) else c.writerErrorEvent,
       dropReason := if c.dropReason == None then Some(reason) else c.dropReason,
       firstDropped := if c.dropReason == None then Some(eventType) else c.firstDropped,
       missing := c.missing + {eventType})
  }

  function NoteQueued(c: Capture): Capture {
    c.(pending := c.pending + 1)
  }

  function NoteCompleted(c: Capture, e: Evidence, drop: Option<DropReason>): Capture {
    var noted := match drop
      case Some(reason) => MarkDrop(c, reason, e.eventType)
      case None => c.(ledger := Committed(c.ledger, e));
    noted.(pending := noted.pending - 1)
  }

  function NoteIncomplete(c: Capture, eventType: EventType): Capture {
    c.(incompleteEvent := if c.incompleteEvent == None then Some(eventType) else c.incompleteEvent)
  }

  function IsTrue(complete: Option<bool>): bool {
    complete == Some(true)
  }

  function Committed(l: Ledger, e: Evidence): Ledger {
    var noted := l.(
      types := l.types + {e.eventType},
      bodyCommitted := l.bodyCommitted || e.eventType == RequestBody,
      endComplete := l.endComplete || (e.eventType == RequestBodyEnd && IsTrue(e.complete)),
      endIncomplete := l.endIncomplete || (e.eventType == RequestBodyEnd && !IsTrue(e.complete)));
    match e.attempt
    case None => noted
    case Some(n) =>
      var before := if n in l.attempts then l.attempts[n] else NO_ATTEMPT;
      noted.(attempts := l.attempts[n := AttemptCommitted(before, e)])
  }

  function AttemptCommitted(a: Attempt, e: Evidence): Attempt {
    var t, whole := e.eventType, IsTrue(e.complete);
    Attempt(
      a.attemptStarted || t == AttemptStart,
      a.requestStarted || t == UpstreamRequestStart,
      if t == UpstreamRequestStart then e.headersAvailable else a.requestHeaders,
      a.requestBody || t == UpstreamRequestBody,
      a.responseStarted || t == UpstreamResponseStart,
      if t == UpstreamResponseStart then e.headersAvailable else a.responseHeaders,
      a.responseBody || t == UpstreamResponseBody,
      a.responseEndComplete || (t == UpstreamResponseEnd && whole),
      a.responseEndIncomplete || (t == UpstreamResponseEnd && !whole),
      a.attemptEndComplete || (t == AttemptEnd && whole),
      a.attemptEndIncomplete || (t == AttemptEnd && !whole))
  }

  // ---- What may be claimed about a capture ----

  datatype Status = Pending | Complete | Incomplete | Corrupt

  function RequestAvailable(c: Capture): bool {
    c.ledger.bodyCommitted && c.ledger.endComplete && !c.ledger.endIncomplete
  }

  function ResponseAvailable(c: Capture): bool {
    ClientResponseBody in c.ledger.types
  }

  function UpstreamAvailable(c: Capture): bool {
    UpstreamResponseBody in c.ledger.types || UpstreamResponseEnd in c.ledger.types
  }

  function StatusOf(c: Capture): Status {
    if !c.finished then Pending
    else if c.dropReason == Some(PathPoisoned) then Corrupt
    else if c.dropReason != None || c.incompleteEvent != None
            || !RequestAvailable(c) || !ResponseAvailable(c) || !UpstreamAvailable(c) then Incomplete
    else Complete
  }

  function ResponseComplete(a: Attempt): bool {
    a.responseEndComplete && !a.responseEndIncomplete
  }

  function AttemptComplete(a: Attempt): bool {
    a.attemptEndComplete && !a.attemptEndIncomplete
  }

  /** The attempt's whole exchange with the provider was kept. */
  function WireEligible(a: Attempt): bool {
    && a.attemptStarted && a.requestStarted && a.requestHeaders && a.requestBody
    && a.responseStarted && a.responseHeaders && a.responseBody && ResponseComplete(a) && AttemptComplete(a)
  }

  /** What is shown of one attempt. */
  datatype AttemptView = AttemptView(
    attempt: int, attemptStarted: bool, requestStarted: bool, requestHeaders: bool, requestBody: bool,
    responseStarted: bool, responseHeaders: bool, responseBody: bool, responseComplete: bool, attemptComplete: bool)

  function ViewOf(n: int, a: Attempt): AttemptView {
    AttemptView(n, a.attemptStarted, a.requestStarted, a.requestHeaders, a.requestBody,
                a.responseStarted, a.responseHeaders, a.responseBody, ResponseComplete(a), AttemptComplete(a))
  }

  predicate ViewEligible(v: AttemptView) {
    && v.attemptStarted && v.requestStarted && v.requestHeaders && v.requestBody
    && v.responseStarted && v.responseHeaders && v.responseBody && v.responseComplete && v.attemptComplete
  }

  /** The projection shown to the rest of the program. */
  datatype Observation = Observation(status: Status, requestAvailable: bool, responseAvailable: bool, wireEligible: bool,
                                     semanticReplay: bool, liveReplay: bool, captureRef: Path, attempts: seq<AttemptView>)

  /** Every attempt of the ledger once, by rising number. */
  ghost predicate ListsAttempts(attempts: map<int, Attempt>, views: seq<AttemptView>) {
    && (forall i, j | 0 <= i < j < |views| :: views[i].attempt < views[j].attempt)
    && (forall i | 0 <= i < |views| :: views[i].attempt in attempts && views[i] == ViewOf(views[i].attempt, attempts[views[i].attempt]))
    && forall n | n in attempts :: ViewOf(n, attempts[n]) in views
  }

  ghost predicate Observes(c: Capture, o: Observation) {
    && o.status == StatusOf(c) && o.captureRef == c.path && ListsAttempts(c.ledger.attempts, o.attempts)
    && o.requestAvailable == RequestAvailable(c) && o.responseAvailable == ResponseAvailable(c)
    && var open := StatusOf(c) != Pending && StatusOf(c) != Corrupt;
    && (o.wireEligible <==> open && exists n :: n in c.ledger.attempts && WireEligible(c.ledger.attempts[n]))
    && o.semanticReplay == o.liveReplay == (open && RequestAvailable(c))
  }

  lemma SmallestAttempt(numbers: set<int>) returns (n: int)
    requires numbers != {}
    ensures n in numbers && forall m | m in numbers :: n <= m
  {
    assert (forall x :: x !in numbers) ==> numbers == {};
    var x :| x in numbers;
    n := x;
    if numbers != {x} {
      var rest := numbers - {x};
      assert numbers == rest + {x};
      var m := SmallestAttempt(rest);
      n := if m < x then m else x;
    }
  }

  /** The attempts in the order of their numbers. */
  method SortAttempts(attempts: map<int, Attempt>) returns (views: seq<AttemptView>)
    ensures ListsAttempts(attempts, views)
  {
    views := [];
    var left := attempts.Keys;
    while left != {}
      invariant left <= attempts.Keys
      invariant forall i, j | 0 <= i < j < |views| :: views[i].attempt < views[j].attempt
      invariant forall i, n | 0 <= i < |views| && n in left :: views[i].attempt < n
      invariant forall i | 0 <= i < |views| :: views[i].attempt in attempts && views[i] == ViewOf(views[i].attempt, attempts[views[i].attempt])
      invariant forall n | n in attempts && n !in left :: ViewOf(n, attempts[n]) in views
    {
      ghost var smallest := SmallestAttempt(left);
      var next :| next in left && forall n | n in left :: next <= n;
      views := views + [ViewOf(next, attempts[next])];
      left := left - {next};
    }
  }

  // ---- Every bit of the ledger is backed by a committed frame ----

  /** The ledger after these committed frames, in order. */
  ghost function LedgerOf(evidence: seq<Evidence>): Ledger {
    if evidence == [] then EMPTY_LEDGER
    else Committed(LedgerOf(evidence[..|evidence| - 1]), evidence[|evidence| - 1])
  }

  lemma LedgerGrows(evidence: seq<Evidence>, e: Evidence)
    ensures LedgerOf(evidence + [e]) == Committed(LedgerOf(evidence), e)
  {
    hide Committed;
    assert (evidence + [e])[..|evidence|] == evidence;
  }

  /** Some frame has this type, and, where one is asked for, this attempt and this ending. */
  ghost predicate Seen(evidence: seq<Evidence>, t: EventType, attempt: Option<int>, ending: Option<bool>) {
    exists i | 0 <= i < |evidence| :: Matches(evidence[i], t, attempt, ending)
  }

  ghost predicate Matches(e: Evidence, t: EventType, attempt: Option<int>, ending: Option<bool>) {
    && e.eventType == t
    && (attempt == None || e.attempt == attempt)
    && (ending == None || ending == Some(IsTrue(e.complete)))
  }

  ghost predicate LastSeen(evidence: seq<Evidence>, t: EventType, n: int, i: int) {
    && 0 <= i < |evidence| && Matches(evidence[i], t, Some(n), None)
    && forall j | i < j < |evidence| :: !Matches(evidence[j], t, Some(n), None)
  }

  /** The attempt's last frame of this type had headers. */
  ghost predicate HeadersSeen(evidence: seq<Evidence>, t: EventType, n: int) {
    exists i :: LastSeen(evidence, t, n, i) && evidence[i].headersAvailable
  }

  ghost function AttemptIn(l: Ledger, n: int): Attempt {
    if n in l.attempts then l.attempts[n] else NO_ATTEMPT
  }

  ghost predicate RequestBacked(evidence: seq<Evidence>, n: int, a: Attempt) {
    && (a.attemptStarted <==> Seen(evidence, AttemptStart, Some(n), None))
    && (a.requestStarted <==> Seen(evidence, UpstreamRequestStart, Some(n), None))
    && (a.requestHeaders <==> HeadersSeen(evidence, UpstreamRequestStart, n))
    && (a.requestBody <==> Seen(evidence, UpstreamRequestBody, Some(n), None))
  }

  ghost predicate ResponseBacked(evidence: seq<Evidence>, n: int, a: Attempt) {
    && (a.responseStarted <==> Seen(evidence, UpstreamResponseStart, Some(n), None))
    && (a.responseHeaders <==> HeadersSeen(evidence, UpstreamResponseStart, n))
    && (a.responseBody <==> Seen(evidence, UpstreamResponseBody, Some(n), None))
  }

  ghost predicate EndingsBacked(evidence: seq<Evidence>, n: int, a: Attempt) {
    && (a.responseEndComplete <==> Seen(evidence, UpstreamResponseEnd, Some(n), Some(true)))
    && (a.responseEndIncomplete <==> Seen(evidence, UpstreamResponseEnd, Some(n), Some(false)))
    && (a.attemptEndComplete <==> Seen(evidence, AttemptEnd, Some(n), Some(true)))
    && (a.attemptEndIncomplete <==> Seen(evidence, AttemptEnd, Some(n), Some(false)))
  }

  ghost predicate AttemptBacked(evidence: seq<Evidence>, n: int, a: Attempt) {
    RequestBacked(evidence, n, a) && ResponseBacked(evidence, n, a) && EndingsBacked(evidence, n, a)
  }

  lemma SeenGrows(evidence: seq<Evidence>, e: Evidence, t: EventType, attempt: Option<int>, ending: Option<bool>)
    ensures Seen(evidence + [e], t, attempt, ending) <==> Seen(evidence, t, attempt, ending) || Matches(e, t, attempt, ending)
  {
    var more := evidence + [e];
    if Seen(evidence, t, attempt, ending) {
      var i :| 0 <= i < |evidence| && Matches(evidence[i], t, attempt, ending);
      assert Matches(more[i], t, attempt, ending);
    }
    if Matches(e, t, attempt, ending) {
      assert Matches(more[|evidence|], t, attempt, ending);
    }
  }

  lemma HeadersGrow(evidence: seq<Evidence>, e: Evidence, t: EventType, n: int)
    ensures HeadersSeen(evidence + [e], t, n)
       <==> if Matches(e, t, Some(n), None) then e.headersAvailable else HeadersSeen(evidence, t, n)
  {
    hide Matches;
    var more := evidence + [e];
    assert forall i | 0 <= i < |evidence| :: more[i] == evidence[i];
    assert more[|evidence|] == e;
    if Matches(e, t, Some(n), None) {
      assert LastSeen(more, t, n, |evidence|);
    } else {
      assert forall i :: LastSeen(more, t, n, i) <==> LastSeen(evidence, t, n, i);
    }
  }

  lemma RequestGrows(evidence: seq<Evidence>, e: Evidence, n: int, a: Attempt)
    requires RequestBacked(evidence, n, a)
    ensures RequestBacked(evidence + [e], n, if e.attempt == Some(n) then AttemptCommitted(a, e) else a)
  {
    hide Seen, HeadersSeen;
    SeenGrows(evidence, e, AttemptStart, Some(n), None);
    SeenGrows(evidence, e, UpstreamRequestStart, Some(n), None);
    HeadersGrow(evidence, e, UpstreamRequestStart, n);
    SeenGrows(evidence, e, UpstreamRequestBody, Some(n), None);
  }

  lemma ResponseGrows(evidence: seq<Evidence>, e: Evidence, n: int, a: Attempt)
    requires ResponseBacked(evidence, n, a)
    ensures ResponseBacked(evidence + [e], n, if e.attempt == Some(n) then AttemptCommitted(a, e) else a)
  {
    hide Seen, HeadersSeen;
    SeenGrows(evidence, e, UpstreamResponseStart, Some(n), None);
    HeadersGrow(evidence, e, UpstreamResponseStart, n);
    SeenGrows(evidence, e, UpstreamResponseBody, Some(n), None);
  }

  lemma EndingsGrow(evidence: seq<Evidence>, e: Evidence, n: int, a: Attempt)
    requires EndingsBacked(evidence, n, a)
    ensures EndingsBacked(evidence + [e], n, if e.attempt == Some(n) then AttemptCommitted(a, e) else a)
  {
    hide Seen;
    SeenGrows(evidence, e, UpstreamResponseEnd, Some(n), Some(true));
    SeenGrows(evidence, e, UpstreamResponseEnd, Some(n), Some(false));
    SeenGrows(evidence, e, AttemptEnd, Some(n), Some(true));
    SeenGrows(evidence, e, AttemptEnd, Some(n), Some(false));
  }

  lemma AttemptAfter(l: Ledger, e: Evidence, n: int)
    ensures AttemptIn(Committed(l, e), n) == if e.attempt == Some(n) then AttemptCommitted(AttemptIn(l, n), e) else AttemptIn(l, n)
  {
    hide AttemptCommitted;
  }

  lemma NothingBacked(n: int)
    ensures AttemptBacked([], n, AttemptIn(EMPTY_LEDGER, n))
  {
  }

  /** What a capture says of an attempt is exactly what its committed frames show. */
  lemma {:induction false} AttemptsBacked(evidence: seq<Evidence>, n: int)
    ensures AttemptBacked(evidence, n, AttemptIn(LedgerOf(evidence), n))
  {
    hide RequestBacked, ResponseBacked, EndingsBacked, Committed, AttemptCommitted, AttemptIn;
    if evidence == [] {
      NothingBacked(n);
    } else {
      var before, e := evidence[..|evidence| - 1], evidence[|evidence| - 1];
      var l := LedgerOf(before);
      AttemptsBacked(before, n);
      RequestGrows(before, e, n, AttemptIn(l, n));
      ResponseGrows(before, e, n, AttemptIn(l, n));
      EndingsGrow(before, e, n, AttemptIn(l, n));
      AttemptAfter(l, e, n);
      assert evidence == before + [e];
    }
  }

  lemma {:induction false} FlagsBacked(evidence: seq<Evidence>)
    ensures var l := LedgerOf(evidence);
      && (forall t :: t in l.types <==> Seen(evidence, t, None, None))
      && (l.bodyCommitted <==> Seen(evidence, RequestBody, None, None))
      && (l.endComplete <==> Seen(evidence, RequestBodyEnd, None, Some(true)))
      && (l.endIncomplete <==> Seen(evidence, RequestBodyEnd, None, Some(false)))
  {
    if evidence != [] {
      var before, e := evidence[..|evidence| - 1], evidence[|evidence| - 1];
      assert evidence == before + [e];
      hide Seen;
      FlagsBacked(before);
      forall t ensures t in LedgerOf(evidence).types <==> Seen(evidence, t, None, None) {
        SeenGrows(before, e, t, None, None);
      }
      SeenGrows(before, e, RequestBody, None, None);
      SeenGrows(before, e, RequestBodyEnd, None, Some(true));
      SeenGrows(before, e, RequestBodyEnd, None, Some(false));
    }
  }
}
