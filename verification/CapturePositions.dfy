// Where every emitted event is: on its way through an append, accepted, or lost with its
// capture switched off; and, with one producer at a time, accepted without holes.
module CapturePositions {
  import opened Wrappers
  import opened Frames
  import opened Captures
  import opened CaptureStore
  import opened CaptureSystem
  import opened CaptureLedger

  ghost predicate Placed(s: System, c: nat, position: nat, event: Event) {
    c in s.emitted && position < |s.emitted[c]| && s.emitted[c][position] == event
  }

  ghost predicate ThreadPlaced(s: System, thread: Thread) {
    match thread
    case Idle => true
    case Ending(c, event, complete) => c in s.captures
    case Appending(c, event, position, after) => c in s.captures && Placed(s, c, position, event)
    case Rejected(c, eventType, reason, position, after) => c in s.captures && c in s.emitted && position < |s.emitted[c]|
    case Settling(c, complete) => c in s.captures
    case Waiting(c) => c in s.captures
    case _ => s.pipe.store.closed
  }

  ghost predicate Holds(thread: Thread, c: nat, position: nat) {
    (thread.Appending? || thread.Rejected?) && thread.capture == c && thread.position == position
  }

  ghost predicate Dropped(s: System, c: nat) {
    c in s.captures && s.captures[c].dropReason != None
  }

  ghost predicate InLog(log: seq<Frame>, c: nat, position: nat) {
    exists i | 0 <= i < |log| :: log[i].capture == c && log[i].position == position
  }

  ghost predicate Held(s: System, c: nat, position: nat) {
    exists t :: Holds(ThreadOf(s, t), c, position)
  }

  /** An event that is neither accepted nor held by an append has switched its capture off. */
  ghost predicate Located(s: System, c: nat, position: nat) {
    Dropped(s, c) || InLog(s.pipe.log, c, position) || Held(s, c, position)
  }

  ghost predicate AllLocated(s: System, c: nat) {
    c in s.emitted ==> forall position | 0 <= position < |s.emitted[c]| :: Located(s, c, position)
  }

  ghost predicate AtMostOne(s: System, c: nat) {
    forall t, u | InAppend(ThreadOf(s, t), c) && InAppend(ThreadOf(s, u), c) :: t == u
  }

  /** The capture's accepted frames are its events from the first on, without a gap. */
  ghost predicate Gapless(log: seq<Frame>, c: nat) {
    forall i | 0 <= i < |log| && log[i].capture == c :: log[i].position == Count(log, c, i)
  }

  ghost predicate NextIsHeld(s: System, c: nat, thread: Thread)
    requires c in s.captures && c in s.emitted
  {
    thread.Appending? && thread.capture == c ==>
      thread.position == Count(s.pipe.log, c, |s.pipe.log|) && (s.captures[c].enabled ==> |s.emitted[c]| == thread.position + 1)
  }

  /** What holds of a capture whose appends never overlapped. */
  ghost predicate Solo(s: System, c: nat) {
    && c in s.captures && c in s.emitted && AtMostOne(s, c) && Gapless(s.pipe.log, c)
    && (forall t :: NextIsHeld(s, c, ThreadOf(s, t)))
    && (s.captures[c].enabled && !Underway(s, c) ==> |s.emitted[c]| == Count(s.pipe.log, c, |s.pipe.log|))
  }

  ghost predicate SameKeys(s: System) {
    forall c :: c in s.captures <==> c in s.emitted
  }

  ghost predicate Traced(s: System) {
    && SameKeys(s)
    && (forall i | 0 <= i < |s.pipe.log| :: Placed(s, s.pipe.log[i].capture, s.pipe.log[i].position, s.pipe.log[i].event))
    && (forall t :: ThreadPlaced(s, ThreadOf(s, t)))
    && (forall c {:trigger AllLocated(s, c)} :: AllLocated(s, c))
    && (forall c | c in s.captures && c !in s.crowded :: Solo(s, c))
  }

  // ---- Steps outside append ----

  /** A thread as the appends see it. */
  function View(thread: Thread): Thread {
    if thread.Appending? || thread.Rejected? then thread else Idle
  }

  /** Captures only ever get worse, and threads differ only outside append. */
  ghost predicate Aside(s: System, q: System) {
    && q.pipe.log == s.pipe.log && q.emitted == s.emitted && q.crowded == s.crowded && q.captures.Keys == s.captures.Keys
    && (forall c | c in s.captures :: s.captures[c].dropReason != None ==> q.captures[c].dropReason != None)
    && (forall c | c in s.captures :: q.captures[c].enabled ==> s.captures[c].enabled)
    && (forall t :: View(ThreadOf(q, t)) == View(ThreadOf(s, t)))
  }

  lemma AsideLocates(s: System, q: System, c: nat)
    requires Aside(s, q) && AllLocated(s, c)
    ensures AllLocated(q, c)
  {
    forall position | c in q.emitted && 0 <= position < |q.emitted[c]| ensures Located(q, c, position) {
      assert Located(s, c, position);
      if Held(s, c, position) {
        var t :| Holds(ThreadOf(s, t), c, position);
        assert View(ThreadOf(q, t)) == View(ThreadOf(s, t));
        assert Holds(ThreadOf(q, t), c, position);
      }
    }
  }

  lemma AsideSolo(s: System, q: System, c: nat)
    requires Aside(s, q) && Solo(s, c)
    ensures Solo(q, c)
  {
    forall t ensures InAppend(ThreadOf(q, t), c) == InAppend(ThreadOf(s, t), c) && NextIsHeld(q, c, ThreadOf(q, t)) {
      assert View(ThreadOf(q, t)) == View(ThreadOf(s, t));
      assert NextIsHeld(s, c, ThreadOf(s, t));
    }
  }

  lemma AsideKeeps(s: System, q: System)
    requires Traced(s) && Aside(s, q) && forall t :: ThreadPlaced(q, ThreadOf(q, t))
    ensures Traced(q)
  {
    hide Solo, AllLocated;
    forall c ensures AllLocated(q, c) {
      AsideLocates(s, q, c);
    }
    forall c | c in q.captures && c !in q.crowded ensures Solo(q, c) {
      AsideSolo(s, q, c);
    }
  }

  // ---- Creating a capture, and switching one off ----

  lemma CreateTraces(s: System, q: System, c: nat, capture: Capture)
    requires Traced(s) && c !in s.captures && capture == Fresh(capture.path, capture.requestId)
    requires q == Changes(s, c, capture).(emitted := s.emitted[c := []])
    ensures Traced(q)
  {
    assert forall t :: ThreadOf(q, t) == ThreadOf(s, t) && ThreadPlaced(s, ThreadOf(s, t));
    forall d ensures AllLocated(q, d) {
      assert AllLocated(s, d);
      forall position | d in q.emitted && 0 <= position < |q.emitted[d]| ensures Located(q, d, position) {
        assert Located(s, d, position);
      }
    }
    forall d | d in q.captures && d !in q.crowded ensures Solo(q, d) {
      if d == c {
        FreshIsSolo(s, q, c);
      } else {
        assert Solo(s, d);
        assert forall t :: NextIsHeld(s, d, ThreadOf(s, t)) ==> NextIsHeld(q, d, ThreadOf(q, t));
      }
    }
  }

  lemma FreshIsSolo(s: System, q: System, c: nat)
    requires Traced(s) && c !in s.captures && c in q.captures && c in q.emitted && q.emitted[c] == []
    requires q.pipe == s.pipe && q.threads == s.threads
    ensures Solo(q, c)
  {
    assert forall t :: ThreadOf(q, t) == ThreadOf(s, t) && ThreadPlaced(s, ThreadOf(s, t));
    assert forall i | 0 <= i < |s.pipe.log| :: Placed(s, s.pipe.log[i].capture, s.pipe.log[i].position, s.pipe.log[i].event);
    CountNone(s.pipe.log, c, |s.pipe.log|);
  }

  /** A refused append switches its capture off, and returns. */
  lemma DropTraces(s: System, q: System, t: nat)
    requires Traced(s) && ThreadOf(s, t).Rejected? && ThreadOf(s, t).capture in s.captures
    requires var c := ThreadOf(s, t).capture;
      q == Becomes(Changes(s, c, MarkDrop(s.captures[c], ThreadOf(s, t).reason, ThreadOf(s, t).eventType)), t, Continue(c, ThreadOf(s, t).after))
    ensures Traced(q)
  {
    var c := ThreadOf(s, t).capture;
    assert forall u | u != t :: ThreadOf(q, u) == ThreadOf(s, u);
    assert forall u :: ThreadPlaced(s, ThreadOf(s, u));
    forall d ensures AllLocated(q, d) {
      assert AllLocated(s, d);
      forall position | d in q.emitted && 0 <= position < |q.emitted[d]| ensures Located(q, d, position) {
        assert Located(s, d, position);
        StillLocated(s, q, t, d, position);
      }
    }
    forall d | d in q.captures && d !in q.crowded ensures Solo(q, d) {
      assert Solo(s, d);
      LeavesSolo(s, q, t, d);
    }
  }

  /** Threads other than t go on holding what they hold; what t held is found again. */
  lemma StillLocated(s: System, q: System, t: nat, d: nat, position: nat)
    requires Located(s, d, position) && (forall u | u != t :: ThreadOf(q, u) == ThreadOf(s, u))
    requires |s.pipe.log| <= |q.pipe.log| && s.pipe.log == q.pipe.log[..|s.pipe.log|] && (Dropped(s, d) ==> Dropped(q, d))
    requires Holds(ThreadOf(s, t), d, position) ==>
      Dropped(q, d) || InLog(q.pipe.log, d, position) || Holds(ThreadOf(q, t), d, position)
    ensures Located(q, d, position)
  {
    if InLog(s.pipe.log, d, position) {
      var i :| 0 <= i < |s.pipe.log| && s.pipe.log[i].capture == d && s.pipe.log[i].position == position;
      assert q.pipe.log[i] == s.pipe.log[i];
    } else if Held(s, d, position) {
      var u :| Holds(ThreadOf(s, u), d, position);
      assert Holds(ThreadOf(q, u), d, position) || u == t;
    }
  }

  /** One thread's append on a capture ends with the capture off; no other capture notices. */
  lemma LeavesSolo(s: System, q: System, t: nat, d: nat)
    requires Solo(s, d) && ThreadOf(s, t).Rejected? && !InAppend(ThreadOf(q, t), d)
    requires (forall u | u != t :: ThreadOf(q, u) == ThreadOf(s, u)) && q.pipe.log == s.pipe.log && q.emitted == s.emitted
    requires d in q.captures && (if d == ThreadOf(s, t).capture then !q.captures[d].enabled else q.captures[d] == s.captures[d])
    ensures Solo(q, d)
  {
    forall u ensures NextIsHeld(q, d, ThreadOf(q, u)) && (InAppend(ThreadOf(q, u), d) ==> InAppend(ThreadOf(s, u), d)) {
      assert NextIsHeld(s, d, ThreadOf(s, u));
    }
    if q.captures[d].enabled && !Underway(q, d) {
      forall u ensures !InAppend(ThreadOf(s, u), d) {
        assert !InAppend(ThreadOf(q, u), d);
      }
    }
  }

  // ---- The store's verdict ----

  lemma RefuseTraces(s: System, q: System, t: nat, eventType: EventType, reason: DropReason)
    requires Traced(s) && ThreadOf(s, t).Appending? && q.pipe.log == s.pipe.log && (s.pipe.store.closed ==> q.pipe.store.closed)
    requires q == s.(pipe := q.pipe, threads := s.threads[t := Rejected(ThreadOf(s, t).capture, eventType, reason, ThreadOf(s, t).position, ThreadOf(s, t).after)])
    ensures Traced(q)
  {
    var c := ThreadOf(s, t).capture;
    assert forall u | u != t :: ThreadOf(q, u) == ThreadOf(s, u);
    assert forall u :: ThreadPlaced(s, ThreadOf(s, u));
    assert ThreadOf(q, t).Rejected? && ThreadOf(q, t).capture == c;
    forall d ensures AllLocated(q, d) {
      assert AllLocated(s, d);
      forall position | d in q.emitted && 0 <= position < |q.emitted[d]| ensures Located(q, d, position) {
        assert Located(s, d, position);
        StillLocated(s, q, t, d, position);
      }
    }
    forall d | d in q.captures && d !in q.crowded ensures Solo(q, d) {
      assert Solo(s, d);
      RefuseSolo(s, q, t, d);
    }
  }

  lemma RefuseSolo(s: System, q: System, t: nat, d: nat)
    requires Solo(s, d) && ThreadOf(s, t).Appending? && ThreadOf(q, t).Rejected? && ThreadOf(q, t).capture == ThreadOf(s, t).capture
    requires (forall u | u != t :: ThreadOf(q, u) == ThreadOf(s, u)) && q.pipe.log == s.pipe.log && q.emitted == s.emitted && q.captures == s.captures
    ensures Solo(q, d)
  {
    forall u ensures NextIsHeld(q, d, ThreadOf(q, u)) && InAppend(ThreadOf(q, u), d) == InAppend(ThreadOf(s, u), d) {
      assert NextIsHeld(s, d, ThreadOf(s, u));
    }
  }

  lemma AcceptTraces(s: System, q: System, t: nat, f: Frame)
    requires Traced(s) && ThreadOf(s, t).Appending? && ThreadOf(s, t).capture in s.captures
    requires f.capture == ThreadOf(s, t).capture && f.event == ThreadOf(s, t).event && f.position == ThreadOf(s, t).position
    requires q.pipe.log == s.pipe.log + [f] && (s.pipe.store.closed ==> q.pipe.store.closed)
    requires q == s.(pipe := q.pipe, threads := s.threads[t := Continue(f.capture, ThreadOf(s, t).after)],
                     captures := s.captures[f.capture := NoteQueued(s.captures[f.capture])])
    ensures Traced(q)
  {
    assert forall u | u != t :: ThreadOf(q, u) == ThreadOf(s, u);
    assert forall u :: ThreadPlaced(s, ThreadOf(s, u));
    assert q.pipe.log[|s.pipe.log|] == f;
    assert forall i | 0 <= i < |q.pipe.log| :: Placed(s, q.pipe.log[i].capture, q.pipe.log[i].position, q.pipe.log[i].event);
    forall d ensures AllLocated(q, d) {
      assert AllLocated(s, d);
      forall position | d in q.emitted && 0 <= position < |q.emitted[d]| ensures Located(q, d, position) {
        assert Located(s, d, position);
        StillLocated(s, q, t, d, position);
      }
    }
    forall d | d in q.captures && d !in q.crowded ensures Solo(q, d) {
      assert Solo(s, d);
      AcceptSolo(s, q, t, f, d);
    }
  }

  lemma AcceptSolo(s: System, q: System, t: nat, f: Frame, d: nat)
    requires Solo(s, d) && ThreadOf(s, t).Appending? && f.capture == ThreadOf(s, t).capture && f.position == ThreadOf(s, t).position
    requires (forall u | u != t :: ThreadOf(q, u) == ThreadOf(s, u)) && !InAppend(ThreadOf(q, t), d)
    requires q.pipe.log == s.pipe.log + [f] && q.emitted == s.emitted && d in q.captures && q.captures[d].enabled == s.captures[d].enabled
    ensures Solo(q, d)
  {
    var n := |s.pipe.log|;
    assert NextIsHeld(s, d, ThreadOf(s, t));
    CountPrefix(s.pipe.log, q.pipe.log, d, n);
    forall i | 0 <= i < |q.pipe.log| && q.pipe.log[i].capture == d ensures q.pipe.log[i].position == Count(q.pipe.log, d, i) {
      CountPrefix(s.pipe.log, q.pipe.log, d, i);
    }
    forall u ensures NextIsHeld(q, d, ThreadOf(q, u)) && (u != t ==> InAppend(ThreadOf(q, u), d) == InAppend(ThreadOf(s, u), d)) {
      assert NextIsHeld(s, d, ThreadOf(s, u));
    }
    if q.captures[d].enabled && !Underway(q, d) && d != f.capture {
      forall u ensures !InAppend(ThreadOf(s, u), d) {
        assert !InAppend(ThreadOf(q, u), d);
      }
    }
  }

  // ---- Emitting ----

  lemma EmitLocates(s: System, q: System, t: nat, c: nat, event: Event, after: Continuation, d: nat)
    requires AllLocated(s, d) && c in s.captures && c in s.emitted && !ThreadOf(s, t).Appending? && !ThreadOf(s, t).Rejected?
    requires s.captures[c].enabled <==> s.captures[c].dropReason == None
    requires q == EmitOn(s, t, c, event, after)
    ensures AllLocated(q, d)
  {
    assert forall u | u != t :: ThreadOf(q, u) == ThreadOf(s, u);
    forall position | d in q.emitted && 0 <= position < |q.emitted[d]| ensures Located(q, d, position) {
      if d in s.emitted && position < |s.emitted[d]| {
        assert Located(s, d, position);
        StillLocated(s, q, t, d, position);
      } else {
        assert s.captures[c].enabled ==> Holds(ThreadOf(q, t), d, position);
      }
    }
  }

  lemma EmitPlaces(s: System, q: System, t: nat, c: nat, event: Event, after: Continuation)
    requires Traced(s) && c in s.captures && c in s.emitted && !ThreadOf(s, t).Appending? && !ThreadOf(s, t).Rejected?
    requires q == EmitOn(s, t, c, event, after)
    ensures SameKeys(q) && forall u :: ThreadPlaced(q, ThreadOf(q, u))
    ensures forall i | 0 <= i < |q.pipe.log| :: Placed(q, q.pipe.log[i].capture, q.pipe.log[i].position, q.pipe.log[i].event)
  {
    hide Solo, AllLocated;
    assert forall u | u != t :: ThreadOf(q, u) == ThreadOf(s, u);
    assert forall u :: ThreadPlaced(s, ThreadOf(s, u));
  }

  lemma EmitTraces(s: System, q: System, t: nat, c: nat, event: Event, after: Continuation)
    requires Traced(s) && c in s.captures && c in s.emitted && !ThreadOf(s, t).Appending? && !ThreadOf(s, t).Rejected?
    requires s.captures[c].enabled <==> s.captures[c].dropReason == None
    requires q == EmitOn(s, t, c, event, after)
    ensures Traced(q)
  {
    hide Solo, AllLocated, ThreadPlaced, Placed;
    EmitPlaces(s, q, t, c, event, after);
    forall d ensures AllLocated(q, d) {
      EmitLocates(s, q, t, c, event, after, d);
    }
    forall d | d in q.captures && d !in q.crowded ensures Solo(q, d) {
      EmitSolo(s, q, t, c, event, after, d);
    }
  }

  lemma EmitSolo(s: System, q: System, t: nat, c: nat, event: Event, after: Continuation, d: nat)
    requires Solo(s, d) && c in s.captures && c in s.emitted && !ThreadOf(s, t).Appending? && !ThreadOf(s, t).Rejected?
    requires q == EmitOn(s, t, c, event, after) && d !in q.crowded
    ensures Solo(q, d)
  {
    assert forall u | u != t :: ThreadOf(q, u) == ThreadOf(s, u);
    assert s.captures[c].enabled ==> InAppend(ThreadOf(q, t), c);
    forall u ensures NextIsHeld(q, d, ThreadOf(q, u)) {
      assert NextIsHeld(s, d, ThreadOf(s, u));
      assert InAppend(ThreadOf(s, u), d) ==> Underway(s, d);
    }
    if q.captures[d].enabled && !Underway(q, d) {
      forall u ensures !InAppend(ThreadOf(s, u), d) {
        assert !InAppend(ThreadOf(q, u), d);
      }
    }
  }
}
