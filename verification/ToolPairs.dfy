// Repair of broken tool pairs: one pass over the turns that edits each in place,
// then drops the turns it emptied, which changes who is next to whom.
module ToolPairs {
  import opened Wrappers

  /** A content block: an object with the keys the repair reads, or any other JSON value. */
  datatype Block =
    | Entry(kind: string, id: Option<string>, toolUseId: Option<string>, payload: int)
    | NotAnObject(payload: int)

  datatype Content = BlockList(blocks: seq<Block>) | OtherContent(payload: int)

  datatype Message = Turn(role: string, content: Content, payload: int) | NotATurn(payload: int)

  function Blocks(m: Message): seq<Block> {
    if m.Turn? && m.content.BlockList? then m.content.blocks else []
  }

  function Role(m: Message): string {
    if m.Turn? then m.role else ""
  }

  /** The block has this type and carries this id under the key that type uses. */
  predicate Names(b: Block, kind: string, id: string) {
    b.Entry? && b.kind == kind && Some(id) == if kind == "tool_use" then b.id else b.toolUseId
  }

  /** The string ids of a block list, for one block type. */
  function IdsOf(s: seq<Block>, kind: string): set<string> {
    if s == [] then {}
    else
      var last := s[|s| - 1];
      var key := if last.NotAnObject? then None else if kind == "tool_use" then last.id else last.toolUseId;
      IdsOf(s[..|s| - 1], kind) + if key.Some? && last.kind == kind then {key.value} else {}
  }

  lemma {:induction false} IdsMembers(s: seq<Block>, kind: string)
    ensures forall id :: id in IdsOf(s, kind) <==> exists j :: 0 <= j < |s| && Names(s[j], kind, id)
  {
    if s != [] {
      IdsMembers(s[..|s| - 1], kind);
      forall id ensures id in IdsOf(s, kind) <==> exists j :: 0 <= j < |s| && Names(s[j], kind, id) {
        if exists j :: 0 <= j < |s| && Names(s[j], kind, id) {
          var j :| 0 <= j < |s| && Names(s[j], kind, id);
          if j < |s| - 1 { assert Names(s[..|s| - 1][j], kind, id); }
        }
        if id in IdsOf(s[..|s| - 1], kind) {
          var j :| 0 <= j < |s| - 1 && Names(s[..|s| - 1][j], kind, id);
          assert Names(s[j], kind, id);
        }
        assert id in IdsOf(s, kind) && id !in IdsOf(s[..|s| - 1], kind) ==> Names(s[|s| - 1], kind, id);
      }
    }
  }

  /** The block at j puts its id in the set, and every id in the set has such a block. */
  lemma IdPut(s: seq<Block>, kind: string, b: Block, id: string)
    requires b in s && Names(b, kind, id)
    ensures id in IdsOf(s, kind)
  {
    IdsMembers(s, kind);
    var j :| 0 <= j < |s| && s[j] == b;
  }

  lemma IdFound(s: seq<Block>, kind: string, id: string) returns (j: nat)
    requires id in IdsOf(s, kind)
    ensures j < |s| && s[j] in s && Names(s[j], kind, id)
  {
    IdsMembers(s, kind);
    j :| 0 <= j < |s| && Names(s[j], kind, id);
  }

  function UseIds(m: Message): set<string> {
    IdsOf(Blocks(m), "tool_use")
  }

  function ResultIds(m: Message): set<string> {
    IdsOf(Blocks(m), "tool_result")
  }

  predicate IsCall(m: Message, b: Block) {
    b.Entry? && b.kind == "tool_use" && Role(m) == "assistant"
  }

  predicate IsAnswer(m: Message, b: Block) {
    b.Entry? && b.kind == "tool_result" && Role(m) == "user"
  }

  /** The ids the turn after `m` answers, and the ids the turn before it calls. */
  function AnsweredBy(next: Option<Message>): set<string> {
    if next.Some? && Role(next.value) == "user" then ResultIds(next.value) else {}
  }

  function CalledBy(previous: Option<Message>): set<string> {
    if previous.Some? && Role(previous.value) == "assistant" then UseIds(previous.value) else {}
  }

  function Next(ms: seq<Message>, i: nat): Option<Message> {
    if i + 1 < |ms| then Some(ms[i + 1]) else None
  }

  function Previous(ms: seq<Message>, i: nat): Option<Message> {
    if 0 < i <= |ms| then Some(ms[i - 1]) else None
  }

  predicate Keeps(m: Message, b: Block, answered: set<string>, called: set<string>) {
    if IsCall(m, b) then b.id.Some? && b.id.value in answered
    else if IsAnswer(m, b) then b.toolUseId.Some? && b.toolUseId.value in called
    else true
  }

  // ---- The property both upstream endpoints demand ----

  /** Every call is answered in the very next user turn, every answer was called in the turn before it. */
  ghost predicate Consistent(ms: seq<Message>) {
    forall i | 0 <= i < |ms| :: ConsistentAt(ms, i)
  }

  ghost predicate ConsistentAt(ms: seq<Message>, i: nat)
    requires i < |ms|
  {
    forall b | b in Blocks(ms[i]) :: Keeps(ms[i], b, AnsweredBy(Next(ms, i)), CalledBy(Previous(ms, i)))
  }

  // ---- What one run computes, in terms of the turns as they arrived ----

  function Filter(m: Message, s: seq<Block>, answered: set<string>, called: set<string>): seq<Block> {
    if s == [] then []
    else
      var last := s[|s| - 1];
      Filter(m, s[..|s| - 1], answered, called) + if Keeps(m, last, answered, called) then [last] else []
  }

  lemma {:induction false} FilterMembers(m: Message, s: seq<Block>, answered: set<string>, called: set<string>)
    ensures forall b :: b in Filter(m, s, answered, called) <==> b in s && Keeps(m, b, answered, called)
  {
    if s != [] {
      FilterMembers(m, s[..|s| - 1], answered, called);
      assert s == s[..|s| - 1] + [s[|s| - 1]];
    }
  }

  function CountRemoved(m: Message, s: seq<Block>, answered: set<string>, called: set<string>, calls: bool): nat {
    if s == [] then 0
    else
      var last := s[|s| - 1];
      CountRemoved(m, s[..|s| - 1], answered, called, calls)
      + if !Keeps(m, last, answered, called) && IsCall(m, last) == calls then 1 else 0
  }

  function WithBlocks(m: Message, blocks: seq<Block>): Message {
    if m.Turn? && m.content.BlockList? then m.(content := BlockList(blocks)) else m
  }

  function RepairedTurn(ms: seq<Message>, i: nat): Message
    requires i < |ms|
  {
    WithBlocks(ms[i], Filter(ms[i], Blocks(ms[i]), AnsweredBy(Next(ms, i)), CalledBy(Previous(ms, i))))
  }

  function Repaired(ms: seq<Message>): (r: seq<Message>)
    ensures |r| == |ms|
    ensures forall i | 0 <= i < |ms| :: r[i] == RepairedTurn(ms, i)
  {
    seq(|ms|, i requires 0 <= i < |ms| => RepairedTurn(ms, i))
  }

  function RemovedAt(ms: seq<Message>, i: nat, calls: bool): nat
    requires i < |ms|
  {
    CountRemoved(ms[i], Blocks(ms[i]), AnsweredBy(Next(ms, i)), CalledBy(Previous(ms, i)), calls)
  }

  function Removals(ms: seq<Message>, calls: bool): (counts: seq<nat>)
    ensures |counts| == |ms|
  {
    seq(|ms|, i requires 0 <= i < |ms| => RemovedAt(ms, i, calls))
  }

  function SumFirst(counts: seq<nat>, n: nat): nat
    requires n <= |counts|
  {
    if n == 0 then 0 else SumFirst(counts, n - 1) + counts[n - 1]
  }

  /** Orphan calls (or orphan answers) in the first n turns. */
  function RemovedBefore(ms: seq<Message>, n: nat, calls: bool): nat
    requires n <= |ms|
  {
    SumFirst(Removals(ms, calls), n)
  }

  /** The turn had blocks and the repair left it none. */
  predicate EmptiedAt(ms: seq<Message>, i: nat)
    requires i < |ms|
  {
    Blocks(ms[i]) != [] && Blocks(RepairedTurn(ms, i)) == []
  }

  function Emptied(ms: seq<Message>): (flags: seq<bool>)
    ensures |flags| == |ms|
  {
    seq(|ms|, i requires 0 <= i < |ms| => EmptiedAt(ms, i))
  }

  /** The indexes below n that are flagged. */
  function Flagged(flags: seq<bool>, n: nat): seq<nat>
    requires n <= |flags|
  {
    if n == 0 then [] else Flagged(flags, n - 1) + if flags[n - 1] then [n - 1] else []
  }

  lemma {:induction false} FlaggedMembers(flags: seq<bool>, n: nat)
    requires n <= |flags|
    ensures forall i: nat :: i in Flagged(flags, n) <==> i < n && flags[i]
    ensures |Flagged(flags, n)| <= n
  {
    if n > 0 {
      FlaggedMembers(flags, n - 1);
    }
  }

  /** The turns whose index (counted from `at`) is not doomed. */
  function Without(ms: seq<Message>, doomed: set<nat>, at: nat): (r: seq<Message>)
    ensures |r| <= |ms|
  {
    if ms == [] then []
    else (if at in doomed then [] else [ms[0]]) + Without(ms[1..], doomed, at + 1)
  }

  function ElementsOf(s: seq<nat>): set<nat> {
    set i | i in s
  }

  function AfterDrop(ms: seq<Message>, emptied: seq<nat>): seq<Message> {
    if emptied == [] || |emptied| == |ms| then ms else Without(ms, ElementsOf(emptied), 0)
  }

  /** The whole repair: the turns it leaves. */
  function Repair(ms: seq<Message>): seq<Message> {
    AfterDrop(Repaired(ms), Flagged(Emptied(ms), |ms|))
  }

  // ---- The operation, as the source runs it ----

  /** The turns before n are edited, the rest are as they arrived. */
  ghost predicate HalfRepaired(was: seq<Message>, now: seq<Message>, n: nat) {
    |now| == |was| && forall j | 0 <= j < |was| :: now[j] == if j < n then RepairedTurn(was, j) else was[j]
  }

  class Conversation {
    var messages: seq<Message>

    constructor (messages: seq<Message>)
      ensures this.messages == messages
    {
      this.messages := messages;
    }

    /** Edits every turn in place, reading an already-edited predecessor and a not-yet-edited successor. */
    method RepairToolPairs() returns (orphanUses: nat, orphanResults: nat, dropped: nat)
      modifies this
      ensures messages == Repair(old(messages))
      ensures orphanUses == RemovedBefore(old(messages), |old(messages)|, true)
      ensures orphanResults == RemovedBefore(old(messages), |old(messages)|, false)
      ensures dropped == |old(messages)| - |messages|
    {
      orphanUses, orphanResults := 0, 0;
      var emptied: seq<nat> := [];
      ghost var was := messages;
      for index: nat := 0 to |messages|
        invariant HalfRepaired(was, messages, index)
        invariant orphanUses == RemovedBefore(was, index, true)
        invariant orphanResults == RemovedBefore(was, index, false)
        invariant emptied == Flagged(Emptied(was), index)
      {
        var answered := AnsweredBy(Next(messages, index));
        var called := CalledBy(Previous(messages, index));
        var kept, uses, results := KeepBlocks(messages[index], answered, called);
        TurnRepaired(was, messages, index, kept, uses, results);
        orphanUses, orphanResults := orphanUses + uses, orphanResults + results;
        if Blocks(messages[index]) != [] && kept == [] {
          emptied := emptied + [index];
        }
        messages := messages[index := WithBlocks(messages[index], kept)];
      }
      AllRepaired(was, messages);
      FlaggedInRange(Emptied(was), |was|);
      dropped := Drop(emptied);
    }

    /** Removes the named turns, unless that would leave none. */
    method Drop(indexes: seq<nat>) returns (dropped: nat)
      requires forall i | i in indexes :: i < |messages|
      modifies this
      ensures messages == AfterDrop(old(messages), indexes)
      ensures dropped == |old(messages)| - |messages|
    {
      if indexes == [] || |indexes| == |messages| {
        return 0;
      }
      var doomed := ElementsOf(indexes);
      WithoutCountsAll(messages, doomed);
      messages := Without(messages, doomed, 0);
      return |doomed|;
    }
  }

  lemma AllRepaired(was: seq<Message>, now: seq<Message>)
    requires HalfRepaired(was, now, |was|)
    ensures now == Repaired(was)
  {
  }

  lemma {:induction false} FlaggedInRange(flags: seq<bool>, n: nat)
    requires n <= |flags|
    ensures forall i | i in Flagged(flags, n) :: i < n
  {
    FlaggedMembers(flags, n);
  }

  /** One turn's blocks, kept or counted as an orphan call or answer. */
  method KeepBlocks(m: Message, answered: set<string>, called: set<string>)
    returns (kept: seq<Block>, uses: nat, results: nat)
    ensures kept == Filter(m, Blocks(m), answered, called)
    ensures uses == CountRemoved(m, Blocks(m), answered, called, true)
    ensures results == CountRemoved(m, Blocks(m), answered, called, false)
  {
    kept, uses, results := [], 0, 0;
    var before := Blocks(m);
    for j := 0 to |before|
      invariant kept == Filter(m, before[..j], answered, called)
      invariant uses == CountRemoved(m, before[..j], answered, called, true)
      invariant results == CountRemoved(m, before[..j], answered, called, false)
    {
      assert before[..j + 1][..j] == before[..j];
      var block := before[j];
      if IsCall(m, block) {
        if block.id.None? || block.id.value !in answered {
          uses := uses + 1;
          continue;
        }
      } else if IsAnswer(m, block) {
        if block.toolUseId.None? || block.toolUseId.value !in called {
          results := results + 1;
          continue;
        }
      }
      kept := kept + [block];
    }
    assert before[..|before|] == before;
  }

  lemma {:induction false} WithoutCounts(ms: seq<Message>, doomed: set<nat>, at: nat)
    ensures |Without(ms, doomed, at)| == |ms| - |set i: nat | at <= i < at + |ms| && i in doomed|
  {
    var here := set i: nat | at <= i < at + |ms| && i in doomed;
    if ms == [] {
      assert here == {};
    } else {
      WithoutCounts(ms[1..], doomed, at + 1);
      var later := set i: nat | at + 1 <= i < at + 1 + |ms[1..]| && i in doomed;
      assert here == later + if at in doomed then {at} else {};
    }
  }

  lemma WithoutCountsAll(ms: seq<Message>, doomed: set<nat>)
    requires forall i | i in doomed :: i < |ms|
    ensures |Without(ms, doomed, 0)| == |ms| - |doomed|
  {
    WithoutCounts(ms, doomed, 0);
    assert (set i: nat | 0 <= i < 0 + |ms| && i in doomed) == doomed;
  }

  /**
   * Reading the predecessor after its own edit gives the same answers as reading it untouched:
   * an id this turn answers is one the edit kept.
   */
  lemma EditedPredecessorSuffices(was: seq<Message>, now: seq<Message>, i: nat)
    requires i < |was| && HalfRepaired(was, now, i)
    ensures var m, answered, called := now[i], AnsweredBy(Next(now, i)), CalledBy(Previous(now, i));
      var kept := Filter(m, Blocks(m), answered, called);
      && RepairedTurn(was, i) == WithBlocks(m, kept)
      && RemovedBefore(was, i + 1, true) == RemovedBefore(was, i, true) + CountRemoved(m, Blocks(m), answered, called, true)
      && RemovedBefore(was, i + 1, false) == RemovedBefore(was, i, false) + CountRemoved(m, Blocks(m), answered, called, false)
      && Emptied(was)[i] == (Blocks(m) != [] && kept == [])
  {
    var m, answered, original := was[i], AnsweredBy(Next(was, i)), CalledBy(Previous(was, i));
    var called := CalledBy(Previous(now, i));
    assert Next(now, i) == Next(was, i);
    forall b | b in Blocks(m) ensures Keeps(m, b, answered, called) == Keeps(m, b, answered, original) {
      if i > 0 && IsAnswer(m, b) && b.toolUseId.Some? {
        IdPut(Blocks(m), "tool_result", b, b.toolUseId.value);
        assert Next(was, i - 1) == Some(m);
        EditKeepsAnsweredCalls(was, i - 1, b.toolUseId.value);
      }
    }
    FilterAgrees(m, Blocks(m), answered, called, original);
  }

  lemma TurnRepaired(was: seq<Message>, now: seq<Message>, i: nat, kept: seq<Block>, uses: nat, results: nat)
    requires i < |was| && HalfRepaired(was, now, i)
    requires var m, answered, called := now[i], AnsweredBy(Next(now, i)), CalledBy(Previous(now, i));
      && kept == Filter(m, Blocks(m), answered, called)
      && uses == CountRemoved(m, Blocks(m), answered, called, true)
      && results == CountRemoved(m, Blocks(m), answered, called, false)
    ensures HalfRepaired(was, now[i := WithBlocks(now[i], kept)], i + 1)
    ensures RemovedBefore(was, i + 1, true) == RemovedBefore(was, i, true) + uses
    ensures RemovedBefore(was, i + 1, false) == RemovedBefore(was, i, false) + results
    ensures Flagged(Emptied(was), i + 1) == Flagged(Emptied(was), i) + if Blocks(now[i]) != [] && kept == [] then [i] else []
  {
    EditedPredecessorSuffices(was, now, i);
  }

  lemma EditKeepsAnsweredCalls(ms: seq<Message>, i: nat, id: string)
    requires i < |ms| && id in AnsweredBy(Next(ms, i))
    ensures id in CalledBy(Some(RepairedTurn(ms, i))) <==> id in CalledBy(Some(ms[i]))
  {
    var m, edited := ms[i], RepairedTurn(ms, i);
    RepairedBlocks(ms, i);
    if id in UseIds(m) && Role(m) == "assistant" {
      var j := IdFound(Blocks(m), "tool_use", id);
      assert Keeps(m, Blocks(m)[j], AnsweredBy(Next(ms, i)), CalledBy(Previous(ms, i)));
      IdPut(Blocks(edited), "tool_use", Blocks(m)[j], id);
    }
    if id in UseIds(edited) {
      var j := IdFound(Blocks(edited), "tool_use", id);
      IdPut(Blocks(m), "tool_use", Blocks(edited)[j], id);
    }
  }

  lemma RepairedBlocks(ms: seq<Message>, i: nat)
    requires i < |ms|
    ensures Role(RepairedTurn(ms, i)) == Role(ms[i])
    ensures forall b :: b in Blocks(RepairedTurn(ms, i)) <==>
      b in Blocks(ms[i]) && Keeps(ms[i], b, AnsweredBy(Next(ms, i)), CalledBy(Previous(ms, i)))
  {
    FilterMembers(ms[i], Blocks(ms[i]), AnsweredBy(Next(ms, i)), CalledBy(Previous(ms, i)));
  }

  lemma {:induction false} FilterAgrees(m: Message, s: seq<Block>, answered: set<string>, called: set<string>, other: set<string>)
    requires forall b | b in s :: Keeps(m, b, answered, called) == Keeps(m, b, answered, other)
    ensures Filter(m, s, answered, called) == Filter(m, s, answered, other)
    ensures CountRemoved(m, s, answered, called, true) == CountRemoved(m, s, answered, other, true)
    ensures CountRemoved(m, s, answered, called, false) == CountRemoved(m, s, answered, other, false)
  {
    if s != [] {
      FilterAgrees(m, s[..|s| - 1], answered, called, other);
      assert s[|s| - 1] in s;
    }
  }

  // ---- The repaired conversation is consistent, on its new adjacency ----

  lemma RepairedIsConsistent(ms: seq<Message>)
    ensures Consistent(Repaired(ms))
  {
    var r := Repaired(ms);
    forall i | 0 <= i < |r| ensures ConsistentAt(r, i) {
      RepairedBlocks(ms, i);
      forall b | b in Blocks(r[i]) ensures Keeps(r[i], b, AnsweredBy(Next(r, i)), CalledBy(Previous(r, i))) {
        assert Keeps(ms[i], b, AnsweredBy(Next(ms, i)), CalledBy(Previous(ms, i)));
        if IsCall(ms[i], b) {
          CallSurvives(ms, i, b);
        } else if IsAnswer(ms[i], b) {
          AnswerSurvives(ms, i, b);
        }
      }
    }
  }

  lemma CallSurvives(ms: seq<Message>, i: nat, b: Block)
    requires i < |ms| && b in Blocks(ms[i]) && IsCall(ms[i], b)
    requires b.id.Some? && b.id.value in AnsweredBy(Next(ms, i))
    ensures b.id.value in AnsweredBy(Next(Repaired(ms), i))
  {
    var id, next := b.id.value, ms[i + 1];
    IdPut(Blocks(ms[i]), "tool_use", b, id);
    var j := IdFound(Blocks(next), "tool_result", id);
    var a := Blocks(next)[j];
    assert Previous(ms, i + 1) == Some(ms[i]);
    assert Keeps(next, a, AnsweredBy(Next(ms, i + 1)), CalledBy(Previous(ms, i + 1)));
    RepairedBlocks(ms, i + 1);
    IdPut(Blocks(RepairedTurn(ms, i + 1)), "tool_result", a, id);
  }

  lemma AnswerSurvives(ms: seq<Message>, i: nat, b: Block)
    requires i < |ms| && b in Blocks(ms[i]) && IsAnswer(ms[i], b)
    requires b.toolUseId.Some? && b.toolUseId.value in CalledBy(Previous(ms, i))
    ensures b.toolUseId.value in CalledBy(Previous(Repaired(ms), i))
  {
    IdPut(Blocks(ms[i]), "tool_result", b, b.toolUseId.value);
    assert Next(ms, i - 1) == Some(ms[i]);
    EditKeepsAnsweredCalls(ms, i - 1, b.toolUseId.value);
  }

  /** Two neighbours (or the ends of the conversation) pair up. */
  ghost predicate Linked(a: Option<Message>, b: Option<Message>) {
    && (a.Some? ==> forall c | c in Blocks(a.value) && IsCall(a.value, c) :: c.id.Some? && c.id.value in AnsweredBy(b))
    && (b.Some? ==> forall c | c in Blocks(b.value) && IsAnswer(b.value, c) :: c.toolUseId.Some? && c.toolUseId.value in CalledBy(a))
  }

  ghost predicate LinkedFrom(previous: Option<Message>, ms: seq<Message>)
    decreases |ms|
  {
    if ms == [] then Linked(previous, None)
    else Linked(previous, Some(ms[0])) && LinkedFrom(Some(ms[0]), ms[1..])
  }

  lemma {:induction false} ConsistentIsLinked(whole: seq<Message>, k: nat)
    requires k <= |whole|
    ensures (forall i | k <= i <= |whole| :: Linked(Previous(whole, i), if i < |whole| then Some(whole[i]) else None))
       <==> LinkedFrom(Previous(whole, k), whole[k..])
    decreases |whole| - k
  {
    if k < |whole| {
      ConsistentIsLinked(whole, k + 1);
      assert whole[k..][0] == whole[k] && whole[k..][1..] == whole[k + 1..];
      assert Previous(whole, k + 1) == Some(whole[k]);
    }
  }

  lemma ConsistentIffLinked(ms: seq<Message>)
    ensures Consistent(ms) <==> LinkedFrom(None, ms)
  {
    ConsistentIsLinked(ms, 0);
    assert ms[0..] == ms;
    if Consistent(ms) {
      forall i | 0 <= i <= |ms| ensures Linked(Previous(ms, i), if i < |ms| then Some(ms[i]) else None) {
        if i > 0 { assert ConsistentAt(ms, i - 1); }
        if i < |ms| { assert ConsistentAt(ms, i); }
      }
    }
    if LinkedFrom(None, ms) {
      forall i | 0 <= i < |ms| ensures ConsistentAt(ms, i) {
        assert Linked(Previous(ms, i), Some(ms[i]));
        assert Linked(Previous(ms, i + 1), Next(ms, i));
      }
    }
  }

  lemma EmptyTurnBetween(a: Option<Message>, empty: Message, b: Option<Message>)
    requires Blocks(empty) == [] && Linked(a, Some(empty)) && Linked(Some(empty), b)
    ensures Linked(a, b)
  {
  }

  /** Dropping turns that hold no blocks keeps every pair next to each other. */
  lemma {:induction false} DropKeepsLinks(previous: Option<Message>, ms: seq<Message>, doomed: set<nat>, at: nat)
    requires LinkedFrom(previous, ms)
    requires forall i | 0 <= i < |ms| && at + i in doomed :: Blocks(ms[i]) == []
    ensures LinkedFrom(previous, Without(ms, doomed, at))
    decreases |ms|
  {
    if ms != [] {
      if at in doomed {
        assert at + 0 in doomed && Blocks(ms[0]) == [];
        EmptyTurnBetween(previous, ms[0], if ms[1..] == [] then None else Some(ms[1..][0]));
        forall i | 0 <= i < |ms[1..]| && at + 1 + i in doomed ensures Blocks(ms[1..][i]) == [] {
          assert at + (i + 1) in doomed;
        }
        DropKeepsLinks(previous, ms[1..], doomed, at + 1);
        assert Without(ms, doomed, at) == Without(ms[1..], doomed, at + 1);
      } else {
        forall i | 0 <= i < |ms[1..]| && at + 1 + i in doomed ensures Blocks(ms[1..][i]) == [] {
          assert at + (i + 1) in doomed;
        }
        DropKeepsLinks(Some(ms[0]), ms[1..], doomed, at + 1);
      }
    }
  }

  lemma DropIsConsistent(r: seq<Message>, indexes: seq<nat>)
    requires Consistent(r)
    requires forall i | i in indexes :: i < |r| && Blocks(r[i]) == []
    ensures Consistent(AfterDrop(r, indexes))
  {
    var doomed := ElementsOf(indexes);
    ConsistentIffLinked(r);
    DropKeepsLinks(None, r, doomed, 0);
    ConsistentIffLinked(Without(r, doomed, 0));
  }

  /** What the repair leaves is consistent, after the drop has made new neighbours. */
  lemma RepairIsConsistent(ms: seq<Message>)
    ensures Consistent(Repair(ms))
  {
    RepairedIsConsistent(ms);
    FlaggedMembers(Emptied(ms), |ms|);
    DropIsConsistent(Repaired(ms), Flagged(Emptied(ms), |ms|));
  }

  // ---- Nothing more than necessary is removed ----

  /** A choice of blocks to keep: (turn, block) positions. */
  type Selection = set<(nat, nat)>

  ghost predicate IsPosition(ms: seq<Message>, p: (nat, nat)) {
    p.0 < |ms| && p.1 < |Blocks(ms[p.0])|
  }

  /** Within the selection, every call is answered next and every answer was called before. */
  ghost predicate ConsistentSelection(ms: seq<Message>, k: Selection) {
    forall p {:trigger PairedIn(ms, k, p)} | p in k :: PairedIn(ms, k, p)
  }

  ghost predicate PairedIn(ms: seq<Message>, k: Selection, p: (nat, nat)) {
    && IsPosition(ms, p)
    && var b := Blocks(ms[p.0])[p.1];
    && (IsCall(ms[p.0], b) ==> exists q :: q in k && q.0 == p.0 + 1 && IsPosition(ms, q) && Answers(ms, q, b.id))
    && (IsAnswer(ms[p.0], b) ==> exists q :: q in k && q.0 + 1 == p.0 && IsPosition(ms, q) && Calls(ms, q, b.toolUseId))
  }

  ghost predicate Answers(ms: seq<Message>, q: (nat, nat), id: Option<string>)
    requires IsPosition(ms, q)
  {
    var a := Blocks(ms[q.0])[q.1];
    IsAnswer(ms[q.0], a) && id.Some? && a.toolUseId == id
  }

  ghost predicate Calls(ms: seq<Message>, q: (nat, nat), id: Option<string>)
    requires IsPosition(ms, q)
  {
    var c := Blocks(ms[q.0])[q.1];
    IsCall(ms[q.0], c) && id.Some? && c.id == id
  }

  ghost predicate KeptAt(ms: seq<Message>, p: (nat, nat))
    requires IsPosition(ms, p)
  {
    Keeps(ms[p.0], Blocks(ms[p.0])[p.1], AnsweredBy(Next(ms, p.0)), CalledBy(Previous(ms, p.0)))
  }

  /** The positions the repair keeps contain every consistent selection there is. */
  lemma RepairKeepsTheMost(ms: seq<Message>, k: Selection, p: (nat, nat))
    requires ConsistentSelection(ms, k) && p in k
    ensures PairedIn(ms, k, p) && KeptAt(ms, p)
  {
    assert PairedIn(ms, k, p);
    var m := ms[p.0];
    var b := Blocks(m)[p.1];
    if IsCall(m, b) {
      var q :| q in k && q.0 == p.0 + 1 && IsPosition(ms, q) && Answers(ms, q, b.id);
      AnswerFound(ms[q.0], q.1, b.id);
      assert Next(ms, p.0) == Some(ms[q.0]);
    } else if IsAnswer(m, b) {
      var q :| q in k && q.0 + 1 == p.0 && IsPosition(ms, q) && Calls(ms, q, b.toolUseId);
      CallFound(ms[q.0], q.1, b.toolUseId);
      assert Previous(ms, p.0) == Some(ms[q.0]);
    }
  }

  lemma AnswerFound(m: Message, j: nat, id: Option<string>)
    requires j < |Blocks(m)| && IsAnswer(m, Blocks(m)[j]) && id.Some? && Blocks(m)[j].toolUseId == id
    ensures id.value in AnsweredBy(Some(m))
  {
    IdPut(Blocks(m), "tool_result", Blocks(m)[j], id.value);
  }

  lemma CallFound(m: Message, j: nat, id: Option<string>)
    requires j < |Blocks(m)| && IsCall(m, Blocks(m)[j]) && id.Some? && Blocks(m)[j].id == id
    ensures id.value in CalledBy(Some(m))
  {
    IdPut(Blocks(m), "tool_use", Blocks(m)[j], id.value);
  }

  /** And they are themselves a consistent selection, so they are the greatest one. */
  lemma KeptIsConsistentSelection(ms: seq<Message>, k: Selection)
    requires forall p :: p in k <==> IsPosition(ms, p) && KeptAt(ms, p)
    ensures ConsistentSelection(ms, k)
  {
    forall p | p in k ensures PairedIn(ms, k, p) {
      var b := Blocks(ms[p.0])[p.1];
      if IsCall(ms[p.0], b) {
        KeptCallIsAnswered(ms, k, p);
      } else if IsAnswer(ms[p.0], b) {
        KeptAnswerIsCalled(ms, k, p);
      }
    }
  }

  lemma KeptCallIsAnswered(ms: seq<Message>, k: Selection, p: (nat, nat))
    requires forall p :: p in k <==> IsPosition(ms, p) && KeptAt(ms, p)
    requires p in k && IsPosition(ms, p) && IsCall(ms[p.0], Blocks(ms[p.0])[p.1])
    ensures PairedIn(ms, k, p)
  {
    var b := Blocks(ms[p.0])[p.1];
    IdPut(Blocks(ms[p.0]), "tool_use", b, b.id.value);
    var j := IdFound(Blocks(ms[p.0 + 1]), "tool_result", b.id.value);
    var q: (nat, nat) := (p.0 + 1, j);
    assert Previous(ms, q.0) == Some(ms[p.0]);
    assert KeptAt(ms, q) && Answers(ms, q, b.id);
  }

  lemma KeptAnswerIsCalled(ms: seq<Message>, k: Selection, p: (nat, nat))
    requires forall p :: p in k <==> IsPosition(ms, p) && KeptAt(ms, p)
    requires p in k && IsPosition(ms, p) && IsAnswer(ms[p.0], Blocks(ms[p.0])[p.1])
    ensures PairedIn(ms, k, p)
  {
    var b := Blocks(ms[p.0])[p.1];
    IdPut(Blocks(ms[p.0]), "tool_result", b, b.toolUseId.value);
    var j := IdFound(Blocks(ms[p.0 - 1]), "tool_use", b.toolUseId.value);
    var q: (nat, nat) := (p.0 - 1, j);
    assert Next(ms, q.0) == Some(ms[p.0]);
    assert KeptAt(ms, q) && Calls(ms, q, b.toolUseId);
  }

  // ---- Running it again does nothing ----

  lemma {:induction false} FilterKeepsAll(m: Message, s: seq<Block>, answered: set<string>, called: set<string>)
    requires forall b | b in s :: Keeps(m, b, answered, called)
    ensures Filter(m, s, answered, called) == s
    ensures CountRemoved(m, s, answered, called, true) == 0 && CountRemoved(m, s, answered, called, false) == 0
  {
    if s != [] {
      var init, last := s[..|s| - 1], s[|s| - 1];
      assert last in s && Keeps(m, last, answered, called);
      FilterKeepsAll(m, init, answered, called);
      assert Filter(m, s, answered, called) == init + [last] == s;
    }
  }

  lemma {:induction false} SumOfZeros(counts: seq<nat>, n: nat)
    requires n <= |counts| && forall i | 0 <= i < n :: counts[i] == 0
    ensures SumFirst(counts, n) == 0
  {
    if n > 0 { SumOfZeros(counts, n - 1); }
  }

  /** A consistent conversation passes through the repair untouched and uncounted. */
  lemma ConsistentIsFixed(ms: seq<Message>)
    requires Consistent(ms)
    ensures Repair(ms) == ms
    ensures RemovedBefore(ms, |ms|, true) == 0 && RemovedBefore(ms, |ms|, false) == 0
  {
    forall i | 0 <= i < |ms|
      ensures RepairedTurn(ms, i) == ms[i] && RemovedAt(ms, i, true) == 0 && RemovedAt(ms, i, false) == 0 && !EmptiedAt(ms, i)
    {
      assert ConsistentAt(ms, i);
      FilterKeepsAll(ms[i], Blocks(ms[i]), AnsweredBy(Next(ms, i)), CalledBy(Previous(ms, i)));
    }
    SumOfZeros(Removals(ms, true), |ms|);
    SumOfZeros(Removals(ms, false), |ms|);
    NothingChanged(ms);
  }

  lemma NothingChanged(ms: seq<Message>)
    requires forall i | 0 <= i < |ms| :: RepairedTurn(ms, i) == ms[i] && !EmptiedAt(ms, i)
    ensures Repair(ms) == ms
  {
    assert Repaired(ms) == ms;
    NoneFlagged(Emptied(ms), |ms|);
  }

  lemma {:induction false} NoneFlagged(flags: seq<bool>, n: nat)
    requires n <= |flags| && forall i | 0 <= i < n :: !flags[i]
    ensures Flagged(flags, n) == []
  {
    if n > 0 { NoneFlagged(flags, n - 1); }
  }

  /** So a second run returns (0, 0, 0) and changes nothing. */
  lemma SecondRunDoesNothing(ms: seq<Message>)
    ensures var r := Repair(ms);
      Repair(r) == r && RemovedBefore(r, |r|, true) == 0 && RemovedBefore(r, |r|, false) == 0
  {
    RepairIsConsistent(ms);
    ConsistentIsFixed(Repair(ms));
  }

  // ---- The counts, and what is left alone ----

  /** Every block of the conversation, in order. */
  function AllBlocks(ms: seq<Message>): seq<Block> {
    if ms == [] then [] else Blocks(ms[0]) + AllBlocks(ms[1..])
  }

  /** Every block that is neither a call nor an answer, in order. */
  function OtherBlocks(ms: seq<Message>): seq<Block> {
    if ms == [] then [] else Filter(ms[0], Blocks(ms[0]), {}, {}) + OtherBlocks(ms[1..])
  }

  lemma {:induction false} AllBlocksAppend(ms: seq<Message>, m: Message)
    ensures |AllBlocks(ms + [m])| == |AllBlocks(ms)| + |Blocks(m)|
  {
    if ms == [] {
      assert [m][1..] == [];
    } else {
      AllBlocksAppend(ms[1..], m);
      assert (ms + [m])[1..] == ms[1..] + [m];
    }
  }

  lemma OneMoreTurn(ms: seq<Message>, i: nat)
    requires i < |ms|
    ensures |AllBlocks(ms[..i + 1])| == |AllBlocks(ms[..i])| + |Blocks(ms[i])|
  {
    assert ms[..i + 1] == ms[..i] + [ms[i]];
    AllBlocksAppend(ms[..i], ms[i]);
  }

  lemma {:induction false} FilterPlusRemoved(m: Message, s: seq<Block>, answered: set<string>, called: set<string>)
    ensures |Filter(m, s, answered, called)| + CountRemoved(m, s, answered, called, true)
      + CountRemoved(m, s, answered, called, false) == |s|
  {
    if s != [] {
      FilterPlusRemoved(m, s[..|s| - 1], answered, called);
    }
  }

  lemma {:induction false} SizesAddUp(was: seq<Message>, now: seq<Message>, a: seq<nat>, b: seq<nat>, n: nat)
    requires n <= |was| == |now| == |a| == |b|
    requires forall i | 0 <= i < |was| :: |Blocks(now[i])| + a[i] + b[i] == |Blocks(was[i])|
    ensures |AllBlocks(now[..n])| + SumFirst(a, n) + SumFirst(b, n) == |AllBlocks(was[..n])|
  {
    if n > 0 {
      var i := n - 1;
      SizesAddUp(was, now, a, b, i);
      OneMoreTurn(was, i);
      OneMoreTurn(now, i);
    }
  }

  lemma {:induction false} DropKeepsBlocks(ms: seq<Message>, doomed: set<nat>, at: nat)
    requires forall i | 0 <= i < |ms| && at + i in doomed :: Blocks(ms[i]) == []
    ensures AllBlocks(Without(ms, doomed, at)) == AllBlocks(ms)
    ensures OtherBlocks(Without(ms, doomed, at)) == OtherBlocks(ms)
    decreases |ms|
  {
    if ms != [] {
      forall i | 0 <= i < |ms[1..]| && at + 1 + i in doomed ensures Blocks(ms[1..][i]) == [] {
        assert at + (i + 1) in doomed;
      }
      DropKeepsBlocks(ms[1..], doomed, at + 1);
      var rest := Without(ms[1..], doomed, at + 1);
      if at in doomed {
        assert at + 0 in doomed && Blocks(ms[0]) == [];
        assert Without(ms, doomed, at) == rest;
      } else {
        assert Without(ms, doomed, at) == [ms[0]] + rest;
        assert ([ms[0]] + rest)[1..] == rest;
      }
    }
  }

  lemma EmptiedTurnsAreEmpty(ms: seq<Message>)
    ensures forall i | i in Flagged(Emptied(ms), |ms|) :: i < |ms| && Blocks(Repaired(ms)[i]) == []
  {
    FlaggedMembers(Emptied(ms), |ms|);
  }

  /** Blocks before = blocks after + orphan calls + orphan answers: only orphans are removed, and each is counted. */
  lemma CountsAddUp(ms: seq<Message>)
    ensures |AllBlocks(Repair(ms))| + RemovedBefore(ms, |ms|, true) + RemovedBefore(ms, |ms|, false) == |AllBlocks(ms)|
  {
    var r := Repaired(ms);
    var uses, results := Removals(ms, true), Removals(ms, false);
    forall i | 0 <= i < |ms| ensures |Blocks(r[i])| + uses[i] + results[i] == |Blocks(ms[i])| {
      FilterPlusRemoved(ms[i], Blocks(ms[i]), AnsweredBy(Next(ms, i)), CalledBy(Previous(ms, i)));
    }
    SizesAddUp(ms, r, uses, results, |ms|);
    assert ms[..|ms|] == ms && r[..|ms|] == r;
    RepairKeepsBlocks(ms);
  }

  lemma RepairKeepsBlocks(ms: seq<Message>)
    ensures AllBlocks(Repair(ms)) == AllBlocks(Repaired(ms)) && OtherBlocks(Repair(ms)) == OtherBlocks(Repaired(ms))
  {
    EmptiedTurnsAreEmpty(ms);
    DropKeepsBlocks(Repaired(ms), ElementsOf(Flagged(Emptied(ms), |ms|)), 0);
  }

  lemma {:induction false} FilterTwice(m: Message, n: Message, s: seq<Block>, answered: set<string>, called: set<string>)
    requires Role(m) == Role(n)
    ensures Filter(n, Filter(m, s, answered, called), {}, {}) == Filter(m, s, {}, {})
  {
    if s != [] {
      var init, last := s[..|s| - 1], s[|s| - 1];
      var f := Filter(m, init, answered, called);
      FilterTwice(m, n, init, answered, called);
      FilterAppend(n, f, last);
      assert Keeps(n, last, {}, {}) == Keeps(m, last, {}, {});
      if !Keeps(m, last, answered, called) {
        assert f + [] == f && Filter(m, init, {}, {}) + [] == Filter(m, init, {}, {});
      }
    }
  }

  lemma FilterAppend(m: Message, s: seq<Block>, b: Block)
    ensures Filter(m, s + [b], {}, {}) == Filter(m, s, {}, {}) + if Keeps(m, b, {}, {}) then [b] else []
  {
    assert (s + [b])[..|s|] == s;
  }

  lemma {:induction false} PassKeepsOthers(was: seq<Message>, now: seq<Message>)
    requires |was| == |now|
    requires forall i | 0 <= i < |was| :: Filter(now[i], Blocks(now[i]), {}, {}) == Filter(was[i], Blocks(was[i]), {}, {})
    ensures OtherBlocks(now) == OtherBlocks(was)
  {
    if was != [] {
      assert now[0] == now[0];
      PassKeepsOthers(was[1..], now[1..]);
    }
  }

  /** Blocks that are neither calls nor answers all survive, in their order. */
  lemma OthersSurviveInOrder(ms: seq<Message>)
    ensures OtherBlocks(Repair(ms)) == OtherBlocks(ms)
  {
    var r := Repaired(ms);
    forall i | 0 <= i < |ms| ensures Filter(r[i], Blocks(r[i]), {}, {}) == Filter(ms[i], Blocks(ms[i]), {}, {}) {
      FilterTwice(ms[i], r[i], Blocks(ms[i]), AnsweredBy(Next(ms, i)), CalledBy(Previous(ms, i)));
    }
    PassKeepsOthers(ms, r);
    RepairKeepsBlocks(ms);
  }

  lemma {:induction false} FlaggedAreDistinct(flags: seq<bool>, n: nat)
    requires n <= |flags|
    ensures |ElementsOf(Flagged(flags, n))| == |Flagged(flags, n)|
  {
    if n > 0 {
      FlaggedAreDistinct(flags, n - 1);
      FlaggedMembers(flags, n - 1);
      var before := Flagged(flags, n - 1);
      if flags[n - 1] {
        ElementsAppend(before, n - 1);
      } else {
        assert before + [] == before;
      }
    }
  }

  lemma ElementsAppend(s: seq<nat>, x: nat)
    requires x !in s
    ensures |ElementsOf(s + [x])| == |ElementsOf(s)| + 1
  {
    assert ElementsOf(s + [x]) == ElementsOf(s) + {x};
  }

  /** The third count: as many turns go as were emptied, unless that is all of them, and then none do. */
  lemma DroppedTurns(ms: seq<Message>)
    ensures var emptied := |Flagged(Emptied(ms), |ms|)|;
      |ms| - |Repair(ms)| == if emptied == |ms| then 0 else emptied
    ensures ms != [] ==> Repair(ms) != []
  {
    var f := Flagged(Emptied(ms), |ms|);
    FlaggedMembers(Emptied(ms), |ms|);
    FlaggedAreDistinct(Emptied(ms), |ms|);
    WithoutCountsAll(Repaired(ms), ElementsOf(f));
  }

  lemma {:induction false} WithoutLast(ms: seq<Message>, last: Message, doomed: set<nat>, at: nat)
    ensures Without(ms + [last], doomed, at) == Without(ms, doomed, at) + if at + |ms| in doomed then [] else [last]
  {
    if ms != [] {
      WithoutLast(ms[1..], last, doomed, at + 1);
      assert (ms + [last])[1..] == ms[1..] + [last] && (ms + [last])[0] == ms[0];
    } else {
      assert ms + [last] == [last];
    }
  }

  /** Of the first n turns those are left that are flagged, in order. */
  lemma {:induction false} WithoutPicks(ms: seq<Message>, doomed: set<nat>, flags: seq<bool>, n: nat)
    requires |flags| == |ms| && n <= |ms| && forall i | 0 <= i < |ms| :: flags[i] <==> i !in doomed
    ensures var kept, left := Flagged(flags, n), Without(ms[..n], doomed, 0);
      && |left| == |kept| && (forall k | 0 <= k < |kept| :: kept[k] < n && left[k] == ms[kept[k]])
      && forall j, k | 0 <= j < k < |kept| :: kept[j] < kept[k]
  {
    if n > 0 {
      WithoutPicks(ms, doomed, flags, n - 1);
      WithoutLast(ms[..n - 1], ms[n - 1], doomed, 0);
      assert ms[..n] == ms[..n - 1] + [ms[n - 1]];
    }
  }

  ghost predicate AllEmptied(ms: seq<Message>) {
    forall i | 0 <= i < |ms| :: EmptiedAt(ms, i)
  }

  /** Which turns the repair leaves: the ones it has not emptied, or all of them if it has emptied all. */
  function Staying(ms: seq<Message>): (flags: seq<bool>)
    ensures |flags| == |ms|
  {
    seq(|ms|, i requires 0 <= i < |ms| => !EmptiedAt(ms, i) || forall j | 0 <= j < |ms| :: EmptiedAt(ms, j))
  }

  /** Exactly the emptied turns go, unless that is all of them: the others stay in order, each as the pass has left it, and
      among them every turn that arrived empty. */
  lemma ExactlyEmptiedTurnsGo(ms: seq<Message>)
    ensures var kept := Flagged(Staying(ms), |ms|);
      && |Repair(ms)| == |kept| && (forall j, k | 0 <= j < k < |kept| :: kept[j] < kept[k])
      && (forall k | 0 <= k < |kept| :: kept[k] < |ms| && Repair(ms)[k] == RepairedTurn(ms, kept[k]))
      && (forall i | 0 <= i < |ms| :: i in kept <==> !EmptiedAt(ms, i) || AllEmptied(ms))
      && forall i | 0 <= i < |ms| && Blocks(ms[i]) == [] :: i in kept
  {
    hide RepairedTurn, EmptiedAt, Without, Repair, Flagged, Doomed, Staying;
    RepairTakesDoomed(ms);
    StayingIsNotDoomed(ms);
    FlaggedMembers(Staying(ms), |ms|);
    WithoutPicks(Repaired(ms), Doomed(ms), Staying(ms), |ms|);
    assert Repaired(ms)[..|ms|] == Repaired(ms);
    assert forall i | 0 <= i < |ms| && Blocks(ms[i]) == [] :: !EmptiedAt(ms, i) by {
      EmptyIsNotEmptied(ms);
    }
  }

  lemma EmptyIsNotEmptied(ms: seq<Message>)
    ensures forall i | 0 <= i < |ms| && Blocks(ms[i]) == [] :: !EmptiedAt(ms, i)
  {
  }

  ghost function Doomed(ms: seq<Message>): set<nat> {
    if AllEmptied(ms) then {} else ElementsOf(Flagged(Emptied(ms), |ms|))
  }

  lemma RepairTakesDoomed(ms: seq<Message>)
    ensures Repair(ms) == Without(Repaired(ms), Doomed(ms), 0)
  {
    hide RepairedTurn, EmptiedAt, AllEmptied, Without, Flagged;
    AllOrSome(ms);
    WithoutNothing(Repaired(ms), 0);
    assert ElementsOf([]) == {};
  }

  lemma StayingIsNotDoomed(ms: seq<Message>)
    ensures forall i | 0 <= i < |ms| :: (Staying(ms)[i] <==> i !in Doomed(ms)) && (Staying(ms)[i] <==> !EmptiedAt(ms, i) || AllEmptied(ms))
  {
    hide EmptiedAt, Flagged;
    FlaggedMembers(Emptied(ms), |ms|);
    assert forall i | 0 <= i < |ms| :: Emptied(ms)[i] == EmptiedAt(ms, i);
  }

  lemma AllOrSome(ms: seq<Message>)
    ensures |Flagged(Emptied(ms), |ms|)| == |ms| <==> AllEmptied(ms)
  {
    if |Flagged(Emptied(ms), |ms|)| == |ms| {
      EveryFlag(Emptied(ms), |ms|);
      assert forall i | 0 <= i < |ms| :: Emptied(ms)[i] == EmptiedAt(ms, i);
    } else if AllEmptied(ms) {
      AllFlagged(Emptied(ms), |ms|);
    }
  }

  lemma {:induction false} WithoutNothing(ms: seq<Message>, at: nat)
    ensures Without(ms, {}, at) == ms
  {
    if ms != [] { WithoutNothing(ms[1..], at + 1); }
  }

  lemma {:induction false} EveryFlag(flags: seq<bool>, n: nat)
    requires n <= |flags| && |Flagged(flags, n)| == n
    ensures forall i | 0 <= i < n :: flags[i]
  {
    if n > 0 {
      FlaggedMembers(flags, n - 1);
      EveryFlag(flags, n - 1);
    }
  }

  /**
   * When every turn is emptied nothing is dropped, but the orphans are gone all the same: each
   * turn is left with no blocks. (The comment on `_drop` says the orphan travels; it does not.)
   */
  lemma AllEmptiedLeavesEmptyTurns(ms: seq<Message>)
    requires forall i | 0 <= i < |ms| :: EmptiedAt(ms, i)
    ensures |Repair(ms)| == |ms| && forall i | 0 <= i < |ms| :: Blocks(ms[i]) != [] && Blocks(Repair(ms)[i]) == []
  {
    AllFlagged(Emptied(ms), |ms|);
    assert Repair(ms) == Repaired(ms);
    forall i | 0 <= i < |ms| ensures Blocks(ms[i]) != [] && Blocks(Repair(ms)[i]) == [] {
      assert EmptiedAt(ms, i);
    }
  }

  lemma OrphanGoes(m: Message, b: Block, called: set<string>)
    requires IsCall(m, b)
    ensures Filter(m, [b], {}, called) == []
  {
    assert [b][..0] == [];
    assert !Keeps(m, b, {}, called);
  }

  /** Any conversation of unanswered calls is an example: assistant turns that each hold one call, with no user turn among them. */
  lemma UnansweredCallsAreAllEmptied(ms: seq<Message>)
    requires forall i | 0 <= i < |ms| :: Role(ms[i]) == "assistant" && |Blocks(ms[i])| == 1 && IsCall(ms[i], Blocks(ms[i])[0])
    ensures AllEmptied(ms) && Repair(ms) == Repaired(ms) && forall i | 0 <= i < |ms| :: Blocks(Repair(ms)[i]) == []
  {
    forall i | 0 <= i < |ms| ensures EmptiedAt(ms, i) {
      assert AnsweredBy(Next(ms, i)) == {};
      OrphanGoes(ms[i], Blocks(ms[i])[0], CalledBy(Previous(ms, i)));
      assert Blocks(ms[i]) == [Blocks(ms[i])[0]];
    }
    AllEmptiedLeavesEmptyTurns(ms);
    AllFlagged(Emptied(ms), |ms|);
  }

  /** The shortest: one turn, one call. */
  lemma OneUnansweredCall(id: string, payload: int) returns (ms: seq<Message>)
    ensures |ms| == 1 && Blocks(ms[0]) == [Entry("tool_use", Some(id), None, payload)] && AllEmptied(ms)
    ensures Repair(ms) == [Turn("assistant", BlockList([]), payload)]
  {
    ms := [Turn("assistant", BlockList([Entry("tool_use", Some(id), None, payload)]), payload)];
    UnansweredCallsAreAllEmptied(ms);
  }

  lemma {:induction false} AllFlagged(flags: seq<bool>, n: nat)
    requires n <= |flags| && forall i | 0 <= i < n :: flags[i]
    ensures |Flagged(flags, n)| == n
  {
    if n > 0 { AllFlagged(flags, n - 1); }
  }
}
