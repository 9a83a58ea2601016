/**
 The per-port write window. Its counter and flag refine a plain queue: one slot per write that
 the server has not acknowledged yet.
 */
module Gate {
  import opened Common

  /** A queued resolver: none for a single-shot write, or the `end()` promise of a transaction. */
  datatype Slot = Single | EndOf(txn: string)

  datatype Settlement = Resolved(txn: string) | Rejected(txn: string)

  type Listener = nat

  /** The promises waiting in a queue, in order. */
  function Promises(slots: seq<Slot>): seq<string> {
    if slots == [] then []
    else (if slots[0].EndOf? then [slots[0].txn] else []) + Promises(slots[1..])
  }

  function SettledIds(settled: seq<Settlement>): seq<string> {
    if settled == [] then [] else [settled[0].txn] + SettledIds(settled[1..])
  }

  function Resolutions(slots: seq<Slot>): seq<Settlement> {
    if slots == [] then []
    else (if slots[0].EndOf? then [Resolved(slots[0].txn)] else []) + Resolutions(slots[1..])
  }

  function Rejections(slots: seq<Slot>): seq<Settlement> {
    if slots == [] then []
    else (if slots[0].EndOf? then [Rejected(slots[0].txn)] else []) + Rejections(slots[1..])
  }

  /** The queue after one drain ack; an ack on an empty queue changes nothing. */
  function Acked(queue: seq<Slot>): seq<Slot> {
    if queue == [] then [] else queue[1..]
  }

  /** The slot, if any, that one drain ack settles. */
  function Head(queue: seq<Slot>): seq<Slot> {
    if queue == [] then [] else queue[..1]
  }

  /** With this many slots taken, a window refuses further writes: `write` returns false. */
  predicate Full(window: int, taken: nat) {
    taken >= window
  }

  /** An ack that finds this many slots taken reopens the window and wakes the listeners. */
  predicate Reopens(window: int, taken: nat) {
    taken == window
  }

  /* ------------------------------- the listener loop ------------------------------- */

  /** What a drain listener may do to the gate from inside its call. */
  datatype Op = Takes(slot: Slot) | Attaches(listener: Listener) | Detaches(listener: Listener) | Clears

  /**
   A gate in its listener loop: the registered listeners already called and still to be called, the
   queue, the settlements and the calls. A set under iteration yields what is added to it, and not
   what is removed before its turn.
   */
  datatype Round = Round(
    behind: seq<Listener>,
    ahead: seq<Listener>,
    queue: seq<Slot>,
    settled: seq<Settlement>,
    wakes: seq<Listener>)

  function Without(listeners: seq<Listener>, l: Listener): seq<Listener> {
    if listeners == [] then []
    else (if listeners[0] == l then [] else [listeners[0]]) + Without(listeners[1..], l)
  }

  function Done(r: Round, op: Op): Round {
    match op
    case Takes(slot) => r.(queue := r.queue + [slot])
    case Attaches(l) => if l in r.behind || l in r.ahead then r else r.(ahead := r.ahead + [l])
    case Detaches(l) => r.(behind := Without(r.behind, l), ahead := Without(r.ahead, l))
    case Clears => r.(behind := [], ahead := [], queue := [], settled := r.settled + Rejections(r.queue))
  }

  function DoneAll(r: Round, ops: seq<Op>): Round {
    if ops == [] then r else Done(DoneAll(r, ops[..|ops| - 1]), ops[|ops| - 1])
  }

  function Called(r: Round, ops: seq<Op>): Round
    requires r.ahead != []
  {
    DoneAll(Turned(r), ops)
  }

  /** The whole loop; `script` says what each call does, and calls beyond it do nothing. */
  function Woken(r: Round, script: seq<seq<Op>>): Round
    decreases |script|, |r.ahead|
  {
    if r.ahead == [] then r
    else if script == [] then Woken(Called(r, []), [])
    else Woken(Called(r, script[0]), script[1..])
  }

  function FirstOps(script: seq<seq<Op>>): seq<Op> {
    if script == [] then [] else script[0]
  }

  function OtherOps(script: seq<seq<Op>>): seq<seq<Op>> {
    if script == [] then [] else script[1..]
  }

  /** The next listener is called; what it does comes after. */
  function Turned(r: Round): Round
    requires r.ahead != []
  {
    r.(behind := r.behind + r.ahead[..1], ahead := r.ahead[1..], wakes := r.wakes + r.ahead[..1])
  }

  lemma NothingDone(r: Round, ops: seq<Op>)
    ensures DoneAll(r, ops[..0]) == r && SlotsTaken(ops[..0]) == []
  {
  }

  lemma DoneNext(r: Round, ops: seq<Op>, i: nat)
    requires i < |ops|
    ensures DoneAll(r, ops[..i + 1]) == Done(DoneAll(r, ops[..i]), ops[i])
  {
    assert ops[..i + 1][..i] == ops[..i];
  }

  lemma WokenNext(r: Round, script: seq<seq<Op>>)
    requires r.ahead != []
    ensures Woken(r, script) == Woken(DoneAll(Turned(r), FirstOps(script)), OtherOps(script))
  {
  }

  lemma WokenNobody(r: Round, script: seq<seq<Op>>)
    requires r.ahead == []
    ensures Woken(r, script) == r
  {
  }

  /** A gate between loops. */
  datatype State = State(listeners: seq<Listener>, queue: seq<Slot>, settled: seq<Settlement>, wakes: seq<Listener>)

  /** One drain: the oldest slot is freed, its promise resolved, and the listeners called on the edge. */
  function AfterAck(window: int, s: State, script: seq<seq<Op>>): State {
    var r := Round([], s.listeners, Acked(s.queue), s.settled + Resolutions(Head(s.queue)), s.wakes);
    if !Reopens(window, |s.queue|) then State(s.listeners, r.queue, r.settled, r.wakes)
    else
      var end := Woken(r, script);
      State(end.behind, end.queue, end.settled, end.wakes)
  }

  /** What one operation changes, and what not. */
  lemma WhatAnOpDoes(r: Round, op: Op)
    requires Distinct(r.behind + r.ahead)
    ensures Done(r, op).wakes == r.wakes
    ensures op.Takes? ==> Done(r, op) == r.(queue := r.queue + [op.slot])
    ensures op.Attaches? ==>
      Done(r, op) == r.(ahead := r.ahead + (if op.listener in r.behind + r.ahead then [] else [op.listener]))
    ensures op.Detaches? ==>
      var q := Done(r, op);
      && q.queue == r.queue && q.settled == r.settled && op.listener !in q.behind + q.ahead
      && (forall l | l != op.listener :: (l in q.behind <==> l in r.behind) && (l in q.ahead <==> l in r.ahead))
      && Distinct(q.behind + q.ahead)
    ensures op.Clears? ==>
      var q := Done(r, op);
      && q.behind == [] && q.ahead == [] && q.queue == [] && r.settled <= q.settled
      && AllRejected(q.settled[|r.settled|..]) && SettledIds(q.settled[|r.settled|..]) == Promises(r.queue)
  {
    match op
    case Takes(_) =>
    case Attaches(_) =>
    case Detaches(l) =>
      WithoutConcat(r.behind, r.ahead, l);
      WithoutOne(r.behind + r.ahead, l);
      WithoutKeeps(r.behind, l);
      WithoutKeeps(r.ahead, l);
    case Clears =>
      RejectionsReject(r.queue);
      SettlingIds(r.queue);
      assert Done(r, op).settled[|r.settled|..] == Rejections(r.queue);
  }

  lemma WithoutKeeps(listeners: seq<Listener>, l: Listener)
    ensures forall k :: k in Without(listeners, l) <==> k in listeners && k != l
  {
  }

  ghost predicate AllRejected(settled: seq<Settlement>) {
    forall k | 0 <= k < |settled| :: settled[k].Rejected?
  }

  lemma {:induction false} RejectionsReject(slots: seq<Slot>)
    ensures AllRejected(Rejections(slots))
  {
    if slots != [] {
      RejectionsReject(slots[1..]);
    }
  }

  /** Nobody attaches this listener. */
  ghost predicate NeverAttached(script: seq<seq<Op>>, l: Listener) {
    forall i, k | 0 <= i < |script| && 0 <= k < |script[i]| :: script[i][k] != Attaches(l)
  }

  lemma {:induction false} StaysOut(r: Round, ops: seq<Op>, l: Listener)
    requires l !in r.behind && l !in r.ahead && forall k | 0 <= k < |ops| :: ops[k] != Attaches(l)
    ensures l !in DoneAll(r, ops).behind && l !in DoneAll(r, ops).ahead && DoneAll(r, ops).wakes == r.wakes
    decreases |ops|
  {
    if ops != [] {
      var before := DoneAll(r, ops[..|ops| - 1]);
      StaysOut(r, ops[..|ops| - 1], l);
      if ops[|ops| - 1].Detaches? {
        WithoutKeeps(before.behind, ops[|ops| - 1].listener);
        WithoutKeeps(before.ahead, ops[|ops| - 1].listener);
      }
    }
  }

  /** A listener that was taken off and not attached again is not called in what remains of the loop. */
  lemma {:induction false} DetachedIsNotCalled(r: Round, script: seq<seq<Op>>, l: Listener)
    requires l !in r.behind && l !in r.ahead && NeverAttached(script, l)
    ensures
      var q := Woken(r, script);
      r.wakes <= q.wakes && l !in q.wakes[|r.wakes|..] && l !in q.behind
    decreases |script|, |r.ahead|
  {
    if r.ahead != [] {
      var next, ops, rest := Turned(r), FirstOps(script), OtherOps(script);
      StaysOut(next, ops, l);
      var called := DoneAll(next, ops);
      DetachedIsNotCalled(called, rest, l);
      var q := Woken(called, rest);
      assert q == Woken(r, script) && called.wakes == r.wakes + r.ahead[..1];
      assert q.wakes[|r.wakes|..] == r.ahead[..1] + q.wakes[|called.wakes|..];
    }
  }

  lemma {:induction false} OpsSettle(r: Round, ops: seq<Op>)
    ensures r.settled <= DoneAll(r, ops).settled && AllRejected(DoneAll(r, ops).settled[|r.settled|..])
    decreases |ops|
  {
    if ops != [] {
      OpsSettle(r, ops[..|ops| - 1]);
      RejectionsReject(DoneAll(r, ops[..|ops| - 1]).queue);
    }
  }

  /** The loop itself settles nothing but by a reset, which rejects. */
  lemma {:induction false} LoopOnlyRejects(r: Round, script: seq<seq<Op>>)
    ensures r.settled <= Woken(r, script).settled && AllRejected(Woken(r, script).settled[|r.settled|..])
    ensures r.wakes <= Woken(r, script).wakes
    decreases |script|, |r.ahead|
  {
    if r.ahead != [] {
      var next, ops, rest := Turned(r), FirstOps(script), OtherOps(script);
      OpsSettle(next, ops);
      SameWakes(next, ops);
      var called := DoneAll(next, ops);
      hide DoneAll;
      LoopOnlyRejects(called, rest);
      assert Woken(called, rest) == Woken(r, script);
    }
  }

  lemma {:induction false} SameWakes(r: Round, ops: seq<Op>)
    ensures DoneAll(r, ops).wakes == r.wakes
    decreases |ops|
  {
    if ops != [] {
      SameWakes(r, ops[..|ops| - 1]);
    }
  }

  /** The slots that listeners take, in order. */
  function SlotsTaken(ops: seq<Op>): seq<Slot> {
    if ops == [] then []
    else SlotsTaken(ops[..|ops| - 1]) + (if ops[|ops| - 1].Takes? then [ops[|ops| - 1].slot] else [])
  }

  function AllTaken(script: seq<seq<Op>>): seq<Slot> {
    if script == [] then [] else AllTaken(script[..|script| - 1]) + SlotsTaken(script[|script| - 1])
  }

  /** How much of a script so many calls perform. */
  function Performed(script: seq<seq<Op>>, calls: int): int {
    if calls < |script| then calls else |script|
  }

  lemma SlotsTakenNext(ops: seq<Op>, i: nat)
    requires i < |ops|
    ensures SlotsTaken(ops[..i + 1]) == SlotsTaken(ops[..i]) + (if ops[i].Takes? then [ops[i].slot] else [])
  {
    assert ops[..i + 1][..i] == ops[..i];
  }

  lemma NothingTaken(script: seq<seq<Op>>)
    ensures AllTaken(script[..0]) == [] && script[0..] == script
  {
  }

  lemma AllTakenNext(script: seq<seq<Op>>, i: nat)
    requires i < |script|
    ensures AllTaken(script[..i + 1]) == AllTaken(script[..i]) + SlotsTaken(script[i])
  {
    assert script[..i + 1][..i] == script[..i];
  }

  ghost predicate Heard(r: Round, since: nat) {
    since <= |r.wakes| && forall l | l in r.behind :: l in r.wakes[since..]
  }

  lemma WithoutIn(listeners: seq<Listener>, l: Listener)
    ensures forall k | k in Without(listeners, l) :: k in listeners && k != l
  {
  }

  lemma {:induction false} HeardAll(r: Round, ops: seq<Op>, since: nat)
    requires Heard(r, since)
    ensures Heard(DoneAll(r, ops), since) && DoneAll(r, ops).wakes == r.wakes
    decreases |ops|
  {
    if ops != [] {
      var before := DoneAll(r, ops[..|ops| - 1]);
      HeardAll(r, ops[..|ops| - 1], since);
      if ops[|ops| - 1].Detaches? {
        WithoutIn(before.behind, ops[|ops| - 1].listener);
      }
    }
  }

  /**
   When the loop ends, every listener still registered has been called in it, whatever the
   listeners took, attached, detached or cleared on the way.
   */
  lemma {:induction false} EveryoneHears(r: Round, script: seq<seq<Op>>, since: nat)
    requires Heard(r, since)
    ensures Woken(r, script).ahead == [] && Heard(Woken(r, script), since)
    decreases |script|, |r.ahead|
  {
    if r.ahead != [] {
      var next := Turned(r);
      assert next.wakes[since..] == r.wakes[since..] + r.ahead[..1];
      if script == [] {
        EveryoneHears(Called(r, []), [], since);
      } else {
        HeardAll(next, script[0], since);
        EveryoneHears(Called(r, script[0]), script[1..], since);
      }
    }
  }

  /** Nobody takes itself or others off, and nobody resets the gate. */
  ghost predicate Steady(script: seq<seq<Op>>) {
    forall i, k | 0 <= i < |script| && 0 <= k < |script[i]| :: !script[i][k].Detaches? && !script[i][k].Clears?
  }

  lemma {:induction false} SteadyAll(r: Round, ops: seq<Op>)
    requires forall k | 0 <= k < |ops| :: !ops[k].Detaches? && !ops[k].Clears?
    requires Distinct(r.behind + r.ahead)
    ensures
      var q := DoneAll(r, ops);
      && q.behind == r.behind && r.ahead <= q.ahead && Distinct(q.behind + q.ahead) && r.queue <= q.queue
      && q.settled == r.settled && q.wakes == r.wakes
    decreases |ops|
  {
    if ops != [] {
      var before := DoneAll(r, ops[..|ops| - 1]);
      SteadyAll(r, ops[..|ops| - 1]);
      var op := ops[|ops| - 1];
      if op.Attaches? {
        assert before.behind + (before.ahead + [op.listener]) == (before.behind + before.ahead) + [op.listener];
      }
    }
  }

  lemma SteadyFirst(script: seq<seq<Op>>)
    requires Steady(script)
    ensures Steady(OtherOps(script))
    ensures forall k | 0 <= k < |FirstOps(script)| :: !FirstOps(script)[k].Detaches? && !FirstOps(script)[k].Clears?
  {
  }

  /** Then the calls are the registered listeners and those that join, each once and in order. */
  lemma {:induction false} SteadyRound(r: Round, script: seq<seq<Op>>)
    requires Steady(script) && Distinct(r.behind + r.ahead)
    ensures
      var q := Woken(r, script);
      && r.behind + r.ahead <= q.behind && Distinct(q.behind) && q.ahead == []
      && q.wakes == r.wakes + q.behind[|r.behind|..]
      && r.queue <= q.queue && q.settled == r.settled
    decreases |script|, |r.ahead|
  {
    if r.ahead != [] {
      hide Woken, DoneAll, Distinct, Steady;
      var ops, rest := FirstOps(script), OtherOps(script);
      var next := Turned(r);
      assert next.behind + next.ahead == r.behind + r.ahead;
      SteadyFirst(script);
      SteadyAll(next, ops);
      WokenNext(r, script);
      SteadyRound(DoneAll(next, ops), rest);
      SteadyWakes(r, Woken(r, script));
    } else {
      WokenNobody(r, script);
    }
  }

  lemma SteadyWakes(r: Round, q: Round)
    requires r.ahead != [] && r.behind + r.ahead <= q.behind
    ensures q.behind[|r.behind|..] == r.ahead[..1] + q.behind[|r.behind| + 1..]
  {
    assert q.behind[|r.behind|] == (r.behind + r.ahead)[|r.behind|];
  }

  lemma {:induction false} PromisesConcat(a: seq<Slot>, b: seq<Slot>)
    ensures Promises(a + b) == Promises(a) + Promises(b)
  {
    if a == [] {
      assert a + b == b;
    } else {
      assert (a + b)[1..] == a[1..] + b;
      PromisesConcat(a[1..], b);
    }
  }

  lemma OneMorePromise(slots: seq<Slot>, s: Slot)
    ensures Promises(slots + [s]) == Promises(slots) + Promises([s])
    ensures Promises([s]) == if s.EndOf? then [s.txn] else []
  {
    PromisesConcat(slots, [s]);
    assert [s][1..] == [];
  }

  lemma {:induction false} SettledIdsConcat(a: seq<Settlement>, b: seq<Settlement>)
    ensures SettledIds(a + b) == SettledIds(a) + SettledIds(b)
  {
    if a == [] {
      assert a + b == b;
    } else {
      assert (a + b)[1..] == a[1..] + b;
      SettledIdsConcat(a[1..], b);
    }
  }

  lemma {:induction false} SettlingIds(slots: seq<Slot>)
    ensures SettledIds(Resolutions(slots)) == Promises(slots)
    ensures SettledIds(Rejections(slots)) == Promises(slots)
  {
    if slots != [] {
      SettlingIds(slots[1..]);
      if slots[0].EndOf? {
        SettledIdsConcat([Resolved(slots[0].txn)], Resolutions(slots[1..]));
        SettledIdsConcat([Rejected(slots[0].txn)], Rejections(slots[1..]));
      } else {
        assert Resolutions(slots) == Resolutions(slots[1..]) && Rejections(slots) == Rejections(slots[1..]);
      }
    }
  }

  lemma {:induction false} RejectedAre(slots: seq<Slot>)
    ensures forall txn: string :: Rejected(txn) in Rejections(slots) <==> EndOf(txn) in slots
    ensures forall txn: string :: Resolved(txn) !in Rejections(slots)
  {
    if slots != [] {
      RejectedAre(slots[1..]);
      assert slots == [slots[0]] + slots[1..];
    }
  }

  /** An ack, said without the listener loop: on the edge everyone registered afterwards has been called. */
  lemma AckedPlainly(window: int, s: State, script: seq<seq<Op>>)
    ensures
      var q := AfterAck(window, s, script);
      var done := s.settled + if s.queue != [] && s.queue[0].EndOf? then [Resolved(s.queue[0].txn)] else [];
      && done <= q.settled && AllRejected(q.settled[|done|..]) && s.wakes <= q.wakes
      && (|s.queue| != window ==>
            q == State(s.listeners, if s.queue == [] then [] else s.queue[1..], done, s.wakes))
      && (|s.queue| == window ==> forall l | l in q.listeners :: l in q.wakes[|s.wakes|..])
  {
    var done := s.settled + if s.queue != [] && s.queue[0].EndOf? then [Resolved(s.queue[0].txn)] else [];
    assert done == s.settled + Resolutions(Head(s.queue)) by {
      if s.queue != [] {
        assert s.queue[..1] == [s.queue[0]] && [s.queue[0]][1..] == [];
      }
    }
    var r := Round([], s.listeners, Acked(s.queue), done, s.wakes);
    hide Woken;
    LoopOnlyRejects(r, script);
    EveryoneHears(r, script, |s.wakes|);
  }

  /** Settling the first promise of a queue moves it, in order, from the waiting to the settled ones. */
  lemma SettleFirst(settled: seq<Settlement>, first: Slot, others: seq<Slot>)
    ensures SettledIds(settled + Resolutions([first])) + Promises(others)
         == SettledIds(settled) + Promises([first] + others)
  {
    PromisesConcat([first], others);
    SettlingIds([first]);
    SettledIdsConcat(settled, Resolutions([first]));
  }

  /** Rejecting the whole queue leaves every promise settled, in the order of queueing. */
  lemma RejectRest(settled: seq<Settlement>, queue: seq<Slot>)
    ensures SettledIds(settled + Rejections(queue)) == SettledIds(settled) + Promises(queue)
    ensures Promises([]) == []
  {
    SettlingIds(queue);
    SettledIdsConcat(settled, Rejections(queue));
  }

  lemma {:induction false} SettledIdAt(settled: seq<Settlement>, i: nat)
    requires i < |settled|
    ensures |SettledIds(settled)| == |settled| && SettledIds(settled)[i] == settled[i].txn
  {
    if |settled| > 1 {
      SettledIdAt(settled[1..], if i > 0 then i - 1 else 0);
    }
  }

  lemma TwiceCounted(s: seq<string>, i: nat, j: nat)
    requires i < j < |s| && s[i] == s[j]
    ensures multiset(s)[s[i]] >= 2
  {
    assert s == s[..j] + [s[j]] + s[j + 1..];
    assert s[i] in s[..j];
  }

  lemma {:induction false} WithoutNone(listeners: seq<Listener>, l: Listener)
    requires l !in listeners
    ensures Without(listeners, l) == listeners
  {
    if listeners != [] {
      WithoutNone(listeners[1..], l);
    }
  }

  lemma {:induction false} WithoutAt(listeners: seq<Listener>, i: nat)
    requires i < |listeners| && Distinct(listeners)
    ensures Without(listeners, listeners[i]) == listeners[..i] + listeners[i + 1..]
  {
    var first, rest := listeners[0], listeners[1..];
    if i == 0 {
      WithoutNone(rest, first);
    } else {
      WithoutAt(rest, i - 1);
      assert listeners[..i] == [first] + rest[..i - 1] && listeners[i + 1..] == rest[i..];
    }
  }

  /** Taking one element out of a list without repetitions. */
  lemma WithoutOne(listeners: seq<Listener>, l: Listener)
    requires Distinct(listeners)
    ensures Distinct(Without(listeners, l))
    ensures l !in listeners ==> Without(listeners, l) == listeners
    ensures forall i | 0 <= i < |listeners| && listeners[i] == l :: Without(listeners, l) == listeners[..i] + listeners[i + 1..]
  {
    hide Without;
    if l !in listeners {
      WithoutNone(listeners, l);
    } else {
      var i :| 0 <= i < |listeners| && listeners[i] == l;
      WithoutAt(listeners, i);
    }
  }

  lemma {:induction false} WithoutConcat(a: seq<Listener>, b: seq<Listener>, l: Listener)
    ensures Without(a + b, l) == Without(a, l) + Without(b, l)
  {
    if a == [] {
      assert a + b == b;
    } else {
      assert (a + b)[1..] == a[1..] + b;
      WithoutConcat(a[1..], b, l);
    }
  }

  lemma WithoutSplit(listeners: seq<Listener>, from: nat, l: Listener)
    requires Distinct(listeners) && from <= |listeners|
    ensures
      var place := if l in listeners[..from] then from - 1 else from;
      && 0 <= place <= |Without(listeners, l)|
      && Without(listeners, l)[..place] == Without(listeners[..from], l)
      && Without(listeners, l)[place..] == Without(listeners[from..], l)
  {
    assert listeners == listeners[..from] + listeners[from..];
    WithoutConcat(listeners[..from], listeners[from..], l);
    WithoutOne(listeners[..from], l);
  }

  /** Of the slots taken, which were freed and which dropped, and what that means for their promises. */
  ghost predicate Ledger(taken: seq<Slot>, freed: seq<Slot>, dropped: seq<Slot>, queue: seq<Slot>, settled: seq<Settlement>) {
    && multiset(taken) == multiset(freed) + multiset(dropped) + multiset(queue)
    && (forall txn: string :: Resolved(txn) in settled <==> EndOf(txn) in freed)
    && (forall txn: string :: Rejected(txn) in settled <==> EndOf(txn) in dropped)
  }

  lemma LedgerTaken(taken: seq<Slot>, freed: seq<Slot>, dropped: seq<Slot>, queue: seq<Slot>, settled: seq<Settlement>, s: Slot)
    requires Ledger(taken, freed, dropped, queue, settled)
    ensures Ledger(taken + [s], freed, dropped, queue + [s], settled)
  {
  }

  lemma LedgerFreed(taken: seq<Slot>, freed: seq<Slot>, dropped: seq<Slot>, queue: seq<Slot>, settled: seq<Settlement>)
    requires queue != [] && Ledger(taken, freed, dropped, queue, settled)
    ensures Ledger(taken, freed + [queue[0]], dropped, queue[1..], settled + Resolutions([queue[0]]))
  {
    var first := queue[0];
    assert queue == [first] + queue[1..];
    assert [first][1..] == [];
    assert Resolutions([first]) == if first.EndOf? then [Resolved(first.txn)] else [];
    hide Resolutions;
  }

  lemma NothingToResolve(settled: seq<Settlement>)
    ensures settled + Resolutions([]) == settled
  {
  }

  lemma LedgerDropped(taken: seq<Slot>, freed: seq<Slot>, dropped: seq<Slot>, queue: seq<Slot>, settled: seq<Settlement>)
    requires Ledger(taken, freed, dropped, queue, settled)
    ensures Ledger(taken, freed, dropped + queue, [], settled + Rejections(queue))
  {
    RejectedAre(queue);
    hide Rejections;
  }

  class BackpressureGate {
    const window: int
    var outstanding: int
    var writable: bool
    var drainListeners: seq<Listener>
    var ackResolvers: seq<Slot>
    /** What has become of the promises so far, for whoever awaits them. */
    var settled: seq<Settlement>

    /** Histories over the whole life: promises queued, drain events fired. */
    ghost var promised: seq<string>
    ghost var wakes: seq<Listener>
    /** Every slot ever taken, those freed by acks and those dropped by resets. */
    ghost var taken: seq<Slot>
    ghost var freed: seq<Slot>
    ghost var dropped: seq<Slot>
    /** Those taken and those freed since the last reset. */
    ghost var epochTaken: seq<Slot>
    ghost var epochFreed: seq<Slot>

    /**
     The counter and the flag agree with the queue; promises are settled in the order in which they
     were queued, each once; every slot taken is queued, freed or dropped, since the last reset in the
     order of taking, and only an ack that found its slot at the head resolves a promise, as only a
     reset rejects one.
     */
    ghost predicate Valid()
      reads this
    {
      && window >= 1
      && outstanding == |ackResolvers|
      && (writable <==> |ackResolvers| < window)
      && promised == SettledIds(settled) + Promises(ackResolvers)
      && Distinct(drainListeners)
      && Accounted() && epochTaken == epochFreed + ackResolvers
    }

    ghost predicate Accounted()
      reads this`taken, this`freed, this`dropped, this`ackResolvers, this`settled
    {
      Ledger(taken, freed, dropped, ackResolvers, settled)
    }

    constructor (window: int)
      requires window >= 1
      ensures Valid() && this.window == window
      ensures ackResolvers == [] && drainListeners == [] && settled == [] && wakes == [] && promised == []
      ensures taken == [] && freed == [] && dropped == []
    {
      this.window := window;
      outstanding, writable := 0, true;
      drainListeners, ackResolvers := [], [];
      promised, settled, wakes := [], [], [];
      taken, freed, dropped := [], [], [];
      epochTaken, epochFreed := [], [];
    }

    ghost function Now(): State
      reads this`drainListeners, this`ackResolvers, this`settled, this`wakes
    {
      State(drainListeners, ackResolvers, settled, wakes)
    }

    method OnDrain(listener: Listener)
      requires Valid()
      modifies this`drainListeners
      ensures Valid()
      ensures drainListeners == old(drainListeners) + (if listener in old(drainListeners) then [] else [listener])
    {
      if listener !in drainListeners {
        drainListeners := drainListeners + [listener];
      }
    }

    method OffDrain(listener: Listener)
      requires Valid()
      modifies this`drainListeners
      ensures Valid()
      ensures drainListeners == Without(old(drainListeners), listener)
      ensures listener !in old(drainListeners) ==> drainListeners == old(drainListeners)
      ensures forall i | 0 <= i < |old(drainListeners)| && old(drainListeners)[i] == listener ::
        drainListeners == old(drainListeners)[..i] + old(drainListeners)[i + 1..]
    {
      WithoutOne(drainListeners, listener);
      if i :| 0 <= i < |drainListeners| && drainListeners[i] == listener {
        drainListeners := drainListeners[..i] + drainListeners[i + 1..];
      }
    }

    method Consume(resolver: Slot)
      requires Valid()
      modifies this`outstanding, this`writable, this`ackResolvers, this`promised, this`taken, this`epochTaken
      ensures Valid()
      ensures ackResolvers == old(ackResolvers) + [resolver] && taken == old(taken) + [resolver]
      ensures promised == old(promised) + Promises([resolver])
      ensures promised == old(promised) + (if resolver.EndOf? then [resolver.txn] else [])
    {
      hide Ledger, Promises, SettledIds, Distinct;
      OneMorePromise(ackResolvers, resolver);
      LedgerTaken(taken, freed, dropped, ackResolvers, settled, resolver);
      taken, epochTaken := taken + [resolver], epochTaken + [resolver];
      outstanding := outstanding + 1;
      ackResolvers := ackResolvers + [resolver];
      promised := promised + Promises([resolver]);
      if outstanding >= window {
        writable := false;
      }
    }

    /**
     One drain from the server. `script` is what the drain listeners do, call after call,
     re-entrantly, from inside the listener loop. They are called only when the queue goes from
     full to not full. The oldest slot is freed and its promise, if it has one, resolved; nothing
     else is resolved. `calls` says how much of the script has come to be performed.
     */
    method Ack(script: seq<seq<Op>>) returns (calls: nat)
      requires Valid()
      modifies this
      ensures Valid() && Now() == AfterAck(window, old(Now()), script)
      ensures freed == old(freed) + (if old(ackResolvers) == [] then [] else [old(ackResolvers)[0]])
      ensures old(dropped) <= dropped
      ensures calls <= |script| && taken == old(taken) + AllTaken(script[..calls])
      ensures
        var done := old(settled)
          + if old(ackResolvers) != [] && old(ackResolvers)[0].EndOf? then [Resolved(old(ackResolvers)[0].txn)] else [];
        done <= settled && AllRejected(settled[|done|..])
      ensures old(wakes) <= wakes
      ensures calls == Performed(script, |wakes| - |old(wakes)|)
      ensures old(outstanding) != window ==>
        && ackResolvers == (if old(ackResolvers) == [] then [] else old(ackResolvers)[1..])
        && drainListeners == old(drainListeners) && wakes == old(wakes) && dropped == old(dropped) && taken == old(taken)
      ensures old(outstanding) == window ==> forall l | l in drainListeners :: l in wakes[|old(wakes)|..]
    {
      ghost var before := Now();
      AckedPlainly(window, before, script);
      hide Woken, Promises, SettledIds, Resolutions, BackpressureGate.Accounted;
      Pop();
      calls := 0;
      assert script[..0] == [];
      if !writable && outstanding < window {
        calls := Wake(script);
      }
    }

    /** First half of an ack: free the slot and settle its promise. */
    method Pop()
      requires Valid()
      modifies this`outstanding, this`ackResolvers, this`settled, this`freed, this`epochFreed
      ensures outstanding == |ackResolvers| && ackResolvers == Acked(old(ackResolvers))
      ensures settled == old(settled) + Resolutions(Head(old(ackResolvers)))
      ensures promised == SettledIds(settled) + Promises(ackResolvers) && Accounted()
      ensures epochTaken == epochFreed + ackResolvers
      ensures freed == old(freed) + (if old(ackResolvers) == [] then [] else [old(ackResolvers)[0]])
    {
      hide Ledger, Promises, Resolutions, SettledIds;
      ghost var before := ackResolvers;
      if outstanding > 0 {
        outstanding := outstanding - 1;
      }
      if ackResolvers != [] {
        var resolver := ackResolvers[0];
        assert before == [resolver] + before[1..];
        SettleFirst(settled, resolver, before[1..]);
        LedgerFreed(taken, freed, dropped, before, settled);
        assert Head(before) == [resolver];
        ackResolvers := ackResolvers[1..];
        freed, epochFreed := freed + [resolver], epochFreed + [resolver];
        settled := settled + Resolutions([resolver]);
      } else {
        NothingToResolve(settled);
      }
    }

    /** The gate inside its listener loop, after so many of the registered listeners. */
    ghost function At(position: nat): Round
      requires position <= |drainListeners|
      reads this`drainListeners, this`ackResolvers, this`settled, this`wakes
    {
      Round(drainListeners[..position], drainListeners[position..], ackResolvers, settled, wakes)
    }

    /** Second half: the window reopened, so every listener hears it, doing as it likes. */
    method Wake(script: seq<seq<Op>>) returns (k: nat)
      requires outstanding == |ackResolvers| < window && Distinct(drainListeners)
      requires promised == SettledIds(settled) + Promises(ackResolvers) && Accounted()
      requires epochTaken == epochFreed + ackResolvers
      modifies this
      ensures Valid() && freed == old(freed) && old(dropped) <= dropped && old(wakes) <= wakes
      ensures k <= |script| && taken == old(taken) + AllTaken(script[..k])
      ensures k == Performed(script, |wakes| - |old(wakes)|)
      ensures
        var end := Woken(old(At(0)), script);
        Now() == State(end.behind, end.queue, end.settled, end.wakes)
    {
      hide Ledger, Promises, SettledIds, Woken, DoneAll, Turned, SlotsTaken, AllTaken;
      writable := true;
      var position: nat := 0;
      k := 0;
      NothingTaken(script);
      while position < |drainListeners|
        invariant Valid() && position <= |drainListeners| && k <= |script|
        invariant Woken(At(position), script[k..]) == Woken(old(At(0)), script)
        invariant freed == old(freed) && old(dropped) <= dropped && taken == old(taken) + AllTaken(script[..k])
        invariant old(wakes) <= wakes
        invariant k == Performed(script, |wakes| - |old(wakes)|)
        decreases |script| - k, |drainListeners| - position
      {
        WokenNext(At(position), script[k..]);
        if k < |script| {
          AllTakenNext(script, k);
          assert script[k..][1..] == script[k + 1..];
          position := CallNext(script[k], position);
          k := k + 1;
        } else {
          position := CallNext([], position);
        }
      }
      WokenNobody(At(position), script[k..]);
    }

    /** One listener is called, and does what it does. */
    method CallNext(ops: seq<Op>, from: nat) returns (position: nat)
      requires Valid() && from < |drainListeners|
      modifies this
      ensures Valid() && position <= |drainListeners| && At(position) == DoneAll(Turned(old(At(from))), ops)
      ensures freed == old(freed) && old(dropped) <= dropped && taken == old(taken) + SlotsTaken(ops)
      ensures wakes == old(wakes) + [old(drainListeners)[from]]
      ensures ops == [] ==> position == from + 1 && drainListeners == old(drainListeners) && taken == old(taken)
    {
      hide Ledger, Promises, SettledIds, DoneAll, SlotsTaken;
      wakes := wakes + [drainListeners[from]];
      assert At(from + 1) == Turned(old(At(from)));
      position := PerformAll(ops, from + 1);
    }

    method PerformAll(ops: seq<Op>, from: nat) returns (position: nat)
      requires Valid() && from <= |drainListeners|
      modifies this
      ensures Valid() && position <= |drainListeners| && At(position) == DoneAll(old(At(from)), ops)
      ensures freed == old(freed) && old(dropped) <= dropped && taken == old(taken) + SlotsTaken(ops)
      ensures wakes == old(wakes)
      ensures ops == [] ==> position == from && drainListeners == old(drainListeners) && taken == old(taken)
    {
      hide DoneAll, Done, SlotsTaken, BackpressureGate.Valid;
      position := from;
      NothingDone(At(from), ops);
      for i := 0 to |ops|
        invariant Valid() && position <= |drainListeners| && At(position) == DoneAll(old(At(from)), ops[..i])
        invariant freed == old(freed) && old(dropped) <= dropped && taken == old(taken) + SlotsTaken(ops[..i])
        invariant wakes == old(wakes)
        invariant i == 0 ==> position == from && drainListeners == old(drainListeners) && taken == old(taken)
      {
        SlotsTakenNext(ops, i);
        DoneNext(old(At(from)), ops, i);
        position := Perform(ops[i], position);
      }
      assert ops[..|ops|] == ops;
    }

    /** One operation; taking out a listener already called moves the loop's place in the set. */
    method Perform(op: Op, from: nat) returns (position: nat)
      requires Valid() && from <= |drainListeners|
      modifies this
      ensures Valid() && position <= |drainListeners| && At(position) == Done(old(At(from)), op)
      ensures freed == old(freed) && old(dropped) <= dropped && wakes == old(wakes)
      ensures taken == old(taken) + (if op.Takes? then [op.slot] else [])
    {
      hide Ledger, Promises, SettledIds, Rejections;
      position := from;
      match op
      case Takes(slot) => Consume(slot);
      case Attaches(l) => OnDrain(l);
      case Detaches(l) =>
        WithoutSplit(drainListeners, from, l);
        position := if l in drainListeners[..from] then from - 1 else from;
        OffDrain(l);
      case Clears =>
        position := 0;
        Reset();
    }

    method RejectAll(queued: seq<Slot>)
      modifies this`settled
      ensures settled == old(settled) + Rejections(queued)
    {
      for i := 0 to |queued|
        invariant settled + Rejections(queued[i..]) == old(settled) + Rejections(queued)
      {
        if queued[i].EndOf? {
          settled := settled + [Rejected(queued[i].txn)];
        }
      }
    }

    /** Disconnect: every promise still queued is rejected, in order, and the window reopens. */
    method Reset()
      requires Valid()
      modifies this
      ensures Valid() && ackResolvers == [] && drainListeners == []
      ensures settled == old(settled) + Rejections(old(ackResolvers))
      ensures old(settled) <= settled && AllRejected(settled[|old(settled)|..])
      ensures SettledIds(settled[|old(settled)|..]) == Promises(old(ackResolvers))
      ensures promised == old(promised) == SettledIds(settled)
      ensures wakes == old(wakes) && taken == old(taken) && freed == old(freed) && dropped == old(dropped) + old(ackResolvers)
    {
      hide Promises, SettledIds, Rejections, Ledger;
      var queued := ackResolvers;
      RejectRest(settled, queued);
      RejectionsReject(queued);
      SettlingIds(queued);
      LedgerDropped(taken, freed, dropped, queued, settled);
      ackResolvers := [];
      RejectAll(queued);
      assert settled[|old(settled)|..] == Rejections(queued);
      dropped := dropped + queued;
      epochTaken, epochFreed := [], [];
      outstanding, writable := 0, true;
      drainListeners := [];
    }

    /** A promise queued at most once is not both resolved and rejected. */
    lemma OneFate(txn: string)
      requires Valid() && multiset(promised)[txn] <= 1
      ensures Resolved(txn) in settled ==> Rejected(txn) !in settled
    {
      if Resolved(txn) in settled && Rejected(txn) in settled {
        var i :| 0 <= i < |settled| && settled[i] == Resolved(txn);
        var j :| 0 <= j < |settled| && settled[j] == Rejected(txn);
        SettledIdAt(settled, i);
        SettledIdAt(settled, j);
        var first, second := if i < j then i else j, if i < j then j else i;
        assert promised[first] == txn && promised[second] == txn;
        TwiceCounted(promised, first, second);
      }
    }

    /**
     If no promise is queued twice, none is settled twice and none that is still queued has been
     settled.
     */
    lemma SettledOnce()
      requires Valid() && Distinct(promised)
      ensures Distinct(SettledIds(settled)) && Distinct(Promises(ackResolvers))
      ensures forall p :: p in SettledIds(settled) ==> p !in Promises(ackResolvers)
    {
      var done, queued := SettledIds(settled), Promises(ackResolvers);
      assert forall i | 0 <= i < |done| :: done[i] == promised[i];
      assert forall i | 0 <= i < |queued| :: queued[i] == promised[|done| + i];
    }
  }
}
