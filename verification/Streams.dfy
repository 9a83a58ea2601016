/**
 Local streams and transactions on one write window. A stream stops after a `write` that returned
 false until it gets `drain`; a transaction's end takes a slot at any moment; the window itself
 never refuses, so it is soft. The drain listeners are called one after the other while the
 earlier ones may already be writing again.
 */
module Streams {
  import opened Gate

  /**
   `n` streams are attached, numbered in the order of attaching, and `queue` is the gate's. While
   `looping`, the listeners in `todo` are still to be called. `blocked` are the streams whose last
   write returned false and that got no drain since; `twice` those that wrote and were refused in
   the running or latest loop while their own notification was still pending.
   */
  datatype Pool = Pool(
    window: nat,
    n: nat,
    queue: seq<Slot>,
    blocked: set<nat>,
    looping: bool,
    todo: seq<nat>,
    twice: set<nat>)

  datatype Event = Write(stream: nat) | TakeEnd(txn: string) | Ack | Notify | LoopEnds | Attach

  function Start(window: nat, n: nat): Pool {
    Pool(window, n, [], {}, false, [], {})
  }

  /**
   With `patient`, a stream whose notification is still pending does not write, which holds when
   drain handlers write to their own stream only. Acks arrive between loops, not inside them.
   */
  predicate Enabled(patient: bool, p: Pool, e: Event) {
    match e
    case Write(i) => i < p.n && i !in p.blocked && (patient ==> i !in p.todo)
    case TakeEnd(_) => true
    case Ack => !p.looping && p.queue != []
    case Notify => p.todo != []
    case LoopEnds => p.looping && p.todo == []
    case Attach => true
  }

  function Listeners(from: nat, n: nat): (ls: seq<nat>)
    ensures |ls| == if from < n then n - from else 0
    ensures forall k | 0 <= k < |ls| :: ls[k] == from + k
  {
    if from < n then seq(n - from, k requires 0 <= k => from + k) else []
  }

  /** Events that cannot happen in a state leave it alone. A running loop reaches late listeners. */
  function Step(patient: bool, p: Pool, e: Event): Pool {
    if !Enabled(patient, p, e) then p
    else match e
      case Write(i) =>
        if Full(p.window, |p.queue| + 1) then Refused(p, i) else p.(queue := p.queue + [Single])
      case TakeEnd(txn) => p.(queue := p.queue + [EndOf(txn)])
      case Ack =>
        if Reopens(p.window, |p.queue|) then
          Pool(p.window, p.n, Acked(p.queue), p.blocked - {0}, true, Listeners(1, p.n), {})
        else p.(queue := Acked(p.queue))
      case Notify => Notified(p)
      case LoopEnds => p.(looping := false)
      case Attach => Attached(p)
  }

  function Reach(patient: bool, window: nat, n: nat, events: seq<Event>): Pool {
    if events == [] then Start(window, n)
    else Step(patient, Reach(patient, window, n, events[..|events| - 1]), events[|events| - 1])
  }

  /** The slots taken by stream writes. */
  function Writes(queue: seq<Slot>): nat {
    if queue == [] then 0 else Writes(queue[..|queue| - 1]) + (if queue[|queue| - 1].Single? then 1 else 0)
  }

  lemma WritesSnoc(queue: seq<Slot>, s: Slot)
    ensures Writes(queue + [s]) == Writes(queue) + (if s.Single? then 1 else 0)
  {
    assert (queue + [s])[..|queue + [s]| - 1] == queue;
  }

  lemma {:induction false} WritesBounds(queue: seq<Slot>)
    ensures Writes(queue) <= |queue|
    ensures queue != [] ==> Writes(Acked(queue)) <= Writes(queue)
    decreases |queue|
  {
    if |queue| > 1 {
      var init := queue[..|queue| - 1];
      WritesBounds(init);
      assert Acked(queue)[..|queue| - 2] == Acked(init);
    }
  }

  /* ------------------------------------ upper bounds ------------------------------------ */

  function Pending(todo: seq<nat>): set<nat> {
    set i | i in todo
  }

  function Below(n: nat): (s: set<nat>)
    ensures |s| == n
    ensures forall i: nat :: i in s <==> i < n
  {
    if n == 0 then {} else Below(n - 1) + {n - 1}
  }

  lemma Fits(s: set<nat>, t: set<nat>)
    requires s <= t
    ensures |s| <= |t|
  {
    assert t == s + (t - s);
  }

  /** The listeners still to be called, each once; the first one has been called already. */
  ghost predicate InOrder(todo: seq<nat>, n: nat) {
    && (forall k | 0 <= k < |todo| :: 1 <= todo[k] < n)
    && (forall j, k | 0 <= j < k < |todo| :: todo[j] != todo[k])
  }

  /** The streams that cannot write before the next loop. */
  function Stuck(p: Pool): set<nat> {
    p.blocked - Pending(p.todo)
  }

  /** Who is attached, waiting, still to be called, or has written twice. */
  ghost predicate Shape(patient: bool, p: Pool) {
    && p.window >= 1 && p.n >= 1
    && InOrder(p.todo, p.n)
    && (!p.looping ==> p.todo == [])
    && p.blocked <= Below(p.n)
    && p.twice <= Below(p.n) - {0}
    && (patient ==> p.twice == {})
    && (forall i | i in p.twice && i in p.todo :: i in p.blocked)
  }

  /** How many slots they can have taken. */
  ghost predicate Counted(p: Pool) {
    && Writes(p.queue) <= p.window - 1 + |Stuck(p)| + |p.twice|
    && (Stuck(p) != {} ==> |p.queue| >= p.window)
  }

  ghost predicate Inv(patient: bool, p: Pool) {
    Shape(patient, p) && Counted(p)
  }

  function Refused(p: Pool, i: nat): Pool {
    p.(queue := p.queue + [Single], blocked := p.blocked + {i},
       twice := if i in p.todo then p.twice + {i} else p.twice)
  }

  lemma ShapeRefused(patient: bool, p: Pool, i: nat)
    requires Shape(patient, p) && Enabled(patient, p, Write(i))
    ensures Shape(patient, Refused(p, i))
  {
  }

  /** Refused while its notification is pending, a stream has now written twice; otherwise it is stuck. */
  lemma StuckRefused(patient: bool, p: Pool, i: nat)
    requires Shape(patient, p) && Enabled(patient, p, Write(i))
    ensures
      var q := Refused(p, i);
      if i in p.todo then Stuck(q) == Stuck(p) && q.twice == p.twice + {i} && i !in p.twice
      else Stuck(q) == Stuck(p) + {i} && i !in Stuck(p) && q.twice == p.twice
  {
  }

  lemma InvRefused(patient: bool, p: Pool, i: nat)
    requires Inv(patient, p) && Enabled(patient, p, Write(i)) && |p.queue| + 1 >= p.window
    ensures Inv(patient, Refused(p, i))
  {
    WritesSnoc(p.queue, Single);
    StuckRefused(patient, p, i);
    ShapeRefused(patient, p, i);
    hide Shape, Stuck, Writes, Below, InOrder;
  }

  lemma InvWrite(patient: bool, p: Pool, i: nat)
    requires Inv(patient, p) && Enabled(patient, p, Write(i))
    ensures Inv(patient, Step(patient, p, Write(i)))
  {
    if |p.queue| + 1 >= p.window {
      hide Inv;
      InvRefused(patient, p, i);
    } else {
      WritesBounds(p.queue + [Single]);
      assert Stuck(p.(queue := p.queue + [Single])) == Stuck(p);
    }
  }

  lemma InvTakeEnd(patient: bool, p: Pool, txn: string)
    requires Inv(patient, p)
    ensures Inv(patient, Step(patient, p, TakeEnd(txn)))
  {
    WritesSnoc(p.queue, EndOf(txn));
    assert Stuck(Step(patient, p, TakeEnd(txn))) == Stuck(p);
  }

  /** The ack that reopens the window: everyone is called or about to be, so nobody is stuck. */
  lemma InvReopen(patient: bool, p: Pool)
    requires Inv(patient, p) && Enabled(patient, p, Ack) && |p.queue| == p.window
    ensures Inv(patient, Step(patient, p, Ack))
  {
    var q := Step(patient, p, Ack);
    WritesBounds(q.queue);
    assert Stuck(q) == {} by {
      forall i | i in q.blocked ensures i in q.todo {
        assert q.todo[i - 1] == i;
      }
    }
  }

  lemma InvAck(patient: bool, p: Pool)
    requires Inv(patient, p) && Enabled(patient, p, Ack)
    ensures Inv(patient, Step(patient, p, Ack))
  {
    if |p.queue| == p.window {
      hide Inv, Step;
      InvReopen(patient, p);
    } else {
      WritesBounds(p.queue);
      assert Stuck(Step(patient, p, Ack)) == Stuck(p);
    }
  }

  lemma OrderTail(todo: seq<nat>, n: nat)
    requires todo != [] && InOrder(todo, n)
    ensures InOrder(todo[1..], n) && todo[0] !in todo[1..]
    ensures Pending(todo) == Pending(todo[1..]) + {todo[0]}
  {
    assert forall k | 0 <= k < |todo| - 1 :: todo[1..][k] == todo[k + 1];
    assert todo == [todo[0]] + todo[1..];
  }

  function Notified(p: Pool): Pool
    requires p.todo != []
  {
    p.(blocked := p.blocked - {p.todo[0]}, todo := p.todo[1..])
  }

  lemma NotifyStuck(p: Pool)
    requires p.todo != [] && InOrder(p.todo, p.n)
    ensures InOrder(Notified(p).todo, p.n) && Stuck(Notified(p)) == Stuck(p)
    ensures forall i | i in p.blocked && i in Notified(p).todo :: i in Notified(p).blocked
  {
    OrderTail(p.todo, p.n);
  }

  lemma ShapeNotify(patient: bool, p: Pool)
    requires Shape(patient, p) && p.todo != []
    ensures Shape(patient, Notified(p))
  {
    NotifyStuck(p);
    hide InOrder, Below;
    assert forall i | i in Notified(p).todo :: i in p.todo;
  }

  lemma InvNotify(patient: bool, p: Pool)
    requires Inv(patient, p) && p.todo != []
    ensures Inv(patient, Notified(p))
  {
    NotifyStuck(p);
    ShapeNotify(patient, p);
    hide Shape, Stuck, Writes, Below, InOrder;
  }

  function Attached(p: Pool): Pool {
    p.(n := p.n + 1, todo := if p.looping then p.todo + [p.n] else p.todo)
  }

  lemma AttachStuck(p: Pool)
    requires InOrder(p.todo, p.n) && p.n >= 1 && p.blocked <= Below(p.n)
    ensures InOrder(Attached(p).todo, p.n + 1) && Stuck(Attached(p)) == Stuck(p)
    ensures Below(p.n) <= Below(p.n + 1) && p.n !in Below(p.n)
    ensures forall i | i in Attached(p).todo :: i in p.todo || i == p.n
  {
  }

  lemma ShapeAttach(patient: bool, p: Pool)
    requires Shape(patient, p)
    ensures Shape(patient, Attached(p))
  {
    AttachStuck(p);
  }

  /** A new stream is not waiting; in a running loop it is called last. */
  lemma InvAttach(patient: bool, p: Pool)
    requires Inv(patient, p)
    ensures Inv(patient, Attached(p))
  {
    AttachStuck(p);
    ShapeAttach(patient, p);
    hide Shape, Stuck, Writes, Below, InOrder;
  }

  lemma InvLoopEnds(patient: bool, p: Pool)
    requires Inv(patient, p) && p.todo == []
    ensures Inv(patient, p.(looping := false))
  {
    assert Stuck(p.(looping := false)) == Stuck(p);
    hide Writes, Below, Stuck;
  }

  lemma InvStep(patient: bool, p: Pool, e: Event)
    requires Inv(patient, p) && Enabled(patient, p, e)
    ensures Inv(patient, Step(patient, p, e))
  {
    hide Inv;
    match e
    case Write(i) => InvWrite(patient, p, i);
    case TakeEnd(txn) => InvTakeEnd(patient, p, txn);
    case Ack => InvAck(patient, p);
    case Notify => InvNotify(patient, p);
    case LoopEnds => InvLoopEnds(patient, p);
    case Attach => InvAttach(patient, p);
  }

  lemma InvStart(patient: bool, window: nat, n: nat)
    requires window >= 1 && n >= 1
    ensures Inv(patient, Start(window, n))
  {
    assert Stuck(Start(window, n)) == {};
  }

  lemma {:induction false} AlwaysInv(patient: bool, window: nat, n: nat, events: seq<Event>)
    requires window >= 1 && n >= 1
    ensures
      var p := Reach(patient, window, n, events);
      p.window == window && p.n >= n && Inv(patient, p)
    decreases |events|
  {
    hide Inv;
    if events == [] {
      InvStart(patient, window, n);
    } else {
      var before, last := events[..|events| - 1], events[|events| - 1];
      AlwaysInv(patient, window, n, before);
      var p := Reach(patient, window, n, before);
      if Enabled(patient, p, last) {
        InvStep(patient, p, last);
      }
    }
  }

  /**
   The soft window: in every reachable state, also inside the listener loop, and whatever slots
   transaction ends take besides.
   */
  lemma SoftWindow(window: nat, n: nat, events: seq<Event>)
    requires window >= 1 && n >= 1
    ensures var p := Reach(true, window, n, events); Writes(p.queue) <= window + p.n - 1
    ensures var p := Reach(false, window, n, events); Writes(p.queue) <= window + 2 * p.n - 2
  {
    AlwaysInv(true, window, n, events);
    AlwaysInv(false, window, n, events);
    var p, q := Reach(true, window, n, events), Reach(false, window, n, events);
    Fits(Stuck(p), Below(p.n));
    Fits(Stuck(q), Below(q.n));
    Fits(q.twice, Below(q.n) - {0});
  }

  predicate OnlyWrites(queue: seq<Slot>) {
    forall i | 0 <= i < |queue| :: queue[i] == Single
  }

  lemma OnlyWritesStep(patient: bool, p: Pool, e: Event)
    requires OnlyWrites(p.queue) && !e.TakeEnd?
    ensures OnlyWrites(Step(patient, p, e).queue)
  {
    if p.queue != [] {
      assert forall i | 0 <= i < |p.queue| - 1 :: Acked(p.queue)[i] == p.queue[i + 1];
    }
  }

  /** Without transaction ends every slot is a stream's, so the bounds are on everything outstanding. */
  lemma {:induction false} WritesOnly(patient: bool, window: nat, n: nat, events: seq<Event>)
    requires forall i | 0 <= i < |events| :: !events[i].TakeEnd?
    ensures OnlyWrites(Reach(patient, window, n, events).queue)
    decreases |events|
  {
    if events != [] {
      var before := events[..|events| - 1];
      WritesOnly(patient, window, n, before);
      OnlyWritesStep(patient, Reach(patient, window, n, before), events[|events| - 1]);
    }
  }

  lemma {:induction false} AllWrites(queue: seq<Slot>)
    requires OnlyWrites(queue)
    ensures Writes(queue) == |queue|
    decreases |queue|
  {
    if queue != [] {
      AllWrites(queue[..|queue| - 1]);
    }
  }

  lemma SoftWindowWithoutEnds(window: nat, n: nat, events: seq<Event>)
    requires window >= 1 && n >= 1
    requires forall i | 0 <= i < |events| :: !events[i].TakeEnd?
    ensures var p := Reach(true, window, n, events); |p.queue| <= window + p.n - 1
    ensures var p := Reach(false, window, n, events); |p.queue| <= window + 2 * p.n - 2
  {
    SoftWindow(window, n, events);
    WritesOnly(true, window, n, events);
    WritesOnly(false, window, n, events);
    AllWrites(Reach(true, window, n, events).queue);
    AllWrites(Reach(false, window, n, events).queue);
  }

  /**
   No lost wake-up: between loops, a stream that waits for `drain` waits on a window that is
   closed, with at least a whole window of acks still owed, whoever took the slots.
   */
  lemma NoLostWakeUp(patient: bool, window: nat, n: nat, events: seq<Event>, i: nat)
    requires window >= 1 && n >= 1
    requires var p := Reach(patient, window, n, events); !p.looping && i in p.blocked
    ensures Full(window, |Reach(patient, window, n, events).queue|)
  {
    AlwaysInv(patient, window, n, events);
    assert i in Stuck(Reach(patient, window, n, events));
  }

  function Acks(k: nat): (es: seq<Event>)
    ensures |es| == k
  {
    if k == 0 then [] else Acks(k - 1) + [Ack]
  }

  lemma ReachSnoc(patient: bool, window: nat, n: nat, events: seq<Event>, e: Event)
    ensures Reach(patient, window, n, events + [e]) == Step(patient, Reach(patient, window, n, events), e)
  {
    assert (events + [e])[..|events + [e]| - 1] == events;
  }

  /** What one ack does for a waiting stream. */
  lemma AckHelps(patient: bool, p: Pool, i: nat)
    requires Inv(patient, p) && !p.looping && i in p.blocked
    ensures
      var q := Step(patient, p, Ack);
      && q.window == p.window && |q.queue| == |p.queue| - 1
      && (if |p.queue| > p.window then !q.looping && i in q.blocked else i !in q.blocked || i in q.todo)
  {
    hide Writes;
    assert i in Stuck(p);
    if |p.queue| == p.window && i != 0 {
      assert Listeners(1, p.n)[i - 1] == i;
    }
  }

  /** The ack that finds the window exactly full. */
  ghost predicate Edge(p: Pool, e: Event) {
    e.Ack? && !p.looping && Reopens(p.window, |p.queue|)
  }

  /** Only that ack concerns a stream that waits, whatever else happens. */
  lemma EdgeStep(patient: bool, p: Pool, e: Event, i: nat)
    requires Inv(patient, p) && i in Stuck(p)
    ensures var q := Step(patient, p, e); if Edge(p, e) then i !in q.blocked || i in q.todo else i in Stuck(q)
  {
    hide Writes;
    if Edge(p, e) && i != 0 {
      assert Listeners(1, p.n)[i - 1] == i;
    }
    if e.Notify? && p.todo != [] {
      assert p.todo[0] in p.todo;
    }
  }

  /** The events of `more` up to `j` do not include that ack. */
  ghost predicate NoEdge(patient: bool, window: nat, n: nat, events: seq<Event>, more: seq<Event>, j: nat)
    requires j <= |more|
  {
    forall k | 0 <= k < j :: !Edge(Reach(patient, window, n, events + more[..k]), more[k])
  }

  lemma {:induction false} StaysWaiting(patient: bool, window: nat, n: nat, events: seq<Event>, more: seq<Event>, j: nat, i: nat)
    requires window >= 1 && n >= 1 && i in Stuck(Reach(patient, window, n, events))
    requires j <= |more| && NoEdge(patient, window, n, events, more, j)
    ensures i in Stuck(Reach(patient, window, n, events + more[..j]))
    decreases j
  {
    hide Step, Reach, Stuck, Edge, Inv;
    if j == 0 {
      assert events + more[..0] == events;
    } else {
      var before := events + more[..j - 1];
      StaysWaiting(patient, window, n, events, more, j - 1, i);
      AlwaysInv(patient, window, n, before);
      EdgeStep(patient, Reach(patient, window, n, before), more[j - 1], i);
      ReachSnoc(patient, window, n, before, more[j - 1]);
      assert before + [more[j - 1]] == events + more[..j];
    }
  }

  /**
   And the wake-up comes. However the run goes on, with acks of writes and of ends, further writes
   and ends of others, and streams joining: the stream waits on as long as no ack finds the window
   exactly full, and the first one that does notifies it or puts it among those to be notified.
   */
  lemma WakeUpComes(patient: bool, window: nat, n: nat, events: seq<Event>, more: seq<Event>, i: nat)
    requires window >= 1 && n >= 1 && i in Stuck(Reach(patient, window, n, events))
    ensures NoEdge(patient, window, n, events, more, |more|) ==> i in Stuck(Reach(patient, window, n, events + more))
    ensures forall j | 0 <= j < |more| && NoEdge(patient, window, n, events, more, j)
        && Edge(Reach(patient, window, n, events + more[..j]), more[j]) ::
      var q := Reach(patient, window, n, events + more[..j + 1]); i !in q.blocked || i in q.todo
  {
    hide Step, Reach, Stuck, Edge, Inv;
    assert events + more[..|more|] == events + more;
    if NoEdge(patient, window, n, events, more, |more|) {
      StaysWaiting(patient, window, n, events, more, |more|, i);
    }
    forall j | 0 <= j < |more| && NoEdge(patient, window, n, events, more, j)
        && Edge(Reach(patient, window, n, events + more[..j]), more[j])
      ensures var q := Reach(patient, window, n, events + more[..j + 1]); i !in q.blocked || i in q.todo
    {
      var before := events + more[..j];
      StaysWaiting(patient, window, n, events, more, j, i);
      AlwaysInv(patient, window, n, before);
      EdgeStep(patient, Reach(patient, window, n, before), more[j], i);
      ReachSnoc(patient, window, n, before, more[j]);
      assert before + [more[j]] == events + more[..j + 1];
    }
  }

  lemma TurnStep(patient: bool, p: Pool, e: Event, i: nat)
    requires Inv(patient, p) && i in p.todo
    ensures var q := Step(patient, p, e); i in q.todo || i !in q.blocked
  {
    hide Writes;
    if e.Notify? && p.todo[0] != i {
      assert i in p.todo[1..];
    }
  }

  lemma InLoop(patient: bool, p: Pool, i: nat)
    requires Inv(patient, p) && i in p.todo
    ensures p.looping
  {
  }

  lemma Regroup(events: seq<Event>, more: seq<Event>, k: nat)
    requires k < |more|
    ensures (events + [more[0]]) + more[1..][..k] == events + more[..k + 1]
  {
    assert more[..k + 1] == [more[0]] + more[1..][..k];
  }

  /** A stream that is to be notified gets its turn before the loop ends. */
  lemma {:induction false} TurnComes(patient: bool, window: nat, n: nat, events: seq<Event>, more: seq<Event>, i: nat)
    requires window >= 1 && n >= 1 && i in Reach(patient, window, n, events).todo
    requires !Reach(patient, window, n, events + more).looping
    ensures exists k | 0 <= k < |more| ::
      && i in Reach(patient, window, n, events + more[..k]).todo
      && i !in Reach(patient, window, n, events + more[..k + 1]).blocked
    decreases |more|
  {
    hide Step, Reach, Inv;
    AlwaysInv(patient, window, n, events);
    InLoop(patient, Reach(patient, window, n, events), i);
    assert events + [] == events;
    TurnStep(patient, Reach(patient, window, n, events), more[0], i);
    ReachSnoc(patient, window, n, events, more[0]);
    assert events + more[..0] == events && events + more[..1] == events + [more[0]];
    if i in Reach(patient, window, n, events + [more[0]]).todo {
      var next, rest := events + [more[0]], more[1..];
      assert next + rest == events + more;
      TurnComes(patient, window, n, next, rest, i);
      var k :| 0 <= k < |rest| && i in Reach(patient, window, n, next + rest[..k]).todo
               && i !in Reach(patient, window, n, next + rest[..k + 1]).blocked;
      Regroup(events, more, k);
      Regroup(events, more, k + 1);
    }
  }

  /** If nothing else happens, the acks that are owed suffice, and the number that it takes is exact. */
  lemma {:induction false} AcksSuffice(patient: bool, window: nat, n: nat, events: seq<Event>, i: nat, k: nat)
    requires window >= 1 && n >= 1
    requires var p := Reach(patient, window, n, events); !p.looping && i in p.blocked
    requires k <= |Reach(patient, window, n, events).queue| - window + 1
    ensures
      var p := Reach(patient, window, n, events);
      var q := Reach(patient, window, n, events + Acks(k));
      && |q.queue| == |p.queue| - k
      && (if k <= |p.queue| - window then !q.looping && i in q.blocked else i !in q.blocked || i in q.todo)
    decreases k
  {
    NoLostWakeUp(patient, window, n, events, i);
    if k == 0 {
      assert events + Acks(0) == events;
    } else {
      var before := events + Acks(k - 1);
      AcksSuffice(patient, window, n, events, i, k - 1);
      AlwaysInv(patient, window, n, before);
      hide Inv, Reach, Step;
      AckHelps(patient, Reach(patient, window, n, before), i);
      ReachSnoc(patient, window, n, before, Ack);
      assert events + Acks(k) == before + [Ack];
    }
  }

  /* -------------------------------- the bounds are reached -------------------------------- */

  /** A queue that only stream writes have filled. */
  function Singles(k: nat): (queue: seq<Slot>)
    ensures |queue| == k && OnlyWrites(queue)
  {
    seq(k, _ => Single)
  }

  lemma {:induction false} Fill(patient: bool, window: nat, n: nat, k: nat) returns (es: seq<Event>)
    requires window >= 1 && n >= 1 && k <= window
    ensures Reach(patient, window, n, es) == Pool(window, n, Singles(k), if k == window then {0} else {}, false, [], {})
  {
    if k == 0 {
      es := [];
    } else {
      var before := Fill(patient, window, n, k - 1);
      ReachSnoc(patient, window, n, before, Write(0));
      assert Singles(k - 1) + [Single] == Singles(k);
      es := before + [Write(0)];
    }
  }

  lemma OverfillStep(window: nat, n: nat, m: nat)
    requires window >= 1 && 1 <= m < n
    ensures Step(true, Pool(window, n, Singles(window + m - 1), Below(m), false, [], {}), Write(m))
         == Pool(window, n, Singles(window + m), Below(m + 1), false, [], {})
  {
    assert Singles(window + m - 1) + [Single] == Singles(window + m);
    assert Below(m) + {m} == Below(m + 1);
  }

  /** Every other stream adds one write to a window that the first stream has filled. */
  lemma {:induction false} Overfill(window: nat, n: nat, m: nat) returns (es: seq<Event>)
    requires window >= 1 && m < n
    ensures Reach(true, window, n, es) == Pool(window, n, Singles(window + m), Below(m + 1), false, [], {})
  {
    if m == 0 {
      es := Fill(true, window, n, window);
      assert Below(1) == {0};
    } else {
      var before := Overfill(window, n, m - 1);
      hide Reach, Step;
      ReachSnoc(true, window, n, before, Write(m));
      OverfillStep(window, n, m);
      es := before + [Write(m)];
    }
  }

  lemma RushStart(window: nat, n: nat) returns (es: seq<Event>)
    requires window >= 1 && n >= 1
    ensures Reach(false, window, n, es) == Pool(window, n, Singles(window), {0}, true, Listeners(1, n), {})
  {
    var full := Fill(false, window, n, window);
    ReachSnoc(false, window, n, full, Ack);
    var woken := full + [Ack];
    assert {0} - {0} == {};
    assert Acked(Singles(window)) == Singles(window - 1);
    ReachSnoc(false, window, n, woken, Write(0));
    assert Singles(window - 1) + [Single] == Singles(window);
    es := woken + [Write(0)];
    assert 0 !in Listeners(1, n);
  }

  lemma RushStep(window: nat, n: nat, m: nat, p: Pool)
    requires window >= 1 && 1 <= m < n
    requires p == Pool(window, n, Singles(window + m - 1), Below(m), true, Listeners(1, n), Below(m) - {0})
    ensures Step(false, p, Write(m))
         == Pool(window, n, Singles(window + m), Below(m + 1), true, Listeners(1, n), Below(m + 1) - {0})
  {
    assert p.todo[m - 1] == m;
    assert (Below(m) - {0}) + {m} == Below(m + 1) - {0};
    assert Singles(window + m - 1) + [Single] == Singles(window + m);
  }

  /** In the loop, the first listener refills the window and the others write before their turn. */
  lemma {:induction false} Rush(window: nat, n: nat, m: nat) returns (es: seq<Event>)
    requires window >= 1 && m < n
    ensures Reach(false, window, n, es)
         == Pool(window, n, Singles(window + m), Below(m + 1), true, Listeners(1, n), Below(m + 1) - {0})
  {
    hide Step, Reach;
    if m == 0 {
      es := RushStart(window, n);
      assert Below(1) == {0} && {0} - {0} == {};
    } else {
      var before := Rush(window, n, m - 1);
      ReachSnoc(false, window, n, before, Write(m));
      RushStep(window, n, m, Reach(false, window, n, before));
      es := before + [Write(m)];
    }
  }

  lemma RushAgainStep(window: nat, n: nat, m: nat, p: Pool)
    requires window >= 1 && 1 <= m < n
    requires p == Pool(window, n, Singles(window + n + m - 2), Below(n), true, Listeners(m, n), Below(n) - {0})
    ensures Step(false, Step(false, p, Notify), Write(m))
         == Pool(window, n, Singles(window + n - 1 + m), Below(n), true, Listeners(m + 1, n), Below(n) - {0})
  {
    assert Listeners(m, n)[1..] == Listeners(m + 1, n);
    assert (Below(n) - {m}) + {m} == Below(n);
    assert m !in Listeners(m + 1, n);
    assert Singles(window + n + m - 2) + [Single] == Singles(window + n - 1 + m);
  }

  /** Then each of them is notified in turn and writes once more. */
  lemma {:induction false} RushAgain(window: nat, n: nat, m: nat) returns (es: seq<Event>)
    requires window >= 1 && m < n
    ensures Reach(false, window, n, es)
         == Pool(window, n, Singles(window + n - 1 + m), Below(n), true, Listeners(m + 1, n), Below(n) - {0})
  {
    hide Step, Reach;
    if m == 0 {
      es := Rush(window, n, n - 1);
    } else {
      var before := RushAgain(window, n, m - 1);
      RushAgainStep(window, n, m, Reach(false, window, n, before));
      ReachSnoc(false, window, n, before, Notify);
      ReachSnoc(false, window, n, before + [Notify], Write(m));
      es := before + [Notify] + [Write(m)];
    }
  }

  lemma PatientReached(window: nat, n: nat)
    requires window >= 1 && n >= 1
    ensures exists es :: Reach(true, window, n, es).n == n && Writes(Reach(true, window, n, es).queue) == window + n - 1
  {
    var es := Overfill(window, n, n - 1);
    AllWrites(Singles(window + n - 1));
    hide Writes;
    assert Reach(true, window, n, es).n == n && Writes(Reach(true, window, n, es).queue) == window + n - 1;
  }

  lemma RushReached(window: nat, n: nat)
    requires window >= 1 && n >= 1
    ensures exists es ::
      Reach(false, window, n, es).n == n && Writes(Reach(false, window, n, es).queue) == window + 2 * n - 2
  {
    var es := RushAgain(window, n, n - 1);
    AllWrites(Singles(window + 2 * n - 2));
    hide Writes;
    assert Reach(false, window, n, es).n == n && Writes(Reach(false, window, n, es).queue) == window + 2 * n - 2;
  }

  /**
   The bound `window + n - 1` is exact for patient handlers. Without that discipline it holds, as
   long as no further stream attaches, exactly when there is a single stream; the exact bound is
   then `window + 2 * n - 2`.
   */
  lemma SoftWindowExact(window: nat, n: nat)
    requires window >= 1 && n >= 1
    ensures exists es :: Reach(true, window, n, es).n == n && Writes(Reach(true, window, n, es).queue) == window + n - 1
    ensures exists es ::
      Reach(false, window, n, es).n == n && Writes(Reach(false, window, n, es).queue) == window + 2 * n - 2
    ensures
      (forall es | Reach(false, window, n, es).n == n :: Writes(Reach(false, window, n, es).queue) <= window + n - 1)
      <==> n == 1
  {
    hide Reach, Writes;
    PatientReached(window, n);
    RushReached(window, n);
    if n == 1 {
      forall es | Reach(false, window, n, es).n == n ensures Writes(Reach(false, window, n, es).queue) <= window + n - 1 {
        SoftWindow(window, n, es);
      }
    }
  }
}
