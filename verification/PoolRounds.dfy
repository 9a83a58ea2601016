/**
 The listener loop of a pool of streams is a round of the gate: what `Streams` says of pools holds
 of `BackpressureGate.Ack`.
 */
module PoolRounds {
  import opened Gate
  import opened Streams

  /* ------------------------------ rounds, call after call ------------------------------ */

  /** The calls of a script, from the first on, as long as somebody is to be called. */
  function Calls(r: Round, script: seq<seq<Op>>): Round {
    if script == [] then r
    else
      var before := Calls(r, script[..|script| - 1]);
      if before.ahead == [] then before else Called(before, script[|script| - 1])
  }

  /** No call of the script lacks a listener. */
  ghost predicate AllCalled(r: Round, script: seq<seq<Op>>) {
    forall j | 0 <= j < |script| :: Calls(r, script[..j]).ahead != []
  }

  lemma {:induction false} CallsFront(r: Round, script: seq<seq<Op>>)
    requires script != [] && r.ahead != []
    ensures Calls(r, script) == Calls(Called(r, script[0]), script[1..])
    decreases |script|
  {
    var init := script[..|script| - 1];
    if |script| == 1 {
      assert init == [];
    } else {
      CallsFront(r, init);
      assert script[1..][..|script| - 2] == init[1..];
    }
  }

  /** A script that calls everybody is the whole loop. */
  lemma {:induction false} WokenCalls(r: Round, script: seq<seq<Op>>)
    requires AllCalled(r, script) && Calls(r, script).ahead == []
    ensures Woken(r, script) == Calls(r, script)
    decreases |script|
  {
    if script != [] {
      assert script[..0] == [] && r.ahead != [];
      var next, rest := Called(r, script[0]), script[1..];
      CallsFront(r, script);
      forall j | 0 <= j < |rest| ensures Calls(next, rest[..j]).ahead != [] {
        CallsFront(r, script[..j + 1]);
        assert script[..j + 1][1..] == rest[..j];
      }
      WokenCalls(next, rest);
    }
  }

  /** One more operation in the latest call. */
  function Adding(script: seq<seq<Op>>, op: Op): seq<seq<Op>>
    requires script != []
  {
    script[..|script| - 1] + [script[|script| - 1] + [op]]
  }

  lemma CallsAdding(r: Round, script: seq<seq<Op>>, op: Op)
    requires script != [] && AllCalled(r, script)
    ensures AllCalled(r, Adding(script, op)) && Calls(r, Adding(script, op)) == Done(Calls(r, script), op)
  {
    var more, init, last := Adding(script, op), script[..|script| - 1], script[|script| - 1];
    forall j | 0 <= j < |more| ensures Calls(r, more[..j]).ahead != [] {
      assert more[..j] == script[..j];
    }
    assert more[..|more| - 1] == init;
    assert (last + [op])[..|last + [op]| - 1] == last;
  }

  lemma CallsNext(r: Round, script: seq<seq<Op>>)
    requires AllCalled(r, script) && Calls(r, script).ahead != []
    ensures AllCalled(r, script + [[]])
    ensures
      var before := Calls(r, script);
      Calls(r, script + [[]])
        == before.(behind := before.behind + before.ahead[..1], ahead := before.ahead[1..],
                   wakes := before.wakes + before.ahead[..1])
  {
    var more := script + [[]];
    assert more[..|more| - 1] == script;
    forall j | 0 <= j < |more| ensures Calls(r, more[..j]).ahead != [] {
      assert more[..j] == script[..j];
      if j == |script| { assert script[..j] == script; }
    }
  }

  /* ------------------------------ the loop of a pool ------------------------------ */

  /** What the listeners do in a run of a pool's loop, call after call; the first is called at once. */
  function Script(patient: bool, p: Pool, es: seq<Event>): (script: seq<seq<Op>>)
    ensures script != []
  {
    if es == [] then [[]]
    else
      var before, last := Script(patient, p, es[..|es| - 1]), es[|es| - 1];
      var at := Onward(patient, p, es[..|es| - 1]);
      if !Enabled(patient, at, last) then before
      else match last
        case Write(_) => Adding(before, Takes(Single))
        case TakeEnd(txn) => Adding(before, Takes(EndOf(txn)))
        case Attach => Adding(before, Attaches(at.n))
        case Notify => before + [[]]
        case _ => before
  }

  function Onward(patient: bool, p: Pool, es: seq<Event>): Pool {
    if es == [] then p else Step(patient, Onward(patient, p, es[..|es| - 1]), es[|es| - 1])
  }

  /** The gate of a pool in its loop. */
  function RoundOf(p: Pool, settled: seq<Settlement>, wakes: seq<Listener>): Round
    requires |p.todo| <= p.n
  {
    var called := Listeners(0, p.n - |p.todo|);
    Round(called, p.todo, p.queue, settled, wakes + called)
  }

  /** The gate of a pool between loops. */
  function StateOf(p: Pool, settled: seq<Settlement>, wakes: seq<Listener>): State {
    State(Listeners(0, p.n), p.queue, settled, wakes)
  }

  ghost predicate InTurn(p: Pool) {
    p.looping && |p.todo| < p.n && p.todo == Listeners(p.n - |p.todo|, p.n)
  }

  lemma RoundStep(patient: bool, p: Pool, e: Event, r: Round, script: seq<seq<Op>>, settled: seq<Settlement>,
                  wakes: seq<Listener>)
    requires InTurn(p) && !e.LoopEnds? && Enabled(patient, p, e)
    requires script != [] && AllCalled(r, script) && Calls(r, script) == RoundOf(p, settled, wakes)
    ensures
      var q := Step(patient, p, e);
      var more := match e
        case Write(_) => Adding(script, Takes(Single))
        case TakeEnd(txn) => Adding(script, Takes(EndOf(txn)))
        case Attach => Adding(script, Attaches(p.n))
        case Notify => script + [[]]
        case _ => script;
      InTurn(q) && AllCalled(r, more) && Calls(r, more) == RoundOf(q, settled, wakes)
  {
    hide Calls, AllCalled, Adding;
    match e
    case Write(_) => CallsAdding(r, script, Takes(Single));
    case TakeEnd(txn) => CallsAdding(r, script, Takes(EndOf(txn)));
    case Attach =>
      CallsAdding(r, script, Attaches(p.n));
      assert p.todo + [p.n] == Listeners(p.n - |p.todo|, p.n + 1);
    case Notify =>
      CallsNext(r, script);
      var k := p.n - |p.todo|;
      assert p.todo[..1] == [k] && Listeners(0, k) + [k] == Listeners(0, k + 1);
      assert p.todo[1..] == Listeners(k + 1, p.n);
      assert (wakes + Listeners(0, k)) + [k] == wakes + Listeners(0, k + 1);
  }

  lemma {:induction false} RoundOnward(patient: bool, p: Pool, es: seq<Event>, r: Round, settled: seq<Settlement>,
                                       wakes: seq<Listener>)
    requires InTurn(p) && Calls(r, [[]]) == RoundOf(p, settled, wakes) && r.ahead != []
    requires forall j | 0 <= j < |es| :: !es[j].LoopEnds?
    ensures
      var q, script := Onward(patient, p, es), Script(patient, p, es);
      InTurn(q) && AllCalled(r, script) && Calls(r, script) == RoundOf(q, settled, wakes)
    decreases |es|
  {
    hide Calls, AllCalled, InTurn;
    if es == [] {
      FirstCalled(r);
    } else {
      var before, last := es[..|es| - 1], es[|es| - 1];
      RoundOnward(patient, p, before, r, settled, wakes);
      if Enabled(patient, Onward(patient, p, before), last) {
        RoundStep(patient, Onward(patient, p, before), last, r, Script(patient, p, before), settled, wakes);
      }
    }
  }

  lemma FirstCalled(r: Round)
    requires r.ahead != []
    ensures AllCalled(r, [[]])
  {
    var one: seq<seq<Op>> := [[]];
    assert one[..0] == [] && Calls(r, []) == r;
  }

  /** The gate of a pool whose window has just reopened, nobody called yet. */
  function Reopened(p: Pool, settled: seq<Settlement>, wakes: seq<Listener>): Round {
    Round([], Listeners(0, p.n), Acked(p.queue), settled + Resolutions(Head(p.queue)), wakes)
  }

  /** The ack calls the first listener itself. */
  lemma FirstRound(patient: bool, p: Pool, settled: seq<Settlement>, wakes: seq<Listener>)
    requires p.window >= 1 && p.n >= 1 && Edge(p, Ack)
    ensures var first := Step(patient, p, Ack); InTurn(first) && first.n == p.n && first.window == p.window
    ensures
      Calls(Reopened(p, settled, wakes), [[]])
        == RoundOf(Step(patient, p, Ack), settled + Resolutions(Head(p.queue)), wakes)
  {
    var r := Reopened(p, settled, wakes);
    var one: seq<seq<Op>> := [[]];
    assert one[..0] == [] && Calls(r, []) == r;
    assert r.ahead[..1] == Listeners(0, 1) && r.ahead[1..] == Listeners(1, p.n);
  }

  /**
   From the ack that reopens the window, through whatever the listeners do while they are called,
   to the moment at which all have been: the pool's queue, its streams and the order of the calls
   are what the gate's `Ack` makes of them.
   */
  lemma LoopIsRound(patient: bool, p: Pool, es: seq<Event>, settled: seq<Settlement>, wakes: seq<Listener>)
    requires Inv(patient, p) && Edge(p, Ack) && (forall j | 0 <= j < |es| :: !es[j].LoopEnds?)
    requires Onward(patient, Step(patient, p, Ack), es).todo == []
    ensures
      var first := Step(patient, p, Ack);
      var q := Onward(patient, first, es);
      AfterAck(p.window, StateOf(p, settled, wakes), Script(patient, first, es))
        == StateOf(q, settled + Resolutions(Head(p.queue)), wakes + Listeners(0, q.n))
  {
    hide Calls, AllCalled, InTurn, Script, Onward, Step, Woken;
    var first, r := Step(patient, p, Ack), Reopened(p, settled, wakes);
    FirstRound(patient, p, settled, wakes);
    RoundOnward(patient, first, es, r, settled + Resolutions(Head(p.queue)), wakes);
    WokenCalls(r, Script(patient, first, es));
  }
}
