/**
 Credits over one connected session: the client, a FIFO channel to a server that answers each
 packet and each end with one drain in arrival order, and the FIFO channel back. A drain carries
 no id, so what it settles is decided by the client's queue alone.
 */
module Link {
  import opened Gate
  import opened Txn
  import opened Atomicity

  /**
   `owed` are the frames whose drain is on its way back and `drained` those whose drain has
   arrived; the client sees neither, only that a drain came.
   */
  datatype Link = Link(
    client: Client,
    queue: seq<Slot>,
    settled: seq<Settlement>,
    wire: seq<Frame>,
    owed: seq<Frame>,
    drained: seq<Frame>)

  datatype Event = Calls(call: Call) | Serve | DrainArrives

  const IDLE := Link(NEW_CLIENT, [], [], [], [], [])

  /** A frame and its slot go out together; drains pop the queue. Impossible events do nothing. */
  function Step(id: Allocator, l: Link, e: Event): Link {
    match e
    case Calls(call) =>
      if !CanMake(l.client, call) then l
      else
        var out := Output(id, l.client, call);
        l.(client := Make(id, l.client, call), queue := l.queue + Slots(out), wire := l.wire + out)
    case Serve =>
      if l.wire == [] then l
      else
        var f := l.wire[0];
        l.(wire := l.wire[1..], owed := if SlotsOf(f) == [] then l.owed else l.owed + [f])
    case DrainArrives =>
      if l.owed == [] then l
      else
        l.(queue := Acked(l.queue),
           settled := l.settled + Resolutions(Head(l.queue)),
           owed := l.owed[1..],
           drained := l.drained + [l.owed[0]])
  }

  function Reach(id: Allocator, events: seq<Event>): Link {
    if events == [] then IDLE
    else Step(id, Reach(id, events[..|events| - 1]), events[|events| - 1])
  }

  lemma {:induction false} SlotsConcat(a: seq<Frame>, b: seq<Frame>)
    ensures Slots(a + b) == Slots(a) + Slots(b)
    decreases |b|
  {
    if b == [] {
      assert a + b == a;
    } else {
      assert (a + b)[..|a + b| - 1] == a + b[..|b| - 1];
      SlotsConcat(a, b[..|b| - 1]);
    }
  }

  lemma SlotsHead(frames: seq<Frame>)
    requires frames != []
    ensures Slots(frames) == SlotsOf(frames[0]) + Slots(frames[1..])
  {
    assert frames == frames[..1] + frames[1..];
    SlotsConcat(frames[..1], frames[1..]);
    assert frames[..1][..0] == [];
  }

  lemma {:induction false} ResolutionsConcat(a: seq<Slot>, b: seq<Slot>)
    ensures Resolutions(a + b) == Resolutions(a) + Resolutions(b)
  {
    if a == [] {
      assert a + b == b;
    } else {
      assert (a + b)[1..] == a[1..] + b;
      ResolutionsConcat(a[1..], b);
    }
  }

  /** A frame that takes exactly one slot; only these are owed a drain. */
  predicate TakesSlot(f: Frame) {
    |SlotsOf(f)| == 1
  }

  ghost predicate Balanced(l: Link) {
    && l.queue == Slots(l.owed) + Slots(l.wire)
    && Slots(l.client.sent) == Slots(l.drained) + l.queue
    && l.settled == Resolutions(Slots(l.drained))
    && (forall i | 0 <= i < |l.owed| :: TakesSlot(l.owed[i]))
  }

  lemma Reassociate<T>(a: seq<T>, b: seq<T>, c: seq<T>)
    ensures (a + b) + c == a + (b + c)
  {
  }

  lemma BalancedCall(id: Allocator, l: Link, call: Call)
    requires Balanced(l) && CanMake(l.client, call)
    ensures Balanced(Step(id, l, Calls(call)))
  {
    var out := Output(id, l.client, call);
    CallMoves(l, out, Make(id, l.client, call));
  }

  lemma CallMoves(l: Link, out: seq<Frame>, client: Client)
    requires Balanced(l) && client.sent == l.client.sent + out
    ensures Balanced(l.(client := client, queue := l.queue + Slots(out), wire := l.wire + out))
  {
    SlotsConcat(l.wire, out);
    SlotsConcat(l.client.sent, out);
    Reassociate(Slots(l.owed), Slots(l.wire), Slots(out));
    Reassociate(Slots(l.drained), l.queue, Slots(out));
  }

  lemma SlotsOne(f: Frame)
    ensures Slots([f]) == SlotsOf(f)
  {
    assert [f][..0] == [];
  }

  lemma BalancedServe(id: Allocator, l: Link)
    requires Balanced(l) && l.wire != []
    ensures Balanced(Step(id, l, Serve))
  {
    var f := l.wire[0];
    SlotsHead(l.wire);
    if SlotsOf(f) == [] {
      assert SlotsOf(f) + Slots(l.wire[1..]) == Slots(l.wire[1..]);
    } else {
      SlotsConcat(l.owed, [f]);
      SlotsOne(f);
      Reassociate(Slots(l.owed), SlotsOf(f), Slots(l.wire[1..]));
    }
  }

  lemma BalancedDrain(id: Allocator, l: Link)
    requires Balanced(l) && l.owed != []
    ensures Balanced(Step(id, l, DrainArrives))
  {
    var f := l.owed[0];
    SlotsHead(l.owed);
    SlotsConcat(l.drained, [f]);
    SlotsOne(f);
    assert TakesSlot(f);
    Reassociate(SlotsOf(f), Slots(l.owed[1..]), Slots(l.wire));
    var others := Slots(l.owed[1..]) + Slots(l.wire);
    assert l.queue == SlotsOf(f) + others;
    assert Head(l.queue) == SlotsOf(f) && Acked(l.queue) == others;
    Reassociate(Slots(l.drained), SlotsOf(f), others);
    ResolutionsConcat(Slots(l.drained), SlotsOf(f));
  }

  lemma {:induction false} AlwaysBalanced(id: Allocator, events: seq<Event>)
    ensures Balanced(Reach(id, events))
    decreases |events|
  {
    if events != [] {
      var before, last := events[..|events| - 1], events[|events| - 1];
      AlwaysBalanced(id, before);
      var l := Reach(id, before);
      match last
      case Calls(call) => if CanMake(l.client, call) { BalancedCall(id, l, call); }
      case Serve => if l.wire != [] { BalancedServe(id, l); }
      case DrainArrives => if l.owed != [] { BalancedDrain(id, l); }
    }
  }

  lemma {:induction false} OwedCount(frames: seq<Frame>)
    requires forall i | 0 <= i < |frames| :: TakesSlot(frames[i])
    ensures |Slots(frames)| == |frames|
    decreases |frames|
  {
    if frames != [] {
      OwedCount(frames[..|frames| - 1]);
    }
  }

  /** The window's counter is always the writes in flight plus the drains in flight. */
  lemma CreditConservation(id: Allocator, events: seq<Event>)
    ensures var l := Reach(id, events); |l.queue| == |Slots(l.wire)| + |l.owed|
  {
    AlwaysBalanced(id, events);
    OwedCount(Reach(id, events).owed);
  }

  /** The slot that an arriving drain frees is the slot of the very frame it answers. */
  lemma DrainMatches(id: Allocator, events: seq<Event>)
    ensures var l := Reach(id, events); l.owed != [] ==> Head(l.queue) == SlotsOf(l.owed[0])
  {
    AlwaysBalanced(id, events);
    if Reach(id, events).owed != [] {
      SlotsHead(Reach(id, events).owed);
    }
  }

  lemma {:induction false} ResolvedMeansEnd(frames: seq<Frame>, txn: string)
    ensures Resolved(txn) in Resolutions(Slots(frames)) <==> End(txn) in frames
    decreases |frames|
  {
    if frames != [] {
      var before, last := frames[..|frames| - 1], frames[|frames| - 1];
      ResolvedMeansEnd(before, txn);
      ResolutionsConcat(Slots(before), SlotsOf(last));
      assert frames == before + [last];
    }
  }

  /** A transaction's `end()` has resolved exactly when the drain of its own end frame has arrived. */
  lemma EndResolvedByItsOwnDrain(id: Allocator, events: seq<Event>, txn: string)
    ensures var l := Reach(id, events); Resolved(txn) in l.settled <==> End(txn) in l.drained
  {
    AlwaysBalanced(id, events);
    ResolvedMeansEnd(Reach(id, events).drained, txn);
  }
}
