/**
 RPCs over an auto-reconnecting transport: each call waits for one acknowledgement, survives
 reconnects by being emitted again, and is settled once.
 */
module SocketIoRpc {
  import opened Common
  import opened Json
  import opened Rpc

  datatype RpcEvent =
    | Sent
    | AckFor(id: nat, response: Json)
    | TimerOf(id: nat)
    | Connected
    | Disconnected
    | ClosedDown

  datatype Call = Call(channel: string, payload: Json)

  /* ------------------------------ what the history says ------------------------------ */

  /** How many calls were made; they are numbered from 1. */
  function Issued(events: seq<RpcEvent>): nat {
    if events == [] then 0
    else Issued(events[..|events| - 1]) + (if events[|events| - 1].Sent? then 1 else 0)
  }

  /** What an event does to a call that is still waiting. */
  function Settles(e: RpcEvent, id: nat, replay: bool): Option<Outcome> {
    match e
    case AckFor(i, response) => if i == id then Some(Answered(response)) else None
    case TimerOf(i) => if i == id then Some(Expired) else None
    case Disconnected => if replay then None else Some(Dropped)
    case ClosedDown => Some(Dropped)
    case _ => None
  }

  /** An acknowledgement answers its own call, a timer lets its own call expire, an end drops every call. */
  lemma SettlesExactly(id: nat, other: nat, response: Json, replay: bool)
    requires other != id
    ensures Settles(AckFor(id, response), id, replay) == Some(Answered(response))
    ensures Settles(AckFor(other, response), id, replay) == None
    ensures Settles(TimerOf(id), id, replay) == Some(Expired) && Settles(TimerOf(other), id, replay) == None
    ensures Settles(ClosedDown, id, replay) == Some(Dropped)
    ensures Settles(Disconnected, id, true) == None && Settles(Disconnected, id, false) == Some(Dropped)
    ensures Settles(Sent, id, replay) == None && Settles(Connected, id, replay) == None
  {
  }

  /** What became of a call: the first event after it was made that settles it. */
  function FateOf(events: seq<RpcEvent>, id: nat, replay: bool): Option<Outcome> {
    if events == [] then None
    else
      var before, e := events[..|events| - 1], events[|events| - 1];
      if FateOf(before, id, replay).Some? then FateOf(before, id, replay)
      else if 1 <= id <= Issued(before) then Settles(e, id, replay)
      else None
  }

  predicate Waiting(events: seq<RpcEvent>, id: nat, replay: bool) {
    1 <= id <= Issued(events) && FateOf(events, id, replay).None?
  }

  /** How often a call has been emitted: when made, and at every connect that found it waiting. */
  function Emissions(events: seq<RpcEvent>, id: nat, replay: bool): nat {
    if events == [] then 0
    else
      var before, e := events[..|events| - 1], events[|events| - 1];
      Emissions(before, id, replay)
      + (if e.Sent? && id == Issued(before) + 1 then 1
         else if e.Connected? && replay && Waiting(before, id, replay) then 1
         else 0)
  }

  /** What one more event changes. */
  lemma OneMore(events: seq<RpcEvent>, e: RpcEvent, replay: bool)
    ensures
      var es := events + [e];
      && Issued(es) == Issued(events) + (if e.Sent? then 1 else 0)
      && (forall id: nat :: FateOf(es, id, replay)
            == if Waiting(events, id, replay) then Settles(e, id, replay) else FateOf(events, id, replay))
      && (forall id: nat :: Waiting(es, id, replay)
            <==> (Waiting(events, id, replay) && Settles(e, id, replay).None?) || (e.Sent? && id == Issued(events) + 1))
      && (forall id: nat :: Emissions(es, id, replay) == Emissions(events, id, replay)
            + (if e.Sent? && id == Issued(events) + 1 then 1
               else if e.Connected? && replay && Waiting(events, id, replay) then 1
               else 0))
  {
    var es := events + [e];
    assert es[..|es| - 1] == events && es[|es| - 1] == e;
    OnlyIssued(events, Issued(events) + 1, replay);
  }

  lemma OneMoreCall(events: seq<RpcEvent>, replay: bool)
    ensures
      var es, id' := events + [Sent], Issued(events) + 1;
      && Issued(es) == id' && FateOf(es, id', replay).None?
      && (forall id: nat :: FateOf(es, id, replay) == FateOf(events, id, replay))
      && (forall id: nat :: Waiting(es, id, replay) <==> Waiting(events, id, replay) || id == id')
      && (forall id: nat :: Emissions(es, id, replay) == Emissions(events, id, replay) + (if id == id' then 1 else 0))
  {
    OneMore(events, Sent, replay);
    OnlyIssued(events, Issued(events) + 1, replay);
  }

  lemma OneMoreConnect(events: seq<RpcEvent>, replay: bool)
    ensures
      var es := events + [Connected];
      && Issued(es) == Issued(events)
      && (forall id: nat :: FateOf(es, id, replay) == FateOf(events, id, replay))
      && (forall id: nat :: Waiting(es, id, replay) <==> Waiting(events, id, replay))
      && (forall id: nat ::
            Emissions(es, id, replay) == Emissions(events, id, replay) + (if replay && Waiting(events, id, replay) then 1 else 0))
  {
    OneMore(events, Connected, replay);
  }

  /* ------------------------------------ the transport ------------------------------------ */

  class SocketIoClientTransport {
    const replay: bool
    var pendingRpcs: map<nat, Call>
    var nextRpcId: nat
    var destroyed: bool
    /** Deadline timers that can still fire. */
    var timers: set<nat>
    /** Call numbers in the order in which they were emitted on the socket. */
    var emitted: seq<nat>
    /** How each promise was settled. */
    var settled: map<nat, Outcome>
    ghost var events: seq<RpcEvent>

    /**
     Every call made is either pending or settled, as the history has it, never both; exactly the
     pending ones have a live timer; each was emitted as often as the history demands; a closed
     transport has nothing pending.
     */
    ghost predicate Valid()
      reads this
    {
      && nextRpcId == Issued(events)
      && timers == pendingRpcs.Keys
      && (forall id: nat :: id in pendingRpcs <==> Waiting(events, id, replay))
      && (forall id: nat :: id in settled <==> FateOf(events, id, replay).Some?)
      && (forall id: nat | id in settled :: settled[id] == FateOf(events, id, replay).value)
      && (forall id: nat :: multiset(emitted)[id] == Emissions(events, id, replay))
      && (destroyed ==> pendingRpcs == map[])
    }

    constructor (replay: bool)
      ensures Valid() && events == [] && this.replay == replay && !destroyed
    {
      this.replay := replay;
      pendingRpcs, nextRpcId, destroyed, timers, emitted, settled := map[], 0, false, {}, [], map[];
      events := [];
    }

    /** A destroyed transport refuses; otherwise the call gets the next number and goes out. */
    method SendRpc(channel: string, payload: Json) returns (r: Result<nat, ()>)
      requires Valid()
      modifies this
      ensures Valid() && destroyed == old(destroyed)
      ensures if destroyed then r.Failure? && events == old(events) && pendingRpcs == old(pendingRpcs)
              else events == old(events) + [Sent] && r == Success(nextRpcId)
                   && pendingRpcs == old(pendingRpcs)[nextRpcId := Call(channel, payload)]
                   && nextRpcId == old(nextRpcId) + 1
      ensures settled == old(settled)
      ensures forall i: nat ::
        multiset(emitted)[i] == multiset(old(emitted))[i] + (if !destroyed && i == nextRpcId then 1 else 0)
    {
      if destroyed {
        return Failure(());
      }
      hide Issued, FateOf, Emissions, Waiting;
      OneMoreCall(events, replay);
      events := events + [Sent];
      nextRpcId := nextRpcId + 1;
      Register(nextRpcId, Call(channel, payload));
      r := Success(nextRpcId);
    }

    /** The timer is armed and the call noted before it is emitted. */
    method Register(id: nat, call: Call)
      requires timers == pendingRpcs.Keys
      modifies this`timers, this`pendingRpcs, this`emitted
      ensures pendingRpcs == old(pendingRpcs)[id := call] && timers == pendingRpcs.Keys
      ensures forall i: nat :: multiset(emitted)[i] == multiset(old(emitted))[i] + (if i == id then 1 else 0)
    {
      timers := timers + {id};
      pendingRpcs := pendingRpcs[id := call];
      emitted := emitted + [id];
    }

    /** A promise is settled at most once: only one that has not been may be passed here. */
    method Settle(id: nat, outcome: Outcome)
      requires id !in settled
      modifies this`settled, this`timers
      ensures settled == old(settled)[id := outcome] && timers == old(timers) - {id}
    {
      timers := timers - {id};
      settled := settled[id := outcome];
    }

    /** Acknowledgements may come late, twice, or for calls that were replayed any number of times. */
    method OnAck(id: nat, response: Json)
      requires Valid()
      modifies this
      ensures Valid() && events == old(events) + [AckFor(id, response)]
      ensures emitted == old(emitted) && destroyed == old(destroyed)
      ensures id !in old(pendingRpcs) ==> settled == old(settled) && pendingRpcs == old(pendingRpcs)
      ensures id in old(pendingRpcs) ==>
        settled == old(settled)[id := Answered(response)] && pendingRpcs == old(pendingRpcs) - {id} && id !in timers
    {
      hide Issued, FateOf, Emissions;
      OneMore(events, AckFor(id, response), replay);
      events := events + [AckFor(id, response)];
      if id !in pendingRpcs {
        return;
      }
      pendingRpcs := pendingRpcs - {id};
      Settle(id, Answered(response));
    }

    method OnTimer(id: nat)
      requires Valid() && id in timers
      modifies this
      ensures Valid() && events == old(events) + [TimerOf(id)]
      ensures emitted == old(emitted) && destroyed == old(destroyed)
      ensures settled == old(settled)[id := Expired] && pendingRpcs == old(pendingRpcs) - {id} && id !in timers
    {
      hide Issued, FateOf, Emissions;
      OneMore(events, TimerOf(id), replay);
      events := events + [TimerOf(id)];
      if id in pendingRpcs {
        pendingRpcs := pendingRpcs - {id};
        Settle(id, Expired);
      }
    }

    /** A (re)connect emits every waiting call once more. */
    method OnConnect()
      requires Valid()
      modifies this
      ensures Valid() && events == old(events) + [Connected]
      ensures pendingRpcs == old(pendingRpcs) && settled == old(settled) && destroyed == old(destroyed)
      ensures forall id: nat ::
        multiset(emitted)[id] == multiset(old(emitted))[id] + (if replay && id in pendingRpcs then 1 else 0)
    {
      OneMoreConnect(events, replay);
      events := events + [Connected];
      if replay && pendingRpcs != map[] {
        EmitPending();
      }
    }

    method EmitPending()
      modifies this`emitted
      ensures forall id: nat ::
        multiset(emitted)[id] == multiset(old(emitted))[id] + (if id in pendingRpcs then 1 else 0)
    {
      var todo := pendingRpcs.Keys;
      while todo != {}
        invariant todo <= pendingRpcs.Keys
        invariant forall id: nat ::
          multiset(emitted)[id] == multiset(old(emitted))[id] + (if id in pendingRpcs && id !in todo then 1 else 0)
        decreases |todo|
      {
        var id :| id in todo;
        emitted := emitted + [id];
        todo := todo - {id};
      }
    }

    method OnDisconnect()
      requires Valid()
      modifies this
      ensures Valid() && events == old(events) + [Disconnected] && destroyed == old(destroyed)
      ensures replay ==> pendingRpcs == old(pendingRpcs) && settled == old(settled)
      ensures !replay ==> pendingRpcs == map[] && AllDropped(old(settled), old(pendingRpcs), settled)
    {
      hide Issued, FateOf, Emissions;
      OneMore(events, Disconnected, replay);
      events := events + [Disconnected];
      if !replay {
        RejectAll();
      }
    }

    method Close()
      requires Valid()
      modifies this
      ensures Valid() && destroyed && pendingRpcs == map[]
      ensures events == if old(destroyed) then old(events) else old(events) + [ClosedDown]
      ensures if old(destroyed) then settled == old(settled) else AllDropped(old(settled), old(pendingRpcs), settled)
    {
      hide SocketIoClientTransport.AllDropped, Issued, FateOf, Emissions, Waiting;
      if destroyed {
        return;
      }
      ShutDown();
    }

    method ShutDown()
      requires Valid() && !destroyed
      modifies this
      ensures Valid() && destroyed && pendingRpcs == map[]
      ensures events == old(events) + [ClosedDown] && AllDropped(old(settled), old(pendingRpcs), settled)
    {
      hide Issued, FateOf, Emissions;
      OneMore(events, ClosedDown, replay);
      events := events + [ClosedDown];
      destroyed := true;
      RejectAll();
    }

    /** Exactly the calls that waited are settled, as dropped, and the others keep their outcome. */
    ghost predicate AllDropped(before: map<nat, Outcome>, waiting: map<nat, Call>, after: map<nat, Outcome>) {
      && (forall id: nat :: id in after <==> id in before || id in waiting)
      && forall id | id in after :: after[id] == if id in waiting then Dropped else before[id]
    }

    method RejectAll()
      requires timers == pendingRpcs.Keys
      requires forall id | id in pendingRpcs :: id !in settled
      modifies this`pendingRpcs, this`settled, this`timers
      ensures pendingRpcs == map[] && timers == {}
      ensures AllDropped(old(settled), old(pendingRpcs), settled)
    {
      var todo := pendingRpcs.Keys;
      while todo != {}
        invariant pendingRpcs == old(pendingRpcs) && timers == todo
        invariant forall id | id in todo :: id in pendingRpcs && id !in settled
        invariant forall id: nat :: id in settled <==> id in old(settled) || (id in pendingRpcs && id !in todo)
        invariant forall id | id in settled :: settled[id] == if id in pendingRpcs then Dropped else old(settled)[id]
        decreases |todo|
      {
        var id :| id in todo;
        Settle(id, Dropped);
        todo := todo - {id};
      }
      pendingRpcs := map[];
    }

    /** The numbers issued so far are the disjoint union of the pending and the settled ones. */
    lemma ExactlyOnce()
      requires Valid()
      ensures pendingRpcs.Keys !! settled.Keys
      ensures forall id: nat :: id in pendingRpcs.Keys + settled.Keys <==> 1 <= id <= nextRpcId
      ensures timers == pendingRpcs.Keys
    {
      forall id: nat {
        OnlyIssued(events, id, replay);
      }
    }
  }

  /** Only calls that were made have a fate, and only they are emitted. */
  lemma {:induction false} OnlyIssued(events: seq<RpcEvent>, id: nat, replay: bool)
    ensures FateOf(events, id, replay).Some? ==> 1 <= id <= Issued(events)
    ensures Emissions(events, id, replay) > 0 ==> 1 <= id <= Issued(events)
    decreases |events|
  {
    if events != [] {
      OnlyIssued(events[..|events| - 1], id, replay);
    }
  }

  /** A fate is final: no later event changes it. */
  lemma {:induction false} FateIsFinal(events: seq<RpcEvent>, more: seq<RpcEvent>, id: nat, replay: bool)
    requires FateOf(events, id, replay).Some?
    ensures FateOf(events + more, id, replay) == FateOf(events, id, replay)
    ensures Emissions(events + more, id, replay) == Emissions(events, id, replay)
    decreases |more|
  {
    if more == [] {
      assert events + more == events;
    } else {
      var init := more[..|more| - 1];
      FateIsFinal(events, init, id, replay);
      assert (events + more)[..|events + more| - 1] == events + init;
      OnlyIssued(events + init, id, replay);
    }
  }

  /** The connects that found a call waiting. */
  ghost function Replays(events: seq<RpcEvent>, id: nat, replay: bool): set<nat> {
    set i: nat | i < |events| && events[i].Connected? && Waiting(events[..i], id, replay)
  }

  /** A call is emitted once when made and, with replay, once for each connect that found it waiting. */
  lemma {:induction false} EmissionsCounted(events: seq<RpcEvent>, id: nat, replay: bool)
    ensures Emissions(events, id, replay)
         == (if 1 <= id <= Issued(events) then 1 else 0) + (if replay then |Replays(events, id, replay)| else 0)
    decreases |events|
  {
    if events != [] {
      var n := |events| - 1;
      EmissionsCounted(events[..n], id, replay);
      ReplaysSnoc(events[..n], events[n], id, replay);
      assert events == events[..n] + [events[n]];
    }
  }

  lemma ReplaysSnoc(before: seq<RpcEvent>, e: RpcEvent, id: nat, replay: bool)
    ensures |Replays(before + [e], id, replay)|
         == |Replays(before, id, replay)| + (if e.Connected? && Waiting(before, id, replay) then 1 else 0)
  {
    hide Waiting;
    var events, n := before + [e], |before|;
    assert forall i | 0 <= i <= n :: events[..i] == before[..i];
    assert before[..n] == before;
    assert Replays(events, id, replay)
        == Replays(before, id, replay) + (if e.Connected? && Waiting(before, id, replay) then {n} else {});
    assert n !in Replays(before, id, replay);
  }
}
