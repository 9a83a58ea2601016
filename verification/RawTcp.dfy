/**
 One raw-TCP connection: an RPC table per label, and the multiplexer that queues until the socket
 is ready and routes what arrives.
 */
module RawTcp {
  import opened Common
  import opened Json
  import opened Rpc

  datatype Mode = SingleNamespace | Mux

  datatype Envelope =
    | Hello(name: string, ns: Option<string>)
    | Msg(ns: Option<string>, ch: string, payload: Json, ackId: Option<nat>)
    | Ack(ns: Option<string>, ack: nat, response: Json)
    | Bye(ns: Option<string>)

  /* ------------------------------------- RPC tables ------------------------------------- */

  type Promise = nat

  /** One transport's RPC state; `settled` says how each promise it ever gave out was settled. */
  datatype Table = Table(connected: bool, next: nat, pending: map<nat, Promise>, settled: map<Promise, Outcome>)

  const NEW_TABLE := Table(true, 1, map[], map[])

  function Issued(t: Table, promise: Promise): Table {
    if !t.connected then t.(settled := t.settled[promise := Dropped])
    else t.(next := t.next + 1, pending := t.pending[t.next := promise])
  }

  /** Takes a pending call out and settles its promise; anything else is ignored. */
  function Concluded(t: Table, ack: nat, outcome: Outcome): Table {
    if ack !in t.pending then t
    else t.(pending := t.pending - {ack}, settled := t.settled[t.pending[ack] := outcome])
  }

  /** A call on a connected transport waits under the next number; on a closed one it is dropped. */
  lemma IssuedExactly(t: Table, promise: Promise)
    ensures Issued(t, promise).connected == t.connected
    ensures t.connected ==>
      var q := Issued(t, promise);
      q.next == t.next + 1 && q.pending == t.pending[t.next := promise] && q.settled == t.settled
    ensures !t.connected ==>
      var q := Issued(t, promise);
      q.next == t.next && q.pending == t.pending && q.settled == t.settled[promise := Dropped]
  {
  }

  /** A waiting call is taken out and its promise settled; any other number changes nothing. */
  lemma ConcludedExactly(t: Table, ack: nat, outcome: Outcome)
    ensures Concluded(t, ack, outcome).connected == t.connected && Concluded(t, ack, outcome).next == t.next
    ensures ack in t.pending ==>
      var q := Concluded(t, ack, outcome);
      q.pending == t.pending - {ack} && q.settled == t.settled[t.pending[ack] := outcome]
    ensures ack !in t.pending ==> Concluded(t, ack, outcome) == t
  {
  }

  ghost predicate WasShut(before: Table, after: Table) {
    if !before.connected then after == before
    else
      && after == Table(false, before.next, map[], after.settled)
      && after.settled.Keys == before.settled.Keys + before.pending.Values
      && (forall p | p in before.settled && p !in before.pending.Values :: after.settled[p] == before.settled[p])
      && (forall p | p in before.pending.Values :: after.settled[p] == Dropped)
  }

  /** A transport that ends: nothing is pending any more, every pending promise is dropped, the others keep their outcome. */
  lemma ShutMeans(before: Table, after: Table)
    requires WasShut(before, after) && before.connected
    ensures !after.connected && after.pending == map[] && after.next == before.next
    ensures forall a | a in before.pending :: before.pending[a] in after.settled && after.settled[before.pending[a]] == Dropped
    ensures forall p | p in before.settled && p !in before.pending.Values ::
      p in after.settled && after.settled[p] == before.settled[p]
  {
  }

  /** The envelopes a socket carries of those accepted: `encode` drops what it rejects. */
  function Carried(fits: Envelope -> bool, accepted: seq<Envelope>): seq<Envelope> {
    if accepted == [] then []
    else
      var last := accepted[|accepted| - 1];
      Carried(fits, accepted[..|accepted| - 1]) + (if fits(last) then [last] else [])
  }

  lemma {:induction false} CarriedConcat(fits: Envelope -> bool, a: seq<Envelope>, b: seq<Envelope>)
    ensures Carried(fits, a + b) == Carried(fits, a) + Carried(fits, b)
    decreases |b|
  {
    if b == [] {
      assert a + b == a;
    } else {
      assert (a + b)[..|a + b| - 1] == a + b[..|b| - 1];
      CarriedConcat(fits, a, b[..|b| - 1]);
    }
  }

  /** The envelopes that `encode` takes, in order, and no others. */
  lemma CarriedExactly(fits: Envelope -> bool, before: seq<Envelope>, env: Envelope)
    ensures Carried(fits, []) == []
    ensures Carried(fits, before + [env]) == Carried(fits, before) + (if fits(env) then [env] else [])
  {
    assert (before + [env])[..|before|] == before;
  }

  lemma Singleton(s: set<string>, only: string)
    requires |s| == 1 && only in s
    ensures s == {only}
  {
    assert s - {only} == {} by {
      assert |s - {only}| == 0;
    }
  }

  class ClientMux {
    const mode: Mode
    const fits: Envelope -> bool
    var alive: bool
    var socketReady: bool
    /** The socket has been told to end; `OnClose` follows. */
    var closing: bool
    var pendingEnvelopes: seq<Envelope>
    /** Frames handed to the socket. */
    var written: seq<Envelope>
    var transports: map<string, RawTcpClientTransport>
    /** Every envelope sent while the connection was alive, in call order. */
    ghost var accepted: seq<Envelope>

    /** Nothing is reordered, lost or duplicated by the start-up queue. */
    ghost predicate Queued()
      reads this`socketReady, this`pendingEnvelopes, this`written, this`accepted
    {
      if socketReady then pendingEnvelopes == [] && written == Carried(fits, accepted)
      else pendingEnvelopes == accepted && written == []
    }

    /** Each label's transport is its own, and belongs to this connection. */
    ghost predicate Labelled()
      reads this`transports
    {
      forall l | l in transports :: transports[l].name == l && transports[l].mux == this
    }

    constructor (mode: Mode, fits: Envelope -> bool)
      ensures Queued() && Labelled() && alive && !socketReady
      ensures this.mode == mode && this.fits == fits && accepted == [] && transports == map[]
    {
      this.mode, this.fits := mode, fits;
      alive, socketReady, closing := true, false, false;
      pendingEnvelopes, written, transports, accepted := [], [], map[], [];
    }

    method SendEnvelope(env: Envelope)
      requires Queued()
      modifies this`pendingEnvelopes, this`written, this`accepted
      ensures Queued()
      ensures accepted == old(accepted) + (if alive then [env] else [])
      ensures written == old(written) + (if alive && socketReady && fits(env) then [env] else [])
      ensures pendingEnvelopes == old(pendingEnvelopes) + (if alive && !socketReady then [env] else [])
    {
      if !alive {
        return;
      }
      accepted := accepted + [env];
      assert accepted[..|accepted| - 1] == old(accepted);
      if !socketReady {
        pendingEnvelopes := pendingEnvelopes + [env];
        return;
      }
      RawWrite(env);
    }

    method RawWrite(env: Envelope)
      modifies this`written
      ensures written == old(written) + (if fits(env) then [env] else [])
    {
      if fits(env) {
        written := written + [env];
      }
    }

    /** The socket became ready: the queue goes out first, then every transport hears it, once. */
    method FireReady()
      requires Queued() && Labelled()
      modifies this`socketReady, this`pendingEnvelopes, this`written, Registered()`connects
      ensures Queued() && socketReady && pendingEnvelopes == []
      ensures written == old(written) + (if old(socketReady) then [] else Carried(fits, old(pendingEnvelopes)))
      ensures forall l | l in transports ::
        transports[l].connects == old(transports[l].connects) + (if old(socketReady) then 0 else 1)
    {
      if socketReady {
        return;
      }
      socketReady := true;
      Flush();
      FireConnects();
    }

    method Flush()
      requires socketReady && pendingEnvelopes == accepted && written == []
      modifies this`pendingEnvelopes, this`written
      ensures Queued() && written == Carried(fits, accepted)
    {
      for i := 0 to |pendingEnvelopes|
        invariant pendingEnvelopes == accepted
        invariant written == Carried(fits, accepted[..i])
      {
        assert accepted[..i + 1][..i] == accepted[..i];
        RawWrite(pendingEnvelopes[i]);
      }
      assert accepted[..|accepted|] == accepted;
      pendingEnvelopes := [];
    }

    method FireConnects()
      requires Labelled()
      modifies Registered()`connects
      ensures forall l | l in transports :: transports[l].connects == old(transports[l].connects) + 1
    {
      var todo := transports.Keys;
      while todo != {}
        invariant todo <= transports.Keys
        invariant forall l | l in transports ::
          transports[l].connects == old(transports[l].connects) + (if l in todo then 0 else 1)
        decreases |todo|
      {
        var l :| l in todo;
        transports[l].connects := transports[l].connects + 1;
        todo := todo - {l};
      }
    }

    method Close()
      modifies this`closing
      ensures closing == (old(closing) || alive)
    {
      if alive {
        closing := true;
      }
    }

    method RegisterTransport(name: string, transport: RawTcpClientTransport)
      requires Queued() && Labelled() && transport.name == name && transport.mux == this
      modifies this`transports, this`pendingEnvelopes, this`written, this`accepted
      ensures Queued() && Labelled() && transports == old(transports)[name := transport]
      ensures accepted == old(accepted) + (if alive then [Hello(name, if mode.Mux? then Some(name) else None)] else [])
    {
      transports := transports[name := transport];
      SendEnvelope(Hello(name, if mode.Mux? then Some(name) else None));
    }

    ghost function Registered(): set<RawTcpClientTransport>
      reads this`transports
    {
      set l | l in transports :: transports[l]
    }

    /**
     An acknowledgement that names its namespace reaches that transport's table alone; one that
     does not is offered to every transport.
     */
    method OnAck(ns: Option<string>, ack: nat, response: Json)
      requires Labelled()
      modifies Registered()
      ensures forall l | l in transports ::
        transports[l].View()
          == if mode.SingleNamespace? || ns.None? || ns == Some(l)
             then Concluded(old(transports[l].View()), ack, Answered(response))
             else old(transports[l].View())
      ensures forall l | l in transports ::
        var t := transports[l];
        if (mode.SingleNamespace? || ns.None? || ns == Some(l)) && ack in old(t.pendingRpcs) then
          && t.settled == old(t.settled)[old(t.pendingRpcs)[ack] := Answered(response)]
          && t.pendingRpcs == old(t.pendingRpcs) - {ack}
        else t.settled == old(t.settled) && t.pendingRpcs == old(t.pendingRpcs)
    {
      if mode.Mux? && ns.Some? {
        if ns.value in transports {
          transports[ns.value].Conclude(ack, Answered(response));
        }
        return;
      }
      var todo := transports.Keys;
      while todo != {}
        invariant todo <= transports.Keys
        invariant forall l | l in transports ::
          transports[l].View()
            == if l in todo then old(transports[l].View())
               else Concluded(old(transports[l].View()), ack, Answered(response))
        decreases |todo|
      {
        var l :| l in todo;
        transports[l].Conclude(ack, Answered(response));
        todo := todo - {l};
      }
    }

    /**
     An inbound message goes to the transport it names, or, without multiplexing, to the only
     transport there is.
     */
    method OnMsg(env: Envelope)
      requires Labelled() && env.Msg?
      modifies Registered()
      ensures forall l | l in transports ::
        transports[l].inbox
          == old(transports[l].inbox)
             + (if (if mode.Mux? then env.ns == Some(l) else transports.Keys == {l}) then [env] else [])
      ensures forall l | l in transports :: transports[l].View() == old(transports[l].View())
    {
      var ns := None;
      if mode.Mux? {
        ns := env.ns;
      } else if |transports.Keys| == 1 {
        var only :| only in transports.Keys;
        Singleton(transports.Keys, only);
        ns := Some(only);
      }
      if ns.Some? && ns.value in transports {
        var t := transports[ns.value];
        t.inbox := t.inbox + [env];
      }
    }

    /**
     A label is closed from either side; only a local close tells the server. Without multiplexing
     the whole connection is told to end instead.
     */
    method CloseNamespace(name: string, announce: bool)
      requires Queued() && Labelled()
      modifies this`closing, this`transports, this`pendingEnvelopes, this`written, this`accepted, Registered()
      ensures Queued() && Labelled()
      ensures mode.SingleNamespace? ==> closing == (old(closing) || alive) && transports == old(transports) && accepted == old(accepted)
      ensures mode.Mux? ==>
        && closing == old(closing) && transports == old(transports) - {name}
        && accepted == old(accepted) + (if announce && alive then [Bye(Some(name))] else [])
      ensures forall l | l in old(transports) ::
        var t := old(transports)[l];
        if mode.Mux? && l == name then WasShut(old(t.View()), t.View()) else t.View() == old(t.View())
    {
      hide Carried, WasShut, ClientMux.Queued;
      if mode.SingleNamespace? {
        Close();
        return;
      }
      if announce {
        SendEnvelope(Bye(Some(name)));
      }
      if name in transports {
        transports[name].OnRemoteClose();
      }
      Delete(name);
    }

    method Delete(name: string)
      requires Labelled()
      modifies this`transports
      ensures Labelled() && transports == old(transports) - {name}
    {
      transports := transports - {name};
    }

    /** The socket closed: every table is shut, once, and the connection never accepts anything again. */
    method OnClose()
      requires Queued() && Labelled()
      modifies this`alive, this`transports, Registered()
      ensures Queued() && Labelled() && !alive && accepted == old(accepted)
      ensures transports == if old(alive) then map[] else old(transports)
      ensures forall l | l in old(transports) ::
        var t := old(transports)[l];
        if old(alive) then WasShut(old(t.View()), t.View()) else t.View() == old(t.View())
    {
      if !alive {
        return;
      }
      alive := false;
      ShutAll();
      transports := map[];
    }

    method ShutAll()
      requires Labelled()
      modifies Registered()
      ensures forall l | l in transports :: WasShut(old(transports[l].View()), transports[l].View())
    {
      var todo := transports.Keys;
      while todo != {}
        invariant todo <= transports.Keys
        invariant forall l | l in transports ::
          if l in todo then transports[l].View() == old(transports[l].View())
          else WasShut(old(transports[l].View()), transports[l].View())
        decreases |todo|
      {
        var l :| l in todo;
        transports[l].OnRemoteClose();
        todo := todo - {l};
      }
    }
  }

  class RawTcpClientTransport {
    const name: string
    const mux: ClientMux
    var connected: bool
    var pendingRpcs: map<nat, Promise>
    var nextAck: nat
    var settled: map<Promise, Outcome>
    /** Messages dispatched to the channel listeners. */
    var inbox: seq<Envelope>
    /** Lifecycle events fired. */
    var connects: nat
    var disconnects: nat

    ghost function View(): Table
      reads this`connected, this`nextAck, this`pendingRpcs, this`settled
    {
      Table(connected, nextAck, pendingRpcs, settled)
    }

    constructor (name: string, mux: ClientMux)
      ensures this.name == name && this.mux == mux && View() == NEW_TABLE && connects == 0
    {
      this.name, this.mux := name, mux;
      connected, pendingRpcs, nextAck, settled := true, map[], 1, map[];
      inbox, connects, disconnects := [], 0, 0;
    }

    function Ns(): Option<string> {
      if mux.mode.Mux? then Some(name) else None
    }

    method Send(ch: string, payload: Json)
      requires mux.Queued()
      modifies mux`pendingEnvelopes, mux`written, mux`accepted
      ensures mux.Queued()
      ensures mux.accepted == old(mux.accepted) + (if connected && mux.alive then [Msg(Ns(), ch, payload, None)] else [])
    {
      if !connected {
        return;
      }
      mux.SendEnvelope(Msg(Ns(), ch, payload, None));
    }

    method SendRpc(ch: string, payload: Json, promise: Promise)
      requires mux.Queued()
      modifies this, mux`pendingEnvelopes, mux`written, mux`accepted
      ensures mux.Queued() && View() == Issued(old(View()), promise) && connected == old(connected)
      ensures
        if connected then
          && nextAck == old(nextAck) + 1 && pendingRpcs == old(pendingRpcs)[old(nextAck) := promise]
          && settled == old(settled)
        else nextAck == old(nextAck) && pendingRpcs == old(pendingRpcs) && settled == old(settled)[promise := Dropped]
      ensures mux.accepted == old(mux.accepted)
        + (if connected && mux.alive then [Msg(Ns(), ch, payload, Some(old(nextAck)))] else [])
    {
      if !connected {
        settled := settled[promise := Dropped];
        return;
      }
      var ackId := nextAck;
      nextAck := nextAck + 1;
      pendingRpcs := pendingRpcs[ackId := promise];
      mux.SendEnvelope(Msg(Ns(), ch, payload, Some(ackId)));
    }

    /** An acknowledgement or a deadline: settles a pending call once and ignores anything else. */
    method Conclude(ack: nat, outcome: Outcome)
      modifies this`pendingRpcs, this`settled
      ensures ack in old(pendingRpcs) ==>
        settled == old(settled)[old(pendingRpcs)[ack] := outcome] && pendingRpcs == old(pendingRpcs) - {ack}
      ensures ack !in old(pendingRpcs) ==> settled == old(settled) && pendingRpcs == old(pendingRpcs)
      ensures View() == Concluded(old(View()), ack, outcome)
    {
      if ack !in pendingRpcs {
        return;
      }
      var promise := pendingRpcs[ack];
      pendingRpcs := pendingRpcs - {ack};
      settled := settled[promise := outcome];
    }

    /** The transport's end: every pending call is rejected, then the disconnect event fires, once. */
    method OnRemoteClose()
      modifies this
      ensures WasShut(old(View()), View())
      ensures old(connected) ==>
        !connected && pendingRpcs == map[] && forall p | p in old(pendingRpcs).Values :: p in settled && settled[p] == Dropped
      ensures disconnects == old(disconnects) + (if old(connected) then 1 else 0)
    {
      if !connected {
        return;
      }
      connected := false;
      RejectAll();
      disconnects := disconnects + 1;
    }

    method RejectAll()
      modifies this`pendingRpcs, this`settled
      ensures pendingRpcs == map[]
      ensures settled.Keys == old(settled).Keys + old(pendingRpcs).Values
      ensures forall p | p in settled ::
        settled[p] == if p in old(pendingRpcs).Values then Dropped else old(settled)[p]
    {
      var todo := pendingRpcs;
      ghost var rejected: set<Promise> := {};
      while todo != map[]
        invariant rejected + todo.Values == old(pendingRpcs).Values
        invariant forall p: Promise :: p in settled <==> p in old(settled) || p in rejected
        invariant forall p | p in settled :: settled[p] == if p in rejected then Dropped else old(settled)[p]
        decreases |todo|
      {
        var a :| a in todo;
        var promise := todo[a];
        assert todo == (todo - {a})[a := promise];
        assert todo.Values == (todo - {a}).Values + {promise};
        settled := settled[promise := Dropped];
        rejected := rejected + {promise};
        todo := todo - {a};
      }
      pendingRpcs := map[];
    }
  }
}
