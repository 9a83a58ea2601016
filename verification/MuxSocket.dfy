/**
 The mux socket: one transport carrying many remote ports, each mirrored by any number of local
 ports, with one write window per remote port.
 */
module MuxSocket {
  import opened Common
  import opened Gate
  import opened Session

  datatype PortState = IDLE | OPEN | ERROR | CLOSED

  /** What a local stream re-emits of a remote state change. */
  datatype StreamEvent = RaisedError | RaisedClose

  /** An error is raised only where somebody listens for it. */
  function RaisedBy(streaming: bool, hears: bool, before: PortState, after: PortState): seq<StreamEvent> {
    if !streaming || after == before then []
    else if after.ERROR? then (if hears then [RaisedError] else [])
    else if after.CLOSED? then [RaisedClose]
    else []
  }

  lemma RaisedExactly(streaming: bool, hears: bool, before: PortState, after: PortState)
    ensures !streaming || after == before || after == IDLE || after == OPEN ==> RaisedBy(streaming, hears, before, after) == []
    ensures streaming && before != ERROR && hears ==> RaisedBy(streaming, hears, before, ERROR) == [RaisedError]
    ensures !hears ==> RaisedBy(streaming, hears, before, ERROR) == []
    ensures streaming && before != CLOSED ==> RaisedBy(streaming, hears, before, CLOSED) == [RaisedClose]
  {
  }

  /** The transport of a mux socket: frames go to the session or wait for the next one. */
  class MuxTransport {
    var connected: bool
    var closed: bool
    var buffered: seq<MuxFrame>
    var wire: seq<MuxFrame>
    /** Every frame ever handed to it. */
    ghost var handed: seq<MuxFrame>

    constructor ()
      ensures !connected && !closed && buffered == [] && wire == [] && handed == []
    {
      connected, closed, buffered, wire := false, false, [], [];
      handed := [];
    }

    method Close()
      modifies this`closed
      ensures closed
    {
      closed := true;
    }

    method Send(f: MuxFrame)
      modifies this`buffered, this`wire, this`handed
      ensures wire == old(wire) + (if connected then [f] else [])
      ensures buffered == old(buffered) + (if connected then [] else [f])
      ensures handed == old(handed) + [f]
    {
      handed := handed + [f];
      if connected {
        wire := wire + [f];
      } else {
        buffered := buffered + [f];
      }
    }
  }

  /** A local port that mirrors one remote port. */
  class PortInstance {
    const localPath: string
    const gate: BackpressureGate
    var state: PortState
    /** Whether the application has asked for the stream. */
    var streaming: bool
    /** Whether the stream has a listener for errors. */
    var hears: bool
    var raised: seq<StreamEvent>
    /** What the application has read. */
    var inbound: seq<seq<Byte>>

    constructor (localPath: string, gate: BackpressureGate, state: PortState)
      ensures this.localPath == localPath && this.gate == gate && this.state == state
      ensures !streaming && inbound == [] && raised == []
    {
      this.localPath, this.gate, this.state := localPath, gate, state;
      streaming, hears, raised, inbound := false, false, [], [];
    }

    method SetState(next: PortState)
      modifies this`state, this`raised
      ensures state == next && raised == old(raised) + RaisedBy(streaming, hears, old(state), next)
      ensures streaming && next != old(state) && next.ERROR? && hears ==> raised == old(raised) + [RaisedError]
      ensures streaming && next != old(state) && next.CLOSED? ==> raised == old(raised) + [RaisedClose]
      ensures !streaming || next == old(state) || (next.ERROR? && !hears) || next.IDLE? || next.OPEN? ==> raised == old(raised)
    {
      var previous := state;
      state := next;
      if !streaming || next == previous {
        return;
      }
      if next.ERROR? {
        if hears {
          raised := raised + [RaisedError];
        }
      } else if next.CLOSED? {
        raised := raised + [RaisedClose];
      }
    }

    method Write(data: seq<Byte>)
      modifies this`inbound
      ensures inbound == old(inbound) + (if streaming then [data] else [])
    {
      if streaming {
        inbound := inbound + [data];
      }
    }
  }

  datatype Entry = Entry(remotePath: string, instance: PortInstance)

  /** The index agrees with the instance table, in both directions. */
  ghost predicate Agrees(table: map<string, Entry>, index: map<string, set<string>>) {
    && (forall l | l in table :: table[l].remotePath in index && l in index[table[l].remotePath])
    && (forall r, l | r in index && l in index[r] :: l in table && table[l].remotePath == r)
  }

  /** Instances of one remote port share its window; different remote ports have different ones. */
  ghost predicate Shared(table: map<string, Entry>, gates: map<string, BackpressureGate>) {
    && (forall l | l in table :: table[l].remotePath in gates && table[l].instance.gate == gates[table[l].remotePath])
    && (forall r, q | r in gates && q in gates && r != q :: gates[r] != gates[q])
  }

  ghost predicate Named(table: map<string, Entry>) {
    forall l | l in table :: table[l].instance.localPath == l
  }

  lemma AgreesInsert(table: map<string, Entry>, index: map<string, set<string>>, local: string, entry: Entry)
    requires Agrees(table, index) && local !in table
    ensures
      var mirrors := if entry.remotePath in index then index[entry.remotePath] else {};
      Agrees(table[local := entry], index[entry.remotePath := mirrors + {local}])
  {
  }

  lemma SharedInsert(table: map<string, Entry>, gates: map<string, BackpressureGate>, local: string, entry: Entry)
    requires Shared(table, gates) && Named(table)
    requires entry.remotePath in gates && entry.instance.gate == gates[entry.remotePath]
    requires entry.instance.localPath == local
    ensures Shared(table[local := entry], gates) && Named(table[local := entry])
  {
  }

  /* ------------------------------- packets and slots ------------------------------- */

  /** How many of these slots are those of single-shot writes. */
  function Plain(slots: seq<Slot>): nat {
    if slots == [] then 0 else Plain(slots[..|slots| - 1]) + (if slots[|slots| - 1].Single? then 1 else 0)
  }

  lemma {:induction false} PlainConcat(a: seq<Slot>, b: seq<Slot>)
    ensures Plain(a + b) == Plain(a) + Plain(b)
    decreases |b|
  {
    if b == [] {
      assert a + b == a;
    } else {
      assert (a + b)[..|a + b| - 1] == a + b[..|b| - 1];
      PlainConcat(a, b[..|b| - 1]);
    }
  }

  lemma PlainOne(s: Slot)
    ensures Plain([s]) == if s.Single? then 1 else 0
  {
    assert [s][..0] == [];
  }

  /** What a drain listener may do: write to a stream of this path, or anything to the window. */
  datatype MuxOp = Writes(data: seq<Byte>) | Does(op: Op)

  function GateOp(op: MuxOp): Op {
    match op
    case Writes(_) => Takes(Single)
    case Does(inner) => inner
  }

  function GateOps(ops: seq<MuxOp>): seq<Op> {
    seq(|ops|, i requires 0 <= i < |ops| => GateOp(ops[i]))
  }

  function GateScript(script: seq<seq<MuxOp>>): (ops: seq<seq<Op>>)
    ensures |ops| == |script|
  {
    seq(|script|, i requires 0 <= i < |script| => GateOps(script[i]))
  }

  /** What is written, in order. */
  function DataIn(ops: seq<MuxOp>): seq<seq<Byte>> {
    if ops == [] then []
    else DataIn(ops[..|ops| - 1]) + (if ops[|ops| - 1].Writes? then [ops[|ops| - 1].data] else [])
  }

  function AllData(script: seq<seq<MuxOp>>): seq<seq<Byte>> {
    if script == [] then [] else AllData(script[..|script| - 1]) + DataIn(script[|script| - 1])
  }

  function PacketFrames(path: string, data: seq<seq<Byte>>): seq<MuxFrame> {
    seq(|data|, i requires 0 <= i < |data| => MuxPacket(path, data[i]))
  }

  /** Slots of single-shot writes are taken by writes only. */
  ghost predicate Proper(script: seq<seq<MuxOp>>) {
    forall i, k | 0 <= i < |script| && 0 <= k < |script[i]| :: script[i][k] != Does(Takes(Single))
  }

  lemma {:induction false} WritesTakeSlots(ops: seq<MuxOp>)
    requires forall k | 0 <= k < |ops| :: ops[k] != Does(Takes(Single))
    ensures Plain(SlotsTaken(GateOps(ops))) == |DataIn(ops)|
    decreases |ops|
  {
    if ops != [] {
      var init, last := ops[..|ops| - 1], ops[|ops| - 1];
      WritesTakeSlots(init);
      var gateOps := GateOps(ops);
      assert gateOps[..|ops| - 1] == GateOps(init) && gateOps[|ops| - 1] == GateOp(last);
      var more: seq<Slot> := if GateOp(last).Takes? then [GateOp(last).slot] else [];
      PlainConcat(SlotsTaken(GateOps(init)), more);
      if GateOp(last).Takes? {
        PlainOne(GateOp(last).slot);
      }
    }
  }

  lemma {:induction false} AllWritesTakeSlots(script: seq<seq<MuxOp>>)
    requires Proper(script)
    ensures Plain(AllTaken(GateScript(script))) == |AllData(script)|
    decreases |script|
  {
    if script != [] {
      var init, last := script[..|script| - 1], script[|script| - 1];
      assert last == script[|script| - 1];
      AllWritesTakeSlots(init);
      WritesTakeSlots(last);
      var gateScript := GateScript(script);
      assert gateScript[..|script| - 1] == GateScript(init) && gateScript[|script| - 1] == GateOps(last);
      PlainConcat(AllTaken(GateScript(init)), SlotsTaken(GateOps(last)));
    }
  }

  lemma {:induction false} PacketsAmong(path: string, data: seq<seq<Byte>>, other: string)
    ensures PacketsOf(PacketFrames(path, data), other) == if other == path then data else []
    decreases |data|
  {
    var frames := PacketFrames(path, data);
    if data != [] {
      PacketsAmong(path, data[..|data| - 1], other);
      assert frames[..|data| - 1] == PacketFrames(path, data[..|data| - 1]);
    }
  }

  /** Each path has as many packets among the frames as single-shot slots in its window. */
  ghost predicate Match(frames: seq<MuxFrame>, plain: map<string, nat>) {
    forall r: string :: |PacketsOf(frames, r)| == if r in plain then plain[r] else 0
  }

  lemma PlainNothing()
    ensures Plain([]) == 0
  {
  }

  lemma MatchNew(handed: seq<MuxFrame>, from: nat, plain: map<string, nat>, path: string)
    requires path !in plain
    ensures from <= |handed| && Match(handed[from..], plain) ==> Match(handed[from..], plain[path := 0])
  {
  }

  lemma MatchOther(frames: seq<MuxFrame>, plain: map<string, nat>, f: MuxFrame)
    requires Match(frames, plain) && !f.MuxPacket?
    ensures Match(frames + [f], plain)
  {
    forall r: string ensures PacketsOf(frames + [f], r) == PacketsOf(frames, r) {
      PacketsConcat(frames, [f], r);
      OnePacket(f, r);
    }
  }

  lemma MatchData(frames: seq<MuxFrame>, plain: map<string, nat>, path: string, data: seq<seq<Byte>>)
    requires Match(frames, plain) && path in plain
    ensures Match(frames + PacketFrames(path, data), plain[path := plain[path] + |data|])
  {
    forall r: string
      ensures |PacketsOf(frames + PacketFrames(path, data), r)| == |PacketsOf(frames, r)| + if r == path then |data| else 0
    {
      PacketsConcat(frames, PacketFrames(path, data), r);
      PacketsAmong(path, data, r);
    }
  }

  lemma MatchSent(handed: seq<MuxFrame>, from: nat, plain: map<string, nat>, path: string, data: seq<seq<Byte>>)
    requires path in plain
    ensures from <= |handed| && Match(handed[from..], plain) ==>
      Match((handed + PacketFrames(path, data))[from..], plain[path := plain[path] + |data|])
  {
    if from <= |handed| && Match(handed[from..], plain) {
      MatchData(handed[from..], plain, path, data);
      assert (handed + PacketFrames(path, data))[from..] == handed[from..] + PacketFrames(path, data);
    }
  }

  class RemoteSerialClientMuxSocket {
    const transport: MuxTransport
    const window: int
    var handshaked: bool
    var activeOpens: map<string, Options>
    var states: map<string, PortState>
    var portInstances: map<string, Entry>
    var byRemotePath: map<string, set<string>>
    var gates: map<string, BackpressureGate>
    /** How many frames had been handed over when the windows were last forgotten. */
    ghost var from: nat

    /** The session as the protocol sees it. */
    ghost function View(): Session
      reads this, transport
    {
      Session(transport.connected, handshaked, activeOpens, transport.buffered, transport.wire)
    }

    ghost predicate Indexed()
      reads this
    {
      Agrees(portInstances, byRemotePath) && Shared(portInstances, gates) && Named(portInstances)
    }

    ghost predicate Valid()
      reads this, gates.Values
    {
      window >= 1 && Indexed() && GatesValid()
    }

    ghost predicate GatesValid()
      reads this, gates.Values
    {
      forall r | r in gates :: gates[r].Valid() && gates[r].window == window
    }

    /** Single-shot slots ever taken in each window. */
    ghost function Plains(): map<string, nat>
      reads this`gates, gates.Values
    {
      map r | r in gates :: Plain(gates[r].taken)
    }

    /** Since the windows were last forgotten each packet handed over has its slot, and each single-shot slot its packet. */
    ghost predicate Matched()
      reads this`gates, this`from, gates.Values, transport`handed
    {
      from <= |transport.handed| && Match(transport.handed[from..], Plains())
    }

    constructor (transport: MuxTransport, window: int)
      requires window >= 1
      ensures Matched()
      ensures Valid() && this.transport == transport && this.window == window
      ensures !handshaked && activeOpens == map[] && portInstances == map[]
    {
      this.transport, this.window := transport, window;
      handshaked, activeOpens, states := false, map[], map[];
      portInstances, byRemotePath, gates := map[], map[], map[];
      from := |transport.handed|;
    }

    /* ------------------------------- session intent ------------------------------- */

    /** The transport came up: what was buffered opens the session, no handshake seen yet. */
    method OnConnect()
      requires !transport.connected
      modifies this`handshaked, transport`connected, transport`wire, transport`buffered
      ensures View() == Step(old(View()), Connect)
      ensures transport.connected && transport.wire == old(transport.buffered) && transport.buffered == [] && !handshaked
    {
      transport.connected, transport.wire, transport.buffered := true, transport.buffered, [];
      handshaked := false;
    }

    /** The transport went down; what is emitted from now on waits for the next session. */
    method OnLost()
      requires transport.connected
      modifies transport`connected
      ensures View() == Step(old(View()), Event.Disconnect)
      ensures !transport.connected
    {
      transport.connected := false;
    }

    method OnHandshake() returns (ghost order: seq<string>)
      requires transport.connected
      modifies this`handshaked, transport`buffered, transport`wire, transport`handed
      ensures Lists(order, activeOpens) && handshaked
      ensures View() == Step(old(View()), Handshake(order))
      ensures transport.buffered == old(transport.buffered) && |transport.wire| == |old(transport.wire)| + |order|
      ensures old(transport.wire) <= transport.wire
      ensures forall i | 0 <= i < |order| ::
        transport.wire[|old(transport.wire)| + i] == MuxOpen(order[i], activeOpens[order[i]])
      ensures old(Matched()) ==> Matched()
    {
      hide Replay, Lists, Enabled, Step, RemoteSerialClientMuxSocket.Matched;
      ghost var before := View();
      handshaked := true;
      order := ReplayOpens();
      ListedAreThere(order, activeOpens);
      ReplayAll(order, activeOpens);
      ShakenIs(before, order);
    }

    /** Replays every active open, in the order in which the map yields them. */
    method ReplayOpens() returns (ghost order: seq<string>)
      requires transport.connected
      modifies transport`buffered, transport`wire, transport`handed
      ensures Lists(order, activeOpens)
      ensures old(Matched()) ==> Matched()
      ensures transport.buffered == old(transport.buffered)
      ensures transport.wire == old(transport.wire) + Replay(order, activeOpens)
    {
      order := [];
      ghost var matched := Matched();
      var todo := activeOpens.Keys;
      assert transport.wire + Replay([], activeOpens) == transport.wire;
      hide Replay, Taken, Lists, Match, RemoteSerialClientMuxSocket.Matched;
      TakenAll(order, activeOpens);
      while todo != {}
        invariant Taken(order, todo, activeOpens) && forall p | p in order :: p in activeOpens
        invariant transport.buffered == old(transport.buffered)
        invariant transport.wire == old(transport.wire) + Replay(order, activeOpens)
        invariant matched ==> Matched()
        decreases |todo|
      {
        var path :| path in todo;
        TakenNext(order, todo, activeOpens, path);
        ReplayOne(order, path, old(transport.wire));
        order := order + [path];
        todo := todo - {path};
      }
      TakenAll(order, activeOpens);
    }

    method ReplayOne(ghost order: seq<string>, path: string, ghost before: seq<MuxFrame>)
      requires transport.connected && path in activeOpens && forall p | p in order :: p in activeOpens
      requires transport.wire == before + Replay(order, activeOpens)
      modifies transport`buffered, transport`wire, transport`handed
      ensures transport.buffered == old(transport.buffered)
      ensures transport.wire == before + Replay(order + [path], activeOpens)
      ensures old(Matched()) ==> Matched()
    {
      hide Replay, RemoteSerialClientMuxSocket.Matched;
      ReplaySnoc(order, path, activeOpens);
      Say(MuxOpen(path, activeOpens[path]));
    }

    /** A frame that is no packet. */
    method Say(f: MuxFrame)
      requires !f.MuxPacket?
      modifies transport`buffered, transport`wire, transport`handed
      ensures transport.wire == old(transport.wire) + (if transport.connected then [f] else [])
      ensures transport.buffered == old(transport.buffered) + (if transport.connected then [] else [f])
      ensures old(Matched()) ==> Matched()
    {
      hide Match;
      ghost var frames, plain := transport.handed, Plains();
      if Matched() {
        MatchOther(frames[from..], plain, f);
        assert (frames + [f])[from..] == frames[from..] + [f];
      }
      transport.Send(f);
      assert Plains() == plain;
    }

    method Open(path: string, options: Options)
      modifies this`activeOpens, transport`buffered, transport`wire, transport`handed
      ensures old(Matched()) ==> Matched()
      ensures activeOpens == old(activeOpens)[path := options]
      ensures
        var said := if handshaked then [MuxOpen(path, options)] else [];
        if transport.connected then transport.wire == old(transport.wire) + said && transport.buffered == old(transport.buffered)
        else transport.wire == old(transport.wire) && transport.buffered == old(transport.buffered) + said
      ensures View() == Step(old(View()), OpenPort(path, options))
    {
      activeOpens := activeOpens[path := options];
      if handshaked {
        Say(MuxOpen(path, options));
      }
      assert transport.wire + [] == transport.wire && transport.buffered + [] == transport.buffered;
    }

    method Close(path: string)
      modifies this`activeOpens, transport`buffered, transport`wire, transport`handed
      ensures old(Matched()) ==> Matched()
      ensures activeOpens == old(activeOpens) - {path}
      ensures
        var said := [MuxClose(path)];
        if transport.connected then transport.wire == old(transport.wire) + said && transport.buffered == old(transport.buffered)
        else transport.wire == old(transport.wire) && transport.buffered == old(transport.buffered) + said
      ensures View() == Step(old(View()), ClosePort(path))
    {
      activeOpens := activeOpens - {path};
      Say(MuxClose(path));
    }

    /* ------------------------------- ports and windows ------------------------------- */

    method GateFor(path: string) returns (gate: BackpressureGate)
      requires Valid()
      modifies this`gates
      ensures Valid() && path in gates && gates[path] == gate
      ensures if path in old(gates) then gates == old(gates) else gates == old(gates)[path := gate] && fresh(gate)
      ensures path !in old(gates) ==> gate.ackResolvers == [] && gate.taken == []
      ensures old(Matched()) ==> Matched()
    {
      if path in gates {
        return gates[path];
      }
      hide Match, Agrees, RemoteSerialClientMuxSocket.Valid, RemoteSerialClientMuxSocket.Plains;
      ghost var plain := Plains();
      MatchNew(transport.handed, from, plain, path);
      PlainsAre();
      gate := AddGate(path);
    }

    method AddGate(path: string) returns (gate: BackpressureGate)
      requires Valid() && path !in gates
      modifies this`gates
      ensures Valid() && fresh(gate) && gates == old(gates)[path := gate] && gate.ackResolvers == [] && gate.taken == []
      ensures Plains() == old(Plains())[path := 0]
    {
      hide BackpressureGate.Valid, Agrees, Plain;
      gate := new BackpressureGate(window);
      gates := gates[path := gate];
      PlainNothing();
    }

    lemma PlainsAre()
      ensures Plains().Keys == gates.Keys && forall r | r in gates :: Plains()[r] == Plain(gates[r].taken)
    {
    }

    /** A local path is created once; asking again returns the port that exists, whatever it mirrors. */
    method CreatePort(remotePath: string, localPath: string) returns (instance: PortInstance)
      requires Valid()
      modifies this`gates, this`portInstances, this`byRemotePath
      ensures Valid()
      ensures
        if localPath in old(portInstances) then
          instance == old(portInstances)[localPath].instance && portInstances == old(portInstances) && gates == old(gates)
        else
          && fresh(instance) && portInstances == old(portInstances)[localPath := Entry(remotePath, instance)]
          && remotePath in gates && instance.gate == gates[remotePath]
          && instance.state == (if remotePath in states then states[remotePath] else IDLE)
          && !instance.streaming && instance.inbound == [] && instance.raised == []
      ensures old(Matched()) ==> Matched()
      ensures forall r | r in old(gates) :: r in gates && gates[r] == old(gates)[r]
    {
      hide Agrees, Shared, BackpressureGate.Valid, RemoteSerialClientMuxSocket.Matched;
      if localPath in portInstances {
        return portInstances[localPath].instance;
      }
      var gate := GateFor(remotePath);
      instance := new PortInstance(localPath, gate, if remotePath in states then states[remotePath] else IDLE);
      AddMirror(remotePath, localPath, instance);
    }

    method AddMirror(remotePath: string, localPath: string, instance: PortInstance)
      requires Valid() && localPath !in portInstances && instance.localPath == localPath
      requires remotePath in gates && instance.gate == gates[remotePath]
      modifies this`portInstances, this`byRemotePath
      ensures Valid() && portInstances == old(portInstances)[localPath := Entry(remotePath, instance)]
    {
      var entry := Entry(remotePath, instance);
      AgreesInsert(portInstances, byRemotePath, localPath, entry);
      SharedInsert(portInstances, gates, localPath, entry);
      portInstances := portInstances[localPath := entry];
      var mirrors := if remotePath in byRemotePath then byRemotePath[remotePath] else {};
      byRemotePath := byRemotePath[remotePath := mirrors + {localPath}];
    }

    /** The local instances, as a frame. */
    ghost function Instances(): set<PortInstance>
      reads this
    {
      set l | l in portInstances :: portInstances[l].instance
    }

    /**
     Inbound bytes, found through the index, reach every instance of that remote port exactly
     once and no other instance.
     */
    method OnPacket(path: string, data: seq<Byte>)
      requires Indexed()
      modifies Instances()`inbound
      ensures forall l | l in portInstances ::
        portInstances[l].instance.inbound
          == old(portInstances[l].instance.inbound)
             + (if portInstances[l].remotePath == path && portInstances[l].instance.streaming then [data] else [])
    {
      if path in byRemotePath {
        Deliver(byRemotePath[path], data);
      }
    }

    method Deliver(mirrors: set<string>, data: seq<Byte>)
      requires mirrors <= portInstances.Keys && Named(portInstances)
      modifies Instances()`inbound
      ensures forall l | l in portInstances ::
        portInstances[l].instance.inbound
          == old(portInstances[l].instance.inbound)
             + (if l in mirrors && portInstances[l].instance.streaming then [data] else [])
    {
      var todo := mirrors;
      while todo != {}
        invariant todo <= mirrors
        invariant forall l | l in portInstances ::
          portInstances[l].instance.inbound
            == old(portInstances[l].instance.inbound)
               + (if l in mirrors && l !in todo && portInstances[l].instance.streaming then [data] else [])
        decreases |todo|
      {
        var l :| l in todo;
        portInstances[l].instance.Write(data);
        todo := todo - {l};
      }
    }

    /** An instance after a state change, against the one before. */
    ghost static predicate Told(instance: PortInstance, before: PortState, raised: seq<StreamEvent>, next: PortState)
      reads instance
    {
      instance.state == next && instance.raised == raised + RaisedBy(instance.streaming, instance.hears, before, next)
    }

    /**
     A remote state change reaches the same instances, whose streams raise what it calls for, and
     is remembered for later ones.
     */
    method OnState(path: string, state: PortState)
      requires Indexed()
      modifies this`states, Instances()`state, Instances()`raised
      ensures states == old(states)[path := state]
      ensures forall l | l in portInstances ::
        var instance := portInstances[l].instance;
        if portInstances[l].remotePath == path then Told(instance, old(instance.state), old(instance.raised), state)
        else instance.state == old(instance.state) && instance.raised == old(instance.raised)
    {
      states := states[path := state];
      if path in byRemotePath {
        SetStates(byRemotePath[path], state);
      }
    }

    method SetStates(mirrors: set<string>, state: PortState)
      requires mirrors <= portInstances.Keys && Named(portInstances)
      modifies Instances()`state, Instances()`raised
      ensures forall l | l in portInstances ::
        var instance := portInstances[l].instance;
        if l in mirrors then Told(instance, old(instance.state), old(instance.raised), state)
        else instance.state == old(instance.state) && instance.raised == old(instance.raised)
    {
      var todo := mirrors;
      while todo != {}
        invariant todo <= mirrors
        invariant forall l | l in portInstances ::
          var instance := portInstances[l].instance;
          if l in mirrors && l !in todo then Told(instance, old(instance.state), old(instance.raised), state)
          else instance.state == old(instance.state) && instance.raised == old(instance.raised)
        decreases |todo|
      {
        var l :| l in todo;
        portInstances[l].instance.SetState(state);
        todo := todo - {l};
      }
    }

    ghost function Window(path: string): set<BackpressureGate>
      reads this`gates
    {
      if path in gates then {gates[path]} else {}
    }

    /**
     A drain for one remote port frees one slot of its window and leaves the others alone; what its
     listeners write goes out as packets, in order.
     */
    method OnMuxDrain(path: string, script: seq<seq<MuxOp>>) returns (calls: nat)
      requires Valid()
      modifies Window(path)
      modifies transport`buffered, transport`wire, transport`handed
      ensures Valid() && calls <= |script|
      ensures path in gates ==> gates[path].Now() == AfterAck(window, old(gates[path].Now()), GateScript(script))
      ensures path in gates ==>
        calls == Performed(GateScript(script), |gates[path].wakes| - |old(gates[path].wakes)|)
      ensures forall r | r in gates && r != path :: gates[r].Now() == old(gates[r].Now())
      ensures View() == Emit(old(View()), if path in gates then PacketFrames(path, AllData(script[..calls])) else [])
      ensures old(Matched()) && Proper(script) ==> Matched()
    {
      calls := 0;
      hide AfterAck, Match, AllData, PacketFrames, GateScript, Proper, BackpressureGate.Valid, BackpressureGate.Now;
      hide RemoteSerialClientMuxSocket.Valid, RemoteSerialClientMuxSocket.Matched;
      if path in gates {
        calls := DrainKnown(path, script);
      } else {
        assert transport.wire + [] == transport.wire && transport.buffered + [] == transport.buffered;
      }
    }

    method DrainKnown(path: string, script: seq<seq<MuxOp>>) returns (calls: nat)
      requires Valid() && path in gates
      modifies gates[path], transport`buffered, transport`wire, transport`handed
      ensures Valid() && calls <= |script|
      ensures gates[path].Now() == AfterAck(window, old(gates[path].Now()), GateScript(script))
      ensures calls == Performed(GateScript(script), |gates[path].wakes| - |old(gates[path].wakes)|)
      ensures forall r | r in gates && r != path :: gates[r].Now() == old(gates[r].Now())
      ensures View() == Emit(old(View()), PacketFrames(path, AllData(script[..calls])))
      ensures old(Matched()) && Proper(script) ==> Matched()
    {
      hide AfterAck, Match, AllData, PacketFrames, GateScript, Proper, Emit, BackpressureGate.Valid, BackpressureGate.Now;
      hide RemoteSerialClientMuxSocket.Valid, RemoteSerialClientMuxSocket.Plains;
      ghost var handed, plain := transport.handed, Plains();
      PlainsAre();
      calls := Drained(path, script);
      MatchSent(handed, from, plain, path, AllData(script[..calls]));
      SendAll(path, AllData(script[..calls]));
    }

    /** The window's part of a drain; the packets that its listeners' writes call for are still to be sent. */
    method Drained(path: string, script: seq<seq<MuxOp>>) returns (calls: nat)
      requires Valid() && path in gates
      modifies gates[path]
      ensures Valid() && calls <= |script|
      ensures gates[path].Now() == AfterAck(window, old(gates[path].Now()), GateScript(script))
      ensures calls == Performed(GateScript(script), |gates[path].wakes| - |old(gates[path].wakes)|)
      ensures forall r | r in gates && r != path :: gates[r].Now() == old(gates[r].Now())
      ensures Proper(script) ==> Plains() == old(Plains())[path := old(Plains())[path] + |AllData(script[..calls])|]
    {
      hide BackpressureGate.Valid, AfterAck, Agrees, Shared, AllTaken, AllData, Plain, GateScript, Proper;
      hide RemoteSerialClientMuxSocket.Valid, RemoteSerialClientMuxSocket.Plains, BackpressureGate.Now;
      ghost var taken, plain := gates[path].taken, Plains();
      PlainsAre();
      calls := AckGate(path, GateScript(script));
      PlainsAfter(path, plain, taken, script, calls);
    }

    method AckGate(path: string, script: seq<seq<Op>>) returns (calls: nat)
      requires Valid() && path in gates
      modifies gates[path]
      ensures Valid() && calls <= |script|
      ensures gates[path].Now() == AfterAck(window, old(gates[path].Now()), script)
      ensures calls == Performed(script, |gates[path].wakes| - |old(gates[path].wakes)|)
      ensures gates[path].taken == old(gates[path].taken) + AllTaken(script[..calls])
      ensures forall r | r in gates && r != path :: gates[r].Now() == old(gates[r].Now()) && gates[r].taken == old(gates[r].taken)
    {
      hide BackpressureGate.Valid, AfterAck, Agrees, Shared, Named, AllTaken, BackpressureGate.Accounted;
      Apart(path);
      assert gates[path].Valid();
      calls := gates[path].Ack(script);
    }

    lemma PlainsAfter(path: string, plain: map<string, nat>, taken: seq<Slot>, script: seq<seq<MuxOp>>, calls: nat)
      requires path in gates && plain.Keys == gates.Keys && plain[path] == Plain(taken) && calls <= |script|
      requires forall r | r in gates && r != path :: Plain(gates[r].taken) == plain[r]
      requires gates[path].taken == taken + AllTaken(GateScript(script)[..calls])
      ensures Proper(script) ==> Plains() == plain[path := plain[path] + |AllData(script[..calls])|]
    {
      hide AllTaken, AllData, Plain;
      if Proper(script) {
        var done := script[..calls];
        assert GateScript(script)[..calls] == GateScript(done);
        assert forall i | 0 <= i < |done| :: done[i] == script[i];
        AllWritesTakeSlots(done);
        PlainConcat(taken, AllTaken(GateScript(done)));
      }
    }

    /** Windows of other paths are other windows. */
    lemma Apart(path: string)
      requires Indexed() && path in gates
      ensures forall r | r in gates && r != path :: gates[r] != gates[path]
    {
    }

    method SendAll(path: string, data: seq<seq<Byte>>)
      modifies transport`buffered, transport`wire, transport`handed
      ensures View() == Emit(old(View()), PacketFrames(path, data))
      ensures transport.handed == old(transport.handed) + PacketFrames(path, data)
    {
      assert transport.wire + [] == transport.wire && transport.buffered + [] == transport.buffered;
      for i := 0 to |data|
        invariant View() == Emit(old(View()), PacketFrames(path, data[..i]))
        invariant transport.handed == old(transport.handed) + PacketFrames(path, data[..i])
      {
        assert PacketFrames(path, data[..i + 1]) == PacketFrames(path, data[..i]) + [MuxPacket(path, data[i])];
        transport.Send(MuxPacket(path, data[i]));
      }
      assert data[..|data|] == data;
    }

    /**
     An application write on a local port goes out as one packet of its remote port, on the wire or
     behind what waits for the next session, and takes one slot of that port's window only.
     */
    method WriteCommand(localPath: string, data: seq<Byte>)
      requires Valid() && localPath in portInstances
      modifies transport`buffered, transport`wire, transport`handed, portInstances[localPath].instance.gate
      ensures Valid()
      ensures
        var packet := MuxPacket(portInstances[localPath].remotePath, data);
        && transport.wire == old(transport.wire) + (if transport.connected then [packet] else [])
        && transport.buffered == old(transport.buffered) + (if transport.connected then [] else [packet])
      ensures View() == Step(old(View()), SendData(portInstances[localPath].remotePath, data))
      ensures forall r | r in gates ::
        gates[r].ackResolvers
          == old(gates[r].ackResolvers) + (if r == portInstances[localPath].remotePath then [Single] else [])
      ensures old(Matched()) ==> Matched()
    {
      hide BackpressureGate.Valid, Agrees, Match, PacketFrames, RemoteSerialClientMuxSocket.Plains;
      var remotePath := portInstances[localPath].remotePath;
      ghost var handed, plain := transport.handed, Plains();
      PlainsAre();
      OneFrame(remotePath, data);
      MatchSent(handed, from, plain, remotePath, [data]);
      transport.Send(MuxPacket(remotePath, data));
      TakeSlot(remotePath);
    }

    lemma OneFrame(path: string, data: seq<Byte>)
      ensures PacketFrames(path, [data]) == [MuxPacket(path, data)]
    {
    }

    method TakeSlot(path: string)
      requires Valid() && path in gates
      modifies gates[path]
      ensures Valid()
      ensures forall r | r in gates ::
        gates[r].ackResolvers == old(gates[r].ackResolvers) + (if r == path then [Single] else [])
      ensures Plains() == old(Plains())[path := old(Plains())[path] + 1]
    {
      hide RemoteSerialClientMuxSocket.Valid, RemoteSerialClientMuxSocket.Plains, Plain;
      ghost var plain, taken := Plains(), gates[path].taken;
      PlainsAre();
      Take(path);
      PlainsTaken(path, plain, taken);
    }

    method Take(path: string)
      requires Valid() && path in gates
      modifies gates[path]
      ensures Valid()
      ensures forall r | r in gates ::
        gates[r].ackResolvers == old(gates[r].ackResolvers) + (if r == path then [Single] else [])
      ensures gates[path].taken == old(gates[path].taken) + [Single]
      ensures forall r | r in gates && r != path :: gates[r].taken == old(gates[r].taken)
    {
      hide BackpressureGate.Valid, Agrees, Shared, Named, BackpressureGate.Accounted;
      Apart(path);
      assert gates[path].Valid();
      gates[path].Consume(Single);
    }

    lemma PlainsTaken(path: string, plain: map<string, nat>, taken: seq<Slot>)
      requires path in gates && plain.Keys == gates.Keys && plain[path] == Plain(taken)
      requires forall r | r in gates && r != path :: Plain(gates[r].taken) == plain[r]
      requires gates[path].taken == taken + [Single]
      ensures Plains() == plain[path := plain[path] + 1]
    {
      PlainConcat(taken, [Single]);
      PlainOne(Single);
      hide Plain;
    }

    /**
     Every promise still queued in any window is rejected, in order, and nothing else is settled;
     every instance is closed and its stream gone; nothing is remembered.
     */
    method Disconnect()
      requires Valid()
      modifies this, transport`closed, Instances(), gates.Values
      ensures Valid() && transport.closed
      ensures portInstances == map[] && byRemotePath == map[] && gates == map[] && states == map[] && activeOpens == map[]
      ensures forall l | l in old(portInstances) ::
        old(portInstances[l].instance).state == CLOSED && !old(portInstances[l].instance).streaming
      ensures Matched()
      ensures forall r | r in old(gates) :: WasReset(old(gates[r]), old(gates[r].settled), old(gates[r].ackResolvers))
    {
      hide BackpressureGate.Valid, Rejections, AllRejected, SettledIds, Promises;
      CloseInstances();
      ResetGates();
      Forget();
      transport.Close();
    }

    method Forget()
      requires window >= 1
      modifies this
      ensures Valid() && Matched()
      ensures portInstances == map[] && byRemotePath == map[] && gates == map[] && states == map[] && activeOpens == map[]
    {
      from := |transport.handed|;
      portInstances, byRemotePath := map[], map[];
      gates, states, activeOpens := map[], map[], map[];
    }

    method CloseInstances()
      requires Named(portInstances)
      modifies Instances()
      ensures forall l | l in portInstances :: portInstances[l].instance.state == CLOSED && !portInstances[l].instance.streaming
    {
      var todo := portInstances.Keys;
      while todo != {}
        invariant forall l | l in portInstances && l !in todo ::
          portInstances[l].instance.state == CLOSED && !portInstances[l].instance.streaming
        decreases |todo|
      {
        var l :| l in todo;
        if l in portInstances {
          portInstances[l].instance.state, portInstances[l].instance.streaming := CLOSED, false;
        }
        todo := todo - {l};
      }
    }

    /** Nothing is queued any more, and what was queued has been rejected in order. */
    ghost static predicate WasReset(gate: BackpressureGate, settled: seq<Settlement>, queue: seq<Slot>)
      reads gate
    {
      && gate.ackResolvers == [] && gate.settled == settled + Rejections(queue)
      && settled <= gate.settled && AllRejected(gate.settled[|settled|..])
      && SettledIds(gate.settled[|settled|..]) == Promises(queue)
    }

    method ResetGates()
      requires Valid()
      modifies gates.Values
      ensures forall r | r in gates :: WasReset(gates[r], old(gates[r].settled), old(gates[r].ackResolvers))
    {
      hide BackpressureGate.Valid, Rejections, AllRejected, SettledIds, Promises;
      var todo := gates.Keys;
      while todo != {}
        invariant todo <= gates.Keys
        invariant forall r | r in todo ::
          gates[r].Valid() && gates[r].settled == old(gates[r].settled) && gates[r].ackResolvers == old(gates[r].ackResolvers)
        invariant forall r | r in gates && r !in todo ::
          WasReset(gates[r], old(gates[r].settled), old(gates[r].ackResolvers))
        decreases |todo|
      {
        var r :| r in todo;
        assert forall q | q in gates && q != r :: gates[q] != gates[r];
        gates[r].Reset();
        todo := todo - {r};
      }
    }
  }
}
