/**
 What a mux socket wants open, across reconnects. Frames emitted while the transport is down are
 buffered and open the next session's traffic; a new session starts with nothing open.
 */
module Session {
  import opened Common

  datatype Options = Options(path: Option<string>, settings: map<string, string>)

  datatype MuxFrame =
    | MuxOpen(path: string, options: Options)
    | MuxClose(path: string)
    | MuxPacket(path: string, data: seq<Byte>)

  /** `wire` holds the frames of the current session only. */
  datatype Session = Session(
    connected: bool,
    handshaked: bool,
    active: map<string, Options>,
    buffered: seq<MuxFrame>,
    wire: seq<MuxFrame>)

  const NEW_SESSION := Session(false, false, map[], [], [])

  datatype Event =
    | Connect
    | Disconnect
    | Handshake(order: seq<string>)
    | OpenPort(path: string, options: Options)
    | ClosePort(path: string)
    | SendData(path: string, data: seq<Byte>)

  function Emit(s: Session, frames: seq<MuxFrame>): Session {
    if s.connected then s.(wire := s.wire + frames) else s.(buffered := s.buffered + frames)
  }

  /** The replay visits every active open once, in some order. */
  ghost predicate Lists<V>(order: seq<string>, active: map<string, V>) {
    && (forall p :: p in order <==> p in active)
    && Distinct(order)
  }

  function Replay(order: seq<string>, active: map<string, Options>): (frames: seq<MuxFrame>)
    requires forall p | p in order :: p in active
    ensures |frames| == |order|
  {
    if order == [] then []
    else Replay(order[..|order| - 1], active) + [MuxOpen(order[|order| - 1], active[order[|order| - 1]])]
  }

  lemma ReplaySnoc(order: seq<string>, path: string, active: map<string, Options>)
    requires path in active && forall p | p in order :: p in active
    ensures Replay(order + [path], active) == Replay(order, active) + [MuxOpen(path, active[path])]
  {
    assert (order + [path])[..|order|] == order;
  }

  /** The replay, frame by frame: each path listed, with the options it is wanted with. */
  lemma {:induction false} ReplayAt(order: seq<string>, active: map<string, Options>, i: nat)
    requires i < |order| && forall p | p in order :: p in active
    ensures |Replay(order, active)| == |order| && Replay(order, active)[i] == MuxOpen(order[i], active[order[i]])
    decreases |order|
  {
    if |order| > 1 {
      ReplayAt(order[..|order| - 1], active, if i < |order| - 1 then i else 0);
    }
  }

  lemma ReplayAll(order: seq<string>, active: map<string, Options>)
    requires forall p | p in order :: p in active
    ensures |Replay(order, active)| == |order|
    ensures forall i | 0 <= i < |order| :: Replay(order, active)[i] == MuxOpen(order[i], active[order[i]])
  {
    hide Replay;
    forall i | 0 <= i < |order|
      ensures |Replay(order, active)| == |order| && Replay(order, active)[i] == MuxOpen(order[i], active[order[i]])
    {
      ReplayAt(order, active, i);
    }
  }

  /** Part of a listing: `order` holds, once each, what is no longer to be listed. */
  ghost predicate Taken<V>(order: seq<string>, todo: set<string>, active: map<string, V>) {
    && todo <= active.Keys
    && (forall p :: p in order <==> p in active && p !in todo)
    && Distinct(order)
  }

  lemma TakenNext<V>(order: seq<string>, todo: set<string>, active: map<string, V>, path: string)
    requires Taken(order, todo, active) && path in todo
    ensures Taken(order + [path], todo - {path}, active)
    ensures path in active && forall p | p in order :: p in active
  {
  }

  lemma TakenAll<V>(order: seq<string>, active: map<string, V>)
    ensures Taken<V>([], active.Keys, active)
    ensures Taken(order, {}, active) ==> Lists(order, active)
  {
  }

  /** A handshake only comes over a connected transport. */
  ghost predicate Enabled(s: Session, e: Event) {
    match e
    case Connect => !s.connected
    case Disconnect => s.connected
    case Handshake(order) => s.connected && Lists(order, s.active)
    case _ => true
  }

  ghost function Step(s: Session, e: Event): Session {
    if !Enabled(s, e) then s
    else match e
      case Connect => Session(true, false, s.active, [], s.buffered)
      case Disconnect => s.(connected := false)
      case Handshake(order) => Emit(s.(handshaked := true), Replay(order, s.active))
      case OpenPort(path, options) =>
        var wanted := s.(active := s.active[path := options]);
        if s.handshaked then Emit(wanted, [MuxOpen(path, options)]) else wanted
      case ClosePort(path) => Emit(s.(active := s.active - {path}), [MuxClose(path)])
      case SendData(path, data) => Emit(s, [MuxPacket(path, data)])
  }

  lemma ListedAreThere<V>(order: seq<string>, active: map<string, V>)
    requires Lists(order, active)
    ensures forall p | p in order :: p in active
  {
  }

  lemma ShakenIs(s: Session, order: seq<string>)
    requires s.connected && Lists(order, s.active) && forall p | p in order :: p in s.active
    ensures Step(s, Handshake(order)) == s.(handshaked := true, wire := s.wire + Replay(order, s.active))
  {
  }

  ghost function Reach(events: seq<Event>): Session {
    if events == [] then NEW_SESSION
    else Step(Reach(events[..|events| - 1]), events[|events| - 1])
  }

  /** What a server that starts with nothing open has open after these frames. */
  function Opened(frames: seq<MuxFrame>): map<string, Options> {
    if frames == [] then map[] else Apply(Opened(frames[..|frames| - 1]), frames[|frames| - 1])
  }

  function Apply(open: map<string, Options>, f: MuxFrame): map<string, Options> {
    match f
    case MuxOpen(path, options) => open[path := options]
    case MuxClose(path) => open - {path}
    case MuxPacket(_, _) => open
  }

  lemma OpenedSnoc(frames: seq<MuxFrame>, f: MuxFrame)
    ensures Opened(frames + [f]) == Apply(Opened(frames), f)
  {
    assert (frames + [f])[..|frames + [f]| - 1] == frames;
  }

  /** Replaying sets every replayed path to its options and touches no other. */
  lemma {:induction false} OpenedReplay(frames: seq<MuxFrame>, order: seq<string>, active: map<string, Options>)
    requires forall p | p in order :: p in active
    ensures
      var open := Opened(frames + Replay(order, active));
      && open.Keys == Opened(frames).Keys + (set p | p in order)
      && (forall p | p in open :: open[p] == if p in order then active[p] else Opened(frames)[p])
    decreases |order|
  {
    if order == [] {
      assert frames + Replay(order, active) == frames;
    } else {
      var init, last := order[..|order| - 1], order[|order| - 1];
      assert order == init + [last];
      OpenedReplay(frames, init, active);
      assert frames + Replay(order, active) == (frames + Replay(init, active)) + [MuxOpen(last, active[last])];
      OpenedSnoc(frames + Replay(init, active), MuxOpen(last, active[last]));
    }
  }

  /**
   Nothing is open at the server that is not wanted; once the handshake has been answered, the
   server has exactly what is wanted.
   */
  ghost predicate Intent(s: Session) {
    && (s.connected ==> s.buffered == [])
    && Opened(s.buffered).Keys <= s.active.Keys
    && (s.connected ==> Opened(s.wire).Keys <= s.active.Keys)
    && (s.connected && s.handshaked ==> Opened(s.wire) == s.active)
  }

  lemma IntentOpen(s: Session, path: string, options: Options)
    requires Intent(s)
    ensures Intent(Step(s, OpenPort(path, options)))
  {
    OpenedSnoc(s.wire, MuxOpen(path, options));
    OpenedSnoc(s.buffered, MuxOpen(path, options));
  }

  lemma IntentClose(s: Session, path: string)
    requires Intent(s)
    ensures Intent(Step(s, ClosePort(path)))
  {
    OpenedSnoc(s.wire, MuxClose(path));
    OpenedSnoc(s.buffered, MuxClose(path));
  }

  lemma IntentHandshake(s: Session, order: seq<string>)
    requires Intent(s) && Enabled(s, Handshake(order))
    ensures Intent(Step(s, Handshake(order)))
  {
    OpenedReplay(s.wire, order, s.active);
    assert (set p | p in order) == s.active.Keys;
  }

  /**
   Reconnect replay preserves intent, over every run of connects, disconnects, handshakes, opens,
   closes and data.
   */
  lemma {:induction false} ReplayPreservesIntent(events: seq<Event>)
    ensures Intent(Reach(events))
    decreases |events|
  {
    if events != [] {
      var before, e := events[..|events| - 1], events[|events| - 1];
      ReplayPreservesIntent(before);
      var s := Reach(before);
      if Enabled(s, e) {
        match e
        case OpenPort(path, options) => IntentOpen(s, path, options);
        case ClosePort(path) => IntentClose(s, path);
        case Handshake(order) => IntentHandshake(s, order);
        case SendData(path, data) =>
          OpenedSnoc(s.wire, MuxPacket(path, data));
          OpenedSnoc(s.buffered, MuxPacket(path, data));
        case Connect =>
        case Disconnect =>
      }
    }
  }

  /** What the application asked for, whatever the connection did: the latest open not closed since. */
  function Wanted(events: seq<Event>): map<string, Options> {
    if events == [] then map[]
    else
      var before, e := Wanted(events[..|events| - 1]), events[|events| - 1];
      match e
      case OpenPort(path, options) => before[path := options]
      case ClosePort(path) => before - {path}
      case _ => before
  }

  lemma {:induction false} ActiveIsWanted(events: seq<Event>)
    ensures Reach(events).active == Wanted(events)
    decreases |events|
  {
    if events != [] {
      ActiveIsWanted(events[..|events| - 1]);
    }
  }

  /** After a handshake the server's open ports are the wanted ones, options included. */
  lemma ServerHasWhatWasAsked(events: seq<Event>)
    ensures
      var s := Reach(events);
      && (s.connected ==> Opened(s.wire).Keys <= Wanted(events).Keys)
      && (s.connected && s.handshaked ==> Opened(s.wire) == Wanted(events))
  {
    ReplayPreservesIntent(events);
    ActiveIsWanted(events);
  }

  /* ------------------------------- data ------------------------------- */

  /** The data among some frames that is for one path, in order. */
  function PacketsOf(frames: seq<MuxFrame>, path: string): seq<seq<Byte>> {
    if frames == [] then []
    else
      var last := frames[|frames| - 1];
      PacketsOf(frames[..|frames| - 1], path) + (if last.MuxPacket? && last.path == path then [last.data] else [])
  }

  lemma {:induction false} PacketsConcat(a: seq<MuxFrame>, b: seq<MuxFrame>, path: string)
    ensures PacketsOf(a + b, path) == PacketsOf(a, path) + PacketsOf(b, path)
    decreases |b|
  {
    if b == [] {
      assert a + b == a;
    } else {
      assert (a + b)[..|a + b| - 1] == a + b[..|b| - 1];
      PacketsConcat(a, b[..|b| - 1], path);
    }
  }

  lemma OnePacket(f: MuxFrame, path: string)
    ensures PacketsOf([f], path) == if f.MuxPacket? && f.path == path then [f.data] else []
  {
    assert [f][..0] == [];
  }

  lemma {:induction false} ReplayHasNone(order: seq<string>, active: map<string, Options>, path: string)
    requires forall p | p in order :: p in active
    ensures PacketsOf(Replay(order, active), path) == []
    decreases |order|
  {
    if order != [] {
      var init, last := order[..|order| - 1], order[|order| - 1];
      ReplayHasNone(init, active, path);
      PacketsConcat(Replay(init, active), [MuxOpen(last, active[last])], path);
      OnePacket(MuxOpen(last, active[last]), path);
    }
  }

  /** Whether the transport is up, from what happened to it alone. */
  predicate Up(events: seq<Event>) {
    events != [] &&
    match events[|events| - 1]
    case Connect => true
    case Disconnect => false
    case _ => Up(events[..|events| - 1])
  }

  /** What has been written for a path since the transport last went down. */
  function WrittenSinceLoss(events: seq<Event>, path: string): seq<seq<Byte>> {
    if events == [] then []
    else
      var init, last := events[..|events| - 1], events[|events| - 1];
      match last
      case Disconnect => if Up(init) then [] else WrittenSinceLoss(init, path)
      case SendData(p, data) => WrittenSinceLoss(init, path) + (if p == path then [data] else [])
      case _ => WrittenSinceLoss(init, path)
  }

  /** What has been written for a path since the traffic of the latest session began: with the loss before it. */
  function WrittenThisSession(events: seq<Event>, path: string): seq<seq<Byte>> {
    if events == [] then []
    else
      var init, last := events[..|events| - 1], events[|events| - 1];
      match last
      case Connect => if Up(init) then WrittenThisSession(init, path) else WrittenSinceLoss(init, path)
      case SendData(p, data) => WrittenThisSession(init, path) + (if p == path then [data] else [])
      case _ => WrittenThisSession(init, path)
  }

  /** Where the data of a path is. */
  ghost predicate Carried(s: Session, path: string, up: bool, sinceLoss: seq<seq<Byte>>, thisSession: seq<seq<Byte>>) {
    && s.connected == up && (up ==> s.buffered == [])
    && PacketsOf(s.wire, path) + PacketsOf(s.buffered, path) == thisSession
    && (!up ==> PacketsOf(s.buffered, path) == sinceLoss)
  }

  lemma NoPackets(path: string)
    ensures PacketsOf([], path) == []
  {
  }

  /** Frames that hold this data for the path go where they have to. */
  lemma CarriedOn(s: Session, path: string, up: bool, sinceLoss: seq<seq<Byte>>, thisSession: seq<seq<Byte>>,
                  frames: seq<MuxFrame>, data: seq<seq<Byte>>)
    requires Carried(s, path, up, sinceLoss, thisSession) && PacketsOf(frames, path) == data
    ensures Carried(Emit(s, frames), path, up, sinceLoss + data, thisSession + data)
  {
    hide PacketsOf;
    PacketsConcat(s.wire, frames, path);
    PacketsConcat(s.buffered, frames, path);
    NoPackets(path);
    var w, b := PacketsOf(s.wire, path), PacketsOf(s.buffered, path);
    assert w + (b + data) == (w + b) + data;
    assert s.connected ==> b == [] && w + data + b == w + b + data;
  }

  /**
   Over every run, what is on the session's wire for a path, followed by what is buffered, is exactly
   what was written for that path since the session's traffic began, in order.
   */
  lemma {:induction false} PacketsInOrder(events: seq<Event>, path: string)
    ensures Reach(events).connected == Up(events)
    ensures PacketsOf(Reach(events).wire, path) + PacketsOf(Reach(events).buffered, path) == WrittenThisSession(events, path)
    ensures Carried(Reach(events), path, Up(events), WrittenSinceLoss(events, path), WrittenThisSession(events, path))
    decreases |events|
  {
    if events != [] {
      hide Reach, Step, Carried;
      var init, e := events[..|events| - 1], events[|events| - 1];
      PacketsInOrder(init, path);
      CarriedStep(Reach(init), e, path, Up(init), WrittenSinceLoss(init, path), WrittenThisSession(init, path));
      ReachNext(events);
      CarriedMeans(Reach(events), path, Up(events), WrittenSinceLoss(events, path), WrittenThisSession(events, path));
    }
  }

  lemma ReachNext(events: seq<Event>)
    requires events != []
    ensures Reach(events) == Step(Reach(events[..|events| - 1]), events[|events| - 1])
  {
  }

  lemma CarriedMeans(s: Session, path: string, up: bool, sinceLoss: seq<seq<Byte>>, thisSession: seq<seq<Byte>>)
    requires Carried(s, path, up, sinceLoss, thisSession)
    ensures s.connected == up && PacketsOf(s.wire, path) + PacketsOf(s.buffered, path) == thisSession
  {
  }

  lemma CarriedStep(s: Session, e: Event, path: string, up: bool, loss: seq<seq<Byte>>, session: seq<seq<Byte>>)
    requires Carried(s, path, up, loss, session)
    ensures
      var data := if e.SendData? && e.path == path then [e.data] else [];
      Carried(Step(s, e), path, if e.Connect? then true else if e.Disconnect? then false else up,
              if e.Disconnect? && up then [] else loss + data,
              if e.Connect? && !up then loss else session + data)
  {
    assert loss + [] == loss && session + [] == session;
    match e
    case Connect => NoPackets(path);
    case Disconnect => NoPackets(path);
    case Handshake(order) =>
      if Enabled(s, e) {
        ReplayHasNone(order, s.active, path);
        hide PacketsOf;
        CarriedOn(s.(handshaked := true), path, up, loss, session, Replay(order, s.active), []);
      }
    case OpenPort(p, options) =>
      OnePacket(MuxOpen(p, options), path);
      hide PacketsOf;
      CarriedOn(s.(active := s.active[p := options]), path, up, loss, session, [MuxOpen(p, options)], []);
    case ClosePort(p) =>
      OnePacket(MuxClose(p), path);
      hide PacketsOf;
      CarriedOn(s.(active := s.active - {p}), path, up, loss, session, [MuxClose(p)], []);
    case SendData(p, data) =>
      OnePacket(MuxPacket(p, data), path);
      hide PacketsOf;
      CarriedOn(s, path, up, loss, session, [MuxPacket(p, data)], if p == path then [data] else []);
  }
}
