/** The namespace socket: one remote port, opened once per connection epoch. */
module NamespaceSocket {
  import opened Common
  import opened Session

  datatype OpenFrame = OpenFrame(path: string, options: Options)

  /** The path in the options wins over the namespace. */
  function OpenFor(namespacePath: string, options: Options): OpenFrame {
    OpenFrame(if options.path.Some? then options.path.value else namespacePath, options)
  }

  datatype NsEvent = Connects | Shakes | Opens(options: Options)

  /** `sent` are the open frames since the last connect. */
  datatype NsState = NsState(handshaked: bool, openSent: bool, options: Option<Options>, sent: seq<OpenFrame>)

  /** Handshakes since the last connect. */
  predicate Shaken(events: seq<NsEvent>) {
    events != [] &&
    match events[|events| - 1]
    case Connects => false
    case Shakes => true
    case Opens(_) => Shaken(events[..|events| - 1])
  }

  /** The options in force: the latest `open`, or else those the socket was created with. */
  function InForce(initial: Option<Options>, events: seq<NsEvent>): Option<Options> {
    if events == [] then initial
    else if events[|events| - 1].Opens? then Some(events[|events| - 1].options)
    else InForce(initial, events[..|events| - 1])
  }

  /** The options in force at the first moment of this epoch at which a handshake and options are there. */
  function Due(initial: Option<Options>, events: seq<NsEvent>): Option<Options> {
    if events == [] || events[|events| - 1].Connects? then None
    else
      var before := Due(initial, events[..|events| - 1]);
      if before.Some? then before
      else if Shaken(events) then InForce(initial, events)
      else None
  }

  class RemoteSerialClientSocket {
    const namespacePath: string
    const initial: Option<Options>
    var handshaked: bool
    var openSent: bool
    var openOptions: Option<Options>
    /** Open frames emitted since the last connect. */
    var sent: seq<OpenFrame>
    ghost var events: seq<NsEvent>

    /**
     Between two connects one open frame goes out, at the moment a handshake and options are
     first both there and with the options then in force, and otherwise none.
     */
    ghost predicate Valid()
      reads this
    {
      && handshaked == Shaken(events)
      && openOptions == InForce(initial, events)
      && openSent == Due(initial, events).Some?
      && sent == (if openSent then [OpenFor(namespacePath, Due(initial, events).value)] else [])
    }

    constructor (namespacePath: string, initial: Option<Options>)
      ensures Valid() && events == [] && this.namespacePath == namespacePath && this.initial == initial
    {
      this.namespacePath, this.initial := namespacePath, initial;
      handshaked, openSent, openOptions, sent := false, false, initial, [];
      events := [];
    }

    /** One more open frame with these options, for their path or else for the namespace; or none. */
    predicate Says(before: seq<OpenFrame>, after: seq<OpenFrame>, options: Option<Options>) {
      if options.None? then after == before
      else
        && |after| == |before| + 1 && after[..|before|] == before && after[|before|].options == options.value
        && (options.value.path.Some? ==> after[|before|].path == options.value.path.value)
        && (options.value.path.None? ==> after[|before|].path == namespacePath)
    }

    method OnConnect()
      requires Valid()
      modifies this
      ensures Valid() && events == old(events) + [Connects]
      ensures !handshaked && !openSent && sent == [] && openOptions == old(openOptions)
    {
      handshaked, openSent := false, false;
      sent := [];
      Record(events, Connects);
      events := events + [Connects];
    }

    method OnHandshake()
      requires Valid()
      modifies this
      ensures Valid() && events == old(events) + [Shakes]
      ensures handshaked && openOptions == old(openOptions)
      ensures openSent == (old(openSent) || openOptions.Some?)
      ensures Says(old(sent), sent, if openOptions.Some? && !old(openSent) then openOptions else None)
    {
      Record(events, Shakes);
      DueExactly(initial, events);
      events := events + [Shakes];
      handshaked := true;
      if openOptions.Some? {
        SendOpen(openOptions.value);
      }
    }

    method Open(options: Options)
      requires Valid()
      modifies this
      ensures Valid() && events == old(events) + [Opens(options)]
      ensures openOptions == Some(options) && handshaked == old(handshaked)
      ensures openSent == (old(openSent) || handshaked)
      ensures Says(old(sent), sent, if handshaked && !old(openSent) then Some(options) else None)
    {
      Record(events, Opens(options));
      DueExactly(initial, events);
      events := events + [Opens(options)];
      openOptions := Some(options);
      if handshaked {
        SendOpen(options);
      }
    }

    method SendOpen(options: Options)
      modifies this`openSent, this`sent
      ensures openSent
      ensures Says(old(sent), sent, if old(openSent) then None else Some(options))
      ensures sent == old(sent) + (if old(openSent) then [] else [OpenFor(namespacePath, options)])
    {
      if openSent {
        return;
      }
      openSent := true;
      sent := sent + [OpenFor(namespacePath, options)];
    }

    static lemma Record(events: seq<NsEvent>, e: NsEvent)
      ensures var es := events + [e]; es[|es| - 1] == e && es[..|es| - 1] == events
    {
    }
  }

  /** Whatever the order and repetition of calls, an open is due exactly when both have occurred. */
  lemma {:induction false} DueExactly(initial: Option<Options>, events: seq<NsEvent>)
    ensures Due(initial, events).Some? <==> Shaken(events) && InForce(initial, events).Some?
    decreases |events|
  {
    if events != [] {
      DueExactly(initial, events[..|events| - 1]);
    }
  }

  /** In every reachable state of the socket. */
  lemma OneOpenPerEpoch(s: RemoteSerialClientSocket)
    requires s.Valid()
    ensures |s.sent| == if Shaken(s.events) && InForce(s.initial, s.events).Some? then 1 else 0
    ensures s.sent != [] ==>
      var options := s.sent[0].options;
      Due(s.initial, s.events) == Some(options)
      && s.sent[0].path == (if options.path.Some? then options.path.value else s.namespacePath)
  {
    DueExactly(s.initial, s.events);
  }
}
