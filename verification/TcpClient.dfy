/**
 The client above one multiplexed raw-TCP connection. It keeps a table of open labels beside its
 connection's, and disconnect listeners may open labels while either table is being taken down.
 */
module TcpClient {
  import opened Common
  import opened Json
  import opened RawTcp
  import opened Rpc
  import opened Correlation
  import opened ClientRuns
  import opened LabelWalk

  /** The RPC tables of these transports are what they were. */
  ghost predicate Unmoved(others: map<RawTcpClientTransport, Table>)
    reads others.Keys
  {
    forall t | t in others :: t.View() == others[t]
  }

  /** These transports, but for one label, are among the others, with these tables. */
  ghost predicate Among(some: map<string, RawTcpClientTransport>, but: string, tables: map<string, Table>,
                        others: map<RawTcpClientTransport, Table>)
  {
    forall l | l in some && l != but :: l in tables && some[l] in others && others[some[l]] == tables[l]
  }

  ghost predicate AmongBlank(labels: set<string>, held: map<string, RawTcpClientTransport>,
                             others: map<RawTcpClientTransport, Table>)
  {
    forall l | l in labels :: l in held && held[l] in others && others[held[l]] == NEW_TABLE
  }

  ghost predicate Within(some: map<string, RawTcpClientTransport>, held: map<string, RawTcpClientTransport>) {
    forall l | l in some :: l in held && held[l] == some[l]
  }

  class RawTcpClient {
    /** The connection, made by the first `open`. */
    const sharedMux: ClientMux
    var closed: bool
    var transports: map<string, RawTcpClientTransport>
    /** Connected transports that the connection has forgotten; the application may still hold them. */
    var orphans: map<string, RawTcpClientTransport>
    /** How many RPC promises have been handed out. */
    var promises: nat

    /**
     Until it is closed the client holds what its connection knows and what its connection has
     forgotten, and nothing else; no label is both.
     */
    ghost predicate Known()
      reads this`closed, this`transports, this`orphans, sharedMux`transports
    {
      && (forall l | l in orphans :: l !in sharedMux.transports && orphans[l].name == l && orphans[l].mux == sharedMux)
      && (if closed then transports == map[] else transports == sharedMux.transports + orphans)
    }

    ghost predicate Wired()
      reads sharedMux`socketReady, sharedMux`pendingEnvelopes, sharedMux`written, sharedMux`accepted, sharedMux`transports
    {
      sharedMux.mode.Mux? && sharedMux.Queued() && sharedMux.Labelled()
    }

    /** The RPC tables of some transports. */
    ghost function Views(some: map<string, RawTcpClientTransport>): map<string, Table>
      reads some.Values
    {
      map l | l in some :: some[l].View()
    }

    ghost function Stand(): Standing
      reads this`orphans, this`promises, orphans.Values
      reads sharedMux`alive, sharedMux`accepted, sharedMux`transports, sharedMux.transports.Values
    {
      Standing(sharedMux.alive, Views(sharedMux.transports), Views(orphans), promises, sharedMux.accepted)
    }

    /** The tables are in order, and the connection stands where this run of `Correlation` leads. */
    ghost predicate Valid(run: seq<Event>)
      reads this, sharedMux, sharedMux.transports.Values, orphans.Values
    {
      Wired() && Known() && Matches(run, Stand())
    }

    lemma ViewsAre(some: map<string, RawTcpClientTransport>, tables: map<string, Table>)
      requires tables.Keys == some.Keys && forall l | l in tables :: tables[l] == some[l].View()
      ensures Views(some) == tables
    {
    }

    /** A transport stays connected as long as its connection knows it, and for ever when that has forgotten it. */
    lemma HeldIsConnected(run: seq<Event>, name: string)
      requires Valid(run)
      ensures name in sharedMux.transports ==> sharedMux.transports[name].connected
      ensures name in orphans ==> orphans[name].connected
    {
      AlwaysInv(false, run);
      var s := Reach(false, run);
      if name in sharedMux.transports {
        assert TableGood(s, name) && s.tables[name] == sharedMux.transports[name].View();
      }
      if name in orphans {
        assert OrphanGood(s, name) && s.orphans[name] == orphans[name].View();
      }
    }

    constructor (fits: Envelope -> bool)
      ensures Valid([]) && !closed && transports == map[] && orphans == map[] && sharedMux.transports == map[]
      ensures fresh(sharedMux) && sharedMux.alive && promises == 0 && sharedMux.accepted == []
    {
      sharedMux := new ClientMux(Mux, fits);
      closed, transports, orphans, promises := false, map[], map[], 0;
    }

    /* ------------------------------ opening labels ------------------------------ */

    /** A new transport for a label, in both tables, announced if the connection still lives. */
    method Enter(name: string) returns (transport: RawTcpClientTransport)
      requires Wired()
      modifies this`transports, sharedMux`transports, sharedMux`pendingEnvelopes, sharedMux`written, sharedMux`accepted
      ensures Wired()
      ensures fresh(transport) && transport.View() == NEW_TABLE && transport.name == name && transport.mux == sharedMux
      ensures transport.connects == 0
      ensures transports == old(transports)[name := transport]
      ensures sharedMux.transports == old(sharedMux.transports)[name := transport]
      ensures sharedMux.accepted == Accepts(sharedMux.alive, old(sharedMux.accepted), Hello(name, Some(name)))
    {
      hide Carried, ClientMux.Queued;
      transport := new RawTcpClientTransport(name, sharedMux);
      transports := transports[name := transport];
      sharedMux.RegisterTransport(name, transport);
    }

    /** `open`: a closed client refuses, a held label keeps its transport, any other gets a new one. */
    method Open(ghost run: seq<Event>, name: string) returns (r: Result<RawTcpClientTransport, ()>)
      requires Valid(run)
      modifies this`transports, sharedMux`transports, sharedMux`pendingEnvelopes, sharedMux`written, sharedMux`accepted
      ensures Valid(run + (if closed || name in old(transports) then [] else [OpenLabel(name)]))
      ensures r.Failure? <==> closed
      ensures r.Success? ==> name in transports && r.value == transports[name]
      ensures
        if closed || name in old(transports) then
          && transports == old(transports) && sharedMux.transports == old(sharedMux.transports)
          && sharedMux.accepted == old(sharedMux.accepted)
        else
          && fresh(r.value) && r.value.View() == NEW_TABLE
          && transports == old(transports)[name := r.value]
          && sharedMux.transports == old(sharedMux.transports)[name := r.value]
          && sharedMux.accepted == Accepts(sharedMux.alive, old(sharedMux.accepted), Hello(name, Some(name)))
    {
      assert run + [] == run;
      if closed {
        return Failure(());
      }
      if name in transports {
        return Success(transports[name]);
      }
      var transport := OpenNew(run, name);
      r := Success(transport);
    }

    method OpenNew(ghost run: seq<Event>, name: string) returns (transport: RawTcpClientTransport)
      requires Valid(run) && !closed && name !in transports
      modifies this`transports, sharedMux`transports, sharedMux`pendingEnvelopes, sharedMux`written, sharedMux`accepted
      ensures Valid(run + [OpenLabel(name)])
      ensures fresh(transport) && transport.View() == NEW_TABLE
      ensures transports == old(transports)[name := transport]
      ensures sharedMux.transports == old(sharedMux.transports)[name := transport]
      ensures sharedMux.accepted == Accepts(sharedMux.alive, old(sharedMux.accepted), Hello(name, Some(name)))
    {
      NotHeld(name);
      hide Matches, Accepts, HeldAt, RawTcpClient.Wired, RawTcpClient.Known, RawTcpClient.Views;
      MatchesOpen(run, Stand(), name);
      transport := EnterNew(name);
    }

    lemma NotHeld(name: string)
      requires Known() && !closed && name !in transports
      ensures !HeldAt(Stand(), name)
    {
    }

    method EnterNew(name: string) returns (transport: RawTcpClientTransport)
      requires Wired() && Known() && !closed && name !in transports
      modifies this`transports, sharedMux`transports, sharedMux`pendingEnvelopes, sharedMux`written, sharedMux`accepted
      ensures Wired() && Known() && fresh(transport) && transport.View() == NEW_TABLE
      ensures transports == old(transports)[name := transport]
      ensures sharedMux.transports == old(sharedMux.transports)[name := transport]
      ensures sharedMux.accepted == Accepts(sharedMux.alive, old(sharedMux.accepted), Hello(name, Some(name)))
      ensures Views(sharedMux.transports) == old(Views(sharedMux.transports))[name := NEW_TABLE]
      ensures Views(orphans) == old(Views(orphans))
    {
      hide Accepts, RawTcpClient.Wired, RawTcpClient.Known, RawTcpClient.Views;
      KnownParts();
      ghost var held, known := transports, sharedMux.transports;
      transport := Enter(name);
      Joined(held, known, name, transport);
    }

    lemma Joined(held: map<string, RawTcpClientTransport>, known: map<string, RawTcpClientTransport>, name: string,
                 transport: RawTcpClientTransport)
      requires !closed && held == known + orphans && known.Keys !! orphans.Keys && name !in held && transport.View() == NEW_TABLE
      requires forall l | l in orphans :: orphans[l].name == l && orphans[l].mux == sharedMux
      requires transports == held[name := transport] && sharedMux.transports == known[name := transport]
      ensures Known() && Views(sharedMux.transports) == Views(known)[name := NEW_TABLE]
    {
      JoinNew(held, known, orphans, name, transport);
      ViewsAre(sharedMux.transports, Views(known)[name := NEW_TABLE]);
    }

    lemma KnownParts()
      requires Known()
      ensures sharedMux.transports.Keys !! orphans.Keys
      ensures forall l | l in orphans :: orphans[l].name == l && orphans[l].mux == sharedMux
      ensures if closed then transports == map[] else transports == sharedMux.transports + orphans
    {
    }

    /** A listener opens labels, one after the other; `news` are the transports made for it. */
    method OpenAll(asked: seq<string>) returns (ghost made: seq<string>, ghost news: map<string, RawTcpClientTransport>)
      requires Wired()
      modifies this`transports, sharedMux`transports, sharedMux`pendingEnvelopes, sharedMux`written, sharedMux`accepted
      ensures Wired()
      ensures made == if closed then [] else Made(old(transports).Keys, asked)
      ensures news.Keys == Elements(made)
      ensures forall l | l in news ::
        && fresh(news[l]) && news[l].View() == NEW_TABLE && news[l].connects == 0
        && news[l].name == l && news[l].mux == sharedMux
      ensures transports == old(transports) + news && sharedMux.transports == old(sharedMux.transports) + news
      ensures sharedMux.accepted == old(sharedMux.accepted) + Hellos(sharedMux.alive, made)
      decreases |asked|
    {
      if closed || asked == [] {
        made, news := [], map[];
        return;
      }
      var first := asked[0];
      if first in transports {
        made, news := OpenAll(asked[1..]);
        return;
      }
      hide RawTcpClient.Wired, Hellos, Accepts;
      var transport := Enter(first);
      ghost var held := transports.Keys;
      assert held == old(transports).Keys + {first};
      made, news := OpenAll(asked[1..]);
      MadeAre(held, asked[1..]);
      HellosFront(sharedMux.alive, old(sharedMux.accepted), first, made);
      NewFirst(old(transports), first, transport, news);
      NewFirst(old(sharedMux.transports), first, transport, news);
      made, news := [first] + made, news[first := transport];
    }

    /* ------------------------------ the socket becomes ready ------------------------------ */

    /** What listeners can open: nothing, once the client is closed. */
    function Live(opens: map<string, seq<string>>): map<string, seq<string>>
      reads this`closed
    {
      if closed then map[] else opens
    }

    /** Every label that a listener asks for is opened for it, in its order, unless the client is closed. */
    lemma ListenersOpen(opens: map<string, seq<string>>, name: string)
      ensures Asks(Live(opens), name) == if closed || name !in opens then [] else opens[name]
    {
    }

    /** Transports up to step `i` of the walk have heard of the connection once more than before (`heard`), the others not yet. */
    ghost predicate Rung(known: map<string, RawTcpClientTransport>, walk: seq<string>, i: nat, heard: map<string, nat>)
      reads known.Values`connects
    {
      forall k | 0 <= k < |walk| ::
        walk[k] in known && known[walk[k]].connects == (if walk[k] in heard then heard[walk[k]] else 0) + (if k < i then 1 else 0)
    }

    /** The connection's labels are those of the walk; those behind `order` were opened since it stood `at`. */
    ghost predicate Ringing(walk: seq<string>, order: seq<string>, at: Standing)
      reads this`closed, this`transports, this`orphans, this`promises, orphans.Values
      reads sharedMux`alive, sharedMux`accepted, sharedMux`transports, sharedMux.transports.Values
    {
      && order <= walk && Distinct(walk) && Elements(walk) == sharedMux.transports.Keys
      && Known() && Stand() == Opened(at, walk[|order|..])
    }

    /** The transport at step `i` fires its connect event. */
    method Ring(walk: seq<string>, i: nat, ghost heard: map<string, nat>)
      requires Wired() && Distinct(walk) && i < |walk| && Rung(sharedMux.transports, walk, i, heard)
      modifies {sharedMux.transports[walk[i]]}`connects
      ensures Wired() && Rung(sharedMux.transports, walk, i + 1, heard)
      ensures Views(sharedMux.transports) == old(Views(sharedMux.transports)) && Views(orphans) == old(Views(orphans))
    {
      var t := sharedMux.transports[walk[i]];
      t.connects := t.connects + 1;
    }

    /** New transports have heard nothing yet, and come later in the walk. */
    lemma RungMore(walk: seq<string>, i: nat, heard: map<string, nat>, made: seq<string>,
                   known: map<string, RawTcpClientTransport>, news: map<string, RawTcpClientTransport>)
      requires i <= |walk| && Rung(known, walk, i, heard) && heard.Keys <= known.Keys && news.Keys !! known.Keys
      requires news.Keys == Elements(made) && forall l | l in news :: news[l].connects == 0
      ensures Rung(known + news, walk + made, i, heard)
    {
      var grown := walk + made;
      forall k | |walk| <= k < |grown| ensures grown[k] in news {
        assert made[k - |walk|] in Elements(made);
      }
    }

    /** Both tables have the new transports. */
    lemma StillKnown(held: map<string, RawTcpClientTransport>, known: map<string, RawTcpClientTransport>,
                     news: map<string, RawTcpClientTransport>, made: seq<string>)
      requires known.Keys !! orphans.Keys && news.Keys == Elements(made) && Elements(made) !! held.Keys
      requires forall l | l in orphans :: orphans[l].name == l && orphans[l].mux == sharedMux
      requires if closed then held == map[] && made == [] else held == known + orphans
      requires transports == held + news && sharedMux.transports == known + news
      ensures Known() && news.Keys !! known.Keys
    {
    }

    lemma WithNewViews(known: map<string, RawTcpClientTransport>, news: map<string, RawTcpClientTransport>, made: seq<string>)
      requires news.Keys == Elements(made) && forall l | l in news :: news[l].View() == NEW_TABLE
      ensures Views(known + news) == Views(known) + Blanks(Elements(made))
      ensures (known + news).Keys == known.Keys + Elements(made)
    {
      ViewsAre(known + news, Views(known) + Blanks(Elements(made)));
    }

    /** What the listeners at step `i` add to the walk. */
    lemma RingHere(walk: seq<string>, i: nat, opens: map<string, seq<string>>, order: seq<string>, at: Standing,
                   heard: map<string, nat>)
      requires Ringing(walk, order, at) && i < |walk| && heard.Keys == Elements(order)
      ensures Known() && Distinct(walk) && Elements(walk) == sharedMux.transports.Keys
      ensures heard.Keys <= sharedMux.transports.Keys && Stand() == Opened(at, walk[|order|..])
      ensures
        var asked := Asks(Live(opens), walk[i]);
        var made := if closed then [] else Made(transports.Keys, asked);
        Grow(walk, asked, orphans.Keys) == walk + made && GrowsBy(order, walk, made)
    {
      GrownBy(order, walk, Asks(Live(opens), walk[i]), orphans.Keys);
    }

    /** The connect event of one transport, and then what its listeners open. */
    method RingAndOpen(walk: seq<string>, i: nat, asked: seq<string>, ghost heard: map<string, nat>)
      returns (ghost made: seq<string>, ghost news: map<string, RawTcpClientTransport>)
      requires Wired() && Known() && i < |walk| && walk[i] in sharedMux.transports && Distinct(walk)
      requires Rung(sharedMux.transports, walk, i, heard) && heard.Keys <= sharedMux.transports.Keys
      modifies this`transports, {sharedMux.transports[walk[i]]}`connects
      modifies sharedMux`transports, sharedMux`pendingEnvelopes, sharedMux`written, sharedMux`accepted
      ensures Wired() && Known() && made == if closed then [] else Made(old(transports).Keys, asked)
      ensures sharedMux.transports == old(sharedMux.transports) + news && news.Keys == Elements(made)
      ensures forall l | l in news :: fresh(news[l]) && news[l].View() == NEW_TABLE
      ensures Views(old(sharedMux.transports)) == old(Views(sharedMux.transports)) && Views(orphans) == old(Views(orphans))
      ensures sharedMux.accepted == old(sharedMux.accepted) + Hellos(sharedMux.alive, made)
      ensures news.Keys !! old(sharedMux.transports).Keys && Rung(sharedMux.transports, walk + made, i + 1, heard)
    {
      hide Hellos, Made, Elements, Distinct, RawTcpClient.Wired, RawTcpClient.Views, RawTcpClient.Known, RawTcpClient.Rung;
      ghost var held, known := transports, sharedMux.transports;
      MadeAre(held.Keys, asked);
      KnownParts();
      Ring(walk, i, heard);
      made, news := OpenAll(asked);
      StillKnown(held, known, news, made);
      RungMore(walk, i + 1, heard, made, known, news);
    }

    lemma RingsOn(walk: seq<string>, order: seq<string>, at: Standing, mid: Standing, made: seq<string>,
                  known: map<string, RawTcpClientTransport>, news: map<string, RawTcpClientTransport>)
      requires GrowsBy(order, walk, made) && Elements(walk) == known.Keys && mid == Opened(at, walk[|order|..])
      requires Known() && sharedMux.transports == known + news && Views(known) == mid.tables && Views(orphans) == mid.orphans
      requires promises == mid.promises && sharedMux.alive == mid.alive
      requires sharedMux.accepted == mid.accepted + Hellos(mid.alive, made)
      requires news.Keys == Elements(made) && forall l | l in news :: news[l].View() == NEW_TABLE
      ensures Ringing(walk + made, order, at)
    {
      hide Elements, Distinct, RawTcpClient.Known, RawTcpClient.Views;
      WithNewViews(known, news, made);
      OpenedMore(at, walk[|order|..], made);
    }

    /** One step of the loop: the connect event, and what its listeners open. */
    method RingNext(walk: seq<string>, i: nat, opens: map<string, seq<string>>, ghost order: seq<string>, ghost at: Standing,
                    ghost heard: map<string, nat>)
      returns (grown: seq<string>)
      requires Wired() && i < |walk| && walk[i] in sharedMux.transports
      requires Ringing(walk, order, at) && Rung(sharedMux.transports, walk, i, heard) && heard.Keys == Elements(order)
      modifies this`transports, {sharedMux.transports[walk[i]]}`connects
      modifies sharedMux`transports, sharedMux`pendingEnvelopes, sharedMux`written, sharedMux`accepted
      ensures Wired() && grown == Grow(walk, Asks(Live(opens), walk[i]), orphans.Keys)
      ensures Ringing(grown, order, at) && Rung(sharedMux.transports, grown, i + 1, heard)
      ensures Within(old(sharedMux.transports), sharedMux.transports)
      ensures forall l | l in sharedMux.transports && l !in old(sharedMux.transports) :: fresh(sharedMux.transports[l])
    {
      hide GrowsBy, Opened, Hellos, Made, Grow, Asks, Elements, Distinct, RawTcpClient.Wired, RawTcpClient.Views;
      hide RawTcpClient.Known, RawTcpClient.Rung, RawTcpClient.Ringing;
      RingHere(walk, i, opens, order, at, heard);
      ghost var known, mid := sharedMux.transports, Stand();
      var asked := Asks(Live(opens), walk[i]);
      ghost var made, news := RingAndOpen(walk, i, asked, heard);
      RingsOn(walk, order, at, mid, made, known, news);
      grown := Grow(walk, asked, orphans.Keys);
    }

    lemma RingsHere(walk: seq<string>, i: nat, order: seq<string>, at: Standing)
      requires Ringing(walk, order, at) && i < |walk|
      ensures walk[i] in sharedMux.transports
    {
      assert walk[i] in Elements(walk);
    }

    /** The loop over the connection's table, which its listeners may add to. */
    method RingAll(order: seq<string>, opens: map<string, seq<string>>, ghost heard: map<string, nat>)
      returns (walk: seq<string>)
      requires Wired() && Ringing(order, order, Stand()) && Rung(sharedMux.transports, order, 0, heard)
      requires heard.Keys == Elements(order)
      modifies this`transports, sharedMux.Registered()`connects
      modifies sharedMux`transports, sharedMux`pendingEnvelopes, sharedMux`written, sharedMux`accepted
      ensures Wired() && walk == Walk(order, 0, Live(opens), orphans.Keys)
      ensures Ringing(walk, order, old(Stand())) && Rung(sharedMux.transports, walk, |walk|, heard)
      ensures Within(old(sharedMux.transports), sharedMux.transports)
    {
      hide Walk, Grow, AllAsked, Opened, Asks, Elements, Distinct, RawTcpClient.Wired, RawTcpClient.Live;
      hide RawTcpClient.Rung, RawTcpClient.Ringing;
      walk := order;
      var i := 0;
      while i < |walk|
        invariant i <= |walk| && Walk(walk, i, Live(opens), orphans.Keys) == Walk(order, 0, Live(opens), orphans.Keys)
        invariant Wired() && Ringing(walk, order, old(Stand())) && Rung(sharedMux.transports, walk, i, heard)
        invariant Within(old(sharedMux.transports), sharedMux.transports)
        invariant forall l | l in sharedMux.transports ::
          sharedMux.transports[l] in old(sharedMux.Registered()) || fresh(sharedMux.transports[l])
        decreases |AllAsked(Live(opens)) - Elements(walk)|, |walk| - i
      {
        GrowEnds(walk, walk[i], Live(opens), orphans.Keys);
        WalkNext(walk, i, Live(opens), orphans.Keys);
        RingsHere(walk, i, order, old(Stand()));
        walk := RingNext(walk, i, opens, order, old(Stand()), heard);
        i := i + 1;
      }
      WalkEnds(walk, Live(opens), orphans.Keys);
    }

    /** How often each of the connection's transports has heard of the connection. */
    ghost function Heard(): map<string, nat>
      reads sharedMux`transports, sharedMux.transports.Values`connects
    {
      map l | l in sharedMux.transports :: sharedMux.transports[l].connects
    }

    lemma RingsBegin(order: seq<string>)
      requires Known() && Distinct(order) && Elements(order) == sharedMux.transports.Keys
      ensures Ringing(order, order, Stand()) && Rung(sharedMux.transports, order, 0, Heard())
      ensures Heard().Keys == Elements(order) == Stand().tables.Keys
    {
      assert order[|order|..] == [] && Elements([]) == {} && Hellos(sharedMux.alive, []) == [];
      assert Opened(Stand(), []) == Stand();
      hide Hellos, Distinct, RawTcpClient.Known, RawTcpClient.Views;
      assert forall k | 0 <= k < |order| :: order[k] in Elements(order);
    }

    /** The run the loop comes to: every label that joined was opened, in order. */
    lemma RingsEnd(run: seq<Event>, walk: seq<string>, order: seq<string>, at: Standing, heard: map<string, nat>)
      requires Ringing(walk, order, at) && Matches(run, at) && at.tables.Keys == Elements(order)
      requires Rung(sharedMux.transports, walk, |walk|, heard)
      ensures Known() && Matches(run + Opens(walk[|order|..]), Stand()) && Stand() == Opened(at, walk[|order|..])
      ensures Elements(walk) == sharedMux.transports.Keys
      ensures forall l | l in sharedMux.transports ::
        sharedMux.transports[l].connects == (if l in heard then heard[l] else 0) + 1
    {
      AddedAreNew(order, walk);
      assert Views(orphans) == at.orphans && Views(orphans).Keys == orphans.Keys;
      assert forall l | l in walk[|order|..] :: !HeldAt(at, l);
      hide Matches, Opens, Opened, Distinct;
      MatchesOpens(run, at, walk[|order|..]);
      assert forall l | l in sharedMux.transports :: l in Elements(walk);
    }

    /**
     The socket becomes ready, once: what was queued goes out, and then every transport hears of the
     connection exactly once, those that connect listeners open on the way included.
     */
    method Ready(ghost run: seq<Event>, order: seq<string>, opens: map<string, seq<string>>) returns (ghost walk: seq<string>)
      requires Valid(run) && Distinct(order) && Elements(order) == sharedMux.transports.Keys
      modifies this`transports, sharedMux`socketReady, sharedMux.Registered()`connects
      modifies sharedMux`transports, sharedMux`pendingEnvelopes, sharedMux`written, sharedMux`accepted
      ensures sharedMux.socketReady
      ensures old(sharedMux.socketReady) ==>
        Valid(run) && Stand() == old(Stand()) && transports == old(transports) && Heard() == old(Heard())
      ensures !old(sharedMux.socketReady) ==>
        && walk == Walk(order, 0, Live(opens), orphans.Keys)
        && Valid(run + Opens(walk[|order|..])) && Stand() == Opened(old(Stand()), walk[|order|..])
        && Elements(walk) == sharedMux.transports.Keys && Within(old(sharedMux.transports), sharedMux.transports)
        && forall l | l in sharedMux.transports ::
             sharedMux.transports[l].connects == (if l in old(sharedMux.transports) then old(sharedMux.transports[l].connects) else 0) + 1
    {
      hide Matches, Walk, Opens, Opened, Elements, Distinct, RawTcpClient.Known, RawTcpClient.Views, RawTcpClient.Live;
      hide RawTcpClient.Rung, RawTcpClient.Ringing;
      walk := order;
      if sharedMux.socketReady {
        return;
      }
      ghost var at, heard := Stand(), Heard();
      RingsBegin(order);
      Flush();
      walk := RingAll(order, opens, heard);
      RingsEnd(run, walk, order, at, heard);
    }

    /** What waited for the socket goes out. */
    method Flush()
      requires Wired() && !sharedMux.socketReady
      modifies sharedMux`socketReady, sharedMux`pendingEnvelopes, sharedMux`written
      ensures Wired() && sharedMux.socketReady
    {
      sharedMux.socketReady := true;
      sharedMux.Flush();
    }

    /* ------------------------------ closing a label ------------------------------ */

    /** For which labels a disconnect listener gets new transports once `gone` has left the client's table. */
    ghost function Makes(gone: string, asked: seq<string>): seq<string>
      reads this`closed, this`transports
    {
      if closed then [] else Made(transports.Keys - {gone}, asked)
    }

    /** A new transport is made for labels that nobody has but `gone`, and for that if it is asked for. */
    lemma MadeFor(gone: string, asked: seq<string>)
      requires Known() && gone in sharedMux.transports
      ensures
        var made := Makes(gone, asked);
        && Distinct(made) && (forall l | l in made :: l !in sharedMux.transports.Keys - {gone} && l !in orphans)
        && Elements(made) !! transports.Keys - {gone} && (gone in made <==> !closed && gone in asked)
        && sharedMux.transports.Keys !! orphans.Keys && (closed ==> made == [] && transports == map[])
        && (!closed ==> transports == sharedMux.transports + orphans)
        && forall l | l in orphans :: orphans[l].name == l && orphans[l].mux == sharedMux
    {
      MadeAre(transports.Keys - {gone}, asked);
      assert forall l :: l in Makes(gone, asked) <==> l in Elements(Makes(gone, asked));
      assert gone in asked <==> gone in Elements(asked);
    }

    /** A transport ends: the client forgets it, and then its disconnect listeners open labels. */
    method Shut(name: string, asked: seq<string>, ghost others: map<RawTcpClientTransport, Table>)
      returns (ghost made: seq<string>, ghost news: map<string, RawTcpClientTransport>)
      requires Wired() && name in sharedMux.transports
      requires if closed then transports == map[] else name in transports && transports[name] == sharedMux.transports[name]
      requires Unmoved(others) && sharedMux.transports[name] !in others
      modifies this`transports, sharedMux.transports[name]
      modifies sharedMux`transports, sharedMux`pendingEnvelopes, sharedMux`written, sharedMux`accepted
      ensures Wired() && made == old(Makes(name, asked)) && news.Keys == Elements(made)
      ensures WasShut(old(sharedMux.transports[name].View()), old(sharedMux.transports)[name].View())
      ensures Unmoved(others)
      ensures forall l | l in news ::
        fresh(news[l]) && news[l].View() == NEW_TABLE && news[l].name == l && news[l].mux == sharedMux
      ensures transports == old(transports) - {name} + news && sharedMux.transports == old(sharedMux.transports) + news
      ensures sharedMux.accepted == old(sharedMux.accepted) + Hellos(sharedMux.alive, made)
    {
      hide RawTcpClient.Wired, Hellos, Made, WasShut;
      var transport := sharedMux.transports[name];
      transport.OnRemoteClose();
      if name in transports && transports[name] == transport {
        transports := transports - {name};
      }
      assert transports == old(transports) - {name} && transports.Keys == old(transports).Keys - {name};
      made, news := OpenAll(asked);
    }

    /**
     The transport ends, listeners included, and only then does the connection delete its label; a
     transport made for that label meanwhile is forgotten with it.
     */
    method Remove(name: string, asked: seq<string>, ghost others: map<RawTcpClientTransport, Table>)
      returns (ghost made: seq<string>, ghost news: map<string, RawTcpClientTransport>)
      requires Wired() && name in sharedMux.transports
      requires if closed then transports == map[] else name in transports && transports[name] == sharedMux.transports[name]
      requires Unmoved(others) && sharedMux.transports[name] !in others
      modifies this`transports, this`orphans, sharedMux.transports[name]
      modifies sharedMux`transports, sharedMux`pendingEnvelopes, sharedMux`written, sharedMux`accepted
      ensures Wired() && made == old(Makes(name, asked)) && news.Keys == Elements(made)
      ensures WasShut(old(sharedMux.transports[name].View()), old(sharedMux.transports)[name].View())
      ensures Unmoved(others)
      ensures forall l | l in news :: news[l].View() == NEW_TABLE && news[l].name == l && news[l].mux == sharedMux
      ensures transports == old(transports) - {name} + news
      ensures sharedMux.transports == old(sharedMux.transports) + news - {name}
      ensures orphans == if name in news then old(orphans)[name := news[name]] else old(orphans)
      ensures sharedMux.accepted == old(sharedMux.accepted) + Hellos(sharedMux.alive, made)
    {
      hide Hellos, Made, Elements, WasShut, Unmoved, RawTcpClient.Wired, RawTcpClient.Makes;
      var transport := sharedMux.transports[name];
      made, news := Shut(name, asked, others);
      Detach(name, transport);
    }

    /** The label is deleted with whatever stands there by now, which is not the transport that has ended if it is new. */
    method Detach(name: string, transport: RawTcpClientTransport)
      requires Wired() && name in sharedMux.transports
      modifies this`orphans, sharedMux`transports
      ensures Wired() && sharedMux.transports == old(sharedMux.transports) - {name}
      ensures orphans == if old(sharedMux.transports)[name] != transport then old(orphans)[name := old(sharedMux.transports)[name]]
                         else old(orphans)
    {
      if sharedMux.transports[name] != transport {
        orphans := orphans[name := sharedMux.transports[name]];
      }
      sharedMux.Delete(name);
    }

    /** Everybody but the transport of this label, with their RPC tables. */
    lemma Bystanders(name: string) returns (others: map<RawTcpClientTransport, Table>)
      requires Wired() && Known() && name in sharedMux.transports
      ensures Unmoved(others) && sharedMux.transports[name] !in others
      ensures forall l | l in sharedMux.transports && l != name ::
        sharedMux.transports[l] in others && others[sharedMux.transports[l]] == Views(sharedMux.transports)[l]
      ensures forall l | l in orphans :: orphans[l] in others && others[orphans[l]] == Views(orphans)[l]
      ensures Views(sharedMux.transports).Keys == sharedMux.transports.Keys && Views(orphans).Keys == orphans.Keys
    {
      var known := sharedMux.transports - {name};
      assert sharedMux.transports[name].name == name;
      others := map t | t in known.Values + orphans.Values :: t.View();
      assert forall l | l in sharedMux.transports && l != name :: l in known && known[l] in known.Values;
      assert forall l | l in orphans :: orphans[l] in orphans.Values;
    }

    /** The RPC tables after a label has left. */
    lemma PartedViews(known: map<string, RawTcpClientTransport>, forgotten: map<string, RawTcpClientTransport>,
                      news: map<string, RawTcpClientTransport>, made: seq<string>, name: string,
                      tables: map<string, Table>, lost: map<string, Table>)
      requires news.Keys == Elements(made) && forall l | l in news :: news[l].View() == NEW_TABLE
      requires known.Keys == tables.Keys && forgotten.Keys == lost.Keys && known.Keys !! forgotten.Keys
      requires forall l | l in known && l != name :: known[l].View() == tables[l]
      requires forall l | l in forgotten :: forgotten[l].View() == lost[l]
      ensures Views(known + news - {name}) == LeftTables(tables, name, made)
      ensures Views(if name in news then forgotten[name := news[name]] else forgotten) == LeftOrphans(lost, name, made)
    {
      ViewsAre(known + news - {name}, LeftTables(tables, name, made));
      assert name in made <==> name in Elements(made);
      ViewsAre(if name in news then forgotten[name := news[name]] else forgotten, LeftOrphans(lost, name, made));
    }

    lemma PartedKnown(held: map<string, RawTcpClientTransport>, known: map<string, RawTcpClientTransport>,
                      forgotten: map<string, RawTcpClientTransport>, news: map<string, RawTcpClientTransport>, name: string)
      requires name in known && known.Keys !! forgotten.Keys
      requires forall l | l in forgotten :: forgotten[l].name == l && forgotten[l].mux == sharedMux
      requires forall l | l in news :: news[l].name == l && news[l].mux == sharedMux
      requires if closed then held == map[] == news else held == known + forgotten && news.Keys !! held.Keys - {name}
      requires transports == held - {name} + news && sharedMux.transports == known + news - {name}
      requires orphans == if name in news then forgotten[name := news[name]] else forgotten
      ensures Known()
    {
      if !closed {
        Parted(held, known, forgotten, name, news);
      }
    }

    /** The same, as it shows in the RPC tables. */
    method Part(name: string, asked: seq<string>) returns (ghost made: seq<string>)
      requires Wired() && Known() && name in sharedMux.transports
      modifies this`transports, this`orphans, sharedMux.transports[name]
      modifies sharedMux`transports, sharedMux`pendingEnvelopes, sharedMux`written, sharedMux`accepted
      ensures Wired() && Known() && made == old(Makes(name, asked))
      ensures WasShut(old(sharedMux.transports[name].View()), old(sharedMux.transports)[name].View())
      ensures Views(sharedMux.transports) == LeftTables(old(Views(sharedMux.transports)), name, made)
      ensures Views(orphans) == LeftOrphans(old(Views(orphans)), name, made)
      ensures sharedMux.accepted == old(sharedMux.accepted) + Hellos(sharedMux.alive, made)
    {
      ghost var held, known, forgotten := transports, sharedMux.transports, orphans;
      ghost var tables, lost := Views(known), Views(forgotten);
      ghost var others := Bystanders(name);
      MadeFor(name, asked);
      hide Hellos, WasShut, LeftTables, LeftOrphans, RawTcpClient.Wired, RawTcpClient.Known, RawTcpClient.Makes;
      hide RawTcpClient.Views, Elements;
      ghost var news;
      made, news := Remove(name, asked, others);
      PartedViews(known, forgotten, news, made, name, tables, lost);
      PartedKnown(held, known, forgotten, news, name);
    }

    /** `close_namespace`: our own close says bye first. */
    method CloseNamespace(name: string, announce: bool, asked: seq<string>) returns (ghost made: seq<string>)
      requires Wired() && Known() && name in sharedMux.transports
      modifies this`transports, this`orphans, sharedMux.transports[name]
      modifies sharedMux`transports, sharedMux`pendingEnvelopes, sharedMux`written, sharedMux`accepted
      ensures Wired() && Known() && made == old(Makes(name, asked))
      ensures WasShut(old(sharedMux.transports[name].View()), old(sharedMux.transports)[name].View())
      ensures Views(sharedMux.transports) == LeftTables(old(Views(sharedMux.transports)), name, made)
      ensures Views(orphans) == LeftOrphans(old(Views(orphans)), name, made)
      ensures sharedMux.accepted == old(sharedMux.accepted) + Farewell(sharedMux.alive, name, announce, made)
    {
      hide Hellos, Made, WasShut, LeftTables, LeftOrphans, ClientMux.Queued, ClientMux.Labelled;
      if announce {
        sharedMux.SendEnvelope(Bye(Some(name)));
      }
      made := Part(name, asked);
    }

    /** Closing a label that the connection knows. */
    method CloseKnown(ghost run: seq<Event>, name: string, announce: bool, asked: seq<string>)
      requires Valid(run) && name in sharedMux.transports
      modifies this`transports, this`orphans, sharedMux.transports[name]
      modifies sharedMux`transports, sharedMux`pendingEnvelopes, sharedMux`written, sharedMux`accepted
      ensures Valid(run + Closing(name, announce, old(Makes(name, asked))))
      ensures WasShut(old(sharedMux.transports[name].View()), old(sharedMux.transports)[name].View())
      ensures Stand() == Left(old(Stand()), name, announce, old(Makes(name, asked)))
      ensures orphans.Keys == old(orphans).Keys + (if !closed && name in asked then {name} else {})
      ensures name in orphans ==> orphans[name].View() == NEW_TABLE
    {
      MadeFor(name, asked);
      ghost var made, lost := Makes(name, asked), Views(orphans);
      assert lost.Keys == orphans.Keys && name !in lost;
      MatchesClosing(run, Stand(), name, announce, made);
      hide Matches, Closing, WasShut, LeftTables, LeftOrphans, Farewell, Made;
      hide RawTcpClient.Wired, RawTcpClient.Known, RawTcpClient.Views;
      made := CloseNamespace(name, announce, asked);
      ForgottenBy(name, made, lost);
    }

    lemma ForgottenBy(name: string, made: seq<string>, lost: map<string, Table>)
      requires Views(orphans) == LeftOrphans(lost, name, made) && name !in lost
      ensures orphans.Keys == lost.Keys + (if name in made then {name} else {})
      ensures name in orphans ==> orphans[name].View() == NEW_TABLE
    {
      assert orphans.Keys == Views(orphans).Keys;
      assert name in orphans ==> Views(orphans)[name] == orphans[name].View();
    }

    /** What a close comes to: nothing for a label that is not held, and a bye at most for a forgotten one. */
    ghost function Closes(name: string, announce: bool, asked: seq<string>): seq<Event>
      reads this`closed, this`transports, this`orphans, sharedMux`transports
    {
      if name in sharedMux.transports then Closing(name, announce, Makes(name, asked))
      else if name in orphans && announce then [Event.CloseLabel(name, true)]
      else []
    }

    /**
     `close` of a label's transport, or a bye from the server. A transport the connection knows is
     shut and both sides delete the label, except that a new transport which a disconnect listener
     got for that very label stays with the client, connected and forgotten. A transport already
     forgotten says its bye and stays as it is.
     */
    method CloseLabel(ghost run: seq<Event>, name: string, announce: bool, asked: seq<string>)
      requires Valid(run)
      modifies this`transports, this`orphans, if name in sharedMux.transports then {sharedMux.transports[name]} else {}
      modifies sharedMux`transports, sharedMux`pendingEnvelopes, sharedMux`written, sharedMux`accepted
      ensures Valid(run + old(Closes(name, announce, asked)))
      ensures name in old(sharedMux.transports) ==>
        && WasShut(old(sharedMux.transports[name].View()), old(sharedMux.transports)[name].View())
        && Stand() == Left(old(Stand()), name, announce, old(Makes(name, asked)))
        && orphans.Keys == old(orphans).Keys + (if !closed && name in asked then {name} else {})
        && (name in orphans ==> orphans[name].View() == NEW_TABLE && orphans[name].connected)
      ensures name !in old(sharedMux.transports) ==>
        Stand() == old(Stand()).(accepted :=
          if name in orphans && announce then Accepts(sharedMux.alive, old(sharedMux.accepted), Bye(Some(name)))
          else old(sharedMux.accepted))
    {
      assert run + [] == run;
      hide Matches, Closing, WasShut, Left, Accepts, RawTcpClient.Wired, RawTcpClient.Known, RawTcpClient.Makes;
      if name in sharedMux.transports {
        CloseKnown(run, name, announce, asked);
      } else if name in orphans && announce {
        HeldIsConnected(run, name);
        CloseForgotten(run, name);
      }
    }

    /** An envelope of a transport whose tables stay as they are. */
    method Say(env: Envelope)
      requires Wired()
      modifies sharedMux`pendingEnvelopes, sharedMux`written, sharedMux`accepted
      ensures Wired() && Stand() == old(Stand()).(accepted := Accepts(sharedMux.alive, old(sharedMux.accepted), env))
    {
      hide ClientMux.Queued, ClientMux.Labelled;
      sharedMux.SendEnvelope(env);
    }

    /** A forgotten transport passes its own guard, says bye, and finds nothing to close. */
    method CloseForgotten(ghost run: seq<Event>, name: string)
      requires Valid(run) && name in orphans
      modifies sharedMux`pendingEnvelopes, sharedMux`written, sharedMux`accepted
      ensures Valid(run + [Event.CloseLabel(name, true)])
      ensures Stand() == old(Stand()).(accepted := Accepts(sharedMux.alive, old(sharedMux.accepted), Bye(Some(name))))
    {
      assert Views(sharedMux.transports) - {name} == Views(sharedMux.transports);
      assert HeldAt(Stand(), name);
      hide Matches, RawTcpClient.Known, RawTcpClient.Views, RawTcpClient.Wired;
      MatchesClose(run, Stand(), name, true);
      Say(Bye(Some(name)));
    }

    /* ------------------------------ the end of the socket ------------------------------ */

    /** These labels' transports are connected and nothing has been asked on them. */
    ghost predicate Blank(back: set<string>)
      reads this`transports, transports.Values
    {
      forall l | l in back :: l in transports && transports[l].View() == NEW_TABLE
    }

    /** One step of the walk; labels that the table has gained will be visited last. */
    method Visit(walk: seq<string>, i: nat, reopens: map<string, seq<string>>, ghost others: map<RawTcpClientTransport, Table>)
      returns (grown: seq<string>, ghost news: map<string, RawTcpClientTransport>)
      requires Wired() && !closed && !sharedMux.alive
      requires i < |walk| && Tabled(transports, sharedMux.transports, walk, i, reopens, orphans.Keys)
      requires walk[i] in sharedMux.transports
      requires Unmoved(others) && sharedMux.transports[walk[i]] !in others
      modifies this`transports, sharedMux.transports[walk[i]]
      modifies sharedMux`transports, sharedMux`pendingEnvelopes, sharedMux`written, sharedMux`accepted
      ensures Wired() && sharedMux.accepted == old(sharedMux.accepted)
      ensures grown == Grow(walk, Asks(reopens, walk[i]), orphans.Keys)
      ensures Tabled(transports, sharedMux.transports, grown, i + 1, reopens, orphans.Keys)
      ensures WasShut(old(sharedMux.transports[walk[i]].View()), old(sharedMux.transports)[walk[i]].View())
      ensures Unmoved(others)
      ensures news.Keys == Elements(Asks(reopens, walk[i])) - (old(transports).Keys - {walk[i]})
      ensures forall l | l in news :: fresh(news[l]) && news[l].View() == NEW_TABLE
      ensures transports == old(transports) - {walk[i]} + news && sharedMux.transports == old(sharedMux.transports) + news
    {
      TabledHere(transports, sharedMux.transports, walk, i, reopens, orphans.Keys);
      var name := walk[i];
      hide Tabled, Back, Grow, WasShut, Elements, Unmoved, RawTcpClient.Wired;
      ghost var held, known := transports, sharedMux.transports;
      MadeAre(held.Keys - {name}, Asks(reopens, name));
      ghost var made;
      made, news := Shut(name, Asks(reopens, name), others);
      assert sharedMux.accepted == old(sharedMux.accepted) + Hellos(false, made);
      TabledStep(held, known, walk, i, reopens, orphans.Keys, news);
      grown := Grow(walk, Asks(reopens, name), orphans.Keys);
    }

    /** These transports are this connection's, each with its label's name. */
    ghost predicate Own(some: map<string, RawTcpClientTransport>) {
      forall l | l in some :: some[l].name == l && some[l].mux == sharedMux
    }

    /** Likewise, with these RPC tables. */
    ghost predicate Holds(tables: map<string, Table>, some: map<string, RawTcpClientTransport>)
      reads some.Values
    {
      Own(some) && tables.Keys == some.Keys && forall l | l in some :: some[l].View() == tables[l]
    }

    /**
     Where the walk stands before step `i`: how the two tables are related, which of the transports
     the connection had (`was`, with the tables `views`) are shut, that what came back is untouched,
     and that what was forgotten before, with the tables `lost`, is where and as it was.
     */
    ghost predicate Midway(walk: seq<string>, i: nat, reopens: map<string, seq<string>>,
                           was: map<string, RawTcpClientTransport>, views: map<string, Table>, lost: map<string, Table>)
      reads this`transports, this`orphans, sharedMux`transports, transports.Values, orphans.Values, was.Values
    {
      && Tabled(transports, sharedMux.transports, walk, i, reopens, orphans.Keys)
      && ShutSoFar(was, views, sharedMux.transports, Views(was), walk, i)
      && (forall l | l in was :: was[l].name == l)
      && Blank(Back(walk, i, reopens)) && Holds(lost, orphans) && Within(orphans, transports)
    }

    /** Everybody but the transport of this label, among these and those the client holds. */
    lemma Everybody(was: map<string, RawTcpClientTransport>, name: string) returns (others: map<RawTcpClientTransport, Table>)
      requires Wired() && name in sharedMux.transports && forall l | l in was :: was[l].name == l
      ensures Unmoved(others) && sharedMux.transports[name] !in others
      ensures Among(was, name, Views(was), others)
      ensures forall l | l in transports && transports[l].name != name ::
        transports[l] in others && others[transports[l]] == transports[l].View()
    {
      var known := sharedMux.transports;
      assert known[name].name == name;
      others := map t | t in was.Values + transports.Values && t != known[name] :: t.View();
      assert forall l | l in was :: was[l] in was.Values;
      assert forall l | l in transports :: transports[l] in transports.Values;
    }

    /** Everybody the walk has to leave alone at step `i`, with their RPC tables. */
    lemma Onlookers(walk: seq<string>, i: nat, reopens: map<string, seq<string>>, was: map<string, RawTcpClientTransport>,
                    views: map<string, Table>, lost: map<string, Table>)
      returns (others: map<RawTcpClientTransport, Table>)
      requires Wired() && i < |walk| && Midway(walk, i, reopens, was, views, lost) && walk[i] in sharedMux.transports
      ensures Unmoved(others) && sharedMux.transports[walk[i]] !in others
      ensures Among(was, walk[i], Views(was), others)
      ensures AmongBlank(Back(walk, i, reopens), transports, others)
      ensures Among(orphans, walk[i], lost, others)
    {
      hide Tabled, ShutSoFar, Unmoved, RawTcpClient.Views;
      BackGrows(transports, sharedMux.transports, walk, i, reopens, orphans.Keys,
                Elements(Asks(reopens, walk[i])) - (transports.Keys - {walk[i]}));
      hide Back, Elements, Asks, Grow;
      others := Everybody(was, walk[i]);
      assert forall l | l in Back(walk, i, reopens) :: transports[l].name == l;
    }

    /** The transport about to be shut, if the connection had it, is as it was. */
    lemma StillOpen(walk: seq<string>, i: nat, reopens: map<string, seq<string>>, was: map<string, RawTcpClientTransport>,
                    views: map<string, Table>, lost: map<string, Table>)
      requires i < |walk| && Midway(walk, i, reopens, was, views, lost)
      ensures walk[i] in sharedMux.transports && walk[i] !in walk[..i] && lost.Keys == orphans.Keys && Own(orphans)
      ensures walk[i] in was ==>
        walk[i] in Views(was) && was[walk[i]] == sharedMux.transports[walk[i]] && Views(was)[walk[i]] == was[walk[i]].View()
    {
      hide Tabled, Back, ShutSoFar, RawTcpClient.Blank;
      TabledHere(transports, sharedMux.transports, walk, i, reopens, orphans.Keys);
      ShutHere(was, views, sharedMux.transports, Views(was), walk, i);
    }

    /** The step as it shows in the transports the connection had. */
    lemma KeptShut(walk: seq<string>, i: nat, was: map<string, RawTcpClientTransport>, views: map<string, Table>,
                   grown: seq<string>, known: map<string, RawTcpClientTransport>, before: map<string, Table>,
                   others: map<RawTcpClientTransport, Table>)
      requires i < |walk| && walk <= grown && walk[i] !in walk[..i] && ShutSoFar(was, views, known, before, walk, i)
      requires Unmoved(others) && Among(was, walk[i], before, others)
      requires walk[i] in was ==> walk[i] in before && WasShut(before[walk[i]], was[walk[i]].View())
      requires Spared(known, sharedMux.transports, walk, i)
      ensures ShutSoFar(was, views, sharedMux.transports, Views(was), grown, i + 1)
    {
      hide WasShut;
      assert before.Keys == was.Keys;
      hide ShutSoFar;
      assert Views(was).Keys == was.Keys;
      assert forall l | l in was && l != walk[i] :: Views(was)[l] == before[l];
      ShutMore(was, views, known, before, walk, i, sharedMux.transports, Views(was), grown);
    }

    /** The step as it shows in what came back and in what was forgotten before. */
    lemma KeptBack(back: set<string>, more: set<string>, name: string, held: map<string, RawTcpClientTransport>,
                   others: map<RawTcpClientTransport, Table>, news: map<string, RawTcpClientTransport>)
      requires transports == held - {name} + news && name !in back && news.Keys !! held.Keys - {name}
      requires forall l | l in news :: news[l].View() == NEW_TABLE
      requires Unmoved(others) && AmongBlank(back, held, others) && more <= back + news.Keys
      ensures Blank(more)
    {
    }

    lemma KeptLost(lost: map<string, Table>, name: string, held: map<string, RawTcpClientTransport>,
                   others: map<RawTcpClientTransport, Table>, news: map<string, RawTcpClientTransport>)
      requires transports == held - {name} + news && news.Keys !! held.Keys - {name} && name !in orphans
      requires Unmoved(others) && Among(orphans, name, lost, others) && Within(orphans, held)
      requires lost.Keys == orphans.Keys && Own(orphans)
      ensures Holds(lost, orphans) && Within(orphans, transports)
    {
    }

    method CloseNext(walk: seq<string>, i: nat, reopens: map<string, seq<string>>,
                     ghost was: map<string, RawTcpClientTransport>, ghost views: map<string, Table>,
                     ghost lost: map<string, Table>)
      returns (grown: seq<string>)
      requires Wired() && !closed && !sharedMux.alive
      requires i < |walk| && Midway(walk, i, reopens, was, views, lost) && walk[i] in sharedMux.transports
      modifies this`transports, sharedMux.transports[walk[i]]
      modifies sharedMux`transports, sharedMux`pendingEnvelopes, sharedMux`written, sharedMux`accepted
      ensures Wired() && sharedMux.accepted == old(sharedMux.accepted)
      ensures grown == Grow(walk, Asks(reopens, walk[i]), orphans.Keys) && Midway(grown, i + 1, reopens, was, views, lost)
      ensures forall l | l in sharedMux.transports ::
        (l in old(sharedMux.transports) && sharedMux.transports[l] == old(sharedMux.transports)[l]) || fresh(sharedMux.transports[l])
    {
      StillOpen(walk, i, reopens, was, views, lost);
      ghost var others := Onlookers(walk, i, reopens, was, views, lost);
      ghost var held, known, before := transports, sharedMux.transports, Views(was);
      hide Tabled, Back, Grow, Asks, WasShut, ShutSoFar, Elements, Spared, RawTcpClient.Wired, RawTcpClient.Views;
      hide Unmoved, Among, AmongBlank, Within, RawTcpClient.Blank, RawTcpClient.Holds, RawTcpClient.Own;
      ghost var news;
      grown, news := Visit(walk, i, reopens, others);
      StepSpares(held, known, walk, i, reopens, orphans.Keys, news);
      KeptShut(walk, i, was, views, grown, known, before, others);
      KeptBack(Back(walk, i, reopens), Back(grown, i + 1, reopens), walk[i], held, others, news);
      KeptLost(lost, walk[i], held, others, news);
    }

    /** All steps of the walk, from the labels registered when it began. */
    method WalkOn(order: seq<string>, reopens: map<string, seq<string>>, ghost was: map<string, RawTcpClientTransport>,
                  ghost views: map<string, Table>, ghost lost: map<string, Table>)
      returns (walk: seq<string>)
      requires Wired() && !closed && !sharedMux.alive && Midway(order, 0, reopens, was, views, lost)
      modifies this`transports, sharedMux.Registered()
      modifies sharedMux`transports, sharedMux`pendingEnvelopes, sharedMux`written, sharedMux`accepted
      ensures Wired() && sharedMux.accepted == old(sharedMux.accepted)
      ensures walk == Walk(order, 0, reopens, orphans.Keys) && Midway(walk, |walk|, reopens, was, views, lost)
    {
      hide Walk, Grow, AllAsked, RawTcpClient.Midway, RawTcpClient.Wired;
      walk := order;
      var i := 0;
      while i < |walk|
        invariant i <= |walk| && Walk(walk, i, reopens, orphans.Keys) == Walk(order, 0, reopens, orphans.Keys)
        invariant Wired() && sharedMux.accepted == old(sharedMux.accepted)
        invariant Midway(walk, i, reopens, was, views, lost)
        invariant forall l | l in sharedMux.transports ::
          sharedMux.transports[l] in old(sharedMux.Registered()) || fresh(sharedMux.transports[l])
        decreases |AllAsked(reopens) - Elements(walk)|, |walk| - i
      {
        GrowEnds(walk, walk[i], reopens, orphans.Keys);
        WalkNext(walk, i, reopens, orphans.Keys);
        StillOpen(walk, i, reopens, was, views, lost);
        walk := CloseNext(walk, i, reopens, was, views, lost);
        i := i + 1;
      }
      WalkEnds(walk, reopens, orphans.Keys);
    }

    /**
     What the walk leaves: the client holds what was forgotten before, as it was, and the labels
     opened again behind the walk, each with a new transport; every transport the connection knew
     (`was`, with the tables `views`) is shut.
     */
    ghost predicate Swept(back: set<string>, was: map<string, RawTcpClientTransport>, views: map<string, Table>,
                          lost: map<string, Table>)
      reads this`transports, this`orphans, transports.Values, orphans.Values, was.Values
    {
      && transports.Keys == orphans.Keys + back && Blank(back) && back !! orphans.Keys
      && Own(transports) && Holds(lost, orphans) && Within(orphans, transports)
      && was.Keys == views.Keys && (forall l | l in was :: WasShut(views[l], was[l].View()))
    }

    lemma MidwayEnds(walk: seq<string>, reopens: map<string, seq<string>>, was: map<string, RawTcpClientTransport>,
                     views: map<string, Table>, lost: map<string, Table>)
      requires Wired() && Midway(walk, |walk|, reopens, was, views, lost)
      requires forall l | l in was :: l in walk
      ensures Swept(Back(walk, |walk|, reopens), was, views, lost)
    {
      hide WasShut, Back, Distinct;
      assert walk[..|walk|] == walk && walk[|walk|..] == [];
    }

    lemma MidwayBegins(order: seq<string>, reopens: map<string, seq<string>>)
      requires Wired() && Known() && !closed && Distinct(order) && Elements(order) == sharedMux.transports.Keys
      ensures Midway(order, 0, reopens, sharedMux.transports, Views(sharedMux.transports), Views(orphans))
      ensures forall l | l in sharedMux.transports :: l in order
    {
      WalkBegins(sharedMux.transports, orphans, Views(sharedMux.transports), order, reopens);
      assert forall l | l in order :: l in Elements(order);
      hide Elements, Back, Distinct, Tabled, ShutSoFar;
    }

    /** The walk of a client that is not closed. */
    method CloseAll(order: seq<string>, reopens: map<string, seq<string>>) returns (walk: seq<string>)
      requires Wired() && Known() && !closed && !sharedMux.alive
      requires Distinct(order) && Elements(order) == sharedMux.transports.Keys
      modifies this`transports, sharedMux.Registered()
      modifies sharedMux`transports, sharedMux`pendingEnvelopes, sharedMux`written, sharedMux`accepted
      ensures Wired() && sharedMux.accepted == old(sharedMux.accepted)
      ensures walk == Walk(order, 0, reopens, orphans.Keys)
      ensures Swept(Back(walk, |walk|, reopens), old(sharedMux.transports), old(Views(sharedMux.transports)), old(Views(orphans)))
    {
      ghost var was, views, lost := sharedMux.transports, Views(sharedMux.transports), Views(orphans);
      MidwayBegins(order, reopens);
      hide Walk, Back, Elements, Distinct, RawTcpClient.Midway, RawTcpClient.Swept, RawTcpClient.Views;
      hide RawTcpClient.Wired, RawTcpClient.Known;
      walk := WalkOn(order, reopens, was, views, lost);
      MidwayEnds(walk, reopens, was, views, lost);
    }

    /**
     After the socket's end: the connection knows nothing, every transport it knew (`was`, with the
     tables `views`) is shut, and connected are those forgotten before (`gone`, with the tables
     `lost`), as they were, and a new one for each label that came back.
     */
    ghost predicate Ended(back: set<string>, was: map<string, RawTcpClientTransport>, views: map<string, Table>,
                          gone: map<string, RawTcpClientTransport>, lost: map<string, Table>)
      reads this`orphans, orphans.Values, sharedMux`transports, was.Values
    {
      && sharedMux.transports == map[] && was.Keys == views.Keys && (forall l | l in was :: WasShut(views[l], was[l].View()))
      && back !! gone.Keys && orphans.Keys == gone.Keys + back && Within(gone, orphans)
      && Views(orphans) == lost + Blanks(back)
    }

    lemma SweptEnds(back: set<string>, was: map<string, RawTcpClientTransport>, views: map<string, Table>,
                    lost: map<string, Table>)
      requires Swept(back, was, views, lost)
      ensures Views(transports) == lost + Blanks(back)
    {
      hide WasShut;
      ViewsAre(transports, lost + Blanks(back));
    }

    /** The connection of a client that is not closed. */
    method CollapseOpen(order: seq<string>, reopens: map<string, seq<string>>) returns (walk: seq<string>)
      requires Wired() && Known() && !closed && sharedMux.alive
      requires Distinct(order) && Elements(order) == sharedMux.transports.Keys
      modifies this`transports, this`orphans, sharedMux.Registered(), sharedMux`alive
      modifies sharedMux`transports, sharedMux`pendingEnvelopes, sharedMux`written, sharedMux`accepted
      ensures Wired() && Known() && !sharedMux.alive && sharedMux.accepted == old(sharedMux.accepted)
      ensures walk == Walk(order, 0, reopens, old(orphans).Keys)
      ensures Ended(Back(walk, |walk|, reopens), old(sharedMux.transports), old(Views(sharedMux.transports)),
                    old(orphans), old(Views(orphans)))
    {
      hide Walk, Back, Elements, Distinct, RawTcpClient.Views, RawTcpClient.Swept, RawTcpClient.Ended;
      ghost var was, views, lost := sharedMux.transports, Views(sharedMux.transports), Views(orphans);
      sharedMux.alive := false;
      walk := CloseAll(order, reopens);
      LetGo(Back(walk, |walk|, reopens), was, views, lost);
    }

    /** The connection clears its table. */
    method LetGo(ghost back: set<string>, ghost was: map<string, RawTcpClientTransport>, ghost views: map<string, Table>,
                 ghost lost: map<string, Table>)
      requires Wired() && !closed && Swept(back, was, views, lost)
      modifies this`orphans, sharedMux`transports
      ensures Wired() && Known() && Ended(back, was, views, old(orphans), lost)
    {
      hide WasShut, ClientMux.Queued, RawTcpClient.Blank, RawTcpClient.Holds, RawTcpClient.Views, Blanks;
      SweptEnds(back, was, views, lost);
      sharedMux.transports := map[];
      orphans := transports;
    }

    /** The connection of a closed client; nothing can be opened on the way. */
    method CollapseClosed()
      requires Wired() && Known() && closed && sharedMux.alive
      modifies sharedMux.Registered(), sharedMux`alive, sharedMux`transports
      ensures Wired() && Known() && !sharedMux.alive && sharedMux.accepted == old(sharedMux.accepted)
      ensures Ended({}, old(sharedMux.transports), old(Views(sharedMux.transports)), orphans, old(Views(orphans)))
    {
      hide WasShut, ClientMux.Queued;
      ghost var lost := Views(orphans);
      sharedMux.OnClose();
      ViewsAre(orphans, lost + Blanks({}));
    }

    method Collapse(order: seq<string>, reopens: map<string, seq<string>>) returns (ghost walk: seq<string>)
      requires Wired() && Known() && sharedMux.alive
      requires Distinct(order) && Elements(order) == sharedMux.transports.Keys
      modifies this`transports, this`orphans, sharedMux.Registered(), sharedMux`alive
      modifies sharedMux`transports, sharedMux`pendingEnvelopes, sharedMux`written, sharedMux`accepted
      ensures Wired() && Known() && !sharedMux.alive && sharedMux.accepted == old(sharedMux.accepted)
      ensures walk == Walk(order, 0, Live(reopens), old(orphans).Keys)
      ensures Ended(Back(walk, |walk|, Live(reopens)), old(sharedMux.transports), old(Views(sharedMux.transports)),
                    old(orphans), old(Views(orphans)))
    {
      hide Walk, Back, Elements, Distinct, RawTcpClient.Ended, RawTcpClient.Views, RawTcpClient.Wired, RawTcpClient.Known;
      if closed {
        NothingReopens(order, orphans.Keys);
        walk := order;
        CollapseClosed();
      } else {
        walk := CollapseOpen(order, reopens);
      }
    }

    /**
     The socket closed. The connection walks over its transports, in the order in which they were
     registered, and closes each; disconnect listeners may open labels on the way. Connected are
     afterwards, beside what was forgotten before, exactly the labels opened again behind the walk,
     each with a new transport that its connection has forgotten.
     */
    method SocketClosed(ghost run: seq<Event>, order: seq<string>, reopens: map<string, seq<string>>)
      returns (ghost walk: seq<string>)
      requires Valid(run) && Distinct(order) && Elements(order) == sharedMux.transports.Keys
      modifies this`transports, this`orphans, sharedMux.Registered(), sharedMux`alive
      modifies sharedMux`transports, sharedMux`pendingEnvelopes, sharedMux`written, sharedMux`accepted
      ensures !sharedMux.alive && sharedMux.accepted == old(sharedMux.accepted)
      ensures !old(sharedMux.alive) ==> Valid(run) && Stand() == old(Stand()) && transports == old(transports)
      ensures old(sharedMux.alive) ==>
        && walk == Walk(order, 0, Live(reopens), old(orphans).Keys)
        && Valid(run + [SocketCloses(Back(walk, |walk|, Live(reopens)))])
        && Ended(Back(walk, |walk|, Live(reopens)), old(sharedMux.transports), old(Views(sharedMux.transports)),
                 old(orphans), old(Views(orphans)))
        && (old(orphans) == map[] ==> (orphans == map[] <==> NeverBack(walk, Live(reopens))))
    {
      hide Matches, Walk, Back, NeverBack, Elements, Distinct, WasShut, RawTcpClient.Live;
      hide RawTcpClient.Wired, RawTcpClient.Known, RawTcpClient.Ended, RawTcpClient.Views;
      walk := order;
      if !sharedMux.alive {
        return;
      }
      ghost var at, was, views, gone := Stand(), sharedMux.transports, Views(sharedMux.transports), orphans;
      ViewsKeys();
      walk := Collapse(order, reopens);
      EndedMeans(Back(walk, |walk|, Live(reopens)), was, views, gone, at.orphans);
      MatchesSocket(run, at, Back(walk, |walk|, Live(reopens)));
      NeverBackExactly(walk, Live(reopens));
    }

    lemma ViewsKeys()
      ensures Views(orphans).Keys == orphans.Keys
    {
    }

    lemma EndedMeans(back: set<string>, was: map<string, RawTcpClientTransport>, views: map<string, Table>,
                     gone: map<string, RawTcpClientTransport>, lost: map<string, Table>)
      requires Ended(back, was, views, gone, lost)
      ensures Views(sharedMux.transports) == map[] && Views(orphans) == lost + Blanks(back) && back !! gone.Keys
      ensures orphans.Keys == gone.Keys + back && (gone == map[] ==> (orphans == map[] <==> back == {}))
    {
      hide WasShut;
      if gone == map[] && orphans == map[] {
        assert orphans.Keys == {};
      }
    }

    /** `close`: nothing is opened any more, the client lets go of its labels and the socket is told to end. */
    method Close(ghost run: seq<Event>)
      requires Valid(run)
      modifies this`closed, this`transports, sharedMux`closing
      ensures Valid(run) && closed && transports == map[] && Stand() == old(Stand())
      ensures sharedMux.closing == (old(sharedMux.closing) || (!old(closed) && sharedMux.alive))
    {
      hide Matches, RawTcpClient.Wired, RawTcpClient.Views;
      if closed {
        return;
      }
      closed := true;
      sharedMux.Close();
      transports := map[];
    }

    /* ------------------------------ traffic ------------------------------ */

    /** The connected transport of a label, whether the connection knows it or has forgotten it. */
    function At(name: string): RawTcpClientTransport
      requires name in sharedMux.transports || name in orphans
      reads this`orphans, sharedMux`transports
    {
      if name in sharedMux.transports then sharedMux.transports[name] else orphans[name]
    }

    ghost function Held(name: string): set<RawTcpClientTransport>
      reads this`orphans, sharedMux`transports
    {
      if name in sharedMux.transports || name in orphans then {At(name)} else {}
    }

    /** The application sends on the connected transport of a label; without one nothing happens. */
    method Send(ghost run: seq<Event>, name: string, ch: string, payload: Json)
      requires Valid(run)
      modifies sharedMux`pendingEnvelopes, sharedMux`written, sharedMux`accepted
      ensures Valid(run + if Held(name) != {} then [SendMsg(name)] else [])
      ensures Stand() == old(Stand()).(accepted :=
        if Held(name) != {} then Accepts(sharedMux.alive, old(sharedMux.accepted), Msg(Some(name), ch, payload, None))
        else old(sharedMux.accepted))
    {
      assert run + [] == run;
      if name in sharedMux.transports || name in orphans {
        SendHeld(run, name, ch, payload);
      }
    }

    method SendHeld(ghost run: seq<Event>, name: string, ch: string, payload: Json)
      requires Valid(run) && (name in sharedMux.transports || name in orphans)
      modifies sharedMux`pendingEnvelopes, sharedMux`written, sharedMux`accepted
      ensures Valid(run + [SendMsg(name)])
      ensures Stand() == old(Stand()).(accepted :=
        Accepts(sharedMux.alive, old(sharedMux.accepted), Msg(Some(name), ch, payload, None)))
    {
      HeldIsConnected(run, name);
      assert HeldAt(Stand(), name);
      hide Matches, RawTcpClient.Known, RawTcpClient.Views, RawTcpClient.Wired;
      MatchesSend(run, Stand(), name, ch, payload);
      Utter(name, ch, payload);
    }

    method Utter(name: string, ch: string, payload: Json)
      requires Wired() && Known() && (name in sharedMux.transports || name in orphans) && At(name).connected
      modifies sharedMux`pendingEnvelopes, sharedMux`written, sharedMux`accepted
      ensures Wired()
      ensures Stand() == old(Stand()).(accepted :=
        Accepts(sharedMux.alive, old(sharedMux.accepted), Msg(Some(name), ch, payload, None)))
    {
      hide ClientMux.Queued;
      At(name).Send(ch, payload);
    }

    /** A call on the connected transport of a label; any other transport refuses it. */
    method Request(ghost run: seq<Event>, name: string, ch: string, payload: Json) returns (promise: Option<Promise>)
      requires Valid(run)
      modifies this`promises, Held(name), sharedMux`pendingEnvelopes, sharedMux`written, sharedMux`accepted
      ensures promise.Some? <==> Held(name) != {}
      ensures promise.None? ==> Valid(run) && Stand() == old(Stand())
      ensures promise.Some? ==>
        && Valid(run + [SendRequest(name)]) && promise.value == old(promises)
        && At(name).nextAck == old(At(name).nextAck) + 1
        && At(name).pendingRpcs == old(At(name).pendingRpcs)[old(At(name).nextAck) := promise.value]
        && Stand() == RequestedAt(old(Stand()), name, ch, payload)
    {
      hide Matches, RawTcpClient.Wired, RawTcpClient.Known, RawTcpClient.Views, RequestedAt;
      HeldMeans(name);
      if name !in sharedMux.transports && name !in orphans {
        return None;
      }
      RequestHeld(run, name, ch, payload);
      promise := Some(promises);
      promises := promises + 1;
    }

    lemma HeldMeans(name: string)
      ensures HeldAt(Stand(), name) <==> name in sharedMux.transports || name in orphans
    {
    }

    /** All of it but the next promise. */
    method RequestHeld(ghost run: seq<Event>, name: string, ch: string, payload: Json)
      requires Valid(run) && HeldAt(Stand(), name)
      modifies Held(name), sharedMux`pendingEnvelopes, sharedMux`written, sharedMux`accepted
      ensures Wired() && Known() && Matches(run + [SendRequest(name)], Stand().(promises := promises + 1))
      ensures Stand().(promises := promises + 1) == RequestedAt(old(Stand()), name, ch, payload)
      ensures At(name).nextAck == old(At(name).nextAck) + 1
      ensures At(name).pendingRpcs == old(At(name).pendingRpcs)[old(At(name).nextAck) := promises]
    {
      HeldIsConnected(run, name);
      hide Matches, RawTcpClient.Wired, RawTcpClient.Known;
      MatchesRequest(run, Stand(), name, ch, payload);
      Issue(name, ch, payload, promises);
    }

    /** What changes when the connected transport of a label gets another RPC table. */
    lemma ViewsPut(name: string, at: Standing, t: Table)
      requires Known() && HeldAt(at, name) && at.tables.Keys == sharedMux.transports.Keys && at.orphans.Keys == orphans.Keys
      requires At(name).View() == t
      requires forall l | l in sharedMux.transports && l != name :: sharedMux.transports[l].View() == at.tables[l]
      requires forall l | l in orphans && l != name :: orphans[l].View() == at.orphans[l]
      ensures Views(sharedMux.transports) == Put(at, name, t).tables && Views(orphans) == Put(at, name, t).orphans
    {
      assert name in sharedMux.transports ==> name !in orphans;
      hide RawTcpClient.Known, RawTcpClient.Views;
      if name in sharedMux.transports {
        ViewsAre(sharedMux.transports, at.tables[name := t]);
        ViewsAre(orphans, at.orphans);
      } else {
        ViewsAre(sharedMux.transports, at.tables);
        ViewsAre(orphans, at.orphans[name := t]);
      }
    }

    lemma Apart(name: string)
      requires Wired() && Known() && HeldAt(Stand(), name)
      ensures At(name).name == name && At(name).mux == sharedMux
      ensures forall l | l in sharedMux.transports && l != name :: sharedMux.transports[l] != At(name)
      ensures forall l | l in orphans && l != name :: orphans[l] != At(name)
    {
    }

    method Issue(name: string, ch: string, payload: Json, promise: Promise)
      requires Wired() && Known() && HeldAt(Stand(), name) && At(name).connected
      modifies Held(name), sharedMux`pendingEnvelopes, sharedMux`written, sharedMux`accepted
      ensures Wired() && Known()
      ensures At(name).nextAck == old(At(name).nextAck) + 1
      ensures At(name).pendingRpcs == old(At(name).pendingRpcs)[old(At(name).nextAck) := promise]
      ensures
        var t := TableAt(old(Stand()), name);
        Stand() == Put(old(Stand()), name, Issued(t, promise)).(
          accepted := Accepts(sharedMux.alive, old(sharedMux.accepted), Msg(Some(name), ch, payload, Some(t.next))))
    {
      ghost var at := Stand();
      Apart(name);
      hide ClientMux.Queued, ClientMux.Labelled, Issued, RawTcpClient.Known;
      At(name).SendRpc(ch, payload, promise);
      ViewsPut(name, at, Issued(TableAt(at, name), promise));
    }

    /** An answer arrives for a request the server has seen; a forgotten transport never hears it. */
    method OnAnswer(ghost run: seq<Event>, ghost m: Request, name: string, ack: nat, response: Json, ghost again: bool)
      requires Valid(run) && m in Reach(false, run).inFlight && m.name == name && m.ack == ack
      modifies sharedMux.Registered()
      ensures Valid(run + [AnswerArrives(m, response, again)])
      ensures name in sharedMux.transports ==>
        var t := sharedMux.transports[name];
        if ack in old(t.pendingRpcs) then
          && t.settled == old(t.settled)[old(t.pendingRpcs)[ack] := Answered(response)]
          && t.pendingRpcs == old(t.pendingRpcs) - {ack}
        else t.settled == old(t.settled) && t.pendingRpcs == old(t.pendingRpcs)
      ensures Stand() == old(Stand()).(tables := Answering(old(Views(sharedMux.transports)), name, ack, response))
    {
      hide Matches, RawTcpClient.Wired, RawTcpClient.Known, RawTcpClient.Views;
      MatchesAnswer(run, Stand(), m, response, again);
      Answer(name, ack, response);
    }

    method Answer(name: string, ack: nat, response: Json)
      requires Wired() && Known()
      modifies sharedMux.Registered()
      ensures Wired() && Known()
      ensures name in sharedMux.transports ==>
        var t := sharedMux.transports[name];
        if ack in old(t.pendingRpcs) then
          && t.settled == old(t.settled)[old(t.pendingRpcs)[ack] := Answered(response)]
          && t.pendingRpcs == old(t.pendingRpcs) - {ack}
        else t.settled == old(t.settled) && t.pendingRpcs == old(t.pendingRpcs)
      ensures Stand() == old(Stand()).(tables := Answering(old(Views(sharedMux.transports)), name, ack, response))
    {
      hide ClientMux.Queued;
      ghost var tables, lost := Views(sharedMux.transports), Views(orphans);
      sharedMux.OnAck(Some(name), ack, response);
      ViewsAre(sharedMux.transports, Answering(tables, name, ack, response));
      ViewsAre(orphans, lost);
    }

    /** The deadline of a call that still waits, on any connected transport. */
    method OnDeadline(ghost run: seq<Event>, name: string, ack: nat)
      requires Valid(run) && HeldAt(Stand(), name) && ack in TableAt(Stand(), name).pending
      modifies Held(name)
      ensures Valid(run + [Deadline(name, ack)])
      ensures
        var t := At(name);
        && t.settled == old(t.settled)[old(t.pendingRpcs)[ack] := Expired]
        && t.pendingRpcs == old(t.pendingRpcs) - {ack}
      ensures Stand() == Put(old(Stand()), name, Concluded(TableAt(old(Stand()), name), ack, Expired))
    {
      hide Matches, RawTcpClient.Wired, RawTcpClient.Known;
      MatchesDeadline(run, Stand(), name, ack);
      Expire(name, ack);
    }

    method Expire(name: string, ack: nat)
      requires Wired() && Known() && HeldAt(Stand(), name) && ack in TableAt(Stand(), name).pending
      modifies Held(name)
      ensures
        var t := At(name);
        && t.settled == old(t.settled)[old(t.pendingRpcs)[ack] := Expired]
        && t.pendingRpcs == old(t.pendingRpcs) - {ack}
      ensures Wired() && Known() && Stand() == Put(old(Stand()), name, Concluded(TableAt(old(Stand()), name), ack, Expired))
    {
      ghost var at := Stand();
      hide ClientMux.Queued;
      At(name).Conclude(ack, Expired);
      ViewsPut(name, at, Concluded(TableAt(at, name), ack, Expired));
    }

    /* ------------------------------ what the runs of `Correlation` say of the client ------------------------------ */

    /**
     Every message and request the connection has accepted for a label has an earlier hello of that
     label with no bye of this side in between, exactly when nothing was sent, while the connection
     lived, on a transport it had forgotten after `close` was called on that transport.
     */
    lemma HelloFirst(run: seq<Event>)
      requires Valid(run)
      ensures Spoken(Words(sharedMux.accepted)) <==> !Astray(false, run)
    {
      HelloBeforeMessages(false, run);
    }

    /**
     If no label was opened while requests of an earlier opening were in flight, every promise that
     an answer settled, on any open transport, was settled by the answer to its own request.
     */
    lemma AnsweredByItsOwn(run: seq<Event>, name: string, promise: Promise)
      requires Valid(run) && Careful(run) && name in sharedMux.transports
      requires promise in sharedMux.transports[name].settled && sharedMux.transports[name].settled[promise].Answered?
      ensures (promise, promise) in Reach(false, run).answers
      ensures forall q | (promise, q) in Reach(false, run).answers :: q == promise
    {
      assert Views(sharedMux.transports)[name].settled == sharedMux.transports[name].settled;
      SettledByItsOwn(run, name, promise);
    }

    /** Client and connection agree on their labels exactly when the connection has forgotten none. */
    lemma Agreement(run: seq<Event>)
      requires Valid(run) && !closed
      ensures transports == sharedMux.transports <==> orphans == map[]
    {
      if transports == sharedMux.transports {
        assert forall l | l in orphans :: l in transports && l !in sharedMux.transports;
        assert orphans.Keys == {};
      }
    }
    /** A label is opened, and closed with a disconnect listener that opens it again: the connection forgets it. */
    method OpenTwice(ghost run: seq<Event>, name: string)
      requires Valid(run) && !closed && sharedMux.alive && name !in transports
      modifies this`transports, this`orphans
      modifies sharedMux`transports, sharedMux`pendingEnvelopes, sharedMux`written, sharedMux`accepted
      ensures Valid(run + [OpenLabel(name)] + Closing(name, true, [name]))
      ensures name in orphans && name !in sharedMux.transports && sharedMux.alive && orphans.Keys == old(orphans).Keys + {name}
      ensures sharedMux.accepted == old(sharedMux.accepted)
        + [Hello(name, Some(name)), Bye(Some(name)), Hello(name, Some(name))]
    {
      hide Matches, Closing, WasShut, Made, Farewell, RawTcpClient.Wired, RawTcpClient.Views;
      var transport := OpenNew(run, name);
      ClosingItself(transports.Keys - {name}, name);
      CloseLabel(run + [OpenLabel(name)], name, true, [name]);
    }

    /** `close` on a forgotten transport, and a message on it afterwards, which is accepted. */
    method CloseAndSend(ghost run: seq<Event>, name: string, ch: string, payload: Json)
      requires Valid(run) && sharedMux.alive && name in orphans
      modifies sharedMux`pendingEnvelopes, sharedMux`written, sharedMux`accepted
      ensures Valid(run + [Event.CloseLabel(name, true)] + [SendMsg(name)])
      ensures sharedMux.accepted == old(sharedMux.accepted) + [Bye(Some(name)), Msg(Some(name), ch, payload, None)]
    {
      hide Matches, RawTcpClient.Wired, RawTcpClient.Views, RawTcpClient.Known;
      CloseForgotten(run, name);
      SendHeld(run + [Event.CloseLabel(name, true)], name, ch, payload);
    }
  }

  /**
   A label opens itself again while it is closed; the transport that is left is closed and used: the
   message is accepted after the label's last bye.
   */
  method ForgottenThenUsed(fits: Envelope -> bool, name: string, ch: string, payload: Json) returns (client: RawTcpClient)
    ensures client.Valid(Stray(name)) && !Spoken(Words(client.sharedMux.accepted))
    ensures client.sharedMux.accepted
         == [Hello(name, Some(name)), Bye(Some(name)), Hello(name, Some(name)), Bye(Some(name)), Msg(Some(name), ch, payload, None)]
  {
    hide Closing, Spoken, Stray, RawTcpClient.Valid;
    client := new RawTcpClient(fits);
    client.OpenTwice([], name);
    client.CloseAndSend([] + [OpenLabel(name)] + Closing(name, true, [name]), name, ch, payload);
    StrayRun(name);
    StrayIsAstray(name);
    client.HelloFirst(Stray(name));
  }
}
