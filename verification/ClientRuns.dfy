/**
 What a client's connection has done, read as a run of `Correlation`: which events its operations
 are, and where they leave its tables and what it has accepted.
 */
module ClientRuns {
  import opened Common
  import opened Json
  import opened RawTcp
  import opened Rpc
  import opened Correlation
  import opened LabelWalk

  /* ------------------------------ what the connection has said ------------------------------ */

  function WordOf(env: Envelope): Word {
    match env
    case Hello(name, _) => SaysHello(name)
    case Msg(Some(name), _, _, _) => SaysMsg(name)
    case Bye(Some(name)) => SaysBye(name)
    case _ => SaysOther
  }

  /** Envelope by envelope. */
  function Words(accepted: seq<Envelope>): seq<Word> {
    seq(|accepted|, i requires 0 <= i < |accepted| => WordOf(accepted[i]))
  }

  /** What a connection has accepted after one more envelope. */
  function Accepts(alive: bool, accepted: seq<Envelope>, env: Envelope): seq<Envelope> {
    accepted + (if alive then [env] else [])
  }

  lemma WordsSnoc(alive: bool, accepted: seq<Envelope>, env: Envelope)
    ensures Words(Accepts(alive, accepted, env)) == Words(accepted) + (if alive then [WordOf(env)] else [])
  {
  }

  /* ------------------------------ the runs of `Correlation` ------------------------------ */

  /** What `Correlation` sees of a connection and of the transports it has forgotten. */
  datatype Standing = Standing(
    alive: bool,
    tables: map<string, Table>,
    orphans: map<string, Table>,
    promises: nat,
    accepted: seq<Envelope>)

  /** The connection stands where the events lead. */
  ghost predicate Matches(events: seq<Event>, at: Standing) {
    var s := Reach(false, events);
    && s.alive == at.alive && s.tables == at.tables && s.orphans == at.orphans
    && s.promises == at.promises && s.trace == Words(at.accepted)
  }

  predicate HeldAt(at: Standing, name: string) {
    name in at.tables || name in at.orphans
  }

  function TableAt(at: Standing, name: string): Table
    requires HeldAt(at, name)
  {
    if name in at.tables then at.tables[name] else at.orphans[name]
  }

  function Put(at: Standing, name: string, t: Table): Standing {
    if name in at.tables then at.(tables := at.tables[name := t]) else at.(orphans := at.orphans[name := t])
  }

  lemma MatchesStep(events: seq<Event>, at: Standing, e: Event, env: Envelope)
    ensures Reach(false, events + [e]) == Step(false, Reach(false, events), e)
    ensures Words(Accepts(at.alive, at.accepted, env)) == Words(at.accepted) + (if at.alive then [WordOf(env)] else [])
  {
    ReachSnoc(false, events, e);
    WordsSnoc(at.alive, at.accepted, env);
  }

  lemma MatchesOpen(events: seq<Event>, at: Standing, name: string)
    requires Matches(events, at) && !HeldAt(at, name)
    ensures Matches(events + [OpenLabel(name)],
                    at.(tables := at.tables[name := NEW_TABLE],
                        accepted := Accepts(at.alive, at.accepted, Hello(name, Some(name)))))
  {
    hide Words;
    MatchesStep(events, at, OpenLabel(name), Hello(name, Some(name)));
  }

  lemma MatchesSend(events: seq<Event>, at: Standing, name: string, ch: string, payload: Json)
    requires Matches(events, at) && HeldAt(at, name)
    ensures Matches(events + [SendMsg(name)],
                    at.(accepted := Accepts(at.alive, at.accepted, Msg(Some(name), ch, payload, None))))
  {
    hide Words;
    MatchesStep(events, at, SendMsg(name), Msg(Some(name), ch, payload, None));
  }

  /** A call of a label's connected transport: its table's next number, the next promise, one message. */
  function RequestedAt(at: Standing, name: string, ch: string, payload: Json): Standing
    requires HeldAt(at, name)
  {
    Put(at, name, Issued(TableAt(at, name), at.promises)).(
      promises := at.promises + 1,
      accepted := Accepts(at.alive, at.accepted, Msg(Some(name), ch, payload, Some(TableAt(at, name).next))))
  }

  lemma MatchesRequest(events: seq<Event>, at: Standing, name: string, ch: string, payload: Json)
    requires Matches(events, at) && HeldAt(at, name)
    ensures Matches(events + [SendRequest(name)], RequestedAt(at, name, ch, payload))
  {
    hide Words;
    MatchesStep(events, at, SendRequest(name), Msg(Some(name), ch, payload, Some(TableAt(at, name).next)));
  }

  /** The tables after an answer, whatever it finds. */
  function Answering(tables: map<string, Table>, name: string, ack: nat, response: Json): map<string, Table> {
    if name in tables then tables[name := Concluded(tables[name], ack, Answered(response))] else tables
  }

  lemma MatchesAnswer(events: seq<Event>, at: Standing, m: Request, response: Json, again: bool)
    requires Matches(events, at) && m in Reach(false, events).inFlight
    ensures Matches(events + [AnswerArrives(m, response, again)], at.(tables := Answering(at.tables, m.name, m.ack, response)))
  {
    hide Words;
    ReachSnoc(false, events, AnswerArrives(m, response, again));
    if m.name in at.tables && m.ack !in at.tables[m.name].pending {
      assert at.tables[m.name := at.tables[m.name]] == at.tables;
    }
  }

  lemma MatchesDeadline(events: seq<Event>, at: Standing, name: string, ack: nat)
    requires Matches(events, at) && HeldAt(at, name) && ack in TableAt(at, name).pending
    ensures Matches(events + [Deadline(name, ack)], Put(at, name, Concluded(TableAt(at, name), ack, Expired)))
  {
    hide Words;
    ReachSnoc(false, events, Deadline(name, ack));
  }

  lemma MatchesClose(events: seq<Event>, at: Standing, name: string, announce: bool)
    requires Matches(events, at) && HeldAt(at, name)
    ensures Matches(events + [CloseLabel(name, announce)],
                    at.(tables := at.tables - {name},
                        accepted := if announce then Accepts(at.alive, at.accepted, Bye(Some(name))) else at.accepted))
  {
    hide Words;
    MatchesStep(events, at, CloseLabel(name, announce), Bye(Some(name)));
  }

  lemma MatchesForget(events: seq<Event>, at: Standing, name: string)
    requires Matches(events, at) && name in at.tables
    ensures Matches(events + [Forget(name)],
                    at.(tables := at.tables - {name}, orphans := at.orphans[name := at.tables[name]]))
  {
    hide Words;
    ReachSnoc(false, events, Forget(name));
  }

  lemma MatchesSocket(events: seq<Event>, at: Standing, back: set<string>)
    requires Matches(events, at) && at.alive && back !! at.orphans.Keys
    ensures Matches(events + [SocketCloses(back)],
                    at.(alive := false, tables := map[], orphans := at.orphans + Blanks(back)))
  {
    hide Words;
    ReachSnoc(false, events, SocketCloses(back));
  }

  /* ------------------------------ closing a label that is opened again ------------------------------ */

  function Opens(made: seq<string>): seq<Event> {
    if made == [] then [] else Opens(made[..|made| - 1]) + [OpenLabel(made[|made| - 1])]
  }

  function Hellos(alive: bool, made: seq<string>): seq<Envelope> {
    if made == [] || !alive then []
    else Hellos(alive, made[..|made| - 1]) + [Hello(made[|made| - 1], Some(made[|made| - 1]))]
  }

  /** After all of these have been opened. */
  function Opened(at: Standing, made: seq<string>): Standing {
    at.(tables := at.tables + Blanks(Elements(made)), accepted := at.accepted + Hellos(at.alive, made))
  }

  lemma BlanksNext(tables: map<string, Table>, init: seq<string>, last: string)
    requires last !in tables && last !in init
    ensures last !in tables + Blanks(Elements(init))
    ensures (tables + Blanks(Elements(init)))[last := NEW_TABLE] == tables + Blanks(Elements(init + [last]))
  {
    assert Elements(init + [last]) == Elements(init) + {last};
  }

  lemma HellosNext(alive: bool, accepted: seq<Envelope>, init: seq<string>, last: string)
    ensures accepted + Hellos(alive, init + [last])
         == Accepts(alive, accepted + Hellos(alive, init), Hello(last, Some(last)))
  {
    assert (init + [last])[..|init|] == init;
  }

  lemma OpenedNext(at: Standing, init: seq<string>, last: string)
    requires last !in init && !HeldAt(at, last)
    ensures !HeldAt(Opened(at, init), last)
    ensures
      var mid := Opened(at, init);
      Opened(at, init + [last])
        == mid.(tables := mid.tables[last := NEW_TABLE], accepted := Accepts(mid.alive, mid.accepted, Hello(last, Some(last))))
  {
    BlanksNext(at.tables, init, last);
    HellosNext(at.alive, at.accepted, init, last);
    hide Hellos, Blanks, Elements, Accepts;
  }

  lemma {:induction false} MatchesOpens(events: seq<Event>, at: Standing, made: seq<string>)
    requires Matches(events, at) && Distinct(made) && forall l | l in made :: !HeldAt(at, l)
    ensures Matches(events + Opens(made), Opened(at, made))
    decreases |made|
  {
    if made == [] {
      assert events + [] == events && at.accepted + [] == at.accepted;
      assert at.tables + Blanks({}) == at.tables && Elements(made) == {};
    } else {
      hide Matches, Opened, HeldAt;
      var init, last := made[..|made| - 1], made[|made| - 1];
      assert made == init + [last] && last !in init;
      MatchesOpens(events, at, init);
      OpenedNext(at, init, last);
      MatchesOpen(events + Opens(init), Opened(at, init), last);
      assert (events + Opens(init)) + [OpenLabel(last)] == events + Opens(made);
    }
  }

  lemma {:induction false} HellosFront(alive: bool, accepted: seq<Envelope>, first: string, more: seq<string>)
    ensures accepted + Hellos(alive, [first] + more)
         == Accepts(alive, accepted, Hello(first, Some(first))) + Hellos(alive, more)
    decreases |more|
  {
    if alive && more != [] {
      var init, last := more[..|more| - 1], more[|more| - 1];
      HellosFront(alive, accepted, first, init);
      HellosNext(alive, accepted, [first] + init, last);
      assert [first] + more == ([first] + init) + [last] && more == init + [last];
    }
  }

  lemma {:induction false} HellosMore(alive: bool, made: seq<string>, more: seq<string>)
    ensures Hellos(alive, made + more) == Hellos(alive, made) + Hellos(alive, more)
    decreases |more|
  {
    if more == [] {
      assert made + more == made;
    } else {
      var init := more[..|more| - 1];
      HellosMore(alive, made, init);
      assert (made + more)[..|made + more| - 1] == made + init;
    }
  }

  /** First these are opened and then those. */
  lemma OpenedMore(at: Standing, made: seq<string>, more: seq<string>)
    ensures
      var mid := Opened(at, made);
      Opened(at, made + more)
        == mid.(tables := mid.tables + Blanks(Elements(more)), accepted := mid.accepted + Hellos(at.alive, more))
  {
    HellosMore(at.alive, made, more);
    assert Elements(made + more) == Elements(made) + Elements(more);
    assert at.tables + Blanks(Elements(made + more)) == at.tables + Blanks(Elements(made)) + Blanks(Elements(more));
  }

  /** What closing a label comes to when its disconnect listeners make transports for `made`. */
  function Closing(name: string, announce: bool, made: seq<string>): seq<Event> {
    [CloseLabel(name, announce)] + Opens(made) + (if name in made then [Forget(name)] else [])
  }

  function Farewell(alive: bool, name: string, announce: bool, made: seq<string>): seq<Envelope> {
    (if announce && alive then [Bye(Some(name))] else []) + Hellos(alive, made)
  }

  function LeftTables(tables: map<string, Table>, name: string, made: seq<string>): map<string, Table> {
    tables - {name} + Blanks(Elements(made)) - {name}
  }

  function LeftOrphans(orphans: map<string, Table>, name: string, made: seq<string>): map<string, Table> {
    if name in made then orphans[name := NEW_TABLE] else orphans
  }

  /** Where closing a label leaves the connection. */
  function Left(at: Standing, name: string, announce: bool, made: seq<string>): Standing {
    at.(tables := LeftTables(at.tables, name, made), orphans := LeftOrphans(at.orphans, name, made),
        accepted := at.accepted + Farewell(at.alive, name, announce, made))
  }

  function ClosedAt(at: Standing, name: string, announce: bool): Standing {
    at.(tables := at.tables - {name},
        accepted := if announce then Accepts(at.alive, at.accepted, Bye(Some(name))) else at.accepted)
  }

  lemma LeftIs(at: Standing, name: string, announce: bool, made: seq<string>)
    requires name in at.tables
    ensures
      var back := Opened(ClosedAt(at, name, announce), made);
      && (name in made <==> name in back.tables)
      && (name in made ==>
            Left(at, name, announce, made) == back.(tables := back.tables - {name}, orphans := back.orphans[name := back.tables[name]]))
      && (name !in made ==> Left(at, name, announce, made) == back)
  {
    hide Hellos;
    var back := Opened(ClosedAt(at, name, announce), made);
    assert back.accepted == at.accepted + Farewell(at.alive, name, announce, made);
    assert name in made <==> name in Elements(made);
    if name !in made {
      assert back.tables - {name} == back.tables;
    }
  }

  lemma ClosingIs(events: seq<Event>, name: string, announce: bool, made: seq<string>)
    ensures
      var before := events + [CloseLabel(name, announce)] + Opens(made);
      events + Closing(name, announce, made) == if name in made then before + [Forget(name)] else before
  {
    hide Opens;
  }

  lemma MatchesClosing(events: seq<Event>, at: Standing, name: string, announce: bool, made: seq<string>)
    requires Matches(events, at) && name in at.tables && name !in at.orphans
    requires Distinct(made) && forall l | l in made :: l !in at.tables - {name} && l !in at.orphans
    ensures Matches(events + Closing(name, announce, made), Left(at, name, announce, made))
  {
    hide Matches, Opened, Left, Closing, Opens;
    MatchesClose(events, at, name, announce);
    MatchesOpens(events + [CloseLabel(name, announce)], ClosedAt(at, name, announce), made);
    LeftIs(at, name, announce, made);
    ClosingIs(events, name, announce, made);
    if name in made {
      MatchesForget(events + [CloseLabel(name, announce)] + Opens(made), Opened(ClosedAt(at, name, announce), made), name);
    }
  }

  /** A label that opens itself again while it is closed. */
  lemma ClosingItself(held: set<string>, name: string)
    requires name !in held
    ensures Made(held, [name]) == [name]
    ensures Closing(name, true, [name]) == [CloseLabel(name, true), OpenLabel(name), Forget(name)]
    ensures Farewell(true, name, true, [name]) == [Bye(Some(name)), Hello(name, Some(name))]
  {
    assert [name][1..] == [] && [name][..0] == [];
    assert Made(held + {name}, []) == [];
    assert Opens([name]) == Opens([]) + [OpenLabel(name)];
    assert Hellos(true, [name]) == Hellos(true, []) + [Hello(name, Some(name))];
  }

  lemma StrayRun(name: string)
    ensures [] + [OpenLabel(name)] + Closing(name, true, [name]) + [CloseLabel(name, true)] + [SendMsg(name)] == Stray(name)
  {
    ClosingItself({}, name);
    hide Closing;
  }
}
