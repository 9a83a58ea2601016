/**
 RPCs of many labels over one connection. Acknowledgement numbers restart at 1 for every
 transport, so they collide between labels, and between a label and its own reopening.
 */
module Correlation {
  import opened Json
  import opened RawTcp
  import opened Rpc

  /**
   A request, from the moment it is sent until its last answer: the label and number it travels
   under, which opening of the label sent it, and the promise that waits for it.
   */
  datatype Request = Request(name: string, opening: nat, ack: nat, promise: Promise)

  /** An envelope as far as ordering is concerned. */
  datatype Word = SaysHello(name: string) | SaysMsg(name: string) | SaysBye(name: string) | SaysOther

  /**
   `inFlight` are the requests whose answer may still arrive: queued, on the wire, at the server,
   or answered with the answer on its way. `trace` is what the connection has accepted.
   `answers` pairs each promise settled by an answer with the promise of the request answered.
   `orphans` are connected transports that the connection has forgotten and the application holds.
   */
  datatype Net = Net(
    alive: bool,
    tables: map<string, Table>,
    orphans: map<string, Table>,
    openings: map<string, nat>,
    inFlight: set<Request>,
    promises: nat,
    answers: set<(Promise, Promise)>,
    trace: seq<Word>)

  const QUIET := Net(true, map[], map[], map[], {}, 0, {}, [])

  datatype Event =
    | OpenLabel(name: string)
    | SendMsg(name: string)
    | SendRequest(name: string)
    | AnswerArrives(request: Request, response: Json, again: bool)
    | Lost(request: Request)
    | Deadline(name: string, ack: nat)
    | CloseLabel(name: string, announced: bool)
    | Forget(name: string)
    | SocketCloses(back: set<string>)

  /** A connected transport of the label exists, known to the connection or forgotten by it. */
  predicate Held(s: Net, name: string) {
    name in s.tables || name in s.orphans
  }

  function TableOf(s: Net, name: string): Table
    requires Held(s, name)
  {
    if name in s.tables then s.tables[name] else s.orphans[name]
  }

  function WithTable(s: Net, name: string, t: Table): Net {
    if name in s.tables then s.(tables := s.tables[name := t]) else s.(orphans := s.orphans[name := t])
  }

  /**
   A label is opened only when no transport of it is held; with `careful`, only when no request of
   its earlier openings is in flight either.
   */
  predicate Enabled(careful: bool, s: Net, e: Event) {
    match e
    case OpenLabel(l) => !Held(s, l) && (careful ==> forall m | m in s.inFlight :: m.name != l)
    case SendMsg(l) => Held(s, l)
    case SendRequest(l) => Held(s, l)
    case AnswerArrives(m, _, _) => m in s.inFlight
    case Lost(m) => m in s.inFlight
    case Deadline(l, ack) => Held(s, l) && ack in TableOf(s, l).pending
    case CloseLabel(l, _) => Held(s, l)
    case Forget(l) => l in s.tables
    case SocketCloses(back) => s.alive && back !! s.orphans.Keys
  }

  function OpeningOf(s: Net, name: string): nat {
    if name in s.openings then s.openings[name] else 0
  }

  function Heard(s: Net, w: Word): seq<Word> {
    if s.alive then s.trace + [w] else s.trace
  }

  /** An answer settles whatever the connection has pending for its label under its number. */
  function Deliver(s: Net, m: Request, response: Json): Net {
    if m.name !in s.tables || m.ack !in s.tables[m.name].pending then s
    else
      var t := s.tables[m.name];
      s.(tables := s.tables[m.name := Concluded(t, m.ack, Answered(response))],
         answers := s.answers + {(t.pending[m.ack], m.promise)})
  }

  function Blanks(labels: set<string>): map<string, Table> {
    map l | l in labels :: NEW_TABLE
  }

  /**
   Closing a forgotten transport says its bye and changes nothing. `Forget` is the deletion of a
   label that was opened again while it was being closed; `back` are the labels whose transports
   survive the socket's end.
   */
  function Step(careful: bool, s: Net, e: Event): Net {
    if !Enabled(careful, s, e) then s
    else match e
      case OpenLabel(l) =>
        s.(tables := s.tables[l := NEW_TABLE], openings := s.openings[l := OpeningOf(s, l) + 1],
           trace := Heard(s, SaysHello(l)))
      case SendMsg(l) => s.(trace := Heard(s, SaysMsg(l)))
      case SendRequest(l) => Asked(s, l)
      case AnswerArrives(m, response, again) =>
        Deliver(if again then s else s.(inFlight := s.inFlight - {m}), m, response)
      case Lost(m) => s.(inFlight := s.inFlight - {m})
      case Deadline(l, ack) => WithTable(s, l, Concluded(TableOf(s, l), ack, Expired))
      case CloseLabel(l, announced) =>
        s.(tables := s.tables - {l}, trace := if announced then Heard(s, SaysBye(l)) else s.trace)
      case Forget(l) => s.(tables := s.tables - {l}, orphans := s.orphans[l := s.tables[l]])
      case SocketCloses(back) => s.(alive := false, tables := map[], orphans := s.orphans + Blanks(back))
  }

  function Asked(s: Net, l: string): Net
    requires Held(s, l)
  {
    var t := TableOf(s, l);
    WithTable(s, l, Issued(t, s.promises)).(
      inFlight := if s.alive then s.inFlight + {Request(l, OpeningOf(s, l), t.next, s.promises)} else s.inFlight,
      promises := s.promises + 1,
      trace := Heard(s, SaysMsg(l)))
  }

  function Reach(careful: bool, events: seq<Event>): Net {
    if events == [] then QUIET
    else Step(careful, Reach(careful, events[..|events| - 1]), events[|events| - 1])
  }

  /* --------------------------------- correlation --------------------------------- */

  ghost predicate TableGood(s: Net, l: string)
    requires l in s.tables
  {
    var t := s.tables[l];
    && t.connected && l in s.openings
    && (forall a | a in t.pending :: a < t.next && t.pending[a] < s.promises)
  }

  /** A request in flight and a pending call are the same one exactly when all their marks agree. */
  ghost predicate Marked(s: Net, m: Request) {
    && m.promise < s.promises
    && m.name in s.openings && m.opening <= s.openings[m.name]
    && (m.name in s.tables && m.opening == s.openings[m.name] ==>
          && m.ack < s.tables[m.name].next
          && (m.ack in s.tables[m.name].pending ==> s.tables[m.name].pending[m.ack] == m.promise))
    && (forall l, a | l in s.tables && a in s.tables[l].pending && s.tables[l].pending[a] == m.promise ::
          l == m.name && l in s.openings && m.opening == s.openings[l] && a == m.ack)
  }

  ghost predicate OrphanGood(s: Net, l: string)
    requires l in s.orphans
  {
    s.orphans[l].connected && l !in s.tables && (s.alive ==> l in s.openings)
  }

  ghost predicate Inv(careful: bool, s: Net) {
    && (forall l | l in s.tables :: TableGood(s, l))
    && (forall l | l in s.orphans :: OrphanGood(s, l))
    && (forall m | m in s.inFlight :: Marked(s, m))
    && (careful ==> forall m | m in s.inFlight :: m.opening == s.openings[m.name])
    && (careful ==> forall p | p in s.answers :: p.0 == p.1)
  }

  lemma InvOpen(careful: bool, s: Net, l: string)
    requires Inv(careful, s) && Enabled(careful, s, OpenLabel(l))
    ensures Inv(careful, Step(careful, s, OpenLabel(l)))
  {
  }

  lemma InvRequest(careful: bool, s: Net, l: string)
    requires Inv(careful, s) && Enabled(careful, s, SendRequest(l))
    ensures Inv(careful, Step(careful, s, SendRequest(l)))
  {
    if l in s.tables {
      InvAsked(careful, s, l);
    } else {
      InvOrphanAsked(careful, s, l);
    }
  }

  lemma InvAsked(careful: bool, s: Net, l: string)
    requires Inv(careful, s) && l in s.tables
    ensures Inv(careful, Asked(s, l))
  {
    var q := Asked(s, l);
    assert TableGood(s, l);
    forall k | k in q.tables ensures TableGood(q, k) { assert TableGood(s, k); }
    forall k | k in q.orphans ensures OrphanGood(q, k) { assert OrphanGood(s, k); }
    forall m | m in q.inFlight ensures Marked(q, m) { if m in s.inFlight { assert Marked(s, m); } }
  }

  lemma InvOrphanAsked(careful: bool, s: Net, l: string)
    requires Inv(careful, s) && l in s.orphans && l !in s.tables
    ensures Inv(careful, Asked(s, l))
  {
    var q := Asked(s, l);
    assert OrphanGood(s, l);
    forall k | k in q.tables ensures TableGood(q, k) { assert TableGood(s, k); }
    forall k | k in q.orphans ensures OrphanGood(q, k) { assert OrphanGood(s, k); }
    forall m | m in q.inFlight ensures Marked(q, m) { if m in s.inFlight { assert Marked(s, m); } }
  }

  /** Taking a pending call out of a table disturbs nothing. */
  lemma InvConclude(careful: bool, s: Net, l: string, ack: nat, outcome: Outcome)
    requires Inv(careful, s) && Held(s, l)
    ensures Inv(careful, WithTable(s, l, Concluded(TableOf(s, l), ack, outcome)))
  {
  }

  /** Nothing that the connection does depends on what it has forgotten. */
  lemma InvOrphans(careful: bool, s: Net, orphans: map<string, Table>, alive: bool)
    requires Inv(careful, s)
    requires forall l | l in orphans :: OrphanGood(s.(orphans := orphans, alive := alive), l)
    ensures Inv(careful, s.(orphans := orphans, alive := alive))
  {
    var q := s.(orphans := orphans, alive := alive);
    forall l | l in q.tables ensures TableGood(q, l) { assert TableGood(s, l); }
    forall m | m in q.inFlight ensures Marked(q, m) { assert Marked(s, m); }
  }

  lemma InvShrink(careful: bool, s: Net, tables: map<string, Table>, inFlight: set<Request>)
    requires Inv(careful, s) && inFlight <= s.inFlight
    requires forall l | l in tables :: l in s.tables && tables[l] == s.tables[l]
    ensures Inv(careful, s.(tables := tables, inFlight := inFlight))
  {
  }

  lemma InvAnswer(careful: bool, s: Net, m: Request, response: Json, again: bool)
    requires Inv(careful, s) && m in s.inFlight
    ensures Inv(careful, Step(careful, s, AnswerArrives(m, response, again)))
  {
    assert Marked(s, m);
    var left := if again then s.inFlight else s.inFlight - {m};
    InvShrink(careful, s, s.tables, left);
    var r := s.(tables := s.tables, inFlight := left);
    if m.name in s.tables && m.ack in s.tables[m.name].pending {
      InvConclude(careful, r, m.name, m.ack, Answered(response));
      InvMore(careful, r.(tables := r.tables[m.name := Concluded(r.tables[m.name], m.ack, Answered(response))]),
              (s.tables[m.name].pending[m.ack], m.promise));
    }
  }

  lemma InvMore(careful: bool, s: Net, answer: (Promise, Promise))
    requires Inv(careful, s) && (careful ==> answer.0 == answer.1)
    ensures Inv(careful, s.(answers := s.answers + {answer}))
  {
    var q := s.(answers := s.answers + {answer});
    forall k | k in q.tables ensures TableGood(q, k) {
      assert TableGood(s, k);
    }
    forall m | m in q.inFlight ensures Marked(q, m) {
      assert Marked(s, m);
    }
  }

  /** The trace plays no part in correlation. */
  lemma InvHeard(careful: bool, s: Net, trace: seq<Word>)
    requires Inv(careful, s)
    ensures Inv(careful, s.(trace := trace))
  {
  }

  lemma InvStep(careful: bool, s: Net, e: Event)
    requires Inv(careful, s) && Enabled(careful, s, e)
    ensures Inv(careful, Step(careful, s, e))
  {
    match e
    case OpenLabel(l) => InvOpen(careful, s, l);
    case SendMsg(l) => InvHeard(careful, s, Heard(s, SaysMsg(l)));
    case SendRequest(l) => InvRequest(careful, s, l);
    case AnswerArrives(m, response, again) => InvAnswer(careful, s, m, response, again);
    case Lost(m) => InvShrink(careful, s, s.tables, s.inFlight - {m});
    case Deadline(l, ack) => InvConclude(careful, s, l, ack, Expired);
    case CloseLabel(l, announced) =>
      InvShrink(careful, s, s.tables - {l}, s.inFlight);
      InvHeard(careful, s.(tables := s.tables - {l}, inFlight := s.inFlight),
               if announced then Heard(s, SaysBye(l)) else s.trace);
    case Forget(l) =>
      assert TableGood(s, l);
      InvShrink(careful, s, s.tables - {l}, s.inFlight);
      InvOrphans(careful, s.(tables := s.tables - {l}, inFlight := s.inFlight), s.orphans[l := s.tables[l]], s.alive);
    case SocketCloses(back) =>
      InvShrink(careful, s, map[], s.inFlight);
      InvOrphans(careful, s.(tables := map[], inFlight := s.inFlight), s.orphans + Blanks(back), false);
  }

  lemma {:induction false} AlwaysInv(careful: bool, events: seq<Event>)
    ensures Inv(careful, Reach(careful, events))
    decreases |events|
  {
    if events != [] {
      var before, e := events[..|events| - 1], events[|events| - 1];
      AlwaysInv(careful, before);
      if Enabled(careful, Reach(careful, before), e) {
        InvStep(careful, Reach(careful, before), e);
      }
    }
  }

  /**
   In every reachable state, with labels reopened at will, an answer that finds a pending call
   finds its own call exactly when it belongs to the current opening of its label.
   */
  lemma AnswerFindsItsOwn(events: seq<Event>, m: Request)
    requires var s := Reach(false, events); m in s.inFlight && m.name in s.tables && m.ack in s.tables[m.name].pending
    ensures
      var s := Reach(false, events);
      s.tables[m.name].pending[m.ack] == m.promise <==> m.opening == OpeningOf(s, m.name)
  {
    AlwaysInv(false, events);
    assert Marked(Reach(false, events), m);
  }

  /**
   If no label is opened while requests of an earlier opening are in flight, every promise settled
   by an answer is settled by the answer to its own request, under any interleaving of requests,
   answers, repeated answers, losses, deadlines and closes.
   */
  lemma RpcCorrelation(events: seq<Event>, p: (Promise, Promise))
    requires p in Reach(true, events).answers
    ensures p.0 == p.1
  {
    AlwaysInv(true, events);
  }

  lemma ReachSnoc(careful: bool, events: seq<Event>, e: Event)
    ensures Reach(careful, events + [e]) == Step(careful, Reach(careful, events), e)
  {
    assert (events + [e])[..|events + [e]| - 1] == events;
  }

  /** One label, opened, asked once, closed, and opened again: its numbers start over. */
  lemma Reopened(name: string) returns (events: seq<Event>)
    ensures
      var s := Reach(false, events);
      && s.alive && s.tables == map[name := NEW_TABLE] && s.openings == map[name := 2]
      && s.inFlight == {Request(name, 1, 1, 0)} && s.promises == 1
  {
    ReachSnoc(false, [], OpenLabel(name));
    var greeted := [] + [OpenLabel(name)];
    assert Reach(false, greeted).tables == map[name := NEW_TABLE] && Reach(false, greeted).openings == map[name := 1];
    ReachSnoc(false, greeted, SendRequest(name));
    var asked := greeted + [SendRequest(name)];
    ReachSnoc(false, asked, CloseLabel(name, true));
    var closed := asked + [CloseLabel(name, true)];
    assert Reach(false, closed).tables == map[];
    ReachSnoc(false, closed, OpenLabel(name));
    events := closed + [OpenLabel(name)];
  }

  /**
   The condition is needed: on any label, closed with a request unanswered and opened again, the
   late answer settles the promise of a later request.
   */
  lemma ReopeningMisroutes(name: string, response: Json)
    ensures exists events, m ::
      && m in Reach(false, events).inFlight && m.name == name && name in Reach(false, events).tables
      && m.ack in Reach(false, events).tables[name].pending
      && Reach(false, events).tables[name].pending[m.ack] != m.promise
      && (Reach(false, events).tables[name].pending[m.ack], m.promise)
           in Step(false, Reach(false, events), AnswerArrives(m, response, false)).answers
  {
    var reopened := Reopened(name);
    var first := Request(name, 1, 1, 0);
    ReachSnoc(false, reopened, SendRequest(name));
    var again := reopened + [SendRequest(name)];
    assert Reach(false, again).tables[name].pending[1] == 1 && first in Reach(false, again).inFlight;
    assert (1, 0) in Step(false, Reach(false, again), AnswerArrives(first, response, false)).answers;
  }

  /* ------------------------------- settlement ------------------------------- */

  /** An arriving answer that finds a pending call settles its promise with that answer. */
  lemma AnswerSettles(events: seq<Event>, m: Request, response: Json, again: bool)
    requires var s := Reach(false, events); m in s.inFlight && m.name in s.tables && m.ack in s.tables[m.name].pending
    ensures
      var promise := Reach(false, events).tables[m.name].pending[m.ack];
      var q := Reach(false, events + [AnswerArrives(m, response, again)]);
      && m.name in q.tables && promise in q.tables[m.name].settled
      && q.tables[m.name].settled[promise] == Answered(response) && m.ack !in q.tables[m.name].pending
      && (promise, m.promise) in q.answers
  {
    ReachSnoc(false, events, AnswerArrives(m, response, again));
  }

  /** So does the deadline of a pending call, on any connected transport. */
  lemma DeadlineSettles(events: seq<Event>, name: string, ack: nat)
    requires var s := Reach(false, events); Held(s, name) && ack in TableOf(s, name).pending
    ensures
      var promise := TableOf(Reach(false, events), name).pending[ack];
      var q := Reach(false, events + [Deadline(name, ack)]);
      && Held(q, name) && promise in TableOf(q, name).settled
      && TableOf(q, name).settled[promise] == Expired && ack !in TableOf(q, name).pending
  {
    ReachSnoc(false, events, Deadline(name, ack));
  }

  /** The promises given out on the current opening of a label. */
  function GivenOut(events: seq<Event>, name: string): set<Promise> {
    if events == [] then {}
    else
      var init, e := events[..|events| - 1], events[|events| - 1];
      var s := Reach(false, init);
      if !Enabled(false, s, e) then GivenOut(init, name)
      else match e
        case OpenLabel(l) => if l == name then {} else GivenOut(init, name)
        case SocketCloses(back) => if name in back then {} else GivenOut(init, name)
        case SendRequest(l) => GivenOut(init, name) + (if l == name then {s.promises} else {})
        case _ => GivenOut(init, name)
  }

  /** Each promise given out is pending, under one number, or settled, and never both. */
  ghost predicate Tidy(t: Table, given: set<Promise>, promises: nat) {
    && (forall p: Promise :: p in given <==> p in t.pending.Values || p in t.settled)
    && (forall p: Promise :: p in given ==> p < promises)
    && (forall p | p in t.settled :: p !in t.pending.Values)
    && (forall a, b | a in t.pending && b in t.pending && a != b :: t.pending[a] != t.pending[b])
    && (forall a | a in t.pending :: a < t.next)
  }

  lemma TidyIssued(t: Table, given: set<Promise>, promises: nat)
    requires Tidy(t, given, promises) && t.connected
    ensures Tidy(Issued(t, promises), given + {promises}, promises + 1)
  {
    var pending := t.pending[t.next := promises];
    assert pending.Values == t.pending.Values + {promises} by {
      assert t.next in pending && pending[t.next] == promises;
      forall p | p in t.pending.Values ensures p in pending.Values {
        var a :| a in t.pending && t.pending[a] == p;
        assert a in pending && pending[a] == p;
      }
    }
  }

  lemma TidyConcluded(t: Table, given: set<Promise>, promises: nat, ack: nat, outcome: Outcome)
    requires Tidy(t, given, promises)
    ensures Tidy(Concluded(t, ack, outcome), given, promises)
  {
    if ack in t.pending {
      var pending := t.pending - {ack};
      assert pending.Values == t.pending.Values - {t.pending[ack]} by {
        forall p | p in t.pending.Values && p != t.pending[ack] ensures p in pending.Values {
          var a :| a in t.pending && t.pending[a] == p;
          assert a in pending && pending[a] == p;
        }
      }
    }
  }

  /** A label's table after an event: a new one, or the one before with that event's effect. */
  lemma TableAfter(s: Net, e: Event, name: string)
    requires Inv(false, s) && Enabled(false, s, e)
    ensures Step(false, s, e).promises == s.promises + (if e.SendRequest? then 1 else 0)
    ensures
      var q := Step(false, s, e);
      Held(q, name) ==>
        if e == OpenLabel(name) || (e.SocketCloses? && name in e.back) then TableOf(q, name) == NEW_TABLE
        else
          && Held(s, name) && TableOf(s, name).connected
          && TableOf(q, name) ==
             if e == SendRequest(name) then Issued(TableOf(s, name), s.promises)
             else if e.AnswerArrives? && e.request.name == name && name in s.tables then
               Concluded(s.tables[name], e.request.ack, Answered(e.response))
             else if e.Deadline? && e.name == name then Concluded(TableOf(s, name), e.ack, Expired)
             else TableOf(s, name)
  {
    hide Issued, Concluded;
    assert name in s.tables ==> TableGood(s, name);
    assert name in s.orphans ==> OrphanGood(s, name);
    hide Inv;
    match e
    case AnswerArrives(m, response, again) => AnswerAfter(s, m, response, again);
    case SendRequest(_) =>
    case Deadline(_, _) =>
    case SocketCloses(_) =>
    case _ =>
  }

  lemma AnswerAfter(s: Net, m: Request, response: Json, again: bool)
    requires m in s.inFlight
    ensures
      var q := Step(false, s, AnswerArrives(m, response, again));
      && q.promises == s.promises && q.orphans == s.orphans && q.tables.Keys == s.tables.Keys
      && forall l | l in s.tables ::
           q.tables[l] == if l == m.name then Concluded(s.tables[l], m.ack, Answered(response)) else s.tables[l]
  {
  }

  lemma TidyStep(s: Net, e: Event, name: string, given: set<Promise>, after: set<Promise>)
    requires Inv(false, s) && Enabled(false, s, e) && (Held(s, name) ==> Tidy(TableOf(s, name), given, s.promises))
    requires after ==
      match e
      case OpenLabel(l) => if l == name then {} else given
      case SocketCloses(back) => if name in back then {} else given
      case SendRequest(l) => given + (if l == name then {s.promises} else {})
      case _ => given
    ensures var q := Step(false, s, e); Held(q, name) ==> Tidy(TableOf(q, name), after, q.promises)
  {
    hide Concluded, Issued, Step, Enabled;
    TableAfter(s, e, name);
    var q := Step(false, s, e);
    if Held(q, name) && e != OpenLabel(name) && !(e.SocketCloses? && name in e.back) {
      var t := TableOf(s, name);
      if e == SendRequest(name) {
        TidyIssued(t, given, s.promises);
      } else if e.AnswerArrives? {
        TidyConcluded(t, given, s.promises, e.request.ack, Answered(e.response));
      } else if e.Deadline? {
        TidyConcluded(t, given, s.promises, e.ack, Expired);
      }
    }
  }

  /**
   No promise is lost: as long as a transport of the label is connected, every promise given out on it
   is pending, under exactly one number, or has been settled, never neither and never both.
   */
  lemma {:induction false} NeverLost(events: seq<Event>, name: string)
    requires Held(Reach(false, events), name)
    ensures Tidy(TableOf(Reach(false, events), name), GivenOut(events, name), Reach(false, events).promises)
    decreases |events|
  {
    hide Tidy, Inv;
    var init, e := events[..|events| - 1], events[|events| - 1];
    var s := Reach(false, init);
    if Held(s, name) {
      NeverLost(init, name);
    }
    if Enabled(false, s, e) {
      AlwaysInv(false, init);
      hide Step;
      TidyStep(s, e, name, GivenOut(init, name), GivenOut(events, name));
    }
  }

  /** And a settled promise keeps its outcome as long as that transport lasts. */
  lemma SettledForGood(events: seq<Event>, e: Event, name: string, promise: Promise)
    requires Held(Reach(false, events), name) && promise in TableOf(Reach(false, events), name).settled
    requires Held(Reach(false, events + [e]), name)
    requires e != OpenLabel(name) && (e.SocketCloses? ==> name !in e.back)
    ensures
      var before, after := TableOf(Reach(false, events), name), TableOf(Reach(false, events + [e]), name);
      promise in after.settled && after.settled[promise] == before.settled[promise]
  {
    hide Inv, Reach, Step, Enabled, GivenOut;
    NeverLost(events, name);
    AlwaysInv(false, events);
    ReachSnoc(false, events, e);
    NothingHappens(Reach(false, events), e);
    var s := Reach(false, events);
    var t := TableOf(s, name);
    assert forall a | a in t.pending :: t.pending[a] in t.pending.Values;
    if Enabled(false, s, e) {
      TableAfter(s, e, name);
    }
  }

  lemma NothingHappens(s: Net, e: Event)
    ensures !Enabled(false, s, e) ==> Step(false, s, e) == s
  {
  }

  /* ------------------------------- hello before messages ------------------------------- */

  /** The label has been announced and not closed by this side since. */
  ghost predicate Covered(trace: seq<Word>, name: string) {
    exists i | 0 <= i < |trace| :: trace[i] == SaysHello(name) && forall j | i < j < |trace| :: trace[j] != SaysBye(name)
  }

  ghost predicate Spoken(trace: seq<Word>) {
    forall k | 0 <= k < |trace| && trace[k].SaysMsg? :: Covered(trace[..k], trace[k].name)
  }

  lemma CoveredSnoc(trace: seq<Word>, w: Word, name: string)
    ensures Covered(trace + [w], name) <==> w == SaysHello(name) || (Covered(trace, name) && w != SaysBye(name))
  {
    var t := trace + [w];
    if w == SaysHello(name) {
      assert t[|trace|] == SaysHello(name);
    } else if Covered(trace, name) && w != SaysBye(name) {
      var i :| 0 <= i < |trace| && trace[i] == SaysHello(name) && forall j | i < j < |trace| :: trace[j] != SaysBye(name);
      assert t[i] == SaysHello(name);
    }
    if Covered(t, name) && w != SaysHello(name) {
      var i :| 0 <= i < |t| && t[i] == SaysHello(name) && forall j | i < j < |t| :: t[j] != SaysBye(name);
      assert trace[i] == SaysHello(name) && t[|trace|] == w;
      assert forall j | i < j < |trace| :: trace[j] == t[j];
    }
  }

  lemma SpokenSnoc(trace: seq<Word>, w: Word)
    ensures Spoken(trace + [w]) <==> Spoken(trace) && (w.SaysMsg? ==> Covered(trace, w.name))
  {
    var t := trace + [w];
    assert t[..|trace|] == trace && t[|trace|] == w;
    assert forall k | 0 <= k < |trace| :: t[k] == trace[k] && t[..k] == trace[..k];
    if Spoken(t) {
      forall k | 0 <= k < |trace| && trace[k].SaysMsg? ensures Covered(trace[..k], trace[k].name) {
        assert t[k].SaysMsg?;
      }
    }
  }

  predicate Speaks(e: Event) {
    e.SendMsg? || e.SendRequest?
  }

  /** `close` was called on a transport of the label that its connection had forgotten. */
  ghost predicate ClosedForgotten(careful: bool, events: seq<Event>, name: string) {
    exists i | 0 <= i < |events| :: events[i] == CloseLabel(name, true) && name in Reach(careful, events[..i]).orphans
  }

  /** While the connection lives, something is sent on a forgotten transport after `close` was called on it. */
  ghost predicate Astray(careful: bool, events: seq<Event>) {
    exists j | 0 <= j < |events| ::
      Speaks(events[j]) && Reach(careful, events[..j]).alive && ClosedForgotten(careful, events[..j], events[j].name)
  }

  lemma ClosedForgottenSnoc(careful: bool, before: seq<Event>, e: Event, name: string)
    ensures ClosedForgotten(careful, before + [e], name)
      <==> ClosedForgotten(careful, before, name) || (e == CloseLabel(name, true) && name in Reach(careful, before).orphans)
  {
    hide Reach;
    var events := before + [e];
    assert events[..|before|] == before && events[|before|] == e;
    assert forall i | 0 <= i < |before| :: events[i] == before[i] && events[..i] == before[..i];
    if ClosedForgotten(careful, before, name) {
      var i :| 0 <= i < |before| && before[i] == CloseLabel(name, true) && name in Reach(careful, before[..i]).orphans;
      assert events[i] == CloseLabel(name, true);
    }
  }

  lemma AstraySnoc(careful: bool, before: seq<Event>, e: Event)
    ensures Astray(careful, before + [e])
      <==> Astray(careful, before) || (Speaks(e) && Reach(careful, before).alive && ClosedForgotten(careful, before, e.name))
  {
    hide Reach, ClosedForgotten;
    var events := before + [e];
    assert events[..|before|] == before && events[|before|] == e;
    assert forall i | 0 <= i < |before| :: events[i] == before[i] && events[..i] == before[..i];
    if Astray(careful, before) {
      var j :| 0 <= j < |before| && Speaks(before[j]) && Reach(careful, before[..j]).alive
               && ClosedForgotten(careful, before[..j], before[j].name);
      assert Speaks(events[j]);
    }
  }

  /**
   Labels the connection knows are announced; forgotten ones are until `close` is called on them;
   and whatever was accepted so far was announced unless something went astray.
   */
  ghost predicate Announced(s: Net, closed: set<string>, astray: bool) {
    && (Spoken(s.trace) <==> !astray) && closed <= s.orphans.Keys
    && (s.alive ==> forall l | l in s.tables :: Covered(s.trace, l))
    && (s.alive ==> forall l | l in s.orphans :: Covered(s.trace, l) <==> l !in closed)
  }

  /** One more word. */
  lemma Hears(s: Net, w: Word)
    ensures Spoken(s.trace + [w]) <==> Spoken(s.trace) && (w.SaysMsg? ==> Covered(s.trace, w.name))
    ensures forall l: string ::
      Covered(s.trace + [w], l) <==> w == SaysHello(l) || (Covered(s.trace, l) && w != SaysBye(l))
  {
    hide Covered, Spoken;
    SpokenSnoc(s.trace, w);
    forall l: string
      ensures Covered(s.trace + [w], l) <==> w == SaysHello(l) || (Covered(s.trace, l) && w != SaysBye(l))
    {
      CoveredSnoc(s.trace, w, l);
    }
  }

  lemma AnnouncedHears(s: Net, closed: set<string>, astray: bool, w: Word, q: Net, closed': set<string>)
    requires Announced(s, closed, astray) && s.alive && s.tables.Keys !! s.orphans.Keys
    requires q.trace == s.trace + [w] && q.orphans.Keys == s.orphans.Keys
    requires w.SaysMsg? ==> w.name in s.tables || w.name in s.orphans
    requires forall l | l in q.tables :: w == SaysHello(l) || (l in s.tables && w != SaysBye(l))
    requires w.SaysHello? ==> w.name !in s.orphans
    requires closed' == if w.SaysBye? && w.name in s.orphans then closed + {w.name} else closed
    ensures Announced(q, closed', astray || (w.SaysMsg? && w.name in closed))
  {
    hide Covered, Spoken;
    Hears(s, w);
  }

  lemma AnnouncedQuietly(s: Net, closed: set<string>, astray: bool, q: Net, closed': set<string>)
    requires Announced(s, closed, astray)
    requires q.trace == s.trace && closed' <= q.orphans.Keys
    requires q.alive ==> s.alive && closed' == closed && q.tables.Keys <= s.tables.Keys
    requires forall l | l in q.orphans :: l in s.orphans || !q.alive || (l in s.tables && l !in closed)
    ensures Announced(q, closed', astray)
  {
    hide Covered, Spoken;
  }

  lemma ClosedAreOrphans(s: Net, closed: set<string>, astray: bool)
    requires Announced(s, closed, astray)
    ensures closed <= s.orphans.Keys
  {
  }

  /** What an event has the connection say, if it lives. */
  function Says(e: Event): seq<Word> {
    match e
    case OpenLabel(l) => [SaysHello(l)]
    case SendMsg(l) => [SaysMsg(l)]
    case SendRequest(l) => [SaysMsg(l)]
    case CloseLabel(l, announced) => if announced then [SaysBye(l)] else []
    case _ => []
  }

  /** The labels whose forgotten transports have been closed, after one more event. */
  function ClosedAfter(s: Net, closed: set<string>, e: Event): set<string> {
    if e.CloseLabel? && e.announced && e.name in s.orphans then closed + {e.name} else closed
  }

  lemma AnnouncedAloud(careful: bool, s: Net, closed: set<string>, astray: bool, e: Event)
    requires Announced(s, closed, astray) && s.tables.Keys !! s.orphans.Keys
    requires s.alive && Enabled(careful, s, e) && Says(e) != []
    ensures Announced(Step(careful, s, e), ClosedAfter(s, closed, e), astray || (Speaks(e) && e.name in closed))
  {
    hide Announced;
    AnnouncedHears(s, closed, astray, Says(e)[0], Step(careful, s, e), ClosedAfter(s, closed, e));
  }

  lemma ClosedQuietly(careful: bool, s: Net, closed: set<string>, e: Event)
    requires s.alive ==> !Enabled(careful, s, e) || Says(e) == []
    ensures s.alive ==> ClosedAfter(s, closed, e) == closed && !(Speaks(e) && e.name in closed && closed <= s.orphans.Keys)
    ensures closed <= s.orphans.Keys ==> ClosedAfter(s, closed, e) <= s.orphans.Keys
  {
  }

  /** An event without a word keeps the trace, and moves labels from known to forgotten at most. */
  lemma QuietStep(careful: bool, s: Net, e: Event)
    requires s.alive ==> !Enabled(careful, s, e) || Says(e) == []
    ensures
      var q := Step(careful, s, e);
      && q.trace == s.trace && s.orphans.Keys <= q.orphans.Keys
      && (q.alive ==> s.alive && q.tables.Keys <= s.tables.Keys && q.orphans.Keys <= s.orphans.Keys + s.tables.Keys)
  {
    hide Concluded, Issued;
    match e
    case Forget(l) =>
    case SocketCloses(back) =>
    case _ =>
  }

  lemma AnnouncedStep(careful: bool, s: Net, closed: set<string>, astray: bool, e: Event)
    requires Inv(careful, s) && Announced(s, closed, astray)
    ensures Announced(Step(careful, s, e), ClosedAfter(s, closed, e), astray || (Speaks(e) && s.alive && e.name in closed))
  {
    assert s.tables.Keys !! s.orphans.Keys by {
      assert forall l | l in s.orphans :: OrphanGood(s, l);
    }
    ClosedAreOrphans(s, closed, astray);
    hide Inv, Announced;
    if s.alive && Enabled(careful, s, e) && Says(e) != [] {
      AnnouncedAloud(careful, s, closed, astray, e);
    } else {
      QuietStep(careful, s, e);
      ClosedQuietly(careful, s, closed, e);
      hide Step, Enabled;
      AnnouncedQuietly(s, closed, astray, Step(careful, s, e), ClosedAfter(s, closed, e));
    }
  }

  ghost function Closed(careful: bool, events: seq<Event>): set<string> {
    set l | l in Reach(careful, events).orphans && ClosedForgotten(careful, events, l)
  }

  lemma {:induction false} AlwaysAnnounced(careful: bool, events: seq<Event>)
    ensures Announced(Reach(careful, events), Closed(careful, events), Astray(careful, events))
    ensures forall l | ClosedForgotten(careful, events, l) :: l in Reach(careful, events).orphans
    decreases |events|
  {
    if events == [] {
      assert Closed(careful, events) == {};
    } else {
      var before, e := events[..|events| - 1], events[|events| - 1];
      hide Announced, Astray, ClosedForgotten, Step, Inv, Closed;
      AlwaysAnnounced(careful, before);
      AlwaysInv(careful, before);
      AnnouncedStep(careful, Reach(careful, before), Closed(careful, before), Astray(careful, before), e);
      AstraySnoc(careful, before, e);
      ClosedSnoc(careful, before, e);
      assert before + [e] == events;
    }
  }

  lemma ClosedSnoc(careful: bool, before: seq<Event>, e: Event)
    requires forall l | ClosedForgotten(careful, before, l) :: l in Reach(careful, before).orphans
    ensures forall l | ClosedForgotten(careful, before + [e], l) :: l in Reach(careful, before + [e]).orphans
    ensures
      Closed(careful, before + [e]) == ClosedAfter(Reach(careful, before), Closed(careful, before), e)
  {
    hide Reach, ClosedForgotten;
    ReachSnoc(careful, before, e);
    var s := Reach(careful, before);
    OrphansStay(careful, s, e);
    hide Step;
    forall l: string
      ensures ClosedForgotten(careful, before + [e], l)
        <==> ClosedForgotten(careful, before, l) || (e == CloseLabel(l, true) && l in s.orphans)
    {
      ClosedForgottenSnoc(careful, before, e, l);
    }
  }

  lemma OrphansStay(careful: bool, s: Net, e: Event)
    ensures s.orphans.Keys <= Step(careful, s, e).orphans.Keys
  {
  }

  /**
   Every message and request the connection has accepted for a label has an earlier hello of that
   label with no bye of this side in between, exactly when nothing was sent, while the connection
   lived, on a transport it had forgotten after `close` was called on that transport.
   */
  lemma HelloBeforeMessages(careful: bool, events: seq<Event>)
    ensures Spoken(Reach(careful, events).trace) <==> !Astray(careful, events)
  {
    hide Spoken, Astray;
    AlwaysAnnounced(careful, events);
  }

  /** A label opened again by its own disconnect listener, closed through the forgotten transport, and used. */
  function Stray(name: string): seq<Event> {
    [OpenLabel(name), CloseLabel(name, true), OpenLabel(name), Forget(name), CloseLabel(name, true), SendMsg(name)]
  }

  lemma StrayIsAstray(name: string)
    ensures Astray(false, Stray(name)) && !Spoken(Reach(false, Stray(name)).trace)
  {
    var es := Stray(name);
    var one, two, three, four, five := es[..1], es[..2], es[..3], es[..4], es[..5];
    assert one == [] + [es[0]] && two == one + [es[1]] && three == two + [es[2]] && four == three + [es[3]];
    assert five == four + [es[4]];
    ReachSnoc(false, [], es[0]);
    assert Reach(false, one).tables == map[name := NEW_TABLE] && Reach(false, one).alive;
    ReachSnoc(false, one, es[1]);
    assert Reach(false, two).tables == map[] && Reach(false, two).orphans == map[];
    ReachSnoc(false, two, es[2]);
    ReachSnoc(false, three, es[3]);
    hide Reach;
    assert name in Reach(false, four).orphans && Reach(false, four).alive;
    ReachSnoc(false, four, es[4]);
    assert five[4] == CloseLabel(name, true) && five[..4] == four;
    assert ClosedForgotten(false, five, name) && Reach(false, five).alive;
    assert Speaks(es[5]) && es[5].name == name;
    HelloBeforeMessages(false, es);
  }

  /** Once its socket has closed, a connection accepts nothing more, though labels may still be opened on it. */
  lemma {:induction false} DeadStaysSilent(events: seq<Event>, more: seq<Event>)
    requires !Reach(false, events).alive
    ensures !Reach(false, events + more).alive && Reach(false, events + more).trace == Reach(false, events).trace
    decreases |more|
  {
    hide Reach;
    if more == [] {
      assert events + more == events;
    } else {
      var before, last := more[..|more| - 1], more[|more| - 1];
      DeadStaysSilent(events, before);
      assert events + more == (events + before) + [last];
      ReachSnoc(false, events + before, last);
    }
  }

  /* ------------------------------- forgotten transports ------------------------------- */

  /** What has been answered on a transport. */
  ghost predicate NothingNew(before: Table, after: Table) {
    forall p | p in after.settled && after.settled[p].Answered? :: p in before.settled && before.settled[p] == after.settled[p]
  }

  lemma ForgottenStep(s: Net, e: Event, name: string)
    requires Inv(false, s) && name in s.orphans
    ensures name in Step(false, s, e).orphans && NothingNew(s.orphans[name], Step(false, s, e).orphans[name])
  {
    assert OrphanGood(s, name);
    hide Inv;
  }

  /**
   A call on a forgotten transport is accepted and may be answered, but the answer never reaches it:
   whatever happens from the moment the connection forgets it, no promise of it is settled by an answer.
   */
  lemma {:induction false} ForgottenHearsNothing(events: seq<Event>, more: seq<Event>, name: string)
    requires name in Reach(false, events).orphans
    ensures name in Reach(false, events + more).orphans
    ensures NothingNew(Reach(false, events).orphans[name], Reach(false, events + more).orphans[name])
    decreases |more|
  {
    hide Reach, Step, Inv;
    if more == [] {
      assert events + more == events;
    } else {
      var before, last := more[..|more| - 1], more[|more| - 1];
      ForgottenHearsNothing(events, before, name);
      AlwaysInv(false, events + before);
      ForgottenStep(Reach(false, events + before), last, name);
      assert events + more == (events + before) + [last];
      ReachSnoc(false, events + before, last);
    }
  }

  /* ------------------------------- careful runs ------------------------------- */

  /** No label is opened while requests of its earlier openings are in flight. */
  ghost predicate Careful(events: seq<Event>) {
    forall i | 0 <= i < |events| && events[i].OpenLabel? ::
      forall m | m in Reach(false, events[..i]).inFlight :: m.name != events[i].name
  }

  /** A careful run is the same run under the rule that enforces it. */
  lemma {:induction false} CarefulRun(events: seq<Event>)
    requires Careful(events)
    ensures Reach(true, events) == Reach(false, events)
    decreases |events|
  {
    if events != [] {
      var before := events[..|events| - 1];
      forall i | 0 <= i < |before| && before[i].OpenLabel?
        ensures forall m | m in Reach(false, before[..i]).inFlight :: m.name != before[i].name
      {
        assert before[..i] == events[..i];
      }
      CarefulRun(before);
    }
  }

  /** Some answer settled this promise. */
  ghost predicate AnsweredBy(s: Net, p: Promise) {
    exists q :: (p, q) in s.answers
  }

  ghost predicate Accounted(s: Net) {
    forall l, p | l in s.tables && p in s.tables[l].settled && s.tables[l].settled[p].Answered? :: AnsweredBy(s, p)
  }

  /** Answers are only added, and a table gains an answered promise only with its answer. */
  lemma AccountedMore(s: Net, tables: map<string, Table>, answers: set<(Promise, Promise)>, q: Net)
    requires Accounted(s) && q.tables == tables && q.answers == answers && s.answers <= answers
    requires forall l, p | l in tables && p in tables[l].settled && tables[l].settled[p].Answered? ::
      (l in s.tables && p in s.tables[l].settled && s.tables[l].settled[p].Answered?) || AnsweredBy(q, p)
    ensures Accounted(q)
  {
    forall p: nat | AnsweredBy(s, p) ensures AnsweredBy(q, p) {
      var m :| (p, m) in s.answers;
      assert (p, m) in q.answers;
    }
  }

  lemma AccountedAnswer(s: Net, m: Request, response: Json)
    requires Accounted(s)
    ensures Accounted(Deliver(s, m, response))
  {
    var q := Deliver(s, m, response);
    if m.name in s.tables && m.ack in s.tables[m.name].pending {
      assert (s.tables[m.name].pending[m.ack], m.promise) in q.answers;
      assert AnsweredBy(q, s.tables[m.name].pending[m.ack]);
    }
    hide Accounted, AnsweredBy;
    AccountedMore(s, q.tables, q.answers, q);
  }

  lemma AccountedStep(s: Net, e: Event)
    requires Accounted(s)
    ensures Accounted(Step(false, s, e))
  {
    hide Accounted, AnsweredBy;
    if e.AnswerArrives? {
      var r := s.(inFlight := s.inFlight - {e.request});
      AccountedMore(s, r.tables, r.answers, r);
      AccountedAnswer(s, e.request, e.response);
      AccountedAnswer(r, e.request, e.response);
    } else {
      AccountedMore(s, Step(false, s, e).tables, s.answers, Step(false, s, e));
    }
  }

  lemma {:induction false} AlwaysAccounted(events: seq<Event>)
    ensures Accounted(Reach(false, events))
    decreases |events|
  {
    if events != [] {
      AlwaysAccounted(events[..|events| - 1]);
      AccountedStep(Reach(false, events[..|events| - 1]), events[|events| - 1]);
    }
  }

  /** After a careful run every promise that an answer settled was settled by the answer to its own request. */
  lemma SettledByItsOwn(events: seq<Event>, name: string, p: Promise)
    requires Careful(events) && name in Reach(false, events).tables
    requires var t := Reach(false, events).tables[name]; p in t.settled && t.settled[p].Answered?
    ensures (p, p) in Reach(false, events).answers
    ensures forall q | (p, q) in Reach(false, events).answers :: q == p
  {
    AlwaysAccounted(events);
    assert AnsweredBy(Reach(false, events), p);
    CarefulRun(events);
    forall q | (p, q) in Reach(false, events).answers ensures q == p {
      RpcCorrelation(events, (p, q));
    }
  }
}
