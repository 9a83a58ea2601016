/**
 Writing to one remote port: single-shot writes and multi-chunk transactions that share its
 write window, and the scoped form `with_txn`.
 */
module Txn {
  import opened Common
  import opened Gate

  type Data = seq<Byte>

  /** What travels to the server for one port. */
  datatype Frame =
    | Packet(data: Data)
    | Begin(txn: string)
    | Chunk(txn: string, data: Data)
    | End(txn: string)
    | Abort(txn: string)

  /** The slots a trace of frames takes, in wire order: only packets and ends take one. */
  function Slots(frames: seq<Frame>): seq<Slot> {
    if frames == [] then [] else Slots(frames[..|frames| - 1]) + SlotsOf(frames[|frames| - 1])
  }

  function SlotsOf(f: Frame): seq<Slot> {
    match f
    case Packet(_) => [Single]
    case End(txn) => [EndOf(txn)]
    case _ => []
  }

  function TxnOf(f: Frame): Option<string> {
    match f
    case Packet(_) => None
    case Begin(txn) => Some(txn)
    case Chunk(txn, _) => Some(txn)
    case End(txn) => Some(txn)
    case Abort(txn) => Some(txn)
  }

  /** The frames of one transaction. */
  function Project(frames: seq<Frame>, txn: string): seq<Frame> {
    if frames == [] then []
    else
      var last := frames[|frames| - 1];
      Project(frames[..|frames| - 1], txn) + (if TxnOf(last) == Some(txn) then [last] else [])
  }

  lemma ProjectConcat(frames: seq<Frame>, out: seq<Frame>, txn: string)
    requires |out| <= 1
    ensures Project(frames + out, txn)
         == Project(frames, txn) + (if out != [] && TxnOf(out[0]) == Some(txn) then out else [])
  {
    if out == [] {
      assert frames + out == frames;
    } else {
      assert (frames + out)[..|frames + out| - 1] == frames;
    }
  }

  datatype Phase = Open | Ended | Aborted

  datatype TxnCall = CallWrite(data: Data) | CallEnd | CallAbort

  function NextPhase(phase: Phase, call: TxnCall): Phase {
    if phase != Open then phase
    else match call case CallWrite(_) => Open case CallEnd => Ended case CallAbort => Aborted
  }

  /** What a call on a handle puts on the wire; nothing once the handle is closed. */
  function Emitted(txn: string, phase: Phase, call: TxnCall): seq<Frame> {
    if phase != Open then []
    else match call
      case CallWrite(data) => [Chunk(txn, data)]
      case CallEnd => [End(txn)]
      case CallAbort => [Abort(txn)]
  }

  /* ------------------------------- transaction ids ------------------------------- */

  /** The id given to each transaction, in the order of opening. */
  type Allocator = nat -> string

  /** An allocator that never repeats: the counter, or any source of unique ids. */
  ghost predicate Injective(id: Allocator) {
    forall m: nat, n: nat | id(m) == id(n) :: m == n
  }

  const DIGITS: string := "0123456789"

  /** `String(n)` of a counter value. */
  function Decimal(n: nat): (s: string)
    ensures |s| >= 1
  {
    if n < 10 then [DIGITS[n]] else Decimal(n / 10) + [DIGITS[n % 10]]
  }

  lemma {:induction false} DecimalInjective(m: nat, n: nat)
    requires Decimal(m) == Decimal(n)
    ensures m == n
    decreases m
  {
    var s, t := Decimal(m), Decimal(n);
    assert s[|s| - 1] == DIGITS[m % 10] && t[|t| - 1] == DIGITS[n % 10];
    assert m % 10 == n % 10;
    if m >= 10 && n >= 10 {
      assert s[..|s| - 1] == Decimal(m / 10) && t[..|t| - 1] == Decimal(n / 10);
      DecimalInjective(m / 10, n / 10);
    }
  }

  /** The number a decimal numeral denotes, most significant digit first. */
  function Numeral(s: string): nat
    requires forall i | 0 <= i < |s| :: '0' <= s[i] <= '9'
  {
    if s == "" then 0 else Numeral(s[..|s| - 1]) * 10 + (s[|s| - 1] - '0') as nat
  }

  /** The counter's ids are the decimal numerals without leading zeros. */
  lemma {:induction false} DecimalIsNumeral(n: nat)
    ensures forall i | 0 <= i < |Decimal(n)| :: '0' <= Decimal(n)[i] <= '9'
    ensures Numeral(Decimal(n)) == n && (n > 0 ==> Decimal(n)[0] != '0')
    decreases n
  {
    if n < 10 {
      assert Decimal(n) == "" + [DIGITS[n]];
      NumeralNext("", n);
    } else {
      DecimalIsNumeral(n / 10);
      NumeralNext(Decimal(n / 10), n % 10);
      hide Numeral;
    }
  }

  lemma NumeralNext(init: string, digit: nat)
    requires digit < 10 && forall i | 0 <= i < |init| :: '0' <= init[i] <= '9'
    ensures var s := init + [DIGITS[digit]];
      (forall i | 0 <= i < |s| :: '0' <= s[i] <= '9') && Numeral(s) == Numeral(init) * 10 + digit
  {
    assert (init + [DIGITS[digit]])[..|init|] == init;
    assert '0' <= DIGITS[digit] <= '9' && (DIGITS[digit] - '0') as nat == digit;
  }

  /* ------------------------------ the port and its handles ------------------------------ */

  /** The data path of a socket for one remote port: its frames, its window, its transaction ids. */
  class RemotePort {
    const gate: BackpressureGate
    const id: Allocator
    var sent: seq<Frame>
    var nextTxn: nat

    ghost predicate Valid()
      reads this, gate
    {
      gate.Valid()
    }

    ghost predicate Given(txn: string)
      reads this`nextTxn
    {
      exists k: nat :: k < nextTxn && id(k) == txn
    }

    /** No promise has been queued twice, and each is that of a transaction opened here. */
    ghost predicate Unique()
      reads this`nextTxn, gate`promised
    {
      Distinct(gate.promised) && forall p | p in gate.promised :: Given(p)
    }

    constructor (window: int, id: Allocator)
      requires window >= 1
      ensures Valid() && Unique() && fresh(gate) && gate.window == window && this.id == id
      ensures sent == [] && nextTxn == 0 && gate.ackResolvers == []
    {
      this.id := id;
      gate := new BackpressureGate(window);
      sent, nextTxn := [], 0;
    }

    /** A stream's `write`: the frame goes out, a slot is taken, the window is reported. */
    method Write(data: Data) returns (ok: bool)
      requires Valid()
      modifies this`sent, gate
      ensures Valid() && (old(Unique()) ==> Unique())
      ensures sent == old(sent) + [Packet(data)]
      ensures gate.ackResolvers == old(gate.ackResolvers) + [Single]
      ensures gate.settled == old(gate.settled) && gate.wakes == old(gate.wakes) && gate.promised == old(gate.promised)
      ensures ok <==> |gate.ackResolvers| < gate.window
    {
      sent := sent + [Packet(data)];
      gate.Consume(Single);
      assert Promises([Single]) == [];
      ok := gate.writable;
    }

    /** A frame of any handle, with the slot it takes. */
    method Emit(f: Frame)
      requires Valid()
      modifies this`sent, gate
      ensures Valid() && sent == old(sent) + [f] && gate.settled == old(gate.settled)
      ensures gate.ackResolvers == old(gate.ackResolvers) + SlotsOf(f)
      ensures gate.promised == old(gate.promised) + (if f.End? then [f.txn] else [])
    {
      sent := sent + [f];
      match f
      case Packet(_) =>
        gate.Consume(Single);
        assert Promises([Single]) == [];
      case End(txn) =>
        gate.Consume(EndOf(txn));
        assert Promises([EndOf(txn)]) == [txn];
      case _ =>
    }

    method OpenTxn() returns (handle: TxnHandle)
      requires Valid()
      modifies this
      ensures Valid() && fresh(handle) && handle.port == this
      ensures handle.txn == id(old(nextTxn)) && handle.phase == Open && handle.Valid()
      ensures nextTxn == old(nextTxn) + 1
      ensures sent == old(sent) + [Begin(handle.txn)] && unchanged(gate)
      ensures forall txn | old(Given(txn)) :: Given(txn)
      ensures old(Unique()) && Injective(id) ==> Unique() && handle.Untold()
    {
      var txn := id(nextTxn);
      nextTxn := nextTxn + 1;
      handle := new TxnHandle(txn, this);
      assert Given(txn);
      if old(Unique()) {
        forall p | p in gate.promised ensures Given(p) {
          assert old(Given(p));
          var k: nat :| k < old(nextTxn) && id(k) == p;
          assert k < nextTxn;
        }
      }
    }

    /** A drain from the server; what its listeners write comes after it. */
    method Drain()
      requires Valid()
      modifies gate
      ensures Valid() && (old(Unique()) ==> Unique())
      ensures gate.promised == old(gate.promised)
      ensures gate.settled == old(gate.settled) + Resolutions(Head(old(gate.ackResolvers)))
      ensures gate.freed == old(gate.freed) + (if old(gate.ackResolvers) == [] then [] else [old(gate.ackResolvers)[0]])
    {
      ghost var queue, before := gate.ackResolvers, gate.settled;
      IdleRound(Round([], gate.drainListeners, Acked(queue), before + Resolutions(Head(queue)), gate.wakes));
      var calls := gate.Ack([]);
      assert gate.ackResolvers == Acked(queue);
      if queue == [] {
        assert gate.settled == before;
      } else {
        assert queue == [queue[0]] + queue[1..] && Head(queue) == [queue[0]];
        SettleFirst(before, queue[0], queue[1..]);
      }
      assert gate.promised == old(gate.promised);
      if old(Unique()) {
        forall p | p in gate.promised ensures Given(p) {
          assert old(Given(p));
        }
      }
    }

    /** The socket is disconnected: what is queued is rejected. */
    method Disconnect()
      requires Valid()
      modifies gate
      ensures Valid() && (old(Unique()) ==> Unique())
      ensures gate.promised == old(gate.promised)
      ensures gate.settled == old(gate.settled) + Rejections(old(gate.ackResolvers))
      ensures old(gate.settled) <= gate.settled && AllRejected(gate.settled[|old(gate.settled)|..])
      ensures SettledIds(gate.settled[|old(gate.settled)|..]) == Promises(old(gate.ackResolvers))
      ensures gate.ackResolvers == [] && gate.freed == old(gate.freed) && gate.dropped == old(gate.dropped) + old(gate.ackResolvers)
    {
      gate.Reset();
    }

    /**
     Over the port's whole life an end promise is resolved exactly when an ack found its slot at the
     head of the queue, and rejected exactly when a reset dropped its slot.
     */
    lemma WhoSettles(txn: string)
      requires Valid()
      ensures Resolved(txn) in gate.settled <==> EndOf(txn) in gate.freed
      ensures Rejected(txn) in gate.settled <==> EndOf(txn) in gate.dropped
    {
    }

    /**
     Over the port's whole life, with ids that never repeat, no promise is settled twice and none
     that is still queued has been settled.
     */
    lemma SettledOnce()
      requires Valid() && Unique()
      ensures Distinct(SettledIds(gate.settled)) && Distinct(Promises(gate.ackResolvers))
      ensures forall p :: p in SettledIds(gate.settled) ==> p !in Promises(gate.ackResolvers)
    {
      gate.SettledOnce();
    }
  }

  /** Listeners that do nothing are called, and change nothing else. */
  lemma {:induction false} IdleRound(r: Round)
    ensures Woken(r, []).queue == r.queue && Woken(r, []).settled == r.settled
    decreases |r.ahead|
  {
    if r.ahead != [] {
      IdleRound(Called(r, []));
    }
  }

  class TxnHandle {
    const txn: string
    const port: RemotePort
    var phase: Phase
    var endPromised: bool

    ghost predicate Valid()
      reads this, port, port.gate
    {
      port.Valid() && (endPromised <==> phase == Ended)
    }

    /** The handle's id was given out by the port, and its promise has not been queued before its end. */
    ghost predicate Untold()
      reads this`phase, port`nextTxn, port.gate`promised
    {
      port.Given(txn) && (phase != Ended ==> txn !in port.gate.promised)
    }

    /** Opening a transaction announces it on the wire at once. */
    constructor (txn: string, port: RemotePort)
      requires port.Valid()
      modifies port`sent
      ensures this.txn == txn && this.port == port && phase == Open && Valid()
      ensures port.sent == old(port.sent) + [Begin(txn)]
    {
      this.txn, this.port := txn, port;
      phase, endPromised := Open, false;
      new;
      port.sent := port.sent + [Begin(txn)];
    }

    method Write(data: Data) returns (r: Result<(), Phase>)
      requires Valid()
      modifies port`sent
      ensures Valid()
      ensures port.sent == old(port.sent) + (if phase == Open then [Chunk(txn, data)] else [])
      ensures port.sent == old(port.sent) + Emitted(txn, phase, CallWrite(data))
      ensures r == if phase == Open then Success(()) else Failure(phase)
    {
      if phase != Open {
        return Failure(phase);
      }
      port.sent := port.sent + [Chunk(txn, data)];
      r := Success(());
    }

    /** `end()`: the first call sends the end frame and queues its promise; later ones return it. */
    method End() returns (r: Result<string, Phase>)
      requires Valid()
      modifies this, port`sent, port.gate
      ensures Valid() && phase == (if old(phase) == Aborted then Aborted else Ended) == NextPhase(old(phase), CallEnd)
      ensures port.sent == old(port.sent) + (if old(phase) == Open then [Frame.End(txn)] else [])
      ensures port.sent == old(port.sent) + Emitted(txn, old(phase), CallEnd)
      ensures port.gate.ackResolvers == old(port.gate.ackResolvers) + (if old(phase) == Open then [EndOf(txn)] else [])
      ensures port.gate.settled == old(port.gate.settled)
      ensures port.gate.promised == old(port.gate.promised) + (if old(phase) == Open then [txn] else [])
      ensures old(Untold()) ==> Untold() && (old(port.Unique()) ==> port.Unique())
      ensures r == if old(phase) == Aborted then Failure(Aborted) else Success(txn)
    {
      if endPromised {
        return Success(txn);
      }
      if phase == Aborted {
        return Failure(Aborted);
      }
      phase := Ended;
      port.sent := port.sent + [Frame.End(txn)];
      port.gate.Consume(EndOf(txn));
      assert Promises([EndOf(txn)]) == [txn];
      endPromised := true;
      r := Success(txn);
    }

    method Abort()
      requires Valid()
      modifies this, port`sent
      ensures Valid() && phase == (if old(phase) == Ended then Ended else Aborted) == NextPhase(old(phase), CallAbort)
      ensures port.sent == old(port.sent) + (if old(phase) == Open then [Frame.Abort(txn)] else [])
      ensures port.sent == old(port.sent) + Emitted(txn, old(phase), CallAbort)
      ensures old(Untold()) ==> Untold()
    {
      if phase != Open {
        return;
      }
      phase := Aborted;
      port.sent := port.sent + [Frame.Abort(txn)];
    }
  }

  /* ---------------------------------- with_txn ---------------------------------- */

  /** What else may happen on the port while the callback, or its caller, awaits something. */
  datatype Other = Sends(frame: Frame) | Opens | Drains | Disconnects

  /** A step of the callback; `caught` tells whether the callback catches what the step throws. */
  datatype Action =
    | DoWrite(data: Data, caught: bool)
    | DoEnd(awaited: bool, caught: bool, meanwhile: seq<Other>)
    | DoAbort
    | Await(meanwhile: seq<Other>)

  datatype Ending = Returns | Throws

  datatype Verdict = Returned | Threw | Pending

  /** Everybody else uses their own transactions. */
  ghost predicate Foreign(others: seq<Other>, txn: string) {
    forall i | 0 <= i < |others| && others[i].Sends? :: TxnOf(others[i].frame) != Some(txn)
  }

  ghost predicate Undisturbed(script: seq<Action>, txn: string) {
    forall i | 0 <= i < |script| && (script[i].DoEnd? || script[i].Await?) :: Foreign(script[i].meanwhile, txn)
  }

  /** The writes that precede the first `end` or `abort` of a script. */
  function Chunks(txn: string, script: seq<Action>): seq<Frame> {
    if script == [] || script[0].DoEnd? || script[0].DoAbort? then []
    else (if script[0].DoWrite? then [Chunk(txn, script[0].data)] else []) + Chunks(txn, script[1..])
  }

  /** Whether the first terminal step, or else the way the callback leaves, commits. */
  function Commits(script: seq<Action>, ending: Ending): bool {
    if script == [] then ending.Returns?
    else match script[0]
      case DoWrite(_, _) => Commits(script[1..], ending)
      case Await(_) => Commits(script[1..], ending)
      case DoEnd(_, _, _) => true
      case DoAbort => false
  }

  /** The one frame that closes the transaction. */
  function Terminal(txn: string, commits: bool): Frame {
    if commits then Frame.End(txn) else Frame.Abort(txn)
  }

  /** What a handle in a given phase still has to put on the wire. */
  function Remaining(txn: string, phase: Phase, script: seq<Action>, ending: Ending): seq<Frame> {
    if phase == Open then Chunks(txn, script) + [Terminal(txn, Commits(script, ending))] else []
  }

  function After(phase: Phase, a: Action): Phase {
    match a
    case DoWrite(data, _) => NextPhase(phase, CallWrite(data))
    case DoEnd(_, _, _) => NextPhase(phase, CallEnd)
    case DoAbort => NextPhase(phase, CallAbort)
    case Await(_) => phase
  }

  function Said(txn: string, phase: Phase, a: Action): seq<Frame> {
    match a
    case DoWrite(data, _) => Emitted(txn, phase, CallWrite(data))
    case DoEnd(_, _, _) => Emitted(txn, phase, CallEnd)
    case DoAbort => Emitted(txn, phase, CallAbort)
    case Await(_) => []
  }

  /** A step gets through, as long as the end promise, if it awaits it, resolves. */
  predicate Passes(a: Action, phase: Phase) {
    match a
    case DoWrite(_, caught) => phase == Open || caught
    case DoEnd(awaited, caught, _) => !awaited || phase != Aborted || caught
    case _ => true
  }

  predicate Survives(phase: Phase, script: seq<Action>)
    decreases |script|
  {
    script == [] || (Passes(script[0], phase) && Survives(After(phase, script[0]), script[1..]))
  }

  /** The callback comes to await an end of the transaction that was not aborted, if nothing is settled before. */
  predicate Awaits(phase: Phase, script: seq<Action>)
    decreases |script|
  {
    script != []
    && ((script[0].DoEnd? && script[0].awaited && phase != Aborted)
        || (Passes(script[0], phase) && Awaits(After(phase, script[0]), script[1..])))
  }

  ghost predicate Unsettled(txn: string, settled: seq<Settlement>) {
    Resolved(txn) !in settled && Rejected(txn) !in settled
  }

  /* What a script does, without running it. */

  predicate Closes(a: Action) {
    a.DoEnd? || a.DoAbort?
  }

  /** Some step before this one has ended or aborted the transaction. */
  ghost predicate ClosedBy(script: seq<Action>, i: nat)
    requires i <= |script|
  {
    exists j | 0 <= j < i :: Closes(script[j])
  }

  /** The first step before this one that ends or aborts the transaction aborts it. */
  ghost predicate AbortedBy(script: seq<Action>, i: nat)
    requires i <= |script|
  {
    exists j | 0 <= j < i :: script[j].DoAbort? && forall k | 0 <= k < j :: !Closes(script[k])
  }

  function PhaseAfter(script: seq<Action>): Phase {
    if script == [] then Open else After(PhaseAfter(script[..|script| - 1]), script[|script| - 1])
  }

  lemma {:induction false} PhaseIs(script: seq<Action>, i: nat)
    requires i <= |script|
    ensures PhaseAfter(script[..i]) == Open <==> !ClosedBy(script, i)
    ensures PhaseAfter(script[..i]) == Aborted <==> AbortedBy(script, i)
  {
    if i == 0 {
      assert script[..0] == [];
    } else {
      PhaseIs(script, i - 1);
      assert script[..i][..i - 1] == script[..i - 1] && script[..i][i - 1] == script[i - 1];
      if ClosedBy(script, i - 1) {
        var j :| 0 <= j < i - 1 && Closes(script[j]);
        assert ClosedBy(script, i);
      }
    }
  }

  /** A step goes through where it stands in the script. */
  ghost predicate PassesAt(script: seq<Action>, i: nat)
    requires i < |script|
  {
    match script[i]
    case DoWrite(_, caught) => caught || !ClosedBy(script, i)
    case DoEnd(awaited, caught, _) => !awaited || caught || !AbortedBy(script, i)
    case _ => true
  }

  lemma PassesThere(script: seq<Action>, i: nat)
    requires i < |script|
    ensures Passes(script[i], PhaseAfter(script[..i])) <==> PassesAt(script, i)
    ensures PhaseAfter(script[..i + 1]) == After(PhaseAfter(script[..i]), script[i])
  {
    PhaseIs(script, i);
    assert script[..i + 1][..i] == script[..i];
  }

  lemma {:induction false} SurvivesFrom(script: seq<Action>, i: nat)
    requires i <= |script|
    ensures Survives(PhaseAfter(script[..i]), script[i..]) <==> forall k | i <= k < |script| :: PassesAt(script, k)
    decreases |script| - i
  {
    if i < |script| {
      PassesThere(script, i);
      SurvivesFrom(script, i + 1);
      assert script[i..][0] == script[i] && script[i..][1..] == script[i + 1..];
    }
  }

  /**
   A callback gets through, as far as its own calls go, exactly when it neither writes after closing
   the transaction nor awaits the end of one it has aborted, unless it catches what that throws.
   */
  lemma SurvivesExactly(script: seq<Action>)
    ensures Survives(Open, script) <==> forall k | 0 <= k < |script| :: PassesAt(script, k)
  {
    SurvivesFrom(script, 0);
    assert script[..0] == [] && script[0..] == script;
  }

  ghost predicate GetsFrom(script: seq<Action>, i: nat, k: nat)
    requires i <= k <= |script|
  {
    forall j | i <= j < k :: PassesAt(script, j)
  }

  lemma {:induction false} AwaitsFrom(script: seq<Action>, i: nat)
    requires i <= |script|
    ensures Awaits(PhaseAfter(script[..i]), script[i..])
      <==> exists k | i <= k < |script| :: AwaitsAt(script, k) && GetsFrom(script, i, k)
    decreases |script| - i
  {
    if i < |script| {
      PassesThere(script, i);
      PhaseIs(script, i);
      AwaitsFrom(script, i + 1);
      assert script[i..][0] == script[i] && script[i..][1..] == script[i + 1..];
      assert AwaitsAt(script, i) ==> GetsFrom(script, i, i);
      if PassesAt(script, i) && Awaits(PhaseAfter(script[..i + 1]), script[i + 1..]) {
        var k :| i + 1 <= k < |script| && AwaitsAt(script, k) && GetsFrom(script, i + 1, k);
        assert AwaitsAt(script, k) && GetsFrom(script, i, k);
      }
      if k :| i + 1 <= k < |script| && AwaitsAt(script, k) && GetsFrom(script, i, k) {
        assert AwaitsAt(script, k) && GetsFrom(script, i + 1, k) && PassesAt(script, i);
      }
    }
  }

  ghost predicate AwaitsAt(script: seq<Action>, k: nat)
    requires k < |script|
  {
    script[k].DoEnd? && script[k].awaited && !AbortedBy(script, k)
  }

  /** It comes to await the end exactly when some step awaits it and every step before goes through. */
  lemma AwaitsExactly(script: seq<Action>)
    ensures Awaits(Open, script)
      <==> exists k | 0 <= k < |script| :: AwaitsAt(script, k) && GetsFrom(script, 0, k)
  {
    AwaitsFrom(script, 0);
    assert script[..0] == [] && script[0..] == script;
  }

  lemma {:induction false} CommitsFrom(script: seq<Action>, i: nat, ending: Ending)
    requires i <= |script| && !ClosedBy(script, i)
    ensures Commits(script[i..], ending)
      <==> if ClosedBy(script, |script|) then !AbortedBy(script, |script|) else ending.Returns?
    decreases |script| - i
  {
    if i < |script| {
      assert script[i..][0] == script[i] && script[i..][1..] == script[i + 1..];
      if !Closes(script[i]) {
        CommitsFrom(script, i + 1, ending);
      }
    }
  }

  /** A transaction commits when the first step that closes it is an end, or none does and the callback returns. */
  lemma CommitsExactly(script: seq<Action>, ending: Ending)
    ensures Commits(script, ending)
      <==> if ClosedBy(script, |script|) then !AbortedBy(script, |script|) else ending.Returns?
  {
    CommitsFrom(script, 0, ending);
    assert script[0..] == script;
  }

  /** The chunks are the writes before the closing step, one by one. */
  lemma ChunksExactly(txn: string, a: Action, rest: seq<Action>)
    ensures Chunks(txn, []) == []
    ensures a.DoWrite? ==> Chunks(txn, [a] + rest) == [Chunk(txn, a.data)] + Chunks(txn, rest)
    ensures a.Await? ==> Chunks(txn, [a] + rest) == Chunks(txn, rest)
    ensures Closes(a) ==> Chunks(txn, [a] + rest) == []
  {
    assert ([a] + rest)[1..] == rest;
  }

  /** A handle of this port, whose promise is queued exactly once it has ended. */
  ghost predicate Sound(handle: TxnHandle)
    reads handle, handle.port, handle.port.gate
  {
    && handle.Valid() && Injective(handle.port.id) && handle.port.Given(handle.txn)
    && multiset(handle.port.gate.promised)[handle.txn] == (if handle.phase == Ended then 1 else 0)
  }

  method Happens(handle: TxnHandle, other: Other)
    requires Sound(handle) && (other.Sends? ==> TxnOf(other.frame) != Some(handle.txn))
    modifies handle.port, handle.port.gate
    ensures Sound(handle)
    ensures Project(handle.port.sent, handle.txn) == Project(old(handle.port.sent), handle.txn)
    ensures old(handle.port.gate.settled) <= handle.port.gate.settled
  {
    var port := handle.port;
    match other
    case Sends(f) =>
      ProjectConcat(port.sent, [f], handle.txn);
      port.Emit(f);
    case Opens =>
      ProjectConcat(port.sent, [Begin(port.id(port.nextTxn))], handle.txn);
      var another := port.OpenTxn();
    case Drains => port.Drain();
    case Disconnects => port.Disconnect();
  }

  method Elsewhere(handle: TxnHandle, others: seq<Other>)
    requires Sound(handle) && Foreign(others, handle.txn)
    modifies handle.port, handle.port.gate
    ensures Sound(handle)
    ensures Project(handle.port.sent, handle.txn) == Project(old(handle.port.sent), handle.txn)
    ensures old(handle.port.gate.settled) <= handle.port.gate.settled
  {
    for i := 0 to |others|
      invariant Sound(handle)
      invariant Project(handle.port.sent, handle.txn) == Project(old(handle.port.sent), handle.txn)
      invariant old(handle.port.gate.settled) <= handle.port.gate.settled
    {
      Happens(handle, others[i]);
    }
  }

  /** The end promise is awaited: it resolves, rejects, or is still waiting when nothing more happens. */
  method Settle(handle: TxnHandle, meanwhile: seq<Other>) returns (verdict: Verdict)
    requires Sound(handle) && Foreign(meanwhile, handle.txn)
    modifies handle.port, handle.port.gate
    ensures Sound(handle)
    ensures Project(handle.port.sent, handle.txn) == Project(old(handle.port.sent), handle.txn)
    ensures old(handle.port.gate.settled) <= handle.port.gate.settled
    ensures verdict == if Resolved(handle.txn) in handle.port.gate.settled then Returned
                       else if Rejected(handle.txn) in handle.port.gate.settled then Threw
                       else Pending
  {
    Elsewhere(handle, meanwhile);
    verdict := if Resolved(handle.txn) in handle.port.gate.settled then Returned
               else if Rejected(handle.txn) in handle.port.gate.settled then Threw
               else Pending;
  }

  /** One call on the handle; whether it failed. */
  method Call(handle: TxnHandle, call: TxnCall) returns (failed: bool)
    requires Sound(handle)
    modifies handle, handle.port, handle.port.gate
    ensures Sound(handle) && handle.phase == NextPhase(old(handle.phase), call)
    ensures Project(handle.port.sent, handle.txn)
         == Project(old(handle.port.sent), handle.txn) + Emitted(handle.txn, old(handle.phase), call)
    ensures handle.port.gate.settled == old(handle.port.gate.settled)
    ensures failed <==> match call
      case CallWrite(_) => old(handle.phase) != Open
      case CallEnd => old(handle.phase) == Aborted
      case CallAbort => false
  {
    hide Project, BackpressureGate.Valid, Injective;
    ProjectConcat(handle.port.sent, Emitted(handle.txn, handle.phase, call), handle.txn);
    failed := false;
    match call
    case CallWrite(data) =>
      var r := handle.Write(data);
      failed := r.Failure?;
    case CallEnd =>
      var r := handle.End();
      failed := r.Failure?;
    case CallAbort => handle.Abort();
  }

  method Act(handle: TxnHandle, a: Action) returns (verdict: Verdict)
    requires Sound(handle) && Undisturbed([a], handle.txn)
    modifies handle, handle.port, handle.port.gate
    ensures Sound(handle) && handle.phase == After(old(handle.phase), a)
    ensures Project(handle.port.sent, handle.txn)
         == Project(old(handle.port.sent), handle.txn) + Said(handle.txn, old(handle.phase), a)
    ensures old(handle.port.gate.settled) <= handle.port.gate.settled
    ensures a.DoWrite? ==> verdict == if old(handle.phase) == Open || a.caught then Returned else Threw
    ensures a.DoAbort? || a.Await? || (a.DoEnd? && !a.awaited) ==> verdict == Returned
    ensures a.DoEnd? && a.awaited ==>
      verdict == if old(handle.phase) != Aborted && Resolved(handle.txn) in handle.port.gate.settled then Returned
                 else if old(handle.phase) != Aborted && Rejected(handle.txn) !in handle.port.gate.settled then Pending
                 else if a.caught then Returned else Threw
  {
    hide Project, Sound, Foreign;
    assert a == [a][0];
    verdict := Returned;
    match a
    case DoWrite(data, caught) =>
      var failed := Call(handle, CallWrite(data));
      verdict := if failed && !caught then Threw else Returned;
    case DoEnd(awaited, caught, meanwhile) =>
      var failed := Call(handle, CallEnd);
      if awaited {
        if failed {
          verdict := Threw;
        } else {
          verdict := Settle(handle, meanwhile);
        }
        if verdict.Threw? && caught {
          verdict := Returned;
        }
      }
    case DoAbort =>
      var failed := Call(handle, CallAbort);
    case Await(meanwhile) => Elsewhere(handle, meanwhile);
  }

  /**
   How far a callback has got: what it has emitted and what remains make up the whole word, and
   the rest of the script decides what the whole script decides.
   */
  ghost predicate Progress(txn: string, script: seq<Action>, ending: Ending, phase: Phase, emitted: seq<Frame>,
                           rest: seq<Action>, verdict: Verdict, settled: seq<Settlement>)
  {
    && emitted + Remaining(txn, phase, rest, ending) == Remaining(txn, Open, script, ending)
    && (Commits(script, ending) <==> (if phase == Open then Commits(rest, ending) else phase == Ended))
    && (verdict.Returned? ==> (Survives(Open, script) <==> Survives(phase, rest)))
    && (verdict.Threw? ==> phase != Open && (!Survives(Open, script) || Rejected(txn) in settled))
    && (verdict.Pending? ==> phase == Ended && Unsettled(txn, settled))
    && (Unsettled(txn, settled) ==>
          match verdict
          case Returned => Awaits(Open, script) <==> Awaits(phase, rest)
          case Threw => !Awaits(Open, script)
          case Pending => Awaits(Open, script))
  }

  /** One step emits exactly what it takes off the remaining word. */
  lemma RemainingStep(txn: string, phase: Phase, script: seq<Action>, ending: Ending)
    requires script != []
    ensures Remaining(txn, phase, script, ending)
         == Said(txn, phase, script[0]) + Remaining(txn, After(phase, script[0]), script[1..], ending)
  {
    if phase == Open && (script[0].DoWrite? || script[0].Await?) {
      var said, later, last := Said(txn, Open, script[0]), Chunks(txn, script[1..]), [Terminal(txn, Commits(script, ending))];
      assert Chunks(txn, script) == said + later && Commits(script, ending) == Commits(script[1..], ending);
      assert (said + later) + last == said + (later + last);
    }
  }

  lemma ProgressStart(txn: string, script: seq<Action>, ending: Ending, settled: seq<Settlement>)
    ensures Progress(txn, script, ending, Open, [], script, Returned, settled)
  {
  }

  lemma ProgressLeft(txn: string, script: seq<Action>, ending: Ending, phase: Phase, emitted: seq<Frame>,
                     rest: seq<Action>, verdict: Verdict, settled: seq<Settlement>)
    requires Progress(txn, script, ending, phase, emitted, rest, verdict, settled)
    ensures !verdict.Returned? ==> phase != Open
  {
  }

  /** What the callback left behind and how the end was awaited decide the result of the whole. */
  lemma ProgressEnd(txn: string, script: seq<Action>, ending: Ending, phase: Phase, emitted: seq<Frame>, rest: seq<Action>,
                    left: Verdict, before: seq<Settlement>, settled: seq<Settlement>)
    requires Progress(txn, script, ending, phase, emitted, rest, left, before) && (left.Returned? ==> rest == [])
    requires before <= settled && (!left.Returned? ==> settled == before)
    requires Resolved(txn) in settled ==> Rejected(txn) !in settled
    ensures Unsettled(txn, settled) ==>
      (left.Pending? || (left.Returned? && ending.Returns? && phase != Aborted)
       <==> Awaits(Open, script) || (ending.Returns? && Commits(script, ending) && Survives(Open, script)))
    ensures left.Pending? ==> Unsettled(txn, settled)
    ensures emitted + Remaining(txn, phase, [], ending) == Chunks(txn, script) + [Terminal(txn, Commits(script, ending))]
    ensures Commits(script, ending) <==> (if phase == Open then ending.Returns? else phase == Ended)
    ensures left.Returned? && ending.Returns? && phase != Aborted && Resolved(txn) in settled
      <==> ending.Returns? && Commits(script, ending) && Survives(Open, script) && Resolved(txn) in settled
  {
    hide Chunks, Commits, Survives, Awaits;
    CommitsNothing(ending);
    assert Unsettled(txn, settled) ==> Unsettled(txn, before);
  }

  lemma CommitsNothing(ending: Ending)
    ensures Commits([], ending) <==> ending.Returns?
    ensures Survives(Open, []) && Survives(Ended, []) && Survives(Aborted, [])
    ensures !Awaits(Open, []) && !Awaits(Ended, []) && !Awaits(Aborted, [])
  {
  }

  lemma ProgressStep(txn: string, script: seq<Action>, ending: Ending, phase: Phase, emitted: seq<Frame>,
                     rest: seq<Action>, before: seq<Settlement>, verdict: Verdict, settled: seq<Settlement>)
    requires rest != [] && Progress(txn, script, ending, phase, emitted, rest, Returned, before) && before <= settled
    requires rest[0].DoWrite? ==> verdict == if phase == Open || rest[0].caught then Returned else Threw
    requires rest[0].DoAbort? || rest[0].Await? || (rest[0].DoEnd? && !rest[0].awaited) ==> verdict == Returned
    requires rest[0].DoEnd? && rest[0].awaited ==>
      verdict == if phase != Aborted && Resolved(txn) in settled then Returned
                 else if phase != Aborted && Rejected(txn) !in settled then Pending
                 else if rest[0].caught then Returned else Threw
    ensures Progress(txn, script, ending, After(phase, rest[0]), emitted + Said(txn, phase, rest[0]), rest[1..],
                     verdict, settled)
  {
    hide Remaining, Survives, Commits, Awaits;
    RemainingStep(txn, phase, rest, ending);
    OneStep(phase, rest, ending);
    assert Unsettled(txn, settled) ==> Unsettled(txn, before);
  }

  lemma OneStep(phase: Phase, rest: seq<Action>, ending: Ending)
    requires rest != []
    ensures Survives(phase, rest) <==> Passes(rest[0], phase) && Survives(After(phase, rest[0]), rest[1..])
    ensures Commits(rest, ending)
      <==> rest[0].DoEnd? || (!rest[0].DoAbort? && Commits(rest[1..], ending))
    ensures Awaits(phase, rest)
      <==> (rest[0].DoEnd? && rest[0].awaited && phase != Aborted)
           || (Passes(rest[0], phase) && Awaits(After(phase, rest[0]), rest[1..]))
  {
  }

  /** The callback itself, from a freshly opened handle. */
  method RunCallback(handle: TxnHandle, script: seq<Action>, ghost ending: Ending)
    returns (verdict: Verdict, ghost emitted: seq<Frame>, ghost rest: seq<Action>)
    requires Sound(handle) && handle.phase == Open && Undisturbed(script, handle.txn)
    modifies handle, handle.port, handle.port.gate
    ensures Sound(handle)
    ensures Project(handle.port.sent, handle.txn) == Project(old(handle.port.sent), handle.txn) + emitted
    ensures Progress(handle.txn, script, ending, handle.phase, emitted, rest, verdict, handle.port.gate.settled)
    ensures if verdict.Returned? then rest == [] else handle.phase != Open
  {
    hide Project, Sound, Foreign, Progress;
    verdict := Returned;
    var i := 0;
    emitted, rest := [], script;
    ProgressStart(handle.txn, script, ending, handle.port.gate.settled);
    while i < |script| && verdict.Returned?
      invariant 0 <= i <= |script| && rest == script[i..]
      invariant Sound(handle)
      invariant Project(handle.port.sent, handle.txn) == Project(old(handle.port.sent), handle.txn) + emitted
      invariant Progress(handle.txn, script, ending, handle.phase, emitted, rest, verdict, handle.port.gate.settled)
      decreases |script| - i
    {
      ghost var phase, before := handle.phase, handle.port.gate.settled;
      assert [script[i]][0] == script[i];
      verdict := Act(handle, script[i]);
      ProgressStep(handle.txn, script, ending, phase, emitted, rest, before, verdict, handle.port.gate.settled);
      emitted := emitted + Said(handle.txn, phase, script[i]);
      rest := rest[1..];
      i := i + 1;
    }
    ProgressLeft(handle.txn, script, ending, handle.phase, emitted, rest, verdict, handle.port.gate.settled);
  }

  /** What follows the callback: the implicit end, and the abort when anything was thrown. */
  method Finish(handle: TxnHandle, left: Verdict, ending: Ending, meanwhile: seq<Other>) returns (verdict: Verdict)
    requires Sound(handle) && Foreign(meanwhile, handle.txn) && (!left.Returned? ==> handle.phase != Open)
    modifies handle, handle.port, handle.port.gate
    ensures Sound(handle)
    ensures Project(handle.port.sent, handle.txn)
         == Project(old(handle.port.sent), handle.txn) + Remaining(handle.txn, old(handle.phase), [], ending)
    ensures old(handle.port.gate.settled) <= handle.port.gate.settled
    ensures !left.Returned? ==> handle.port.gate.settled == old(handle.port.gate.settled)
    ensures handle.phase == if old(handle.phase) != Open then old(handle.phase) else if ending.Returns? then Ended else Aborted
    ensures verdict == if !left.Returned? then left
                       else if ending.Throws? || old(handle.phase) == Aborted then Threw
                       else if Resolved(handle.txn) in handle.port.gate.settled then Returned
                       else if Rejected(handle.txn) in handle.port.gate.settled then Threw
                       else Pending
  {
    hide Project, Sound, Foreign;
    verdict := left;
    if verdict.Returned? {
      if ending.Throws? {
        verdict := Threw;
      } else {
        var a := DoEnd(true, false, meanwhile);
        assert [a][0] == a;
        verdict := Act(handle, a);
      }
    }
    if verdict.Threw? {
      var failed := Call(handle, CallAbort);
    }
  }

  /**
   `with_txn`: whatever the callback does and whatever else happens on the port meanwhile, the
   transaction's frames are its begin, the writes made while it was open, and exactly one closing
   frame. A value comes back exactly when that frame is the end frame, the callback itself got
   through, and the server's drain has resolved the end promise; the caller waits on exactly when
   the end is awaited, by the callback or after it, and neither a drain nor a reset has settled it;
   in every other case the call throws.
   */
  method WithTxn(port: RemotePort, script: seq<Action>, ending: Ending, meanwhile: seq<Other>)
    returns (verdict: Verdict, txn: string)
    requires port.Valid() && port.Unique() && Injective(port.id)
    requires Undisturbed(script, port.id(port.nextTxn)) && Foreign(meanwhile, port.id(port.nextTxn))
    modifies port, port.gate
    ensures port.Valid() && txn == port.id(old(port.nextTxn))
    ensures Project(port.sent, txn)
         == Project(old(port.sent), txn) + [Begin(txn)] + Chunks(txn, script) + [Terminal(txn, Commits(script, ending))]
    ensures multiset(port.gate.promised)[txn] == (if Commits(script, ending) then 1 else 0)
    ensures verdict.Returned? <==>
      ending.Returns? && Commits(script, ending) && Survives(Open, script) && Resolved(txn) in port.gate.settled
    ensures verdict.Returned? ==> EndOf(txn) in port.gate.freed
    ensures verdict.Pending? <==>
      Unsettled(txn, port.gate.settled)
      && (Awaits(Open, script) || (ending.Returns? && Commits(script, ending) && Survives(Open, script)))
    ensures ending.Throws? && !Awaits(Open, script) ==> verdict.Threw?
  {
    hide Project, Sound, Foreign, Undisturbed, Chunks, Commits, Survives, Progress, Remaining, Terminal, Injective, Awaits;
    hide BackpressureGate.Valid, RemotePort.Unique;
    var handle := Announce(port);
    txn := handle.txn;
    ghost var begun := Project(port.sent, txn);
    ghost var emitted, rest;
    verdict, emitted, rest := RunCallback(handle, script, ending);
    ghost var left, phase, before := verdict, handle.phase, port.gate.settled;
    verdict := Finish(handle, verdict, ending, meanwhile);
    SoundMeans(handle);
    ProgressEnd(txn, script, ending, phase, emitted, rest, left, before, port.gate.settled);
    Joined(begun, emitted, Remaining(txn, phase, [], ending), Chunks(txn, script), [Terminal(txn, Commits(script, ending))]);
  }

  lemma Joined(begun: seq<Frame>, emitted: seq<Frame>, remaining: seq<Frame>, chunks: seq<Frame>, last: seq<Frame>)
    requires emitted + remaining == chunks + last
    ensures begun + emitted + remaining == begun + chunks + last
  {
    assert begun + emitted + remaining == begun + (emitted + remaining);
    assert begun + (chunks + last) == begun + chunks + last;
  }

  method Announce(port: RemotePort) returns (handle: TxnHandle)
    requires port.Valid() && port.Unique() && Injective(port.id)
    modifies port
    ensures fresh(handle) && handle.port == port && handle.txn == port.id(old(port.nextTxn))
    ensures Sound(handle) && handle.phase == Open
    ensures Project(port.sent, handle.txn) == Project(old(port.sent), handle.txn) + [Begin(handle.txn)]
  {
    ProjectConcat(port.sent, [Begin(port.id(port.nextTxn))], port.id(port.nextTxn));
    handle := port.OpenTxn();
    assert handle.txn !in multiset(port.gate.promised);
  }

  lemma SoundMeans(handle: TxnHandle)
    requires Sound(handle)
    ensures handle.port.Valid()
    ensures multiset(handle.port.gate.promised)[handle.txn] == (if handle.phase == Ended then 1 else 0)
    ensures Resolved(handle.txn) in handle.port.gate.settled ==> Rejected(handle.txn) !in handle.port.gate.settled
    ensures Resolved(handle.txn) in handle.port.gate.settled ==> EndOf(handle.txn) in handle.port.gate.freed
  {
    handle.port.gate.OneFate(handle.txn);
  }
}
