/**
 Atomicity of transactions: the wire trace of any interleaving of single-shot writes and open
 handles, run through the server's per-transaction reassembly, against what the calls meant.
 */
module Atomicity {
  import opened Txn

  /** What the application calls. Handles are numbered in the order in which they were opened. */
  datatype Call =
    | WriteOnce(data: Data)
    | OpenHandle
    | OnHandle(handle: nat, call: TxnCall)

  /** The client side: one phase per handle, and everything put on the wire. */
  datatype Client = Client(phases: seq<Phase>, sent: seq<Frame>)

  const NEW_CLIENT := Client([], [])

  predicate CanMake(c: Client, call: Call) {
    call.OnHandle? ==> call.handle < |c.phases|
  }

  lemma CounterIsInjective()
    ensures Injective(Decimal)
  {
    forall m: nat, n: nat | Decimal(m) == Decimal(n) ensures m == n {
      DecimalInjective(m, n);
    }
  }

  /** The frames of one call. */
  function Output(id: Allocator, c: Client, call: Call): seq<Frame>
    requires CanMake(c, call)
  {
    match call
    case WriteOnce(data) => [Packet(data)]
    case OpenHandle => [Begin(id(|c.phases|))]
    case OnHandle(h, inner) => Emitted(id(h), c.phases[h], inner)
  }

  function Make(id: Allocator, c: Client, call: Call): Client
    requires CanMake(c, call)
  {
    var sent := c.sent + Output(id, c, call);
    match call
    case WriteOnce(_) => Client(c.phases, sent)
    case OpenHandle => Client(c.phases + [Open], sent)
    case OnHandle(h, inner) => Client(c.phases[h := NextPhase(c.phases[h], inner)], sent)
  }

  /** How many handles a list of calls has opened. */
  function Opened(calls: seq<Call>): nat {
    if calls == [] then 0
    else Opened(calls[..|calls| - 1]) + (if calls[|calls| - 1].OpenHandle? then 1 else 0)
  }

  /** Calls are only made on handles that exist by then. */
  ghost predicate Possible(calls: seq<Call>) {
    forall i | 0 <= i < |calls| && calls[i].OnHandle? :: calls[i].handle < Opened(calls[..i])
  }

  function Run(id: Allocator, calls: seq<Call>): (c: Client)
    requires Possible(calls)
    ensures |c.phases| == Opened(calls)
  {
    if calls == [] then NEW_CLIENT
    else
      PossiblePrefix(calls);
      Make(id, Run(id, calls[..|calls| - 1]), calls[|calls| - 1])
  }

  lemma PossiblePrefix(calls: seq<Call>)
    requires Possible(calls) && calls != []
    ensures Possible(calls[..|calls| - 1])
    ensures calls[|calls| - 1].OnHandle? ==> calls[|calls| - 1].handle < Opened(calls[..|calls| - 1])
  {
    var init := calls[..|calls| - 1];
    forall i | 0 <= i < |init| && init[i].OnHandle? ensures init[i].handle < Opened(init[..i]) {
      assert init[..i] == calls[..i] && init[i] == calls[i];
    }
  }

  /* ------------------------------- the server's reassembly ------------------------------- */

  /** Buffered transactions and the writes that reached the device, in order. */
  datatype Server = Server(buffers: map<string, Data>, device: seq<Data>)

  /** Buffer on chunk, write on end, drop on abort; frames of an unknown transaction do nothing. */
  function Receive(s: Server, f: Frame): Server {
    match f
    case Packet(data) => s.(device := s.device + [data])
    case Begin(txn) => s.(buffers := s.buffers[txn := []])
    case Chunk(txn, data) =>
      if txn in s.buffers then s.(buffers := s.buffers[txn := s.buffers[txn] + data]) else s
    case End(txn) =>
      if txn in s.buffers then Server(s.buffers - {txn}, s.device + [s.buffers[txn]]) else s
    case Abort(txn) => s.(buffers := s.buffers - {txn})
  }

  function Reassemble(frames: seq<Frame>): Server {
    if frames == [] then Server(map[], [])
    else Receive(Reassemble(frames[..|frames| - 1]), frames[|frames| - 1])
  }

  /* --------------------------------- what the calls meant --------------------------------- */

  /** Whether some call has ended or aborted a handle. */
  predicate Closed(calls: seq<Call>, h: nat) {
    exists i | 0 <= i < |calls| :: Closes(calls[i], h)
  }

  predicate Closes(call: Call, h: nat) {
    call == OnHandle(h, CallEnd) || call == OnHandle(h, CallAbort)
  }

  function WrittenBy(call: Call, h: nat): Data {
    if call.OnHandle? && call.handle == h && call.call.CallWrite? then call.call.data else []
  }

  /** Everything written on a handle, in order. */
  function Written(calls: seq<Call>, h: nat): Data {
    if calls == [] then []
    else Written(calls[..|calls| - 1], h) + WrittenBy(calls[|calls| - 1], h)
  }

  /**
   The device writes the calls asked for: each single-shot write, and for each handle the
   concatenation of its writes at the moment it is ended, if it was not closed before.
   */
  function Intended(calls: seq<Call>): seq<Data> {
    if calls == [] then []
    else
      var before, last := calls[..|calls| - 1], calls[|calls| - 1];
      Intended(before) + Contribution(before, last)
  }

  function Contribution(before: seq<Call>, last: Call): seq<Data> {
    if last.WriteOnce? then [last.data]
    else if last.OnHandle? && last.call.CallEnd? && !Closed(before, last.handle) then [Written(before, last.handle)]
    else []
  }

  /* --------------------------------------- proof --------------------------------------- */

  lemma ClosedSnoc(before: seq<Call>, last: Call, h: nat)
    ensures Closed(before + [last], h) <==> Closed(before, h) || Closes(last, h)
  {
    var calls := before + [last];
    if Closed(before, h) {
      var i :| 0 <= i < |before| && Closes(before[i], h);
      assert calls[i] == before[i];
    }
    assert calls[|before|] == last;
  }

  lemma {:induction false} PhaseOpen(id: Allocator, calls: seq<Call>)
    requires Possible(calls)
    ensures forall h | 0 <= h < Opened(calls) :: Run(id, calls).phases[h] == Open <==> !Closed(calls, h)
    ensures forall h | Opened(calls) <= h :: !Closed(calls, h) && Written(calls, h) == []
    decreases |calls|
  {
    if calls != [] {
      var before, last := calls[..|calls| - 1], calls[|calls| - 1];
      PossiblePrefix(calls);
      PhaseOpen(id, before);
      assert calls == before + [last];
      forall h: nat {
        ClosedSnoc(before, last, h);
      }
    }
  }

  /** The server's state is what the calls say about each handle. */
  ghost predicate Mirrors(id: Allocator, s: Server, calls: seq<Call>)
  {
    && s.device == Intended(calls)
    && (forall h: nat | h < Opened(calls) :: id(h) in s.buffers <==> !Closed(calls, h))
    && (forall h: nat | h < Opened(calls) && !Closed(calls, h) :: s.buffers[id(h)] == Written(calls, h))
  }

  lemma {:induction false} ReassembleConcat(a: seq<Frame>, b: seq<Frame>)
    requires |b| <= 1
    ensures Reassemble(a + b) == if b == [] then Reassemble(a) else Receive(Reassemble(a), b[0])
  {
    if b == [] {
      assert a + b == a;
    } else {
      assert (a + b)[..|a + b| - 1] == a;
    }
  }

  /** How one more call changes what was opened, closed and written. */
  lemma Snoc(before: seq<Call>, last: Call)
    ensures Opened(before + [last]) == Opened(before) + (if last.OpenHandle? then 1 else 0)
    ensures Intended(before + [last]) == Intended(before) + Contribution(before, last)
    ensures forall h: nat :: Written(before + [last], h) == Written(before, h) + WrittenBy(last, h)
    ensures forall h: nat :: Closed(before + [last], h) <==> Closed(before, h) || Closes(last, h)
  {
    var calls := before + [last];
    assert calls[..|calls| - 1] == before;
    forall h: nat {
      ClosedSnoc(before, last, h);
    }
  }

  lemma MirrorsWriteOnce(id: Allocator, s: Server, before: seq<Call>, data: Data)
    requires Injective(id) && Mirrors(id, s, before)
    ensures Mirrors(id, Receive(s, Packet(data)), before + [WriteOnce(data)])
  {
    hide Closed, Written, Opened, Intended;
    Snoc(before, WriteOnce(data));
  }

  lemma MirrorsOpen(id: Allocator, s: Server, before: seq<Call>)
    requires Injective(id) && Mirrors(id, s, before)
    requires !Closed(before, Opened(before)) && Written(before, Opened(before)) == []
    ensures Mirrors(id, Receive(s, Begin(id(Opened(before)))), before + [OpenHandle])
  {
    hide Closed, Written, Opened, Intended;
    Snoc(before, OpenHandle);
  }

  /** A call on a closed handle says nothing and means nothing. */
  lemma MirrorsClosed(id: Allocator, s: Server, before: seq<Call>, h: nat, inner: TxnCall)
    requires Injective(id) && Mirrors(id, s, before)
    requires Closed(before, h)
    ensures Mirrors(id, s, before + [OnHandle(h, inner)])
  {
    hide Closed, Written, Opened, Intended;
    Snoc(before, OnHandle(h, inner));
  }

  lemma MirrorsOpenHandle(id: Allocator, s: Server, before: seq<Call>, h: nat, inner: TxnCall)
    requires Injective(id) && Mirrors(id, s, before)
    requires h < Opened(before) && !Closed(before, h)
    ensures Mirrors(id, Receive(s, Emitted(id(h), Open, inner)[0]), before + [OnHandle(h, inner)])
  {
    match inner
    case CallWrite(data) => MirrorsChunk(id, s, before, h, data);
    case CallEnd => MirrorsEnd(id, s, before, h);
    case CallAbort => MirrorsAbort(id, s, before, h);
  }

  lemma MirrorsChunk(id: Allocator, s: Server, before: seq<Call>, h: nat, data: Data)
    requires Injective(id) && Mirrors(id, s, before)
    requires h < Opened(before) && !Closed(before, h)
    ensures Mirrors(id, Receive(s, Chunk(id(h), data)), before + [OnHandle(h, CallWrite(data))])
  {
    hide Closed, Written, Opened, Intended;
    Snoc(before, OnHandle(h, CallWrite(data)));
  }

  lemma MirrorsEnd(id: Allocator, s: Server, before: seq<Call>, h: nat)
    requires Injective(id) && Mirrors(id, s, before)
    requires h < Opened(before) && !Closed(before, h)
    ensures Mirrors(id, Receive(s, End(id(h))), before + [OnHandle(h, CallEnd)])
  {
    hide Closed, Written, Opened, Intended;
    Snoc(before, OnHandle(h, CallEnd));
  }

  lemma MirrorsAbort(id: Allocator, s: Server, before: seq<Call>, h: nat)
    requires Injective(id) && Mirrors(id, s, before)
    requires h < Opened(before) && !Closed(before, h)
    ensures Mirrors(id, Receive(s, Abort(id(h))), before + [OnHandle(h, CallAbort)])
  {
    hide Closed, Written, Opened, Intended;
    Snoc(before, OnHandle(h, CallAbort));
  }

  lemma MirrorsStep(id: Allocator, s: Server, before: seq<Call>, last: Call)
    requires Possible(before) && Possible(before + [last]) && Injective(id) && Mirrors(id, s, before)
    requires CanMake(Run(id, before), last)
    ensures
      var out := Output(id, Run(id, before), last);
      Mirrors(id, if out == [] then s else Receive(s, out[0]), before + [last])
  {
    match last
    case WriteOnce(data) => MirrorsWriteOnce(id, s, before, data);
    case OpenHandle =>
      PhaseOpen(id, before);
      MirrorsOpen(id, s, before);
    case OnHandle(h, inner) =>
      PhaseOpen(id, before);
      if Closed(before, h) {
        MirrorsClosed(id, s, before, h, inner);
      } else {
        MirrorsOpenHandle(id, s, before, h, inner);
      }
  }

  lemma MirrorsSnoc(id: Allocator, before: seq<Call>, last: Call)
    requires Possible(before) && (last.OnHandle? ==> last.handle < Opened(before)) && Injective(id)
    requires Mirrors(id, Reassemble(Run(id, before).sent), before)
    ensures Possible(before + [last]) && Mirrors(id, Reassemble(Run(id, before + [last]).sent), before + [last])
  {
    hide Possible, Mirrors, Reassemble, Run;
    MakeSnoc(id, before, last);
    var c := Run(id, before);
    ReassembleConcat(c.sent, Output(id, c, last));
    MirrorsStep(id, Reassemble(c.sent), before, last);
  }

  lemma MirrorsNothing(id: Allocator)
    ensures Possible([]) && Mirrors(id, Reassemble(Run(id, []).sent), [])
  {
  }

  lemma {:induction false} AlwaysMirrors(id: Allocator, calls: seq<Call>)
    requires Possible(calls) && Injective(id)
    ensures Mirrors(id, Reassemble(Run(id, calls).sent), calls)
    decreases |calls|
  {
    hide Possible, Mirrors, Reassemble, Run;
    if calls == [] {
      MirrorsNothing(id);
    } else {
      var before, last := calls[..|calls| - 1], calls[|calls| - 1];
      PossiblePrefix(calls);
      AlwaysMirrors(id, before);
      MirrorsSnoc(id, before, last);
      assert before + [last] == calls;
    }
  }

  /**
   For every possible list of calls the device gets exactly what the calls asked for, in order:
   no byte of an aborted or unfinished transaction, and each ended one whole.
   */
  lemma TransactionAtomicity(id: Allocator, calls: seq<Call>)
    requires Possible(calls) && Injective(id)
    ensures Reassemble(Run(id, calls).sent).device == Intended(calls)
  {
    AlwaysMirrors(id, calls);
  }

  /* --------------------------- the ids must not repeat --------------------------- */

  lemma PossibleSnoc(calls: seq<Call>, last: Call)
    requires Possible(calls) && (last.OnHandle? ==> last.handle < Opened(calls))
    ensures Possible(calls + [last])
  {
    var more := calls + [last];
    forall i | 0 <= i < |more| && more[i].OnHandle? ensures more[i].handle < Opened(more[..i]) {
      assert more[..i] == calls[..i];
      if i == |calls| { assert calls[..i] == calls; }
    }
  }

  lemma MakeSnoc(id: Allocator, calls: seq<Call>, last: Call)
    requires Possible(calls) && (last.OnHandle? ==> last.handle < Opened(calls))
    ensures Possible(calls + [last]) && Run(id, calls + [last]) == Make(id, Run(id, calls), last)
  {
    PossibleSnoc(calls, last);
    hide Possible;
    assert (calls + [last])[..|calls + [last]| - 1] == calls;
  }

  /** One more call that sends one frame, seen from both ends. */
  lemma RunSnoc(id: Allocator, calls: seq<Call>, last: Call)
    requires Possible(calls) && (last.OnHandle? ==> last.handle < Opened(calls) && Run(id, calls).phases[last.handle] == Open)
    ensures Possible(calls + [last])
    ensures Run(id, calls + [last]) == Make(id, Run(id, calls), last)
    ensures Reassemble(Run(id, calls + [last]).sent)
         == Receive(Reassemble(Run(id, calls).sent), Output(id, Run(id, calls), last)[0])
  {
    hide Possible, Run, Reassemble;
    MakeSnoc(id, calls, last);
    ReassembleConcat(Run(id, calls).sent, Output(id, Run(id, calls), last));
  }

  /** Handles have been opened, and nothing else has happened. */
  ghost predicate Quiet(calls: seq<Call>, k: nat) {
    && Opened(calls) == k && Intended(calls) == []
    && (forall h: nat :: !Closed(calls, h) && Written(calls, h) == [])
  }

  lemma QuietStep(calls: seq<Call>, k: nat)
    requires Quiet(calls, k)
    ensures Quiet(calls + [OpenHandle], k + 1)
  {
    Snoc(calls, OpenHandle);
  }

  /** Only handles have been opened, and the server buffers the latest of the `k`, empty. */
  ghost predicate JustOpened(id: Allocator, calls: seq<Call>, k: nat) {
    && Possible(calls) && Quiet(calls, k)
    && var s := Reassemble(Run(id, calls).sent);
       s.device == [] && (k > 0 ==> id(k - 1) in s.buffers && s.buffers[id(k - 1)] == [])
  }

  lemma OpenOne(id: Allocator, calls: seq<Call>, k: nat)
    requires JustOpened(id, calls, k)
    ensures JustOpened(id, calls + [OpenHandle], k + 1)
  {
    hide Possible, Quiet, Run, Reassemble;
    QuietStep(calls, k);
    RunSnoc(id, calls, OpenHandle);
    OpenedCount(calls, k);
  }

  lemma OpenedCount(calls: seq<Call>, k: nat)
    requires Quiet(calls, k)
    ensures Opened(calls) == k
  {
  }

  lemma {:induction false} OpenMany(id: Allocator, k: nat) returns (calls: seq<Call>)
    ensures JustOpened(id, calls, k)
  {
    if k == 0 {
      calls := [];
    } else {
      var before := OpenMany(id, k - 1);
      OpenOne(id, before, k - 1);
      calls := before + [OpenHandle];
    }
  }

  /** Two handles with one id: a byte written on the first, then the second ended. */
  function Leak(calls: seq<Call>, m: nat, n: nat): seq<Call> {
    (calls + [OnHandle(m, CallWrite([1]))]) + [OnHandle(n, CallEnd)]
  }

  lemma NothingMeant(calls: seq<Call>, m: nat, n: nat)
    requires Quiet(calls, n + 1) && m != n
    ensures Intended(Leak(calls, m, n)) == [[]]
  {
    var write := OnHandle(m, CallWrite([1]));
    Snoc(calls, write);
    Snoc(calls + [write], OnHandle(n, CallEnd));
  }

  /** One call on an open handle, seen by the client and by the server. */
  lemma OnOpenHandle(id: Allocator, calls: seq<Call>, h: nat, inner: TxnCall)
    requires Possible(calls) && h < Opened(calls) && Run(id, calls).phases[h] == Open
    ensures
      var more := calls + [OnHandle(h, inner)];
      && Possible(more)
      && Run(id, more).phases == Run(id, calls).phases[h := NextPhase(Open, inner)]
      && Reassemble(Run(id, more).sent) == Receive(Reassemble(Run(id, calls).sent), Emitted(id(h), Open, inner)[0])
  {
    RunSnoc(id, calls, OnHandle(h, inner));
  }

  lemma JustOpenedFacts(id: Allocator, calls: seq<Call>, n: nat)
    requires JustOpened(id, calls, n + 1)
    ensures Possible(calls) && Opened(calls) == n + 1
    ensures forall h | 0 <= h <= n :: Run(id, calls).phases[h] == Open
    ensures var s := Reassemble(Run(id, calls).sent); s.device == [] && id(n) in s.buffers && s.buffers[id(n)] == []
  {
    PhaseOpen(id, calls);
  }

  /** The first write lands in the buffer that both handles share. */
  lemma WrittenOnOther(id: Allocator, calls: seq<Call>, m: nat, n: nat)
    requires JustOpened(id, calls, n + 1) && m < n && id(m) == id(n)
    ensures
      var more := calls + [OnHandle(m, CallWrite([1]))];
      && Possible(more) && Opened(more) == n + 1 && Run(id, more).phases[n] == Open
      && var s := Reassemble(Run(id, more).sent);
         s.device == [] && id(n) in s.buffers && s.buffers[id(n)] == [1]
  {
    hide Possible, Reassemble, Run, JustOpened, Opened;
    JustOpenedFacts(id, calls, n);
    OnOpenHandle(id, calls, m, CallWrite([1]));
    assert [] + [1] == [1];
  }

  lemma SomethingWritten(id: Allocator, calls: seq<Call>, m: nat, n: nat)
    requires JustOpened(id, calls, n + 1) && m < n && id(m) == id(n)
    ensures Possible(Leak(calls, m, n)) && Reassemble(Run(id, Leak(calls, m, n)).sent).device == [[1]]
  {
    hide Possible, Reassemble, Run, Opened, JustOpened;
    WrittenOnOther(id, calls, m, n);
    OnOpenHandle(id, calls + [OnHandle(m, CallWrite([1]))], n, CallEnd);
  }

  /** Two handles under one id: what is written on one is committed by the other. */
  lemma SharedIdLeaks(id: Allocator, m: nat, n: nat)
    requires m < n && id(m) == id(n)
    ensures exists calls :: Possible(calls) && Reassemble(Run(id, calls).sent).device != Intended(calls)
  {
    hide Possible, Reassemble, Run, Intended, Quiet;
    var calls := OpenMany(id, n + 1);
    NothingMeant(calls, m, n);
    SomethingWritten(id, calls, m, n);
    assert Possible(Leak(calls, m, n));
  }

  /** Atomicity holds for every list of calls exactly when the allocator never repeats an id. */
  lemma AtomicityExact(id: Allocator)
    ensures (forall calls | Possible(calls) :: Reassemble(Run(id, calls).sent).device == Intended(calls)) <==> Injective(id)
  {
    if Injective(id) {
      forall calls | Possible(calls) ensures Reassemble(Run(id, calls).sent).device == Intended(calls) {
        TransactionAtomicity(id, calls);
      }
    } else {
      var m: nat, n: nat :| id(m) == id(n) && m != n;
      if m < n { SharedIdLeaks(id, m, n); } else { SharedIdLeaks(id, n, m); }
    }
  }

  /* ------------------------------------- wire grammar ------------------------------------- */

  /** begin chunk* while the handle is open, and one closing frame behind that once it is not. */
  ghost predicate WellFormed(word: seq<Frame>, txn: string, phase: Phase) {
    && word != [] && word[0] == Begin(txn)
    && (forall i | 0 < i < |word| - 1 :: word[i].Chunk?)
    && match phase
       case Open => |word| > 1 ==> word[|word| - 1].Chunk?
       case Ended => |word| > 1 && word[|word| - 1] == End(txn)
       case Aborted => |word| > 1 && word[|word| - 1] == Abort(txn)
  }

  lemma WordGrows(word: seq<Frame>, txn: string, call: TxnCall)
    requires WellFormed(word, txn, Open)
    ensures WellFormed(word + Emitted(txn, Open, call), txn, NextPhase(Open, call))
  {
  }

  /** The word of a transaction is empty before it is opened and well formed from then on. */
  ghost predicate WordOk(id: Allocator, c: Client, h: nat) {
    var word := Project(c.sent, id(h));
    if h < |c.phases| then WellFormed(word, id(h), c.phases[h]) else word == []
  }

  lemma WordStepHandle(id: Allocator, c: Client, k: nat, inner: TxnCall, h: nat)
    requires Injective(id) && k < |c.phases| && WordOk(id, c, h)
    ensures WordOk(id, Make(id, c, OnHandle(k, inner)), h)
  {
    var out := Output(id, c, OnHandle(k, inner));
    ProjectConcat(c.sent, out, id(h));
    if k == h && c.phases[h] == Open {
      WordGrows(Project(c.sent, id(h)), id(h), inner);
    } else {
      assert Project(c.sent + out, id(h)) == Project(c.sent, id(h));
    }
  }

  lemma WordStep(id: Allocator, c: Client, call: Call, h: nat)
    requires Injective(id) && CanMake(c, call) && WordOk(id, c, h)
    ensures WordOk(id, Make(id, c, call), h)
  {
    if call.OnHandle? {
      WordStepHandle(id, c, call.handle, call.call, h);
    } else {
      ProjectConcat(c.sent, Output(id, c, call), id(h));
    }
  }

  /** Every transaction id appears on the wire as begin chunk* (end | abort)?, and only once opened. */
  lemma {:induction false} WireGrammar(id: Allocator, calls: seq<Call>, h: nat)
    requires Possible(calls) && Injective(id)
    ensures WordOk(id, Run(id, calls), h)
    decreases |calls|
  {
    if calls != [] {
      PossiblePrefix(calls);
      WireGrammar(id, calls[..|calls| - 1], h);
      WordStep(id, Run(id, calls[..|calls| - 1]), calls[|calls| - 1], h);
    }
  }
}
