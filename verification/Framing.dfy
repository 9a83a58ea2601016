/**
 Length-prefixed framing: the incremental `FrameDecoder` and the function of the byte stream that
 it computes, whatever the bodies mean.
 */
module Framing {
  import opened Common
  import opened Json

  const HEADER_BYTES := 4
  const MAX_FRAME_BYTES := 16 * 1024 * 1024

  datatype DecodeError =
    | Oversized(total: nat)
    | TooShort(length: nat)
    | Truncated(jsonLen: nat, available: nat)
    | Malformed

  /**
   What the decoder reports for a frame. `DeliveredWithData` is an envelope whose payload is an
   array or a Buffer that additionally carries the tail as an own property `data`. `Threw` is the
   exception that leaves `push` when JSON `null` comes with a tail.
   */
  datatype Event =
    | Delivered(env: Json)
    | DeliveredWithData(env: Json, data: seq<Byte>)
    | Failed(error: DecodeError)
    | Threw

  /** What the decoder does with one complete body. */
  type Meaning = seq<Byte> -> Event

  /* ------------------------- what a buffered stream means ------------------------- */

  /** Why the decoding loop stopped: it needs more bytes, met an oversized header, or threw. */
  datatype Stop = Waiting | Overflow | Raised

  datatype Outcome = Outcome(log: seq<Event>, rest: seq<Byte>, stop: Stop)

  function Scan(m: Meaning, buf: seq<Byte>): Outcome
    decreases |buf|
  {
    if |buf| < HEADER_BYTES then Outcome([], buf, Waiting)
    else
      var total := ReadU32(buf);
      if total > MAX_FRAME_BYTES then Outcome([Failed(Oversized(total))], [], Overflow)
      else if |buf| < HEADER_BYTES + total then Outcome([], buf, Waiting)
      else
        var event := m(buf[HEADER_BYTES..HEADER_BYTES + total]);
        var rest := buf[HEADER_BYTES + total..];
        if event.Threw? then Outcome([Threw], rest, Raised)
        else After([event], Scan(m, rest))
  }

  function After(log: seq<Event>, o: Outcome): Outcome {
    Outcome(log + o.log, o.rest, o.stop)
  }

  lemma ScanShort(m: Meaning, buf: seq<Byte>)
    requires |buf| < HEADER_BYTES
    ensures Scan(m, buf) == Outcome([], buf, Waiting)
  {
  }

  lemma AfterNothing(o: Outcome)
    ensures After([], o) == o
  {
    assert [] + o.log == o.log;
  }

  lemma AfterAfter(a: seq<Event>, b: seq<Event>, o: Outcome)
    ensures After(a, After(b, o)) == After(a + b, o)
  {
    assert a + (b + o.log) == (a + b) + o.log;
  }

  /** Observable decoder state: everything reported so far, and the buffered bytes. */
  datatype Decoder = Decoder(log: seq<Event>, buf: seq<Byte>)

  function Pushed(m: Meaning, d: Decoder, chunk: seq<Byte>): Decoder {
    var o := Scan(m, d.buf + chunk);
    Decoder(d.log + o.log, o.rest)
  }

  function Feed(m: Meaning, d: Decoder, chunks: seq<seq<Byte>>): Decoder
    decreases |chunks|
  {
    if chunks == [] then d else Feed(m, Pushed(m, d, chunks[0]), chunks[1..])
  }

  const FRESH := Decoder([], [])

  /**
   The incremental decoder. `meaning` is the JSON stage; the callbacks are recorded in `log` in
   the order they are made.
   */
  class FrameDecoder {
    const meaning: Meaning
    var buf: seq<Byte>
    ghost var log: seq<Event>

    ghost function State(): Decoder
      reads this
    {
      Decoder(log, buf)
    }

    constructor (meaning: Meaning)
      ensures this.meaning == meaning && State() == FRESH
    {
      this.meaning := meaning;
      buf := [];
      log := [];
    }

    /**
     One turn of the decoding loop. The header is the frame's length, most significant byte first;
     a complete frame is taken off and its body reported, an oversized one empties the buffer.
     */
    method Turn() returns (again: bool, threw: bool, ghost said: seq<Event>, ghost stop: Stop)
      requires |buf| >= HEADER_BYTES
      modifies this
      ensures log == old(log) + said
      ensures again ==> |buf| + HEADER_BYTES <= |old(buf)| && Scan(meaning, old(buf)) == After(said, Scan(meaning, buf))
      ensures !again ==> Scan(meaning, old(buf)) == Outcome(said, buf, stop)
      ensures
        var total := BigEndian(old(buf)[..HEADER_BYTES]);
        if total > MAX_FRAME_BYTES then
          !again && stop == Overflow && said == [Failed(Oversized(total))] && buf == []
        else if |old(buf)| < HEADER_BYTES + total then
          !again && stop == Waiting && said == [] && buf == old(buf)
        else
          && said == [meaning(old(buf)[HEADER_BYTES..HEADER_BYTES + total])]
          && buf == old(buf)[HEADER_BYTES + total..]
          && (if said[0].Threw? then !again && stop == Raised else again)
      ensures threw <==> !again && stop.Raised?
      ensures !again && !threw ==> |buf| <= MAX_FRAME_BYTES + 3
    {
      again, threw, said, stop := false, false, [], Waiting;
      ReadIsBigEndian(buf);
      var total := ReadU32(buf);
      if total > MAX_FRAME_BYTES {
        said, stop := [Failed(Oversized(total))], Overflow;
        log := log + said;
        buf := [];
        return;
      }
      if |buf| < HEADER_BYTES + total {
        return;
      }
      var frame := buf[HEADER_BYTES..HEADER_BYTES + total];
      buf := buf[HEADER_BYTES + total..];
      var event := meaning(frame);
      said := [event];
      log := log + [event];
      if event.Threw? {
        threw, stop := true, Raised;
      } else {
        again := true;
      }
    }

    /**
     One chunk. `threw` tells whether an exception left the method. Unless it did, what stays
     buffered is at most one incomplete frame.
     */
    method Push(chunk: seq<Byte>) returns (threw: bool)
      modifies this
      ensures State() == Pushed(meaning, old(State()), chunk)
      ensures threw <==> Scan(meaning, old(buf) + chunk).stop.Raised?
      ensures !threw ==> |buf| <= MAX_FRAME_BYTES + 3
    {
      assert [] + chunk == chunk;
      buf := if buf == [] then chunk else buf + chunk;
      threw := Drain();
    }

    /** The decoding loop. */
    method Drain() returns (threw: bool)
      modifies this
      ensures log == old(log) + Scan(meaning, old(buf)).log && buf == Scan(meaning, old(buf)).rest
      ensures threw <==> Scan(meaning, old(buf)).stop.Raised?
      ensures !threw ==> |buf| <= MAX_FRAME_BYTES + 3
    {
      hide Scan;
      ghost var start, seen := buf, log;
      ghost var heard: seq<Event> := [];
      AfterNothing(Scan(meaning, start));
      while |buf| >= HEADER_BYTES
        invariant log == seen + heard
        invariant Scan(meaning, start) == After(heard, Scan(meaning, buf))
        decreases |buf|
      {
        var again;
        ghost var said, stop;
        again, threw, said, stop := Turn();
        if !again {
          assert seen + (heard + said) == (seen + heard) + said;
          assert Scan(meaning, start) == Outcome(heard + said, buf, stop);
          return;
        }
        AfterAfter(heard, said, Scan(meaning, buf));
        heard := heard + said;
      }
      threw := false;
      ScanShort(meaning, buf);
      assert heard + [] == heard;
      assert Scan(meaning, start) == Outcome(heard, buf, Waiting);
    }

    method Reset()
      modifies this
      ensures buf == [] && log == old(log)
    {
      buf := [];
    }
  }

  /* ------------------------------ chunking invariance ------------------------------ */

  predicate HasFrame(buf: seq<Byte>) {
    |buf| >= HEADER_BYTES && ReadU32(buf) <= MAX_FRAME_BYTES && |buf| >= HEADER_BYTES + ReadU32(buf)
  }

  function FrameLength(buf: seq<Byte>): nat
    requires HasFrame(buf)
  {
    HEADER_BYTES + ReadU32(buf)
  }

  /** The first frame of a longer buffer is the first frame. */
  lemma FirstFrame(a: seq<Byte>, b: seq<Byte>)
    requires HasFrame(a)
    ensures HasFrame(a + b) && FrameLength(a + b) == FrameLength(a)
    ensures (a + b)[HEADER_BYTES..FrameLength(a)] == a[HEADER_BYTES..FrameLength(a)]
    ensures (a + b)[FrameLength(a)..] == a[FrameLength(a)..] + b
  {
    assert (a + b)[..4] == a[..4];
  }

  ghost predicate Splits(m: Meaning, a: seq<Byte>, b: seq<Byte>) {
    var o := Scan(m, a);
    match o.stop
    case Waiting => Scan(m, a + b) == After(o.log, Scan(m, o.rest + b))
    case Overflow => Scan(m, a + b) == o
    case Raised => Scan(m, a + b) == Outcome(o.log, o.rest + b, Raised)
  }

  lemma SplitsBehindFrame(m: Meaning, a: seq<Byte>, b: seq<Byte>)
    requires HasFrame(a) && Splits(m, a[FrameLength(a)..], b)
    ensures Splits(m, a, b)
  {
    var n := FrameLength(a);
    FirstFrame(a, b);
    var event := m(a[HEADER_BYTES..n]);
    var inner := Scan(m, a[n..]);
    if !event.Threw? && inner.stop.Waiting? {
      AfterAfter([event], inner.log, Scan(m, inner.rest + b));
    }
  }

  /** More bytes behind a buffer never change what its own frames mean. */
  lemma {:induction false} ScanSplit(m: Meaning, a: seq<Byte>, b: seq<Byte>)
    ensures Splits(m, a, b)
    decreases |a|
  {
    if HasFrame(a) {
      ScanSplit(m, a[FrameLength(a)..], b);
      SplitsBehindFrame(m, a, b);
    } else if |a| >= HEADER_BYTES && ReadU32(a) > MAX_FRAME_BYTES {
      assert (a + b)[..4] == a[..4];
    } else {
      AfterNothing(Scan(m, a + b));
    }
  }

  /** What waits in the buffer is quiet: it yields nothing on its own. */
  lemma {:induction false} WaitingRestIsQuiet(m: Meaning, buf: seq<Byte>)
    requires Scan(m, buf).stop.Waiting?
    ensures var rest := Scan(m, buf).rest; Scan(m, rest) == Outcome([], rest, Waiting)
    decreases |buf|
  {
    if |buf| >= HEADER_BYTES && |buf| >= HEADER_BYTES + ReadU32(buf) {
      WaitingRestIsQuiet(m, buf[HEADER_BYTES + ReadU32(buf)..]);
    }
  }

  lemma {:induction false} FeedExtendsLog(m: Meaning, d: Decoder, chunks: seq<seq<Byte>>)
    ensures d.log <= Feed(m, d, chunks).log
    decreases |chunks|
  {
    if chunks != [] {
      FeedExtendsLog(m, Pushed(m, d, chunks[0]), chunks[1..]);
    }
  }

  /** `fed` reports at least what `whole` does, and exactly that when nothing stops the stream. */
  ghost predicate Agrees(d: Decoder, whole: Outcome, fed: Decoder) {
    && d.log + whole.log <= fed.log
    && (whole.stop.Waiting? ==> fed == Decoder(d.log + whole.log, whole.rest))
  }

  lemma AgreesAfter(d: Decoder, o: Outcome, tail: Outcome, fed: Decoder)
    requires Agrees(Decoder(d.log + o.log, o.rest), tail, fed)
    ensures Agrees(d, After(o.log, tail), fed)
  {
    assert d.log + (o.log + tail.log) == (d.log + o.log) + tail.log;
  }

  lemma {:induction false} FeedFrom(m: Meaning, d: Decoder, chunks: seq<seq<Byte>>)
    requires Scan(m, d.buf) == Outcome([], d.buf, Waiting)
    ensures Agrees(d, Scan(m, d.buf + Flatten(chunks)), Feed(m, d, chunks))
    decreases |chunks|, 0
  {
    if chunks == [] {
      assert d.buf + Flatten(chunks) == d.buf;
      assert d.log + [] == d.log;
    } else {
      var first, others := chunks[0], Flatten(chunks[1..]);
      assert d.buf + Flatten(chunks) == (d.buf + first) + others;
      FeedStep(m, d, first, others, chunks[1..]);
    }
  }

  lemma {:induction false} FeedStep(m: Meaning, d: Decoder, first: seq<Byte>, others: seq<Byte>, chunks: seq<seq<Byte>>)
    requires others == Flatten(chunks)
    ensures Agrees(d, Scan(m, (d.buf + first) + others), Feed(m, Pushed(m, d, first), chunks))
    decreases |chunks|, 1
  {
    var buf := d.buf + first;
    ScanSplit(m, buf, others);
    var o := Scan(m, buf);
    var next := Decoder(d.log + o.log, o.rest);
    if o.stop.Waiting? {
      WaitingRestIsQuiet(m, buf);
      FeedFrom(m, next, chunks);
      AgreesAfter(d, o, Scan(m, o.rest + others), Feed(m, next, chunks));
    } else {
      FeedExtendsLog(m, next, chunks);
    }
  }

  /**
   Any split of a byte stream into chunks, empty ones included, is reported like the whole stream
   in one push: the same events and residue if the stream neither overflows nor throws, and
   otherwise the same events up to and including the first such stop.
   */
  lemma ChunkingInvariance(m: Meaning, chunks: seq<seq<Byte>>)
    ensures
      var whole := Pushed(m, FRESH, Flatten(chunks));
      var fed := Feed(m, FRESH, chunks);
      && whole.log <= fed.log
      && (Scan(m, Flatten(chunks)).stop.Waiting? ==> fed == whole)
  {
    assert [] + Flatten(chunks) == Flatten(chunks);
    FeedFrom(m, FRESH, chunks);
  }

  /* -------------------------- which streams depend on the cut -------------------------- */

  /** The bytes taken up to the stop: an oversized header and a throwing frame included. */
  function Reached(m: Meaning, buf: seq<Byte>): (n: nat)
    ensures n <= |buf|
    decreases |buf|
  {
    if |buf| < HEADER_BYTES then 0
    else if ReadU32(buf) > MAX_FRAME_BYTES then HEADER_BYTES
    else if !HasFrame(buf) then 0
    else if m(buf[HEADER_BYTES..FrameLength(buf)]).Threw? then FrameLength(buf)
    else FrameLength(buf) + Reached(m, buf[FrameLength(buf)..])
  }

  /** Nothing comes out of these bytes, and all of them wait. */
  ghost predicate Quiet(m: Meaning, buf: seq<Byte>) {
    Scan(m, buf) == Outcome([], buf, Waiting)
  }

  /**
   The stream never stops, or stops at an oversized header that nothing follows, or throws at a
   frame that nothing but an incomplete frame follows.
   */
  ghost predicate CutFree(m: Meaning, s: seq<Byte>) {
    match Scan(m, s).stop
    case Waiting => true
    case Overflow => Reached(m, s) == |s|
    case Raised => Quiet(m, s[Reached(m, s)..])
  }

  lemma SilentIsQuiet(m: Meaning, buf: seq<Byte>)
    requires Scan(m, buf).log == []
    ensures Quiet(m, buf)
  {
  }

  lemma QuietPrefix(m: Meaning, a: seq<Byte>, b: seq<Byte>)
    requires Quiet(m, a + b)
    ensures Quiet(m, a)
  {
    ScanSplit(m, a, b);
    SilentIsQuiet(m, a);
  }

  /** What the stop leaves behind it. */
  lemma {:induction false} RestIsBehind(m: Meaning, buf: seq<Byte>)
    ensures
      match Scan(m, buf).stop
      case Overflow => Scan(m, buf).rest == []
      case _ => Scan(m, buf).rest == buf[Reached(m, buf)..]
    decreases |buf|
  {
    if HasFrame(buf) && !m(buf[HEADER_BYTES..FrameLength(buf)]).Threw? {
      RestIsBehind(m, buf[FrameLength(buf)..]);
    }
  }

  /** The bytes up to the stop make the same stop, with nothing left. */
  lemma {:induction false} UpToTheStop(m: Meaning, buf: seq<Byte>)
    requires !Scan(m, buf).stop.Waiting?
    ensures Scan(m, buf[..Reached(m, buf)]) == Outcome(Scan(m, buf).log, [], Scan(m, buf).stop)
    decreases |buf|
  {
    var r := Reached(m, buf);
    if ReadU32(buf) > MAX_FRAME_BYTES {
      assert buf[..r][..4] == buf[..4];
    } else {
      if !m(buf[HEADER_BYTES..FrameLength(buf)]).Threw? {
        UpToTheStop(m, buf[FrameLength(buf)..]);
      }
      PrefixBehindFrame(m, buf, r);
    }
  }

  lemma PrefixBehindFrame(m: Meaning, buf: seq<Byte>, r: nat)
    requires HasFrame(buf) && FrameLength(buf) <= r <= |buf|
    ensures
      var n := FrameLength(buf);
      var event := m(buf[HEADER_BYTES..n]);
      Scan(m, buf[..r])
        == if event.Threw? then Outcome([Threw], buf[n..r], Raised) else After([event], Scan(m, buf[n..][..r - n]))
  {
    var n := FrameLength(buf);
    var a, b := buf[..n], buf[n..r];
    assert a[..4] == buf[..4];
    FirstFrame(a, b);
    assert buf[..r] == a + b && a[HEADER_BYTES..n] == buf[HEADER_BYTES..n];
    assert a[n..] + b == b == buf[n..][..r - n];
  }

  /** What waits in front is taken first, so the stop behind it moves by as much. */
  lemma {:induction false} ReachedBehind(m: Meaning, a: seq<Byte>, b: seq<Byte>)
    ensures
      var o := Scan(m, a);
      if o.stop.Waiting? then Reached(m, a + b) == |a| - |o.rest| + Reached(m, o.rest + b)
      else Reached(m, a + b) == Reached(m, a)
    decreases |a|
  {
    if HasFrame(a) {
      FirstFrame(a, b);
      ReachedBehind(m, a[FrameLength(a)..], b);
    } else if |a| >= HEADER_BYTES {
      assert (a + b)[..4] == a[..4];
    }
  }

  /** A stream that is cut-free stays so when its complete frames are taken off. */
  lemma CutFreeBehind(m: Meaning, a: seq<Byte>, b: seq<Byte>)
    requires Scan(m, a).stop.Waiting? && CutFree(m, a + b)
    ensures CutFree(m, Scan(m, a).rest + b)
  {
    hide Scan, Reached;
    var rest := Scan(m, a).rest;
    ScanSplit(m, a, b);
    ReachedBehind(m, a, b);
    RestIsBehind(m, a);
    var r := Reached(m, rest + b);
    assert (a + b)[|a| - |rest|..] == rest + b;
    assert (a + b)[|a| - |rest| + r..] == (rest + b)[r..];
  }

  /** From a decoder that waits, every cut of a cut-free stream reports it like one push. */
  lemma {:induction false} FeedCutFree(m: Meaning, d: Decoder, chunks: seq<seq<Byte>>)
    requires Quiet(m, d.buf) && CutFree(m, d.buf + Flatten(chunks))
    ensures Feed(m, d, chunks) == Pushed(m, d, Flatten(chunks))
    decreases |chunks|
  {
    if chunks == [] {
      assert d.buf + Flatten(chunks) == d.buf && d.log + [] == d.log;
    } else {
      hide Scan, CutFree, Quiet, Reached, Flatten, Feed;
      var first, others := chunks[0], Flatten(chunks[1..]);
      FlattenHead(chunks);
      FeedHead(m, d, chunks);
      assert d.buf + Flatten(chunks) == (d.buf + first) + others;
      PushCutFree(m, d, first, chunks[1..]);
      if Scan(m, d.buf + first).stop.Waiting? {
        var next := Pushed(m, d, first);
        FeedCutFree(m, next, chunks[1..]);
        PushedTwice(m, d, first, others);
      }
    }
  }

  lemma FlattenHead(chunks: seq<seq<Byte>>)
    requires chunks != []
    ensures Flatten(chunks) == chunks[0] + Flatten(chunks[1..])
  {
  }

  lemma FeedHead(m: Meaning, d: Decoder, chunks: seq<seq<Byte>>)
    requires chunks != []
    ensures Feed(m, d, chunks) == Feed(m, Pushed(m, d, chunks[0]), chunks[1..])
  {
  }

  lemma PushedTwice(m: Meaning, d: Decoder, first: seq<Byte>, others: seq<Byte>)
    requires Scan(m, d.buf + first).stop.Waiting?
    ensures Pushed(m, Pushed(m, d, first), others) == Pushed(m, d, first + others)
  {
    hide Scan;
    ScanSplit(m, d.buf + first, others);
    var o := Scan(m, d.buf + first);
    assert d.buf + (first + others) == (d.buf + first) + others;
    assert d.log + (o.log + Scan(m, o.rest + others).log) == (d.log + o.log) + Scan(m, o.rest + others).log;
  }

  /** One chunk of a cut-free stream: the rest stays cut-free, or the stop has come and the rest is quiet. */
  lemma PushCutFree(m: Meaning, d: Decoder, first: seq<Byte>, chunks: seq<seq<Byte>>)
    requires CutFree(m, (d.buf + first) + Flatten(chunks))
    ensures
      var next := Pushed(m, d, first);
      if Scan(m, d.buf + first).stop.Waiting? then Quiet(m, next.buf) && CutFree(m, next.buf + Flatten(chunks))
      else Feed(m, next, chunks) == Pushed(m, d, first + Flatten(chunks))
  {
    hide Scan, Reached, Feed, Flatten;
    var buf, others := d.buf + first, Flatten(chunks);
    var o := Scan(m, buf);
    var next := Pushed(m, d, first);
    assert d.buf + (first + others) == buf + others;
    ScanSplit(m, buf, others);
    if o.stop.Waiting? {
      WaitingRestIsQuiet(m, buf);
      CutFreeBehind(m, buf, others);
    } else {
      ReachedBehind(m, buf, others);
      RestIsBehind(m, buf);
      RestIsBehind(m, buf + others);
      if o.stop.Raised? {
        QuietPrefix(m, o.rest, others);
      } else {
        assert others == [];
        ScanShort(m, []);
      }
      assert Quiet(m, o.rest) && Quiet(m, o.rest + others) && Scan(m, buf + others).rest == o.rest + others;
      FeedFrom(m, next, chunks);
      assert next.log + [] == next.log;
    }
  }

  lemma FeedTwo(m: Meaning, a: seq<Byte>, b: seq<Byte>)
    ensures Feed(m, FRESH, [a, b]) == Pushed(m, Pushed(m, FRESH, a), b)
  {
    hide Scan;
    var one := Pushed(m, FRESH, a);
    assert [a, b][1..] == [b] && [b][1..] == [];
    assert Feed(m, one, [b]) == Feed(m, Pushed(m, one, b), []);
  }

  /** Cut right behind its stop, a stream that is not cut-free is reported differently. */
  lemma CutAtTheStop(m: Meaning, s: seq<Byte>)
    requires !CutFree(m, s)
    ensures
      var r := Reached(m, s);
      s[..r] + s[r..] == s && Feed(m, FRESH, [s[..r], s[r..]]) != Pushed(m, FRESH, s)
  {
    hide Scan, Reached, Feed;
    var r := Reached(m, s);
    UpToTheStop(m, s);
    RestIsBehind(m, s);
    assert [] + s[..r] == s[..r] && [] + s == s && [] + s[r..] == s[r..];
    var o, tail := Scan(m, s), Scan(m, s[r..]);
    var one := Pushed(m, FRESH, s[..r]);
    assert one == Decoder(o.log, []) by { assert [] + o.log == o.log; }
    FeedTwo(m, s[..r], s[r..]);
    assert Pushed(m, one, s[r..]) == Decoder(o.log + tail.log, tail.rest);
    if tail.log == [] {
      SilentIsQuiet(m, s[r..]);
    } else {
      assert |o.log + tail.log| != |o.log|;
    }
  }

  /**
   The whole truth about cuts: every split of a stream into chunks is reported like the stream in
   one push exactly when the stream does not stop, or stops at an oversized header that is its
   last, or throws with at most an incomplete frame behind.
   */
  lemma CutFreeExactly(m: Meaning, s: seq<Byte>)
    ensures (forall chunks: seq<seq<Byte>> | Flatten(chunks) == s :: Feed(m, FRESH, chunks) == Pushed(m, FRESH, s))
      <==> CutFree(m, s)
  {
    hide Scan, Reached, Feed, Flatten, CutFree;
    if CutFree(m, s) {
      forall chunks: seq<seq<Byte>> | Flatten(chunks) == s ensures Feed(m, FRESH, chunks) == Pushed(m, FRESH, s) {
        ScanShort(m, []);
        assert [] + Flatten(chunks) == s;
        FeedCutFree(m, FRESH, chunks);
      }
    } else {
      CutAtTheStop(m, s);
      TwoChunks(s[..Reached(m, s)], s[Reached(m, s)..]);
    }
  }

  lemma TwoChunks(a: seq<Byte>, b: seq<Byte>)
    ensures Flatten([a, b]) == a + b
  {
    assert [a, b][1..] == [b] && [b][1..] == [];
    assert Flatten([b]) == b + Flatten([]) == b;
  }

  /**
   A stream that is not: an oversized header throws away what came with it in the same chunk, so
   bytes behind it are lost or decoded depending on the cut.
   */
  lemma OverflowDependsOnTheCut(m: Meaning)
    ensures
      var header, frame: seq<Byte> := U32(MAX_FRAME_BYTES + 1), U32(0);
      Feed(m, FRESH, [header, frame]).log != Pushed(m, FRESH, header + frame).log
  {
    var header, frame: seq<Byte> := U32(MAX_FRAME_BYTES + 1), U32(0);
    ReadBack(MAX_FRAME_BYTES + 1, []);
    ReadBack(MAX_FRAME_BYTES + 1, frame);
    ReadBack(0, []);
    assert [] + header == header == header + [];
    assert [] + (header + frame) == header + frame;
    assert [] + frame == frame == frame + [];
    var one := Pushed(m, FRESH, header);
    assert one == Decoder([Failed(Oversized(MAX_FRAME_BYTES + 1))], []);
    assert |Pushed(m, one, frame).log| == 2;
    assert Feed(m, FRESH, [header, frame]) == Feed(m, one, [frame]);
    assert Feed(m, one, [frame]) == Pushed(m, one, frame);
  }

  /* ------------------------------- damage isolation ------------------------------- */

  function Frame(body: seq<Byte>): seq<Byte>
    requires |body| <= MAX_FRAME_BYTES
  {
    U32(|body|) + body
  }

  predicate Deliverable(m: Meaning, body: seq<Byte>) {
    |body| <= MAX_FRAME_BYTES && !m(body).Threw?
  }

  function Frames(m: Meaning, bodies: seq<seq<Byte>>): seq<seq<Byte>>
    requires forall i | 0 <= i < |bodies| :: Deliverable(m, bodies[i])
  {
    if bodies == [] then [] else assert Deliverable(m, bodies[0]); [Frame(bodies[0])] + Frames(m, bodies[1..])
  }

  function Events(m: Meaning, bodies: seq<seq<Byte>>): seq<Event> {
    if bodies == [] then [] else [m(bodies[0])] + Events(m, bodies[1..])
  }

  /** A frame in front of a stream costs exactly its own event. */
  lemma ScanFrame(m: Meaning, body: seq<Byte>, rest: seq<Byte>)
    requires Deliverable(m, body)
    ensures Scan(m, Frame(body) + rest) == After([m(body)], Scan(m, rest))
  {
    var s := Frame(body) + rest;
    assert s == U32(|body|) + (body + rest);
    ReadBack(|body|, body + rest);
    assert s[HEADER_BYTES..HEADER_BYTES + |body|] == body;
    assert s[HEADER_BYTES + |body|..] == rest;
  }

  lemma FramesInFront(m: Meaning, bodies: seq<seq<Byte>>, rest: seq<Byte>)
    requires bodies != [] && forall i | 0 <= i < |bodies| :: Deliverable(m, bodies[i])
    ensures Flatten(Frames(m, bodies)) + rest == Frame(bodies[0]) + (Flatten(Frames(m, bodies[1..])) + rest)
  {
    assert Deliverable(m, bodies[0]);
    FlattenCons(Frame(bodies[0]), Frames(m, bodies[1..]), rest);
  }

  /** Each body's event depends on that body alone, whatever the neighbouring bodies hold. */
  lemma {:induction false} DamageIsolation(m: Meaning, bodies: seq<seq<Byte>>, rest: seq<Byte>)
    requires forall i | 0 <= i < |bodies| :: Deliverable(m, bodies[i])
    ensures Scan(m, Flatten(Frames(m, bodies)) + rest) == After(Events(m, bodies), Scan(m, rest))
    decreases |bodies|
  {
    if bodies == [] {
      assert Flatten(Frames(m, bodies)) + rest == rest;
      AfterNothing(Scan(m, rest));
    } else {
      var others := bodies[1..];
      FramesInFront(m, bodies, rest);
      assert Deliverable(m, bodies[0]);
      ScanFrame(m, bodies[0], Flatten(Frames(m, others)) + rest);
      DamageIsolation(m, others, rest);
      AfterAfter([m(bodies[0])], Events(m, others), Scan(m, rest));
    }
  }
}
