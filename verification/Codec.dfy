/**
 The length-prefixed envelope codec: `encode` over a byte array, and the incremental
 `FrameDecoder` with its buffer, together with the stream function it computes.
 */
module Codec {
  import opened Common
  import opened Framing
  import opened Json

  const JSON_LEN_BYTES := 4

  /** Envelopes are JavaScript objects; an absent key stands for `undefined`. */
  type Envelope = j: Json | j.Obj? witness Obj(map[])

  predicate IsMsg(j: Json) {
    j.Obj? && "k" in j.fields && j.fields["k"] == Str("msg")
  }

  /* ---------------------------------- encode ---------------------------------- */

  predicate DataIsBuffer(p: Json) {
    p.Obj? && "data" in p.fields && p.fields["data"].Buf?
  }

  /** The bytes that travel behind the JSON: a Buffer payload, or the Buffer in its `data`. */
  function TailOf(env: Envelope): Option<seq<Byte>> {
    if !IsMsg(env) || "p" !in env.fields then None
    else
      var p := env.fields["p"];
      if p.Buf? then Some(p.bytes)
      else if DataIsBuffer(p) then Some(p.fields["data"].bytes)
      else None
  }

  /** The object that is printed as JSON. */
  function HeadOf(env: Envelope): Envelope {
    if TailOf(env).None? then env
    else
      var p := env.fields["p"];
      if p.Buf? then Obj((env.fields - {"p"})["_binloc" := Str("p")])
      else Obj(env.fields["p" := Obj(p.fields - {"data"})]["_binloc" := Str("p.data")])
  }

  /**
   What is taken out of an envelope, field by field: only a `msg` whose payload is a Buffer, or holds
   one as its `data`, has a tail; then that Buffer is missing from the head, which says in `_binloc`
   where it belongs and is the envelope everywhere else.
   */
  lemma TakenOut(env: Envelope)
    ensures
      var fields, head := env.fields, HeadOf(env).fields;
      var payload := if IsMsg(env) && "p" in fields then fields["p"] else Null;
      if payload.Buf? then
        && TailOf(env) == Some(payload.bytes)
        && "_binloc" in head && head["_binloc"] == Str("p") && "p" !in head && Same(head, fields, {"p", "_binloc"})
      else if payload.Obj? && "data" in payload.fields && payload.fields["data"].Buf? then
        && TailOf(env) == Some(payload.fields["data"].bytes)
        && "_binloc" in head && head["_binloc"] == Str("p.data") && Same(head, fields, {"p", "_binloc"})
        && "p" in head && head["p"].Obj? && "data" !in head["p"].fields
        && Same(head["p"].fields, payload.fields, {"data"})
      else TailOf(env) == None && HeadOf(env) == env
  {
  }

  /** Two objects agree but for some keys. */
  ghost predicate Same(a: map<string, Json>, b: map<string, Json>, but: set<string>) {
    forall k | k !in but :: (k in a <==> k in b) && (k in a ==> a[k] == b[k])
  }

  function JsonText(pf: Platform, env: Envelope): seq<Byte> {
    pf.ser(Lower(HeadOf(env)))
  }

  function TailBytes(env: Envelope): seq<Byte> {
    if TailOf(env).Some? then TailOf(env).value else []
  }

  function TotalLength(pf: Platform, env: Envelope): nat {
    JSON_LEN_BYTES + |JsonText(pf, env)| + |TailBytes(env)|
  }

  predicate Accepted(pf: Platform, env: Envelope) {
    TotalLength(pf, env) <= MAX_FRAME_BYTES
  }

  function Body(pf: Platform, env: Envelope): seq<Byte>
    requires Accepted(pf, env)
  {
    U32(|JsonText(pf, env)|) + JsonText(pf, env) + TailBytes(env)
  }

  /** Writes behind what has been written so far. */
  method WriteAt(out: array<Byte>, at: nat, bytes: seq<Byte>)
    requires at + |bytes| <= out.Length
    modifies out
    ensures out[..at + |bytes|] == old(out[..at]) + bytes
  {
    forall i | 0 <= i < |bytes| {
      out[at + i] := bytes[i];
    }
  }

  /**
   The frame, byte range by byte range: the length of what follows and the length of the JSON text,
   both most significant byte first, the text, and the tail.
   */
  ghost predicate LaidOut(out: seq<Byte>, json: seq<Byte>, tail: seq<Byte>) {
    var text := HEADER_BYTES + JSON_LEN_BYTES;
    && |out| == text + |json| + |tail|
    && BigEndian(out[..HEADER_BYTES]) == |out| - HEADER_BYTES
    && BigEndian(out[HEADER_BYTES..text]) == |json|
    && out[text..text + |json|] == json && out[text + |json|..] == tail
  }

  lemma FrameIsLaidOut(json: seq<Byte>, tail: seq<Byte>)
    requires JSON_LEN_BYTES + |json| + |tail| <= MAX_FRAME_BYTES
    ensures LaidOut(Frame(U32(|json|) + json + tail), json, tail)
  {
    var body := U32(|json|) + json + tail;
    var out := Frame(body);
    WrittenBigEndian(|body|);
    WrittenBigEndian(|json|);
    assert out[..4] == U32(|body|) && out[4..8] == U32(|json|);
    assert out[8..8 + |json|] == json && out[8 + |json|..] == tail;
  }

  /** `encode`: refuses an oversized frame, otherwise fills a fresh buffer piece by piece. */
  method Encode(pf: Platform, env: Envelope) returns (r: Result<array<Byte>, nat>)
    ensures r.Success? <==> Accepted(pf, env)
    ensures r.Success? ==> fresh(r.value) && r.value[..] == Frame(Body(pf, env))
    ensures r.Success? ==> LaidOut(r.value[..], JsonText(pf, env), TailBytes(env))
    ensures r.Failure? ==> r.error == TotalLength(pf, env)
  {
    var json := pf.ser(Lower(HeadOf(env)));
    var tail := TailOf(env);
    var tailLen := if tail.Some? then |tail.value| else 0;
    var total := JSON_LEN_BYTES + |json| + tailLen;
    if total > MAX_FRAME_BYTES {
      return Failure(total);
    }
    var out := Assemble(json, tail);
    FrameIsLaidOut(json, TailBytes(env));
    r := Success(out);
  }

  method Assemble(json: seq<Byte>, tail: Option<seq<Byte>>) returns (out: array<Byte>)
    requires JSON_LEN_BYTES + |json| + (if tail.Some? then |tail.value| else 0) <= MAX_FRAME_BYTES
    ensures fresh(out)
    ensures out[..] == Frame(U32(|json|) + json + (if tail.Some? then tail.value else []))
    ensures LaidOut(out[..], json, if tail.Some? then tail.value else [])
  {
    var total := JSON_LEN_BYTES + |json| + (if tail.Some? then |tail.value| else 0);
    out := new Byte[HEADER_BYTES + total];
    WriteAt(out, 0, U32(total));
    WriteAt(out, HEADER_BYTES, U32(|json|));
    WriteAt(out, HEADER_BYTES + JSON_LEN_BYTES, json);
    assert out[..HEADER_BYTES + JSON_LEN_BYTES + |json|] == U32(total) + (U32(|json|) + json);
    if tail.Some? {
      WriteAt(out, HEADER_BYTES + JSON_LEN_BYTES + |json|, tail.value);
    }
    assert out[..] == out[..HEADER_BYTES + total];
    FrameIsLaidOut(json, if tail.Some? then tail.value else []);
  }

  /* ---------------------------- what one body means ---------------------------- */

  /** Puts a tail back where `_binloc` says. */
  function Place(env: Json, tail: seq<Byte>): Event {
    if env.Null? then Threw
    else if !IsMsg(env) then Delivered(env)
    else
      var bare := env.fields - {"_binloc"};
      var binloc := if "_binloc" in env.fields then env.fields["_binloc"] else Null;
      if binloc == Str("p") then Delivered(Obj(bare["p" := Buf(tail)]))
      else if binloc == Str("p.data") then
        if "p" in bare && bare["p"].Obj? then
          Delivered(Obj(bare["p" := Obj(bare["p"].fields["data" := Buf(tail)])]))
        else if "p" in bare && (bare["p"].Arr? || bare["p"].Buf?) then
          DeliveredWithData(Obj(bare), tail)
        else
          Delivered(Obj(bare["p" := Obj(map["data" := Buf(tail)])]))
      else Delivered(Obj(bare))
  }

  /**
   Where a tail is put, field by field: under `p` or under `data` of `p` as `_binloc` says, which
   then disappears; an envelope that is no `msg` loses it, and one without such a `_binloc` too.
   */
  lemma PutBack(env: Json, tail: seq<Byte>)
    ensures env.Null? ==> Place(env, tail) == Threw
    ensures !env.Null? && !IsMsg(env) ==> Place(env, tail) == Delivered(env)
    ensures IsMsg(env) ==>
      var fields, e := env.fields, Place(env, tail);
      var binloc := if "_binloc" in fields then fields["_binloc"] else Null;
      var payload := if "p" in fields then fields["p"] else Null;
      && (e.Delivered? || e.DeliveredWithData?) && e.env.Obj? && "_binloc" !in e.env.fields
      && Same(e.env.fields, fields, {"p", "_binloc"})
      && (if binloc == Str("p") then e.Delivered? && "p" in e.env.fields && e.env.fields["p"] == Buf(tail)
          else if binloc == Str("p.data") && (payload.Arr? || payload.Buf?) then
            e.DeliveredWithData? && e.data == tail && "p" in e.env.fields && e.env.fields["p"] == payload
          else if binloc == Str("p.data") then
            && e.Delivered? && "p" in e.env.fields && e.env.fields["p"].Obj?
            && "data" in e.env.fields["p"].fields && e.env.fields["p"].fields["data"] == Buf(tail)
            && Same(e.env.fields["p"].fields, if payload.Obj? then payload.fields else map[], {"data"})
          else e.Delivered? && ("p" in e.env.fields <==> "p" in fields) && ("p" in fields ==> e.env.fields["p"] == payload))
  {
  }

  function BodyEvent(pf: Platform, body: seq<Byte>): Event {
    if |body| < JSON_LEN_BYTES then Failed(TooShort(|body|))
    else
      var jsonLen := ReadU32(body);
      if |body| < JSON_LEN_BYTES + jsonLen then Failed(Truncated(jsonLen, |body| - JSON_LEN_BYTES))
      else
        var parsed := pf.parse(body[JSON_LEN_BYTES..JSON_LEN_BYTES + jsonLen]);
        if parsed.None? then Failed(Malformed)
        else
          var env := Revive(pf, parsed.value);
          if |body| > JSON_LEN_BYTES + jsonLen then Place(env, body[JSON_LEN_BYTES + jsonLen..])
          else Delivered(env)
  }

  /** The bodies the format allows: a length, that many bytes of parseable JSON text, any tail. */
  ghost predicate Formed(pf: Platform, body: seq<Byte>, json: seq<Byte>, tail: seq<Byte>) {
    && |body| >= JSON_LEN_BYTES && BigEndian(body[..JSON_LEN_BYTES]) == |json|
    && body[JSON_LEN_BYTES..] == json + tail && pf.parse(json).Some?
  }

  /** A body is reported as damaged exactly when it is not of that form, and otherwise by its parts. */
  lemma BodyGrammar(pf: Platform, body: seq<Byte>)
    ensures !BodyEvent(pf, body).Failed? <==> exists json, tail :: Formed(pf, body, json, tail)
    ensures forall json, tail | Formed(pf, body, json, tail) ::
      BodyEvent(pf, body)
        == var env := Revive(pf, pf.parse(json).value); if tail == [] then Delivered(env) else Place(env, tail)
  {
    if !BodyEvent(pf, body).Failed? {
      var n := ReadU32(body);
      ReadIsBigEndian(body);
      assert body[JSON_LEN_BYTES..] == body[JSON_LEN_BYTES..JSON_LEN_BYTES + n] + body[JSON_LEN_BYTES + n..];
      assert Formed(pf, body, body[JSON_LEN_BYTES..JSON_LEN_BYTES + n], body[JSON_LEN_BYTES + n..]);
    }
    forall json, tail | Formed(pf, body, json, tail)
      ensures BodyEvent(pf, body)
        == var env := Revive(pf, pf.parse(json).value); if tail == [] then Delivered(env) else Place(env, tail)
    {
      ReadIsBigEndian(body);
      assert body == body[..JSON_LEN_BYTES] + json + tail;
    }
  }

  /** Which damage is reported: too short for a length, shorter than it says, or not JSON. */
  lemma DamageReported(pf: Platform, body: seq<Byte>)
    ensures |body| < JSON_LEN_BYTES ==> BodyEvent(pf, body) == Failed(TooShort(|body|))
    ensures |body| >= JSON_LEN_BYTES ==>
      var n, available := BigEndian(body[..JSON_LEN_BYTES]), |body| - JSON_LEN_BYTES;
      && (available < n ==> BodyEvent(pf, body) == Failed(Truncated(n, available)))
      && (available >= n && pf.parse(body[JSON_LEN_BYTES..][..n]).None? ==> BodyEvent(pf, body) == Failed(Malformed))
  {
    if |body| >= JSON_LEN_BYTES {
      ReadIsBigEndian(body);
      var n := ReadU32(body);
      if |body| >= JSON_LEN_BYTES + n {
        assert body[JSON_LEN_BYTES..JSON_LEN_BYTES + n] == body[JSON_LEN_BYTES..][..n];
      }
    }
  }

  lemma PartsOf(body: seq<Byte>, json: seq<Byte>, tail: seq<Byte>)
    requires |json| < U32_LIMIT && body == U32(|json|) + json + tail
    ensures ReadU32(body) == |json|
    ensures body[JSON_LEN_BYTES..JSON_LEN_BYTES + |json|] == json && body[JSON_LEN_BYTES + |json|..] == tail
  {
    assert body == U32(|json|) + (json + tail);
    ReadBack(|json|, json + tail);
  }

  /** The JSON stage of the decoder. */
  function JsonStage(pf: Platform): Meaning {
    body => BodyEvent(pf, body)
  }

  /* ---------------------------------- round trip ---------------------------------- */

  /** What survives the printed JSON of an envelope. */
  function HeadReceived(pf: Platform, env: Envelope): Json {
    Revive(pf, Lower(HeadOf(env)))
  }

  /** The printed head of the envelope parses back to itself. */
  ghost predicate Prints(pf: Platform, env: Envelope) {
    pf.Printable(Lower(HeadOf(env)))
  }

  lemma BodyMeaning(pf: Platform, env: Envelope)
    requires Prints(pf, env) && Accepted(pf, env)
    ensures
      var head := HeadReceived(pf, env);
      BodyEvent(pf, Body(pf, env)) == if TailBytes(env) == [] then Delivered(head) else Place(head, TailBytes(env))
  {
    var json, tail := JsonText(pf, env), TailBytes(env);
    PartsOf(Body(pf, env), json, tail);
  }

  /** The keys of a printed object come back unless the object itself imitates a Buffer. */
  lemma HeadKeys(pf: Platform, fields: map<string, Json>)
    ensures
      var got := Revive(pf, Lower(Obj(fields)));
      got.Buf? || (got.Obj? && got.fields.Keys == fields.Keys
                   && forall k | k in fields :: got.fields[k] == Revive(pf, Lower(fields[k])))
  {
    var low := Lower(Obj(fields)).fields;
    var up := map k | k in low :: Revive(pf, low[k]);
    assert up.Keys == fields.Keys;
    assert Revive(pf, Lower(Obj(fields))) == ReviveNode(pf, up);
  }

  lemma DropDataShape(p: Json)
    requires DataIsBuffer(p)
    ensures NoShape(Obj(p.fields - {"data"})) <==> NoShape(p)
  {
    var q := p.fields - {"data"};
    assert forall k | k in q :: q[k] == p.fields[k];
    assert forall k | k in p.fields && k != "data" :: k in q;
  }

  /** Taking the tail out neither hides nor creates an imitation of a Buffer. */
  lemma HeadShape(env: Envelope)
    requires TailOf(env).Some? ==> "_binloc" !in env.fields
    ensures NoShape(HeadOf(env)) <==> NoShape(env)
  {
    if TailOf(env).Some? {
      var head, fields := HeadOf(env).fields, env.fields;
      assert Shaped(head) <==> Shaped(fields);
      assert forall k | k in fields && k != "p" :: k in head && head[k] == fields[k];
      assert forall k | k in head && k != "p" && k != "_binloc" :: k in fields;
      if fields["p"].Obj? {
        DropDataShape(fields["p"]);
        assert NoShape(head["p"]) <==> NoShape(fields["p"]);
      }
    }
  }

  /** An envelope reaches the other side unchanged exactly when this holds. */
  ghost predicate Intact(env: Envelope) {
    && NoShape(env)
    && (TailOf(env).Some? ==> TailOf(env).value != [] && "_binloc" !in env.fields)
  }

  lemma PlaceRestores(env: Envelope)
    requires Intact(env) && TailOf(env).Some?
    ensures Place(HeadOf(env), TailBytes(env)) == Delivered(env)
  {
    var fields, head := env.fields, HeadOf(env).fields;
    var bare := head - {"_binloc"};
    if fields["p"].Buf? {
      assert bare["p" := fields["p"]] == fields;
    } else {
      var p := fields["p"].fields;
      assert (p - {"data"})["data" := p["data"]] == p;
      assert bare["p" := fields["p"]] == fields;
    }
  }

  lemma IntactArrives(pf: Platform, env: Envelope)
    requires pf.KeepsBytes() && Prints(pf, env) && Accepted(pf, env) && Intact(env)
    ensures BodyEvent(pf, Body(pf, env)) == Delivered(env)
  {
    BodyMeaning(pf, env);
    HeadShape(env);
    ReviveUndoesLower(pf, HeadOf(env));
    if TailOf(env).Some? {
      PlaceRestores(env);
    }
  }

  /** A tail put back over revived JSON leaves no imitation of a Buffer and no `_binloc`. */
  lemma PlacedIsClean(head: Json, tail: seq<Byte>, env: Json)
    requires NoShape(head) && IsMsg(head) && Place(head, tail) == Delivered(env)
    ensures NoShape(env) && "_binloc" !in env.fields
  {
    var bare := head.fields - {"_binloc"};
    assert forall k | k in bare :: bare[k] == head.fields[k];
    var out := env.fields;
    assert forall k | k in out && k != "p" :: k in bare && out[k] == bare[k];
    if "p" in bare && bare["p"].Obj? {
      var p := bare["p"].fields;
      assert NoShape(bare["p"]);
    }
  }

  lemma EmptyTailLosesData(pf: Platform, env: Envelope)
    requires TailOf(env) == Some([])
    ensures HeadReceived(pf, env) != env
  {
    var fields, head := env.fields, HeadOf(env).fields;
    HeadKeys(pf, head);
    if fields["p"].Obj? {
      HeadKeys(pf, head["p"].fields);
      assert "data" !in head["p"].fields;
    } else {
      assert "p" !in head;
    }
  }

  /** Round trip of one envelope, with the exact condition under which it holds. */
  lemma RoundTripExact(pf: Platform, env: Envelope)
    requires pf.KeepsBytes() && Prints(pf, env) && Accepted(pf, env)
    ensures BodyEvent(pf, Body(pf, env)) == Delivered(env) <==> Intact(env)
  {
    if Intact(env) {
      IntactArrives(pf, env);
    } else if BodyEvent(pf, Body(pf, env)) == Delivered(env) {
      BodyMeaning(pf, env);
      ReviveLeavesNoShape(pf, Lower(HeadOf(env)));
      if TailBytes(env) != [] {
        PlacedIsClean(HeadReceived(pf, env), TailBytes(env), env);
      } else if TailOf(env).Some? {
        EmptyTailLosesData(pf, env);
      }
      assert false;
    }
  }

  /** An empty Buffer payload is not restored: the marker stays and the payload is missing. */
  lemma EmptyTail(pf: Platform, env: Envelope)
    requires pf.KeepsBytes() && Prints(pf, env) && Accepted(pf, env)
    requires NoShape(env) && TailOf(env) == Some([]) && "_binloc" !in env.fields
    ensures BodyEvent(pf, Body(pf, env)) == Delivered(HeadOf(env))
    ensures
      var got, p := HeadOf(env).fields, env.fields["p"];
      if p.Buf? then got == (env.fields - {"p"})["_binloc" := Str("p")]
      else got == env.fields["p" := Obj(p.fields - {"data"})]["_binloc" := Str("p.data")]
  {
    BodyMeaning(pf, env);
    HeadShape(env);
    ReviveUndoesLower(pf, HeadOf(env));
  }

  /** No encoded envelope makes a decoder throw. */
  lemma EncodedNeverThrows(pf: Platform, env: Envelope)
    requires pf.KeepsBytes() && Prints(pf, env) && Accepted(pf, env)
    ensures !BodyEvent(pf, Body(pf, env)).Threw?
  {
    BodyMeaning(pf, env);
    HeadKeys(pf, HeadOf(env).fields);
  }

  ghost predicate Sendable(pf: Platform, envs: seq<Envelope>) {
    forall i | 0 <= i < |envs| :: Accepted(pf, envs[i]) && Intact(envs[i]) && Prints(pf, envs[i])
  }

  function Wire(pf: Platform, envs: seq<Envelope>): seq<Byte>
    requires forall i | 0 <= i < |envs| :: Accepted(pf, envs[i])
  {
    if envs == [] then [] else Frame(Body(pf, envs[0])) + Wire(pf, envs[1..])
  }

  function AllDelivered(envs: seq<Envelope>): seq<Event> {
    if envs == [] then [] else [Delivered(envs[0])] + AllDelivered(envs[1..])
  }

  lemma {:induction false} WireScans(pf: Platform, envs: seq<Envelope>)
    requires pf.KeepsBytes() && Sendable(pf, envs)
    ensures Scan(JsonStage(pf), Wire(pf, envs)) == Outcome(AllDelivered(envs), [], Waiting)
    decreases |envs|
  {
    if envs != [] {
      IntactArrives(pf, envs[0]);
      ScanFrame(JsonStage(pf), Body(pf, envs[0]), Wire(pf, envs[1..]));
      WireScans(pf, envs[1..]);
    }
  }

  /**
   Whatever list of intact envelopes is encoded, and however the network cuts the bytes, the
   decoder reports exactly that list, no error, and keeps nothing buffered.
   */
  lemma StreamRoundTrip(pf: Platform, envs: seq<Envelope>, chunks: seq<seq<Byte>>)
    requires pf.KeepsBytes() && Sendable(pf, envs)
    requires Flatten(chunks) == Wire(pf, envs)
    ensures Feed(JsonStage(pf), FRESH, chunks) == Decoder(AllDelivered(envs), [])
  {
    hide Intact, Accepted, Prints, Wire, Scan, Feed, AllDelivered, JsonStage;
    WireScans(pf, envs);
    ChunkingInvariance(JsonStage(pf), chunks);
    assert [] + Wire(pf, envs) == Wire(pf, envs);
    assert [] + AllDelivered(envs) == AllDelivered(envs);
  }

  /* ------------------------ the hypotheses can be met ------------------------ */

  function IndexOf(values: seq<Json>, j: Json): (i: nat)
    ensures i <= |values| && (i < |values| ==> values[i] == j)
    ensures j in values ==> i < |values|
  {
    if values == [] then 0 else if values[0] == j then 0 else 1 + IndexOf(values[1..], j)
  }

  /** A platform that prints the given values, each as its own short text. */
  function PlatformFor(values: seq<Json>): Platform {
    Platform(
      (j: Json) => seq(IndexOf(values, j), _ => 0),
      (text: seq<Byte>) => if |text| < |values| then Some(values[|text|]) else None,
      (j: Json) => if j.Num? && 0.0 <= j.n < 256.0 then j.n.Floor else 0)
  }

  function Heads(envs: seq<Envelope>): seq<Json> {
    if envs == [] then [] else [Lower(HeadOf(envs[0]))] + Heads(envs[1..])
  }

  lemma {:induction false} HeadsAt(envs: seq<Envelope>, i: nat)
    requires i < |envs|
    ensures |Heads(envs)| == |envs| && Lower(HeadOf(envs[i])) in Heads(envs)
    decreases |envs|
  {
    if |envs| > 1 { HeadsAt(envs[1..], if i > 0 then i - 1 else 0); }
  }

  /** For every list of envelopes there is a platform that meets the hypotheses of the round trips. */
  lemma HypothesesMet(envs: seq<Envelope>)
    ensures
      var pf := PlatformFor(Heads(envs));
      && pf.KeepsBytes()
      && (forall i | 0 <= i < |envs| :: Prints(pf, envs[i]) && |JsonText(pf, envs[i])| <= |envs|)
  {
    var pf := PlatformFor(Heads(envs));
    forall i | 0 <= i < |envs| ensures Prints(pf, envs[i]) && |JsonText(pf, envs[i])| <= |envs| {
      HeadsAt(envs, i);
    }
  }

  /** In particular a list with a Buffer payload can be sent. */
  lemma BuffersCanBeSent(data: seq<Byte>)
    requires data != [] && |data| <= MAX_FRAME_BYTES - 8
    ensures
      var env: Envelope := Obj(map["k" := Str("msg"), "p" := Buf(data)]);
      exists pf: Platform :: pf.KeepsBytes() && Sendable(pf, [env]) && TailOf(env) == Some(data)
  {
    var env: Envelope := Obj(map["k" := Str("msg"), "p" := Buf(data)]);
    HypothesesMet([env]);
    var pf := PlatformFor(Heads([env]));
    assert env == [env][0];
    assert NoShape(env);
    assert Sendable(pf, [env]);
  }
}
