/**
 JSON values as the codec sees them, with Node `Buffer` objects as leaves: the lowering that
 `JSON.stringify` applies to them and the reviver the decoder passes to `JSON.parse`.
 */
module Json {
  import opened Common

  datatype Json =
    | Null
    | Bool(b: bool)
    | Num(n: real)
    | Str(s: string)
    | Arr(items: seq<Json>)
    | Obj(fields: map<string, Json>)
    | Buf(bytes: seq<Byte>)

  /**
   The JavaScript platform: JSON text as UTF-8 bytes, and the coercion `Buffer.from` applies to
   each element of an array. `parse` yields None where `JSON.parse` throws.
   */
  datatype Platform = Platform(
    ser: Json -> seq<Byte>,
    parse: seq<Byte> -> Option<Json>,
    byteOf: Json -> Byte)
  {
    /** A number 0..255 in an array is that byte. */
    ghost predicate KeepsBytes() {
      forall b: Byte {:trigger b as real} :: byteOf(Num(b as real)) == b
    }

    /** This value survives being printed and parsed. */
    ghost predicate Printable(j: Json) {
      parse(ser(j)) == Some(j)
    }
  }

  /** No Buffer anywhere: the values JSON text can denote. */
  ghost predicate Plain(j: Json) {
    match j
    case Buf(_) => false
    case Arr(items) => forall i | 0 <= i < |items| :: Plain(items[i])
    case Obj(fields) => forall k | k in fields :: Plain(fields[k])
    case _ => true
  }

  /** The object shape that `Buffer.prototype.toJSON` produces and the reviver looks for. */
  predicate Shaped(fields: map<string, Json>) {
    && "type" in fields && fields["type"] == Str("Buffer")
    && "data" in fields && fields["data"].Arr?
  }

  ghost predicate NoShape(j: Json) {
    match j
    case Arr(items) => forall i | 0 <= i < |items| :: NoShape(items[i])
    case Obj(fields) => !Shaped(fields) && forall k | k in fields :: NoShape(fields[k])
    case _ => true
  }

  function LowerBytes(bytes: seq<Byte>): Json {
    Obj(map["type" := Str("Buffer"), "data" := Arr(seq(|bytes|, i requires 0 <= i < |bytes| => Num(bytes[i] as real)))])
  }

  /** What `JSON.stringify` prints for a value: every Buffer through its `toJSON`. */
  function Lower(j: Json): Json {
    match j
    case Buf(bytes) => LowerBytes(bytes)
    case Arr(items) => Arr(seq(|items|, i requires 0 <= i < |items| => Lower(items[i])))
    case Obj(fields) => Obj(map k | k in fields :: Lower(fields[k]))
    case _ => j
  }

  /** `JSON.parse`'s reviver walk: children first, then the node itself through `_revive_buffers`. */
  function Revive(pf: Platform, j: Json): Json {
    match j
    case Arr(items) => Arr(seq(|items|, i requires 0 <= i < |items| => Revive(pf, items[i])))
    case Obj(fields) => ReviveNode(pf, map k | k in fields :: Revive(pf, fields[k]))
    case _ => j
  }

  function ReviveNode(pf: Platform, fields: map<string, Json>): Json {
    if Shaped(fields) then
      var items := fields["data"].items;
      Buf(seq<Byte>(|items|, i requires 0 <= i < |items| => pf.byteOf(items[i])))
    else Obj(fields)
  }

  /** What `JSON.stringify` prints, node by node: a Buffer as its type and its bytes in order. */
  lemma Printed(j: Json)
    ensures j.Buf? ==>
      && Lower(j).Obj? && Lower(j).fields.Keys == {"type", "data"} && Lower(j).fields["type"] == Str("Buffer")
      && Lower(j).fields["data"].Arr? && |Lower(j).fields["data"].items| == |j.bytes|
      && forall i | 0 <= i < |j.bytes| :: Lower(j).fields["data"].items[i] == Num(j.bytes[i] as real)
    ensures j.Arr? ==>
      && Lower(j).Arr? && |Lower(j).items| == |j.items|
      && forall i | 0 <= i < |j.items| :: Lower(j).items[i] == Lower(j.items[i])
    ensures j.Obj? ==>
      && Lower(j).Obj? && Lower(j).fields.Keys == j.fields.Keys
      && forall k | k in j.fields :: Lower(j).fields[k] == Lower(j.fields[k])
    ensures !j.Buf? && !j.Arr? && !j.Obj? ==> Lower(j) == j
  {
  }

  /**
   What the reviver returns, node by node: children first, and then an object whose `type` is
   "Buffer" and whose `data` is an array is a Buffer of its elements in order.
   */
  lemma Revived(pf: Platform, j: Json)
    ensures j.Arr? ==>
      && Revive(pf, j).Arr? && |Revive(pf, j).items| == |j.items|
      && forall i | 0 <= i < |j.items| :: Revive(pf, j).items[i] == Revive(pf, j.items[i])
    ensures j.Obj? ==>
      var fields := j.fields;
      if "type" in fields && Revive(pf, fields["type"]) == Str("Buffer") && "data" in fields && Revive(pf, fields["data"]).Arr? then
        var items := Revive(pf, fields["data"]).items;
        && Revive(pf, j).Buf? && |Revive(pf, j).bytes| == |items|
        && forall i | 0 <= i < |items| :: Revive(pf, j).bytes[i] == pf.byteOf(items[i])
      else
        && Revive(pf, j).Obj? && Revive(pf, j).fields.Keys == fields.Keys
        && forall k | k in fields :: Revive(pf, j).fields[k] == Revive(pf, fields[k])
    ensures !j.Arr? && !j.Obj? ==> Revive(pf, j) == j
  {
  }

  lemma {:induction false} LowerIsPlain(j: Json)
    ensures Plain(Lower(j))
  {
    match j
    case Arr(items) =>
      forall i | 0 <= i < |items| ensures Plain(Lower(items[i])) { LowerIsPlain(items[i]); }
    case Obj(fields) =>
      forall k | k in fields ensures Plain(Lower(fields[k])) { LowerIsPlain(fields[k]); }
    case _ =>
  }

  /** Whatever the text was, no Buffer-shaped object survives the reviver. */
  lemma {:induction false} ReviveLeavesNoShape(pf: Platform, j: Json)
    ensures NoShape(Revive(pf, j))
  {
    match j
    case Arr(items) =>
      forall i | 0 <= i < |items| ensures NoShape(Revive(pf, items[i])) { ReviveLeavesNoShape(pf, items[i]); }
    case Obj(fields) =>
      forall k | k in fields ensures NoShape(Revive(pf, fields[k])) { ReviveLeavesNoShape(pf, fields[k]); }
    case _ =>
  }

  lemma {:induction false} ReviveKeepsUnshaped(pf: Platform, j: Json)
    requires NoShape(j)
    ensures Revive(pf, j) == j
  {
    match j
    case Arr(items) =>
      forall i | 0 <= i < |items| ensures Revive(pf, items[i]) == items[i] { ReviveKeepsUnshaped(pf, items[i]); }
    case Obj(fields) =>
      forall k | k in fields ensures Revive(pf, fields[k]) == fields[k] { ReviveKeepsUnshaped(pf, fields[k]); }
      assert (map k | k in fields :: Revive(pf, fields[k])) == fields;
    case _ =>
  }

  /** Reviving twice is reviving once. */
  lemma ReviveIdempotent(pf: Platform, j: Json)
    ensures Revive(pf, Revive(pf, j)) == Revive(pf, j)
  {
    ReviveLeavesNoShape(pf, j);
    ReviveKeepsUnshaped(pf, Revive(pf, j));
  }

  lemma ReviveLoweredBytes(pf: Platform, bytes: seq<Byte>)
    requires pf.KeepsBytes()
    ensures Revive(pf, LowerBytes(bytes)) == Buf(bytes)
  {
    var low := LowerBytes(bytes);
    var items := low.fields["data"].items;
    var up := map k | k in low.fields :: Revive(pf, low.fields[k]);
    assert up["data"] == Arr(seq(|items|, i requires 0 <= i < |items| => Revive(pf, items[i])));
    assert forall i | 0 <= i < |items| :: Revive(pf, items[i]) == items[i];
    assert up["data"].items == items;
    assert forall i | 0 <= i < |bytes| :: pf.byteOf(items[i]) == bytes[i];
    assert Revive(pf, low) == ReviveNode(pf, up);
    assert seq<Byte>(|items|, i requires 0 <= i < |items| => pf.byteOf(items[i])) == bytes;
  }

  lemma {:induction false} ReviveUndoesLower(pf: Platform, j: Json)
    requires pf.KeepsBytes() && NoShape(j)
    ensures Revive(pf, Lower(j)) == j
  {
    match j
    case Buf(bytes) => ReviveLoweredBytes(pf, bytes);
    case Arr(items) =>
      forall i | 0 <= i < |items| ensures Revive(pf, Lower(items[i])) == items[i] { ReviveUndoesLower(pf, items[i]); }
      assert Revive(pf, Lower(j)).items == items;
    case Obj(fields) =>
      forall k | k in fields ensures Revive(pf, Lower(fields[k])) == fields[k] { ReviveUndoesLower(pf, fields[k]); }
      var low := Lower(j).fields;
      assert (map k | k in low :: Revive(pf, low[k])) == fields;
    case _ =>
  }

  /** Buffers survive the text exactly when no ordinary object in the value imitates one. */
  lemma RevivalExact(pf: Platform, j: Json)
    requires pf.KeepsBytes()
    ensures Revive(pf, Lower(j)) == j <==> NoShape(j)
  {
    if NoShape(j) { ReviveUndoesLower(pf, j); }
    ReviveLeavesNoShape(pf, Lower(j));
  }
}
