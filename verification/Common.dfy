/** Option and Result values, bytes, and the big-endian length words of the wire format. */
module Common {

  datatype Option<+T> = None | Some(value: T)

  datatype Result<+T, +E> = Success(value: T) | Failure(error: E)

  type Byte = n: int | 0 <= n < 256

  const U32_LIMIT: int := 0x1_0000_0000

  /** The number that a sequence of bytes denotes in base 256, most significant byte first. */
  function BigEndian(b: seq<Byte>): nat {
    if b == [] then 0 else BigEndian(b[..|b| - 1]) * 256 + b[|b| - 1] as int
  }

  function Weight(places: nat): nat {
    if places == 0 then 1 else 256 * Weight(places - 1)
  }

  /** The first byte weighs most. */
  lemma {:induction false} MostSignificantFirst(first: Byte, rest: seq<Byte>)
    ensures BigEndian([first] + rest) == first as int * Weight(|rest|) + BigEndian(rest)
    decreases |rest|
  {
    if rest == [] {
      assert [first] + rest == [first] && [first][..0] == [];
    } else {
      var init, last := rest[..|rest| - 1], rest[|rest| - 1];
      assert ([first] + rest)[..|rest|] == [first] + init;
      MostSignificantFirst(first, init);
      Shift(first as int, Weight(|init|), BigEndian(init), last as int);
    }
  }

  lemma Shift(first: int, weight: int, low: int, last: int)
    ensures (first * weight + low) * 256 + last == first * (256 * weight) + (low * 256 + last)
  {
  }

  /** `readUInt32BE` at the start of a buffer. */
  function ReadU32(b: seq<Byte>): (n: nat)
    requires 4 <= |b|
    ensures n < U32_LIMIT
  {
    b[0] as int * 0x100_0000 + b[1] as int * 0x1_0000 + b[2] as int * 256 + b[3] as int
  }

  /** `writeUInt32BE`. */
  function U32(n: nat): (b: seq<Byte>)
    requires n < U32_LIMIT
    ensures |b| == 4
  {
    [n / 0x100_0000, n / 0x1_0000 % 256, n / 256 % 256, n % 256]
  }

  /** Four bytes, the first one the most significant. */
  lemma FourBytes(b: seq<Byte>)
    requires |b| == 4
    ensures BigEndian(b) == ((b[0] as int * 256 + b[1] as int) * 256 + b[2] as int) * 256 + b[3] as int
  {
    var three, two, one := b[..3], b[..2], b[..1];
    assert three[..2] == two && two[..1] == one && one[..0] == [];
    assert BigEndian(one) == b[0] as int;
    assert BigEndian(two) == BigEndian(one) * 256 + b[1] as int;
    assert BigEndian(three) == BigEndian(two) * 256 + b[2] as int;
  }

  lemma ReadIsBigEndian(b: seq<Byte>)
    requires 4 <= |b|
    ensures ReadU32(b) == BigEndian(b[..4])
  {
    FourBytes(b[..4]);
  }

  lemma WrittenBigEndian(n: nat)
    requires n < U32_LIMIT
    ensures |U32(n)| == 4 && BigEndian(U32(n)) == n
  {
    ReadBack(n, []);
    assert U32(n) + [] == U32(n) && U32(n)[..4] == U32(n);
    ReadIsBigEndian(U32(n));
  }

  lemma ReadBack(n: nat, rest: seq<Byte>)
    requires n < U32_LIMIT
    ensures ReadU32(U32(n) + rest) == n
  {
    var b := U32(n);
    assert (b + rest)[..4] == b;
    assert n / 256 == n / 0x1_0000 * 256 + n / 256 % 256;
    assert n / 0x1_0000 == n / 0x100_0000 * 256 + n / 0x1_0000 % 256;
  }

  ghost predicate Distinct<T>(s: seq<T>) {
    forall i, j | 0 <= i < j < |s| :: s[i] != s[j]
  }

  function Flatten<T>(parts: seq<seq<T>>): seq<T> {
    if parts == [] then [] else parts[0] + Flatten(parts[1..])
  }

  lemma FlattenCons<T>(first: seq<T>, others: seq<seq<T>>, rest: seq<T>)
    ensures Flatten([first] + others) + rest == first + (Flatten(others) + rest)
  {
    assert ([first] + others)[1..] == others;
    assert (first + Flatten(others)) + rest == first + (Flatten(others) + rest);
  }
}
