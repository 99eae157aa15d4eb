/** The stored form of a downloaded rule set: version byte, content, update time and entity tag. */
module SavedBinary {
  import opened Common
  import opened DnsMessage

  type Bytes = seq<Byte>

  /** `updated` is in whole seconds since the epoch, negative before it. */
  datatype Saved = Saved(content: Bytes, updated: int, etag: Bytes) {
    /** Go slices and 64-bit times are never larger. */
    predicate InRange() {
      |content| < MAX_INT64 && |etag| < MAX_INT64 && -MAX_INT64 <= updated < MAX_INT64
    }
  }

  const MAX_INT64 := 0x8000_0000_0000_0000
  const TWO_64 := 0x1_0000_0000_0000_0000

  /** A value and the bytes after it. */
  datatype Parsed<T> = Parsed(value: T, rest: Bytes)

  // ---- uvarint ----------------------------------------------------------------------------------

  function Uvarint(n: nat): (r: Bytes)
    ensures r != []
  {
    if n < 128 then [n] else [n % 128 + 128] + Uvarint(n / 128)
  }

  /** The byte at position `i` of a uvarint and those after it: at most ten, and the tenth at most 1. */
  function ReadUvarintFrom(data: Bytes, i: nat): Option<Parsed<nat>>
    decreases |data|
  {
    if i >= 10 || data == [] then None
    else if data[0] < 128 then
      if i == 9 && data[0] > 1 then None else Some(Parsed(data[0], data[1..]))
    else
      match ReadUvarintFrom(data[1..], i + 1)
      case None => None
      case Some(p) => Some(Parsed(data[0] - 128 + 128 * p.value, p.rest))
  }

  /** What still fits from position `i` on: 64 bits in all. */
  function Bound(i: nat): nat
    requires i <= 9
    decreases 9 - i
  {
    if i == 9 then 2 else 128 * Bound(i + 1)
  }

  lemma Bound0()
    ensures Bound(0) == TWO_64
  {
    assert Bound(8) == 256;
    assert Bound(6) == 128 * Bound(7) && Bound(7) == 128 * Bound(8);
    assert Bound(4) == 128 * Bound(5) && Bound(5) == 128 * Bound(6);
    assert Bound(2) == 128 * Bound(3) && Bound(3) == 128 * Bound(4);
  }

  lemma {:induction false} UvarintReads(n: nat, tail: Bytes, i: nat)
    requires i <= 9 && n < Bound(i)
    ensures ReadUvarintFrom(Uvarint(n) + tail, i) == Some(Parsed(n, tail))
    decreases n
  {
    var data := Uvarint(n) + tail;
    if n < 128 {
      assert data[1..] == tail;
    } else {
      UvarintReads(n / 128, tail, i + 1);
      assert data[1..] == Uvarint(n / 128) + tail;
    }
  }

  lemma {:induction false} UvarintPrefixFails(n: nat, k: nat, i: nat)
    requires k < |Uvarint(n)|
    ensures ReadUvarintFrom(Uvarint(n)[..k], i) == None
    decreases n
  {
    if n >= 128 && k > 0 && i < 10 {
      UvarintPrefixFails(n / 128, k - 1, i + 1);
      assert Uvarint(n)[..k][1..] == Uvarint(n / 128)[..k - 1];
    }
  }

  // ---- big-endian 64-bit integers ---------------------------------------------------------------

  function Big(n: nat, size: nat): (r: Bytes)
    ensures |r| == size
  {
    if size == 0 then [] else Big(n / 256, size - 1) + [n % 256]
  }

  function Value(data: Bytes): nat {
    if data == [] then 0 else 256 * Value(data[..|data| - 1]) + data[|data| - 1]
  }

  function Pow256(k: nat): (r: nat)
    ensures r > 0
  {
    if k == 0 then 1 else 256 * Pow256(k - 1)
  }

  lemma {:induction false} ValueOfBig(n: nat, size: nat)
    requires n < Pow256(size)
    ensures Value(Big(n, size)) == n
  {
    if size > 0 {
      ValueOfBig(n / 256, size - 1);
      assert Big(n, size)[..size - 1] == Big(n / 256, size - 1);
    }
  }

  /** The most significant byte comes first. */
  lemma {:induction false} BigFirst(n: nat, size: nat)
    requires size > 0 && n < Pow256(size)
    ensures Big(n, size)[0] == n / Pow256(size - 1)
  {
    if size > 1 {
      BigFirst(n / 256, size - 1);
      assert Big(n, size)[0] == Big(n / 256, size - 1)[0];
      DivideTwice(n, Pow256(size - 2));
    }
  }

  lemma DivideTwice(n: nat, d: nat)
    requires d > 0
    ensures n / 256 / d == n / (256 * d)
  {
    var q := n / 256 / d;
    assert q * d <= n / 256 < (q + 1) * d;
    assert q * (256 * d) == 256 * (q * d) <= n;
    assert (q + 1) * (256 * d) == 256 * ((q + 1) * d) > n;
    QuotientIs(n, 256 * d, q);
  }

  lemma QuotientIs(n: nat, d: nat, q: nat)
    requires d > 0 && q * d <= n < (q + 1) * d
    ensures n / d == q
  {
    var r := n / d;
    assert n == d * r + n % d;
    assert r < q ==> (r + 1) * d <= q * d;
    assert q < r ==> (q + 1) * d <= r * d;
  }

  /** Two's complement. */
  function Unsigned(t: int): nat
    requires -MAX_INT64 <= t < MAX_INT64
  {
    if t < 0 then t + TWO_64 else t
  }

  function Signed(n: nat): int {
    if n >= MAX_INT64 then n - TWO_64 else n
  }

  function ReadInt64(data: Bytes): Option<Parsed<int>> {
    if |data| < 8 then None else Some(Parsed(Signed(Value(data[..8])), data[8..]))
  }

  lemma Int64Reads(t: int, tail: Bytes)
    requires -MAX_INT64 <= t < MAX_INT64
    ensures ReadInt64(Big(Unsigned(t), 8) + tail) == Some(Parsed(t, tail))
  {
    assert Pow256(4) == 0x1_0000_0000;
    assert Pow256(6) == 256 * Pow256(5) && Pow256(5) == 256 * Pow256(4);
    assert Pow256(8) == 256 * Pow256(7) && Pow256(7) == 256 * Pow256(6);
    ValueOfBig(Unsigned(t), 8);
    var data := Big(Unsigned(t), 8) + tail;
    assert data[..8] == Big(Unsigned(t), 8) && data[8..] == tail;
  }

  // ---- length-prefixed blocks -------------------------------------------------------------------

  function Block(b: Bytes): Bytes {
    Uvarint(|b|) + b
  }

  function ReadBlock(data: Bytes): Option<Parsed<Bytes>> {
    match ReadUvarintFrom(data, 0)
    case None => None
    case Some(p) => if |p.rest| < p.value then None else Some(Parsed(p.rest[..p.value], p.rest[p.value..]))
  }

  lemma BlockReads(b: Bytes, tail: Bytes)
    requires |b| < TWO_64
    ensures ReadBlock(Block(b) + tail) == Some(Parsed(b, tail))
  {
    Bound0();
    UvarintReads(|b|, b + tail, 0);
    assert Block(b) + tail == Uvarint(|b|) + (b + tail);
  }

  lemma BlockPrefixFails(b: Bytes, k: nat)
    requires |b| < TWO_64 && k < |Block(b)|
    ensures ReadBlock(Block(b)[..k]) == None
  {
    var n := |Uvarint(|b|)|;
    if k < n {
      UvarintPrefixFails(|b|, k, 0);
      assert Block(b)[..k] == Uvarint(|b|)[..k];
    } else {
      Bound0();
      UvarintReads(|b|, b[..k - n], 0);
      assert Block(b)[..k] == Uvarint(|b|) + b[..k - n];
    }
  }

  // ---- the whole record -------------------------------------------------------------------------

  function Encode(s: Saved): Bytes
    requires s.InRange()
  {
    [1] + (Block(s.content) + (Big(Unsigned(s.updated), 8) + Block(s.etag)))
  }

  /** The version byte is read and ignored, and so is whatever follows the record. */
  function Decode(data: Bytes): Option<Saved> {
    if data == [] then None else
    match ReadBlock(data[1..])
    case None => None
    case Some(content) =>
      match ReadInt64(content.rest)
      case None => None
      case Some(time) =>
        match ReadBlock(time.rest)
        case None => None
        case Some(etag) => Some(Saved(content.value, time.value, etag.value))
  }

  lemma RoundTrip(s: Saved, tail: Bytes)
    requires s.InRange()
    ensures Decode(Encode(s) + tail) == Some(s)
  {
    hide Block, ReadBlock, Big, ReadInt64;
    var last := Block(s.etag) + tail;
    var middle := Big(Unsigned(s.updated), 8) + last;
    BlockReads(s.etag, tail);
    Int64Reads(s.updated, last);
    BlockReads(s.content, middle);
    assert (Encode(s) + tail)[1..] == Block(s.content) + middle;
  }

  /** No strict prefix of a record decodes. */
  lemma PrefixFails(s: Saved, k: nat)
    requires s.InRange() && k < |Encode(s)|
    ensures Decode(Encode(s)[..k]) == None
  {
    hide Block, ReadBlock, Big;
    var content, time, etag := Block(s.content), Big(Unsigned(s.updated), 8), Block(s.etag);
    if k > 0 {
      var data := Encode(s)[..k][1..];
      if k - 1 < |content| {
        BlockPrefixFails(s.content, k - 1);
        assert data == content[..k - 1];
      } else {
        var j := k - 1 - |content|;
        BlockReads(s.content, (time + etag)[..j]);
        assert data == content + (time + etag)[..j];
        if j >= 8 {
          Int64Reads(s.updated, etag[..j - 8]);
          assert (time + etag)[..j] == time + etag[..j - 8];
          BlockPrefixFails(s.etag, j - 8);
        }
      }
    }
  }

  /** Different records have different encodings, and neither begins the other. */
  lemma EncodingIsUnambiguous(a: Saved, b: Saved, tail: Bytes)
    requires a.InRange() && b.InRange() && Encode(b) == Encode(a) + tail
    ensures a == b && tail == []
  {
    RoundTrip(a, tail);
    RoundTrip(b, []);
    assert Encode(b) + [] == Encode(b);
  }

  // ---- reading and writing step by step ---------------------------------------------------------

  method WriteUvarint(buffer: Bytes, n: nat) returns (r: Bytes)
    ensures r == buffer + Uvarint(n)
  {
    r := buffer;
    var x := n;
    while x >= 128
      invariant r + Uvarint(x) == buffer + Uvarint(n)
    {
      r := r + [x % 128 + 128];
      x := x / 128;
    }
    r := r + [x];
  }

  method Marshal(s: Saved) returns (r: Bytes)
    requires s.InRange()
    ensures r == Encode(s) && r[0] == 1
  {
    r := [1];
    r := WriteUvarint(r, |s.content|);
    r := r + s.content;
    r := r + Big(Unsigned(s.updated), 8);
    r := WriteUvarint(r, |s.etag|);
    r := r + s.etag;
  }

  /** A reader over a byte slice. */
  class Reader {
    const data: Bytes
    var pos: nat

    constructor (data: Bytes)
      ensures this.data == data && pos == 0
    {
      this.data, pos := data, 0;
    }

    ghost predicate Valid()
      reads this
    {
      pos <= |data|
    }

    method ReadByte() returns (b: Option<Byte>)
      requires Valid()
      modifies this
      ensures Valid()
      ensures if old(pos) < |data| then b == Some(data[old(pos)]) && pos == old(pos) + 1
              else b == None && pos == old(pos)
    {
      if pos == |data| {
        return None;
      }
      b := Some(data[pos]);
      pos := pos + 1;
    }

    /** At most ten bytes, the last of them below 128 and the tenth at most 1. */
    method ReadUvarint() returns (n: Option<nat>)
      requires Valid()
      modifies this
      ensures Valid()
      ensures match ReadUvarintFrom(data[old(pos)..], 0)
              case Some(p) => n == Some(p.value) && data[pos..] == p.rest
              case None => n == None
    {
      var x: nat, scale: nat := 0, 1;
      assert data[pos..] == data[old(pos)..];
      for i := 0 to 10
        invariant Valid() && scale > 0
        invariant Continues(ReadUvarintFrom(data[old(pos)..], 0), ReadUvarintFrom(data[pos..], i), x, scale)
      {
        ghost var rest := data[pos..];
        var b := ReadByte();
        if b.None? {
          return None;
        }
        assert rest[1..] == data[pos..];
        if b.value < 128 {
          if i == 9 && b.value > 1 {
            return None;
          }
          return Some(x + Scaled(b.value, scale));
        }
        Carry(ReadUvarintFrom(data[old(pos)..], 0), rest, i, x, scale);
        x, scale := x + Scaled(b.value - 128, scale), scale * 128;
      }
      return None;
    }

    /** Exactly `n` bytes, or an error. */
    method ReadFull(n: nat) returns (b: Option<Bytes>)
      requires Valid()
      modifies this
      ensures Valid()
      ensures if n <= |data[old(pos)..]|
              then b == Some(data[old(pos)..][..n]) && data[pos..] == data[old(pos)..][n..]
              else b == None
    {
      if |data| - pos < n {
        return None;
      }
      assert data[pos..][..n] == data[pos..pos + n];
      b := Some(data[pos..pos + n]);
      pos := pos + n;
      assert data[pos..] == data[old(pos)..][n..];
    }

    method ReadLengthAndBytes() returns (b: Option<Bytes>)
      requires Valid()
      modifies this
      ensures Valid()
      ensures match ReadBlock(data[old(pos)..])
              case Some(p) => b == Some(p.value) && data[pos..] == p.rest
              case None => b == None
    {
      var n := ReadUvarint();
      if n.None? {
        return None;
      }
      b := ReadFull(n.value);
    }
  }

  /** Fails, or restores the record. */
  method Unmarshal(data: Bytes) returns (r: Option<Saved>)
    ensures r == Decode(data)
  {
    hide ReadBlock, Value;
    var reader := new Reader(data);
    assert data[0..] == data;
    var version := reader.ReadByte();
    if version.None? {
      return None;
    }
    var content := reader.ReadLengthAndBytes();
    if content.None? {
      return None;
    }
    var time := reader.ReadFull(8);
    if time.None? {
      return None;
    }
    var etag := reader.ReadLengthAndBytes();
    if etag.None? {
      return None;
    }
    r := Some(Saved(content.value, Signed(Value(time.value)), etag.value));
  }

  /** The whole number is what was read so far plus what is still to come. */
  ghost predicate Continues(whole: Option<Parsed<nat>>, left: Option<Parsed<nat>>, x: nat, scale: nat) {
    match left
    case None => whole == None
    case Some(p) => whole.Some? && whole.value.value == x + Scaled(p.value, scale) && whole.value.rest == p.rest
  }

  function Scaled(n: nat, scale: nat): nat {
    n * scale
  }

  lemma Rescale(scale: nat, low: nat, high: nat)
    ensures Scaled(low + 128 * high, scale) == Scaled(low, scale) + Scaled(high, scale * 128)
  {
  }

  lemma Carry(whole: Option<Parsed<nat>>, data: Bytes, i: nat, x: nat, scale: nat)
    requires i < 10 && data != [] && data[0] >= 128
    requires Continues(whole, ReadUvarintFrom(data, i), x, scale)
    ensures Continues(whole, ReadUvarintFrom(data[1..], i + 1), x + Scaled(data[0] - 128, scale), scale * 128)
  {
    hide Scaled;
    var left := ReadUvarintFrom(data[1..], i + 1);
    if left.Some? {
      Rescale(scale, data[0] - 128, left.value.value);
    }
  }
}
