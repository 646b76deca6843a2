/** Big-endian integers and the QUIC variable-length integer (section 16 of
    RFC 9000), in its minimal-width form. */
module ByteCodecs {
  import opened Orders

  datatype Result<+T> = Ok(value: T) | Err(error: CodecError)

  datatype CodecError =
    | MissingVarint
    | TruncatedVarint
    | NonCanonicalVarint
    | TrailingBytes
    | NotWholeKeys
    | NotSortedUnique
    | NoAdmins
    | Truncated
    | UnsupportedVersion

  // ----- big-endian -----

  function Pow256(n: nat): nat {
    if n == 0 then 1 else 256 * Pow256(n - 1)
  }

  function ToBytes(v: nat, n: nat): (b: Bytes)
    ensures |b| == n
  {
    if n == 0 then [] else ToBytes(v / 256, n - 1) + [v % 256]
  }

  function FromBytes(b: Bytes): nat {
    if b == [] then 0 else 256 * FromBytes(b[..|b| - 1]) + b[|b| - 1]
  }

  lemma {:induction false} FromToBytes(v: nat, n: nat)
    requires v < Pow256(n)
    ensures FromBytes(ToBytes(v, n)) == v
  {
    if n > 0 {
      FromToBytes(v / 256, n - 1);
      assert ToBytes(v, n)[..n - 1] == ToBytes(v / 256, n - 1);
    }
  }

  lemma {:induction false} ToFromBytes(b: Bytes)
    ensures ToBytes(FromBytes(b), |b|) == b
    ensures FromBytes(b) < Pow256(|b|)
  {
    if b != [] {
      var n := |b| - 1;
      ToFromBytes(b[..n]);
      assert (256 * FromBytes(b[..n]) + b[n]) / 256 == FromBytes(b[..n]);
      assert b == b[..n] + [b[n]];
    }
  }

  lemma {:induction false} FromBytesSplit(f: byte, t: Bytes)
    ensures FromBytes([f] + t) == f * Pow256(|t|) + FromBytes(t)
  {
    if t != [] {
      var n := |t| - 1;
      FromBytesSplit(f, t[..n]);
      assert ([f] + t)[..|t|] == [f] + t[..n];
      assert f * Pow256(|t|) == 256 * (f * Pow256(n));
    } else {
      assert [f] + t == [f] && [f][..0] == [];
    }
  }

  lemma TopDigit(d: nat, p: nat, r: nat)
    requires d * p + r < 64 * p
    ensures d < 64
  {
    assert (64 - d) * p > 0;
  }

  /** The first byte holds the top digits. */
  lemma FirstByte(v: nat, n: nat)
    requires n > 0 && v < 64 * Pow256(n - 1)
    ensures v < Pow256(n) && ToBytes(v, n)[0] < 64
  {
    var b := ToBytes(v, n);
    FromToBytes(v, n);
    FromBytesSplit(b[0], b[1..]);
    assert b == [b[0]] + b[1..];
    TopDigit(b[0], Pow256(n - 1), FromBytes(b[1..]));
  }

  // ----- QUIC variable-length integers -----

  const VARINT_LIMIT: nat := 0x4000_0000_0000_0000

  function MinimalWidth(v: nat): nat {
    if v < 64 then 1 else if v < 16_384 then 2 else if v < 1_073_741_824 then 4 else 8
  }

  function Tag(width: nat): nat {
    if width == 1 then 0 else if width == 2 then 1 else if width == 4 then 2 else 3
  }

  function Width(first: byte): nat {
    if first < 64 then 1 else if first < 128 then 2 else if first < 192 then 4 else 8
  }

  /** The top two bits of the first byte are overwritten by the width's tag. */
  function Tagged(v: nat, w: nat): Bytes
    requires w == 1 || w == 2 || w == 4 || w == 8
  {
    var b := ToBytes(v, w);
    [b[0] % 64 + 64 * Tag(w)] + b[1..]
  }

  function EncodeVarint(v: u64): Bytes {
    Tagged(v, MinimalWidth(v))
  }

  function DecodeVarint(b: Bytes): Result<(nat, nat)> {
    if b == [] then Err(MissingVarint)
    else
      var w := Width(b[0]);
      if |b| < w then Err(TruncatedVarint)
      else
        var v := FromBytes([b[0] % 64] + b[1..w]);
        if w != MinimalWidth(v) then Err(NonCanonicalVarint) else Ok((v, w))
  }

  /** The decoder's loop: shift in one byte after another. */
  method ReadVarint(b: Bytes) returns (r: Result<(nat, nat)>)
    ensures r == DecodeVarint(b)
  {
    if b == [] { return Err(MissingVarint); }
    var width := Width(b[0]);
    if |b| < width { return Err(TruncatedVarint); }
    var value: nat := b[0] % 64;
    assert [b[0] % 64] + b[1..1] == [b[0] % 64] && FromBytes([b[0] % 64][..0]) == 0;
    for i := 1 to width
      invariant value == FromBytes([b[0] % 64] + b[1..i])
    {
      var next := [b[0] % 64] + b[1..i + 1];
      assert next[..|next| - 1] == [b[0] % 64] + b[1..i];
      value := 256 * value + b[i];
    }
    if width != MinimalWidth(value) { return Err(NonCanonicalVarint); }
    return Ok((value, width));
  }

  lemma VarintWidths(v: nat)
    requires v < VARINT_LIMIT
    ensures v < 64 * Pow256(MinimalWidth(v) - 1)
  {
    assert Pow256(0) == 1 && Pow256(1) == 256 && Pow256(2) == 65536 && Pow256(3) == 16777216;
    assert Pow256(4) == 4294967296 && Pow256(5) == 1099511627776 && Pow256(6) == 281474976710656;
    assert Pow256(7) == 72057594037927936;
  }

  /** A varint decodes to what was encoded exactly below two to the sixty-two. */
  lemma VarintRoundTrip(v: u64, rest: Bytes)
    ensures DecodeVarint(EncodeVarint(v) + rest) == Ok((v, MinimalWidth(v))) <==> v < VARINT_LIMIT
  {
    var w := MinimalWidth(v);
    var b, e := ToBytes(v, w), EncodeVarint(v);
    var all := e + rest;
    assert Width(all[0]) == w && all[0] % 64 == b[0] % 64;
    assert all[1..w] == b[1..];
    if v < VARINT_LIMIT {
      VarintWidths(v);
      FirstByte(v, w);
      FromToBytes(v, w);
      assert [b[0]] + b[1..] == b;
    } else {
      var d := DecodeVarint(all);
      if d.Ok? {
        VarintBound(all);
      }
    }
  }

  lemma VarintBound(b: Bytes)
    requires DecodeVarint(b).Ok?
    ensures DecodeVarint(b).value.0 < VARINT_LIMIT
    ensures DecodeVarint(b).value.1 == MinimalWidth(DecodeVarint(b).value.0) <= |b|
  {
    var w := Width(b[0]);
    var t := b[1..w];
    FromBytesSplit(b[0] % 64, t);
    ToFromBytes(t);
    assert Pow256(0) == 1 && Pow256(1) == 256 && Pow256(2) == 65536 && Pow256(3) == 16777216;
    assert Pow256(4) == 4294967296 && Pow256(5) == 1099511627776 && Pow256(6) == 281474976710656;
    assert Pow256(7) == 72057594037927936;
  }

  /** Accepted prefixes are the encoder's own. */
  lemma VarintCanonical(b: Bytes)
    requires DecodeVarint(b).Ok?
    ensures var (v, w) := DecodeVarint(b).value; v <= U64_MAX && EncodeVarint(v) == b[..w]
  {
    var (v, w) := DecodeVarint(b).value;
    VarintBound(b);
    var plain := [b[0] % 64] + b[1..w];
    ToFromBytes(plain);
    assert ToBytes(v, w) == plain;
    assert b[0] == b[0] % 64 + 64 * Tag(w);
    assert b[..w] == [b[0]] + b[1..w];
  }
}
