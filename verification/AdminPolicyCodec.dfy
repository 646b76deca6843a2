/** The admin-policy component: a length-prefixed, sorted, duplicate-free list
    of 32-byte account keys. */
module AdminPolicyCodec {
  import opened Orders
  import opened ByteCodecs

  type Key = k: Bytes | |k| == 32 witness seq(32, _ => 0)

  function Elements(keys: seq<Key>): set<Key> {
    set k | k in keys
  }

  /** `sort` then `dedup`. */
  function Dedup(s: seq<Key>): seq<Key> {
    if |s| <= 1 then s else if s[0] == s[1] then Dedup(s[1..]) else [s[0]] + Dedup(s[1..])
  }

  function SortDedup(keys: seq<Key>): seq<Key> {
    Dedup(Sort(keys, KeyLe))
  }

  predicate KeyLe(a: Key, b: Key) {
    BytesLe(a, b)
  }

  ghost predicate Ascending(s: seq<Key>) {
    forall i, j :: 0 <= i < j < |s| ==> BytesLt(s[i], s[j])
  }

  function Concat(keys: seq<Key>): (b: Bytes)
    ensures |b| == 32 * |keys|
  {
    if keys == [] then [] else Concat(keys[..|keys| - 1]) + keys[|keys| - 1]
  }

  function Split(b: Bytes): (keys: seq<Key>)
    requires |b| % 32 == 0
    ensures 32 * |keys| == |b|
  {
    if b == [] then [] else Split(b[..|b| - 32]) + [b[|b| - 32..]]
  }

  function EncodeAdminPolicy(admins: seq<Key>): Result<Bytes>
    requires 32 * |admins| <= U64_MAX
  {
    var keys := SortDedup(admins);
    SortDedupLength(admins);
    if keys == [] then Err(NoAdmins) else Ok(EncodeVarint(32 * |keys|) + Concat(keys))
  }

  function DecodeKeys(body: Bytes): Result<seq<Key>> {
    if body == [] || |body| % 32 != 0 then Err(NotWholeKeys)
    else if SortDedup(Split(body)) != Split(body) then Err(NotSortedUnique)
    else Ok(Split(body))
  }

  function DecodeAdminPolicy(b: Bytes): Result<seq<Key>> {
    var prefix := DecodeVarint(b);
    if prefix.Err? then Err(prefix.error)
    else
      var (len, width) := prefix.value;
      if width + len != |b| then Err(TrailingBytes)
      else DecodeKeys(b[width..])
  }

  /** The encoder's loop over the sorted keys. */
  method WriteAdminPolicy(admins: seq<Key>) returns (r: Result<Bytes>)
    requires 32 * |admins| <= U64_MAX
    ensures r == EncodeAdminPolicy(admins)
  {
    var keys := SortDedup(admins);
    SortDedupLength(admins);
    if keys == [] { return Err(NoAdmins); }
    var adminBytes: Bytes := [];
    for i := 0 to |keys|
      invariant adminBytes == Concat(keys[..i])
    {
      assert keys[..i + 1][..i] == keys[..i];
      adminBytes := adminBytes + keys[i];
    }
    assert keys[..|keys|] == keys;
    return Ok(EncodeVarint(|adminBytes|) + adminBytes);
  }

  /** The decoder's loop over 32-byte chunks. */
  method ReadKeys(body: Bytes) returns (keys: seq<Key>)
    requires |body| % 32 == 0
    ensures keys == Split(body)
  {
    keys := [];
    var at := 0;
    while at < |body|
      invariant 0 <= at <= |body| && at % 32 == 0
      invariant keys == Split(body[..at])
    {
      RoomForChunk(at, |body|);
      NextChunk(body, at);
      keys := keys + [body[at..at + 32]];
      at := at + 32;
    }
    assert body[..|body|] == body;
  }

  method ReadAdminPolicy(b: Bytes) returns (r: Result<seq<Key>>)
    ensures r == DecodeAdminPolicy(b)
  {
    var prefix := ReadVarint(b);
    if prefix.Err? { return Err(prefix.error); }
    var (len, width) := prefix.value;
    if width + len != |b| { return Err(TrailingBytes); }
    if len == 0 || len % 32 != 0 { return Err(NotWholeKeys); }
    var admins := ReadKeys(b[width..]);
    if SortDedup(admins) != admins { return Err(NotSortedUnique); }
    return Ok(admins);
  }

  lemma RoomForChunk(at: nat, n: nat)
    requires at % 32 == 0 && n % 32 == 0 && at < n
    ensures at + 32 <= n && (at + 32) % 32 == 0
  {
  }

  lemma NextChunk(body: Bytes, at: nat)
    requires at % 32 == 0 && at + 32 <= |body|
    ensures Split(body[..at + 32]) == Split(body[..at]) + [body[at..at + 32]]
  {
    var longer := body[..at + 32];
    assert longer[..at] == body[..at];
    assert longer[at..] == body[at..at + 32];
  }

  // ----- sorting keys -----

  lemma KeyOrder()
    ensures TotalOrder(KeyLe)
  {
    forall x: Key, y: Key ensures KeyLe(x, y) || KeyLe(y, x) { BytesLeTotal(x, y); }
    forall x: Key, y: Key | KeyLe(x, y) && KeyLe(y, x) ensures x == y { BytesLeAntisymmetric(x, y); }
    forall x: Key, y: Key, z: Key | KeyLe(x, y) && KeyLe(y, z) ensures KeyLe(x, z) { BytesLeTransitive(x, y, z); }
  }

  lemma {:induction false} DedupSorted(s: seq<Key>)
    requires Sorted(s, KeyLe)
    ensures Ascending(Dedup(s)) && Elements(Dedup(s)) == Elements(s) && |Dedup(s)| <= |s|
    ensures s != [] ==> Dedup(s) != [] && Dedup(s)[0] == s[0]
  {
    if |s| > 1 {
      DedupSorted(s[1..]);
      var d := Dedup(s[1..]);
      assert s == [s[0]] + s[1..];
      if s[0] == s[1] {
        assert forall k :: k in s <==> k in s[1..];
      } else {
        assert KeyLe(s[0], s[1]);
        forall j | 0 <= j < |d| ensures BytesLt(s[0], d[j]) {
          if j > 0 {
            assert BytesLt(d[0], d[j]);
            BytesLeTransitive(s[0], d[0], d[j]);
            if s[0] == d[j] { BytesLeAntisymmetric(d[0], d[j]); }
          }
        }
        assert Elements([s[0]] + d) == {s[0]} + Elements(d);
        assert Elements(s) == {s[0]} + Elements(s[1..]);
      }
    }
  }

  lemma SortDedupFacts(keys: seq<Key>)
    ensures Ascending(SortDedup(keys)) && Elements(SortDedup(keys)) == Elements(keys)
  {
    KeyOrder();
    SortSorts(keys, KeyLe);
    SortElements(keys, KeyLe);
    DedupSorted(Sort(keys, KeyLe));
  }

  lemma SortDedupLength(keys: seq<Key>)
    ensures |SortDedup(keys)| <= |keys|
    ensures SortDedup(keys) == [] <==> keys == []
  {
    KeyOrder();
    SortSorts(keys, KeyLe);
    SortElements(keys, KeyLe);
    DedupSorted(Sort(keys, KeyLe));
  }

  lemma {:induction false} AscendingUnique(a: seq<Key>, b: seq<Key>)
    requires Ascending(a) && Ascending(b) && Elements(a) == Elements(b)
    ensures a == b
  {
    if b != [] { assert b[0] in Elements(b); }
    if a != [] {
      assert a[0] in Elements(b);
      assert b != [] && b[0] in Elements(a);
      var i :| 0 <= i < |b| && b[i] == a[0];
      var j :| 0 <= j < |a| && a[j] == b[0];
      if i > 0 && j > 0 { BytesLeAntisymmetric(a[0], b[0]); }
      assert a[0] == b[0];
      forall k: Key ensures k in Elements(a[1..]) <==> k in Elements(b[1..]) {
        assert k in Elements(a[1..]) <==> k in Elements(a) && k != a[0] by { TailElements(a, k); }
        assert k in Elements(b[1..]) <==> k in Elements(b) && k != b[0] by { TailElements(b, k); }
      }
      AscendingUnique(a[1..], b[1..]);
      assert a == [a[0]] + a[1..] && b == [b[0]] + b[1..];
    }
  }

  lemma TailElements(a: seq<Key>, k: Key)
    requires Ascending(a) && a != []
    ensures k in Elements(a[1..]) <==> k in Elements(a) && k != a[0]
  {
    assert a == [a[0]] + a[1..];
    if k in Elements(a[1..]) {
      var i :| 0 <= i < |a[1..]| && a[1..][i] == k;
      assert BytesLt(a[0], a[i + 1]);
    }
  }

  /** Sorting and deduplicating sees only which keys occur. */
  lemma SortDedupSet(a: seq<Key>, b: seq<Key>)
    requires Elements(a) == Elements(b)
    ensures SortDedup(a) == SortDedup(b)
  {
    SortDedupFacts(a);
    SortDedupFacts(b);
    AscendingUnique(SortDedup(a), SortDedup(b));
  }

  // ----- splitting -----

  lemma {:induction false} SplitConcat(keys: seq<Key>)
    ensures Split(Concat(keys)) == keys
  {
    if keys != [] {
      var n := |keys| - 1;
      SplitConcat(keys[..n]);
      var b := Concat(keys);
      assert b[..|b| - 32] == Concat(keys[..n]);
      assert b[|b| - 32..] == keys[n];
      assert keys == keys[..n] + [keys[n]];
    }
  }

  lemma {:induction false} ConcatSplit(b: Bytes)
    requires |b| % 32 == 0
    ensures Concat(Split(b)) == b
  {
    if b != [] {
      var m := |b| - 32;
      ConcatSplit(b[..m]);
      var keys := Split(b);
      assert keys[..|keys| - 1] == Split(b[..m]);
      assert b == b[..m] + b[m..];
    }
  }

  // ----- the component -----

  lemma SortDedupIdempotent(keys: seq<Key>)
    ensures SortDedup(SortDedup(keys)) == SortDedup(keys)
  {
    SortDedupFacts(keys);
    SortDedupSet(SortDedup(keys), keys);
  }

  /** Decoding an encoded list gives its sorted, duplicate-free form. */
  lemma DecodeEncodePolicy(admins: seq<Key>)
    requires admins != [] && 32 * |admins| < VARINT_LIMIT
    ensures EncodeAdminPolicy(admins).Ok?
    ensures DecodeAdminPolicy(EncodeAdminPolicy(admins).value) == Ok(SortDedup(admins))
    ensures Ascending(SortDedup(admins)) && Elements(SortDedup(admins)) == Elements(admins)
  {
    var keys := SortDedup(admins);
    SortDedupLength(admins);
    SortDedupFacts(admins);
    VarintRoundTrip(32 * |keys|, Concat(keys));
    SortDedupIdempotent(admins);
    DecodeKeysOf(keys);
    var v := EncodeVarint(32 * |keys|);
    assert (v + Concat(keys))[|v|..] == Concat(keys);
    DecodeParts(v + Concat(keys), |v|, 32 * |keys|);
  }

  lemma DecodeParts(b: Bytes, w: nat, len: nat)
    requires DecodeVarint(b) == Ok((len, w)) && w + len == |b|
    ensures DecodeAdminPolicy(b) == DecodeKeys(b[w..])
  {
  }

  lemma DecodeKeysOf(keys: seq<Key>)
    requires keys != [] && SortDedup(keys) == keys
    ensures DecodeKeys(Concat(keys)) == Ok(keys)
  {
    SplitConcat(keys);
  }

  /** Order and repetition of the input do not reach the bytes. */
  lemma EncodeSeesOnlyTheSet(a: seq<Key>, b: seq<Key>)
    requires Elements(a) == Elements(b) && 32 * |a| <= U64_MAX && 32 * |b| <= U64_MAX
    ensures EncodeAdminPolicy(a) == EncodeAdminPolicy(b)
  {
    SortDedupSet(a, b);
  }

  /** Whatever decodes is a non-empty ascending list, and encoding it again
      returns the very bytes. */
  lemma EncodeDecodePolicy(b: Bytes)
    requires DecodeAdminPolicy(b).Ok?
    ensures var admins := DecodeAdminPolicy(b).value;
            && admins != [] && Ascending(admins)
            && 32 * |admins| <= U64_MAX
            && EncodeAdminPolicy(admins) == Ok(b)
  {
    var (len, width) := DecodeVarint(b).value;
    var admins := DecodeAdminPolicy(b).value;
    VarintCanonical(b);
    VarintBound(b);
    ConcatSplit(b[width..]);
    SortDedupFacts(admins);
    assert b == b[..width] + b[width..];
  }
}
