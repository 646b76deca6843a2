/** Bytes, machine words, the byte-wise lexicographic order Rust uses for
    `String` and `Vec<u8>`, and sorting under a total order. */
module Orders {

  datatype Option<+T> = None | Some(value: T)

  type byte = x: int | 0 <= x < 256
  /** A `Vec<u8>`, or a `String` as its UTF-8 bytes: both compare byte-wise. */
  type Bytes = seq<byte>
  type Id = Bytes

  const U64_MAX: int := 0xFFFF_FFFF_FFFF_FFFF
  type u64 = x: int | 0 <= x <= 0xFFFF_FFFF_FFFF_FFFF

  function SaturatingSub(a: u64, b: u64): u64 {
    if a >= b then a - b else 0
  }

  function SaturatingAdd(a: u64, b: u64): u64 {
    if a + b > U64_MAX then U64_MAX else a + b
  }

  function Min(a: nat, b: nat): nat {
    if a <= b then a else b
  }

  // ----- total orders -----

  ghost predicate TotalPreorder<T(!new)>(le: (T, T) -> bool) {
    && (forall x, y :: le(x, y) || le(y, x))
    && (forall x, y, z :: le(x, y) && le(y, z) ==> le(x, z))
  }

  ghost predicate TotalOrder<T(!new)>(le: (T, T) -> bool) {
    && TotalPreorder(le)
    && (forall x, y :: le(x, y) && le(y, x) ==> x == y)
  }

  /** Sort keys decide equality among the elements of `s`. */
  ghost predicate KeysDecide<T>(s: seq<T>, le: (T, T) -> bool) {
    forall x, y :: x in s && y in s && le(x, y) && le(y, x) ==> x == y
  }

  predicate BytesLe(a: Bytes, b: Bytes) {
    a == [] || (b != [] && (a[0] < b[0] || (a[0] == b[0] && BytesLe(a[1..], b[1..]))))
  }

  predicate BytesLt(a: Bytes, b: Bytes) {
    BytesLe(a, b) && a != b
  }

  lemma {:induction false} BytesLeTotal(a: Bytes, b: Bytes)
    ensures BytesLe(a, b) || BytesLe(b, a)
  {
    if a != [] && b != [] { BytesLeTotal(a[1..], b[1..]); }
  }

  lemma {:induction false} BytesLeAntisymmetric(a: Bytes, b: Bytes)
    requires BytesLe(a, b) && BytesLe(b, a)
    ensures a == b
  {
    if a != [] && b != [] {
      BytesLeAntisymmetric(a[1..], b[1..]);
      assert a == [a[0]] + a[1..] && b == [b[0]] + b[1..];
    }
  }

  lemma {:induction false} BytesLeTransitive(a: Bytes, b: Bytes, c: Bytes)
    requires BytesLe(a, b) && BytesLe(b, c)
    ensures BytesLe(a, c)
  {
    if a != [] && a[0] == b[0] == c[0] { BytesLeTransitive(a[1..], b[1..], c[1..]); }
  }

  lemma BytesOrder()
    ensures TotalOrder(BytesLe)
  {
    forall x: Bytes, y: Bytes ensures BytesLe(x, y) || BytesLe(y, x) { BytesLeTotal(x, y); }
    forall x: Bytes, y: Bytes | BytesLe(x, y) && BytesLe(y, x) ensures x == y { BytesLeAntisymmetric(x, y); }
    forall x: Bytes, y: Bytes, z: Bytes | BytesLe(x, y) && BytesLe(y, z) ensures BytesLe(x, z) {
      BytesLeTransitive(x, y, z);
    }
  }

  // ----- sorting -----

  ghost predicate Sorted<T>(s: seq<T>, le: (T, T) -> bool) {
    forall i, j :: 0 <= i < j < |s| ==> le(s[i], s[j])
  }

  function Insert<T>(x: T, s: seq<T>, le: (T, T) -> bool): seq<T> {
    if s == [] || le(x, s[0]) then [x] + s else [s[0]] + Insert(x, s[1..], le)
  }

  /** The standard library's sort, as a function of the sequence and the order. */
  function Sort<T>(s: seq<T>, le: (T, T) -> bool): seq<T> {
    if s == [] then [] else Insert(s[0], Sort(s[1..], le), le)
  }

  lemma {:induction false} InsertSorts<T(!new)>(x: T, s: seq<T>, le: (T, T) -> bool)
    requires TotalPreorder(le) && Sorted(s, le)
    ensures Sorted(Insert(x, s, le), le)
    ensures multiset(Insert(x, s, le)) == multiset{x} + multiset(s)
  {
    if s == [] {
    } else if le(x, s[0]) {
      assert forall j :: 0 <= j < |s| ==> le(s[0], s[j]);
    } else {
      InsertSorts(x, s[1..], le);
      var r := Insert(x, s[1..], le);
      assert s == [s[0]] + s[1..];
      forall j | 0 <= j < |r| ensures le(s[0], r[j]) {
        assert r[j] in multiset(r);
        assert r[j] == x || r[j] in s[1..];
      }
    }
  }

  lemma {:induction false} SortSorts<T(!new)>(s: seq<T>, le: (T, T) -> bool)
    requires TotalPreorder(le)
    ensures Sorted(Sort(s, le), le)
    ensures multiset(Sort(s, le)) == multiset(s)
  {
    if s != [] {
      SortSorts(s[1..], le);
      InsertSorts(s[0], Sort(s[1..], le), le);
      assert s == [s[0]] + s[1..];
    }
  }

  /** A multiset has one sorted arrangement. */
  lemma {:induction false} SortedUnique<T>(a: seq<T>, b: seq<T>, le: (T, T) -> bool)
    requires Sorted(a, le) && Sorted(b, le) && KeysDecide(a, le)
    requires multiset(a) == multiset(b)
    ensures a == b
  {
    if a == [] {
      assert |multiset(b)| == 0;
    } else {
      SameHeadAndTail(a, b, le);
      SortedUnique(a[1..], b[1..], le);
      assert a == [a[0]] + a[1..] && b == [b[0]] + b[1..];
    }
  }

  lemma SameHeadAndTail<T>(a: seq<T>, b: seq<T>, le: (T, T) -> bool)
    requires Sorted(a, le) && Sorted(b, le) && KeysDecide(a, le)
    requires multiset(a) == multiset(b) && a != []
    ensures b != [] && a[0] == b[0] && multiset(a[1..]) == multiset(b[1..])
    ensures Sorted(a[1..], le) && Sorted(b[1..], le) && KeysDecide(a[1..], le)
  {
    assert a[0] in multiset(b) && b != [];
    SameHead(a, b, le);
    Tail(a, le);
    Tail(b, le);
  }

  lemma Tail<T>(s: seq<T>, le: (T, T) -> bool)
    requires s != [] && Sorted(s, le)
    ensures Sorted(s[1..], le) && (KeysDecide(s, le) ==> KeysDecide(s[1..], le))
    ensures multiset(s[1..]) == multiset(s) - multiset{s[0]}
  {
    assert s == [s[0]] + s[1..];
  }

  lemma SameHead<T>(a: seq<T>, b: seq<T>, le: (T, T) -> bool)
    requires Sorted(a, le) && Sorted(b, le) && KeysDecide(a, le)
    requires multiset(a) == multiset(b) && a != [] && b != []
    ensures a[0] == b[0]
  {
    assert a[0] in multiset(b) && b[0] in multiset(a);
  }

  lemma {:induction false} SortOfSorted<T>(s: seq<T>, le: (T, T) -> bool)
    requires Sorted(s, le)
    ensures Sort(s, le) == s
  {
    if s != [] {
      SortOfSorted(s[1..], le);
      assert s == [s[0]] + s[1..];
    }
  }

  lemma SortPermutation<T(!new)>(s: seq<T>, t: seq<T>, le: (T, T) -> bool)
    requires TotalPreorder(le) && KeysDecide(s, le) && multiset(s) == multiset(t)
    ensures Sort(s, le) == Sort(t, le)
  {
    SortElements(s, le);
    SortSorts(s, le);
    SortSorts(t, le);
    SortedUnique(Sort(s, le), Sort(t, le), le);
  }

  lemma SortElements<T(!new)>(s: seq<T>, le: (T, T) -> bool)
    requires TotalPreorder(le)
    ensures |Sort(s, le)| == |s|
    ensures forall x :: x in Sort(s, le) <==> x in s
  {
    SortSorts(s, le);
    assert |multiset(Sort(s, le))| == |multiset(s)|;
    forall x ensures x in Sort(s, le) <==> x in s {
      assert x in Sort(s, le) <==> x in multiset(Sort(s, le));
    }
  }

  // ----- the keys of a BTreeMap or BTreeSet, in iteration order -----

  predicate Least(x: Id, s: set<Id>) {
    x in s && forall y :: y in s ==> BytesLe(x, y)
  }

  lemma {:induction false} LeastExists(s: set<Id>)
    requires s != {}
    ensures exists x :: Least(x, s)
  {
    var x :| x in s;
    BytesLeTotal(x, x);
    if s == {x} {
      assert Least(x, s);
    } else {
      var t := s - {x};
      LeastExists(t);
      var m :| Least(m, t);
      BytesLeTotal(m, x);
      if BytesLe(m, x) {
        assert Least(m, s);
      } else {
        forall y | y in s ensures BytesLe(x, y) {
          if y != x { BytesLeTransitive(x, m, y); }
        }
        assert Least(x, s);
      }
    }
  }

  lemma LeastUnique(s: set<Id>)
    ensures forall x, y :: Least(x, s) && Least(y, s) ==> x == y
  {
    forall x, y | Least(x, s) && Least(y, s) ensures x == y {
      BytesLeAntisymmetric(x, y);
    }
  }

  function SortedKeys(s: set<Id>): (r: seq<Id>)
    ensures forall x :: x in r <==> x in s
    ensures |r| == |s|
    ensures forall i, j :: 0 <= i < j < |r| ==> BytesLt(r[i], r[j])
  {
    if s == {} then [] else
      LeastExists(s);
      LeastUnique(s);
      var x :| x in s && Least(x, s);
      LeastFirst(x, s, SortedKeys(s - {x}));
      [x] + SortedKeys(s - {x})
  }

  lemma LeastFirst(x: Id, s: set<Id>, rest: seq<Id>)
    requires Least(x, s) && forall y :: y in rest <==> y in s - {x}
    ensures forall y :: y in [x] + rest <==> y in s
    ensures forall j :: 0 <= j < |rest| ==> BytesLt(x, rest[j])
  {
    forall j | 0 <= j < |rest| ensures BytesLt(x, rest[j]) { assert rest[j] in rest; }
  }

  // ----- collecting over a sequence -----

  function FlatMap<T, U>(s: seq<T>, f: T -> seq<U>): seq<U> {
    if s == [] then [] else FlatMap(s[..|s| - 1], f) + f(s[|s| - 1])
  }

  lemma {:induction false} FlatMapConcat<T, U>(s: seq<T>, t: seq<T>, f: T -> seq<U>)
    ensures FlatMap(s + t, f) == FlatMap(s, f) + FlatMap(t, f)
  {
    if t == [] {
      assert s + t == s;
    } else {
      assert (s + t)[..|s + t| - 1] == s + t[..|t| - 1];
      FlatMapConcat(s, t[..|t| - 1], f);
    }
  }

  lemma FlatMapSingle<T, U>(x: T, f: T -> seq<U>)
    ensures FlatMap([x], f) == f(x)
  {
    assert FlatMap([x][..0], f) == [];
  }

  lemma FlatMapWithout<T, U>(a: seq<T>, x: T, b: seq<T>, f: T -> seq<U>)
    ensures multiset(FlatMap(a + [x] + b, f)) == multiset(FlatMap(a + b, f)) + multiset(f(x))
  {
    FlatMapConcat(a, b, f);
    FlatMapAround(a, x, b, f);
    MiddleOut(FlatMap(a, f), f(x), FlatMap(b, f));
  }

  lemma MiddleOut<T>(p: seq<T>, m: seq<T>, q: seq<T>)
    ensures multiset(p + m + q) == multiset(p + q) + multiset(m)
  {
  }

  lemma FlatMapAround<T, U>(a: seq<T>, x: T, b: seq<T>, f: T -> seq<U>)
    ensures FlatMap(a + [x] + b, f) == FlatMap(a, f) + f(x) + FlatMap(b, f)
  {
    FlatMapConcat(a + [x], b, f);
    FlatMapConcat(a, [x], f);
    FlatMapSingle(x, f);
  }

  /** Rearranging the input only rearranges what is collected. */
  lemma {:induction false} FlatMapPermutation<T, U>(s: seq<T>, t: seq<T>, f: T -> seq<U>)
    requires multiset(s) == multiset(t)
    ensures multiset(FlatMap(s, f)) == multiset(FlatMap(t, f))
  {
    if s == [] {
      assert |multiset(t)| == 0;
    } else {
      var n := |s| - 1;
      var i := Found(s, t);
      MultisetWithout(s, t, i);
      FlatMapPermutation(s[..n], t[..i] + t[i + 1..], f);
      assert t == t[..i] + [s[n]] + t[i + 1..];
      FlatMapWithout(t[..i], s[n], t[i + 1..], f);
    }
  }

  ghost function Found<T>(s: seq<T>, t: seq<T>): (i: nat)
    requires s != [] && multiset(s) == multiset(t)
    ensures i < |t| && t[i] == s[|s| - 1]
  {
    assert s[|s| - 1] in multiset(t);
    var i :| 0 <= i < |t| && t[i] == s[|s| - 1];
    i
  }

  lemma MultisetWithout<T>(s: seq<T>, t: seq<T>, i: nat)
    requires s != [] && multiset(s) == multiset(t) && i < |t| && t[i] == s[|s| - 1]
    ensures multiset(s[..|s| - 1]) == multiset(t[..i] + t[i + 1..])
  {
    MultisetDrop(s, |s| - 1);
    MultisetDrop(t, i);
    assert s[..|s| - 1] + s[|s|..] == s[..|s| - 1];
  }

  lemma MultisetDrop<T>(s: seq<T>, i: nat)
    requires i < |s|
    ensures multiset(s[..i] + s[i + 1..]) == multiset(s) - multiset{s[i]}
  {
    assert s == s[..i] + [s[i]] + s[i + 1..];
  }

  lemma {:induction false} FlatMapElement<T, U>(s: seq<T>, f: T -> seq<U>, y: U)
    ensures y in FlatMap(s, f) <==> exists x :: x in s && y in f(x)
  {
    if s != [] {
      var n := |s| - 1;
      FlatMapElement(s[..n], f, y);
      assert s == s[..n] + [s[n]];
      if y in FlatMap(s, f) {
        if y in f(s[n]) {
          assert s[n] in s;
        } else {
          var x :| x in s[..n] && y in f(x);
          assert x in s;
        }
      }
      if x :| x in s && y in f(x) {
        assert x in s[..n] || x == s[n];
      }
    }
  }

  ghost predicate NoRepeats<T>(s: seq<T>) {
    forall i, j :: 0 <= i < j < |s| ==> s[i] != s[j]
  }

  lemma {:induction false} NoRepeatsMultiset<T>(s: seq<T>)
    requires NoRepeats(s)
    ensures forall x :: multiset(s)[x] == if x in s then 1 else 0
  {
    if s != [] {
      var n := |s| - 1;
      assert s == s[..n] + [s[n]];
      NoRepeatsMultiset(s[..n]);
    }
  }

  lemma NoRepeatsPermutation<T>(s: seq<T>, t: seq<T>)
    requires NoRepeats(s) && multiset(s) == multiset(t)
    ensures NoRepeats(t)
  {
    NoRepeatsMultiset(s);
    forall i, j | 0 <= i < j < |t| ensures t[i] != t[j] {
      assert t == t[..i] + [t[i]] + t[i + 1..j] + [t[j]] + t[j + 1..];
      assert multiset(t)[t[i]] <= 1;
    }
  }

  lemma SameElementsSameMultiset<T>(s: seq<T>, t: seq<T>)
    requires NoRepeats(s) && NoRepeats(t)
    requires forall x :: x in s <==> x in t
    ensures multiset(s) == multiset(t)
  {
    NoRepeatsMultiset(s);
    NoRepeatsMultiset(t);
  }

  lemma {:induction false} SubsetSize<T>(a: set<T>, b: set<T>)
    requires a <= b
    ensures |a| <= |b|
  {
    if x :| x in a {
      SubsetSize(a - {x}, b - {x});
    }
  }
}
