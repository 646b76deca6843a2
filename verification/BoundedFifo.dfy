/** The two capacity-bounded FIFO membership sets: the engine's dedup cache
    inserts and then evicts, the connector's cursor evicts and then inserts. */
module BoundedFifo {
  import opened Orders

  function TakeLast<T>(s: seq<T>, n: nat): seq<T> {
    if |s| <= n then s else s[|s| - n..]
  }

  /** The ids held, oldest first, after one insert. */
  function Remember<T(==)>(cap: nat, order: seq<T>, x: T): seq<T> {
    if x in order then order else TakeLast(order + [x], cap)
  }

  function Held<T(==)>(cap: nat, inserts: seq<T>): seq<T> {
    if inserts == [] then [] else Remember(cap, Held(cap, inserts[..|inserts| - 1]), inserts[|inserts| - 1])
  }

  /** The inserts that changed the set. */
  function Effective<T(==)>(cap: nat, inserts: seq<T>): seq<T> {
    if inserts == [] then [] else
      var n := |inserts| - 1;
      Effective(cap, inserts[..n]) + (if inserts[n] in Held(cap, inserts[..n]) then [] else [inserts[n]])
  }

  function Members<T>(s: seq<T>): set<T> {
    set x | x in s
  }

  const GENERATIONS: nat := 0x1_0000_0000_0000_0000

  function WrappingIncrement(n: nat): nat {
    if n + 1 == GENERATIONS then 0 else n + 1
  }

  /** A 64-bit counter after `n` wrapping increments. */
  function Wrapped(n: nat): nat {
    if n == 0 then 0 else WrappingIncrement(Wrapped(n - 1))
  }

  /** The engine's `seen` and `sent` message-id cache. */
  class BoundedIdSet<T(==)> {
    var members: set<T>
    var order: seq<T>
    var generation: nat
    const capacity: nat
    ghost var inserts: seq<T>

    /** The cache holds what its inserts say, and its generation counts the
        effective ones, wrapping at 64 bits. */
    ghost predicate Valid()
      reads this
    {
      && capacity > 0
      && members == Members(order)
      && order == Held(capacity, inserts)
      && generation == Wrapped(|Effective(capacity, inserts)|)
    }

    constructor (cap: nat)
      requires cap > 0
      ensures Valid() && inserts == [] && capacity == cap
    {
      members, order, generation, capacity, inserts := {}, [], 0, cap, [];
    }

    predicate Contains(x: T)
      reads this
    {
      x in members
    }

    method Insert(x: T)
      requires Valid()
      modifies this
      ensures Valid() && inserts == old(inserts) + [x]
      ensures Contains(x)
    {
      InsertStep(capacity, inserts, x);
      HeldFacts(capacity, inserts);
      inserts := inserts + [x];
      if x in members {
        return;
      }
      LatestHeld(capacity, order, x);
      members := members + {x};
      generation := WrappingIncrement(generation);
      order := order + [x];
      EvictOldest();
    }

    method EvictOldest()
      requires NoRepeats(order) && members == Members(order)
      modifies `order, `members
      ensures order == TakeLast(old(order), capacity) && members == Members(order)
    {
      ghost var k := 0;
      while |order| > capacity
        invariant 0 <= k <= |old(order)| && order == old(order)[k..] && (k == 0 || |order| >= capacity)
        invariant NoRepeats(order) && members == Members(order)
        decreases |order|
      {
        var evicted := order[0];
        assert order == [evicted] + order[1..];
        order := order[1..];
        members := members - {evicted};
        k := k + 1;
      }
    }
  }

  /** The connector's record of delivered row ids. */
  class DeliveredInboundCursor<T(==)> {
    var order: seq<T>
    var seen: set<T>
    const capacity: nat
    ghost var inserts: seq<T>

    ghost predicate Valid()
      reads this
    {
      && capacity > 0
      && seen == Members(order)
      && order == Held(capacity, inserts)
    }

    constructor (cap: nat)
      ensures Valid() && inserts == [] && capacity == if cap == 0 then 1 else cap
    {
      order, seen, capacity, inserts := [], {}, if cap == 0 then 1 else cap, [];
    }

    predicate Contains(x: T)
      reads this
    {
      x in seen
    }

    method Record(x: T)
      requires Valid()
      modifies this
      ensures Valid() && inserts == old(inserts) + [x]
      ensures order == Remember(capacity, old(order), x)
      ensures Contains(x)
    {
      InsertStep(capacity, inserts, x);
      HeldFacts(capacity, inserts);
      inserts := inserts + [x];
      if x in seen {
        return;
      }
      EvictThenInsert(capacity, order, x);
      if |order| >= capacity {
        seen := seen - {order[0]};
        order := order[1..];
      }
      seen := seen + {x};
      order := order + [x];
    }
  }

  lemma InsertStep<T>(cap: nat, inserts: seq<T>, x: T)
    ensures Held(cap, inserts + [x]) == Remember(cap, Held(cap, inserts), x)
    ensures Effective(cap, inserts + [x])
            == if x in Held(cap, inserts) then Effective(cap, inserts) else Effective(cap, inserts) + [x]
  {
    assert (inserts + [x])[..|inserts|] == inserts;
  }

  lemma EvictThenInsert<T>(cap: nat, order: seq<T>, x: T)
    requires 0 < cap && |order| <= cap && NoRepeats(order)
    ensures var room := if |order| >= cap then order[1..] else order;
            && TakeLast(order + [x], cap) == room + [x]
            && Members(room) == (if |order| >= cap then Members(order) - {order[0]} else Members(order))
            && Members(room + [x]) == Members(room) + {x}
  {
    if |order| >= cap {
      assert order == [order[0]] + order[1..];
      assert (order + [x])[1..] == order[1..] + [x];
    }
  }

  lemma LatestHeld<T>(cap: nat, order: seq<T>, x: T)
    requires cap > 0 && NoRepeats(order) && x !in order
    ensures NoRepeats(order + [x]) && Members(order + [x]) == Members(order) + {x}
    ensures x in TakeLast(order + [x], cap)
  {
    var last := TakeLast(order + [x], cap);
    assert last[|last| - 1] == x;
  }

  lemma {:induction false} WrappedIsModulo(n: nat)
    ensures Wrapped(n) == n % GENERATIONS
  {
    if n > 0 { WrappedIsModulo(n - 1); }
  }

  /** Duplicate-free and never above the capacity. */
  lemma {:induction false} HeldFacts<T>(cap: nat, inserts: seq<T>)
    ensures NoRepeats(Held(cap, inserts)) && |Held(cap, inserts)| <= cap
  {
    if inserts != [] { HeldFacts(cap, inserts[..|inserts| - 1]); }
  }

  /** What is held is the last `cap` effective inserts. */
  lemma {:induction false} HeldIsLastEffective<T>(cap: nat, inserts: seq<T>)
    ensures Held(cap, inserts) == TakeLast(Effective(cap, inserts), cap)
  {
    if inserts != [] {
      var n := |inserts| - 1;
      HeldIsLastEffective(cap, inserts[..n]);
      InsertStep(cap, inserts[..n], inserts[n]);
      TakeLastStep(Effective(cap, inserts[..n]), inserts[n], cap);
      assert inserts == inserts[..n] + [inserts[n]];
    }
  }

  lemma TakeLastStep<T>(e: seq<T>, x: T, cap: nat)
    ensures TakeLast(TakeLast(e, cap) + [x], cap) == TakeLast(e + [x], cap)
  {
  }

  lemma {:induction false} EffectiveGrows<T>(cap: nat, a: seq<T>, b: seq<T>)
    ensures Effective(cap, a) <= Effective(cap, a + b)
  {
    if b == [] {
      assert a + b == a;
    } else {
      EffectiveGrows(cap, a, b[..|b| - 1]);
      assert (a + b)[..|a + b| - 1] == a + b[..|b| - 1];
    }
  }

  lemma {:induction false} IdleKeepsHeld<T>(cap: nat, a: seq<T>, b: seq<T>)
    requires |Effective(cap, a + b)| == |Effective(cap, a)|
    ensures Held(cap, a + b) == Held(cap, a)
  {
    EffectiveGrows(cap, a, b);
    HeldIsLastEffective(cap, a);
    HeldIsLastEffective(cap, a + b);
    assert Effective(cap, a + b) == Effective(cap, a);
  }

  /** Between two points of a run with fewer than two to the sixty-four
      effective inserts in between, the generations agree exactly when nothing
      changed, and then the contents agree. */
  lemma GenerationTellsChange<T>(cap: nat, a: seq<T>, b: seq<T>)
    requires |Effective(cap, a + b)| - |Effective(cap, a)| < GENERATIONS
    ensures Wrapped(|Effective(cap, a)|) == Wrapped(|Effective(cap, a + b)|)
            <==> Effective(cap, a) == Effective(cap, a + b)
    ensures Wrapped(|Effective(cap, a)|) == Wrapped(|Effective(cap, a + b)|) ==> Held(cap, a) == Held(cap, a + b)
  {
    EffectiveGrows(cap, a, b);
    WrappedIsModulo(|Effective(cap, a)|);
    WrappedIsModulo(|Effective(cap, a + b)|);
    if |Effective(cap, a + b)| == |Effective(cap, a)| { IdleKeepsHeld(cap, a, b); }
  }
}
