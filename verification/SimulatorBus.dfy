/** The simulator's message bus: a queue under a delivery policy and queue
    faults, per-client mailboxes, and a ledger that shows no message is made
    or lost except by the operations that say so. */
module SimulatorBus {
  import opened Orders
  import ByteCodecs

  type ClientId = nat

  datatype Envelope = Welcome(recipient: Id) | GroupMessage(group: Id)
  datatype Message = Message(id: Id, payload: Bytes, envelope: Envelope)
  datatype InFlight = InFlight(sender: ClientId, msg: Message)

  datatype Policy = Ordered(broadcastWelcomes: bool) | Reverse | SeededRandom(seed: u64)

  // ----- taking a batch -----

  function Reversed<T>(s: seq<T>): seq<T> {
    seq(|s|, i requires 0 <= i < |s| => s[|s| - 1 - i])
  }

  function Enumerated<T>(s: seq<T>): seq<(nat, T)> {
    seq(|s|, i requires 0 <= i < |s| => (i, s[i]))
  }

  function Second<T>(p: (nat, T)): seq<T> {
    [p.1]
  }

  /** The order a stable sort by the position's hash puts indexed entries in. */
  function ByHash<T>(hash: nat -> nat): ((nat, T), (nat, T)) -> bool {
    (a: (nat, T), b: (nat, T)) => hash(a.0) < hash(b.0) || (hash(a.0) == hash(b.0) && a.0 <= b.0)
  }

  function Shuffled<T>(s: seq<T>, hash: nat -> nat): seq<T> {
    FlatMap(Sort(Enumerated(s), ByHash(hash)), Second)
  }

  /** What a batch takes, and the queue it leaves. */
  function TakeBatch(queue: seq<InFlight>, policy: Policy, hash: u64 -> nat -> nat, n: nat): (seq<InFlight>,
                     seq<InFlight>) {
    var n := Min(n, |queue|);
    match policy
    case Ordered(_) => (queue[..n], queue[n..])
    case Reverse => (Reversed(queue[|queue| - n..]), queue[..|queue| - n])
    case SeededRandom(seed) =>
      var all := Shuffled(queue, hash(seed));
      ShuffledConserves(queue, hash(seed));
      (all[..n], all[n..])
  }

  lemma {:induction false} ReversedConserves<T>(s: seq<T>)
    ensures multiset(Reversed(s)) == multiset(s)
  {
    if s != [] {
      var n := |s| - 1;
      assert s == s[..n] + [s[n]];
      assert Reversed(s) == [s[n]] + Reversed(s[..n]);
      ReversedConserves(s[..n]);
    }
  }

  lemma {:induction false} SecondsOfEnumerated<T>(s: seq<T>)
    ensures FlatMap(Enumerated(s), Second) == s
  {
    if s != [] {
      var n := |s| - 1;
      SecondsOfEnumerated(s[..n]);
      assert Enumerated(s)[..n] == Enumerated(s[..n]);
      assert s == s[..n] + [s[n]];
    }
  }

  lemma {:induction false} SecondsLength<T>(s: seq<(nat, T)>)
    ensures |FlatMap(s, Second)| == |s|
  {
    if s != [] { SecondsLength(s[..|s| - 1]); }
  }

  lemma ShuffledConserves<T(!new)>(s: seq<T>, hash: nat -> nat)
    ensures multiset(Shuffled(s, hash)) == multiset(s) && |Shuffled(s, hash)| == |s|
  {
    var sorted := Sort(Enumerated(s), ByHash(hash));
    SortSorts(Enumerated(s), ByHash(hash));
    SortElements(Enumerated(s), ByHash(hash));
    FlatMapPermutation(sorted, Enumerated(s), Second);
    SecondsOfEnumerated(s);
    SecondsLength(sorted);
  }

  lemma SplitConserves<T>(s: seq<T>, k: nat)
    requires k <= |s|
    ensures s[..k] + s[k..] == s && multiset(s[..k]) + multiset(s[k..]) == multiset(s)
  {
    assert s == s[..k] + s[k..];
  }

  lemma ReverseTakes(queue: seq<InFlight>, k: nat)
    requires k <= |queue|
    ensures var taken, rest := Reversed(queue[|queue| - k..]), queue[..|queue| - k];
            multiset(taken) + multiset(rest) == multiset(queue) && rest + Reversed(taken) == queue
  {
    var cut := |queue| - k;
    SplitConserves(queue, cut);
    ReversedConserves(queue[cut..]);
    assert Reversed(Reversed(queue[cut..])) == queue[cut..];
  }

  lemma ShuffleTakes(queue: seq<InFlight>, hash: nat -> nat, k: nat)
    requires k <= |queue|
    ensures var all := Shuffled(queue, hash);
            |all| == |queue| && multiset(all[..k]) + multiset(all[k..]) == multiset(queue)
  {
    ShuffledConserves(queue, hash);
    SplitConserves(Shuffled(queue, hash), k);
  }

  /** Under every policy a batch and what it leaves are the queue, and the
      batch has as many messages as asked for and there are. */
  lemma TakeBatchConserves(queue: seq<InFlight>, policy: Policy, hash: u64 -> nat -> nat, n: nat)
    ensures var (taken, rest) := TakeBatch(queue, policy, hash, n);
            && multiset(taken) + multiset(rest) == multiset(queue)
            && |taken| == Min(n, |queue|)
            && (policy.Ordered? ==> taken + rest == queue)
            && (policy.Reverse? ==> rest + Reversed(taken) == queue)
  {
    var k := Min(n, |queue|);
    match policy {
      case Ordered(_) => SplitConserves(queue, k);
      case Reverse => ReverseTakes(queue, k);
      case SeededRandom(seed) => ShuffleTakes(queue, hash(seed), k);
    }
  }

  /** A batch of the whole queue. */
  function WholeQueue(queue: seq<InFlight>, policy: Policy, hash: u64 -> nat -> nat): seq<InFlight> {
    TakeBatch(queue, policy, hash, |queue|).0
  }

  lemma WholeQueueFacts(queue: seq<InFlight>, policy: Policy, hash: u64 -> nat -> nat)
    ensures TakeBatch(queue, policy, hash, |queue|) == (WholeQueue(queue, policy, hash), [])
    ensures multiset(WholeQueue(queue, policy, hash)) == multiset(queue)
    ensures queue == [] ==> WholeQueue(queue, policy, hash) == []
    ensures policy.Ordered? ==> WholeQueue(queue, policy, hash) == queue
    ensures policy.Reverse? ==> WholeQueue(queue, policy, hash) == Reversed(queue)
  {
    TakeBatchConserves(queue, policy, hash, |queue|);
    var (taken, rest) := TakeBatch(queue, policy, hash, |queue|);
    assert |multiset(taken) + multiset(rest)| == |multiset(queue)|;
    assert rest == [];
    if policy.Reverse? { assert queue[|queue| - |queue|..] == queue; }
  }

  // ----- the seeded hash: 64-bit FNV-1a over seed and position -----

  const FNV_OFFSET: u64 := 0xcbf29ce484222325
  const FNV_PRIME: u64 := 0x100000001b3

  function Xor(a: byte, b: byte): byte {
    ((a as bv8) ^ (b as bv8)) as int
  }

  function XorByte(h: u64, b: byte): u64 {
    h / 256 * 256 + Xor(h % 256, b)
  }

  function Fnv(bytes: Bytes): u64 {
    if bytes == [] then FNV_OFFSET
    else (XorByte(Fnv(bytes[..|bytes| - 1]), bytes[|bytes| - 1]) * FNV_PRIME) % 0x1_0000_0000_0000_0000
  }

  function SeededHash(seed: u64): nat -> nat {
    (i: nat) => Fnv(ByteCodecs.ToBytes(seed, 8) + ByteCodecs.ToBytes(i % 0x1_0000_0000_0000_0000, 8))
  }

  // ----- routing -----

  datatype Router = Router(broadcastWelcomes: bool, allowed: Option<set<ClientId>>)

  predicate Reaches(r: Router, f: InFlight, client: ClientId, identity: Id) {
    && client != f.sender
    && (r.allowed.Some? ==> client in r.allowed.value)
    && (f.msg.envelope.Welcome? ==> r.broadcastWelcomes || f.msg.envelope.recipient == identity)
  }

  /** What a batch puts into one client's mailbox, in order. */
  function Routed(r: Router, batch: seq<InFlight>, client: ClientId, identity: Id): seq<Message> {
    if batch == [] then [] else
      var f := batch[|batch| - 1];
      Routed(r, batch[..|batch| - 1], client, identity) + (if Reaches(r, f, client, identity) then [f.msg] else [])
  }

  function Payloads(batch: seq<InFlight>): seq<Message> {
    seq(|batch|, i requires 0 <= i < |batch| => batch[i].msg)
  }

  /** With no partition and welcomes broadcast, a client gets every message of
      the others in order; its own never come back to it. */
  lemma {:induction false} EveryoneElseHears(r: Router, batch: seq<InFlight>, client: ClientId, identity: Id)
    requires r.allowed.None? && r.broadcastWelcomes
    ensures (forall i :: 0 <= i < |batch| ==> batch[i].sender != client) ==>
              Routed(r, batch, client, identity) == Payloads(batch)
    ensures (forall i :: 0 <= i < |batch| ==> batch[i].sender == client) ==> Routed(r, batch, client, identity) == []
  {
    if batch != [] {
      var n := |batch| - 1;
      EveryoneElseHears(r, batch[..n], client, identity);
      assert Payloads(batch) == Payloads(batch[..n]) + [batch[n].msg];
    }
  }

  predicate Barred(r: Router, f: InFlight, client: ClientId, identity: Id) {
    || (r.allowed.Some? && client !in r.allowed.value)
    || (!r.broadcastWelcomes && f.msg.envelope.Welcome? && f.msg.envelope.recipient != identity)
  }

  /** Behind a partition, or for someone else's welcome, nothing arrives. */
  lemma {:induction false} SilentWhenBarred(r: Router, batch: seq<InFlight>, client: ClientId, identity: Id)
    requires forall i :: 0 <= i < |batch| ==> Barred(r, batch[i], client, identity)
    ensures Routed(r, batch, client, identity) == []
  {
    if batch != [] { SilentWhenBarred(r, batch[..|batch| - 1], client, identity); }
  }

  // ----- the messages held under tags -----

  ghost function Held(delayed: map<string, seq<InFlight>>): multiset<InFlight> {
    if delayed == map[] then multiset{} else
      var k :| k in delayed;
      multiset(delayed[k]) + Held(delayed - {k})
  }

  lemma {:induction false} HeldSplit(delayed: map<string, seq<InFlight>>, k: string)
    requires k in delayed
    ensures Held(delayed) == multiset(delayed[k]) + Held(delayed - {k})
    decreases |delayed|
  {
    var j :| j in delayed && Held(delayed) == multiset(delayed[j]) + Held(delayed - {j});
    if j != k {
      var without := delayed - {j, k};
      HeldSplit(delayed - {j}, k);
      HeldSplit(delayed - {k}, j);
      assert delayed - {j} - {k} == without && delayed - {k} - {j} == without;
    }
  }

  lemma Shifted(before: seq<InFlight>, f: InFlight, rest: multiset<InFlight>)
    ensures multiset(before + [f]) + rest == multiset(before) + rest + multiset{f}
  {
  }

  lemma HeldUnder(delayed: map<string, seq<InFlight>>, tag: string, f: InFlight)
    ensures var before := if tag in delayed then delayed[tag] else [];
            Held(delayed[tag := before + [f]]) == Held(delayed) + multiset{f}
  {
    var before := if tag in delayed then delayed[tag] else [];
    var after := delayed[tag := before + [f]];
    assert Held(after) == multiset(before + [f]) + Held(delayed - {tag}) by {
      HeldSplit(after, tag);
      assert after - {tag} == delayed - {tag};
    }
    assert Held(delayed) == multiset(before) + Held(delayed - {tag}) by {
      if tag in delayed { HeldSplit(delayed, tag); } else { assert delayed - {tag} == delayed; }
    }
    Shifted(before, f, Held(delayed - {tag}));
  }

  // ----- permutations of the queue -----

  ghost predicate Below(order: seq<nat>, n: nat) {
    forall i :: 0 <= i < |order| ==> order[i] < n
  }

  ghost predicate Permutation(order: seq<nat>, n: nat) {
    |order| == n && NoRepeats(order) && Below(order, n)
  }

  function Range(n: nat): seq<nat> {
    seq(n, i requires 0 <= i < n => i)
  }

  ghost function Picked<T>(s: seq<T>, order: seq<nat>): seq<T>
    requires Below(order, |s|)
  {
    seq(|order|, i requires 0 <= i < |order| => s[order[i]])
  }

  lemma PermutationIffRange(order: seq<nat>, n: nat)
    ensures Permutation(order, n) <==> multiset(order) == multiset(Range(n))
  {
    var all := multiset(Range(n));
    NoRepeatsMultiset(Range(n));
    if Permutation(order, n) {
      NoRepeatsMultiset(order);
      forall x ensures multiset(order)[x] <= all[x] {
        if x in order { assert Range(n)[x] == x; }
      }
      assert all == multiset(order) + (all - multiset(order));
      assert |all - multiset(order)| == 0;
    }
    if multiset(order) == all {
      NoRepeatsPermutation(Range(n), order);
      assert |multiset(order)| == |all|;
      forall i | 0 <= i < |order| ensures order[i] < n { assert order[i] in all; }
    }
  }

  lemma {:induction false} PickedAsFlatMap<T>(s: seq<T>, order: seq<nat>, pick: nat -> seq<T>)
    requires Below(order, |s|)
    requires forall x :: 0 <= x < |s| ==> pick(x) == [s[x]]
    ensures FlatMap(order, pick) == Picked(s, order)
  {
    if order != [] {
      var n := |order| - 1;
      PickedAsFlatMap(s, order[..n], pick);
      assert Picked(s, order) == Picked(s, order[..n]) + [s[order[n]]];
    }
  }

  lemma PickedVia<T>(s: seq<T>, order: seq<nat>, pick: nat -> seq<T>)
    requires Permutation(order, |s|)
    requires forall x :: 0 <= x < |s| ==> pick(x) == [s[x]]
    ensures multiset(Picked(s, order)) == multiset(Picked(s, Range(|s|)))
  {
    PermutationIffRange(order, |s|);
    FlatMapPermutation(order, Range(|s|), pick);
    PickedAsFlatMap(s, order, pick);
    PickedAsFlatMap(s, Range(|s|), pick);
  }

  /** Picking by a permutation only rearranges. */
  lemma PickedConserves<T>(s: seq<T>, order: seq<nat>)
    requires Permutation(order, |s|)
    ensures multiset(Picked(s, order)) == multiset(s)
  {
    PickedVia(s, order, (i: nat) => if i < |s| then [s[i]] else []);
    assert Picked(s, Range(|s|)) == s;
  }

  // ----- the bus -----

  datatype Bus = Bus(
    clients: seq<Id>,
    queue: seq<InFlight>,
    mailboxes: seq<seq<Message>>,
    allowed: Option<set<ClientId>>,
    delayed: map<string, seq<InFlight>>)

  const EMPTY := Bus([], [], [], None, map[])

  datatype Op =
    | Attach(identity: Id)
    | Send(sender: ClientId, msg: Message)
    | Step(n: nat)
    | Read(reader: ClientId)
    | SetPartition(allow: Option<set<ClientId>>)
    | Inject(client: ClientId, injected: Message)
    | Drop(index: nat)
    | Duplicate(original: nat)
    | Delay(late: nat, under: string)
    | Release(tag: string)
    | Reorder(order: seq<nat>)

  /** The delivery policy and the hash it shuffles with. */
  datatype Delivery = Delivery(policy: Policy, hash: u64 -> nat -> nat) {
    function Take(queue: seq<InFlight>, n: nat): (seq<InFlight>, seq<InFlight>) {
      TakeBatch(queue, policy, hash, n)
    }

    function Route(b: Bus): Router {
      Router(policy.Ordered? && policy.broadcastWelcomes, b.allowed)
    }
  }

  function Without<T>(s: seq<T>, i: nat): seq<T>
    requires i < |s|
  {
    s[..i] + s[i + 1..]
  }

  function Under(delayed: map<string, seq<InFlight>>, tag: string): seq<InFlight> {
    if tag in delayed then delayed[tag] else []
  }

  function AllRouted(r: Router, batch: seq<InFlight>, clients: seq<Id>, mailboxes: seq<seq<Message>>): seq<seq<Message>>
    requires |clients| == |mailboxes|
  {
    seq(|clients|, c requires 0 <= c < |clients| => mailboxes[c] + Routed(r, batch, c, clients[c]))
  }

  /** Each operation on the whole bus. Reading takes a client the bus knows. */
  ghost predicate Enabled(b: Bus, op: Op) {
    op.Read? ==> op.reader < |b.clients|
  }

  ghost function Apply(d: Delivery, b: Bus, op: Op): (r: Bus)
    requires |b.clients| == |b.mailboxes| && Enabled(b, op)
    ensures |r.clients| == |r.mailboxes|
  {
    match op
    case Attach(identity) => b.(clients := b.clients + [identity], mailboxes := b.mailboxes + [[]])
    case Send(sender, msg) => b.(queue := b.queue + [InFlight(sender, msg)])
    case Step(n) =>
      var (taken, rest) := d.Take(b.queue, n);
      b.(queue := rest, mailboxes := AllRouted(d.Route(b), taken, b.clients, b.mailboxes))
    case Read(client) => b.(mailboxes := b.mailboxes[client := []])
    case SetPartition(allow) => b.(allowed := allow)
    case Inject(client, msg) =>
      if client < |b.clients| then b.(mailboxes := b.mailboxes[client := b.mailboxes[client] + [msg]]) else b
    case Drop(i) => if i < |b.queue| then b.(queue := Without(b.queue, i)) else b
    case Duplicate(i) => if i < |b.queue| then b.(queue := b.queue[..i + 1] + b.queue[i..]) else b
    case Delay(i, tag) =>
      if i < |b.queue|
      then b.(queue := Without(b.queue, i), delayed := b.delayed[tag := Under(b.delayed, tag) + [b.queue[i]]])
      else b
    case Release(tag) => b.(queue := b.queue + Under(b.delayed, tag), delayed := b.delayed - {tag})
    case Reorder(order) => if Permutation(order, |b.queue|) then b.(queue := Picked(b.queue, order)) else b
  }

  lemma OneMoreRouted(r: Router, batch: seq<InFlight>, i: nat, clients: seq<Id>, start: seq<seq<Message>>,
                      before: seq<seq<Message>>, after: seq<seq<Message>>)
    requires i < |batch| && |clients| == |start| == |after| && before == AllRouted(r, batch[..i], clients, start)
    requires forall c :: 0 <= c < |clients| ==>
               after[c] == before[c] + if Reaches(r, batch[i], c, clients[c]) then [batch[i].msg] else []
    ensures after == AllRouted(r, batch[..i + 1], clients, start)
  {
    assert batch[..i + 1][..i] == batch[..i];
    forall c | 0 <= c < |clients| ensures after[c] == start[c] + Routed(r, batch[..i + 1], c, clients[c]) {
      var more := if Reaches(r, batch[i], c, clients[c]) then [batch[i].msg] else [];
      assert start[c] + Routed(r, batch[..i], c, clients[c]) + more
             == start[c] + (Routed(r, batch[..i], c, clients[c]) + more);
    }
  }

  class TransportBus {
    const delivery: Delivery
    var clients: seq<Id>
    var queue: seq<InFlight>
    var mailboxes: seq<seq<Message>>
    var allowed: Option<set<ClientId>>
    var delayed: map<string, seq<InFlight>>

    ghost function View(): Bus
      reads this
    {
      Bus(clients, queue, mailboxes, allowed, delayed)
    }

    ghost predicate Valid()
      reads this
    {
      |clients| == |mailboxes|
    }

    constructor (policy: Policy)
      ensures Valid() && View() == EMPTY && delivery == Delivery(policy, SeededHash)
    {
      delivery := Delivery(policy, SeededHash);
      clients, queue, mailboxes, allowed, delayed := [], [], [], None, map[];
    }

    method Attach(identity: Id) returns (id: ClientId)
      requires Valid()
      modifies this
      ensures Valid() && View() == Apply(delivery, old(View()), Op.Attach(identity)) && id == |old(clients)|
    {
      id := |clients|;
      clients, mailboxes := clients + [identity], mailboxes + [[]];
    }

    method Send(sender: ClientId, msg: Message)
      requires Valid()
      modifies this
      ensures Valid() && View() == Apply(delivery, old(View()), Op.Send(sender, msg))
    {
      queue := queue + [InFlight(sender, msg)];
    }

    /** One message to every client it reaches. */
    method Deliver(f: InFlight, r: Router)
      requires Valid() && r.allowed == allowed
      modifies `mailboxes
      ensures |mailboxes| == |clients|
      ensures forall c :: 0 <= c < |clients| ==>
        mailboxes[c] == old(mailboxes)[c] + if Reaches(r, f, c, clients[c]) then [f.msg] else []
    {
      for c := 0 to |clients|
        invariant |mailboxes| == |clients|
        invariant forall k :: 0 <= k < |clients| ==>
          mailboxes[k] == old(mailboxes)[k] + if k < c && Reaches(r, f, k, clients[k]) then [f.msg] else []
      {
        if c == f.sender { continue; }
        if allowed.Some? && c !in allowed.value { continue; }
        var deliver := match f.msg.envelope
          case Welcome(recipient) => r.broadcastWelcomes || recipient == clients[c]
          case GroupMessage(_) => true;
        if deliver {
          mailboxes := mailboxes[c := mailboxes[c] + [f.msg]];
        }
      }
    }

    method Step(n: nat)
      requires Valid()
      modifies `queue, `mailboxes
      ensures Valid() && View() == Apply(delivery, old(View()), Op.Step(n))
    {
      NothingRouted(delivery.Route(View()), clients, mailboxes);
      var (batch, rest) := delivery.Take(queue, n);
      queue := rest;
      var r := Router(delivery.policy.Ordered? && delivery.policy.broadcastWelcomes, allowed);
      for i := 0 to |batch|
        invariant |mailboxes| == |clients| && queue == rest
        invariant mailboxes == AllRouted(r, batch[..i], clients, old(mailboxes))
      {
        ghost var before := mailboxes;
        Deliver(batch[i], r);
        OneMoreRouted(r, batch, i, clients, old(mailboxes), before, mailboxes);
      }
      assert batch[..|batch|] == batch;
    }

    /** Delivers the whole queue as one batch, and leaves it empty. */
    method DeliverAll()
      requires Valid()
      modifies `queue, `mailboxes
      ensures Valid() && queue == [] && View() == Apply(delivery, old(View()), Op.Step(|old(queue)|))
    {
      WholeQueueFacts(queue, delivery.policy, delivery.hash);
      NothingRouted(delivery.Route(View()), clients, mailboxes);
      while queue != []
        invariant Valid() && (queue == [] || View() == old(View()))
        invariant queue == [] ==> View() == Apply(delivery, old(View()), Op.Step(|old(queue)|))
        decreases |queue|
      {
        Step(|queue|);
      }
    }

    method Mailbox(client: ClientId) returns (messages: seq<Message>)
      requires Valid() && client < |clients|
      modifies this
      ensures Valid() && View() == Apply(delivery, old(View()), Op.Read(client)) && messages == old(mailboxes)[client]
    {
      messages := mailboxes[client];
      mailboxes := mailboxes[client := []];
    }

    method SetPartition(allow: Option<seq<ClientId>>)
      requires Valid()
      modifies this
      ensures var some := if allow.Some? then Some(set c | c in allow.value) else None;
              Valid() && View() == Apply(delivery, old(View()), Op.SetPartition(some))
    {
      allowed := if allow.Some? then Some(set c | c in allow.value) else None;
    }

    method Inject(client: ClientId, msg: Message)
      requires Valid()
      modifies this
      ensures Valid() && View() == Apply(delivery, old(View()), Op.Inject(client, msg))
    {
      if client < |mailboxes| {
        mailboxes := mailboxes[client := mailboxes[client] + [msg]];
      }
    }

    method DropQueued(index: nat) returns (ok: bool)
      requires Valid()
      modifies this
      ensures Valid() && View() == Apply(delivery, old(View()), Op.Drop(index)) && ok == (index < |old(queue)|)
    {
      if index >= |queue| { return false; }
      queue := Without(queue, index);
      return true;
    }

    method DuplicateQueued(index: nat) returns (ok: bool)
      requires Valid()
      modifies this
      ensures Valid() && View() == Apply(delivery, old(View()), Op.Duplicate(index)) && ok == (index < |old(queue)|)
    {
      if index >= |queue| { return false; }
      CopyOf(queue, index);
      queue := queue[..index + 1] + [queue[index]] + queue[index + 1..];
      return true;
    }

    method DelayQueued(index: nat, tag: string) returns (ok: bool)
      requires Valid()
      modifies this
      ensures Valid() && View() == Apply(delivery, old(View()), Op.Delay(index, tag)) && ok == (index < |old(queue)|)
    {
      if index >= |queue| { return false; }
      var msg := queue[index];
      queue := Without(queue, index);
      delayed := delayed[tag := Under(delayed, tag) + [msg]];
      return true;
    }

    method ReleaseDelayed(tag: string) returns (ok: bool)
      requires Valid()
      modifies this
      ensures Valid() && View() == Apply(delivery, old(View()), Op.Release(tag)) && ok == (tag in old(delayed))
    {
      if tag !in delayed {
        assert delayed - {tag} == delayed && queue + [] == queue;
        return false;
      }
      queue := queue + delayed[tag];
      delayed := delayed - {tag};
      return true;
    }

    /** Accepts exactly the permutations of the queue's positions. */
    method ReorderQueued(order: seq<nat>) returns (ok: bool)
      requires Valid()
      modifies this
      ensures Valid() && View() == Apply(delivery, old(View()), Op.Reorder(order))
      ensures ok <==> Permutation(order, |old(queue)|)
    {
      if |order| != |queue| { return false; }
      var seen := new bool[|queue|](_ => false);
      var reordered := [];
      for i := 0 to |order|
        invariant View() == old(View()) && seen.Length == |queue|
        invariant NoRepeats(order[..i]) && Below(order[..i], |queue|)
        invariant forall x :: 0 <= x < |queue| ==> (seen[x] <==> x in order[..i])
        invariant reordered == Picked(queue, order[..i])
      {
        assert order[..i + 1] == order[..i] + [order[i]];
        if order[i] >= |queue| || seen[order[i]] {
          return false;
        }
        seen[order[i]] := true;
        reordered := reordered + [queue[order[i]]];
      }
      assert order[..|order|] == order;
      queue := reordered;
      return true;
    }
  }

  lemma NothingRouted(r: Router, clients: seq<Id>, mailboxes: seq<seq<Message>>)
    requires |clients| == |mailboxes|
    ensures AllRouted(r, [], clients, mailboxes) == mailboxes
  {
    var routed := AllRouted(r, [], clients, mailboxes);
    assert forall c :: 0 <= c < |clients| ==> routed[c] == mailboxes[c];
  }

  // ----- conservation over every run -----

  /** What has happened so far: what entered (sends and copies), what was
      dropped, what was carried and under which routing, and per client when it
      attached, what it has read and what was injected for it. */
  datatype Ledger = Ledger(
    entered: multiset<InFlight>,
    dropped: multiset<InFlight>,
    carried: seq<InFlight>,
    routers: seq<Router>,
    attachedAt: seq<nat>,
    readBy: seq<seq<Message>>,
    injected: seq<seq<Message>>)

  const NOTHING := Ledger(multiset{}, multiset{}, [], [], [], [], [])

  ghost predicate SameClients(b: Bus, l: Ledger) {
    && |b.clients| == |b.mailboxes| == |l.readBy| == |l.injected| == |l.attachedAt|
    && |l.carried| == |l.routers|
  }

  ghost function Noted(d: Delivery, b: Bus, l: Ledger, op: Op): (r: Ledger)
    requires SameClients(b, l) && Enabled(b, op)
  {
    match op
    case Attach(_) =>
      l.(attachedAt := l.attachedAt + [|l.carried|], readBy := l.readBy + [[]], injected := l.injected + [[]])
    case Send(sender, msg) => l.(entered := l.entered + multiset{InFlight(sender, msg)})
    case Step(n) =>
      var taken := d.Take(b.queue, n).0;
      l.(carried := l.carried + taken, routers := l.routers + Repeated(d.Route(b), |taken|))
    case Read(client) => l.(readBy := l.readBy[client := l.readBy[client] + b.mailboxes[client]])
    case Inject(client, msg) =>
      if client < |b.clients| then l.(injected := l.injected[client := l.injected[client] + [msg]]) else l
    case Drop(i) => if i < |b.queue| then l.(dropped := l.dropped + multiset{b.queue[i]}) else l
    case Duplicate(i) => if i < |b.queue| then l.(entered := l.entered + multiset{b.queue[i]}) else l
    case _ => l
  }

  /** What entered is queued, held, dropped or carried, message by message. */
  ghost predicate Balanced(entered: multiset<InFlight>, queue: seq<InFlight>, held: multiset<InFlight>,
                           dropped: multiset<InFlight>, carried: seq<InFlight>) {
    entered == multiset(queue) + held + dropped + multiset(carried)
  }

  ghost predicate Conserved(b: Bus, l: Ledger) {
    Balanced(l.entered, b.queue, Held(b.delayed), l.dropped, l.carried)
  }

  lemma CopyOf<T>(s: seq<T>, i: nat)
    requires i < |s|
    ensures s[..i + 1] + [s[i]] + s[i + 1..] == s[..i + 1] + s[i..]
    ensures multiset(s[..i + 1] + s[i..]) == multiset(s) + multiset{s[i]}
  {
    assert s == s[..i + 1] + s[i + 1..];
    assert s[i..] == [s[i]] + s[i + 1..];
  }

  lemma WithoutOne<T>(s: seq<T>, i: nat)
    requires i < |s|
    ensures multiset(Without(s, i)) + multiset{s[i]} == multiset(s)
  {
    assert s == s[..i] + [s[i]] + s[i + 1..];
  }

  lemma BalanceMoves(entered: multiset<InFlight>, queue: seq<InFlight>, held: multiset<InFlight>,
                     dropped: multiset<InFlight>, carried: seq<InFlight>, queue': seq<InFlight>,
                     held': multiset<InFlight>, dropped': multiset<InFlight>, batch: seq<InFlight>)
    requires Balanced(entered, queue, held, dropped, carried)
    requires multiset(queue) + held + dropped == multiset(queue') + held' + dropped' + multiset(batch)
    ensures Balanced(entered, queue', held', dropped', carried + batch)
  {
  }

  lemma BalanceGrows(entered: multiset<InFlight>, queue: seq<InFlight>, held: multiset<InFlight>,
                     dropped: multiset<InFlight>, carried: seq<InFlight>, queue': seq<InFlight>, f: InFlight)
    requires Balanced(entered, queue, held, dropped, carried) && multiset(queue') == multiset(queue) + multiset{f}
    ensures Balanced(entered + multiset{f}, queue', held, dropped, carried)
  {
  }

  lemma StepConserves(d: Delivery, b: Bus, l: Ledger, n: nat)
    requires SameClients(b, l) && Conserved(b, l)
    ensures Conserved(Apply(d, b, Op.Step(n)), Noted(d, b, l, Op.Step(n)))
  {
    var (taken, rest) := d.Take(b.queue, n);
    TakeBatchConserves(b.queue, d.policy, d.hash, n);
    BalanceMoves(l.entered, b.queue, Held(b.delayed), l.dropped, l.carried, rest, Held(b.delayed), l.dropped, taken);
  }

  lemma DelayConserves(b: Bus, l: Ledger, i: nat, tag: string)
    requires Conserved(b, l) && i < |b.queue|
    ensures Balanced(l.entered, Without(b.queue, i), Held(b.delayed[tag := Under(b.delayed, tag) + [b.queue[i]]]),
              l.dropped, l.carried)
  {
    WithoutOne(b.queue, i);
    HeldUnder(b.delayed, tag, b.queue[i]);
    BalanceMoves(l.entered, b.queue, Held(b.delayed), l.dropped, l.carried, Without(b.queue, i),
                 Held(b.delayed[tag := Under(b.delayed, tag) + [b.queue[i]]]), l.dropped, []);
    assert l.carried + [] == l.carried;
  }

  lemma DropConserves(b: Bus, l: Ledger, i: nat)
    requires Conserved(b, l) && i < |b.queue|
    ensures Balanced(l.entered, Without(b.queue, i), Held(b.delayed), l.dropped + multiset{b.queue[i]}, l.carried)
  {
    WithoutOne(b.queue, i);
    BalanceMoves(l.entered, b.queue, Held(b.delayed), l.dropped, l.carried, Without(b.queue, i), Held(b.delayed),
                 l.dropped + multiset{b.queue[i]}, []);
    assert l.carried + [] == l.carried;
  }

  lemma ReleaseConserves(b: Bus, l: Ledger, tag: string)
    requires Conserved(b, l)
    ensures Balanced(l.entered, b.queue + Under(b.delayed, tag), Held(b.delayed - {tag}), l.dropped, l.carried)
  {
    ReleaseMoves(b.delayed, tag);
    BalanceMoves(l.entered, b.queue, Held(b.delayed), l.dropped, l.carried, b.queue + Under(b.delayed, tag),
                 Held(b.delayed - {tag}), l.dropped, []);
    assert l.carried + [] == l.carried;
  }

  lemma SendConserves(b: Bus, l: Ledger, f: InFlight)
    requires Conserved(b, l)
    ensures Balanced(l.entered + multiset{f}, b.queue + [f], Held(b.delayed), l.dropped, l.carried)
  {
    BalanceGrows(l.entered, b.queue, Held(b.delayed), l.dropped, l.carried, b.queue + [f], f);
  }

  lemma CopyConserves(b: Bus, l: Ledger, i: nat)
    requires Conserved(b, l) && i < |b.queue|
    ensures Balanced(l.entered + multiset{b.queue[i]}, b.queue[..i + 1] + b.queue[i..], Held(b.delayed),
              l.dropped, l.carried)
  {
    CopyOf(b.queue, i);
    BalanceGrows(l.entered, b.queue, Held(b.delayed), l.dropped, l.carried, b.queue[..i + 1] + b.queue[i..],
                 b.queue[i]);
  }

  lemma PickConserves(b: Bus, l: Ledger, order: seq<nat>)
    requires Conserved(b, l) && Permutation(order, |b.queue|)
    ensures Balanced(l.entered, Picked(b.queue, order), Held(b.delayed), l.dropped, l.carried)
  {
    PickedConserves(b.queue, order);
  }

  lemma DropKeeps(d: Delivery, b: Bus, l: Ledger, i: nat)
    requires SameClients(b, l) && Conserved(b, l)
    ensures Conserved(Apply(d, b, Op.Drop(i)), Noted(d, b, l, Op.Drop(i)))
  {
    if i < |b.queue| { DropConserves(b, l, i); }
  }

  lemma CopyKeeps(d: Delivery, b: Bus, l: Ledger, i: nat)
    requires SameClients(b, l) && Conserved(b, l)
    ensures Conserved(Apply(d, b, Op.Duplicate(i)), Noted(d, b, l, Op.Duplicate(i)))
  {
    if i < |b.queue| { CopyConserves(b, l, i); }
  }

  lemma SendKeeps(d: Delivery, b: Bus, l: Ledger, sender: ClientId, msg: Message)
    requires SameClients(b, l) && Enabled(b, Op.Send(sender, msg)) && Conserved(b, l)
    ensures Conserved(Apply(d, b, Op.Send(sender, msg)), Noted(d, b, l, Op.Send(sender, msg)))
  {
    SendConserves(b, l, InFlight(sender, msg));
  }

  lemma ReleaseKeeps(d: Delivery, b: Bus, l: Ledger, tag: string)
    requires SameClients(b, l) && Conserved(b, l)
    ensures Conserved(Apply(d, b, Op.Release(tag)), Noted(d, b, l, Op.Release(tag)))
  {
    ReleaseConserves(b, l, tag);
  }

  lemma ReorderKeeps(d: Delivery, b: Bus, l: Ledger, order: seq<nat>)
    requires SameClients(b, l) && Conserved(b, l)
    ensures Conserved(Apply(d, b, Op.Reorder(order)), Noted(d, b, l, Op.Reorder(order)))
  {
    if Permutation(order, |b.queue|) { PickConserves(b, l, order); }
  }

  lemma DelayKeeps(d: Delivery, b: Bus, l: Ledger, i: nat, tag: string)
    requires SameClients(b, l) && Conserved(b, l)
    ensures Conserved(Apply(d, b, Op.Delay(i, tag)), Noted(d, b, l, Op.Delay(i, tag)))
  {
    if i < |b.queue| { DelayConserves(b, l, i, tag); }
  }

  /** Every operation keeps the balance. */
  lemma OpConserves(d: Delivery, b: Bus, l: Ledger, op: Op)
    requires SameClients(b, l) && Enabled(b, op) && Conserved(b, l)
    ensures Conserved(Apply(d, b, op), Noted(d, b, l, op))
  {
    match op {
      case Send(sender, msg) => SendKeeps(d, b, l, sender, msg);
      case Step(n) => StepConserves(d, b, l, n);
      case Release(tag) => ReleaseKeeps(d, b, l, tag);
      case Reorder(order) => ReorderKeeps(d, b, l, order);
      case Drop(i) => DropKeeps(d, b, l, i);
      case Duplicate(i) => CopyKeeps(d, b, l, i);
      case Delay(i, tag) => DelayKeeps(d, b, l, i, tag);
      case _ =>
    }
  }

  lemma ReleaseMoves(delayed: map<string, seq<InFlight>>, tag: string)
    ensures Held(delayed) == multiset(Under(delayed, tag)) + Held(delayed - {tag})
  {
    if tag in delayed {
      HeldSplit(delayed, tag);
    } else {
      assert delayed - {tag} == delayed;
    }
  }

  // ----- what each client has heard -----

  function Repeated<T>(x: T, n: nat): seq<T> {
    seq(n, _ => x)
  }

  /** What a client should hear of these messages, each under its own routing. */
  function Heard(flights: seq<InFlight>, routers: seq<Router>, client: ClientId, identity: Id): seq<Message>
    requires |flights| == |routers|
  {
    if flights == [] then [] else
      var n := |flights| - 1;
      Heard(flights[..n], routers[..n], client, identity)
      + (if Reaches(routers[n], flights[n], client, identity) then [flights[n].msg] else [])
  }

  lemma {:induction false} HeardConcat(f: seq<InFlight>, r: seq<Router>, g: seq<InFlight>, t: seq<Router>, c: ClientId,
                                       id: Id)
    requires |f| == |r| && |g| == |t|
    ensures Heard(f + g, r + t, c, id) == Heard(f, r, c, id) + Heard(g, t, c, id)
  {
    if g == [] {
      assert f + g == f && r + t == r;
    } else {
      var n := |g| - 1;
      assert (f + g)[..|f| + n] == f + g[..n] && (r + t)[..|f| + n] == r + t[..n];
      HeardConcat(f, r, g[..n], t[..n], c, id);
    }
  }

  lemma {:induction false} HeardIsRouted(batch: seq<InFlight>, r: Router, c: ClientId, id: Id)
    ensures Heard(batch, Repeated(r, |batch|), c, id) == Routed(r, batch, c, id)
  {
    if batch != [] {
      var n := |batch| - 1;
      assert Repeated(r, |batch|)[..n] == Repeated(r, n);
      HeardIsRouted(batch[..n], r, c, id);
    }
  }

  /** `xs` is `a` and `b` merged, each in its own order. */
  ghost predicate Interleaves<T>(xs: seq<T>, a: seq<T>, b: seq<T>)
    decreases |xs|
  {
    if xs == [] then a == [] && b == [] else
      var n := |xs| - 1;
      || (a != [] && a[|a| - 1] == xs[n] && Interleaves(xs[..n], a[..|a| - 1], b))
      || (b != [] && b[|b| - 1] == xs[n] && Interleaves(xs[..n], a, b[..|b| - 1]))
  }

  lemma ExtendOne<T>(xs: seq<T>, a: seq<T>, b: seq<T>, x: T)
    requires Interleaves(xs, a, b)
    ensures Interleaves(xs + [x], a + [x], b) && Interleaves(xs + [x], a, b + [x])
  {
    assert (xs + [x])[..|xs|] == xs && (a + [x])[..|a|] == a && (b + [x])[..|b|] == b;
  }

  lemma {:induction false} ExtendMany<T>(xs: seq<T>, a: seq<T>, b: seq<T>, more: seq<T>)
    requires Interleaves(xs, a, b)
    ensures Interleaves(xs + more, a + more, b)
  {
    if more == [] {
      assert xs + more == xs && a + more == a;
    } else {
      var n := |more| - 1;
      ExtendMany(xs, a, b, more[..n]);
      ExtendOne(xs + more[..n], a + more[..n], b, more[n]);
      assert xs + more == xs + more[..n] + [more[n]] && a + more == a + more[..n] + [more[n]];
    }
  }

  lemma {:induction false} MergedWithNothing<T>(xs: seq<T>, a: seq<T>)
    requires Interleaves(xs, a, [])
    ensures xs == a
  {
    if xs != [] {
      var n := |xs| - 1;
      MergedWithNothing(xs[..n], a[..|a| - 1]);
      assert xs == xs[..n] + [xs[n]] && a == a[..|a| - 1] + [a[|a| - 1]];
    }
  }

  /** One client: read and unread messages together are what was routed to it
      since it attached, merged with what was injected. */
  ghost predicate Told(l: Ledger, at: nat, client: ClientId, identity: Id, had: seq<Message>, box: seq<Message>,
                       injected: seq<Message>)
    requires |l.carried| == |l.routers|
  {
    at <= |l.carried| && Interleaves(had + box, Heard(l.carried[at..], l.routers[at..], client, identity), injected)
  }

  ghost predicate AllTold(b: Bus, l: Ledger) {
    && SameClients(b, l)
    && forall c :: 0 <= c < |b.clients| ==>
                     Told(l, l.attachedAt[c], c, b.clients[c], l.readBy[c], b.mailboxes[c], l.injected[c])
  }

  lemma HeardBatch(l: Ledger, at: nat, client: ClientId, identity: Id, r: Router, batch: seq<InFlight>)
    requires |l.carried| == |l.routers| && at <= |l.carried|
    ensures Heard((l.carried + batch)[at..], (l.routers + Repeated(r, |batch|))[at..], client, identity)
            == Heard(l.carried[at..], l.routers[at..], client, identity) + Routed(r, batch, client, identity)
  {
    var rs := Repeated(r, |batch|);
    HeardConcat(l.carried[at..], l.routers[at..], batch, rs, client, identity);
    HeardIsRouted(batch, r, client, identity);
    assert (l.carried + batch)[at..] == l.carried[at..] + batch && (l.routers + rs)[at..] == l.routers[at..] + rs;
  }

  lemma ToldBatch(l: Ledger, at: nat, client: ClientId, identity: Id, had: seq<Message>, box: seq<Message>,
                  injected: seq<Message>, r: Router, batch: seq<InFlight>)
    requires |l.carried| == |l.routers| && Told(l, at, client, identity, had, box, injected)
    ensures var l' := l.(carried := l.carried + batch, routers := l.routers + Repeated(r, |batch|));
            Told(l', at, client, identity, had, box + Routed(r, batch, client, identity), injected)
  {
    var more := Routed(r, batch, client, identity);
    HeardBatch(l, at, client, identity, r, batch);
    ExtendMany(had + box, Heard(l.carried[at..], l.routers[at..], client, identity), injected, more);
    assert had + (box + more) == had + box + more;
  }

  lemma StepTold(d: Delivery, b: Bus, l: Ledger, n: nat)
    requires AllTold(b, l)
    ensures AllTold(Apply(d, b, Op.Step(n)), Noted(d, b, l, Op.Step(n)))
  {
    var taken, r := d.Take(b.queue, n).0, d.Route(b);
    var b', l' := Apply(d, b, Op.Step(n)), Noted(d, b, l, Op.Step(n));
    forall c | 0 <= c < |b.clients|
      ensures Told(l', l'.attachedAt[c], c, b'.clients[c], l'.readBy[c], b'.mailboxes[c], l'.injected[c])
    {
      ToldBatch(l, l.attachedAt[c], c, b.clients[c], l.readBy[c], b.mailboxes[c], l.injected[c], r, taken);
    }
  }

  lemma AttachTold(d: Delivery, b: Bus, l: Ledger, identity: Id)
    requires AllTold(b, l)
    ensures AllTold(Apply(d, b, Op.Attach(identity)), Noted(d, b, l, Op.Attach(identity)))
  {
    var l' := Noted(d, b, l, Op.Attach(identity));
    assert l.carried[|l.carried|..] == [] && l.routers[|l.carried|..] == [];
    assert Told(l', |l.carried|, |b.clients|, identity, [], [], []);
    forall c | 0 <= c < |b.clients|
      ensures Told(l', l'.attachedAt[c], c, b.clients[c], l'.readBy[c], b.mailboxes[c], l'.injected[c])
    {
      assert Told(l, l.attachedAt[c], c, b.clients[c], l.readBy[c], b.mailboxes[c], l.injected[c]);
    }
  }

  lemma ReadTold(d: Delivery, b: Bus, l: Ledger, reader: ClientId)
    requires AllTold(b, l) && reader < |b.clients|
    ensures AllTold(Apply(d, b, Op.Read(reader)), Noted(d, b, l, Op.Read(reader)))
  {
    assert l.readBy[reader] + b.mailboxes[reader] + [] == l.readBy[reader] + b.mailboxes[reader];
    var b', l' := Apply(d, b, Op.Read(reader)), Noted(d, b, l, Op.Read(reader));
    forall c | 0 <= c < |b.clients|
      ensures Told(l', l'.attachedAt[c], c, b'.clients[c], l'.readBy[c], b'.mailboxes[c], l'.injected[c])
    {
      assert Told(l, l.attachedAt[c], c, b.clients[c], l.readBy[c], b.mailboxes[c], l.injected[c]);
    }
  }

  lemma InjectTold(d: Delivery, b: Bus, l: Ledger, c: ClientId, msg: Message)
    requires AllTold(b, l) && c < |b.clients|
    ensures AllTold(Apply(d, b, Op.Inject(c, msg)), Noted(d, b, l, Op.Inject(c, msg)))
  {
    var at, had, box := l.attachedAt[c], l.readBy[c], b.mailboxes[c];
    ExtendOne(had + box, Heard(l.carried[at..], l.routers[at..], c, b.clients[c]), l.injected[c], msg);
    assert had + (box + [msg]) == had + box + [msg];
    var b', l' := Apply(d, b, Op.Inject(c, msg)), Noted(d, b, l, Op.Inject(c, msg));
    forall k | 0 <= k < |b.clients|
      ensures Told(l', l'.attachedAt[k], k, b'.clients[k], l'.readBy[k], b'.mailboxes[k], l'.injected[k])
    {
      assert Told(l, l.attachedAt[k], k, b.clients[k], l.readBy[k], b.mailboxes[k], l.injected[k]);
    }
  }

  lemma OpTold(d: Delivery, b: Bus, l: Ledger, op: Op)
    requires AllTold(b, l) && Enabled(b, op)
    ensures AllTold(Apply(d, b, op), Noted(d, b, l, op))
  {
    match op {
      case Step(n) => StepTold(d, b, l, n);
      case Attach(identity) => AttachTold(d, b, l, identity);
      case Read(reader) => ReadTold(d, b, l, reader);
      case Inject(c, msg) => if c < |b.clients| { InjectTold(d, b, l, c, msg); }
      case _ =>
    }
  }

  /** A run of operations from the empty bus, reading only clients it knows. */
  ghost predicate Legal(d: Delivery, ops: seq<Op>)
    decreases |ops|, 0
  {
    ops == [] || (Legal(d, ops[..|ops| - 1]) && Enabled(After(d, ops[..|ops| - 1]).0, ops[|ops| - 1]))
  }

  ghost function After(d: Delivery, ops: seq<Op>): (r: (Bus, Ledger))
    requires Legal(d, ops)
    ensures SameClients(r.0, r.1)
    decreases |ops|, 1
  {
    if ops == [] then (EMPTY, NOTHING) else
      var (b, l) := After(d, ops[..|ops| - 1]);
      (Apply(d, b, ops[|ops| - 1]), Noted(d, b, l, ops[|ops| - 1]))
  }

  /** After any run, under any policy: nothing is made or lost on the way to
      the batches, and every client has been told exactly what was routed to it
      since it attached, in order, merged with what was injected for it. */
  lemma {:induction false} NothingMadeOrLost(d: Delivery, ops: seq<Op>)
    requires Legal(d, ops)
    ensures Conserved(After(d, ops).0, After(d, ops).1)
    ensures AllTold(After(d, ops).0, After(d, ops).1)
  {
    if ops == [] {
      assert Held(map[]) == multiset{};
    } else {
      var (b, l) := After(d, ops[..|ops| - 1]);
      NothingMadeOrLost(d, ops[..|ops| - 1]);
      OpConserves(d, b, l, ops[|ops| - 1]);
      OpTold(d, b, l, ops[|ops| - 1]);
    }
  }

  /** A client for which nothing was injected has read, or will read, exactly
      the carried messages that reach it, in the order they were carried. */
  lemma ToldExactly(d: Delivery, ops: seq<Op>, c: ClientId)
    requires Legal(d, ops) && c < |After(d, ops).0.clients| && After(d, ops).1.injected[c] == []
    ensures var (b, l) := After(d, ops);
            && l.attachedAt[c] <= |l.carried|
            && l.readBy[c] + b.mailboxes[c]
               == Heard(l.carried[l.attachedAt[c]..], l.routers[l.attachedAt[c]..], c, b.clients[c])
  {
    NothingMadeOrLost(d, ops);
    var (b, l) := After(d, ops);
    var at := l.attachedAt[c];
    assert Told(l, at, c, b.clients[c], l.readBy[c], b.mailboxes[c], l.injected[c]);
    MergedWithNothing(l.readBy[c] + b.mailboxes[c], Heard(l.carried[at..], l.routers[at..], c, b.clients[c]));
  }

  // ----- the orders the scenario families ask for -----

  function ReversedOrder(n: nat): seq<nat> {
    Reversed(Range(n))
  }

  function RotatedOrder(n: nat, leftBy: nat): seq<nat> {
    seq(n, i requires 0 <= i < n => (i + leftBy) % n)
  }

  function Swapped<T>(s: seq<T>, i: nat, j: nat): seq<T>
    requires i < |s| && j < |s|
  {
    s[i := s[j]][j := s[i]]
  }

  /** The swaps from position `i` down, with `draws[k]` drawn from `0..=k`. */
  function Swaps(s: seq<nat>, draws: seq<nat>, i: nat): seq<nat>
    requires |s| == |draws| && i <= |s| && forall k :: 0 <= k < |s| ==> draws[k] <= k
    decreases i
  {
    if i <= 1 then s else Swaps(Swapped(s, i - 1, draws[i - 1]), draws, i - 1)
  }

  lemma SwappedConserves<T>(s: seq<T>, i: nat, j: nat)
    requires i < |s| && j < |s|
    ensures multiset(Swapped(s, i, j)) == multiset(s)
  {
  }

  lemma {:induction false} SwapsConserve(s: seq<nat>, draws: seq<nat>, i: nat)
    requires |s| == |draws| && i <= |s| && forall k :: 0 <= k < |s| ==> draws[k] <= k
    ensures multiset(Swaps(s, draws, i)) == multiset(s) && |Swaps(s, draws, i)| == |s|
    ensures forall k :: i <= k < |s| ==> Swaps(s, draws, i)[k] == s[k]
    decreases i
  {
    if i > 1 {
      var t := Swapped(s, i - 1, draws[i - 1]);
      SwappedConserves(s, i - 1, draws[i - 1]);
      SwapsConserve(t, draws, i - 1);
    }
  }

  /** The seeded shuffle, with the generator's draws as a parameter. */
  method ShuffledOrder(n: nat, draws: seq<nat>) returns (order: seq<nat>)
    requires |draws| == n && forall k :: 0 <= k < n ==> draws[k] <= k
    ensures order == Swaps(Range(n), draws, n)
    ensures Permutation(order, n)
  {
    var a := new nat[n](i => i);
    assert a[..] == Range(n);
    var i := n;
    while i > 1
      invariant 0 <= i <= n && a.Length == n
      invariant Swaps(a[..], draws, i) == Swaps(Range(n), draws, n)
    {
      i := i - 1;
      var j := draws[i];
      ghost var before := a[..];
      a[i], a[j] := a[j], a[i];
      assert a[..] == Swapped(before, i, j);
    }
    order := a[..];
    SwapsConserve(Range(n), draws, n);
    PermutationIffRange(order, n);
  }

  lemma LastSwap(s: seq<nat>, draws: seq<nat>, i: nat)
    requires |s| == |draws| && 1 < i <= |s| && forall k :: 0 <= k < |s| ==> draws[k] <= k
    ensures |Swaps(s, draws, i)| == |s| && Swaps(s, draws, i)[i - 1] == s[draws[i - 1]]
  {
    SwapsConserve(Swapped(s, i - 1, draws[i - 1]), draws, i - 1);
  }

  lemma SwappedStaysDistinct(s: seq<nat>, i: nat, j: nat)
    requires i < |s| && j < |s| && NoRepeats(s)
    ensures NoRepeats(Swapped(s, i, j))
  {
    SwappedConserves(s, i, j);
    NoRepeatsPermutation(s, Swapped(s, i, j));
  }

  lemma SameDraw(s: seq<nat>, c: seq<nat>, d: seq<nat>, i: nat)
    requires |s| == |c| == |d| && 1 < i <= |s| && NoRepeats(s)
    requires forall k :: 0 <= k < |s| ==> c[k] <= k
    requires forall k :: 0 <= k < |s| ==> d[k] <= k
    requires Swaps(s, c, i) == Swaps(s, d, i)
    ensures c[i - 1] == d[i - 1]
  {
    LastSwap(s, c, i);
    LastSwap(s, d, i);
    assert s[c[i - 1]] == s[d[i - 1]];
  }

  /** Different draws give different schedules, so every draw counts. */
  lemma {:induction false} DrawsDecideTheOrder(s: seq<nat>, c: seq<nat>, d: seq<nat>, i: nat)
    requires |s| == |c| == |d| && i <= |s| && NoRepeats(s)
    requires forall k :: 0 <= k < |s| ==> c[k] <= k
    requires forall k :: 0 <= k < |s| ==> d[k] <= k
    requires Swaps(s, c, i) == Swaps(s, d, i)
    ensures forall k :: 0 <= k < i ==> c[k] == d[k]
    decreases i
  {
    if i > 1 {
      SameDraw(s, c, d, i);
      var j := c[i - 1];
      SwappedStaysDistinct(s, i - 1, j);
      DrawsDecideTheOrder(Swapped(s, i - 1, j), c, d, i - 1);
    }
  }

  /** Reversed and rotated orders are accepted by every queue of their length. */
  lemma FixedOrdersPermute(n: nat, leftBy: nat)
    ensures Permutation(ReversedOrder(n), n) && Permutation(RotatedOrder(n, leftBy), n)
  {
    ReversedConserves(Range(n));
    PermutationIffRange(ReversedOrder(n), n);
    var rotated := RotatedOrder(n, leftBy);
    forall i, j | 0 <= i < j < n ensures rotated[i] != rotated[j] {
      RotationInjective(i, j, leftBy, n);
    }
  }

  lemma RotationInjective(i: nat, j: nat, leftBy: nat, n: nat)
    requires i < j < n
    ensures (i + leftBy) % n != (j + leftBy) % n
  {
    if (i + leftBy) % n == (j + leftBy) % n {
      var q := (j + leftBy) / n - (i + leftBy) / n;
      assert q * n == j - i;
      NoMultipleBetween(q, n);
    }
  }

  lemma NoMultipleBetween(q: int, n: nat)
    ensures q * n <= 0 || q * n >= n
  {
    if q >= 1 { assert q * n == (q - 1) * n + n; }
  }
}
