/** The send idempotency store: a bounded first-write-wins map, its on-disk
    form, and the persist tasks that share one lock. */
module IdempotencyStore {
  import opened Orders
  import BoundedFifo

  const CAPACITY: nat := 1024

  datatype Entry = Entry(key: Id, fingerprint: Bytes, messageIds: seq<Id>, recordedAt: nat)

  datatype Store = Store(
    order: seq<Id>,
    seen: map<Id, (Bytes, seq<Id>)>,
    recordedAt: map<Id, nat>)

  const EMPTY := Store([], map[], map[])

  ghost predicate Valid(s: Store) {
    && |s.order| <= CAPACITY
    && NoRepeats(s.order)
    && (forall k :: k in s.seen <==> k in s.order)
    && (forall k :: k in s.recordedAt <==> k in s.order)
  }

  function Lookup(s: Store, key: Id, fingerprint: Bytes): Option<seq<Id>> {
    if key in s.seen && s.seen[key].0 == fingerprint then Some(s.seen[key].1) else None
  }

  function Evict(s: Store): Store {
    if |s.order| >= CAPACITY then
      Store(s.order[1..], s.seen - {s.order[0]}, s.recordedAt - {s.order[0]})
    else s
  }

  function Put(s: Store, e: Entry): Store {
    if e.key in s.seen then s
    else
      var room := Evict(s);
      Store(room.order + [e.key], room.seen[e.key := (e.fingerprint, e.messageIds)],
            room.recordedAt[e.key := e.recordedAt])
  }

  function PutAll(s: Store, entries: seq<Entry>): Store {
    if entries == [] then s else Put(PutAll(s, entries[..|entries| - 1]), entries[|entries| - 1])
  }

  /** What a persist writes: the entries in order. */
  function Entries(s: Store): seq<Entry> {
    EntriesOf(s, s.order)
  }

  function EntriesOf(s: Store, keys: seq<Id>): seq<Entry> {
    if keys == [] then [] else
      var k := keys[|keys| - 1];
      EntriesOf(s, keys[..|keys| - 1])
      + (if k in s.seen
         then [Entry(k, s.seen[k].0, s.seen[k].1, if k in s.recordedAt then s.recordedAt[k] else 0)] else [])
  }

  function Load(entries: seq<Entry>): Store {
    PutAll(EMPTY, entries)
  }

  // ----- the store in memory -----

  class SendIdempotency {
    var order: seq<Id>
    var seen: map<Id, (Bytes, seq<Id>)>
    var recordedAt: map<Id, nat>

    ghost function View(): Store
      reads this
    {
      Store(order, seen, recordedAt)
    }

    constructor ()
      ensures View() == EMPTY
    {
      order, seen, recordedAt := [], map[], map[];
    }

    method Get(key: Id, fingerprint: Bytes) returns (ids: Option<seq<Id>>)
      ensures ids == Lookup(View(), key, fingerprint)
    {
      if key in seen {
        var (recorded, found) := seen[key];
        if recorded == fingerprint { return Some(found); }
      }
      return None;
    }

    method Record(key: Id, fingerprint: Bytes, messageIds: seq<Id>, now: nat) returns (shouldPersist: bool)
      modifies this
      ensures View() == Put(old(View()), Entry(key, fingerprint, messageIds, now))
      ensures shouldPersist <==> key !in old(seen)
    {
      if key in seen { return false; }
      if |order| >= CAPACITY {
        var evicted := order[0];
        order := order[1..];
        seen := seen - {evicted};
        recordedAt := recordedAt - {evicted};
      }
      seen := seen[key := (fingerprint, messageIds)];
      recordedAt := recordedAt[key := now];
      order := order + [key];
      return true;
    }

    method SnapshotEntries() returns (entries: seq<Entry>)
      ensures entries == Entries(View())
    {
      entries := [];
      for i := 0 to |order|
        invariant entries == EntriesOf(View(), order[..i])
      {
        assert order[..i + 1][..i] == order[..i];
        if order[i] in seen {
          var (fingerprint, messageIds) := seen[order[i]];
          var at := if order[i] in recordedAt then recordedAt[order[i]] else 0;
          entries := entries + [Entry(order[i], fingerprint, messageIds, at)];
        }
      }
      assert order[..|order|] == order;
    }

    method LoadFrom(entries: seq<Entry>)
      modifies this
      ensures View() == Load(entries)
    {
      order, seen, recordedAt := [], map[], map[];
      for i := 0 to |entries|
        invariant View() == PutAll(EMPTY, entries[..i])
      {
        assert entries[..i + 1][..i] == entries[..i];
        var _ := Record(entries[i].key, entries[i].fingerprint, entries[i].messageIds, entries[i].recordedAt);
      }
      assert entries[..|entries|] == entries;
    }
  }

  // ----- what holds of every store -----

  lemma EvictValid(s: Store)
    requires Valid(s)
    ensures Valid(Evict(s)) && |Evict(s).order| < CAPACITY
    ensures forall k :: k in Evict(s).order ==> k in s.order
  {
    if |s.order| >= CAPACITY {
      assert s.order == [s.order[0]] + s.order[1..];
      assert s.order[0] !in s.order[1..];
    }
  }

  lemma PutValid(s: Store, e: Entry)
    requires Valid(s)
    ensures Valid(Put(s, e))
  {
    EvictValid(s);
  }

  /** Any file, whatever its entries, loads into a valid store. */
  lemma {:induction false} AnyFileLoadsValid(entries: seq<Entry>)
    ensures Valid(Load(entries))
  {
    if entries != [] {
      AnyFileLoadsValid(entries[..|entries| - 1]);
      PutValid(Load(entries[..|entries| - 1]), entries[|entries| - 1]);
    }
  }

  lemma PutKeepsAnswers(s: Store, e: Entry, key: Id, fingerprint: Bytes)
    requires Valid(s) && key in s.seen && key in Put(s, e).seen
    ensures Lookup(Put(s, e), key, fingerprint) == Lookup(s, key, fingerprint)
  {
  }

  /** The first record of a key wins: as long as it is not evicted, it answers
      its ids for its own fingerprint, nothing for any other, and no later
      record under the key changes that. */
  lemma {:induction false} FirstRecordWins(s: Store, first: Entry, later: seq<Entry>, fingerprint: Bytes)
    requires Valid(s) && first.key !in s.seen
    requires forall n :: 0 <= n <= |later| ==> first.key in PutAll(Put(s, first), later[..n]).seen
    ensures Lookup(PutAll(Put(s, first), later), first.key, fingerprint)
            == if fingerprint == first.fingerprint then Some(first.messageIds) else None
    ensures Valid(PutAll(Put(s, first), later))
  {
    PutValid(s, first);
    if later != [] {
      var m := |later| - 1;
      forall n | 0 <= n <= m ensures first.key in PutAll(Put(s, first), later[..m][..n]).seen {
        assert later[..m][..n] == later[..n];
      }
      FirstRecordWins(s, first, later[..m], fingerprint);
      PutValid(PutAll(Put(s, first), later[..m]), later[m]);
      assert later[..|later|] == later;
      PutKeepsAnswers(PutAll(Put(s, first), later[..m]), later[m], first.key, fingerprint);
    }
  }

  function Keys(entries: seq<Entry>): seq<Id> {
    if entries == [] then [] else Keys(entries[..|entries| - 1]) + [entries[|entries| - 1].key]
  }

  lemma PutIsRemember(s: Store, e: Entry)
    requires Valid(s)
    ensures Put(s, e).order == BoundedFifo.Remember(CAPACITY, s.order, e.key)
  {
    if |s.order| >= CAPACITY && e.key !in s.seen {
      assert (s.order + [e.key])[1..] == s.order[1..] + [e.key];
    }
  }

  /** Which keys are held: the last `CAPACITY` new ones, oldest first. */
  lemma {:induction false} HoldsTheNewest(entries: seq<Entry>)
    ensures Load(entries).order == BoundedFifo.Held(CAPACITY, Keys(entries))
    ensures Load(entries).order == BoundedFifo.TakeLast(BoundedFifo.Effective(CAPACITY, Keys(entries)), CAPACITY)
  {
    BoundedFifo.HeldIsLastEffective(CAPACITY, Keys(entries));
    if entries != [] {
      var m := |entries| - 1;
      HoldsTheNewest(entries[..m]);
      AnyFileLoadsValid(entries[..m]);
      PutIsRemember(Load(entries[..m]), entries[m]);
      BoundedFifo.InsertStep(CAPACITY, Keys(entries[..m]), entries[m].key);
    }
  }

  // ----- persist and load -----

  /** `t` is the part of `s` that the first `n` keys of its order describe. */
  ghost predicate IsPrefix(t: Store, s: Store, n: nat) {
    && n <= |s.order|
    && t.order == s.order[..n]
    && (forall k :: k in t.seen <==> k in t.order)
    && (forall k :: k in t.recordedAt <==> k in t.order)
    && (forall k :: k in t.seen && k in s.seen ==> t.seen[k] == s.seen[k])
    && (forall k :: k in t.recordedAt && k in s.recordedAt ==> t.recordedAt[k] == s.recordedAt[k])
  }

  lemma {:induction false} LoadsPrefix(s: Store, n: nat)
    requires Valid(s) && n <= |s.order|
    ensures IsPrefix(Load(EntriesOf(s, s.order[..n])), s, n)
  {
    if n > 0 {
      LoadsPrefix(s, n - 1);
      var k := s.order[n - 1];
      assert s.order[..n][..n - 1] == s.order[..n - 1];
      assert k in s.order;
      var e := Entry(k, s.seen[k].0, s.seen[k].1, s.recordedAt[k]);
      var before := EntriesOf(s, s.order[..n - 1]);
      assert EntriesOf(s, s.order[..n]) == before + [e];
      assert (before + [e])[..|before|] == before;
      PrefixStep(Load(before), s, n);
    }
  }

  lemma PrefixStep(t: Store, s: Store, n: nat)
    requires Valid(s) && 0 < n <= |s.order| && IsPrefix(t, s, n - 1)
    requires s.order[n - 1] in s.seen && s.order[n - 1] in s.recordedAt
    ensures var k := s.order[n - 1];
            IsPrefix(Put(t, Entry(k, s.seen[k].0, s.seen[k].1, s.recordedAt[k])), s, n)
  {
    var k := s.order[n - 1];
    assert s.order[..n] == s.order[..n - 1] + [k];
    assert k !in s.order[..n - 1];
    assert s.seen[k] == (s.seen[k].0, s.seen[k].1);
  }

  /** Loading what was persisted rebuilds the store exactly. */
  lemma PersistThenLoad(s: Store)
    requires Valid(s)
    ensures Load(Entries(s)) == s
  {
    LoadsPrefix(s, |s.order|);
    assert s.order[..|s.order|] == s.order;
    WholePrefix(Load(Entries(s)), s);
  }

  lemma WholePrefix(t: Store, s: Store)
    requires Valid(s) && IsPrefix(t, s, |s.order|)
    ensures t == s
  {
    assert t.order == s.order;
    assert t.seen == s.seen;
    assert t.recordedAt == s.recordedAt;
  }

  // ----- concurrent persists -----

  /** `history` holds every state memory has had. `onDisk` and `snapshot` are
      positions in it: the state the file in place was written from, and the
      state the latest task to take the lock copied. `waiting` counts persist
      tasks spawned and not yet holding the lock. */
  datatype Disk = Disk(
    history: seq<Store>,
    onDisk: nat,
    snapshot: nat,
    locked: bool,
    waiting: nat,
    missed: bool)

  datatype Action =
    | RecordNew(entry: Entry)     // memory moves on and a persist task is spawned
    | TakeLock                    // a task takes the lock and copies the entries
    | Release(renamed: bool)      // it ends, having renamed its file into place or not

  function Memory(d: Disk): Store
    requires d.history != []
  {
    d.history[|d.history| - 1]
  }

  predicate Enabled(d: Disk, a: Action)
    requires d.history != []
  {
    match a
    case RecordNew(entry) => entry.key !in Memory(d).seen
    case TakeLock => d.waiting > 0 && !d.locked
    case Release(_) => d.locked
  }

  function Do(d: Disk, a: Action): Disk
    requires d.history != [] && Enabled(d, a)
  {
    match a
    case RecordNew(entry) => d.(history := d.history + [Put(Memory(d), entry)], waiting := d.waiting + 1)
    case TakeLock => d.(locked := true, waiting := d.waiting - 1, snapshot := |d.history| - 1)
    case Release(renamed) =>
      d.(locked := false, missed := !renamed, onDisk := if renamed then d.snapshot else d.onDisk)
  }

  /** The disk is no newer than the latest copy taken, which is no newer than
      memory; memory beyond that copy has a task waiting; and between writes
      the disk is that copy unless its rename was missed. */
  ghost predicate Ordered(d: Disk) {
    && d.history != []
    && d.onDisk <= d.snapshot < |d.history|
    && (d.snapshot < |d.history| - 1 ==> d.waiting > 0)
    && (!d.locked && !d.missed ==> d.onDisk == d.snapshot)
    && (forall i :: 0 <= i < |d.history| ==> Valid(d.history[i]))
  }

  predicate Legal(d: Disk, run: seq<Action>)
    requires d.history != []
    decreases |run|, 0
  {
    run == [] || (Legal(d, run[..|run| - 1]) && Enabled(After(d, run[..|run| - 1]), run[|run| - 1]))
  }

  function After(d: Disk, run: seq<Action>): (r: Disk)
    requires d.history != [] && Legal(d, run)
    ensures r.history != []
    decreases |run|, 1
  {
    if run == [] then d else Do(After(d, run[..|run| - 1]), run[|run| - 1])
  }

  lemma {:induction false} RunsStayOrdered(d: Disk, run: seq<Action>)
    requires Ordered(d) && Legal(d, run)
    ensures Ordered(After(d, run))
  {
    if run != [] {
      var before := After(d, run[..|run| - 1]);
      RunsStayOrdered(d, run[..|run| - 1]);
      match run[|run| - 1] {
        case RecordNew(entry) => PutValid(Memory(before), entry);
        case _ =>
      }
    }
  }

  /** A restart at any moment loads exactly a state memory once had, never one
      older than a restart at an earlier moment would have loaded. */
  lemma {:induction false} RestartNeverGoesBack(d: Disk, run: seq<Action>, n: nat)
    requires Ordered(d) && Legal(d, run) && n <= |run|
    ensures Legal(d, run[..n])
    ensures After(d, run[..n]).onDisk <= After(d, run).onDisk < |After(d, run).history|
    ensures var e := After(d, run);
            Load(Entries(e.history[e.onDisk])) == e.history[e.onDisk]
  {
    RunsStayOrdered(d, run);
    var e := After(d, run);
    PersistThenLoad(e.history[e.onDisk]);
    if n == |run| {
      assert run[..n] == run;
    } else {
      var m := |run| - 1;
      assert run[..m][..n] == run[..n];
      RestartNeverGoesBack(d, run[..m], n);
      RunsStayOrdered(d, run[..m]);
    }
  }

  /** A task has copied the entries since the last record. */
  predicate Copied(run: seq<Action>) {
    run == [] || match run[|run| - 1]
                 case RecordNew(_) => false
                 case TakeLock => true
                 case Release(_) => Copied(run[..|run| - 1])
  }

  /** A task that copied the entries after the last record has renamed its
      file into place. */
  predicate Landed(run: seq<Action>) {
    run == [] || match run[|run| - 1]
                 case RecordNew(_) => false
                 case TakeLock => Landed(run[..|run| - 1])
                 case Release(renamed) => Landed(run[..|run| - 1]) || (renamed && Copied(run[..|run| - 1]))
  }

  /** The state of a store just loaded: its file and its memory agree. */
  function Started(m: Store): Disk {
    Disk([m], 0, 0, false, 0, false)
  }

  /** The file in place was written from the newest memory exactly when such a
      task has landed: a missed rename is not retried by anyone else. */
  lemma {:induction false} DiskIsNewestIff(m: Store, run: seq<Action>)
    requires Valid(m) && Legal(Started(m), run)
    ensures var e := After(Started(m), run);
            && (e.snapshot == |e.history| - 1 <==> Copied(run))
            && (e.onDisk == |e.history| - 1 <==> Landed(run))
  {
    RunsStayOrdered(Started(m), run);
    if run != [] {
      RunsStayOrdered(Started(m), run[..|run| - 1]);
      DiskIsNewestIff(m, run[..|run| - 1]);
    }
  }

  /** An instance: the only task misses its rename, and a restart loads the
      state before the record. */
  lemma MissedRenameStaysBehind(m: Store, entry: Entry)
    requires Valid(m) && entry.key !in m.seen
    ensures var run := [RecordNew(entry), TakeLock, Release(false)];
            && Legal(Started(m), run)
            && var e := After(Started(m), run);
               && e.waiting == 0 && !e.locked && e.onDisk < |e.history|
               && Load(Entries(e.history[e.onDisk])) == m && Memory(e) == Put(m, entry) != m
  {
    var run := [RecordNew(entry), TakeLock, Release(false)];
    assert run[..2] == [RecordNew(entry), TakeLock];
    assert run[..2][..1] == [RecordNew(entry)] && run[..2][..1][..0] == [];
    assert Legal(Started(m), []) && After(Started(m), []) == Started(m);
    assert After(Started(m), run[..2][..1]).history == [m, Put(m, entry)];
    assert entry.key in Put(m, entry).seen;
    PersistThenLoad(m);
  }

  /** Once every persist task has ended, a restart loads what memory holds if
      the last of them did not miss its rename; no earlier miss matters. */
  lemma QuietDiskIsMemory(m: Store, run: seq<Action>)
    requires Valid(m) && Legal(Started(m), run)
    requires var e := After(Started(m), run); e.waiting == 0 && !e.locked && !e.missed
    ensures Landed(run)
    ensures var e := After(Started(m), run);
            e.onDisk < |e.history| && Load(Entries(e.history[e.onDisk])) == Memory(e)
  {
    RunsStayOrdered(Started(m), run);
    DiskIsNewestIff(m, run);
    var e := After(Started(m), run);
    PersistThenLoad(e.history[e.onDisk]);
  }
}
