/** The inbound drain loop: live events and storage replays deduplicated
    through one bounded cursor. */
module InboundDelivery {
  import opened Orders
  import opened BoundedFifo

  /** A stored row and whether it projects to an event of this subscription. */
  datatype Row = Row(id: Id, relevant: bool)

  datatype Event =
    | Live(relevant: bool, dedupId: Option<Id>)             // a runtime or debug event and its durable id, if any
    | Lagged(dropped: nat, accounts: seq<Option<seq<Row>>>) // rows per account; None when its query fails
    | Notice                                                // catch-up notices, debug lag: nothing to deliver

  datatype Emission = Durable(id: Id) | Ambient | ResyncRequired(dropped: nat)

  /** An id put into the cursor, and whether its event was written out. */
  datatype Recorded = Recorded(id: Id, emitted: bool)

  datatype Stream = Stream(order: seq<Id>, log: seq<Recorded>, output: seq<Emission>)

  // ----- one step -----

  function ReplayRows(cap: nat, order: seq<Id>, rows: seq<Row>): (seq<Id>, seq<Id>) {
    if rows == [] then (order, []) else
      var (o, ids) := ReplayRows(cap, order, rows[..|rows| - 1]);
      var row := rows[|rows| - 1];
      if row.id in o || !row.relevant then (o, ids) else (Remember(cap, o, row.id), ids + [row.id])
  }

  /** The cursor, the ids recorded, and whether every account could be read;
      reading stops at the first account that cannot. */
  function ReplayAccounts(cap: nat, order: seq<Id>, accounts: seq<Option<seq<Row>>>): (seq<Id>, seq<Id>, bool) {
    if accounts == [] then (order, [], true) else
      var (o, ids, ok) := ReplayAccounts(cap, order, accounts[..|accounts| - 1]);
      var account := accounts[|accounts| - 1];
      if !ok || account.None? then (o, ids, false)
      else
        var (o', more) := ReplayRows(cap, o, account.value);
        (o', ids + more, true)
  }

  function Entries(ids: seq<Id>, emitted: bool): seq<Recorded> {
    seq(|ids|, i requires 0 <= i < |ids| => Recorded(ids[i], emitted))
  }

  function Durables(ids: seq<Id>): seq<Emission> {
    seq(|ids|, i requires 0 <= i < |ids| => Durable(ids[i]))
  }

  function Step(cap: nat, s: Stream, e: Event): Stream {
    match e
    case Live(relevant, dedupId) =>
      if !relevant then s
      else if dedupId.None? then s.(output := s.output + [Ambient])
      else if dedupId.value in s.order then s
      else Stream(Remember(cap, s.order, dedupId.value), s.log + [Recorded(dedupId.value, true)],
                  s.output + [Durable(dedupId.value)])
    case Lagged(dropped, accounts) =>
      if dropped > cap then s.(output := s.output + [ResyncRequired(dropped)])
      else
        var (o, ids, ok) := ReplayAccounts(cap, s.order, accounts);
        Stream(o, s.log + Entries(ids, ok), s.output + (if ok then Durables(ids) else [ResyncRequired(dropped)]))
    case Notice => s
  }

  function Run(cap: nat, events: seq<Event>): Stream {
    if events == [] then Stream([], [], []) else Step(cap, Run(cap, events[..|events| - 1]), events[|events| - 1])
  }

  // ----- the loop as it runs -----

  method ReplayAccount(cursor: DeliveredInboundCursor<Id>, rows: seq<Row>) returns (missed: seq<Id>)
    requires cursor.Valid()
    modifies cursor
    ensures cursor.Valid() && ReplayRows(cursor.capacity, old(cursor.order), rows) == (cursor.order, missed)
  {
    missed := [];
    for j := 0 to |rows|
      invariant cursor.Valid()
      invariant ReplayRows(cursor.capacity, old(cursor.order), rows[..j]) == (cursor.order, missed)
    {
      assert rows[..j + 1][..j] == rows[..j];
      if cursor.Contains(rows[j].id) { continue; }
      if !rows[j].relevant { continue; }
      cursor.Record(rows[j].id);
      missed := missed + [rows[j].id];
    }
    assert rows[..|rows|] == rows;
  }

  method ReplayMissedInbound(cursor: DeliveredInboundCursor<Id>, accounts: seq<Option<seq<Row>>>)
    returns (missed: Option<seq<Id>>)
    requires cursor.Valid()
    modifies cursor
    ensures cursor.Valid()
    ensures var (o, ids, ok) := ReplayAccounts(cursor.capacity, old(cursor.order), accounts);
            cursor.order == o && missed == if ok then Some(ids) else None
  {
    var events: seq<Id> := [];
    for i := 0 to |accounts|
      invariant cursor.Valid()
      invariant ReplayAccounts(cursor.capacity, old(cursor.order), accounts[..i]) == (cursor.order, events, true)
    {
      assert accounts[..i + 1][..i] == accounts[..i];
      if accounts[i].None? {
        StopsAtFailure(cursor.capacity, old(cursor.order), accounts, i);
        return None;
      }
      var more := ReplayAccount(cursor, accounts[i].value);
      events := events + more;
    }
    assert accounts[..|accounts|] == accounts;
    return Some(events);
  }

  lemma {:induction false} StopsAtFailure(cap: nat, order: seq<Id>, accounts: seq<Option<seq<Row>>>, i: nat)
    requires i < |accounts| && accounts[i].None?
    ensures var (o, ids, _) := ReplayAccounts(cap, order, accounts[..i + 1]);
            ReplayAccounts(cap, order, accounts) == (o, ids, false)
    decreases |accounts|
  {
    if i + 1 < |accounts| {
      var pre := accounts[..|accounts| - 1];
      assert pre[..i + 1] == accounts[..i + 1];
      StopsAtFailure(cap, order, pre, i);
    } else {
      assert accounts[..i + 1] == accounts;
    }
  }

  method StreamInboundEvents(cap: nat, events: seq<Event>) returns (output: seq<Emission>)
    requires cap > 0
    ensures output == Run(cap, events).output
  {
    output := [];
    var delivered := new DeliveredInboundCursor<Id>(cap);
    for i := 0 to |events|
      invariant delivered.Valid() && delivered.capacity == cap
      invariant delivered.order == Run(cap, events[..i]).order && output == Run(cap, events[..i]).output
    {
      assert events[..i + 1][..i] == events[..i];
      match events[i]
      case Live(relevant, dedupId) =>
        if relevant {
          if dedupId.Some? {
            if !delivered.Contains(dedupId.value) {
              delivered.Record(dedupId.value);
              output := output + [Durable(dedupId.value)];
            }
          } else {
            output := output + [Ambient];
          }
        }
      case Lagged(dropped, accounts) =>
        if dropped > cap {
          output := output + [ResyncRequired(dropped)];
        } else {
          var missed := ReplayMissedInbound(delivered, accounts);
          output := output + (if missed.Some? then Durables(missed.value) else [ResyncRequired(dropped)]);
        }
      case Notice =>
    }
    assert events[..|events|] == events;
  }

  // ----- what is delivered -----

  function IdsOf(log: seq<Recorded>): seq<Id> {
    seq(|log|, i requires 0 <= i < |log| => log[i].id)
  }

  function EmittedIds(log: seq<Recorded>): seq<Id> {
    if log == [] then [] else
      EmittedIds(log[..|log| - 1]) + (if log[|log| - 1].emitted then [log[|log| - 1].id] else [])
  }

  function DurableIds(output: seq<Emission>): seq<Id> {
    if output == [] then [] else
      DurableIds(output[..|output| - 1]) + (if output[|output| - 1].Durable? then [output[|output| - 1].id] else [])
  }

  /** Equal ids stand more than `cap` places apart. */
  ghost predicate Spaced(ids: seq<Id>, cap: nat) {
    forall i, j :: 0 <= i < j < |ids| && ids[i] == ids[j] ==> j - i > cap
  }

  /** The cursor holds the last `cap` recorded ids, which are spaced. */
  ghost predicate Tracks(cap: nat, order: seq<Id>, ids: seq<Id>) {
    order == TakeLast(ids, cap) && Spaced(ids, cap)
  }

  lemma RecordTracks(cap: nat, order: seq<Id>, ids: seq<Id>, x: Id)
    requires Tracks(cap, order, ids) && x !in order
    ensures Tracks(cap, Remember(cap, order, x), ids + [x])
  {
    TakeLastStep(ids, x, cap);
    assert forall a :: |ids| - |order| <= a < |ids| ==> ids[a] == order[a - (|ids| - |order|)];
  }

  lemma {:induction false} RowsTrack(cap: nat, order: seq<Id>, ids: seq<Id>, rows: seq<Row>)
    requires Tracks(cap, order, ids)
    ensures var (o, more) := ReplayRows(cap, order, rows); Tracks(cap, o, ids + more)
  {
    if rows == [] {
      assert ids + [] == ids;
    } else {
      RowsTrack(cap, order, ids, rows[..|rows| - 1]);
      var (o, more) := ReplayRows(cap, order, rows[..|rows| - 1]);
      var x := rows[|rows| - 1].id;
      if x !in o {
        RecordTracks(cap, o, ids + more, x);
        assert ids + more + [x] == ids + (more + [x]);
      }
    }
  }

  lemma {:induction false} AccountsTrack(cap: nat, order: seq<Id>, ids: seq<Id>, accounts: seq<Option<seq<Row>>>)
    requires Tracks(cap, order, ids)
    ensures var (o, more, _) := ReplayAccounts(cap, order, accounts); Tracks(cap, o, ids + more)
  {
    if accounts == [] {
      assert ids + [] == ids;
    } else {
      var n := |accounts| - 1;
      AccountsTrack(cap, order, ids, accounts[..n]);
      var (o, more, ok) := ReplayAccounts(cap, order, accounts[..n]);
      if ok && accounts[n].Some? {
        RowsTrack(cap, o, ids + more, accounts[n].value);
        var (_, last) := ReplayRows(cap, o, accounts[n].value);
        assert ids + more + last == ids + (more + last);
      }
    }
  }

  lemma {:induction false} RunTracks(cap: nat, events: seq<Event>)
    ensures Tracks(cap, Run(cap, events).order, IdsOf(Run(cap, events).log))
  {
    if events != [] {
      var n := |events| - 1;
      RunTracks(cap, events[..n]);
      var s := Run(cap, events[..n]);
      match events[n]
      case Live(relevant, dedupId) =>
        if relevant && dedupId.Some? && dedupId.value !in s.order {
          RecordTracks(cap, s.order, IdsOf(s.log), dedupId.value);
          assert IdsOf(s.log + [Recorded(dedupId.value, true)]) == IdsOf(s.log) + [dedupId.value];
        }
      case Lagged(dropped, accounts) =>
        if dropped <= cap {
          AccountsTrack(cap, s.order, IdsOf(s.log), accounts);
          var (_, ids, ok) := ReplayAccounts(cap, s.order, accounts);
          assert IdsOf(s.log + Entries(ids, ok)) == IdsOf(s.log) + ids;
        }
      case Notice =>
    }
  }

  lemma {:induction false} DistinctWindow(ids: seq<Id>)
    requires NoRepeats(ids)
    ensures |Members(ids)| == |ids|
  {
    if ids != [] {
      var n := |ids| - 1;
      DistinctWindow(ids[..n]);
      assert ids == ids[..n] + [ids[n]];
      assert Members(ids) == Members(ids[..n]) + {ids[n]};
    }
  }

  /** Between two records of an id, at least `cap` other, pairwise distinct ids
      were recorded. */
  lemma RepeatNeedsFullWindow(cap: nat, events: seq<Event>, i: nat, j: nat)
    requires i < j < |Run(cap, events).log|
    requires Run(cap, events).log[i].id == Run(cap, events).log[j].id
    ensures var ids := IdsOf(Run(cap, events).log);
            |Members(ids[i + 1..j]) - {ids[j]}| >= cap
  {
    RunTracks(cap, events);
    var ids := IdsOf(Run(cap, events).log);
    assert ids[i] == ids[j] && j - i > cap;
    var window := ids[j - cap..j];
    forall a, b | 0 <= a < b < |window| ensures window[a] != window[b] {
      assert window[a] == ids[j - cap + a] && window[b] == ids[j - cap + b];
    }
    DistinctWindow(window);
    forall x | x in Members(window) ensures x in Members(ids[i + 1..j]) - {ids[j]} {
      var a :| 0 <= a < |window| && window[a] == x;
      assert ids[i + 1..j][j - cap + a - (i + 1)] == x;
    }
    SubsetSize(Members(window), Members(ids[i + 1..j]) - {ids[j]});
  }

  // ----- what is written out -----

  lemma {:induction false} EmittedConcat(a: seq<Recorded>, b: seq<Recorded>)
    ensures EmittedIds(a + b) == EmittedIds(a) + EmittedIds(b)
  {
    if b == [] {
      assert a + b == a;
    } else {
      assert (a + b)[..|a + b| - 1] == a + b[..|b| - 1];
      EmittedConcat(a, b[..|b| - 1]);
    }
  }

  lemma {:induction false} EmittedEntries(ids: seq<Id>, emitted: bool)
    ensures EmittedIds(Entries(ids, emitted)) == if emitted then ids else []
  {
    if ids != [] {
      var n := |ids| - 1;
      EmittedEntries(ids[..n], emitted);
      assert Entries(ids, emitted)[..n] == Entries(ids[..n], emitted);
    }
  }

  lemma {:induction false} DurableConcat(a: seq<Emission>, b: seq<Emission>)
    ensures DurableIds(a + b) == DurableIds(a) + DurableIds(b)
  {
    if b == [] {
      assert a + b == a;
    } else {
      assert (a + b)[..|a + b| - 1] == a + b[..|b| - 1];
      DurableConcat(a, b[..|b| - 1]);
    }
  }

  lemma {:induction false} DurableEntries(ids: seq<Id>)
    ensures DurableIds(Durables(ids)) == ids
  {
    if ids != [] {
      var n := |ids| - 1;
      DurableEntries(ids[..n]);
      assert Durables(ids)[..n] == Durables(ids[..n]);
    }
  }

  lemma LiveOutput(s: Stream, x: Id)
    requires DurableIds(s.output) == EmittedIds(s.log)
    ensures DurableIds(s.output + [Durable(x)]) == EmittedIds(s.log + [Recorded(x, true)])
    ensures DurableIds(s.output + [Ambient]) == EmittedIds(s.log)
  {
    assert (s.output + [Durable(x)])[..|s.output|] == s.output;
    assert (s.output + [Ambient])[..|s.output|] == s.output;
    assert (s.log + [Recorded(x, true)])[..|s.log|] == s.log;
  }

  lemma ReplayOutput(s: Stream, ids: seq<Id>, ok: bool, dropped: nat)
    requires DurableIds(s.output) == EmittedIds(s.log)
    ensures DurableIds(s.output + (if ok then Durables(ids) else [ResyncRequired(dropped)]))
            == EmittedIds(s.log + Entries(ids, ok))
    ensures DurableIds(s.output + [ResyncRequired(dropped)]) == EmittedIds(s.log)
  {
    EmittedConcat(s.log, Entries(ids, ok));
    EmittedEntries(ids, ok);
    DurableConcat(s.output, Durables(ids));
    DurableEntries(ids);
    assert (s.output + [ResyncRequired(dropped)])[..|s.output|] == s.output;
  }

  lemma StepOutput(cap: nat, s: Stream, e: Event)
    requires DurableIds(s.output) == EmittedIds(s.log)
    ensures DurableIds(Step(cap, s, e).output) == EmittedIds(Step(cap, s, e).log)
  {
    match e
    case Live(relevant, dedupId) => LiveOutput(s, if dedupId.Some? then dedupId.value else []);
    case Lagged(dropped, accounts) =>
      var (_, ids, ok) := ReplayAccounts(cap, s.order, accounts);
      ReplayOutput(s, ids, ok, dropped);
    case Notice =>
  }

  /** The durable events written out are, in order, the records marked so. */
  lemma {:induction false} OutputIsEmitted(cap: nat, events: seq<Event>)
    ensures DurableIds(Run(cap, events).output) == EmittedIds(Run(cap, events).log)
  {
    if events != [] {
      var n := |events| - 1;
      OutputIsEmitted(cap, events[..n]);
      StepOutput(cap, Run(cap, events[..n]), events[n]);
    }
  }

  // ----- two emissions of one id -----

  lemma {:induction false} DurableAt(output: seq<Emission>, a: nat)
    requires a < |output| && output[a].Durable?
    ensures var p := |DurableIds(output[..a])|; p < |DurableIds(output)| && DurableIds(output)[p] == output[a].id
  {
    var n := |output| - 1;
    if a < n {
      assert output[..n][..a] == output[..a];
      DurableAt(output[..n], a);
    }
  }

  lemma {:induction false} DurablesGrow(output: seq<Emission>, a: nat)
    requires a <= |output|
    ensures |DurableIds(output[..a])| <= |DurableIds(output)|
  {
    if a < |output| {
      assert output[..|output| - 1][..a] == output[..a];
      DurablesGrow(output[..|output| - 1], a);
    } else {
      assert output[..a] == output;
    }
  }

  lemma DurablesBefore(output: seq<Emission>, a: nat, b: nat)
    requires a < b < |output| && output[a].Durable?
    ensures |DurableIds(output[..a])| < |DurableIds(output[..b])|
  {
    DurableAt(output[..b], a);
    assert output[..b][..a] == output[..a];
  }

  /** The record behind an emitted id. */
  lemma {:induction false} EmittedAt(log: seq<Recorded>, p: nat) returns (i: nat)
    requires p < |EmittedIds(log)|
    ensures i < |log| && log[i] == Recorded(EmittedIds(log)[p], true) && |EmittedIds(log[..i])| == p
  {
    var n := |log| - 1;
    if p < |EmittedIds(log[..n])| {
      i := EmittedAt(log[..n], p);
      assert log[..n][..i] == log[..i];
    } else {
      i := n;
    }
  }

  lemma {:induction false} EmittedGrow(log: seq<Recorded>, i: nat, j: nat)
    requires i <= j <= |log|
    ensures |EmittedIds(log[..i])| <= |EmittedIds(log[..j])|
  {
    if i < j {
      EmittedGrow(log, i, j - 1);
      assert log[..j][..j - 1] == log[..j - 1];
    }
  }

  /** Between two deliveries of one durable id, at least `cap` other, pairwise
      distinct ids were recorded. */
  lemma DeliveredTwiceNeedsFullWindow(cap: nat, events: seq<Event>, a: nat, b: nat) returns (i: nat, j: nat)
    requires a < b < |Run(cap, events).output|
    requires Run(cap, events).output[a].Durable? && Run(cap, events).output[a] == Run(cap, events).output[b]
    ensures var log, x := Run(cap, events).log, Run(cap, events).output[a].id;
            && i < j < |log| && log[i] == log[j] == Recorded(x, true)
            && |EmittedIds(log[..i])| == |DurableIds(Run(cap, events).output[..a])|
            && |EmittedIds(log[..j])| == |DurableIds(Run(cap, events).output[..b])|
            && |Members(IdsOf(log)[i + 1..j]) - {x}| >= cap
  {
    var s := Run(cap, events);
    OutputIsEmitted(cap, events);
    DurableAt(s.output, a);
    DurableAt(s.output, b);
    DurablesBefore(s.output, a, b);
    i := EmittedAt(s.log, |DurableIds(s.output[..a])|);
    j := EmittedAt(s.log, |DurableIds(s.output[..b])|);
    if j <= i { EmittedGrow(s.log, j, i); }
    RepeatNeedsFullWindow(cap, events, i, j);
  }

  // ----- records that are not written out -----

  lemma {:induction false} FailureIsAnAccount(cap: nat, order: seq<Id>, accounts: seq<Option<seq<Row>>>)
    ensures ReplayAccounts(cap, order, accounts).2 <==> forall a :: 0 <= a < |accounts| ==> accounts[a].Some?
  {
    if accounts != [] {
      var n := |accounts| - 1;
      FailureIsAnAccount(cap, order, accounts[..n]);
      assert accounts == accounts[..n] + [accounts[n]];
    }
  }

  /** A stored row that this subscription has not recorded yet. */
  predicate Fresh(order: seq<Id>, row: Row) {
    row.relevant && row.id !in order
  }

  ghost predicate FreshRow(order: seq<Id>, rows: seq<Row>) {
    exists j :: 0 <= j < |rows| && Fresh(order, rows[j])
  }

  ghost predicate AllReadable(accounts: seq<Option<seq<Row>>>) {
    forall a :: 0 <= a < |accounts| ==> accounts[a].Some?
  }

  /** A fresh row in an account that is read before any that cannot be. */
  ghost predicate FreshBeforeFailure(order: seq<Id>, accounts: seq<Option<seq<Row>>>) {
    exists a :: 0 <= a < |accounts| && AllReadable(accounts[..a + 1]) && FreshRow(order, accounts[a].value)
  }

  lemma {:induction false} RowsRecordIff(cap: nat, order: seq<Id>, rows: seq<Row>)
    ensures ReplayRows(cap, order, rows).1 != [] <==> FreshRow(order, rows)
    ensures ReplayRows(cap, order, rows).1 == [] ==> ReplayRows(cap, order, rows).0 == order
  {
    if rows != [] {
      var n := |rows| - 1;
      RowsRecordIff(cap, order, rows[..n]);
      if j :| 0 <= j < n && Fresh(order, rows[..n][j]) { assert Fresh(order, rows[j]); }
      if j :| 0 <= j < |rows| && Fresh(order, rows[j]) {
        if j < n { assert Fresh(order, rows[..n][j]); }
      }
    }
  }

  lemma FreshStep(order: seq<Id>, accounts: seq<Option<seq<Row>>>)
    requires accounts != []
    ensures var n := |accounts| - 1;
            FreshBeforeFailure(order, accounts) <==>
            FreshBeforeFailure(order, accounts[..n]) || (AllReadable(accounts) && FreshRow(order, accounts[n].value))
  {
    var n := |accounts| - 1;
    var pre := accounts[..n];
    if a :| 0 <= a < n && AllReadable(pre[..a + 1]) && FreshRow(order, pre[a].value) {
      assert pre[..a + 1] == accounts[..a + 1];
    }
    if a :| 0 <= a < |accounts| && AllReadable(accounts[..a + 1]) && FreshRow(order, accounts[a].value) {
      if a < n { assert pre[..a + 1] == accounts[..a + 1] && pre[a] == accounts[a]; }
    }
    assert accounts[..n + 1] == accounts;
  }

  lemma {:induction false} ReplayRecordsIff(cap: nat, order: seq<Id>, accounts: seq<Option<seq<Row>>>)
    ensures var (o, ids, ok) := ReplayAccounts(cap, order, accounts);
            && (ids != [] <==> FreshBeforeFailure(order, accounts))
            && (ids == [] ==> o == order)
  {
    FailureIsAnAccount(cap, order, accounts);
    if accounts != [] {
      var n := |accounts| - 1;
      ReplayRecordsIff(cap, order, accounts[..n]);
      FreshStep(order, accounts);
      var (o, ids, ok) := ReplayAccounts(cap, order, accounts[..n]);
      if ok && accounts[n].Some? { RowsRecordIff(cap, o, accounts[n].value); }
    }
  }

  ghost predicate LeavesSilentRecord(cap: nat, s: Stream, e: Event) {
    exists k :: |s.log| <= k < |Step(cap, s, e).log| && !Step(cap, s, e).log[k].emitted
  }

  /** A step records an id without writing its event out exactly when it is a
      replay within the window that meets a fresh row and later an account it
      cannot read; it then asks the subscriber to resynchronize. */
  lemma SilentRecordIff(cap: nat, s: Stream, e: Event)
    ensures LeavesSilentRecord(cap, s, e) <==>
            e.Lagged? && e.dropped <= cap && !AllReadable(e.accounts) && FreshBeforeFailure(s.order, e.accounts)
    ensures LeavesSilentRecord(cap, s, e) ==> Step(cap, s, e).output == s.output + [ResyncRequired(e.dropped)]
  {
    if e.Lagged? && e.dropped <= cap {
      var (o, ids, ok) := ReplayAccounts(cap, s.order, e.accounts);
      FailureIsAnAccount(cap, s.order, e.accounts);
      ReplayRecordsIff(cap, s.order, e.accounts);
      var log := Step(cap, s, e).log;
      assert log == s.log + Entries(ids, ok);
      if ids != [] { assert log[|s.log|] == Recorded(ids[0], ok); }
    }
  }

  lemma IdsOfWindow(log: seq<Recorded>, cap: nat)
    ensures TakeLast(IdsOf(log), cap) == IdsOf(TakeLast(log, cap))
  {
  }

  /** On every run, a relevant live event is suppressed although its id was not
      written out within the window exactly when the window holds a silent
      record of that id. */
  lemma SuppressedUnseenIff(cap: nat, events: seq<Event>, x: Id)
    ensures var s := Run(cap, events);
            var window := TakeLast(s.log, cap);
            (Step(cap, s, Live(true, Some(x))) == s && Recorded(x, true) !in window) <==> Recorded(x, false) in window
  {
    RunTracks(cap, events);
    var s := Run(cap, events);
    var window := TakeLast(s.log, cap);
    IdsOfWindow(s.log, cap);
    assert s.order == IdsOf(window);
    HeldIffRecorded(window, x);
    OneRecordEach(cap, s.log, x);
    var next := Step(cap, s, Live(true, Some(x)));
    assert next == s <==> x in s.order by {
      if x !in s.order { assert |next.log| == |s.log| + 1; }
    }
  }

  lemma HeldIffRecorded(window: seq<Recorded>, x: Id)
    ensures x in IdsOf(window) <==> Recorded(x, true) in window || Recorded(x, false) in window
  {
    if x in IdsOf(window) {
      var k :| 0 <= k < |window| && IdsOf(window)[k] == x;
      assert window[k] == Recorded(x, window[k].emitted);
    }
    if r :| r in window && r.id == x {
      var k :| 0 <= k < |window| && window[k] == r;
      assert IdsOf(window)[k] == x;
    }
  }

  lemma OneRecordEach(cap: nat, log: seq<Recorded>, x: Id)
    requires Spaced(IdsOf(log), cap)
    ensures !(Recorded(x, true) in TakeLast(log, cap) && Recorded(x, false) in TakeLast(log, cap))
  {
    var window := TakeLast(log, cap);
    var d := |log| - |window|;
    forall i, j | 0 <= i < |window| && 0 <= j < |window| && window[i].id == window[j].id ensures i == j {
      assert IdsOf(log)[d + i] == IdsOf(log)[d + j];
    }
  }

  /** An instance: the second account cannot be read, the first one's row is
      recorded, and its live event never comes out. */
  lemma PartialReplaySuppresses(cap: nat, x: Id)
    requires cap > 0
    ensures var lag := Lagged(0, [Some([Row(x, true)]), None]);
            var s := Run(cap, [lag, Live(true, Some(x))]);
            s.log == [Recorded(x, false)] && s.output == [ResyncRequired(0)]
  {
    var lag := Lagged(0, [Some([Row(x, true)]), None]);
    var accounts: seq<Option<seq<Row>>> := [Some([Row(x, true)]), None];
    assert accounts[..1] == [Some([Row(x, true)])] && accounts[..1][..0] == [];
    assert [Row(x, true)][..0] == [];
    assert ReplayRows(cap, [], []) == ([], []);
    assert ReplayRows(cap, [], [Row(x, true)]) == (Remember(cap, [], x), [] + [x]);
    assert Remember(cap, [], x) == [x];
    assert ReplayAccounts(cap, [], []) == ([], [], true);
    assert ReplayAccounts(cap, [], accounts[..1]) == ([x], [] + [x], true);
    assert ReplayAccounts(cap, [], accounts) == ([x], [x], false);
    var events := [lag, Live(true, Some(x))];
    assert events[..1] == [lag] && [lag][..0] == [];
    assert Run(cap, []) == Stream([], [], []);
    assert Run(cap, [lag]) == Stream([x], [] + Entries([x], false), [] + [ResyncRequired(0)]);
  }
}
