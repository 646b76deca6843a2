/** One live-preview compose session: what each command, connect outcome,
    finish and cancel does to the report, the transcript, the pending buffer
    and what the broker receives. The broker's answers are inputs. */
module ComposeSession {
  import opened Orders
  import opened TextChunks

  const MAX_PENDING_RECORDS: nat := 256
  const MAX_PENDING_BYTES: nat := 1024 * 1024
  const MAX_FRAME_LEN: nat := 65519

  datatype RecordType = TextDelta | StatusRecord | ProgressDelta

  datatype Record = Record(kind: RecordType, text: string)

  /** A chunk as the transcript hashes it; the hash is modelled by this list. */
  datatype Entry = Entry(seqNo: nat, kind: RecordType, chunk: string)

  datatype LiveError = RecordCapExceeded | ByteCapExceeded | ConnectFailed | WriteFailed | FinishFailed

  datatype Report = Report(
    status: string,
    text: string,
    transcriptHash: Option<seq<Entry>>,
    chunkCount: nat,
    error: Option<LiveError>)

  /** What the broker acknowledged. */
  datatype WireEvent = Sent(record: Record) | Aborted | Closed

  datatype Session = Session(
    chunkBytes: nat,
    report: Report,
    transcript: seq<Entry>,
    nextSeq: nat,
    pending: seq<Record>,
    pendingBytes: nat,
    publisher: bool,
    connecting: bool,
    liveError: Option<LiveError>,
    wire: seq<WireEvent>,
    ended: bool)

  datatype Command = AppendText(text: string) | SetStatus(status: string) | Progress(text: string)

  datatype Event =
    | Handle(command: Command, ack: bool)          // `ack`: the broker took the record in time
    | ConnectDone(ok: bool, acks: seq<bool>)       // `acks`: its answers while the buffer is flushed
    | Finish(acks: seq<bool>, finishAck: bool)
    | Cancel(lateConnect: bool, abortAck: bool, finishAck: bool)
    | Hangup                                       // the command channel closed

  function EffectiveChunkBytes(requested: nat, cap: nat): nat {
    if requested == 0 || requested > MAX_FRAME_LEN then requested else if requested <= cap then requested else cap
  }

  predicate ValidChunkBytes(n: nat) {
    0 < n <= MAX_FRAME_LEN
  }

  function Open(chunkBytes: nat, status: string): Session {
    Session(chunkBytes, Report(status, "", None, 0, None), [], 1, [], 0, false, true, None, [], false)
  }

  function RecordOf(c: Command): Record {
    match c
    case AppendText(t) => Record(TextDelta, t)
    case SetStatus(t) => Record(StatusRecord, t)
    case Progress(t) => Record(ProgressDelta, t)
  }

  // ----- the transcript -----

  function Number(chunks: seq<string>, kind: RecordType, from: nat): seq<Entry> {
    if chunks == [] then [] else
      Number(chunks[..|chunks| - 1], kind, from) + [Entry(from + |chunks| - 1, kind, chunks[|chunks| - 1])]
  }

  function Transcribe(s: Session, r: Record): Session {
    var chunks := Chunks(r.text, s.chunkBytes);
    s.(transcript := s.transcript + Number(chunks, r.kind, s.nextSeq), nextSeq := s.nextSeq + |chunks|)
  }

  function Reported(s: Session): Session {
    s.(report := s.report.(chunkCount := |s.transcript|, transcriptHash := Some(s.transcript)))
  }

  function ErrorShown(s: Session): Session {
    if s.liveError.Some? then s.(report := s.report.(error := s.liveError)) else s
  }

  // ----- the live side -----

  function Fail(s: Session, e: LiveError): Session {
    s.(liveError := Some(e), publisher := false, pending := [], pendingBytes := 0)
  }

  function PushBounded(s: Session, r: Record): Session {
    if |s.pending| >= MAX_PENDING_RECORDS then Fail(s, RecordCapExceeded)
    else if s.pendingBytes + ByteLen(r.text) > MAX_PENDING_BYTES then Fail(s, ByteCapExceeded)
    else s.(pending := s.pending + [r], pendingBytes := s.pendingBytes + ByteLen(r.text))
  }

  function AppendLive(s: Session, r: Record, ack: bool): Session {
    if s.liveError.Some? then s
    else if s.publisher then
      if ack then s.(wire := s.wire + [Sent(r)]) else Fail(s, WriteFailed)
    else PushBounded(s, r)
  }

  function PopFront(s: Session): Session
    requires s.pending != []
  {
    var n := ByteLen(s.pending[0].text);
    s.(pending := s.pending[1..], pendingBytes := if s.pendingBytes >= n then s.pendingBytes - n else 0)
  }

  function SendFront(s: Session): Session
    requires s.pending != []
  {
    PopFront(s).(wire := s.wire + [Sent(s.pending[0])])
  }

  /** Pop and send until the buffer is empty or the broker fails to answer. */
  function Flush(s: Session, acks: seq<bool>): Session
    decreases |s.pending|
  {
    if s.pending == [] then s
    else if acks != [] && acks[0] then Flush(SendFront(s), acks[1..])
    else Fail(PopFront(s), WriteFailed)
  }

  // ----- one turn of the loop -----

  function Noted(s: Session, c: Command): Session {
    if c.SetStatus? then s.(report := s.report.(status := c.status)) else s
  }

  /** The local half of a command: transcript and report. */
  function Written(s: Session, c: Command): Session {
    var t := Transcribe(Noted(s, c), RecordOf(c));
    Reported(if c.AppendText? then t.(report := t.report.(text := t.report.text + c.text)) else t)
  }

  function OnCommand(s: Session, c: Command, ack: bool): Session {
    if !ValidChunkBytes(s.chunkBytes) then Noted(s, c)
    else ErrorShown(AppendLive(Written(s, c), RecordOf(c), ack))
  }

  function OnConnect(s: Session, ok: bool, acks: seq<bool>): Session {
    var done := s.(connecting := false);
    if !ok then Fail(done, ConnectFailed)
    else if s.liveError.Some? then done.(pending := [], pendingBytes := 0)
    else
      var flushed := Flush(done, acks);
      if flushed.liveError.Some? then flushed else flushed.(publisher := true)
  }

  /** Finishes a live publisher. */
  function ClosedLive(s: Session, finishAck: bool): Session {
    if s.liveError.None? && s.publisher then
      if finishAck then s.(publisher := false, wire := s.wire + [Closed])
      else s.(publisher := false, liveError := Some(FinishFailed))
    else s
  }

  function FinalReport(s: Session): Session {
    ErrorShown(Reported(s.(report := s.report.(status := "finished"))))
  }

  function OnFinish(s: Session, acks: seq<bool>, finishAck: bool): Session {
    var stopped := s.(connecting := false, ended := true);
    var flushed := if s.liveError.None? && s.publisher then Flush(stopped, acks) else stopped;
    FinalReport(ClosedLive(flushed, finishAck))
  }

  function OnCancel(s: Session, lateConnect: bool, abortAck: bool, finishAck: bool): Session {
    var stopped := s.(connecting := false, ended := true);
    var reached :=
      if !s.publisher && s.liveError.None? && s.connecting then
        if lateConnect then stopped.(publisher := true) else stopped.(liveError := Some(ConnectFailed))
      else stopped;
    if reached.liveError.None? && reached.publisher then
      var taken := reached.(publisher := false);
      if !abortAck then taken
      else taken.(wire := taken.wire + [Aborted] + (if finishAck then [Closed] else []))
    else reached
  }

  function Step(s: Session, e: Event): Session {
    if s.ended then s else
    match e
    case Handle(c, ack) => OnCommand(s, c, ack)
    case ConnectDone(ok, acks) => if s.connecting then OnConnect(s, ok, acks) else s
    case Finish(acks, finishAck) => OnFinish(s, acks, finishAck)
    case Cancel(lateConnect, abortAck, finishAck) => OnCancel(s, lateConnect, abortAck, finishAck)
    case Hangup => s.(connecting := false, ended := true)
  }

  function Run(s: Session, events: seq<Event>): Session {
    if events == [] then s else Step(Run(s, events[..|events| - 1]), events[|events| - 1])
  }

  // ----- what a run accepted -----

  predicate Ends(e: Event) {
    e.Finish? || e.Cancel? || e.Hangup?
  }

  /** The commands handled before the session ended. */
  function Handled(events: seq<Event>): seq<Command> {
    if events == [] then [] else
      var n := |events| - 1;
      if events[n].Handle? && (forall i :: 0 <= i < n ==> !Ends(events[i])) then
        Handled(events[..n]) + [events[n].command]
      else Handled(events[..n])
  }

  function Records(cs: seq<Command>): seq<Record> {
    if cs == [] then [] else Records(cs[..|cs| - 1]) + [RecordOf(cs[|cs| - 1])]
  }

  function History(chunkBytes: nat, events: seq<Event>): seq<Record> {
    if ValidChunkBytes(chunkBytes) then Records(Handled(events)) else []
  }

  function SentRecords(wire: seq<WireEvent>): seq<Record> {
    if wire == [] then [] else
      SentRecords(wire[..|wire| - 1]) + (if wire[|wire| - 1].Sent? then [wire[|wire| - 1].record] else [])
  }

  function TotalBytes(rs: seq<Record>): nat {
    if rs == [] then 0 else ByteLen(rs[0].text) + TotalBytes(rs[1..])
  }

  /** The transcript that a record history has, numbered from one. */
  function TranscriptOf(rs: seq<Record>, chunkBytes: nat): seq<Entry> {
    if rs == [] then [] else
      var n := |rs| - 1;
      var before := TranscriptOf(rs[..n], chunkBytes);
      before + Number(Chunks(rs[n].text, chunkBytes), rs[n].kind, |before| + 1)
  }

  function TextOf(rs: seq<Record>): string {
    if rs == [] then [] else TextOf(rs[..|rs| - 1]) + (if rs[|rs| - 1].kind.TextDelta? then rs[|rs| - 1].text else [])
  }

  // ----- the live side keeps faith with the history -----

  /** While a session runs: caps and byte count; a publisher has nothing
      pending; an error leaves neither; without an error the broker's records
      followed by the pending ones are the history. */
  ghost predicate LiveInv(s: Session, h: seq<Record>) {
    && |s.pending| <= MAX_PENDING_RECORDS
    && s.pendingBytes == TotalBytes(s.pending) <= MAX_PENDING_BYTES
    && (s.publisher ==> s.pending == [] && s.liveError.None? && !s.connecting)
    && (s.liveError.Some? ==> s.pending == [] && !s.publisher)
    && (s.liveError.None? ==> SentRecords(s.wire) + s.pending == h)
    && SentRecords(s.wire) <= h
    && (forall i :: 0 <= i < |s.wire| ==> s.wire[i].Sent?)
  }

  lemma {:induction false} TotalBytesAppend(rs: seq<Record>, r: Record)
    ensures TotalBytes(rs + [r]) == TotalBytes(rs) + ByteLen(r.text)
  {
    if rs != [] {
      assert (rs + [r])[1..] == rs[1..] + [r];
      TotalBytesAppend(rs[1..], r);
    } else {
      assert rs + [r] == [r] && [r][1..] == [];
    }
  }

  lemma SentAppend(wire: seq<WireEvent>, e: WireEvent)
    ensures SentRecords(wire + [e]) == SentRecords(wire) + (if e.Sent? then [e.record] else [])
  {
    assert (wire + [e])[..|wire|] == wire;
  }

  lemma AppendLiveKeeps(s: Session, h: seq<Record>, r: Record, ack: bool)
    requires LiveInv(s, h)
    ensures LiveInv(AppendLive(s, r, ack), h + [r])
  {
    SentAppend(s.wire, Sent(r));
    TotalBytesAppend(s.pending, r);
    if s.liveError.None? && !s.publisher {
      assert SentRecords(s.wire) + (s.pending + [r]) == h + [r];
    }
  }

  lemma SendFrontKeeps(s: Session, h: seq<Record>)
    requires LiveInv(s, h) && s.liveError.None? && !s.publisher && s.pending != []
    ensures LiveInv(SendFront(s), h)
  {
    var r, next := s.pending[0], SendFront(s);
    assert s.pending == [r] + s.pending[1..];
    SentAppend(s.wire, Sent(r));
    assert SentRecords(next.wire) + next.pending == SentRecords(s.wire) + s.pending;
  }

  /** Flushing hands the buffer over in order, or latches an error having
      handed over a prefix of it. */
  lemma {:induction false} FlushDelivers(s: Session, acks: seq<bool>, h: seq<Record>)
    requires LiveInv(s, h) && s.liveError.None? && !s.publisher
    ensures LiveInv(Flush(s, acks), h) && !Flush(s, acks).publisher
    ensures Flush(s, acks).liveError.None? ==> Flush(s, acks).pending == []
    decreases |s.pending|
  {
    if s.pending != [] {
      if acks != [] && acks[0] {
        SendFrontKeeps(s, h);
        FlushDelivers(SendFront(s), acks[1..], h);
      } else {
        assert SentRecords(s.wire) <= h;
        assert TotalBytes([]) == 0;
      }
    }
  }

  lemma ConnectKeeps(s: Session, ok: bool, acks: seq<bool>, h: seq<Record>)
    requires LiveInv(s, h) && s.connecting && !s.ended
    ensures LiveInv(OnConnect(s, ok, acks), h)
  {
    if ok && s.liveError.None? {
      FlushDelivers(s.(connecting := false), acks, h);
      FlushShape(s.(connecting := false), acks);
    }
  }

  // ----- over every run -----

  lemma {:induction false} EndedIff(s: Session, events: seq<Event>)
    requires !s.ended
    ensures Run(s, events).ended <==> exists i :: 0 <= i < |events| && Ends(events[i])
    ensures Run(s, events).chunkBytes == s.chunkBytes
  {
    if events != [] {
      var n := |events| - 1;
      EndedIff(s, events[..n]);
      assert events == events[..n] + [events[n]];
      var before := Run(s, events[..n]);
      if !before.ended {
        StepShape(before, events[n]);
      }
      if i :| 0 <= i < |events| && Ends(events[i]) {
        if i < n { assert Ends(events[..n][i]); }
      }
      if before.ended {
        var i :| 0 <= i < n && Ends(events[..n][i]);
        assert Ends(events[i]);
      }
    }
  }

  lemma StepShape(s: Session, e: Event)
    requires !s.ended
    ensures Step(s, e).ended <==> Ends(e)
    ensures Step(s, e).chunkBytes == s.chunkBytes
  {
    match e
    case Handle(c, ack) => CommandGoesOn(s, c, ack);
    case ConnectDone(ok, acks) => FlushShape(s.(connecting := false), acks);
    case Finish(acks, finishAck) => FinishEnds(s, acks, finishAck);
    case Cancel(_, _, _) =>
    case Hangup =>
  }

  lemma CommandGoesOn(s: Session, c: Command, ack: bool)
    ensures OnCommand(s, c, ack).ended == s.ended && OnCommand(s, c, ack).chunkBytes == s.chunkBytes
  {
    AppendLiveShape(Written(s, c), RecordOf(c), ack);
  }

  lemma FinishEnds(s: Session, acks: seq<bool>, finishAck: bool)
    ensures OnFinish(s, acks, finishAck).ended && OnFinish(s, acks, finishAck).chunkBytes == s.chunkBytes
  {
    FlushShape(s.(connecting := false, ended := true), acks);
  }

  lemma {:induction false} FlushShape(s: Session, acks: seq<bool>)
    ensures var f := Flush(s, acks);
            && f.chunkBytes == s.chunkBytes && f.report == s.report && f.transcript == s.transcript
            && f.nextSeq == s.nextSeq && f.ended == s.ended && f.connecting == s.connecting
    decreases |s.pending|
  {
    if s.pending != [] && acks != [] && acks[0] {
      FlushShape(SendFront(s), acks[1..]);
    }
  }

  /** While no end event has come, the live invariant holds of the records of
      the commands handled so far, whatever the broker answered. */
  lemma {:induction false} RunningInv(chunkBytes: nat, status: string, events: seq<Event>)
    requires forall i :: 0 <= i < |events| ==> !Ends(events[i])
    ensures var s := Run(Open(chunkBytes, status), events);
            LiveInv(s, History(chunkBytes, events)) && !s.ended && s.chunkBytes == chunkBytes
  {
    EndedIff(Open(chunkBytes, status), events);
    if events != [] {
      var n := |events| - 1;
      RunningInv(chunkBytes, status, events[..n]);
      var s, h, e := Run(Open(chunkBytes, status), events[..n]), History(chunkBytes, events[..n]), events[n];
      assert !Ends(e);
      HandledStep(events);
      match e
      case Handle(c, ack) => CommandKeeps(s, h, c, ack);
      case ConnectDone(ok, acks) => if s.connecting { ConnectKeeps(s, ok, acks, h); }
    }
  }

  lemma HandledStep(events: seq<Event>)
    requires events != [] && forall i :: 0 <= i < |events| ==> !Ends(events[i])
    ensures var n := |events| - 1;
            Records(Handled(events))
                == Records(Handled(events[..n])) + (if events[n].Handle? then [RecordOf(events[n].command)] else [])
  {
    var n := |events| - 1;
    var before := Handled(events[..n]);
    if events[n].Handle? {
      assert Handled(events) == before + [events[n].command];
      assert (before + [events[n].command])[..|before|] == before;
    }
  }

  lemma CommandKeeps(s: Session, h: seq<Record>, c: Command, ack: bool)
    requires LiveInv(s, h)
    ensures LiveInv(OnCommand(s, c, ack), if ValidChunkBytes(s.chunkBytes) then h + [RecordOf(c)] else h)
  {
    if ValidChunkBytes(s.chunkBytes) {
      AppendLiveKeeps(Written(s, c), h, RecordOf(c), ack);
    }
  }

  // ----- what the report of a finished session tells -----

  /** While connecting nothing is on the wire; afterwards there is a publisher
      or a latched error; and only a latched error is shown. */
  ghost predicate Telling(s: Session) {
    && (s.connecting ==> s.wire == [] && !s.publisher)
    && (!s.connecting && s.liveError.None? ==> s.publisher)
    && (s.report.error.Some? ==> s.liveError.Some?)
  }

  lemma {:induction false} FlushLeaves(s: Session, acks: seq<bool>)
    ensures var t := Flush(s, acks);
            t.report == s.report && t.connecting == s.connecting && (s.liveError.Some? ==> t.liveError.Some?)
    decreases |s.pending|
  {
    if s.pending != [] && acks != [] && acks[0] { FlushLeaves(SendFront(s), acks[1..]); }
  }

  lemma WrittenTells(s: Session, c: Command)
    requires Telling(s)
    ensures Telling(Written(s, c)) && Telling(Noted(s, c))
  {
  }

  lemma AppendTells(s: Session, r: Record, ack: bool)
    requires Telling(s)
    ensures Telling(AppendLive(s, r, ack)) && Telling(ErrorShown(AppendLive(s, r, ack)))
  {
    AppendLiveShape(s, r, ack);
  }

  lemma CommandTells(s: Session, c: Command, ack: bool)
    requires Telling(s)
    ensures Telling(OnCommand(s, c, ack))
  {
    WrittenTells(s, c);
    AppendTells(Written(s, c), RecordOf(c), ack);
  }

  lemma ConnectTells(s: Session, ok: bool, acks: seq<bool>)
    requires Telling(s) && s.connecting
    ensures Telling(OnConnect(s, ok, acks))
  {
    FlushLeaves(s.(connecting := false), acks);
  }

  lemma {:induction false} RunTells(chunkBytes: nat, status: string, events: seq<Event>)
    requires forall i :: 0 <= i < |events| ==> !Ends(events[i])
    ensures Telling(Run(Open(chunkBytes, status), events))
  {
    if events != [] {
      var n := |events| - 1;
      RunTells(chunkBytes, status, events[..n]);
      var s := Run(Open(chunkBytes, status), events[..n]);
      assert !Ends(events[n]);
      match events[n]
      case Handle(c, ack) => if !s.ended { CommandTells(s, c, ack); }
      case ConnectDone(ok, acks) => if !s.ended && s.connecting { ConnectTells(s, ok, acks); }
    }
  }

  /** Whatever came before, the report of a finish shows exactly a latched error,
      and shows none over a wire without a close exactly when the session was
      still connecting without one; then the broker has seen nothing. */
  lemma FinishTells(chunkBytes: nat, status: string, events: seq<Event>, acks: seq<bool>, finishAck: bool)
    requires forall i :: 0 <= i < |events| ==> !Ends(events[i])
    ensures var s := Run(Open(chunkBytes, status), events);
            var t := Step(s, Finish(acks, finishAck));
            && t.report.error == t.liveError
            && (t.report.error.None? && Closed !in t.wire <==> s.connecting && s.liveError.None?)
            && (s.connecting && s.liveError.None? ==> t.wire == [])
  {
    RunTells(chunkBytes, status, events);
    RunningInv(chunkBytes, status, events);
    var s := Run(Open(chunkBytes, status), events);
    assert s.publisher ==> s.pending == [];
    if s.publisher && finishAck { assert Closed in s.wire + [Closed]; }
  }

  /** An instance: text appended and the session finished before the broker answers. */
  lemma FinishBeforeConnect(chunkBytes: nat, status: string, text: string, ack: bool, acks: seq<bool>, finishAck: bool)
    requires ValidChunkBytes(chunkBytes) && ByteLen(text) <= MAX_PENDING_BYTES
    ensures var t := Run(Open(chunkBytes, status), [Handle(AppendText(text), ack), Finish(acks, finishAck)]);
            t.report.text == text && t.report.error.None? && t.wire == []
  {
    var events := [Handle(AppendText(text), ack), Finish(acks, finishAck)];
    assert events[..1] == [Handle(AppendText(text), ack)] && events[..1][..0] == [];
    assert Run(Open(chunkBytes, status), events[..1][..0]) == Open(chunkBytes, status);
    var s := Run(Open(chunkBytes, status), events[..1]);
    assert s == OnCommand(Open(chunkBytes, status), AppendText(text), ack);
    WrittenShape(Open(chunkBytes, status), AppendText(text));
    assert s.connecting && s.liveError.None? && s.wire == [] && s.report.error.None? && s.report.text == text;
  }

  /** A latched error leaves no publisher. */
  ghost predicate LatchedAlone(s: Session) {
    s.liveError.Some? ==> !s.publisher
  }

  lemma {:induction false} FlushLatchesAlone(s: Session, acks: seq<bool>)
    requires LatchedAlone(s)
    ensures LatchedAlone(Flush(s, acks))
    decreases |s.pending|
  {
    if s.pending != [] && acks != [] && acks[0] { FlushLatchesAlone(SendFront(s), acks[1..]); }
  }

  lemma StepLatchesAlone(s: Session, e: Event)
    requires LatchedAlone(s)
    ensures LatchedAlone(Step(s, e))
  {
    match e
    case ConnectDone(ok, acks) => FlushLatchesAlone(s.(connecting := false), acks);
    case Finish(acks, finishAck) => FlushLatchesAlone(s.(connecting := false, ended := true), acks);
    case _ =>
  }

  lemma {:induction false} RunLatchesAlone(s: Session, events: seq<Event>)
    requires LatchedAlone(s)
    ensures LatchedAlone(Run(s, events))
  {
    if events != [] {
      RunLatchesAlone(s, events[..|events| - 1]);
      StepLatchesAlone(Run(s, events[..|events| - 1]), events[|events| - 1]);
    }
  }

  lemma StepStaysSilent(s: Session, e: Event)
    requires s.liveError.Some? && !s.publisher
    ensures Step(s, e).liveError.Some? && Step(s, e).wire == s.wire
  {
  }

  /** Once an error is latched it stays, and nothing more is sent, whatever
      comes afterwards. */
  lemma {:induction false} LatchedStaysSilent(chunkBytes: nat, status: string, before: seq<Event>, after: seq<Event>)
    requires Run(Open(chunkBytes, status), before).liveError.Some?
    ensures var s, t := Run(Open(chunkBytes, status), before), Run(Open(chunkBytes, status), before + after);
            t.liveError.Some? && t.wire == s.wire
  {
    if after == [] {
      assert before + after == before;
    } else {
      var n := |after| - 1;
      LatchedStaysSilent(chunkBytes, status, before, after[..n]);
      assert (before + after)[..|before| + n] == before + after[..n];
      RunLatchesAlone(Open(chunkBytes, status), before + after[..n]);
      StepStaysSilent(Run(Open(chunkBytes, status), before + after[..n]), after[n]);
    }
  }

  // ----- the report is the history's, whatever the broker does -----

  ghost predicate LocalInv(s: Session, h: seq<Record>) {
    && s.transcript == TranscriptOf(h, s.chunkBytes)
    && s.nextSeq == |s.transcript| + 1
    && s.report.text == TextOf(h)
    && s.report.chunkCount == |s.transcript|
    && (s.report.transcriptHash == None ==> h == [])
    && (s.report.transcriptHash.Some? ==> s.report.transcriptHash.value == s.transcript)
  }

  lemma {:induction false} NumberLength(chunks: seq<string>, kind: RecordType, from: nat)
    ensures |Number(chunks, kind, from)| == |chunks|
    ensures forall i :: 0 <= i < |chunks| ==> Number(chunks, kind, from)[i] == Entry(from + i, kind, chunks[i])
  {
    if chunks != [] { NumberLength(chunks[..|chunks| - 1], kind, from); }
  }

  lemma AppendLiveShape(s: Session, r: Record, ack: bool)
    ensures var t := AppendLive(s, r, ack);
            && t.chunkBytes == s.chunkBytes && t.report == s.report && t.transcript == s.transcript
            && t.nextSeq == s.nextSeq
            && t.ended == s.ended
  {
  }

  lemma WrittenShape(s: Session, c: Command)
    ensures var t, r := Written(s, c), RecordOf(c);
            && t.chunkBytes == s.chunkBytes
            && t.transcript == s.transcript + Number(Chunks(r.text, s.chunkBytes), r.kind, s.nextSeq)
            && t.nextSeq == s.nextSeq + |Chunks(r.text, s.chunkBytes)|
            && t.report.text == s.report.text + (if r.kind.TextDelta? then r.text else [])
            && t.report.chunkCount == |t.transcript|
            && t.report.transcriptHash == Some(t.transcript)
  {
  }

  lemma CommandShape(s: Session, c: Command, ack: bool)
    requires ValidChunkBytes(s.chunkBytes)
    ensures var t, u := OnCommand(s, c, ack), Written(s, c);
            && t.chunkBytes == u.chunkBytes && t.transcript == u.transcript && t.nextSeq == u.nextSeq
            && t.report.text == u.report.text && t.report.chunkCount == u.report.chunkCount
            && t.report.transcriptHash == u.report.transcriptHash
  {
    AppendLiveShape(Written(s, c), RecordOf(c), ack);
  }

  lemma HistoryGrows(h: seq<Record>, r: Record, chunkBytes: nat)
    ensures TranscriptOf(h + [r], chunkBytes)
            == TranscriptOf(h, chunkBytes)
               + Number(Chunks(r.text, chunkBytes), r.kind, |TranscriptOf(h, chunkBytes)| + 1)
  {
    var more := h + [r];
    assert more != [] && more[..|more| - 1] == h && more[|more| - 1] == r;
  }

  lemma TextGrows(h: seq<Record>, r: Record)
    ensures TextOf(h + [r]) == TextOf(h) + (if r.kind.TextDelta? then r.text else [])
  {
    assert (h + [r])[..|h|] == h;
  }

  lemma CommandReports(s: Session, h: seq<Record>, c: Command, ack: bool)
    requires LocalInv(s, h)
    ensures LocalInv(OnCommand(s, c, ack), if ValidChunkBytes(s.chunkBytes) then h + [RecordOf(c)] else h)
  {
    if ValidChunkBytes(s.chunkBytes) {
      var r := RecordOf(c);
      CommandShape(s, c, ack);
      WrittenShape(s, c);
      HistoryGrows(h, r, s.chunkBytes);
      TextGrows(h, r);
      NumberLength(Chunks(r.text, s.chunkBytes), r.kind, s.nextSeq);
    }
  }

  /** The local half: what the broker's answers cannot touch. */
  ghost predicate SameLocal(s: Session, t: Session) {
    && t.transcript == s.transcript && t.chunkBytes == s.chunkBytes && t.nextSeq == s.nextSeq
    && t.report == s.report
  }

  lemma ConnectTouchesLive(s: Session, ok: bool, acks: seq<bool>)
    ensures SameLocal(s, OnConnect(s, ok, acks))
  {
    FlushShape(s.(connecting := false), acks);
  }

  lemma ConnectReports(s: Session, h: seq<Record>, ok: bool, acks: seq<bool>)
    requires LocalInv(s, h)
    ensures LocalInv(OnConnect(s, ok, acks), h)
  {
    ConnectTouchesLive(s, ok, acks);
    SameLocalSameReport(s, OnConnect(s, ok, acks), h);
  }

  lemma SameLocalSameReport(s: Session, t: Session, h: seq<Record>)
    requires LocalInv(s, h) && SameLocal(s, t)
    ensures LocalInv(t, h)
  {
  }

  lemma FinishReports(s: Session, h: seq<Record>, acks: seq<bool>, finishAck: bool)
    requires LocalInv(s, h)
    ensures LocalInv(OnFinish(s, acks, finishAck), h)
  {
    FlushShape(s.(connecting := false, ended := true), acks);
  }

  lemma StepReports(s: Session, h: seq<Record>, e: Event)
    requires LocalInv(s, h) && !s.ended
    ensures LocalInv(Step(s, e), if e.Handle? && ValidChunkBytes(s.chunkBytes) then h + [RecordOf(e.command)] else h)
  {
    match e
    case Handle(c, ack) => CommandReports(s, h, c, ack);
    case ConnectDone(ok, acks) => ConnectReports(s, h, ok, acks);
    case Finish(acks, finishAck) => FinishReports(s, h, acks, finishAck);
    case Cancel(_, _, _) =>
    case Hangup =>
  }

  /** On every run the transcript, the text and the chunk count are those of
      the records of the commands handled: broker answers, connects and
      failures do not enter. */
  lemma {:induction false} ReportMatchesHistory(chunkBytes: nat, status: string, events: seq<Event>)
    ensures LocalInv(Run(Open(chunkBytes, status), events), History(chunkBytes, events))
  {
    EndedIff(Open(chunkBytes, status), events);
    if events != [] {
      var n := |events| - 1;
      ReportMatchesHistory(chunkBytes, status, events[..n]);
      EndedIff(Open(chunkBytes, status), events[..n]);
      var s := Run(Open(chunkBytes, status), events[..n]);
      if s.ended {
        var i :| 0 <= i < n && Ends(events[..n][i]);
        assert Ends(events[i]);
        assert Handled(events) == Handled(events[..n]);
      } else {
        forall i | 0 <= i < n ensures !Ends(events[i]) { assert !Ends(events[..n][i]); }
        StepReports(s, History(chunkBytes, events[..n]), events[n]);
        var before := Handled(events[..n]);
        if events[n].Handle? {
          assert (before + [events[n].command])[..|before|] == before;
        }
      }
    }
  }

  /** The transcript numbers its entries one by one. */
  lemma {:induction false} TranscriptContiguous(rs: seq<Record>, chunkBytes: nat)
    ensures forall i :: 0 <= i < |TranscriptOf(rs, chunkBytes)| ==> TranscriptOf(rs, chunkBytes)[i].seqNo == i + 1
  {
    if rs != [] {
      var n := |rs| - 1;
      TranscriptContiguous(rs[..n], chunkBytes);
      NumberLength(Chunks(rs[n].text, chunkBytes), rs[n].kind, |TranscriptOf(rs[..n], chunkBytes)| + 1);
    }
  }

  /** The chunks of a transcript, joined. */
  function Said(t: seq<Entry>): string {
    if t == [] then [] else Said(t[..|t| - 1]) + t[|t| - 1].chunk
  }

  /** The texts of the records, joined. */
  function AllText(rs: seq<Record>): string {
    if rs == [] then [] else AllText(rs[..|rs| - 1]) + rs[|rs| - 1].text
  }

  lemma {:induction false} SaidConcat(a: seq<Entry>, b: seq<Entry>)
    ensures Said(a + b) == Said(a) + Said(b)
  {
    if b == [] {
      assert a + b == a;
    } else {
      assert (a + b)[..|a + b| - 1] == a + b[..|b| - 1];
      SaidConcat(a, b[..|b| - 1]);
    }
  }

  lemma {:induction false} SaidNumber(chunks: seq<string>, kind: RecordType, from: nat)
    ensures Said(Number(chunks, kind, from)) == Join(chunks)
  {
    if chunks != [] {
      var n := |chunks| - 1;
      SaidNumber(chunks[..n], kind, from);
      var before, last := Number(chunks[..n], kind, from), Entry(from + n, kind, chunks[n]);
      assert (before + [last])[..|before|] == before;
    }
  }

  /** Joined, its chunks say what the records said. */
  lemma {:induction false} TranscriptSaysRecords(rs: seq<Record>, chunkBytes: nat)
    ensures Said(TranscriptOf(rs, chunkBytes)) == AllText(rs)
  {
    if rs != [] {
      var n := |rs| - 1;
      TranscriptSaysRecords(rs[..n], chunkBytes);
      var before, chunks := TranscriptOf(rs[..n], chunkBytes), Chunks(rs[n].text, chunkBytes);
      SplitJoins(rs[n].text, chunkBytes);
      SaidNumber(chunks, rs[n].kind, |before| + 1);
      SaidConcat(before, Number(chunks, rs[n].kind, |before| + 1));
    }
  }

  // ----- what the broker holds at the end -----

  /** Records only, then at most an abort, then at most a close; the records
      are a prefix of the history, all of it when closed without an abort. */
  ghost predicate WireShape(wire: seq<WireEvent>, h: seq<Record>) {
    && SentRecords(wire) <= h
    && exists k :: && 0 <= k <= |wire| && (forall i :: 0 <= i < k ==> wire[i].Sent?)
                   && (wire[k..] == [] || wire[k..] == [Closed] || wire[k..] == [Aborted]
                       || wire[k..] == [Aborted, Closed])
                   && (wire[k..] == [Closed] ==> SentRecords(wire) == h)
  }

  /** What ending adds to the wire. */
  lemma EndWire(s: Session, h: seq<Record>, e: Event)
    requires LiveInv(s, h) && !s.ended && Ends(e)
    ensures var w, w' := s.wire, Step(s, e).wire;
            w' == w || w' == w + [Aborted] || w' == w + [Aborted, Closed] || (w' == w + [Closed] && s.publisher)
  {
    assert s.wire + [Aborted] + [Closed] == s.wire + [Aborted, Closed];
    assert s.wire + [Aborted] + [] == s.wire + [Aborted];
  }

  lemma TailShape(w: seq<WireEvent>, tail: seq<WireEvent>, h: seq<Record>)
    requires forall i :: 0 <= i < |w| ==> w[i].Sent?
    requires SentRecords(w) <= h && (tail == [Closed] ==> SentRecords(w) == h)
    requires tail == [] || tail == [Closed] || tail == [Aborted] || tail == [Aborted, Closed]
    ensures WireShape(w + tail, h)
  {
    TailSilent(w, tail);
    assert (w + tail)[|w|..] == tail;
  }

  lemma TailSilent(w: seq<WireEvent>, tail: seq<WireEvent>)
    requires tail == [] || tail == [Closed] || tail == [Aborted] || tail == [Aborted, Closed]
    ensures SentRecords(w + tail) == SentRecords(w)
  {
    if tail == [] {
      assert w + tail == w;
    } else {
      SentAppend(w, tail[0]);
      if |tail| == 2 {
        SentAppend(w + [Aborted], Closed);
        assert w + [Aborted] + [Closed] == w + tail;
      }
    }
  }

  lemma EndShape(s: Session, h: seq<Record>, e: Event)
    requires LiveInv(s, h) && !s.ended && Ends(e)
    ensures WireShape(Step(s, e).wire, h)
  {
    EndWire(s, h, e);
    var w, w' := s.wire, Step(s, e).wire;
    if w' == w {
      assert w + [] == w;
      TailShape(w, [], h);
    } else if w' == w + [Aborted] {
      TailShape(w, [Aborted], h);
    } else if w' == w + [Aborted, Closed] {
      TailShape(w, [Aborted, Closed], h);
    } else {
      assert SentRecords(w) + [] == SentRecords(w);
      TailShape(w, [Closed], h);
    }
  }

  lemma HandledAfterEnd(events: seq<Event>, i: nat)
    requires i < |events| && Ends(events[i])
    ensures Handled(events) == Handled(events[..|events| - 1])
  {
  }

  lemma LastEventEnds(chunkBytes: nat, status: string, events: seq<Event>)
    requires events != [] && Ends(events[|events| - 1])
    requires forall i :: 0 <= i < |events| - 1 ==> !Ends(events[i])
    ensures WireShape(Run(Open(chunkBytes, status), events).wire, History(chunkBytes, events))
  {
    var n := |events| - 1;
    HandledAfterEnd(events, n);
    RunningInv(chunkBytes, status, events[..n]);
    EndShape(Run(Open(chunkBytes, status), events[..n]), History(chunkBytes, events[..n]), events[n]);
  }

  /** On every run the broker holds records, then at most an abort, then at
      most a close; a prefix of the history, and all of it when the session
      closed normally. */
  lemma {:induction false} BrokerSeesPrefix(chunkBytes: nat, status: string, events: seq<Event>)
    ensures WireShape(Run(Open(chunkBytes, status), events).wire, History(chunkBytes, events))
  {
    var n := |events| - 1;
    if i :| 0 <= i < n && Ends(events[i]) {
      NothingAfterEnd(chunkBytes, status, events, i);
      BrokerSeesPrefix(chunkBytes, status, events[..n]);
    } else if events != [] && Ends(events[n]) {
      LastEventEnds(chunkBytes, status, events);
    } else {
      RunningInv(chunkBytes, status, events);
      var w := Run(Open(chunkBytes, status), events).wire;
      assert w + [] == w;
      TailShape(w, [], History(chunkBytes, events));
    }
  }

  lemma NothingAfterEnd(chunkBytes: nat, status: string, events: seq<Event>, i: nat)
    requires i < |events| - 1 && Ends(events[i])
    ensures Run(Open(chunkBytes, status), events) == Run(Open(chunkBytes, status), events[..|events| - 1])
    ensures History(chunkBytes, events) == History(chunkBytes, events[..|events| - 1])
  {
    var n := |events| - 1;
    EndedIff(Open(chunkBytes, status), events[..n]);
    assert Ends(events[..n][i]);
    HandledAfterEnd(events, i);
  }
}
