/** The compose session as the loop runs it: fields changed in place, each
    method proved against the session function of the same event. */
module ComposeLoop {
  import opened Orders
  import opened TextChunks
  import opened ComposeSession

  class ComposeTask {
    const chunkBytes: nat
    var report: Report
    var transcript: seq<Entry>
    var nextSeq: nat
    var pending: seq<Record>
    var pendingBytes: nat
    var publisher: bool
    var connecting: bool
    var liveError: Option<LiveError>
    var ended: bool
    /** What the broker acknowledged. */
    ghost var wire: seq<WireEvent>

    ghost function View(): Session
      reads this
    {
      Session(chunkBytes, report, transcript, nextSeq, pending, pendingBytes, publisher, connecting, liveError,
              wire, ended)
    }

    constructor (requestedChunkBytes: nat, cap: nat, status: string)
      ensures View() == Open(EffectiveChunkBytes(requestedChunkBytes, cap), status)
    {
      chunkBytes := EffectiveChunkBytes(requestedChunkBytes, cap);
      report := Report(status, "", None, 0, None);
      transcript, nextSeq := [], 1;
      pending, pendingBytes := [], 0;
      publisher, connecting, liveError, ended := false, true, None, false;
      wire := [];
    }

    method ClearPending()
      modifies this`pending, this`pendingBytes
      ensures pending == [] && pendingBytes == 0
    {
      pending, pendingBytes := [], 0;
    }

    method AppendRecordText(r: Record)
      modifies this`transcript, this`nextSeq
      ensures View() == Transcribe(old(View()), r)
    {
      var chunks := SplitTextDeltas(r.text, chunkBytes);
      var start := nextSeq;
      ghost var before := transcript;
      for i := 0 to |chunks|
        invariant nextSeq == start + i
        invariant transcript == before + Number(chunks[..i], r.kind, start)
      {
        assert chunks[..i + 1][..i] == chunks[..i];
        transcript := transcript + [Entry(nextSeq, r.kind, chunks[i])];
        nextSeq := nextSeq + 1;
      }
      assert chunks[..|chunks|] == chunks;
    }

    method AppendLiveRecord(r: Record, ack: bool)
      modifies this
      ensures View() == AppendLive(old(View()), r, ack)
      ensures connecting == old(connecting) && (publisher ==> old(publisher))
    {
      if liveError == None {
        if publisher {
          if ack {
            wire := wire + [Sent(r)];
          } else {
            liveError, publisher := Some(WriteFailed), false;
            ClearPending();
          }
        } else if |pending| >= MAX_PENDING_RECORDS {
          ClearPending();
          liveError := Some(RecordCapExceeded);
        } else if pendingBytes + ByteLen(r.text) > MAX_PENDING_BYTES {
          ClearPending();
          liveError := Some(ByteCapExceeded);
        } else {
          pendingBytes := pendingBytes + ByteLen(r.text);
          pending := pending + [r];
        }
      }
    }

    method FlushPending(acks: seq<bool>) returns (ok: bool)
      requires liveError == None
      modifies this
      ensures View() == Flush(old(View()), acks)
      ensures ok <==> liveError == None
      ensures connecting == old(connecting)
    {
      var left := acks;
      ok := true;
      while pending != []
        invariant Flush(View(), left) == Flush(old(View()), acks)
        invariant liveError == None && connecting == old(connecting)
        decreases |pending|
      {
        var r := pending[0];
        pendingBytes := if pendingBytes >= ByteLen(r.text) then pendingBytes - ByteLen(r.text) else 0;
        pending := pending[1..];
        if left == [] || !left[0] {
          ClearPending();
          liveError, publisher := Some(WriteFailed), false;
          return false;
        }
        wire := wire + [Sent(r)];
        left := left[1..];
      }
    }

    method HandleCommand(c: Command, ack: bool) returns (answer: Option<Report>)
      requires !ended
      modifies this
      ensures View() == Step(old(View()), Handle(c, ack))
      ensures answer == if ValidChunkBytes(chunkBytes) then Some(report) else None
      ensures connecting == old(connecting) && (publisher ==> old(publisher))
    {
      if c.SetStatus? {
        report := report.(status := c.status);
      }
      if chunkBytes == 0 || chunkBytes > MAX_FRAME_LEN {
        return None;
      }
      AppendRecordText(RecordOf(c));
      if c.AppendText? {
        report := report.(text := report.text + c.text);
      }
      ghost var spoken := View();
      report := report.(chunkCount := |transcript|, transcriptHash := Some(transcript));
      assert View() == Reported(spoken);
      AppendLiveRecord(RecordOf(c), ack);
      ghost var sent := View();
      if liveError.Some? {
        report := report.(error := liveError);
      }
      assert View() == ErrorShown(sent);
      return Some(report);
    }

    method HandleConnect(ok: bool, acks: seq<bool>)
      requires !ended && connecting && !publisher
      modifies this
      ensures View() == Step(old(View()), ConnectDone(ok, acks)) && !connecting
    {
      connecting := false;
      if !ok {
        liveError := Some(ConnectFailed);
        ClearPending();
      } else if liveError.Some? {
        ClearPending();
      } else {
        var flushed := FlushPending(acks);
        if flushed {
          publisher := true;
        }
      }
    }

    method CloseLive(finishAck: bool)
      modifies this
      ensures View() == ClosedLive(old(View()), finishAck)
    {
      if liveError == None && publisher {
        publisher := false;
        if finishAck {
          wire := wire + [Closed];
        } else {
          liveError := Some(FinishFailed);
        }
      }
    }

    method HandleFinish(acks: seq<bool>, finishAck: bool) returns (answer: Report)
      requires !ended
      modifies this
      ensures View() == Step(old(View()), Finish(acks, finishAck)) && answer == report && !connecting
    {
      connecting, ended := false, true;
      if liveError == None && publisher {
        var _ := FlushPending(acks);
      }
      CloseLive(finishAck);
      report := report.(status := "finished", transcriptHash := Some(transcript), chunkCount := |transcript|);
      if liveError.Some? {
        report := report.(error := liveError);
      }
      answer := report;
    }

    method HandleCancel(lateConnect: bool, abortAck: bool, finishAck: bool)
      requires !ended
      modifies this
      ensures View() == Step(old(View()), Cancel(lateConnect, abortAck, finishAck)) && !connecting
    {
      if !publisher && liveError == None && connecting {
        if lateConnect { publisher := true; } else { liveError := Some(ConnectFailed); }
      }
      connecting, ended := false, true;
      if liveError == None && publisher {
        publisher := false;
        if abortAck {
          wire := wire + [Aborted];
          if finishAck { wire := wire + [Closed]; }
        }
      }
    }

    method HandleHangup()
      requires !ended
      modifies this
      ensures View() == Step(old(View()), Hangup) && !connecting
    {
      connecting, ended := false, true;
    }

    /** One turn of the loop: connect outcomes after the connect task is gone
        and anything after the end are not delivered. */
    method Dispatch(e: Event)
      requires connecting ==> !publisher
      modifies this
      ensures View() == Step(old(View()), e)
      ensures connecting ==> !publisher
    {
      if ended { return; }
      match e
      case Handle(c, ack) => var _ := HandleCommand(c, ack);
      case ConnectDone(ok, acks) => if connecting { HandleConnect(ok, acks); }
      case Finish(acks, finishAck) => var _ := HandleFinish(acks, finishAck);
      case Cancel(lateConnect, abortAck, finishAck) => HandleCancel(lateConnect, abortAck, finishAck);
      case Hangup => HandleHangup();
    }
  }

  /** The session loop over any script of events. */
  method RunSession(requestedChunkBytes: nat, cap: nat, status: string, events: seq<Event>)
    returns (final: Report, task: ComposeTask)
    ensures task.View() == Run(Open(EffectiveChunkBytes(requestedChunkBytes, cap), status), events)
    ensures final == task.report
    ensures LocalInv(task.View(), History(task.chunkBytes, events))
    ensures WireShape(task.wire, History(task.chunkBytes, events))
  {
    task := new ComposeTask(requestedChunkBytes, cap, status);
    ghost var start := task.View();
    for i := 0 to |events|
      invariant task.View() == Run(start, events[..i])
      invariant task.connecting ==> !task.publisher
    {
      assert events[..i + 1][..i] == events[..i];
      task.Dispatch(events[i]);
    }
    assert events[..|events|] == events;
    ReportMatchesHistory(task.chunkBytes, status, events);
    BrokerSeesPrefix(task.chunkBytes, status, events);
    final := task.report;
  }
}
