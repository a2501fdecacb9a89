/** The gateway's half of a file stream (apps/gateway/src/agents/file-transport.ts):
    the readable that downloads and the writable that uploads, each first as
    transitions on a value and then as the class whose methods make them. */
module FileTransport {
  import opened Common
  import opened Protocol

  /* ------------------------------- AgentReadable ------------------------------ */

  /** `open` is whether the channel id is still held. `reading`, `buffered` and
      `ended` belong to the Node base class: a `_read` call is unanswered, bytes
      pushed and not yet consumed, `push(null)` was called. `pushed` is
      everything the consumer was or will be given. */
  datatype Reader = Reader(
    open: bool, owed: nat, finished: bool,
    reading: bool, ended: bool, destroyed: bool, buffered: nat, pushed: Bytes)

  const NEW_READER := Reader(true, 0, false, false, false, false, 0, [])

  datatype ReaderEffect = ReaderEffect(reader: Reader, sent: seq<Frame>)

  function ReaderGotData(r: Reader, chunk: Bytes): Reader {
    r.(owed := r.owed + |chunk|, reading := false, buffered := r.buffered + |chunk|, pushed := r.pushed + chunk)
  }

  function ReaderGotEnd(r: Reader): Reader {
    r.(finished := true, open := false, ended := true)
  }

  /** A stream error, a refused rpc or a lost tunnel. */
  function ReaderFailed(r: Reader): Reader {
    r.(finished := true, open := false, destroyed := true)
  }

  /** Node calls `_read` only when no earlier call is unanswered by a push and
      the consumer has drained below the high-water mark. */
  predicate ReadDue(r: Reader, highWater: nat) {
    !r.reading && !r.ended && !r.destroyed && r.buffered < highWater
  }

  function ReaderReads(r: Reader): ReaderEffect {
    var asked := r.(reading := true);
    if r.owed == 0 || !r.open then ReaderEffect(asked, [])
    else ReaderEffect(asked.(owed := 0), [Credit(r.owed)])
  }

  /** The consumer gave up; the agent is told unless the stream was over. */
  function ReaderCancelled(r: Reader): ReaderEffect {
    if !r.finished && r.open then ReaderEffect(r.(destroyed := true, open := false), [End])
    else ReaderEffect(r.(destroyed := true), [])
  }

  class AgentReadable {
    var channelId: Option<nat>
    var owed: nat
    var finished: bool
    var reading: bool
    var ended: bool
    var destroyed: bool
    var buffered: nat
    var pushed: Bytes
    /** Frames given to the device, oldest first. */
    var sent: seq<(nat, Frame)>

    function View(): Reader
      reads this
    {
      Reader(channelId.Some?, owed, finished, reading, ended, destroyed, buffered, pushed)
    }

    constructor (channelId: nat)
      ensures View() == NEW_READER && this.channelId == Some(channelId)
      ensures sent == Tagged(channelId, [OpenRead])
    {
      this.channelId := Some(channelId);
      owed, buffered, pushed := 0, 0, [];
      finished, reading, ended, destroyed := false, false, false, false;
      sent := [(channelId, OpenRead)];
    }

    method Release()
      modifies this`channelId
      ensures channelId == None
    {
      channelId := None;
    }

    method Push(chunk: Bytes)
      modifies this`reading, this`buffered, this`pushed
      ensures !reading && buffered == old(buffered) + |chunk| && pushed == old(pushed) + chunk
    {
      reading := false;
      buffered := buffered + |chunk|;
      pushed := pushed + chunk;
    }

    method OnData(chunk: Bytes)
      modifies this
      ensures View() == ReaderGotData(old(View()), chunk)
      ensures sent == old(sent) && channelId == old(channelId)
    {
      owed := owed + |chunk|;
      Push(chunk);
    }

    method OnEnd()
      modifies this
      ensures View() == ReaderGotEnd(old(View())) && sent == old(sent)
    {
      finished := true;
      Release();
      ended := true;
    }

    method OnError()
      modifies this
      ensures View() == ReaderFailed(old(View())) && sent == old(sent)
    {
      finished := true;
      Release();
      Destroy();
    }

    method Read()
      modifies this
      ensures View() == ReaderReads(old(View())).reader && channelId == old(channelId)
      ensures channelId.Some? ==> sent == old(sent) + Tagged(channelId.value, ReaderReads(old(View())).sent)
      ensures channelId.None? ==> sent == old(sent)
    {
      reading := true;
      if owed == 0 || channelId == None {
        return;
      }
      sent := sent + [(channelId.value, Credit(owed))];
      owed := 0;
    }

    method Destroy()
      modifies this
      ensures View() == ReaderCancelled(old(View())).reader
      ensures old(channelId).Some? ==> sent == old(sent) + Tagged(old(channelId).value, ReaderCancelled(old(View())).sent)
      ensures old(channelId).None? ==> sent == old(sent) && channelId == None
    {
      destroyed := true;
      if !finished && channelId != None {
        sent := sent + [(channelId.value, End)];
        Release();
      }
    }
  }

  /* ------------------------------- AgentWritable ------------------------------ */

  datatype Ready = Unanswered | Accepted | Rejected

  /** Where the one chunk Node has handed over, or the final flush, is waiting:
      on the open rpc, on credit, woken but not yet run, or on the agent's own end. */
  datatype Phase =
    | Idle
    | AwaitingReady(chunk: Bytes)
    | Parked(chunk: Bytes)
    | Woken(chunk: Bytes)
    | FinalAwaitingReady
    | AwaitingDone
    | DoneWoken
    | Succeeded
    | Failed

  datatype Writer = Writer(open: bool, credit: int, ready: Ready, failure: bool, phase: Phase)

  const NEW_WRITER := Writer(true, STREAM_WINDOW_BYTES, Unanswered, false, Idle)

  datatype WriterEffect = WriterEffect(writer: Writer, sent: seq<Frame>)

  function SendChunk(w: Writer, chunk: Bytes): WriterEffect {
    if w.failure || !w.open then WriterEffect(w.(phase := Failed), [])
    else WriterEffect(w.(credit := w.credit - |chunk|, phase := Idle), [Data(chunk)])
  }

  predicate WriterCanContinue(w: Writer) {
    match w.phase
    case AwaitingReady(_) => w.ready != Unanswered
    case FinalAwaitingReady => w.ready != Unanswered
    case Woken(_) => true
    case DoneWoken => true
    case _ => false
  }

  /** The code after whichever `await` has been answered. */
  function WriterContinues(w: Writer): WriterEffect {
    match w.phase
    case AwaitingReady(chunk) =>
      if w.ready == Rejected || w.failure then WriterEffect(w.(phase := Failed), [])
      else if w.credit <= 0 then WriterEffect(w.(phase := Parked(chunk)), [])
      else SendChunk(w, chunk)
    case Woken(chunk) => SendChunk(w, chunk)
    case FinalAwaitingReady =>
      if w.ready == Rejected || w.failure || !w.open then WriterEffect(w.(phase := Failed), [])
      else WriterEffect(w.(phase := AwaitingDone), [End])
    case DoneWoken => WriterEffect(w.(phase := if w.failure then Failed else Succeeded), [])
    case _ => WriterEffect(w, [])
  }

  function WriterAnswered(w: Writer, accepted: bool): Writer {
    if accepted then w.(ready := Accepted)
    else w.(ready := Rejected, failure := true, open := false)
  }

  function WriterGotCredit(w: Writer, bytes: int): Writer {
    var topped := w.(credit := w.credit + bytes);
    if topped.credit > 0 && w.phase.Parked? then topped.(phase := Woken(w.phase.chunk)) else topped
  }

  function WriterGotEnd(w: Writer): Writer {
    w.(open := false, phase := if w.phase.AwaitingDone? then DoneWoken else w.phase)
  }

  /** Wakes whichever of the two is waiting; a stream with nothing pending is
      simply destroyed. */
  function WriterGotError(w: Writer): Writer {
    w.(failure := true, open := false,
       phase := match w.phase
                case Parked(chunk) => Woken(chunk)
                case AwaitingDone => DoneWoken
                case Idle => Failed
                case other => other)
  }

  class AgentWritable {
    var channelId: Option<nat>
    var credit: int
    var ready: Ready
    var failure: bool
    var phase: Phase
    /** Frames given to the device, oldest first. */
    var sent: seq<(nat, Frame)>

    function View(): Writer
      reads this
    {
      Writer(channelId.Some?, credit, ready, failure, phase)
    }

    constructor (channelId: nat)
      ensures View() == NEW_WRITER && this.channelId == Some(channelId)
      ensures sent == Tagged(channelId, [OpenWrite])
    {
      this.channelId := Some(channelId);
      credit, ready, failure, phase := STREAM_WINDOW_BYTES, Unanswered, false, Idle;
      sent := [(channelId, OpenWrite)];
    }

    method Release()
      modifies this`channelId
      ensures channelId == None
    {
      channelId := None;
    }

    /** `_write` up to its first `await`. */
    method Write(chunk: Bytes)
      requires phase == Idle
      modifies this`phase
      ensures View() == old(View()).(phase := AwaitingReady(chunk))
    {
      phase := AwaitingReady(chunk);
    }

    /** `_final` up to its first `await`. */
    method Final()
      requires phase == Idle
      modifies this`phase
      ensures View() == old(View()).(phase := FinalAwaitingReady)
    {
      phase := FinalAwaitingReady;
    }

    method SendOrFail(chunk: Bytes)
      modifies this
      ensures View() == SendChunk(old(View()), chunk).writer && channelId == old(channelId)
      ensures channelId.Some? ==> sent == old(sent) + Tagged(channelId.value, SendChunk(old(View()), chunk).sent)
      ensures channelId.None? ==> sent == old(sent)
    {
      if failure || channelId == None {
        phase := Failed;
        return;
      }
      credit := credit - |chunk|;
      sent := sent + [(channelId.value, Data(chunk))];
      phase := Idle;
    }

    /** Runs on from the `await` that was answered. */
    method Continue()
      requires WriterCanContinue(View())
      modifies this
      ensures View() == WriterContinues(old(View())).writer && channelId == old(channelId)
      ensures channelId.Some? ==> sent == old(sent) + Tagged(channelId.value, WriterContinues(old(View())).sent)
      ensures channelId.None? ==> sent == old(sent)
    {
      match phase
      case AwaitingReady(chunk) =>
        if ready == Rejected || failure {
          phase := Failed;
        } else if credit <= 0 {
          phase := Parked(chunk);
        } else {
          SendOrFail(chunk);
        }
      case Woken(chunk) =>
        SendOrFail(chunk);
      case FinalAwaitingReady =>
        if ready == Rejected || failure || channelId == None {
          phase := Failed;
        } else {
          sent := sent + [(channelId.value, End)];
          phase := AwaitingDone;
        }
      case DoneWoken =>
        phase := if failure then Failed else Succeeded;
    }

    /** The reply to `fs.openWrite`. */
    method OnAnswer(accepted: bool)
      modifies this
      ensures View() == WriterAnswered(old(View()), accepted) && sent == old(sent)
    {
      if accepted {
        ready := Accepted;
      } else {
        failure := true;
        Release();
        ready := Rejected;
      }
    }

    method OnEnd()
      modifies this
      ensures View() == WriterGotEnd(old(View())) && sent == old(sent)
    {
      Release();
      if phase.AwaitingDone? {
        phase := DoneWoken;
      }
    }

    method OnError()
      modifies this
      ensures View() == WriterGotError(old(View())) && sent == old(sent)
    {
      failure := true;
      Release();
      match phase
      case Parked(chunk) => phase := Woken(chunk);
      case AwaitingDone => phase := DoneWoken;
      case Idle => phase := Failed;
      case _ =>
    }

    method OnCredit(bytes: int)
      modifies this
      ensures View() == WriterGotCredit(old(View()), bytes) && sent == old(sent) && channelId == old(channelId)
    {
      credit := credit + bytes;
      if credit > 0 {
        if phase.Parked? {
          phase := Woken(phase.chunk);
        }
      }
    }
  }
}
