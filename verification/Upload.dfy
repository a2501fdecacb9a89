/** An upload: `AgentWritable` and `FileService` joined by one queue of frames in
    each direction, under any interleaving. Disk errors and losing the tunnel
    are events of the environment. The agent's socket closes on a frame larger
    than its `maxPayload`, so an oversized chunk costs it the tunnel. */
module Upload {
  import opened Common
  import opened Protocol
  import opened AgentFiles
  import opened FileTransport

  datatype Agent = Waiting | Opening | Active(stream: StreamState) | Gone(disk: Bytes)

  /** `taken`, `sent` and `received` count the chunks given to `_write`, put on
      the wire and handled by the agent. `failed` remembers an event after which
      the transfer can no longer succeed: in particular `broken`, a disk error;
      `timedOut`, the open request timed out; and `lostOpening`, the agent lost its
      tunnel while it opened the file. */
  datatype System = System(
    chunks: seq<Bytes>,
    taken: nat,
    sent: nat,
    received: nat,
    writer: Writer,
    agent: Agent,
    toAgent: seq<Frame>,
    toGateway: seq<Frame>,
    agentUp: bool,
    gatewayUp: bool,
    failed: bool,
    broken: bool,
    timedOut: bool,
    lostOpening: bool)

  datatype Event =
    | SourceWrites
    | SourceEnds
    | WriterRuns
    | AgentReceives
    | OpenSucceeds
    | OpenFails
    | DiskTakes(k: nat)
    | DiskDrains
    | DiskFinishes
    | DiskFails
    | GatewayReceives
    | RequestTimesOut
    | AgentLosesTunnel
    | GatewayLosesTunnel

  function Init(chunks: seq<Bytes>): System {
    System(chunks, 0, 0, 0, NEW_WRITER, Waiting, [OpenWrite], [], true, true, false, false, false, false)
  }

  predicate Oversized(chunk: Bytes) {
    DATA_FRAME_HEADER_BYTES + |chunk| > MAX_CONTROL_FRAME_BYTES
  }

  predicate Enabled(s: System, e: Event) {
    match e
    case SourceWrites => s.writer.phase.Idle? && s.taken < |s.chunks|
    case SourceEnds => s.writer.phase.Idle? && s.taken >= |s.chunks|
    case WriterRuns => WriterCanContinue(s.writer)
    case AgentReceives => s.agentUp && s.toAgent != []
    case OpenSucceeds => s.agent.Opening?
    case OpenFails => s.agent.Opening?
    case DiskTakes(k) => s.agent.Active? && s.agent.stream.Writing? && 1 <= k <= |s.agent.stream.sink.buffered|
    case DiskDrains => s.agent.Active? && DrainDue(s.agent.stream)
    case DiskFinishes => s.agent.Active? && Finished(s.agent.stream)
    case DiskFails => s.agent.Active? && s.agent.stream.Writing?
    case GatewayReceives => s.gatewayUp && s.toGateway != []
    case RequestTimesOut => s.writer.ready == Unanswered
    case AgentLosesTunnel => s.agentUp
    case GatewayLosesTunnel => s.gatewayUp
  }

  /** `send` is silent on a socket that is not open. */
  function AgentSends(s: System, frames: seq<Frame>): System {
    if s.agentUp then s.(toGateway := s.toGateway + frames) else s
  }

  function GatewaySends(s: System, frames: seq<Frame>): System {
    if s.gatewayUp then s.(toAgent := s.toAgent + frames) else s
  }

  function OnDisk(agent: Agent): Bytes {
    match agent
    case Active(stream) => if stream.Writing? then stream.sink.disk else []
    case Gone(disk) => disk
    case _ => []
  }

  function AgentLost(s: System): System {
    s.(agentUp := false, toAgent := [], agent := if s.agent.Active? then Gone(OnDisk(s.agent)) else s.agent,
       failed := true, lostOpening := s.agent.Opening?)
  }

  /** What the agent does with a control frame. */
  function AgentHandles(agent: Agent, frame: Frame): Agent {
    match frame
    case OpenWrite => if agent.Waiting? then Opening else agent
    case End => if agent.Active? && agent.stream.Writing? then Active(Ended(agent.stream)) else agent
    case _ => agent
  }

  /** A reply to a request that timed out finds no one. */
  function WriterHandles(w: Writer, frame: Frame): Writer {
    match frame
    case RpcOk => if w.ready == Unanswered then WriterAnswered(w, true) else w
    case RpcErr => if w.ready == Unanswered then WriterAnswered(w, false) else w
    case Credit(bytes) => if w.open then WriterGotCredit(w, bytes) else w
    case End => if w.open then WriterGotEnd(w) else w
    case StreamError => if w.open then WriterGotError(w) else w
    case _ => w
  }

  /** `detach` rejects the pending rpc and fails the stream. */
  function WriterLost(w: Writer): Writer {
    if !w.open then w
    else
      var errored := WriterGotError(w);
      if errored.ready == Unanswered then errored.(ready := Rejected) else errored
  }

  /* What each event does, one function each. */

  function SourceWrote(s: System): System
    requires s.taken < |s.chunks|
  {
    s.(taken := s.taken + 1, writer := s.writer.(phase := AwaitingReady(s.chunks[s.taken])))
  }

  function SourceEnded(s: System): System {
    s.(writer := s.writer.(phase := FinalAwaitingReady))
  }

  function WriterRan(s: System): System {
    var effect := WriterContinues(s.writer);
    GatewaySends(s.(writer := effect.writer, sent := s.sent + if effect.sent != [] && effect.sent[0].Data? then 1 else 0),
                 effect.sent)
  }

  /** A chunk for the file: written, and answered with credit or not yet. */
  function ChunkWritten(s: System, highWater: nat): System
    requires s.toAgent != [] && s.toAgent[0].Data? && s.agent.Active? && s.agent.stream.Writing?
  {
    var effect := Written(s.agent.stream, s.toAgent[0].payload, highWater);
    AgentSends(s.(toAgent := s.toAgent[1..], agent := Active(effect.state), received := s.received + 1), effect.sent)
  }

  /** A chunk for a stream that is over. */
  function ChunkIgnored(s: System): System
    requires s.toAgent != []
  {
    s.(toAgent := s.toAgent[1..], received := s.received + 1)
  }

  function ControlHandled(s: System): System
    requires s.toAgent != []
  {
    s.(toAgent := s.toAgent[1..], agent := AgentHandles(s.agent, s.toAgent[0]))
  }

  predicate TooLarge(s: System)
    requires s.toAgent != []
  {
    s.toAgent[0].Data? && Oversized(s.toAgent[0].payload)
  }

  function AgentReceived(s: System, highWater: nat): System
    requires s.toAgent != []
  {
    if TooLarge(s) then AgentLost(s)
    else if !s.toAgent[0].Data? then ControlHandled(s)
    else if s.agent.Active? && s.agent.stream.Writing? then ChunkWritten(s, highWater)
    else ChunkIgnored(s)
  }

  function FileOpened(s: System): System {
    AgentSends(s.(agent := Active(OPENED_FOR_WRITE)), [RpcOk])
  }

  function FileRefused(s: System): System {
    AgentSends(s.(agent := Gone([]), failed := true, broken := true), [RpcErr])
  }

  function DiskTook(s: System, k: nat): System
    requires Enabled(s, DiskTakes(k))
  {
    s.(agent := Active(FlushedToDisk(s.agent.stream, k)))
  }

  function DiskDrained(s: System): System
    requires Enabled(s, DiskDrains)
  {
    var effect := Drained(s.agent.stream);
    AgentSends(s.(agent := Active(effect.state)), effect.sent)
  }

  function DiskFinished(s: System): System {
    AgentSends(s.(agent := Gone(OnDisk(s.agent))), [End])
  }

  function DiskFailed(s: System): System {
    AgentSends(s.(agent := Gone(OnDisk(s.agent)), failed := true, broken := true), [StreamError])
  }

  function GatewayReceived(s: System): System
    requires s.toGateway != []
  {
    s.(toGateway := s.toGateway[1..], writer := WriterHandles(s.writer, s.toGateway[0]))
  }

  function RequestTimedOut(s: System): System {
    s.(writer := WriterAnswered(s.writer, false), failed := true, timedOut := true)
  }

  function GatewayLost(s: System): System {
    s.(gatewayUp := false, toGateway := [], writer := WriterLost(s.writer), failed := true)
  }

  function Step(s: System, e: Event, highWater: nat): System
    requires Enabled(s, e)
  {
    match e
    case SourceWrites => SourceWrote(s)
    case SourceEnds => SourceEnded(s)
    case WriterRuns => WriterRan(s)
    case AgentReceives => AgentReceived(s, highWater)
    case OpenSucceeds => FileOpened(s)
    case OpenFails => FileRefused(s)
    case DiskTakes(k) => DiskTook(s, k)
    case DiskDrains => DiskDrained(s)
    case DiskFinishes => DiskFinished(s)
    case DiskFails => DiskFailed(s)
    case GatewayReceives => GatewayReceived(s)
    case RequestTimesOut => RequestTimedOut(s)
    case AgentLosesTunnel => AgentLost(s)
    case GatewayLosesTunnel => GatewayLost(s)
  }

  /** Chunks no larger than a data frame may be. */
  ghost predicate Framed(chunks: seq<Bytes>) {
    forall i :: 0 <= i < |chunks| ==> |chunks[i]| <= MAX_DATA_FRAME_BYTES
  }

  /** `events` is a run from `s` to `t`; every state of a run is where a shorter
      run ends. */
  ghost predicate Runs(s: System, events: seq<Event>, t: System, highWater: nat)
    decreases |events|
  {
    if events == [] then t == s
    else Enabled(s, events[0]) && Runs(Step(s, events[0], highWater), events[1..], t, highWater)
  }

  /* -------------------------------- the invariant ------------------------------ */

  /** The payloads travelling in a queue. */
  function Payloads(queue: seq<Frame>): seq<Bytes> {
    if queue == [] then []
    else (if queue[0].Data? then [queue[0].payload] else []) + Payloads(queue[1..])
  }

  predicate Unopened(s: System) {
    s.agent.Waiting? || s.agent.Opening?
  }

  predicate Finishing(phase: Phase) {
    phase.AwaitingDone? || phase.DoneWoken? || phase.Succeeded?
  }

  predicate Holding(phase: Phase) {
    phase.AwaitingReady? || phase.Parked? || phase.Woken?
  }

  /** The writer's own fields agree with each other. */
  ghost predicate WriterInv(w: Writer) {
    (w.open ==> !w.failure && w.ready != Rejected && !w.phase.Failed? && !w.phase.DoneWoken? && !w.phase.Succeeded?) &&
    (!w.open ==> w.failure || w.phase.DoneWoken? || w.phase.Succeeded?) &&
    (w.phase.Parked? ==> w.open && w.credit <= 0) &&
    (w.phase.AwaitingDone? ==> w.open) &&
    (w.phase.Woken? ==> w.failure || w.credit > 0) &&
    (w.phase.Succeeded? || w.phase.DoneWoken? ==> w.open || w.ready == Accepted || w.failure) &&
    (w.phase.Succeeded? ==> !w.failure) &&
    (w.phase.Failed? ==> w.failure) &&
    (w.ready == Unanswered ==> w.open && !w.failure && w.credit == STREAM_WINDOW_BYTES) &&
    (w.ready == Unanswered ==> w.phase.Idle? || w.phase.AwaitingReady? || w.phase.FinalAwaitingReady?) &&
    (w.ready == Rejected ==> w.failure) &&
    (w.failure && w.phase.Idle? ==> w.ready == Rejected) &&
    (w.credit + MAX_DATA_FRAME_BYTES > 0) &&
    (Holding(w.phase) ==> |w.phase.chunk| <= MAX_DATA_FRAME_BYTES)
  }

  predicate Counted(s: System) {
    s.received <= s.sent <= s.taken <= |s.chunks|
  }

  /** Which chunk the writer holds. */
  ghost predicate ChunkInv(s: System) {
    Framed(s.chunks) && Counted(s) &&
    (Holding(s.writer.phase) ==> s.taken == s.sent + 1 && s.writer.phase.chunk == s.chunks[s.sent]) &&
    (!Holding(s.writer.phase) && !s.writer.phase.Failed? ==> s.taken == s.sent) &&
    (s.writer.phase.FinalAwaitingReady? || Finishing(s.writer.phase) ==> s.sent == |s.chunks|) &&
    (s.writer.ready == Unanswered ==> s.sent == 0)
  }

  predicate IsReply(frame: Frame) {
    frame == RpcOk || frame == RpcErr
  }

  predicate Farewell(frame: Frame) {
    frame == RpcErr || frame == End || frame == StreamError
  }

  predicate FromAgent(frame: Frame) {
    IsReply(frame) || Farewell(frame) || (frame.Credit? && CreditInSchema(frame))
  }

  ghost predicate ToGatewayInv(s: System) {
    (Unopened(s) ==> s.toGateway == []) &&
    (forall i :: 0 <= i < |s.toGateway| ==> FromAgent(s.toGateway[i])) &&
    (forall i :: 0 <= i < |s.toGateway| && IsReply(s.toGateway[i]) ==>
      i == 0 && (s.gatewayUp && !s.timedOut ==> s.writer.ready == Unanswered)) &&
    (s.writer.ready == Unanswered && s.toGateway != [] ==> IsReply(s.toGateway[0])) &&
    (forall i :: 0 <= i < |s.toGateway| && Farewell(s.toGateway[i]) ==> s.agent.Gone? && i == |s.toGateway| - 1)
  }

  /** What each end still owes the other, for progress. */
  ghost predicate ReplyInv(s: System) {
    (s.writer.open ==> s.gatewayUp) &&
    (Unopened(s) && s.gatewayUp && !s.timedOut ==> s.writer.ready == Unanswered) &&
    (s.writer.ready == Unanswered && s.agentUp && !Unopened(s) ==> s.toGateway != []) &&
    (s.writer.open && s.agentUp && s.agent.Gone? ==> s.toGateway != [] && Farewell(s.toGateway[|s.toGateway| - 1]))
  }

  ghost predicate ToAgentInv(s: System) {
    (s.agent.Waiting? && s.agentUp ==> s.toAgent == [OpenWrite]) &&
    (s.agent.Opening? && s.agentUp ==> s.toAgent == []) &&
    (forall i :: 0 <= i < |s.toAgent| ==> s.toAgent[i].Data? || s.toAgent[i] == End || (s.toAgent[i] == OpenWrite && s.agent.Waiting?)) &&
    (forall i :: 0 <= i < |s.toAgent| && s.toAgent[i] == End ==>
      i == |s.toAgent| - 1 && s.sent == |s.chunks| && (Finishing(s.writer.phase) || s.writer.phase.Failed?))
  }

  /** Where the chunks are: handled by the agent, or on the wire in order. */
  ghost predicate WireInv(s: System)
    requires Counted(s)
  {
    (s.agentUp ==> Payloads(s.toAgent) == s.chunks[s.received..s.sent]) &&
    (forall i :: 0 <= i < s.received ==> !Oversized(s.chunks[i]))
  }

  ghost predicate AgentInv(s: System)
    requires Counted(s)
  {
    match s.agent
    case Active(stream) =>
      stream.Writing? && Disciplined(stream) && stream.awaitingDrain == stream.sink.needDrain &&
      stream.sink.disk + stream.sink.buffered == Flat(s.chunks[..s.received]) &&
      (stream.ending ==>
        s.agentUp && s.toAgent == [] && s.received == |s.chunks| && (Finishing(s.writer.phase) || s.writer.phase.Failed?))
    case Gone(disk) => disk <= Flat(s.chunks[..s.received])
    case _ => s.received == 0
  }

  /** An end from the agent means every byte is on its disk. */
  ghost predicate EndInv(s: System) {
    (forall i :: 0 <= i < |s.toGateway| && s.toGateway[i] == End ==>
      s.agent == Gone(Flat(s.chunks)) && s.received == |s.chunks| && (s.writer.open ==> s.writer.phase.AwaitingDone?)) &&
    ((s.writer.phase.DoneWoken? || s.writer.phase.Succeeded?) && !s.writer.failure ==>
      s.agent == Gone(Flat(s.chunks)) && s.received == |s.chunks|) &&
    (s.writer.phase.AwaitingDone? && s.agentUp && s.agent.Active? && s.agent.stream.Writing? && !s.agent.stream.ending ==>
      s.toAgent != [] && s.toAgent[|s.toAgent| - 1] == End)
  }

  /** Nothing fails unless an event of the environment, or an oversized chunk, did it. */
  ghost predicate FailInv(s: System) {
    (s.writer.failure || !s.agentUp || !s.gatewayUp ==> s.failed) &&
    (forall i :: 0 <= i < |s.toGateway| && (s.toGateway[i] == RpcErr || s.toGateway[i] == StreamError) ==> s.failed)
  }

  /** Whom the agent still has a stream open for. */
  ghost predicate LeakInv(s: System) {
    (s.broken ==> s.agent.Gone?) &&
    (s.failed && s.agentUp && s.gatewayUp && !s.timedOut ==> s.broken) &&
    (s.timedOut ==>
       !s.writer.open && s.writer.ready != Unanswered && s.sent == 0 &&
       (s.agentUp ==> forall i :: 0 <= i < |s.toAgent| ==> s.toAgent[i] == OpenWrite) &&
       (s.agent.Active? ==> s.agent.stream.Writing? && !s.agent.stream.ending) &&
       (s.agentUp && !s.broken ==> !s.agent.Gone?)) &&
    (s.agentUp && !s.broken && s.agent.Gone? ==> Finishing(s.writer.phase) || s.writer.phase.Failed?) &&
    (s.lostOpening ==> !s.agentUp && (!s.broken ==> s.agent.Opening? || s.agent.Active?)) &&
    (!s.agentUp && (s.agent.Opening? || s.agent.Active?) ==> s.lostOpening)
  }

  /** Bytes the agent has taken and not granted back. */
  function SinceCredit(agent: Agent): nat {
    if agent.Active? && agent.stream.Writing? then agent.stream.sinceCredit else 0
  }

  /** The window, accounted for to the byte. */
  ghost predicate CreditConserved(s: System) {
    s.writer.open && s.agentUp && !s.agent.Gone? ==>
      s.writer.credit + |DataOf(s.toAgent)| + SinceCredit(s.agent) + CreditOf(s.toGateway) == STREAM_WINDOW_BYTES
  }

  ghost predicate OwedBounded(s: System) {
    s.agentUp && !s.agent.Gone? ==>
      |DataOf(s.toAgent)| + SinceCredit(s.agent) < STREAM_WINDOW_BYTES + MAX_DATA_FRAME_BYTES
  }

  ghost predicate Inv(s: System) {
    WriterInv(s.writer) && ChunkInv(s) && ToGatewayInv(s) && ReplyInv(s) && ToAgentInv(s) && WireInv(s) &&
    AgentInv(s) && EndInv(s) && FailInv(s) && LeakInv(s) && CreditConserved(s) && OwedBounded(s)
  }

  /* ----------------------- the pieces, one component at a time ----------------- */

  lemma WriterHandlesKeepsInv(w: Writer, frame: Frame)
    requires WriterInv(w) && FromAgent(frame)
    requires w.ready == Unanswered ==> IsReply(frame)
    requires frame == End && w.open ==> w.phase.AwaitingDone?
    ensures WriterInv(WriterHandles(w, frame))
  {
  }

  lemma WriterRunsKeepsInv(w: Writer)
    requires WriterInv(w) && WriterCanContinue(w)
    ensures WriterInv(WriterContinues(w).writer)
  {
  }

  /** Receiving a data frame takes the first payload off the wire. */
  lemma PayloadsHead(queue: seq<Frame>)
    requires queue != []
    ensures Payloads(queue) == (if queue[0].Data? then [queue[0].payload] else []) + Payloads(queue[1..])
    ensures !queue[0].Data? ==> Payloads(queue) == Payloads(queue[1..])
    ensures queue[0].Data? ==> |Payloads(queue)| >= 1 && Payloads(queue)[0] == queue[0].payload && Payloads(queue)[1..] == Payloads(queue[1..])
  {
  }

  lemma {:induction false} PayloadsAppend(queue: seq<Frame>, frame: Frame)
    ensures Payloads(queue + [frame]) == Payloads(queue) + (if frame.Data? then [frame.payload] else [])
  {
    if queue == [] {
      assert queue + [frame] == [frame];
    } else {
      assert (queue + [frame])[1..] == queue[1..] + [frame];
      PayloadsAppend(queue[1..], frame);
      Associative(if queue[0].Data? then [queue[0].payload] else [], Payloads(queue[1..]),
                  if frame.Data? then [frame.payload] else []);
    }
  }

  lemma Slices<T>(items: seq<T>, from: nat, to: nat)
    requires from <= to <= |items|
    ensures from < to ==> items[from..to][0] == items[from] && items[from..to][1..] == items[from + 1..to]
    ensures to < |items| ==> items[from..to + 1] == items[from..to] + [items[to]]
  {
  }

  /** The head of the agent's queue, when it is data, is the next chunk. */
  lemma NextChunk(s: System)
    requires Counted(s) && WireInv(s) && s.agentUp && s.toAgent != []
    ensures s.toAgent[0].Data? ==>
      s.received < s.sent && s.toAgent[0].payload == s.chunks[s.received] &&
      Payloads(s.toAgent[1..]) == s.chunks[s.received + 1..s.sent]
    ensures !s.toAgent[0].Data? ==> Payloads(s.toAgent[1..]) == s.chunks[s.received..s.sent]
  {
    PayloadsHead(s.toAgent);
    Slices(s.chunks, s.received, s.sent);
  }

  lemma WriterSends(w: Writer)
    requires WriterCanContinue(w)
    ensures var sent := WriterContinues(w).sent;
      |sent| <= 1 &&
      (sent != [] && sent[0].Data? ==> Holding(w.phase) && sent[0].payload == w.phase.chunk && w.open && !w.failure) &&
      (sent != [] && !sent[0].Data? ==> sent[0] == End && w.phase.FinalAwaitingReady? && w.open && !w.failure)
  {
  }

  /** Frames move a held chunk from parked to woken and nothing else. */
  lemma WriterHandlesKeepsChunk(w: Writer, frame: Frame)
    requires WriterInv(w)
    ensures var v := WriterHandles(w, frame);
      Holding(v.phase) == Holding(w.phase) && (Holding(w.phase) ==> v.phase.chunk == w.phase.chunk) &&
      (v.phase.FinalAwaitingReady? || Finishing(v.phase) ==> w.phase.FinalAwaitingReady? || Finishing(w.phase)) &&
      (v.phase.Failed? || w.phase.Failed? ==> w.phase.Failed? || w.phase.Idle?) &&
      (v.ready == Unanswered ==> w.ready == Unanswered)
  {
  }

  lemma WriterRunsKeepsWire(s: System)
    requires ChunkInv(s) && ReplyInv(s) && WireInv(s) && Enabled(s, WriterRuns)
    requires Counted(WriterRan(s))
    ensures WireInv(WriterRan(s))
  {
    WriterSends(s.writer);
    var sent := WriterContinues(s.writer).sent;
    Slices(s.chunks, s.received, s.sent);
    if sent == [] {
      assert s.toAgent + sent == s.toAgent;
    } else {
      assert sent == [sent[0]];
      PayloadsAppend(s.toAgent, sent[0]);
    }
  }

  /** All of `owed` is granted back in one frame, or all of it stays owed. */
  predicate Granted(owed: nat, effect: Effect)
    requires effect.state.Writing?
  {
    if effect.sent == [] then effect.state.sinceCredit == owed
    else owed > 0 && effect.sent == [Credit(owed)] && effect.state.sinceCredit == 0
  }

  /** The agent's answer to data grants back exactly what it has not yet. */
  lemma WrittenAccounts(stream: StreamState, payload: Bytes, highWater: nat)
    requires stream.Writing? && Disciplined(stream) && stream.awaitingDrain == stream.sink.needDrain && !stream.ending
    ensures var effect := Written(stream, payload, highWater);
      effect.state.Writing? && Disciplined(effect.state) && effect.state.awaitingDrain == effect.state.sink.needDrain &&
      !effect.state.ending &&
      effect.state.sink.disk == stream.sink.disk && effect.state.sink.buffered == stream.sink.buffered + payload &&
      Granted(stream.sinceCredit + |payload|, effect)
  {
  }

  lemma DrainedAccounts(stream: StreamState)
    requires DrainDue(stream) && Disciplined(stream) && stream.awaitingDrain == stream.sink.needDrain
    ensures var effect := Drained(stream);
      effect.state.Writing? && Disciplined(effect.state) && effect.state.awaitingDrain == effect.state.sink.needDrain &&
      effect.state.ending == stream.ending &&
      effect.state.sink.disk == stream.sink.disk && effect.state.sink.buffered == stream.sink.buffered &&
      Granted(stream.sinceCredit, effect)
  {
  }

  lemma GatewayReceivesKeepsReply(s: System)
    requires WriterInv(s.writer) && ToGatewayInv(s) && ReplyInv(s) && LeakInv(s) && Enabled(s, GatewayReceives)
    ensures ReplyInv(GatewayReceived(s))
  {
    assert FromAgent(s.toGateway[0]);
  }

  /** Only an accepted and open stream is written to. */
  lemma WriterSendsAfterReply(w: Writer)
    requires WriterInv(w) && WriterCanContinue(w)
    ensures WriterContinues(w).sent != [] ==> w.open && w.ready == Accepted
  {
  }

  lemma WriterRunsKeepsToAgent(s: System)
    requires WriterInv(s.writer) && ChunkInv(s) && ReplyInv(s) && ToAgentInv(s) && LeakInv(s) && Enabled(s, WriterRuns)
    ensures ToAgentInv(WriterRan(s))
  {
    WriterSends(s.writer);
    WriterSendsAfterReply(s.writer);
    var sent := WriterContinues(s.writer).sent;
    if sent == [] {
      assert s.toAgent + sent == s.toAgent;
    } else {
      assert sent == [sent[0]];
    }
  }

  lemma TimeoutKeepsLeak(s: System)
    requires WriterInv(s.writer) && ChunkInv(s) && ToAgentInv(s) && WireInv(s) && AgentInv(s) && EndInv(s) && ReplyInv(s)
    requires LeakInv(s) && Enabled(s, RequestTimesOut)
    ensures LeakInv(RequestTimedOut(s))
  {
    if s.agentUp {
      NoPayloads(s.toAgent);
    }
  }

  lemma {:induction false} NoPayloads(queue: seq<Frame>)
    ensures Payloads(queue) == [] <==> forall i :: 0 <= i < |queue| ==> !queue[i].Data?
  {
    if queue != [] {
      NoPayloads(queue[1..]);
      PayloadsHead(queue);
      assert forall i :: 1 <= i < |queue| ==> queue[i] == queue[1..][i - 1];
      assert (forall i :: 0 <= i < |queue| ==> !queue[i].Data?) ==>
        (forall i :: 0 <= i < |queue[1..]| ==> queue[1..][i] == queue[i + 1]);
    }
  }

  /** Only a reply answers, and only the first frame can be one. */
  lemma OnlyRepliesAnswer(w: Writer, frame: Frame)
    ensures !IsReply(frame) ==> WriterHandles(w, frame).ready == w.ready
    ensures IsReply(frame) ==> WriterHandles(w, frame).ready != Unanswered
  {
  }

  lemma GatewayReceivesKeepsQueue(s: System)
    requires WriterInv(s.writer) && ToGatewayInv(s) && Enabled(s, GatewayReceives)
    ensures ToGatewayInv(GatewayReceived(s))
  {
    OnlyRepliesAnswer(s.writer, s.toGateway[0]);
  }

  lemma CreditAppended(s: System, t: System, sent: seq<Frame>)
    requires ToGatewayInv(s) && s.agent.Active? && t.agent.Active?
    requires t.writer == s.writer && t.gatewayUp == s.gatewayUp && t.timedOut == s.timedOut
    requires t.toGateway == s.toGateway + sent
    requires s.writer.ready == Unanswered ==> s.toGateway != []
    requires |sent| <= 1 && (sent != [] ==> FromAgent(sent[0]) && sent[0].Credit?)
    ensures ToGatewayInv(t)
  {
  }

  lemma DiskDrainsKeepsQueue(s: System)
    requires ToGatewayInv(s) && ReplyInv(s) && Counted(s) && AgentInv(s) && OwedBounded(s) && Enabled(s, DiskDrains)
    ensures ToGatewayInv(DiskDrained(s))
  {
    DrainedAccounts(s.agent.stream);
    if s.agentUp {
      CreditAppended(s, DiskDrained(s), Drained(s.agent.stream).sent);
    }
  }

  /** One more chunk received. */
  lemma FlatTo(chunks: seq<Bytes>, n: nat)
    requires n <= |chunks|
    ensures n < |chunks| ==> Flat(chunks[..n + 1]) == Flat(chunks[..n]) + chunks[n]
    ensures n == |chunks| ==> chunks[..n] == chunks
  {
    if n < |chunks| {
      assert chunks[..n + 1] == chunks[..n] + [chunks[n]];
      FlatAppend(chunks[..n], chunks[n]);
    }
  }

  lemma GatewayReceivesKeepsEnd(s: System)
    requires WriterInv(s.writer) && ToGatewayInv(s) && EndInv(s) && Enabled(s, GatewayReceives)
    ensures EndInv(GatewayReceived(s))
  {
    match s.toGateway[0] {
      case End =>
      case StreamError =>
      case RpcErr =>
      case _ =>
    }
  }

  lemma DiskFinishesKeepsEnd(s: System)
    requires ChunkInv(s) && ToGatewayInv(s) && WriterInv(s.writer) && AgentInv(s) && EndInv(s) && Enabled(s, DiskFinishes)
    ensures EndInv(DiskFinished(s))
  {
    FlatTo(s.chunks, s.received);
  }

  lemma WriterRunsKeepsEnd(s: System)
    requires WriterInv(s.writer) && ChunkInv(s) && ReplyInv(s) && ToAgentInv(s) && EndInv(s) && Enabled(s, WriterRuns)
    ensures EndInv(WriterRan(s))
  {
    WriterSends(s.writer);
  }

  lemma HeadAccounts(queue: seq<Frame>)
    requires queue != []
    ensures |DataOf(queue)| == (if queue[0].Data? then |queue[0].payload| else 0) + |DataOf(queue[1..])|
    ensures CreditOf(queue) == (if queue[0].Credit? then queue[0].bytes else 0) + CreditOf(queue[1..])
  {
  }

  lemma EmptyAppend(queue: seq<Frame>, sent: seq<Frame>)
    requires sent == []
    ensures queue + sent == queue
  {
  }

  /** Credit held by the gateway, and what the chunk it sends takes from it. */
  lemma WriterRunsAccounts(s: System)
    requires WriterInv(s.writer) && ReplyInv(s) && Enabled(s, WriterRuns)
    ensures var t := WriterRan(s);
      t.agent == s.agent && t.toGateway == s.toGateway && t.agentUp == s.agentUp &&
      (t.writer.open ==> s.writer.open) &&
      t.writer.credit + |DataOf(t.toAgent)| == s.writer.credit + |DataOf(s.toAgent)| &&
      (|DataOf(t.toAgent)| != |DataOf(s.toAgent)| ==> s.writer.open)
  {
    WriterSends(s.writer);
    WriterSendsAfterReply(s.writer);
    var sent := WriterContinues(s.writer).sent;
    if sent == [] {
      EmptyAppend(s.toAgent, sent);
    } else {
      assert sent == [sent[0]];
      AppendAccounts(s.toAgent, sent[0]);
    }
  }

  /** An agent step that answers with at most one grant. */
  lemma GrantAccounts(s: System, owed: nat, effect: Effect)
    requires effect.state.Writing? && Granted(owed, effect)
    ensures effect.state.sinceCredit + CreditOf(s.toGateway + effect.sent) == owed + CreditOf(s.toGateway)
    ensures effect.state.sinceCredit <= owed
  {
    if effect.sent == [] {
      EmptyAppend(s.toGateway, effect.sent);
    } else {
      AppendAccounts(s.toGateway, Credit(owed));
    }
  }

  lemma DiskDrainsAccounts(s: System)
    requires Counted(s) && AgentInv(s) && Enabled(s, DiskDrains)
    ensures var t := DiskDrained(s);
      t.writer == s.writer && t.toAgent == s.toAgent &&
      (s.agentUp ==> SinceCredit(t.agent) + CreditOf(t.toGateway) == SinceCredit(s.agent) + CreditOf(s.toGateway)) &&
      SinceCredit(t.agent) <= SinceCredit(s.agent)
  {
    DrainedAccounts(s.agent.stream);
    GrantAccounts(s, s.agent.stream.sinceCredit, Drained(s.agent.stream));
  }

  lemma GatewayReceivesAccounts(s: System)
    requires ToGatewayInv(s) && Enabled(s, GatewayReceives)
    ensures var t := GatewayReceived(s);
      t.agent == s.agent && t.toAgent == s.toAgent &&
      (t.writer.open ==> s.writer.open && t.writer.credit + CreditOf(t.toGateway) == s.writer.credit + CreditOf(s.toGateway))
  {
    HeadAccounts(s.toGateway);
  }

  lemma SourceWroteKeepsInv(s: System)
    requires Inv(s) && Enabled(s, SourceWrites)
    ensures Inv(SourceWrote(s))
  {
  }

  lemma SourceEndedKeepsInv(s: System)
    requires Inv(s) && Enabled(s, SourceEnds)
    ensures Inv(SourceEnded(s))
  {
  }

  lemma WriterRunsKeepsTheChunk(s: System)
    requires WriterInv(s.writer) && ChunkInv(s) && Enabled(s, WriterRuns)
    ensures ChunkInv(WriterRan(s))
  {
    WriterSends(s.writer);
  }

  lemma WriterRunsKeepsFail(s: System)
    requires WriterInv(s.writer) && FailInv(s) && Enabled(s, WriterRuns)
    ensures FailInv(WriterRan(s))
  {
  }

  lemma WriterRunsKeepsChunk(s: System)
    requires WriterInv(s.writer) && ChunkInv(s) && FailInv(s) && Enabled(s, WriterRuns)
    ensures WriterInv(WriterRan(s).writer) && ChunkInv(WriterRan(s)) && FailInv(WriterRan(s))
  {
    WriterRunsKeepsInv(s.writer);
    WriterRunsKeepsTheChunk(s);
    WriterRunsKeepsFail(s);
  }
  lemma WriterRunsKeepsReplies(s: System)
    requires WriterInv(s.writer) && ToGatewayInv(s) && ReplyInv(s) && Enabled(s, WriterRuns)
    ensures ToGatewayInv(WriterRan(s)) && ReplyInv(WriterRan(s))
  {
  }

  lemma WriterRunsKeepsAgent(s: System)
    requires WriterInv(s.writer) && ChunkInv(s) && ToAgentInv(s) && AgentInv(s) && LeakInv(s) && Enabled(s, WriterRuns)
    ensures Counted(WriterRan(s)) && AgentInv(WriterRan(s)) && LeakInv(WriterRan(s))
  {
    WriterSends(s.writer);
  }

  lemma WriterRunsKeepsCredit(s: System)
    requires WriterInv(s.writer) && ReplyInv(s) && ToGatewayInv(s) && CreditConserved(s) && OwedBounded(s)
    requires Enabled(s, WriterRuns)
    ensures CreditConserved(WriterRan(s)) && OwedBounded(WriterRan(s))
  {
    WriterRunsKeepsInv(s.writer);
    WriterRunsAccounts(s);
    CreditOfIsNat(s.toGateway);
  }

  lemma WriterRanKeepsInv(s: System)
    requires Inv(s) && Enabled(s, WriterRuns)
    ensures Inv(WriterRan(s))
  {
    WriterRunsKeepsChunk(s);
    WriterRunsKeepsReplies(s);
    WriterRunsKeepsAgent(s);
    WriterRunsKeepsWire(s);
    WriterRunsKeepsToAgent(s);
    WriterRunsKeepsEnd(s);
    WriterRunsKeepsCredit(s);
  }

  lemma ChunkKeepsQueues(s: System, highWater: nat)
    requires Inv(s) && Enabled(s, AgentReceives) && s.toAgent[0].Data? && s.agent.Active? && s.agent.stream.Writing?
    ensures ToGatewayInv(ChunkWritten(s, highWater)) && ReplyInv(ChunkWritten(s, highWater))
  {
    var effect := Written(s.agent.stream, s.toAgent[0].payload, highWater);
    HeadAccounts(s.toAgent);
    WrittenAccounts(s.agent.stream, s.toAgent[0].payload, highWater);
    if effect.sent == [] {
      EmptyAppend(s.toGateway, effect.sent);
    }
    CreditAppended(s, ChunkWritten(s, highWater), effect.sent);
  }

  lemma ChunkKeepsWire(s: System, highWater: nat)
    requires Counted(s) && WireInv(s) && ToAgentInv(s) && Enabled(s, AgentReceives) && !TooLarge(s)
    requires s.toAgent[0].Data? && s.agent.Active? && s.agent.stream.Writing?
    ensures Counted(ChunkWritten(s, highWater)) && WireInv(ChunkWritten(s, highWater))
    ensures ToAgentInv(ChunkWritten(s, highWater))
  {
    NextChunk(s);
  }

  lemma ChunkKeepsAgent(s: System, highWater: nat)
    requires Counted(s) && WireInv(s) && AgentInv(s) && Enabled(s, AgentReceives) && !TooLarge(s)
    requires s.toAgent[0].Data? && s.agent.Active? && s.agent.stream.Writing?
    ensures Counted(ChunkWritten(s, highWater)) && AgentInv(ChunkWritten(s, highWater))
  {
    var payload := s.toAgent[0].payload;
    NextChunk(s);
    FlatTo(s.chunks, s.received);
    WrittenAccounts(s.agent.stream, payload, highWater);
    Associative(s.agent.stream.sink.disk, s.agent.stream.sink.buffered, payload);
  }

  lemma ChunkKeepsEnd(s: System, highWater: nat)
    requires Counted(s) && WireInv(s) && AgentInv(s) && EndInv(s) && Enabled(s, AgentReceives) && !TooLarge(s)
    requires s.toAgent[0].Data? && s.agent.Active? && s.agent.stream.Writing?
    ensures EndInv(ChunkWritten(s, highWater))
  {
    WrittenAccounts(s.agent.stream, s.toAgent[0].payload, highWater);
  }

  lemma ChunkAccounts(s: System, highWater: nat)
    requires Counted(s) && AgentInv(s) && Enabled(s, AgentReceives)
    requires s.toAgent[0].Data? && s.agent.Active? && s.agent.stream.Writing?
    ensures var t := ChunkWritten(s, highWater);
      |DataOf(t.toAgent)| + SinceCredit(t.agent) + CreditOf(t.toGateway)
        == |DataOf(s.toAgent)| + SinceCredit(s.agent) + CreditOf(s.toGateway) &&
      |DataOf(t.toAgent)| + SinceCredit(t.agent) <= |DataOf(s.toAgent)| + SinceCredit(s.agent)
  {
    var payload := s.toAgent[0].payload;
    HeadAccounts(s.toAgent);
    WrittenAccounts(s.agent.stream, payload, highWater);
    GrantAccounts(s, s.agent.stream.sinceCredit + |payload|, Written(s.agent.stream, payload, highWater));
  }

  /** What is left of the invariant once the parts above are known. */
  lemma ChunkWrittenKeepsInv(s: System, highWater: nat)
    requires Inv(s) && Enabled(s, AgentReceives) && !TooLarge(s)
    requires s.toAgent[0].Data? && s.agent.Active? && s.agent.stream.Writing?
    ensures Inv(ChunkWritten(s, highWater))
  {
    ChunkKeepsQueues(s, highWater);
    ChunkKeepsWire(s, highWater);
    ChunkKeepsAgent(s, highWater);
    ChunkKeepsEnd(s, highWater);
    ChunkAccounts(s, highWater);
  }

  lemma ChunkIgnoredKeepsInv(s: System)
    requires Inv(s) && Enabled(s, AgentReceives) && !TooLarge(s) && s.toAgent[0].Data? && !s.agent.Active?
    ensures Inv(ChunkIgnored(s))
  {
    NextChunk(s);
    FlatTo(s.chunks, s.received);
    HeadAccounts(s.toAgent);
  }

  lemma ControlHandledKeepsInv(s: System)
    requires Inv(s) && Enabled(s, AgentReceives) && !s.toAgent[0].Data?
    ensures Inv(ControlHandled(s))
  {
    NextChunk(s);
    HeadAccounts(s.toAgent);
    if s.toAgent[0] == End {
      assert s.toAgent[1..] == [];
    }
  }

  lemma AgentReceivedKeepsInv(s: System, highWater: nat)
    requires Inv(s) && Enabled(s, AgentReceives)
    ensures Inv(AgentReceived(s, highWater))
  {
    if TooLarge(s) {
      AgentLostKeepsInv(s);
    } else if !s.toAgent[0].Data? {
      ControlHandledKeepsInv(s);
    } else if s.agent.Active? {
      ChunkWrittenKeepsInv(s, highWater);
    } else {
      ChunkIgnoredKeepsInv(s);
    }
  }

  lemma FileOpenedKeepsQueues(s: System)
    requires ToGatewayInv(s) && ReplyInv(s) && ToAgentInv(s) && Counted(s) && WireInv(s) && Enabled(s, OpenSucceeds)
    ensures var t := FileOpened(s); ToGatewayInv(t) && ReplyInv(t) && ToAgentInv(t) && WireInv(t)
  {
  }

  lemma FileOpenedKeepsRest(s: System)
    requires WriterInv(s.writer) && ChunkInv(s) && ToGatewayInv(s) && ReplyInv(s) && AgentInv(s) && EndInv(s)
    requires FailInv(s) && LeakInv(s) && Enabled(s, OpenSucceeds)
    ensures var t := FileOpened(s);
      WriterInv(t.writer) && ChunkInv(t) && AgentInv(t) && EndInv(t) && FailInv(t) && LeakInv(t)
  {
  }

  lemma FileOpenedKeepsInv(s: System)
    requires Inv(s) && Enabled(s, OpenSucceeds)
    ensures Inv(FileOpened(s))
  {
    FileOpenedKeepsQueues(s);
    FileOpenedKeepsRest(s);
    AppendAccounts(s.toGateway, RpcOk);
  }

  lemma FileRefusedKeepsInv(s: System)
    requires Inv(s) && Enabled(s, OpenFails)
    ensures Inv(FileRefused(s))
  {
  }

  lemma DiskTookKeepsInv(s: System, k: nat)
    requires Inv(s) && Enabled(s, DiskTakes(k))
    ensures Inv(DiskTook(s, k))
  {
    var sink := s.agent.stream.sink;
    assert sink.buffered == sink.buffered[..k] + sink.buffered[k..];
    Associative(sink.disk, sink.buffered[..k], sink.buffered[k..]);
  }

  lemma DiskDrainedKeepsInv(s: System)
    requires Inv(s) && Enabled(s, DiskDrains)
    ensures Inv(DiskDrained(s))
  {
    DrainedAccounts(s.agent.stream);
    DiskDrainsKeepsQueue(s);
    DiskDrainsAccounts(s);
  }

  lemma DiskFinishedKeepsInv(s: System)
    requires Inv(s) && Enabled(s, DiskFinishes)
    ensures Inv(DiskFinished(s))
  {
    DiskFinishesKeepsEnd(s);
  }

  lemma DiskFailedKeepsQueues(s: System)
    requires ToGatewayInv(s) && ReplyInv(s) && ToAgentInv(s) && Counted(s) && WireInv(s) && Enabled(s, DiskFails)
    ensures var t := DiskFailed(s); ToGatewayInv(t) && ReplyInv(t) && ToAgentInv(t) && WireInv(t)
  {
  }

  lemma DiskFailedKeepsInv(s: System)
    requires Inv(s) && Enabled(s, DiskFails)
    ensures Inv(DiskFailed(s))
  {
    DiskFailedKeepsQueues(s);
  }

  lemma GatewayReceivesKeepsChunk(s: System)
    requires WriterInv(s.writer) && ChunkInv(s) && ToGatewayInv(s) && EndInv(s) && FailInv(s) && Enabled(s, GatewayReceives)
    ensures WriterInv(GatewayReceived(s).writer) && ChunkInv(GatewayReceived(s)) && FailInv(GatewayReceived(s))
  {
    WriterHandlesKeepsInv(s.writer, s.toGateway[0]);
    WriterHandlesKeepsChunk(s.writer, s.toGateway[0]);
  }

  lemma GatewayReceivesKeepsAgent(s: System)
    requires WriterInv(s.writer) && Counted(s) && ToGatewayInv(s) && ToAgentInv(s) && WireInv(s) && AgentInv(s)
    requires LeakInv(s) && Enabled(s, GatewayReceives)
    ensures var t := GatewayReceived(s); Counted(t) && ToAgentInv(t) && WireInv(t) && AgentInv(t) && LeakInv(t)
  {
    WriterHandlesKeepsChunk(s.writer, s.toGateway[0]);
  }

  lemma GatewayReceivesKeepsCredit(s: System)
    requires ToGatewayInv(s) && CreditConserved(s) && OwedBounded(s) && Enabled(s, GatewayReceives)
    ensures CreditConserved(GatewayReceived(s)) && OwedBounded(GatewayReceived(s))
  {
    GatewayReceivesAccounts(s);
  }

  lemma GatewayReceivedKeepsInv(s: System)
    requires Inv(s) && Enabled(s, GatewayReceives)
    ensures Inv(GatewayReceived(s))
  {
    GatewayReceivesKeepsChunk(s);
    GatewayReceivesKeepsReply(s);
    GatewayReceivesKeepsQueue(s);
    GatewayReceivesKeepsAgent(s);
    GatewayReceivesKeepsEnd(s);
    GatewayReceivesKeepsCredit(s);
  }

  lemma RequestTimedOutKeepsInv(s: System)
    requires Inv(s) && Enabled(s, RequestTimesOut)
    ensures Inv(RequestTimedOut(s))
  {
    TimeoutKeepsLeak(s);
  }

  lemma AgentLostKeepsQueues(s: System)
    requires ToGatewayInv(s) && ReplyInv(s) && ToAgentInv(s) && FailInv(s) && LeakInv(s) && Enabled(s, AgentLosesTunnel)
    ensures var t := AgentLost(s); ToGatewayInv(t) && ReplyInv(t) && ToAgentInv(t) && FailInv(t) && LeakInv(t)
  {
  }

  lemma AgentLostKeepsFile(s: System)
    requires ChunkInv(s) && WireInv(s) && AgentInv(s) && EndInv(s) && Enabled(s, AgentLosesTunnel)
    ensures var t := AgentLost(s); ChunkInv(t) && WireInv(t) && AgentInv(t) && EndInv(t)
  {
  }

  lemma AgentLostKeepsInv(s: System)
    requires Inv(s) && Enabled(s, AgentLosesTunnel)
    ensures Inv(AgentLost(s))
  {
    AgentLostKeepsQueues(s);
    AgentLostKeepsFile(s);
  }

  lemma WriterLostKeepsInv(w: Writer)
    requires WriterInv(w)
    ensures var v := WriterLost(w);
      WriterInv(v) && !v.open && v.ready != Unanswered && Holding(v.phase) == Holding(w.phase) &&
      (Holding(w.phase) ==> v.phase.chunk == w.phase.chunk) && v.phase.FinalAwaitingReady? == w.phase.FinalAwaitingReady? &&
      (Finishing(v.phase) <==> Finishing(w.phase)) && (w.phase.Failed? ==> v.phase.Failed?) &&
      (v.phase.Failed? ==> w.phase.Failed? || w.phase.Idle?)
  {
  }

  lemma GatewayLostKeepsInv(s: System)
    requires Inv(s) && Enabled(s, GatewayLosesTunnel)
    ensures Inv(GatewayLost(s))
  {
    WriterLostKeepsInv(s.writer);
  }

  lemma StepKeepsChunks(s: System, e: Event, highWater: nat)
    requires Enabled(s, e)
    ensures Step(s, e, highWater).chunks == s.chunks
  {
    match e {
      case WriterRuns => assert WriterRan(s).chunks == s.chunks;
      case AgentReceives => assert AgentReceived(s, highWater).chunks == s.chunks;
      case _ =>
    }
  }

  predicate AtGateway(e: Event) {
    e.SourceWrites? || e.SourceEnds? || e.WriterRuns? || e.GatewayReceives? || e.RequestTimesOut? || e.GatewayLosesTunnel?
  }

  lemma GatewayEventKeepsInv(s: System, e: Event, highWater: nat)
    requires Inv(s) && Enabled(s, e) && AtGateway(e)
    ensures Inv(Step(s, e, highWater))
  {
    match e {
      case SourceWrites => SourceWroteKeepsInv(s);
      case SourceEnds => SourceEndedKeepsInv(s);
      case WriterRuns => WriterRanKeepsInv(s);
      case GatewayReceives => GatewayReceivedKeepsInv(s);
      case RequestTimesOut => RequestTimedOutKeepsInv(s);
      case GatewayLosesTunnel => GatewayLostKeepsInv(s);
    }
  }

  lemma AgentEventKeepsInv(s: System, e: Event, highWater: nat)
    requires Inv(s) && Enabled(s, e) && !AtGateway(e)
    ensures Inv(Step(s, e, highWater))
  {
    match e {
      case AgentReceives => AgentReceivedKeepsInv(s, highWater);
      case OpenSucceeds => FileOpenedKeepsInv(s);
      case OpenFails => FileRefusedKeepsInv(s);
      case DiskTakes(k) => DiskTookKeepsInv(s, k);
      case DiskDrains => DiskDrainedKeepsInv(s);
      case DiskFinishes => DiskFinishedKeepsInv(s);
      case DiskFails => DiskFailedKeepsInv(s);
      case AgentLosesTunnel => AgentLostKeepsInv(s);
    }
  }

  /** Every event of both ends keeps the invariant. */
  lemma StepKeepsInv(s: System, e: Event, highWater: nat)
    requires Inv(s) && Enabled(s, e)
    ensures Inv(Step(s, e, highWater)) && Step(s, e, highWater).chunks == s.chunks
  {
    StepKeepsChunks(s, e, highWater);
    if AtGateway(e) { GatewayEventKeepsInv(s, e, highWater); } else { AgentEventKeepsInv(s, e, highWater); }
  }

  lemma InitInv(chunks: seq<Bytes>)
    requires Framed(chunks)
    ensures Inv(Init(chunks))
  {
    HeadAccounts([OpenWrite]);
    PayloadsHead([OpenWrite]);
  }

  /** Every state of every run satisfies the invariant. */
  lemma {:induction false} RunKeepsInv(s: System, events: seq<Event>, t: System, highWater: nat)
    requires Inv(s) && Runs(s, events, t, highWater)
    ensures Inv(t) && t.chunks == s.chunks
    decreases |events|
  {
    if events != [] {
      var e := events[0];
      StepKeepsInv(s, e, highWater);
      RunKeepsInv(Step(s, e, highWater), events[1..], t, highWater);
    }
  }

  lemma Reached(chunks: seq<Bytes>, events: seq<Event>, s: System, highWater: nat)
    requires Framed(chunks) && Runs(Init(chunks), events, s, highWater)
    ensures Inv(s) && s.chunks == chunks
  {
    InitInv(chunks);
    RunKeepsInv(Init(chunks), events, s, highWater);
  }

  /* -------------------------------- main results ------------------------------- */

  /** While the stream is open at both ends the window is conserved; and every
      credit frame ever sent fits the schema, so none closes the connection. */
  lemma CreditIsConserved(chunks: seq<Bytes>, events: seq<Event>, s: System, highWater: nat)
    requires Framed(chunks) && Runs(Init(chunks), events, s, highWater)
    ensures CreditConserved(s) && OwedBounded(s)
    ensures forall f <- s.toGateway :: CreditInSchema(f)
  {
    Reached(chunks, events, s, highWater);
  }

  /** A parked writer will be woken: at least the whole window is still to come as
      credit, in data the agent has not handled, in bytes it has not credited, whose
      drain handler is registered, or in credit frames; or else a farewell is. */
  lemma NoLostWakeup(chunks: seq<Bytes>, events: seq<Event>, s: System, highWater: nat)
    requires Framed(chunks) && Runs(Init(chunks), events, s, highWater)
    requires s.writer.phase.Parked? && s.agentUp
    ensures s.writer.credit <= 0
    ensures !s.agent.Gone? ==>
      |DataOf(s.toAgent)| + SinceCredit(s.agent) + CreditOf(s.toGateway) >= STREAM_WINDOW_BYTES
    ensures SinceCredit(s.agent) > 0 ==> s.agent.stream.awaitingDrain
    ensures s.agent.Gone? ==> s.toGateway != [] && Farewell(s.toGateway[|s.toGateway| - 1])
  {
    Reached(chunks, events, s, highWater);
  }

  /** Whoever writes learns of a failure: nothing waits on for a stream that has failed,
      and one that had been accepted fails at once when nothing is being written. */
  lemma FailureIsTold(chunks: seq<Bytes>, events: seq<Event>, s: System, highWater: nat)
    requires Framed(chunks) && Runs(Init(chunks), events, s, highWater) && s.writer.failure
    ensures s.writer.ready == Accepted ==> !s.writer.phase.Idle?
    ensures s.writer.phase.Failed? || WriterCanContinue(s.writer) || s.writer.ready == Rejected
    ensures WriterCanContinue(s.writer) ==> WriterContinues(s.writer) == WriterEffect(s.writer.(phase := Failed), [])
  {
    Reached(chunks, events, s, highWater);
  }

  /** `_final` succeeds only when the agent's file is exactly what was written,
      in every run, whatever fails. */
  lemma UploadIsIntact(chunks: seq<Bytes>, events: seq<Event>, s: System, highWater: nat)
    requires Framed(chunks) && Runs(Init(chunks), events, s, highWater)
    ensures OnDisk(s.agent) <= Flat(chunks)
    ensures s.writer.phase.Succeeded? ==> s.agent == Gone(Flat(chunks))
  {
    Reached(chunks, events, s, highWater);
    FlatPrefix(chunks, s.received);
    if s.agent.Active? {
      assert s.agent.stream.sink.disk <= Flat(chunks[..s.received]);
    }
  }

  lemma FlatPrefix(chunks: seq<Bytes>, n: nat)
    requires n <= |chunks|
    ensures Flat(chunks[..n]) <= Flat(chunks)
  {
    assert chunks == chunks[..n] + chunks[n..];
    FlatConcat(chunks[..n], chunks[n..]);
  }

  /* ----------------------------- every upload finishes ------------------------- */

  function FrameWeight(frame: Frame): nat {
    match frame
    case Data(payload) => 2 * |payload| + 2
    case Credit(bytes) => if bytes > 0 then bytes else 0
    case _ => 1
  }

  function QueueWeight(queue: seq<Frame>): nat {
    if queue == [] then 0 else FrameWeight(queue[0]) + QueueWeight(queue[1..])
  }

  function SentWeight(frames: seq<Frame>): nat {
    if frames == [] then 0 else FrameWeight(frames[0])
  }

  lemma {:induction false} QueueWeightAppend(queue: seq<Frame>, sent: seq<Frame>)
    requires |sent| <= 1
    ensures QueueWeight(queue + sent) == QueueWeight(queue) + SentWeight(sent)
  {
    if queue == [] {
      assert queue + sent == sent;
    } else {
      assert (queue + sent)[1..] == queue[1..] + sent;
      QueueWeightAppend(queue[1..], sent);
    }
  }

  function WriterWeight(w: Writer): nat {
    PhaseWeight(w.phase) + if w.ready == Unanswered then 1 else 0
  }

  function PhaseWeight(phase: Phase): nat {
    match phase
    case Idle => 5
    case AwaitingReady(chunk) => 2 * |chunk| + 10
    case Parked(chunk) => 2 * |chunk| + 9
    case Woken(chunk) => 2 * |chunk| + 8
    case FinalAwaitingReady => 4
    case AwaitingDone => 2
    case DoneWoken => 1
    case _ => 0
  }

  function AgentWeight(agent: Agent): nat {
    match agent
    case Waiting => 6
    case Opening => 4
    case Active(stream) =>
      if stream.Writing? then 2 + |stream.sink.buffered| + stream.sinceCredit + (if stream.sink.needDrain then 1 else 0) else 2
    case Gone(_) => 0
  }

  /** Chunks not yet given to `_write`. */
  function TodoWeight(s: System): nat
    requires s.taken <= |s.chunks|
  {
    2 * Size(s.chunks[s.taken..]) + 6 * (|s.chunks| - s.taken)
  }

  function Measure(s: System): nat
    requires s.taken <= |s.chunks|
  {
    TodoWeight(s) + WriterWeight(s.writer) + AgentWeight(s.agent) + QueueWeight(s.toAgent) + QueueWeight(s.toGateway)
    + (if s.agentUp then 1 else 0) + (if s.gatewayUp then 1 else 0)
  }

  lemma WriterHandlesDecreases(w: Writer, frame: Frame)
    requires FromAgent(frame)
    ensures WriterWeight(WriterHandles(w, frame)) < WriterWeight(w) + FrameWeight(frame)
  {
  }

  lemma WriterRunsDecreases(w: Writer)
    requires WriterCanContinue(w)
    ensures |WriterContinues(w).sent| <= 1
    ensures WriterWeight(WriterContinues(w).writer) + SentWeight(WriterContinues(w).sent) < WriterWeight(w)
  {
  }

  lemma DataDecreases(stream: StreamState, payload: Bytes, highWater: nat)
    requires stream.Writing? && Disciplined(stream) && stream.awaitingDrain == stream.sink.needDrain && !stream.ending
    ensures var effect := Written(stream, payload, highWater);
      |effect.sent| <= 1 &&
      AgentWeight(Active(effect.state)) + SentWeight(effect.sent) < AgentWeight(Active(stream)) + FrameWeight(Data(payload))
  {
    WrittenAccounts(stream, payload, highWater);
  }

  lemma ChunkWrittenDecreases(s: System, highWater: nat)
    requires Counted(s) && AgentInv(s) && s.toAgent != [] && s.toAgent[0].Data? && s.agent.Active? && s.agentUp
    ensures Measure(ChunkWritten(s, highWater)) < Measure(s)
  {
    assert !s.agent.stream.ending;
    DataDecreases(s.agent.stream, s.toAgent[0].payload, highWater);
    QueueWeightAppend(s.toGateway, Written(s.agent.stream, s.toAgent[0].payload, highWater).sent);
  }

  lemma AgentLostDecreases(s: System)
    requires ChunkInv(s) && s.agentUp
    ensures Measure(AgentLost(s)) < Measure(s)
  {
  }

  lemma ControlHandledDecreases(s: System)
    requires ChunkInv(s) && s.toAgent != [] && !s.toAgent[0].Data? && !s.toAgent[0].Credit?
    ensures Measure(ControlHandled(s)) < Measure(s)
  {
    assert AgentWeight(AgentHandles(s.agent, s.toAgent[0])) <= AgentWeight(s.agent);
  }

  lemma ChunkIgnoredDecreases(s: System)
    requires ChunkInv(s) && s.toAgent != [] && s.toAgent[0].Data?
    ensures Measure(ChunkIgnored(s)) < Measure(s)
  {
  }

  lemma AgentReceivesDecreases(s: System, highWater: nat)
    requires ChunkInv(s) && ToAgentInv(s) && AgentInv(s) && Enabled(s, AgentReceives)
    ensures Measure(AgentReceived(s, highWater)) < Measure(s)
  {
    if TooLarge(s) {
      AgentLostDecreases(s);
    } else if !s.toAgent[0].Data? {
      ControlHandledDecreases(s);
    } else if s.agent.Active? {
      ChunkWrittenDecreases(s, highWater);
    } else {
      ChunkIgnoredDecreases(s);
    }
  }

  lemma SourceWritesDecreases(s: System)
    requires ChunkInv(s) && Enabled(s, SourceWrites)
    ensures Measure(SourceWrote(s)) < Measure(s)
  {
    assert s.chunks[s.taken..][1..] == s.chunks[s.taken + 1..];
  }

  lemma DiskDrainsDecreases(s: System)
    requires ChunkInv(s) && AgentInv(s) && Enabled(s, DiskDrains)
    ensures Measure(DiskDrained(s)) < Measure(s)
  {
    var effect := Drained(s.agent.stream);
    DrainedWeighsLess(s.agent.stream);
    AgentSendingDecreases(s, s.(agent := Active(effect.state)), effect.sent);
  }

  lemma DrainedWeighsLess(stream: StreamState)
    requires DrainDue(stream) && Disciplined(stream) && stream.awaitingDrain == stream.sink.needDrain
    ensures var effect := Drained(stream);
            |effect.sent| <= 1 && AgentWeight(Active(effect.state)) + SentWeight(effect.sent) < AgentWeight(Active(stream))
  {
  }

  lemma AgentSendingDecreases(s: System, before: System, sent: seq<Frame>)
    requires s.taken <= |s.chunks| && before == s.(agent := before.agent) && |sent| <= 1
    requires AgentWeight(before.agent) + SentWeight(sent) < AgentWeight(s.agent)
    ensures Measure(AgentSends(before, sent)) < Measure(s)
  {
    QueueWeightAppend(s.toGateway, sent);
  }

  /** The agent turns weight it loses into a lighter frame. */
  lemma AgentTurnDecreases(s: System, before: System, frame: Frame)
    requires s.taken <= |s.chunks| && before.taken <= |before.chunks|
    requires before.toGateway == s.toGateway && before.chunks == s.chunks && before.taken == s.taken
    requires before.writer == s.writer && before.toAgent == s.toAgent
    requires before.agentUp == s.agentUp && before.gatewayUp == s.gatewayUp
    requires AgentWeight(before.agent) + FrameWeight(frame) < AgentWeight(s.agent)
    ensures Measure(AgentSends(before, [frame])) < Measure(s)
  {
    QueueWeightAppend(s.toGateway, [frame]);
  }

  lemma AgentEventDecreases(s: System, e: Event, highWater: nat)
    requires ChunkInv(s) && AgentInv(s) && Enabled(s, e)
    requires e.OpenSucceeds? || e.OpenFails? || e.DiskFinishes? || e.DiskFails?
    ensures s.taken <= |s.chunks| && Measure(Step(s, e, highWater)) < Measure(s)
  {
    match e {
      case OpenSucceeds => AgentTurnDecreases(s, s.(agent := Active(OPENED_FOR_WRITE)), RpcOk);
      case OpenFails => AgentTurnDecreases(s, s.(agent := Gone([]), failed := true, broken := true), RpcErr);
      case DiskFinishes => AgentTurnDecreases(s, s.(agent := Gone(OnDisk(s.agent))), End);
      case DiskFails =>
        AgentTurnDecreases(s, s.(agent := Gone(OnDisk(s.agent)), failed := true, broken := true), StreamError);
    }
  }

  lemma DiskTookDecreases(s: System, k: nat)
    requires ChunkInv(s) && Enabled(s, DiskTakes(k))
    ensures Measure(DiskTook(s, k)) < Measure(s)
  {
  }

  lemma LossDecreases(s: System, e: Event, highWater: nat)
    requires ChunkInv(s) && Enabled(s, e) && (e.RequestTimesOut? || e.AgentLosesTunnel? || e.GatewayLosesTunnel?)
    ensures Measure(Step(s, e, highWater)) < Measure(s)
  {
    match e {
      case RequestTimesOut =>
      case AgentLosesTunnel => AgentLostDecreases(s);
      case GatewayLosesTunnel =>
    }
  }

  lemma SourceEndedDecreases(s: System)
    requires ChunkInv(s) && Enabled(s, SourceEnds)
    ensures Measure(SourceEnded(s)) < Measure(s)
  {
  }

  lemma WriterTurnDecreases(s: System)
    requires ChunkInv(s) && Enabled(s, WriterRuns)
    ensures Measure(WriterRan(s)) < Measure(s)
  {
    WriterRunsDecreases(s.writer);
    QueueWeightAppend(s.toAgent, WriterContinues(s.writer).sent);
  }

  lemma GatewayReceivesDecreases(s: System)
    requires ChunkInv(s) && ToGatewayInv(s) && Enabled(s, GatewayReceives)
    ensures Measure(GatewayReceived(s)) < Measure(s)
  {
    WriterHandlesDecreases(s.writer, s.toGateway[0]);
  }

  lemma StepDecreases(s: System, e: Event, highWater: nat)
    requires Inv(s) && Enabled(s, e)
    requires ChunkInv(Step(s, e, highWater))
    ensures Measure(Step(s, e, highWater)) < Measure(s)
  {
    match e {
      case SourceWrites => SourceWritesDecreases(s);
      case SourceEnds => SourceEndedDecreases(s);
      case WriterRuns => WriterTurnDecreases(s);
      case AgentReceives => AgentReceivesDecreases(s, highWater);
      case DiskTakes(k) => DiskTookDecreases(s, k);
      case DiskDrains => DiskDrainsDecreases(s);
      case GatewayReceives => GatewayReceivesDecreases(s);
      case RequestTimesOut => LossDecreases(s, e, highWater);
      case AgentLosesTunnel => LossDecreases(s, e, highWater);
      case GatewayLosesTunnel => LossDecreases(s, e, highWater);
      case _ => AgentEventDecreases(s, e, highWater);
    }
  }

  lemma {:induction false} RunUsesMeasure(s: System, events: seq<Event>, t: System, highWater: nat)
    requires Inv(s) && Runs(s, events, t, highWater)
    ensures t.taken <= |t.chunks| && |events| + Measure(t) <= Measure(s)
    decreases |events|
  {
    if events != [] {
      StepKeepsInv(s, events[0], highWater);
      StepDecreases(s, events[0], highWater);
      RunUsesMeasure(Step(s, events[0], highWater), events[1..], t, highWater);
    }
  }

  /** No run is longer than a multiple of what is uploaded. */
  lemma RunsAreFinite(chunks: seq<Bytes>, events: seq<Event>, t: System, highWater: nat)
    requires Framed(chunks) && Runs(Init(chunks), events, t, highWater)
    ensures |events| <= 2 * Size(chunks) + 6 * |chunks| + 15
  {
    InitInv(chunks);
    assert chunks[0..] == chunks;
    RunUsesMeasure(Init(chunks), events, t, highWater);
  }

  /** Events that are not choices of the environment. */
  predicate Internal(e: Event) {
    e.SourceWrites? || e.SourceEnds? || e.WriterRuns? || e.AgentReceives? || e.OpenSucceeds?
    || e.DiskTakes? || e.DiskDrains? || e.DiskFinishes? || e.GatewayReceives?
  }

  ghost predicate Quiescent(s: System) {
    forall e: Event | Internal(e) :: !Enabled(s, e)
  }

  lemma QuiescentQueues(s: System)
    requires Inv(s) && s.agentUp && s.gatewayUp && Quiescent(s)
    ensures s.toAgent == [] && s.toGateway == [] && !Unopened(s) && s.writer.ready != Unanswered
    ensures s.writer.phase.Parked? || s.writer.phase.AwaitingDone? || s.writer.phase.Succeeded? || s.writer.phase.Failed?
  {
    assert !Enabled(s, AgentReceives);
    assert !Enabled(s, GatewayReceives);
    assert !Enabled(s, OpenSucceeds);
    assert !Enabled(s, SourceWrites);
    assert !Enabled(s, SourceEnds);
    assert !Enabled(s, WriterRuns);
  }

  /** With the connection up, the only state with nothing left to do is one
      where the writer has finished; and it has finished well unless an event
      of the environment, or an oversized chunk, made it fail. */
  lemma QuiescentIsFinal(s: System)
    requires Inv(s) && s.agentUp && s.gatewayUp && Quiescent(s)
    ensures s.writer.phase.Succeeded? || s.writer.phase.Failed?
    ensures !s.failed ==> s.writer.phase.Succeeded? && s.agent == Gone(Flat(s.chunks))
  {
    QuiescentQueues(s);
    assert !Enabled(s, DiskTakes(1));
    assert !Enabled(s, DiskDrains);
    assert !Enabled(s, DiskFinishes);
  }

  /* --------------------- when an upload can succeed at all --------------------- */

  /** Left to itself, any reachable state runs on until nothing is left to do. */
  lemma {:induction false} RunsToEnd(s: System, highWater: nat) returns (events: seq<Event>, t: System)
    requires Inv(s)
    ensures Runs(s, events, t, highWater) && Inv(t) && Quiescent(t)
    ensures forall e <- events :: Internal(e)
    decreases Measure(s)
  {
    if Quiescent(s) {
      events, t := [], s;
    } else {
      var e: Event :| Internal(e) && Enabled(s, e);
      StepKeepsInv(s, e, highWater);
      StepDecreases(s, e, highWater);
      var rest;
      rest, t := RunsToEnd(Step(s, e, highWater), highWater);
      events := [e] + rest;
      assert events[1..] == rest;
    }
  }

  /** Internal events fail nothing as long as every chunk fits the agent's socket. */
  lemma InternalStepIsSafe(s: System, e: Event, highWater: nat)
    requires Inv(s) && Enabled(s, e) && Internal(e) && !s.failed
    requires forall i :: 0 <= i < |s.chunks| ==> !Oversized(s.chunks[i])
    ensures var t := Step(s, e, highWater); !t.failed && t.agentUp && t.gatewayUp
  {
    if e.AgentReceives? {
      NextChunk(s);
    }
  }

  lemma {:induction false} InternalRunIsSafe(s: System, events: seq<Event>, t: System, highWater: nat)
    requires Inv(s) && Runs(s, events, t, highWater) && !s.failed
    requires forall e <- events :: Internal(e)
    requires forall i :: 0 <= i < |s.chunks| ==> !Oversized(s.chunks[i])
    ensures !t.failed && t.agentUp && t.gatewayUp
    decreases |events|
  {
    if events != [] {
      var e := events[0];
      StepKeepsInv(s, e, highWater);
      InternalStepIsSafe(s, e, highWater);
      InternalRunIsSafe(Step(s, e, highWater), events[1..], t, highWater);
    } else {
      assert s.agentUp && s.gatewayUp;
    }
  }

  ghost predicate CanSucceed(chunks: seq<Bytes>, highWater: nat) {
    exists events, t :: Runs(Init(chunks), events, t, highWater) && t.writer.phase.Succeeded?
  }

  /** An upload can succeed exactly when every chunk, with its header, fits the
      agent's `maxPayload`: being within `MAX_DATA_FRAME_BYTES` is not enough. */
  lemma SucceedsIffChunksFit(chunks: seq<Bytes>, highWater: nat)
    requires Framed(chunks)
    ensures CanSucceed(chunks, highWater) <==> forall i :: 0 <= i < |chunks| ==> !Oversized(chunks[i])
  {
    if CanSucceed(chunks, highWater) {
      var events, t :| Runs(Init(chunks), events, t, highWater) && t.writer.phase.Succeeded?;
      Reached(chunks, events, t, highWater);
    }
    if forall i :: 0 <= i < |chunks| ==> !Oversized(chunks[i]) {
      InitInv(chunks);
      var events, t := RunsToEnd(Init(chunks), highWater);
      InternalRunIsSafe(Init(chunks), events, t, highWater);
      QuiescentIsFinal(t);
    }
  }

  /** One legal frame, of a size `writeTextFile` sends as a single chunk, that no
      upload survives. */
  lemma OneLargeChunkNeverArrives(chunk: Bytes, highWater: nat)
    requires MAX_CONTROL_FRAME_BYTES - DATA_FRAME_HEADER_BYTES < |chunk| <= MAX_DATA_FRAME_BYTES
    ensures !CanSucceed([chunk], highWater)
  {
    SucceedsIffChunksFit([chunk], highWater);
    assert Oversized([chunk][0]);
  }

  /* ------------------------- when an upload is left open ------------------------ */

  /** What still happens once the source has broken off: `AgentWritable` has no
      `_destroy`, so being destroyed sends nothing and releases nothing. */
  predicate GoesOnWithoutSource(e: Event) {
    e.WriterRuns? || e.AgentReceives? || e.OpenSucceeds? || e.DiskTakes? || e.DiskDrains? || e.DiskFinishes?
    || e.GatewayReceives?
  }

  /** All of it has happened. */
  ghost predicate RunDry(s: System) {
    forall e: Event | GoesOnWithoutSource(e) :: !Enabled(s, e)
  }

  lemma DryAndConnected(s: System)
    requires Inv(s) && RunDry(s) && s.agentUp && s.gatewayUp && !s.broken
    ensures !s.timedOut ==> if s.writer.phase.Idle? then s.agent.Active? && s.writer.open else s.agent.Gone?
    ensures s.timedOut ==> s.agent.Active?
  {
    assert !Enabled(s, WriterRuns);
    assert !Enabled(s, AgentReceives);
    assert !Enabled(s, GatewayReceives);
    assert !Enabled(s, OpenSucceeds);
    assert !Enabled(s, DiskTakes(1));
    assert !Enabled(s, DiskDrains);
    assert !Enabled(s, DiskFinishes);
  }

  lemma DryAndCut(s: System)
    requires Inv(s) && RunDry(s) && !s.agentUp && !s.broken
    ensures s.agent.Active? <==> s.lostOpening
  {
    assert !Enabled(s, OpenSucceeds);
  }

  /** The source may break off at any point of any run. Once nothing else happens,
      the agent keeps the file open for good exactly when the end of the stream was
      never asked for, or the open request had timed out, or, with the connection
      down, the tunnel was lost while the agent opened the file. */
  lemma UploadLeaksIff(chunks: seq<Bytes>, events: seq<Event>, s: System, highWater: nat)
    requires Framed(chunks) && Runs(Init(chunks), events, s, highWater)
    requires RunDry(s) && s.agentUp == s.gatewayUp
    ensures s.agent.Active? <==>
            !s.broken && if s.agentUp then s.writer.phase.Idle? || s.timedOut else s.lostOpening
    ensures s.agentUp && !s.timedOut && !s.broken ==> (s.writer.open && s.agent.Active? <==> s.writer.phase.Idle?)
  {
    Reached(chunks, events, s, highWater);
    if !s.broken {
      if s.agentUp { DryAndConnected(s); } else { DryAndCut(s); }
    }
  }

  /** The file is open, the gateway knows, and the source has broken off. */
  function LeftOpen(chunks: seq<Bytes>): System {
    Init(chunks).(agent := Active(OPENED_FOR_WRITE), toAgent := [], writer := WriterAnswered(NEW_WRITER, true))
  }

  /** A run that ends there, whatever there was to upload. */
  lemma UploadLeakHappens(chunks: seq<Bytes>, highWater: nat) returns (events: seq<Event>)
    ensures Runs(Init(chunks), events, LeftOpen(chunks), highWater)
    ensures RunDry(LeftOpen(chunks)) && !LeftOpen(chunks).failed && LeftOpen(chunks).agent.Active?
  {
    var s0 := Init(chunks);
    var s1 := AgentReceived(s0, highWater);
    var s2 := FileOpened(s1);
    assert s1.toAgent == [] && s2.toGateway == [RpcOk];
    assert GatewayReceived(s2) == LeftOpen(chunks);
    events := RunOne(s2, GatewayReceives, [], LeftOpen(chunks), highWater);
    events := RunOne(s1, OpenSucceeds, events, LeftOpen(chunks), highWater);
    events := RunOne(s0, AgentReceives, events, LeftOpen(chunks), highWater);
  }

  lemma RunOne(s: System, e: Event, rest: seq<Event>, t: System, highWater: nat) returns (events: seq<Event>)
    requires Enabled(s, e) && Runs(Step(s, e, highWater), rest, t, highWater)
    ensures events == [e] + rest && Runs(s, events, t, highWater)
  {
    events := [e] + rest;
    assert events[1..] == rest;
  }
}
