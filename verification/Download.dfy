/** A download: `FileService` and `AgentReadable` joined by one queue of frames
    in each direction, under any interleaving. The file is fixed; its bytes are
    opaque. Cancelling, a disk error, losing the tunnel and the timeout of the open
    request are events of the environment and may come at any time. */
module Download {
  import opened Common
  import opened Protocol
  import opened AgentFiles
  import opened FileTransport

  /** `Opening` is the time `openRead` waits for `stat`: the channel is not yet in
      the agent's table. `Gone` has left it. */
  datatype Agent = Waiting | Opening | Active(stream: StreamState) | Gone

  /** `asked`: the open request is unanswered in the device's table. The rest is
      history: `endedEarly`, the gateway's end frame reached the agent before the
      stream was in its table, where `end` finds nothing to do; `timedOut`, the open
      request timed out on a reader still waiting; `lostOpening`, the agent lost its
      tunnel while it waited for `stat`; `failed`, the file could not be opened or read. */
  datatype System = System(
    file: Bytes,
    agent: Agent,
    reader: Reader,
    toAgent: seq<Frame>,
    toGateway: seq<Frame>,
    agentUp: bool,
    gatewayUp: bool,
    asked: bool,
    endedEarly: bool,
    timedOut: bool,
    lostOpening: bool,
    failed: bool)

  datatype Event =
    | AgentReceives
    | OpenSucceeds
    | OpenFails
    | FileReads(k: nat)
    | FileEnds
    | FileFails
    | GatewayReceives
    | ConsumerTakes(k: nat)
    | ReadRequested
    | ConsumerCancels
    | RequestTimesOut
    | AgentLosesTunnel
    | GatewayLosesTunnel

  function Init(file: Bytes): System {
    System(file, Waiting, NEW_READER, [OpenRead], [], true, true, true, false, false, false, false)
  }

  predicate Enabled(s: System, e: Event, highWater: nat) {
    match e
    case AgentReceives => s.agentUp && s.toAgent != []
    case OpenSucceeds => s.agent.Opening?
    case OpenFails => s.agent.Opening?
    case FileReads(k) => s.agent.Active? && s.agent.stream.Reading? && s.agent.stream.flowing
                         && 1 <= k <= MAX_DATA_FRAME_BYTES && k <= |s.agent.stream.rest|
    case FileEnds => s.agent.Active? && s.agent.stream.Reading? && s.agent.stream.flowing && s.agent.stream.rest == []
    case FileFails => s.agent.Active?
    case GatewayReceives => s.gatewayUp && s.toGateway != []
    case ConsumerTakes(k) => !s.reader.destroyed && 1 <= k <= s.reader.buffered
    case ReadRequested => ReadDue(s.reader, highWater)
    case ConsumerCancels => !s.reader.destroyed && !s.reader.ended
    case RequestTimesOut => s.asked
    case AgentLosesTunnel => s.agentUp
    case GatewayLosesTunnel => s.gatewayUp
  }

  predicate Unopened(s: System) {
    s.agent.Waiting? || s.agent.Opening?
  }

  predicate IsReply(frame: Frame) {
    frame == RpcOk || frame == RpcErr
  }

  /** `send` is silent on a socket that is not open. */
  function AgentSends(s: System, frames: seq<Frame>): System {
    if s.agentUp then s.(toGateway := s.toGateway + frames) else s
  }

  function GatewaySends(s: System, frames: seq<Frame>): System {
    if s.gatewayUp then s.(toAgent := s.toAgent + frames) else s
  }

  function AgentHandles(agent: Agent, frame: Frame): Agent {
    match frame
    case OpenRead => if agent.Waiting? then Opening else agent
    case Credit(bytes) =>
      if agent.Active? && agent.stream.Reading? then Active(Credited(agent.stream, bytes)) else agent
    case End => if agent.Active? then Gone else agent
    case _ => agent
  }

  /** Stream frames reach the reader only while its channel is registered. */
  function ReaderHandles(r: Reader, frame: Frame): Reader {
    match frame
    case RpcErr => ReaderFailed(r)
    case Data(payload) => if r.open then ReaderGotData(r, payload) else r
    case End => if r.open then ReaderGotEnd(r) else r
    case StreamError => if r.open then ReaderFailed(r) else r
    case _ => r
  }

  function Step(s: System, e: Event, highWater: nat): System
    requires Enabled(s, e, highWater)
  {
    match e
    case AgentReceives =>
      s.(toAgent := s.toAgent[1..], agent := AgentHandles(s.agent, s.toAgent[0]),
         endedEarly := s.endedEarly || (s.toAgent[0].End? && Unopened(s)))
    case OpenSucceeds => AgentSends(s.(agent := Active(OpenedForRead(s.file))), [RpcOk])
    case OpenFails => AgentSends(s.(agent := Gone, failed := true), [RpcErr])
    case FileReads(k) =>
      var effect := ChunkRead(s.agent.stream, k);
      AgentSends(s.(agent := Active(effect.state)), effect.sent)
    case FileEnds => AgentSends(s.(agent := Gone), [End])
    case FileFails => AgentSends(s.(agent := Gone, failed := true), [StreamError])
    case GatewayReceives =>
      s.(toGateway := s.toGateway[1..], reader := ReaderHandles(s.reader, s.toGateway[0]),
         asked := s.asked && !IsReply(s.toGateway[0]))
    case ConsumerTakes(k) => s.(reader := s.reader.(buffered := s.reader.buffered - k))
    case ReadRequested =>
      var effect := ReaderReads(s.reader);
      GatewaySends(s.(reader := effect.reader), effect.sent)
    case ConsumerCancels =>
      var effect := ReaderCancelled(s.reader);
      GatewaySends(s.(reader := effect.reader), effect.sent)
    case RequestTimesOut =>
      s.(asked := false, reader := ReaderFailed(s.reader), timedOut := s.timedOut || s.reader.open)
    case AgentLosesTunnel =>
      s.(agentUp := false, toAgent := [], agent := if s.agent.Active? then Gone else s.agent,
         lostOpening := s.agent.Opening?)
    case GatewayLosesTunnel =>
      s.(gatewayUp := false, toGateway := [], asked := false,
         reader := if s.reader.open then ReaderFailed(s.reader) else s.reader)
  }

  /** `events` is a run from `s` to `t`; every state of a run is where a shorter
      run ends. */
  ghost predicate Runs(s: System, events: seq<Event>, t: System, highWater: nat)
    decreases |events|
  {
    if events == [] then t == s
    else Enabled(s, events[0], highWater) && Runs(Step(s, events[0], highWater), events[1..], t, highWater)
  }

  /* -------------------------------- the invariant ------------------------------ */

  function Rest(s: System): Bytes {
    match s.agent
    case Waiting => s.file
    case Opening => s.file
    case Active(stream) => if stream.Reading? then stream.rest else []
    case Gone => []
  }

  /** Credit the agent holds, or will start with. */
  function AgentCredit(s: System): int {
    if s.agent.Active? && s.agent.stream.Reading? then s.agent.stream.credit else STREAM_WINDOW_BYTES
  }

  predicate Farewell(frame: Frame) {
    frame == RpcErr || frame == End || frame == StreamError
  }

  /** What the gateway sends once the stream was asked for. */
  predicate FromGateway(frame: Frame) {
    frame == End || (frame.Credit? && CreditInSchema(frame))
  }

  predicate FromAgent(frame: Frame) {
    frame == RpcOk || Farewell(frame) || (frame.Data? && 1 <= |frame.payload| <= MAX_DATA_FRAME_BYTES)
  }

  ghost predicate AgentInv(s: System) {
    (s.agent.Active? ==>
       s.agent.stream.Reading? && Disciplined(s.agent.stream) && s.agent.stream.credit + MAX_DATA_FRAME_BYTES > 0) &&
    (Unopened(s) ==> s.toGateway == [] && s.reader.pushed == [] && s.reader.owed == 0 && !s.reader.ended)
  }

  ghost predicate ToAgentInv(s: System) {
    (s.agent.Waiting? && s.agentUp ==> s.toAgent != [] && s.toAgent[0] == OpenRead) &&
    (forall i :: 0 <= i < |s.toAgent| ==>
      FromGateway(s.toAgent[i]) || (i == 0 && s.toAgent[i] == OpenRead && s.agent.Waiting?)) &&
    (forall i :: 0 <= i < |s.toAgent| && s.toAgent[i] == End ==> !s.reader.open && i == |s.toAgent| - 1) &&
    (forall i :: 0 <= i < |s.toAgent| && s.toAgent[i].Credit? ==> !Unopened(s))
  }

  /** Nothing follows a frame that ends the stream. */
  ghost predicate ToGatewayInv(s: System) {
    (forall i :: 0 <= i < |s.toGateway| ==> FromAgent(s.toGateway[i])) &&
    (forall i :: 0 <= i < |s.toGateway| && Farewell(s.toGateway[i]) ==> s.agent.Gone? && i == |s.toGateway| - 1)
  }

  predicate ReaderOk(r: Reader, highWater: nat, gatewayUp: bool) {
    (r.open ==> !r.finished && !r.ended && !r.destroyed && gatewayUp) &&
    (!r.open ==> r.ended || r.destroyed) &&
    (r.owed > 0 && r.open ==> !r.reading) &&
    (r.buffered < r.owed + highWater)
  }

  predicate ReaderInv(s: System, highWater: nat) {
    ReaderOk(s.reader, highWater, s.gatewayUp)
  }

  /** Bytes pushed, and those the reader will still be given. */
  function DeliveredBy(r: Reader, queue: seq<Frame>): Bytes {
    if r.open then r.pushed + DataOf(queue) else r.pushed
  }

  function Delivered(s: System): Bytes {
    DeliveredBy(s.reader, s.toGateway)
  }

  ghost predicate FarewellDue(s: System) {
    s.toGateway != [] && Farewell(s.toGateway[|s.toGateway| - 1])
  }

  /** Where the bytes of the file are. */
  ghost predicate DataInv(s: System) {
    Delivered(s) <= s.file &&
    (s.reader.ended ==> s.reader.pushed == s.file) &&
    (s.agent.Active? && s.reader.open && s.agentUp ==> Delivered(s) + Rest(s) == s.file) &&
    (s.reader.open && s.toGateway != [] && s.toGateway[|s.toGateway| - 1] == End ==> Delivered(s) == s.file) &&
    (s.reader.open && s.agentUp && s.agent.Gone? ==> FarewellDue(s))
  }

  /** The window, accounted for to the byte. */
  ghost predicate CreditConserved(s: System) {
    s.reader.open && s.agentUp && !s.agent.Gone? ==>
      AgentCredit(s) + |DataOf(s.toGateway)| + s.reader.owed + CreditOf(s.toAgent) == STREAM_WINDOW_BYTES
  }

  /** What the gateway has taken and not acknowledged, the wire included. */
  ghost predicate OwedBounded(s: System) {
    s.reader.owed + (if s.reader.open then |DataOf(s.toGateway)| else 0) < STREAM_WINDOW_BYTES + MAX_DATA_FRAME_BYTES
  }

  /** The agent never got credit beyond its first window. */
  ghost predicate FirstWindow(s: System) {
    (s.agent.Active? && s.agent.stream.Reading? ==>
       s.agent.stream.credit + |s.file| == STREAM_WINDOW_BYTES + |s.agent.stream.rest|) &&
    (s.agent.Gone? && !s.failed && (s.agentUp || s.lostOpening) ==> |s.file| < STREAM_WINDOW_BYTES)
  }

  ghost predicate NoCreditSent(s: System) {
    forall i :: 0 <= i < |s.toAgent| ==> !s.toAgent[i].Credit?
  }

  /** Nobody will read what the agent sends, or tell it to stop. */
  predicate Stranded(s: System) {
    if s.agentUp then s.endedEarly || s.timedOut else s.lostOpening
  }

  /** While the open request is unanswered nothing was read, so nothing credited. */
  ghost predicate AskedInv(s: System) {
    (s.asked ==> s.gatewayUp && s.reader.owed == 0 && !s.reader.ended) &&
    (s.asked && s.reader.open ==> FirstWindow(s) && NoCreditSent(s)) &&
    (s.asked && s.toGateway != [] ==> IsReply(s.toGateway[0])) &&
    (s.asked && s.agentUp && !Unopened(s) ==> s.toGateway != [])
  }

  /** What is known once the reader is gone. */
  ghost predicate CancelInv(s: System) {
    (s.failed ==> s.agent.Gone?) &&
    (s.endedEarly ==> !s.agent.Waiting? && s.toAgent == []) &&
    (s.timedOut ==> NoCreditSent(s) && forall i :: 0 <= i < |s.toAgent| ==> s.toAgent[i] != End) &&
    (s.endedEarly || s.timedOut ==> !s.reader.open) &&
    (s.lostOpening ==> !s.agentUp && !s.agent.Waiting?) &&
    (s.endedEarly || s.timedOut || s.lostOpening ==> FirstWindow(s)) &&
    (!s.agentUp && (s.agent.Active? || s.agent.Opening?) ==> s.lostOpening) &&
    (!s.reader.open && s.agentUp && s.gatewayUp && !s.agent.Gone? && !s.endedEarly && !s.timedOut ==>
       s.toAgent != [] && s.toAgent[|s.toAgent| - 1] == End)
  }

  ghost predicate Inv(s: System, highWater: nat) {
    AgentInv(s) && ToAgentInv(s) && ToGatewayInv(s) && ReaderInv(s, highWater) && DataInv(s) &&
    CreditConserved(s) && OwedBounded(s) && AskedInv(s) && CancelInv(s)
  }

  lemma InitInv(file: Bytes, highWater: nat)
    requires highWater >= 1
    ensures Inv(Init(file), highWater)
  {
    assert CreditOf([OpenRead]) == 0 by {
      NoCredit([OpenRead]);
    }
  }

  lemma AgentStep(s: System, e: Event, highWater: nat)
    requires AgentInv(s) && ToAgentInv(s) && Enabled(s, e, highWater)
    ensures AgentInv(Step(s, e, highWater))
  {
  }

  lemma ReaderHandlesKeepsInv(r: Reader, frame: Frame, highWater: nat, up: bool)
    requires ReaderOk(r, highWater, up) && FromAgent(frame)
    ensures ReaderOk(ReaderHandles(r, frame), highWater, up)
  {
  }

  lemma ReaderStep(s: System, e: Event, highWater: nat)
    requires ReaderInv(s, highWater) && ToGatewayInv(s) && Enabled(s, e, highWater)
    ensures ReaderInv(Step(s, e, highWater), highWater)
  {
    match e {
      case GatewayReceives => ReaderHandlesKeepsInv(s.reader, s.toGateway[0], highWater, s.gatewayUp);
      case _ =>
    }
  }

  lemma ToGatewayStep(s: System, e: Event, highWater: nat)
    requires AgentInv(s) && ToGatewayInv(s) && Enabled(s, e, highWater)
    ensures ToGatewayInv(Step(s, e, highWater))
  {
  }

  lemma AgentReceivesKeepsQueue(s: System, highWater: nat)
    requires ToAgentInv(s) && Enabled(s, AgentReceives, highWater)
    ensures ToAgentInv(Step(s, AgentReceives, highWater))
  {
  }

  /** The gateway's next frame, if it sends one, goes to the end. */
  lemma ReaderSendsKeepsQueue(s: System, t: System, sent: seq<Frame>)
    requires AgentInv(s) && ToAgentInv(s) && s.reader.open && t.agent == s.agent && t.agentUp == s.agentUp
    requires t.toAgent == s.toAgent + sent && |sent| <= 1 && (sent != [] ==> FromGateway(sent[0]))
    requires sent != [] && sent[0].Credit? ==> !Unopened(s)
    requires t.reader.open <==> !(sent != [] && sent[0] == End)
    ensures ToAgentInv(t)
  {
  }

  lemma ConsumerKeepsQueue(s: System, e: Event, highWater: nat)
    requires AgentInv(s) && ToAgentInv(s) && ReaderInv(s, highWater) && OwedBounded(s) && Enabled(s, e, highWater)
    requires e.ReadRequested? || e.ConsumerCancels?
    ensures ToAgentInv(Step(s, e, highWater))
  {
    var effect := if e.ReadRequested? then ReaderReads(s.reader) else ReaderCancelled(s.reader);
    assert s.reader.open;
    ReaderSendsKeepsQueue(s, Step(s, e, highWater), effect.sent);
  }

  /** The agent's stream goes on; the gateway sends nothing. */
  lemma FileEventKeepsQueue(s: System, e: Event, highWater: nat)
    requires ToAgentInv(s) && Enabled(s, e, highWater)
    requires e.OpenSucceeds? || e.OpenFails? || e.FileReads? || e.FileEnds? || e.FileFails?
    ensures ToAgentInv(Step(s, e, highWater))
  {
    match e {
      case OpenSucceeds =>
      case OpenFails =>
      case FileReads(_) =>
      case FileEnds =>
      case FileFails =>
    }
  }

  /** The reader may be gone after it; nothing is sent to the agent. */
  lemma OtherEventKeepsQueue(s: System, e: Event, highWater: nat)
    requires ToAgentInv(s) && Enabled(s, e, highWater)
    requires e.GatewayReceives? || e.ConsumerTakes? || e.RequestTimesOut? || e.AgentLosesTunnel? || e.GatewayLosesTunnel?
    ensures ToAgentInv(Step(s, e, highWater))
  {
    match e {
      case GatewayReceives =>
      case ConsumerTakes(_) =>
      case RequestTimesOut =>
      case AgentLosesTunnel =>
      case GatewayLosesTunnel =>
    }
  }

  lemma ToAgentStep(s: System, e: Event, highWater: nat)
    requires AgentInv(s) && ToAgentInv(s) && ReaderInv(s, highWater) && OwedBounded(s) && Enabled(s, e, highWater)
    ensures ToAgentInv(Step(s, e, highWater))
  {
    match e {
      case AgentReceives => AgentReceivesKeepsQueue(s, highWater);
      case ReadRequested => ConsumerKeepsQueue(s, e, highWater);
      case ConsumerCancels => ConsumerKeepsQueue(s, e, highWater);
      case GatewayReceives => OtherEventKeepsQueue(s, e, highWater);
      case ConsumerTakes(_) => OtherEventKeepsQueue(s, e, highWater);
      case RequestTimesOut => OtherEventKeepsQueue(s, e, highWater);
      case AgentLosesTunnel => OtherEventKeepsQueue(s, e, highWater);
      case GatewayLosesTunnel => OtherEventKeepsQueue(s, e, highWater);
      case _ => FileEventKeepsQueue(s, e, highWater);
    }
  }

  lemma AskedStep(s: System, e: Event, highWater: nat)
    requires AgentInv(s) && ToAgentInv(s) && ToGatewayInv(s) && ReaderInv(s, highWater) && AskedInv(s)
    requires Enabled(s, e, highWater)
    ensures AskedInv(Step(s, e, highWater))
  {
  }

  lemma AgentReceivesKeepsCancel(s: System, highWater: nat)
    requires AgentInv(s) && ToAgentInv(s) && CancelInv(s) && Enabled(s, AgentReceives, highWater)
    ensures CancelInv(Step(s, AgentReceives, highWater))
  {
    var frame := s.toAgent[0];
    match frame {
      case OpenRead =>
      case End => assert s.toAgent[1..] == [];
      case Credit(_) =>
      case _ =>
    }
  }

  lemma FileEventKeepsCancel(s: System, e: Event, highWater: nat)
    requires AgentInv(s) && CancelInv(s) && Enabled(s, e, highWater)
    requires e.OpenSucceeds? || e.OpenFails? || e.FileReads? || e.FileEnds? || e.FileFails?
    ensures CancelInv(Step(s, e, highWater))
  {
  }

  lemma ReaderEventKeepsCancel(s: System, e: Event, highWater: nat)
    requires ToAgentInv(s) && ToGatewayInv(s) && ReaderInv(s, highWater) && AskedInv(s) && CancelInv(s)
    requires Enabled(s, e, highWater)
    requires e.GatewayReceives? || e.ReadRequested? || e.ConsumerCancels? || e.ConsumerTakes?
    ensures CancelInv(Step(s, e, highWater))
  {
  }

  lemma ConnectionEventKeepsCancel(s: System, e: Event, highWater: nat)
    requires ToAgentInv(s) && ReaderInv(s, highWater) && AskedInv(s) && CancelInv(s) && Enabled(s, e, highWater)
    requires e.RequestTimesOut? || e.AgentLosesTunnel? || e.GatewayLosesTunnel?
    ensures CancelInv(Step(s, e, highWater))
  {
  }

  lemma CancelStep(s: System, e: Event, highWater: nat)
    requires AgentInv(s) && ToAgentInv(s) && ToGatewayInv(s) && ReaderInv(s, highWater) && AskedInv(s) && CancelInv(s)
    requires Enabled(s, e, highWater)
    ensures CancelInv(Step(s, e, highWater))
  {
    match e {
      case AgentReceives => AgentReceivesKeepsCancel(s, highWater);
      case GatewayReceives => ReaderEventKeepsCancel(s, e, highWater);
      case ReadRequested => ReaderEventKeepsCancel(s, e, highWater);
      case ConsumerCancels => ReaderEventKeepsCancel(s, e, highWater);
      case ConsumerTakes(_) => ReaderEventKeepsCancel(s, e, highWater);
      case RequestTimesOut => ConnectionEventKeepsCancel(s, e, highWater);
      case AgentLosesTunnel => ConnectionEventKeepsCancel(s, e, highWater);
      case GatewayLosesTunnel => ConnectionEventKeepsCancel(s, e, highWater);
      case _ => FileEventKeepsCancel(s, e, highWater);
    }
  }

  lemma CreditHead(queue: seq<Frame>)
    requires queue != []
    ensures CreditOf(queue) == (if queue[0].Credit? then queue[0].bytes else 0) + CreditOf(queue[1..])
  {
  }

  lemma DataHead(queue: seq<Frame>)
    requires queue != []
    ensures DataOf(queue) == (if queue[0].Data? then queue[0].payload else []) + DataOf(queue[1..])
    ensures !queue[0].Data? ==> DataOf(queue) == DataOf(queue[1..])
  {
  }

  /** Handling the head of the queue neither loses nor repeats a byte. */
  lemma HeadDelivered(r: Reader, queue: seq<Frame>)
    requires queue != [] && (Farewell(queue[0]) ==> queue[1..] == [])
    ensures DeliveredBy(ReaderHandles(r, queue[0]), queue[1..]) == DeliveredBy(r, queue)
  {
    DataHead(queue);
    match queue[0] {
      case Data(payload) => Associative(r.pushed, payload, DataOf(queue[1..]));
      case RpcErr => assert DataOf(queue) == [];
      case End => assert DataOf(queue) == [];
      case StreamError => assert DataOf(queue) == [];
      case _ =>
    }
  }

  /** Nor does it change what is taken and unacknowledged. */
  lemma HeadOwed(r: Reader, queue: seq<Frame>)
    requires queue != []
    ensures r.open && queue[0].Data? ==>
              ReaderHandles(r, queue[0]).owed + |DataOf(queue[1..])| == r.owed + |DataOf(queue)|
    ensures !(r.open && queue[0].Data?) ==>
              ReaderHandles(r, queue[0]).owed == r.owed && (r.open ==> |DataOf(queue[1..])| == |DataOf(queue)|)
  {
    DataHead(queue);
  }

  /** Credit on its way back to the agent. */
  function Acknowledged(s: System): int {
    s.reader.owed + CreditOf(s.toAgent)
  }

  /** The four steps that move bytes or credit. */
  predicate Moves(e: Event) {
    e.AgentReceives? || e.GatewayReceives? || e.FileReads? || e.ReadRequested?
  }

  lemma QuietStep(s: System, e: Event, highWater: nat)
    requires ToGatewayInv(s) && Enabled(s, e, highWater) && !Moves(e)
    ensures var t := Step(s, e, highWater);
      t.reader.owed == s.reader.owed && (t.reader.open ==> s.reader.open) &&
      (t.reader.open ==> DataOf(t.toGateway) == DataOf(s.toGateway) && t.reader.pushed == s.reader.pushed) &&
      (t.reader.open && t.agentUp ==> CreditOf(t.toAgent) == CreditOf(s.toAgent))
  {
    match e {
      case OpenSucceeds => AppendAccounts(s.toGateway, RpcOk);
      case OpenFails => AppendAccounts(s.toGateway, RpcErr);
      case FileEnds => AppendAccounts(s.toGateway, End);
      case FileFails => AppendAccounts(s.toGateway, StreamError);
      case ConsumerCancels =>
        AppendAccounts(s.toAgent, End);
        assert s.toAgent + [] == s.toAgent;
      case _ =>
    }
  }

  lemma FileReadsMoves(s: System, k: nat, highWater: nat)
    requires Enabled(s, FileReads(k), highWater)
    ensures var t := Step(s, FileReads(k), highWater);
      t.reader == s.reader && t.toAgent == s.toAgent && t.agent.Active? && t.agent.stream.Reading? &&
      t.agent.stream.credit == s.agent.stream.credit - k &&
      DataOf(t.toGateway) == (if s.agentUp then DataOf(s.toGateway) + s.agent.stream.rest[..k] else DataOf(s.toGateway)) &&
      s.agent.stream.rest == s.agent.stream.rest[..k] + t.agent.stream.rest
  {
    AppendAccounts(s.toGateway, Data(s.agent.stream.rest[..k]));
  }

  lemma ReadRequestedMoves(s: System, highWater: nat)
    requires Enabled(s, ReadRequested, highWater)
    ensures var t := Step(s, ReadRequested, highWater);
      t.toGateway == s.toGateway && t.agent == s.agent && t.reader.pushed == s.reader.pushed &&
      t.reader.open == s.reader.open && t.reader.owed <= s.reader.owed &&
      (s.gatewayUp && s.reader.open ==> Acknowledged(t) == Acknowledged(s))
  {
    AppendAccounts(s.toAgent, Credit(s.reader.owed));
    assert s.toAgent + [] == s.toAgent;
  }

  lemma AgentReceivesMoves(s: System, highWater: nat)
    requires AgentInv(s) && ToAgentInv(s) && Enabled(s, AgentReceives, highWater)
    ensures var t := Step(s, AgentReceives, highWater);
      t.reader == s.reader && t.toGateway == s.toGateway &&
      (!t.agent.Gone? ==> AgentCredit(t) + CreditOf(t.toAgent) == AgentCredit(s) + CreditOf(s.toAgent))
  {
    CreditHead(s.toAgent);
  }

  lemma ConservationStep(s: System, e: Event, highWater: nat)
    requires AgentInv(s) && ToAgentInv(s) && ToGatewayInv(s) && ReaderInv(s, highWater)
    requires CreditConserved(s) && Enabled(s, e, highWater)
    ensures CreditConserved(Step(s, e, highWater))
  {
    match e {
      case AgentReceives => AgentReceivesMoves(s, highWater);
      case GatewayReceives => HeadOwed(s.reader, s.toGateway);
      case FileReads(k) => FileReadsMoves(s, k, highWater);
      case ReadRequested => ReadRequestedMoves(s, highWater);
      case _ => QuietStep(s, e, highWater);
    }
  }

  lemma OwedStep(s: System, e: Event, highWater: nat)
    requires AgentInv(s) && ToAgentInv(s) && ToGatewayInv(s) && ReaderInv(s, highWater)
    requires CreditConserved(s) && OwedBounded(s) && Enabled(s, e, highWater)
    ensures OwedBounded(Step(s, e, highWater))
  {
    match e {
      case AgentReceives => AgentReceivesMoves(s, highWater);
      case GatewayReceives => HeadOwed(s.reader, s.toGateway);
      case FileReads(k) => FileReadsMoves(s, k, highWater); CreditOfIsNat(s.toAgent);
      case ReadRequested => ReadRequestedMoves(s, highWater);
      case _ => QuietStep(s, e, highWater);
    }
  }

  lemma FileReadsKeepsData(s: System, k: nat, highWater: nat)
    requires AgentInv(s) && ToGatewayInv(s) && DataInv(s) && Enabled(s, FileReads(k), highWater)
    ensures DataInv(Step(s, FileReads(k), highWater))
  {
    FileReadsMoves(s, k, highWater);
    var t := Step(s, FileReads(k), highWater);
    if s.reader.open && s.agentUp {
      var moved := s.agent.stream.rest[..k];
      assert t.toGateway == s.toGateway + [Data(moved)];
      MovedOntoTheWire(s.reader.pushed, DataOf(s.toGateway), s.agent.stream.rest, k, s.file);
      assert Delivered(t) == s.reader.pushed + (DataOf(s.toGateway) + moved);
    }
  }

  lemma MovedOntoTheWire(pushed: Bytes, wire: Bytes, rest: Bytes, k: nat, file: Bytes)
    requires k <= |rest| && pushed + wire + rest == file
    ensures pushed + (wire + rest[..k]) + rest[k..] == file
    ensures pushed + (wire + rest[..k]) <= file
  {
    assert rest == rest[..k] + rest[k..];
    Associative(pushed, wire, rest[..k]);
    Associative(pushed + wire, rest[..k], rest[k..]);
  }

  /** The last frame stays last while anything is left. */
  lemma LastStays(queue: seq<Frame>)
    requires |queue| > 1
    ensures queue[1..] != [] && queue[1..][|queue[1..]| - 1] == queue[|queue| - 1]
  {
  }

  /** `DataInv` speaks of the reader and its queue only through these terms. */
  lemma SameDelivery(s: System, t: System)
    requires DataInv(s) && t.file == s.file && t.agent == s.agent && t.agentUp == s.agentUp
    requires Delivered(t) == Delivered(s) && (t.reader.open ==> s.reader.open)
    requires t.reader.open && s.toGateway != [] ==>
      t.toGateway != [] ==> t.toGateway[|t.toGateway| - 1] == s.toGateway[|s.toGateway| - 1]
    requires t.reader.open && FarewellDue(s) ==> FarewellDue(t)
    requires t.reader.open && s.toGateway == [] ==> t.toGateway == []
    requires t.reader.ended ==> t.reader.pushed == t.file
    ensures DataInv(t)
  {
  }

  lemma GatewayReceivesKeepsData(s: System, highWater: nat)
    requires ToGatewayInv(s) && ReaderInv(s, highWater) && DataInv(s) && Enabled(s, GatewayReceives, highWater)
    ensures DataInv(Step(s, GatewayReceives, highWater))
  {
    HeadDelivered(s.reader, s.toGateway);
    var t := Step(s, GatewayReceives, highWater);
    if |s.toGateway| > 1 {
      LastStays(s.toGateway);
    }
    assert t.reader.open ==> !Farewell(s.toGateway[0]);
    SameDelivery(s, t);
  }

  /** The agent's part of a transfer starts, or does not. */
  lemma OpenKeepsData(s: System, e: Event, highWater: nat)
    requires AgentInv(s) && ToGatewayInv(s) && DataInv(s) && Enabled(s, e, highWater)
    requires e.OpenSucceeds? || e.OpenFails?
    ensures DataInv(Step(s, e, highWater))
  {
    QuietStep(s, e, highWater);
  }

  /** It comes to an end, and the last frame says so. */
  lemma FileEndsKeepsData(s: System, highWater: nat)
    requires AgentInv(s) && ToGatewayInv(s) && DataInv(s) && Enabled(s, FileEnds, highWater)
    ensures DataInv(Step(s, FileEnds, highWater))
  {
    QuietStep(s, FileEnds, highWater);
  }

  lemma FileFailsKeepsData(s: System, highWater: nat)
    requires AgentInv(s) && ToGatewayInv(s) && DataInv(s) && Enabled(s, FileFails, highWater)
    ensures DataInv(Step(s, FileFails, highWater))
  {
    QuietStep(s, FileFails, highWater);
  }

  lemma ReaderEventKeepsData(s: System, e: Event, highWater: nat)
    requires ReaderInv(s, highWater) && DataInv(s) && Enabled(s, e, highWater)
    requires e.ConsumerTakes? || e.ConsumerCancels? || e.RequestTimesOut? || e.AgentLosesTunnel? || e.GatewayLosesTunnel?
    ensures DataInv(Step(s, e, highWater))
  {
  }

  lemma DataStep(s: System, e: Event, highWater: nat)
    requires AgentInv(s) && ToAgentInv(s) && ToGatewayInv(s) && ReaderInv(s, highWater) && DataInv(s)
    requires Enabled(s, e, highWater)
    ensures DataInv(Step(s, e, highWater))
  {
    match e {
      case AgentReceives => AgentReceivesMoves(s, highWater);
      case GatewayReceives => GatewayReceivesKeepsData(s, highWater);
      case FileReads(k) => FileReadsKeepsData(s, k, highWater);
      case ReadRequested => ReadRequestedMoves(s, highWater);
      case OpenSucceeds => OpenKeepsData(s, e, highWater);
      case OpenFails => OpenKeepsData(s, e, highWater);
      case FileEnds => FileEndsKeepsData(s, highWater);
      case FileFails => FileFailsKeepsData(s, highWater);
      case _ => ReaderEventKeepsData(s, e, highWater);
    }
  }

  lemma StepKeepsFile(s: System, e: Event, highWater: nat)
    requires Enabled(s, e, highWater)
    ensures Step(s, e, highWater).file == s.file
  {
    match e {
      case AgentReceives =>
      case OpenSucceeds =>
      case OpenFails =>
      case FileReads(_) =>
      case FileEnds =>
      case FileFails =>
      case GatewayReceives =>
      case ConsumerTakes(_) =>
      case ReadRequested =>
      case ConsumerCancels =>
      case RequestTimesOut =>
      case AgentLosesTunnel =>
      case GatewayLosesTunnel =>
    }
  }

  lemma StepKeepsInv(s: System, e: Event, highWater: nat)
    requires Inv(s, highWater) && Enabled(s, e, highWater)
    ensures Inv(Step(s, e, highWater), highWater) && Step(s, e, highWater).file == s.file
  {
    StepKeepsFile(s, e, highWater);
    AgentStep(s, e, highWater);
    ReaderStep(s, e, highWater);
    ToGatewayStep(s, e, highWater);
    ToAgentStep(s, e, highWater);
    AskedStep(s, e, highWater);
    CancelStep(s, e, highWater);
    ConservationStep(s, e, highWater);
    OwedStep(s, e, highWater);
    DataStep(s, e, highWater);
  }

  lemma OneStep(s: System, events: seq<Event>, t: System, highWater: nat) returns (next: System)
    requires Inv(s, highWater) && Runs(s, events, t, highWater) && events != []
    ensures Inv(next, highWater) && Runs(next, events[1..], t, highWater) && next.file == s.file
    ensures Enabled(s, events[0], highWater) && next == Step(s, events[0], highWater)
  {
    next := Step(s, events[0], highWater);
    StepKeepsInv(s, events[0], highWater);
  }

  /** Every state of every run satisfies the invariant. */
  lemma {:induction false} RunKeepsInv(s: System, events: seq<Event>, t: System, highWater: nat)
    requires Inv(s, highWater) && Runs(s, events, t, highWater)
    ensures Inv(t, highWater) && t.file == s.file
    decreases |events|
  {
    if events != [] {
      var next := OneStep(s, events, t, highWater);
      RunKeepsInv(next, events[1..], t, highWater);
    }
  }

  lemma Reached(file: Bytes, events: seq<Event>, s: System, highWater: nat)
    requires highWater >= 1 && Runs(Init(file), events, s, highWater)
    ensures Inv(s, highWater) && s.file == file
  {
    InitInv(file, highWater);
    RunKeepsInv(Init(file), events, s, highWater);
  }

  /* ------------------------------- the window holds ---------------------------- */

  /** While the channel is open at both ends the window is conserved, so what the
      gateway has taken without acknowledging never reaches the window plus one
      chunk; and what sits in the consumer's buffer and on the wire stays within
      that and the high-water mark, whatever the size of the file. */
  lemma BufferingIsBounded(file: Bytes, events: seq<Event>, s: System, highWater: nat)
    requires highWater >= 1 && Runs(Init(file), events, s, highWater)
    ensures CreditConserved(s) && OwedBounded(s)
    ensures s.reader.open ==>
              s.reader.buffered + |DataOf(s.toGateway)| <= STREAM_WINDOW_BYTES + MAX_DATA_FRAME_BYTES + highWater - 2
    ensures forall f <- s.toAgent :: CreditInSchema(f)
  {
    Reached(file, events, s, highWater);
  }

  /** What the consumer has been given is always a prefix of the file, and a
      stream that ends without an error has given all of it, even in runs with
      disk errors, cancellation and lost tunnels. */
  lemma DownloadIsIntact(file: Bytes, events: seq<Event>, s: System, highWater: nat)
    requires highWater >= 1 && Runs(Init(file), events, s, highWater)
    ensures s.reader.pushed <= file
    ensures s.reader.ended ==> s.reader.pushed == file
  {
    Reached(file, events, s, highWater);
  }

  /* ---------------------------- every download finishes ------------------------ */

  function FrameWeight(frame: Frame): nat {
    match frame
    case Data(payload) => 7 * |payload|
    case Credit(bytes) => if bytes > 0 then 2 * bytes else 0
    case _ => 1
  }

  function QueueWeight(queue: seq<Frame>): nat {
    if queue == [] then 0 else FrameWeight(queue[0]) + QueueWeight(queue[1..])
  }

  lemma {:induction false} QueueWeightAppend(queue: seq<Frame>, frame: Frame)
    ensures QueueWeight(queue + [frame]) == QueueWeight(queue) + FrameWeight(frame)
  {
    if queue == [] {
      assert queue + [frame] == [frame];
    } else {
      assert (queue + [frame])[1..] == queue[1..] + [frame];
      QueueWeightAppend(queue[1..], frame);
    }
  }

  function AgentWeight(agent: Agent, file: Bytes): nat {
    match agent
    case Waiting => 8 * |file| + 6
    case Opening => 8 * |file| + 5
    case Active(stream) => (if stream.Reading? then 8 * |stream.rest| else 0) + 3
    case Gone => 0
  }

  function ReaderWeight(r: Reader): nat {
    3 * r.owed + r.buffered + (if r.reading then 0 else 1) + (if r.open then 2 else 0) + (if r.destroyed then 0 else 1)
  }

  /** Bytes still to read, in flight, owed and on their way back as credit. */
  function Measure(s: System): nat {
    AgentWeight(s.agent, s.file) + QueueWeight(s.toAgent) + QueueWeight(s.toGateway) + ReaderWeight(s.reader)
    + (if s.agentUp then 1 else 0) + (if s.gatewayUp then 1 else 0) + (if s.asked then 1 else 0)
  }

  function SentWeight(frames: seq<Frame>): nat {
    if frames == [] then 0 else FrameWeight(frames[0])
  }

  lemma AgentSendsWeight(s: System, frame: Frame)
    ensures QueueWeight(AgentSends(s, [frame]).toGateway) <= QueueWeight(s.toGateway) + FrameWeight(frame)
  {
    QueueWeightAppend(s.toGateway, frame);
  }

  lemma GatewaySendsWeight(s: System, frames: seq<Frame>)
    requires |frames| <= 1
    ensures QueueWeight(GatewaySends(s, frames).toAgent)
         <= QueueWeight(s.toAgent) + SentWeight(frames)
  {
    if frames == [] {
      assert s.toAgent + frames == s.toAgent;
    } else {
      assert frames == [frames[0]];
      QueueWeightAppend(s.toAgent, frames[0]);
    }
  }

  /** The agent turns weight it loses into a lighter frame. */
  lemma AgentTurnDecreases(s: System, agent: Agent, failed: bool, frame: Frame)
    requires AgentWeight(agent, s.file) + FrameWeight(frame) < AgentWeight(s.agent, s.file)
    ensures Measure(AgentSends(s.(agent := agent, failed := failed), [frame])) < Measure(s)
  {
    AgentSendsWeight(s.(agent := agent, failed := failed), frame);
  }

  lemma AgentEventDecreases(s: System, e: Event, highWater: nat)
    requires Enabled(s, e, highWater)
    requires e.OpenSucceeds? || e.OpenFails? || e.FileReads? || e.FileEnds? || e.FileFails?
    ensures Measure(Step(s, e, highWater)) < Measure(s)
  {
    match e {
      case OpenSucceeds => AgentTurnDecreases(s, Active(OpenedForRead(s.file)), s.failed, RpcOk);
      case OpenFails => AgentTurnDecreases(s, Gone, true, RpcErr);
      case FileReads(k) =>
        var effect := ChunkRead(s.agent.stream, k);
        AgentTurnDecreases(s, Active(effect.state), s.failed, Data(s.agent.stream.rest[..k]));
      case FileEnds => AgentTurnDecreases(s, Gone, s.failed, End);
      case FileFails => AgentTurnDecreases(s, Gone, true, StreamError);
    }
  }

  lemma AgentReceivesDecreases(s: System, highWater: nat)
    requires AgentInv(s) && ToAgentInv(s) && Enabled(s, AgentReceives, highWater)
    ensures Measure(Step(s, AgentReceives, highWater)) < Measure(s)
  {
  }

  lemma ReaderHandlesDecreases(r: Reader, frame: Frame)
    requires FromAgent(frame)
    ensures ReaderWeight(ReaderHandles(r, frame)) < ReaderWeight(r) + FrameWeight(frame)
  {
    match frame {
      case Data(payload) =>
      case _ =>
    }
  }

  lemma GatewayReceivesDecreases(s: System, highWater: nat)
    requires ToGatewayInv(s) && Enabled(s, GatewayReceives, highWater)
    ensures Measure(Step(s, GatewayReceives, highWater)) < Measure(s)
  {
    ReaderHandlesDecreases(s.reader, s.toGateway[0]);
  }

  lemma ReaderReadsDecreases(r: Reader)
    requires !r.reading
    ensures ReaderWeight(ReaderReads(r).reader) + SentWeight(ReaderReads(r).sent) < ReaderWeight(r)
  {
  }

  lemma ReaderCancelledDecreases(r: Reader)
    requires !r.destroyed
    ensures ReaderWeight(ReaderCancelled(r).reader) + SentWeight(ReaderCancelled(r).sent) < ReaderWeight(r)
  {
  }

  lemma ReaderTurnDecreases(s: System, effect: ReaderEffect)
    requires |effect.sent| <= 1 && ReaderWeight(effect.reader) + SentWeight(effect.sent) < ReaderWeight(s.reader)
    ensures Measure(GatewaySends(s.(reader := effect.reader), effect.sent)) < Measure(s)
  {
    GatewaySendsWeight(s.(reader := effect.reader), effect.sent);
  }

  lemma LossDecreases(s: System, e: Event, highWater: nat)
    requires Enabled(s, e, highWater) && (e.RequestTimesOut? || e.AgentLosesTunnel? || e.GatewayLosesTunnel?)
    ensures Measure(Step(s, e, highWater)) < Measure(s)
  {
    match e {
      case RequestTimesOut =>
      case AgentLosesTunnel =>
      case GatewayLosesTunnel =>
    }
  }

  lemma ConsumerEventDecreases(s: System, e: Event, highWater: nat)
    requires Enabled(s, e, highWater) && (e.ReadRequested? || e.ConsumerCancels? || e.ConsumerTakes?)
    ensures Measure(Step(s, e, highWater)) < Measure(s)
  {
    match e {
      case ReadRequested =>
        ReaderReadsDecreases(s.reader);
        ReaderTurnDecreases(s, ReaderReads(s.reader));
      case ConsumerCancels =>
        ReaderCancelledDecreases(s.reader);
        ReaderTurnDecreases(s, ReaderCancelled(s.reader));
      case ConsumerTakes(_) =>
    }
  }

  lemma StepDecreases(s: System, e: Event, highWater: nat)
    requires AgentInv(s) && ToAgentInv(s) && ToGatewayInv(s) && Enabled(s, e, highWater)
    ensures Measure(Step(s, e, highWater)) < Measure(s)
  {
    match e {
      case AgentReceives => AgentReceivesDecreases(s, highWater);
      case GatewayReceives => GatewayReceivesDecreases(s, highWater);
      case ReadRequested => ConsumerEventDecreases(s, e, highWater);
      case ConsumerCancels => ConsumerEventDecreases(s, e, highWater);
      case ConsumerTakes(_) => ConsumerEventDecreases(s, e, highWater);
      case RequestTimesOut => LossDecreases(s, e, highWater);
      case AgentLosesTunnel => LossDecreases(s, e, highWater);
      case GatewayLosesTunnel => LossDecreases(s, e, highWater);
      case _ => AgentEventDecreases(s, e, highWater);
    }
  }

  lemma {:induction false} RunUsesMeasure(s: System, events: seq<Event>, t: System, highWater: nat)
    requires Inv(s, highWater) && Runs(s, events, t, highWater)
    ensures |events| + Measure(t) <= Measure(s)
    decreases |events|
  {
    if events != [] {
      var next := OneStep(s, events, t, highWater);
      StepDecreases(s, events[0], highWater);
      RunUsesMeasure(next, events[1..], t, highWater);
    }
  }

  /** No run is longer than a multiple of the file, whatever the interleaving. */
  lemma RunsAreFinite(file: Bytes, events: seq<Event>, t: System, highWater: nat)
    requires highWater >= 1 && Runs(Init(file), events, t, highWater)
    ensures |events| <= 8 * |file| + 14
  {
    InitInv(file, highWater);
    RunUsesMeasure(Init(file), events, t, highWater);
  }

  /** Events that are not choices of the environment. */
  predicate Internal(e: Event) {
    e.AgentReceives? || e.OpenSucceeds? || e.FileReads? || e.FileEnds?
    || e.GatewayReceives? || e.ConsumerTakes? || e.ReadRequested?
  }

  ghost predicate Quiescent(s: System, highWater: nat) {
    forall e: Event | Internal(e) :: !Enabled(s, e, highWater)
  }

  /** Nothing left to do, with the connection up, means the transfer is over: the
      consumer holds the whole file, or it cancelled, or it was told of an error. */
  lemma QuiescentIsFinal(s: System, highWater: nat)
    requires highWater >= 1 && Inv(s, highWater) && s.agentUp && s.gatewayUp && Quiescent(s, highWater)
    ensures s.reader.destroyed || (s.reader.ended && s.reader.pushed == s.file && s.reader.buffered == 0)
  {
    QuiescentAgent(s, highWater);
    assert !Enabled(s, ReadRequested, highWater);
    assert !Enabled(s, ConsumerTakes(1), highWater);
  }

  /** The agent is done, or it is out of credit and waiting. */
  lemma QuiescentAgent(s: System, highWater: nat)
    requires highWater >= 1 && Inv(s, highWater) && s.agentUp && s.gatewayUp && Quiescent(s, highWater)
    ensures s.toAgent == [] && s.toGateway == [] && !Unopened(s)
    ensures s.agent.Active? ==> s.agent.stream.credit <= 0
  {
    assert !Enabled(s, AgentReceives, highWater);
    assert !Enabled(s, GatewayReceives, highWater);
    assert !Enabled(s, OpenSucceeds, highWater);
    assert !Enabled(s, FileEnds, highWater);
    assert !Enabled(s, FileReads(1), highWater);
  }

  /* ------------------------ when the consumer gets its file -------------------- */

  predicate Refusal(frame: Frame) {
    frame == RpcErr || frame == StreamError
  }

  /** Nothing of what the environment can do has happened. */
  ghost predicate Undisturbed(s: System) {
    s.agentUp && s.gatewayUp && !s.reader.destroyed && forall i :: 0 <= i < |s.toGateway| ==> !Refusal(s.toGateway[i])
  }

  /** The consumer was, or is going to be, told of an error, and of no end. */
  ghost predicate Spoiled(s: System) {
    s.reader.destroyed || (!s.reader.ended && s.toGateway != [] && Refusal(s.toGateway[|s.toGateway| - 1]))
  }

  /** The stream ends at the gateway only after it has ended at the agent. */
  predicate EndsInOrder(s: System) {
    s.reader.ended ==> s.agent.Gone?
  }

  lemma InternalStepIsUndisturbed(s: System, e: Event, highWater: nat)
    requires Undisturbed(s) && Enabled(s, e, highWater) && Internal(e)
    ensures Undisturbed(Step(s, e, highWater))
  {
  }

  lemma StepEndsInOrder(s: System, e: Event, highWater: nat)
    requires ToGatewayInv(s) && EndsInOrder(s) && Enabled(s, e, highWater)
    ensures EndsInOrder(Step(s, e, highWater))
  {
  }

  lemma DisturbanceSpoils(s: System, e: Event, highWater: nat)
    requires ToGatewayInv(s) && AgentInv(s) && EndsInOrder(s) && Enabled(s, e, highWater) && !Internal(e)
    requires Step(s, e, highWater).agentUp && Step(s, e, highWater).gatewayUp
    ensures Spoiled(Step(s, e, highWater))
  {
  }

  lemma StaysSpoiled(s: System, e: Event, highWater: nat)
    requires ToGatewayInv(s) && ReaderInv(s, highWater) && Spoiled(s) && Enabled(s, e, highWater)
    requires Step(s, e, highWater).agentUp && Step(s, e, highWater).gatewayUp
    ensures Spoiled(Step(s, e, highWater))
  {
  }

  lemma {:induction false} SpoiledForGood(s: System, events: seq<Event>, t: System, highWater: nat)
    requires Inv(s, highWater) && Runs(s, events, t, highWater) && t.agentUp && t.gatewayUp && Spoiled(s)
    ensures Inv(t, highWater) && Spoiled(t)
    decreases |events|
  {
    if events != [] {
      var next := OneStep(s, events, t, highWater);
      UpAtTheEnd(next, events[1..], t, highWater);
      StaysSpoiled(s, events[0], highWater);
      SpoiledForGood(next, events[1..], t, highWater);
    }
  }

  lemma TunnelStaysLost(s: System, e: Event, highWater: nat)
    requires Enabled(s, e, highWater)
    ensures var t := Step(s, e, highWater); (t.agentUp ==> s.agentUp) && (t.gatewayUp ==> s.gatewayUp)
  {
  }

  lemma {:induction false} UpAtTheEnd(s: System, events: seq<Event>, t: System, highWater: nat)
    requires Runs(s, events, t, highWater)
    ensures (t.agentUp ==> s.agentUp) && (t.gatewayUp ==> s.gatewayUp)
    decreases |events|
  {
    if events != [] {
      TunnelStaysLost(s, events[0], highWater);
      UpAtTheEnd(Step(s, events[0], highWater), events[1..], t, highWater);
    }
  }

  /** A run without a lost tunnel is spoiled exactly when it was disturbed. */
  lemma {:induction false} SpoiledIff(s: System, events: seq<Event>, t: System, highWater: nat)
    requires Inv(s, highWater) && Runs(s, events, t, highWater) && t.agentUp && t.gatewayUp
    requires Undisturbed(s) && EndsInOrder(s)
    ensures if forall e <- events :: Internal(e) then Undisturbed(t) else Spoiled(t)
    decreases |events|
  {
    if events != [] {
      var e := events[0];
      var next := OneStep(s, events, t, highWater);
      assert events == [e] + events[1..];
      UpAtTheEnd(next, events[1..], t, highWater);
      StepEndsInOrder(s, e, highWater);
      if Internal(e) {
        InternalStepIsUndisturbed(s, e, highWater);
        SpoiledIff(next, events[1..], t, highWater);
      } else {
        DisturbanceSpoils(s, e, highWater);
        SpoiledForGood(next, events[1..], t, highWater);
      }
    }
  }

  /** The consumer has the whole file, and was told that it has. */
  predicate Arrived(s: System) {
    s.reader.ended && !s.reader.destroyed && s.reader.pushed == s.file && s.reader.buffered == 0
  }

  /** With the connection up and nothing left to do, the whole file has arrived, and
      the stream has ended as it should, exactly when nobody cancelled, the file could
      be opened and read, and the open request did not time out. */
  lemma ArrivesIff(file: Bytes, events: seq<Event>, s: System, highWater: nat)
    requires highWater >= 1 && Runs(Init(file), events, s, highWater)
    requires s.agentUp && s.gatewayUp && Quiescent(s, highWater)
    ensures s.file == file && (Arrived(s) <==> forall e <- events :: Internal(e))
    ensures s.reader.destroyed <==> !Arrived(s)
  {
    InitInv(file, highWater);
    Reached(file, events, s, highWater);
    SpoiledIff(Init(file), events, s, highWater);
    QuiescentIsFinal(s, highWater);
    QuiescentAgent(s, highWater);
  }

  /** Left to itself, any reachable state runs on until nothing is left to do. */
  lemma {:induction false} RunsToEnd(s: System, highWater: nat) returns (events: seq<Event>, t: System)
    requires Inv(s, highWater)
    ensures Runs(s, events, t, highWater) && Quiescent(t, highWater)
    ensures forall e <- events :: Internal(e)
    decreases Measure(s)
  {
    if Quiescent(s, highWater) {
      events, t := [], s;
    } else {
      var e: Event :| Internal(e) && Enabled(s, e, highWater);
      StepKeepsInv(s, e, highWater);
      StepDecreases(s, e, highWater);
      var rest;
      rest, t := RunsToEnd(Step(s, e, highWater), highWater);
      events := [e] + rest;
      assert events[1..] == rest;
    }
  }

  lemma {:induction false} InternalRunStaysUp(s: System, events: seq<Event>, t: System, highWater: nat)
    requires Runs(s, events, t, highWater) && Undisturbed(s) && forall e <- events :: Internal(e)
    ensures Undisturbed(t)
    decreases |events|
  {
    if events != [] {
      InternalStepIsUndisturbed(s, events[0], highWater);
      InternalRunStaysUp(Step(s, events[0], highWater), events[1..], t, highWater);
    }
  }

  /** Every file arrives, whatever its size, if nothing disturbs its download. */
  lemma EveryFileArrives(file: Bytes, highWater: nat) returns (events: seq<Event>, s: System)
    requires highWater >= 1
    ensures Runs(Init(file), events, s, highWater) && Quiescent(s, highWater) && Arrived(s) && s.file == file
  {
    InitInv(file, highWater);
    events, s := RunsToEnd(Init(file), highWater);
    InternalRunStaysUp(Init(file), events, s, highWater);
    ArrivesIff(file, events, s, highWater);
  }

  /* ------------------------------ what is left behind -------------------------- */

  /** A download leaves the agent holding the file open for good exactly when the
      file does not go out on the first window and the agent opened it for a reader
      that was already gone: cancelled before `stat` answered, timed out on the open
      request, or, with the connection down, lost with the tunnel during `stat`. */
  lemma DownloadLeaksIff(file: Bytes, events: seq<Event>, s: System, highWater: nat)
    requires highWater >= 1 && Runs(Init(file), events, s, highWater)
    requires Quiescent(s, highWater) && s.agentUp == s.gatewayUp
    ensures s.agent.Active? <==> !s.failed && Stranded(s) && |file| >= STREAM_WINDOW_BYTES
  {
    Reached(file, events, s, highWater);
    if s.failed {
    } else if s.agentUp {
      QuiescentAgent(s, highWater);
      QuiescentIsFinal(s, highWater);
    } else {
      assert !Enabled(s, OpenSucceeds, highWater);
      assert !Enabled(s, FileEnds, highWater);
      assert !Enabled(s, FileReads(1), highWater);
    }
  }

  /** Cancelled before `stat` answered: the agent opens a stream nobody reads. */
  function Overtaken(file: Bytes): System {
    System(file, Active(OpenedForRead(file)), ReaderCancelled(NEW_READER).reader, [], [RpcOk], true, true,
           true, true, false, false, false)
  }

  /** Its whole window is sent to nobody, and it waits for credit. */
  function Stuck(file: Bytes): System
    requires |file| >= STREAM_WINDOW_BYTES
  {
    Overtaken(file).(agent := Active(ChunkRead(OpenedForRead(file), STREAM_WINDOW_BYTES).state), toGateway := [],
                     asked := false)
  }

  lemma CancelOvertakes(file: Bytes) returns (events: seq<Event>)
    ensures forall more, last :: Runs(Overtaken(file), more, last, 1) ==> Runs(Init(file), events + more, last, 1)
  {
    var s1 := Step(Init(file), AgentReceives, 1);
    var s2 := Step(s1, ConsumerCancels, 1);
    var s3 := Step(s2, AgentReceives, 1);
    assert s3.toAgent == [] && s3.toGateway == [];
    assert Step(s3, OpenSucceeds, 1) == Overtaken(file);
    events := [AgentReceives, ConsumerCancels, AgentReceives, OpenSucceeds];
    forall more, last | Runs(Overtaken(file), more, last, 1) ensures Runs(Init(file), events + more, last, 1) {
      var e3 := RunOne(s3, OpenSucceeds, more, last);
      var e2 := RunOne(s2, AgentReceives, e3, last);
      var e1 := RunOne(s1, ConsumerCancels, e2, last);
      var e0 := RunOne(Init(file), AgentReceives, e1, last);
      assert events + more == e0;
    }
  }

  lemma WindowGoesNowhere(file: Bytes) returns (events: seq<Event>)
    requires |file| >= STREAM_WINDOW_BYTES
    ensures Runs(Overtaken(file), events, Stuck(file), 1)
  {
    var s0 := Overtaken(file);
    var s1 := Step(s0, GatewayReceives, 1);
    var s2 := Step(s1, FileReads(STREAM_WINDOW_BYTES), 1);
    assert Step(s2, GatewayReceives, 1) == Stuck(file);
    events := RunOne(s2, GatewayReceives, [], Stuck(file));
    events := RunOne(s1, FileReads(STREAM_WINDOW_BYTES), events, Stuck(file));
    events := RunOne(s0, GatewayReceives, events, Stuck(file));
  }

  /** For every file of at least the window there is a run that ends in the leak. */
  lemma CancelLeakHappens(file: Bytes) returns (events: seq<Event>, last: System)
    requires |file| >= STREAM_WINDOW_BYTES
    ensures Runs(Init(file), events, last, 1)
    ensures Quiescent(last, 1) && last.agent.Active? && last.reader.destroyed
    ensures !last.failed && last.agentUp && last.gatewayUp
  {
    last := Stuck(file);
    var first := CancelOvertakes(file);
    var second := WindowGoesNowhere(file);
    events := first + second;
    assert last.agent.stream.credit == 0;
  }

  lemma RunOne(s: System, e: Event, rest: seq<Event>, t: System) returns (events: seq<Event>)
    requires Enabled(s, e, 1) && Runs(Step(s, e, 1), rest, t, 1)
    ensures events == [e] + rest && Runs(s, events, t, 1)
  {
    events := [e] + rest;
    assert events[1..] == rest;
  }
}
