/** Both hops of a held terminal joined: a pty on the agent, its replay buffer,
    the tunnel, and the gateway's terminal with its backlog and browsers. Every
    byte the pty writes is tagged with its position, which no code inspects, so
    the order of the tags in what browsers were handed is the order of delivery. */
module TwoHop {
  import opened Common
  import opened Protocol
  import opened Rings
  import T = Terminals
  import O = TerminalOutput
  import A = AgentChannels

  datatype Tag = Tag(at: nat, value: Byte)
  type Chunk = seq<Tag>

  /** `wire` is what the agent sent on the socket the gateway currently listens
      to; `up` is whether it listens to one; `linked` is whether the gateway
      still routes the channel to the terminal. */
  datatype Hop = Hop(
    written: Bytes,
    alive: bool,
    channel: A.Channel<Tag>,
    wire: seq<Chunk>,
    up: bool,
    linked: bool,
    terminal: T.Terminal<Tag>,
    handed: seq<(nat, Chunk)>)

  datatype Event =
    | PtyWrites(bytes: Bytes, sendable: bool)
    | PtyDies
    | AgentLosesTunnel(timer: nat)
    | GatewayLosesTunnel
    | GatewayAccepts
    | AgentResumes(sendable: bool)
    | AgentStartsAfresh
    | Delivered
    | GatewayUnlinks
    | Browser(happening: O.Happening<Tag>)

  function Start(socket: nat): Hop {
    Hop([], true, A.Spawned(0), [], true, true, T.Registered(socket), [])
  }

  /** The agent dials a new tunnel only after it has noticed losing the old one.
      `sendable` is whether its socket is open: `send` is silent on one that is not. */
  predicate Enabled(s: Hop, e: Event) {
    match e
    case PtyWrites(_, _) => s.alive
    case PtyDies => s.alive
    case AgentLosesTunnel(_) => true
    case GatewayLosesTunnel => s.up
    case GatewayAccepts => !s.channel.attached
    case AgentResumes(_) => s.alive && !s.channel.attached
    case AgentStartsAfresh => !s.alive
    case Delivered => s.up && s.wire != []
    case GatewayUnlinks => true
    case Browser(h) => !h.Output?
  }

  function Tagged(bytes: Bytes, from: nat): (chunk: Chunk)
    ensures |chunk| == |bytes|
  {
    seq(|bytes|, i requires 0 <= i < |bytes| => Tag(from + i, bytes[i]))
  }

  function Emitted(s: Hop, chunk: Chunk): Hop {
    var outcome := T.Emits(s.terminal, chunk);
    s.(terminal := outcome.terminal, handed := s.handed + O.DataActs(outcome.acts))
  }

  function Step(s: Hop, e: Event): Hop
    requires Enabled(s, e)
  {
    match e
    case PtyWrites(bytes, sendable) =>
      var chunk := Tagged(bytes, |s.written|);
      var wrote := s.(written := s.written + bytes);
      if !s.channel.attached then wrote.(channel := A.Buffered(s.channel, chunk))
      else if sendable then wrote.(wire := s.wire + [chunk])
      else wrote
    case PtyDies => s.(alive := false, channel := s.channel.(replay := [], replayBytes := 0))
    case AgentLosesTunnel(timer) => s.(channel := s.channel.(attached := false, timer := Some(timer)))
    case GatewayLosesTunnel => s.(up := false, wire := [])
    case GatewayAccepts => s.(up := true, wire := [])
    case AgentResumes(sendable) =>
      s.(channel := A.Resumed(s.channel), wire := if sendable then s.wire + s.channel.replay else s.wire)
    case AgentStartsAfresh => s.(alive := true, channel := A.Spawned(s.channel.birth + 1))
    case Delivered =>
      var rest := s.(wire := s.wire[1..]);
      if s.linked then Emitted(rest, s.wire[0]) else rest
    case GatewayUnlinks => s.(linked := false)
    case Browser(h) =>
      var outcome := O.React(s.terminal, h);
      s.(terminal := outcome.terminal, handed := s.handed + O.DataActs(outcome.acts))
  }

  ghost predicate Runs(s: Hop, events: seq<Event>, last: Hop)
    decreases |events|
  {
    if events == [] then last == s
    else Enabled(s, events[0]) && Runs(Step(s, events[0]), events[1..], last)
  }

  /* ----------------------------------- the line --------------------------------- */

  function HandedBytes(handed: seq<(nat, Chunk)>): Chunk {
    if handed == [] then []
    else HandedBytes(handed[..|handed| - 1]) + handed[|handed| - 1].1
  }

  function Join(handed: Chunk, backlog: Chunk, wire: Chunk, replay: Chunk): Chunk {
    handed + backlog + wire + replay
  }

  /** Everything handed to a browser or still on its way to one, oldest first. */
  function Line(s: Hop): Chunk {
    Join(HandedBytes(s.handed), Flat(s.terminal.backlog), Flat(s.wire), Flat(s.channel.replay))
  }

  /** Bytes the pty wrote, in the order it wrote them, none of them twice. */
  ghost predicate Faithful(line: Chunk, written: Bytes) {
    (forall i :: 0 <= i < |line| ==> line[i].at < |written| && line[i].value == written[line[i].at]) &&
    (forall i, j :: 0 <= i < j < |line| ==> line[i].at < line[j].at)
  }

  ghost predicate Shape(s: Hop) {
    (s.channel.attached ==> s.channel.replay == []) &&
    (s.terminal.socket.Some? ==> s.terminal.backlog == []) &&
    (!s.alive ==> s.channel.replay == []) &&
    Size(s.channel.replay) <= CHANNEL_REPLAY_BUFFER_BYTES
  }

  ghost predicate Inv(s: Hop) {
    Faithful(Line(s), s.written) && Shape(s)
  }

  lemma CutKeepsFaithful(a: Chunk, cut: Chunk, b: Chunk, written: Bytes)
    requires Faithful(a + cut + b, written)
    ensures Faithful(a + b, written)
  {
    var whole := a + cut + b;
    forall i | 0 <= i < |a + b|
      ensures (a + b)[i] == whole[if i < |a| then i else i + |cut|]
    {
    }
  }

  lemma AppendKeepsFaithful(line: Chunk, written: Bytes, bytes: Bytes)
    requires Faithful(line, written)
    ensures Faithful(line, written + bytes)
    ensures Faithful(line + Tagged(bytes, |written|), written + bytes)
  {
  }

  lemma HandedAppend(handed: seq<(nat, Chunk)>, one: (nat, Chunk))
    ensures HandedBytes(handed + [one]) == HandedBytes(handed) + one.1
  {
    assert (handed + [one])[..|handed|] == handed;
  }

  /** Replaying the backlog hands over exactly its bytes. */
  lemma {:induction false} HandedReplay(handed: seq<(nat, Chunk)>, socket: nat, chunks: seq<Chunk>)
    ensures HandedBytes(handed + O.DataActs(T.HandOver(socket, chunks))) == HandedBytes(handed) + Flat(chunks)
    decreases |chunks|
  {
    if chunks == [] {
      assert handed + [] == handed;
    } else {
      HandedAppend(handed, (socket, chunks[0]));
      HandedReplay(handed + [(socket, chunks[0])], socket, chunks[1..]);
      OneActFirst(socket, chunks);
      Associative(handed, [(socket, chunks[0])], O.DataActs(T.HandOver(socket, chunks[1..])));
      Associative(HandedBytes(handed), chunks[0], Flat(chunks[1..]));
    }
  }

  lemma OneActFirst(socket: nat, chunks: seq<Chunk>)
    requires chunks != []
    ensures O.DataActs(T.HandOver(socket, chunks)) ==
            [(socket, chunks[0])] + O.DataActs(T.HandOver(socket, chunks[1..]))
  {
    var acts := T.HandOver(socket, chunks);
    assert acts[1..] == T.HandOver(socket, chunks[1..]);
  }

  /** `after` is `before` with a stretch cut out of it. */
  ghost predicate CutFrom(after: Chunk, before: Chunk) {
    exists n: nat, k: nat :: CutAt(after, before, n, k)
  }

  ghost predicate CutAt(after: Chunk, before: Chunk, n: nat, k: nat) {
    n <= k <= |before| && after == before[..n] + before[k..]
  }

  lemma CutParts(a: Chunk, cut: Chunk, b: Chunk)
    ensures CutFrom(a + b, a + cut + b)
  {
    var whole := a + cut + b;
    assert whole[..|a|] == a && whole[|a| + |cut|..] == b;
    assert CutAt(a + b, whole, |a|, |a| + |cut|);
  }

  lemma CutNothing(line: Chunk)
    ensures CutFrom(line, line)
  {
    assert CutAt(line, line, 0, 0);
  }

  lemma CutFromKeepsFaithful(after: Chunk, before: Chunk, written: Bytes)
    requires CutFrom(after, before) && Faithful(before, written)
    ensures Faithful(after, written)
  {
    var n: nat, k: nat :| CutAt(after, before, n, k);
    assert before == before[..n] + before[n..k] + before[k..];
    CutKeepsFaithful(before[..n], before[n..k], before[k..], written);
  }

  /** The line a step starts from: what was there, and what the pty just wrote. */
  function Longer(s: Hop, e: Event): Chunk {
    if e.PtyWrites? && (e.sendable || !s.channel.attached) then Line(s) + Tagged(e.bytes, |s.written|) else Line(s)
  }

  /* How a line changes when one of its four parts does. */

  lemma CutTail(front: Chunk, tail: Chunk, suffix: Chunk, rest: Chunk)
    requires IsSuffix(suffix, tail)
    ensures CutFrom(front + suffix + rest, front + tail + rest)
  {
    var k := |tail| - |suffix|;
    assert tail == tail[..k] + suffix;
    assert front + tail + rest == front + tail[..k] + (suffix + rest);
    CutParts(front, tail[..k], suffix + rest);
    assert front + suffix + rest == front + (suffix + rest);
  }

  /** The pty writes into the replay buffer. */
  lemma JoinBuffered(h: Chunk, b: Chunk, w: Chunk, r: Chunk, c: Chunk, r': Chunk)
    requires IsSuffix(r', r + c)
    ensures CutFrom(Join(h, b, w, r'), Join(h, b, w, r) + c)
  {
    CutTail(h + b + w, r + c, r', []);
    assert h + b + w + (r + c) + [] == Join(h, b, w, r) + c;
    assert h + b + w + r' + [] == Join(h, b, w, r');
  }

  lemma JoinWireCut(h: Chunk, b: Chunk, w: Chunk, r: Chunk)
    ensures CutFrom(Join(h, b, [], r), Join(h, b, w, r))
  {
    CutParts(h + b, w, r);
    assert h + b + [] == h + b;
  }

  lemma JoinReplayCut(h: Chunk, b: Chunk, w: Chunk, r: Chunk)
    ensures CutFrom(Join(h, b, w, []), Join(h, b, w, r))
  {
    CutParts(h + b + w, r, []);
    assert h + b + w + r + [] == Join(h, b, w, r);
  }

  /** The head of the wire reaches a terminal nobody watches. */
  lemma JoinHeld(h: Chunk, b: Chunk, c: Chunk, w: Chunk, r: Chunk, b': Chunk)
    requires IsSuffix(b', b + c)
    ensures CutFrom(Join(h, b', w, r), Join(h, b, c + w, r))
  {
    CutTail(h, b + c, b', w + r);
    assert h + (b + c) + (w + r) == Join(h, b, c + w, r);
    assert h + b' + (w + r) == Join(h, b', w, r);
  }

  lemma JoinDropped(h: Chunk, b: Chunk, c: Chunk, w: Chunk, r: Chunk)
    ensures CutFrom(Join(h, b, w, r), Join(h, b, c + w, r))
  {
    CutParts(h + b, c, w + r);
    assert h + b + c + (w + r) == Join(h, b, c + w, r);
    assert h + b + (w + r) == Join(h, b, w, r);
  }

  /** It reaches a browser; a backlog does; the replay goes on the wire. */
  lemma JoinMoves(h: Chunk, b: Chunk, c: Chunk, w: Chunk, r: Chunk)
    ensures Join(h + c, [], w, r) == Join(h, [], c + w, r)
    ensures Join(h + b, [], w, r) == Join(h, b, w, r)
    ensures Join(h, b, w + r, []) == Join(h, b, w, r)
    ensures Join(h, b, w + c, []) == Join(h, b, w, []) + c
  {
  }

  /* The same for the steps. */

  lemma PtyWritesCuts(s: Hop, e: Event)
    requires Inv(s) && e.PtyWrites? && Enabled(s, e)
    ensures CutFrom(Line(Step(s, e)), Longer(s, e))
  {
    var t := Step(s, e);
    var chunk := Tagged(e.bytes, |s.written|);
    var h, b, w, r := HandedBytes(s.handed), Flat(s.terminal.backlog), Flat(s.wire), Flat(s.channel.replay);
    if !s.channel.attached {
      BufferStep(s.channel.replay, chunk);
      JoinBuffered(h, b, w, r, chunk, Flat(t.channel.replay));
    } else {
      FlatAppend(s.wire, chunk);
      JoinMoves(h, b, chunk, w, []);
      CutNothing(Line(t));
    }
  }

  lemma ResumeCuts(s: Hop, sendable: bool)
    requires Inv(s) && Enabled(s, AgentResumes(sendable))
    ensures CutFrom(Line(Step(s, AgentResumes(sendable))), Line(s))
  {
    var h, b, w, r := HandedBytes(s.handed), Flat(s.terminal.backlog), Flat(s.wire), Flat(s.channel.replay);
    FlatConcat(s.wire, s.channel.replay);
    JoinMoves(h, b, [], w, r);
    JoinReplayCut(h, b, w, r);
    CutNothing(Line(s));
  }

  lemma TunnelCuts(s: Hop, e: Event)
    requires Enabled(s, e) && (e.GatewayLosesTunnel? || e.GatewayAccepts? || e.PtyDies?)
    ensures CutFrom(Line(Step(s, e)), Line(s))
  {
    var h, b, w, r := HandedBytes(s.handed), Flat(s.terminal.backlog), Flat(s.wire), Flat(s.channel.replay);
    JoinWireCut(h, b, w, r);
    JoinReplayCut(h, b, w, r);
  }

  /** What one emitted chunk does to the terminal's part of the line. */
  lemma EmittedParts(s: Hop, chunk: Chunk)
    requires s.terminal.socket.Some? ==> s.terminal.backlog == []
    ensures var t := Emitted(s, chunk);
      t.wire == s.wire && t.channel == s.channel &&
      (s.terminal.socket.Some? ==>
        HandedBytes(t.handed) == HandedBytes(s.handed) + chunk && Flat(t.terminal.backlog) == [] == Flat(s.terminal.backlog)) &&
      (s.terminal.socket.None? ==>
        t.handed == s.handed && IsSuffix(Flat(t.terminal.backlog), Flat(s.terminal.backlog) + chunk))
  {
    if s.terminal.socket.Some? {
      var socket := s.terminal.socket.value;
      var acts: seq<T.Act<Tag>> := [T.DataTo(socket, chunk)];
      assert O.DataActs(acts) == [(socket, chunk)] + O.DataActs(acts[1..]);
      HandedAppend(s.handed, (socket, chunk));
    } else {
      EvictedBytesAreASuffix(s.terminal.backlog + [chunk], MAX_BACKLOG_BYTES);
      FlatAppend(s.terminal.backlog, chunk);
      assert s.handed + [] == s.handed;
    }
  }

  lemma DeliveredCuts(s: Hop)
    requires Inv(s) && Enabled(s, Delivered)
    ensures CutFrom(Line(Step(s, Delivered)), Line(s))
  {
    var t := Step(s, Delivered);
    var c := s.wire[0];
    var h, b, w, r := HandedBytes(s.handed), Flat(s.terminal.backlog), Flat(s.wire[1..]), Flat(s.channel.replay);
    assert Flat(s.wire) == c + w;
    EmittedParts(s.(wire := s.wire[1..]), c);
    if !s.linked {
      JoinDropped(h, b, c, w, r);
    } else if s.terminal.socket.Some? {
      JoinMoves(h, b, c, w, r);
      CutNothing(Line(s));
    } else {
      JoinHeld(h, b, c, w, r, Flat(t.terminal.backlog));
    }
  }

  lemma BrowserParts(s: Hop, h: O.Happening<Tag>)
    requires !h.Output?
    ensures var t := Step(s, Browser(h));
      t.wire == s.wire && t.channel == s.channel && t.written == s.written &&
      (h.Arrival? ==> HandedBytes(t.handed) == HandedBytes(s.handed) + Flat(s.terminal.backlog) && t.terminal.backlog == []) &&
      (!h.Arrival? ==> t.handed == s.handed && t.terminal.backlog == s.terminal.backlog)
  {
    match h {
      case Arrival(socket) =>
        O.ArrivalActs(s.terminal, socket);
        HandedReplay(s.handed, socket, s.terminal.backlog);
      case ShellExit =>
        O.FarewellHasNoData<Tag>(s.terminal.socket);
        assert s.handed + [] == s.handed;
      case SessionEnd =>
        O.FarewellHasNoData<Tag>(s.terminal.socket);
        assert s.handed + [] == s.handed;
      case Departure(_, _) =>
        assert s.handed + [] == s.handed;
      case GraceOver =>
        assert s.handed + [] == s.handed;
    }
  }

  lemma BrowserKeepsLine(s: Hop, h: O.Happening<Tag>)
    requires !h.Output?
    ensures Line(Step(s, Browser(h))) == Line(s)
  {
    BrowserParts(s, h);
    JoinMoves(HandedBytes(s.handed), Flat(s.terminal.backlog), [], Flat(s.wire), Flat(s.channel.replay));
  }

  /** Each step only appends what the pty just wrote and cuts stretches out. */
  lemma StepCuts(s: Hop, e: Event)
    requires Inv(s) && Enabled(s, e)
    ensures CutFrom(Line(Step(s, e)), Longer(s, e))
  {
    match e {
      case PtyWrites(_, _) => PtyWritesCuts(s, e);
      case Delivered => DeliveredCuts(s);
      case Browser(h) => BrowserKeepsLine(s, h); CutNothing(Line(s));
      case AgentLosesTunnel(_) => CutNothing(Line(s));
      case AgentStartsAfresh => CutNothing(Line(s));
      case GatewayUnlinks => CutNothing(Line(s));
      case AgentResumes(sendable) => ResumeCuts(s, sendable);
      case _ => TunnelCuts(s, e);
    }
  }

  lemma StepKeepsShape(s: Hop, e: Event)
    requires Shape(s) && Enabled(s, e)
    ensures Shape(Step(s, e))
  {
    match e {
      case PtyWrites(bytes, _) => BufferStep(s.channel.replay, Tagged(bytes, |s.written|));
      case Browser(h) => ReactKeepsShape(s.terminal, h);
      case Delivered => ReactKeepsShape(s.terminal, O.Output(s.wire[0]));
      case _ =>
    }
  }

  lemma ReactKeepsShape(t: T.Terminal<Tag>, h: O.Happening<Tag>)
    requires t.socket.Some? ==> t.backlog == []
    ensures var after := O.React(t, h).terminal; after.socket.Some? ==> after.backlog == []
  {
  }

  lemma StepKeepsInv(s: Hop, e: Event)
    requires Inv(s) && Enabled(s, e)
    ensures Inv(Step(s, e))
  {
    var t := Step(s, e);
    StepKeepsShape(s, e);
    StepCuts(s, e);
    if e.PtyWrites? {
      AppendKeepsFaithful(Line(s), s.written, e.bytes);
    }
    CutFromKeepsFaithful(Line(t), Longer(s, e), t.written);
  }

  lemma {:induction false} RunKeepsInv(s: Hop, events: seq<Event>, last: Hop)
    requires Inv(s) && Runs(s, events, last)
    ensures Inv(last)
    decreases |events|
  {
    if events != [] {
      StepKeepsInv(s, events[0]);
      RunKeepsInv(Step(s, events[0]), events[1..], last);
    }
  }

  lemma StartInv(socket: nat)
    ensures Inv(Start(socket)) && Line(Start(socket)) == []
  {
  }

  /** Two-hop ordering: under any interleaving of tunnel drops, resumes, browser
      drops, takeovers and reattaches, what browsers were handed is bytes the pty
      wrote, in the order it wrote them, none of them twice; and so is that
      together with everything still on its way. */
  lemma DeliveryIsInOrder(socket: nat, events: seq<Event>, last: Hop)
    requires Runs(Start(socket), events, last)
    ensures Faithful(HandedBytes(last.handed), last.written)
    ensures Faithful(Line(last), last.written)
  {
    StartInv(socket);
    RunKeepsInv(Start(socket), events, last);
    PrefixIsFaithful(HandedBytes(last.handed), Flat(last.terminal.backlog), Flat(last.wire), Flat(last.channel.replay),
                     last.written);
  }

  lemma PrefixIsFaithful(h: Chunk, b: Chunk, w: Chunk, r: Chunk, written: Bytes)
    requires Faithful(Join(h, b, w, r), written)
    ensures Faithful(h, written)
  {
    var line := Join(h, b, w, r);
    assert forall i :: 0 <= i < |h| ==> h[i] == line[i];
  }

  /* --------------------------- when nothing at all is lost ---------------------- */

  /** Every byte written so far was handed over or is on its way. */
  ghost predicate Complete(s: Hop) {
    |Line(s)| == |s.written|
  }

  /** A guard on each step that any party could check before taking it. */
  predicate Lossless(s: Hop, e: Event) {
    match e
    case PtyWrites(bytes, sendable) =>
      bytes == [] || (if s.channel.attached then sendable
                      else Size(s.channel.replay) + |bytes| <= CHANNEL_REPLAY_BUFFER_BYTES)
    case PtyDies => Size(s.channel.replay) == 0
    case GatewayLosesTunnel => Size(s.wire) == 0
    case GatewayAccepts => Size(s.wire) == 0
    case AgentResumes(sendable) => sendable || Size(s.channel.replay) == 0
    case Delivered =>
      s.wire == [] ||
      (if !s.linked then s.wire[0] == []
       else s.terminal.socket.Some? || Size(s.terminal.backlog) == 0
            || Size(s.terminal.backlog) + |s.wire[0]| <= MAX_BACKLOG_BYTES)
    case _ => true
  }

  lemma LineSize(s: Hop)
    ensures |Line(s)| == |HandedBytes(s.handed)| + Size(s.terminal.backlog) + Size(s.wire) + Size(s.channel.replay)
  {
  }

  lemma PtyWritesLoses(s: Hop, e: Event)
    requires Shape(s) && Complete(s) && e.PtyWrites? && Enabled(s, e)
    ensures Complete(Step(s, e)) <==> Lossless(s, e)
  {
    LineSize(s);
    LineSize(Step(s, e));
    if s.channel.attached {
      FlatAppend(s.wire, Tagged(e.bytes, |s.written|));
    } else {
      BufferLosesIff(s.channel.replay, Tagged(e.bytes, |s.written|));
    }
  }

  lemma DeliveredLoses(s: Hop)
    requires Inv(s) && Complete(s) && Enabled(s, Delivered)
    ensures Complete(Step(s, Delivered)) <==> Lossless(s, Delivered)
  {
    var t := Step(s, Delivered);
    var c := s.wire[0];
    LineSize(s);
    LineSize(t);
    assert Flat(s.wire) == c + Flat(s.wire[1..]);
    EmittedParts(s.(wire := s.wire[1..]), c);
    if s.linked && s.terminal.socket.None? {
      EvictLosesIff(s.terminal.backlog, c, MAX_BACKLOG_BYTES);
    }
  }

  lemma TunnelLoses(s: Hop, e: Event)
    requires Complete(s) && Enabled(s, e)
    requires e.GatewayLosesTunnel? || e.GatewayAccepts? || e.PtyDies? || e.AgentResumes?
    ensures Complete(Step(s, e)) <==> Lossless(s, e)
  {
    LineSize(s);
    LineSize(Step(s, e));
    FlatConcat(s.wire, s.channel.replay);
  }

  /** A step loses nothing exactly when its guard holds: severing the tunnel does
      when frames are in flight on it, and a ring does when it overflows. */
  lemma LosesNothingIff(s: Hop, e: Event)
    requires Inv(s) && Complete(s) && Enabled(s, e)
    ensures Complete(Step(s, e)) <==> Lossless(s, e)
  {
    match e {
      case PtyWrites(_, _) => PtyWritesLoses(s, e);
      case Delivered => DeliveredLoses(s);
      case Browser(h) => BrowserKeepsLine(s, h);
      case GatewayLosesTunnel => TunnelLoses(s, e);
      case GatewayAccepts => TunnelLoses(s, e);
      case PtyDies => TunnelLoses(s, e);
      case AgentResumes(_) => TunnelLoses(s, e);
      case AgentLosesTunnel(_) =>
      case AgentStartsAfresh =>
      case GatewayUnlinks =>
    }
  }

  ghost predicate AllLossless(s: Hop, events: seq<Event>)
    decreases |events|
  {
    events == [] ||
    (Lossless(s, events[0]) && (Enabled(s, events[0]) ==> AllLossless(Step(s, events[0]), events[1..])))
  }

  /** Over a run of such steps the line is the whole output, byte for byte. */
  lemma {:induction false} LosslessRunKeepsAll(s: Hop, events: seq<Event>, last: Hop)
    requires Inv(s) && Complete(s) && Runs(s, events, last) && AllLossless(s, events)
    ensures Inv(last) && Complete(last)
    decreases |events|
  {
    if events != [] {
      StepKeepsInv(s, events[0]);
      LosesNothingIff(s, events[0]);
      LosslessRunKeepsAll(Step(s, events[0]), events[1..], last);
    }
  }

  /** A faithful line as long as the output is the output. */
  lemma CompleteIsEverything(line: Chunk, written: Bytes)
    requires Faithful(line, written) && |line| == |written|
    ensures line == Tagged(written, 0)
  {
    forall i | 0 <= i < |line| ensures line[i] == Tagged(written, 0)[i] {
      PositionBounds(line, written, i);
    }
  }

  lemma PositionBounds(line: Chunk, written: Bytes, i: nat)
    requires Faithful(line, written) && i < |line|
    ensures i <= line[i].at <= |written| - |line| + i
  {
    PositionAbove(line, written, i);
    PositionBelow(line, written, i);
  }

  lemma {:induction false} PositionAbove(line: Chunk, written: Bytes, i: nat)
    requires Faithful(line, written) && i < |line|
    ensures i <= line[i].at
  {
    if i > 0 {
      PositionAbove(line, written, i - 1);
    }
  }

  lemma {:induction false} PositionBelow(line: Chunk, written: Bytes, i: nat)
    requires Faithful(line, written) && i < |line|
    ensures line[i].at <= |written| - |line| + i
    decreases |line| - i
  {
    if i + 1 < |line| {
      PositionBelow(line, written, i + 1);
    }
  }

  /** Reconnecting inside the window, with nothing in flight and no ring full,
      hands over or still holds exactly what the pty wrote. */
  lemma NothingIsLost(socket: nat, events: seq<Event>, last: Hop)
    requires Runs(Start(socket), events, last) && AllLossless(Start(socket), events)
    ensures Line(last) == Tagged(last.written, 0)
  {
    StartInv(socket);
    LosslessRunKeepsAll(Start(socket), events, last);
    CompleteIsEverything(Line(last), last.written);
  }

  /** It happens: a byte in flight when the gateway loses the tunnel is gone. */
  lemma ByteIsLost(socket: nat, b: Byte)
    ensures var s := Step(Start(socket), PtyWrites([b], true));
            var t := Step(s, GatewayLosesTunnel);
            Runs(Start(socket), [PtyWrites([b], true), GatewayLosesTunnel], t) &&
            Complete(s) && t.written == [b] && Line(t) == []
  {
    var s := Step(Start(socket), PtyWrites([b], true));
    var t := Step(s, GatewayLosesTunnel);
    StartInv(socket);
    LosesNothingIff(Start(socket), PtyWrites([b], true));
    assert [PtyWrites([b], true), GatewayLosesTunnel][1..] == [GatewayLosesTunnel];
    assert [GatewayLosesTunnel][1..] == [];
    assert Runs(t, [], t);
    assert Flat(t.wire) == [] && Flat(t.channel.replay) == [];
  }
}
