/** The agent's half of a file stream (apps/agent/src/files.ts): what one stream
    does on each event, and the `FileService` that keeps a table of them. */
module AgentFiles {
  import opened Common
  import opened Protocol

  const MAX_STREAMS: nat := 64

  /** A Node write stream: bytes accepted but still in memory, bytes on disk, and
      whether a `drain` event is owed to the writer. */
  datatype Sink = Sink(buffered: Bytes, disk: Bytes, needDrain: bool)

  /** `Reading.rest` is what the file still holds; `flowing` is the pause state. */
  datatype StreamState =
    | Reading(credit: int, flowing: bool, rest: Bytes)
    | Writing(sinceCredit: nat, awaitingDrain: bool, ending: bool, sink: Sink)

  /** What an event leaves behind: the new state and the frames it sent. */
  datatype Effect = Effect(state: StreamState, sent: seq<Frame>)

  /* ------------------------- one stream, event by event ------------------------- */

  function OpenedForRead(content: Bytes): StreamState {
    Reading(STREAM_WINDOW_BYTES, true, content)
  }

  const OPENED_FOR_WRITE: StreamState := Writing(0, false, false, Sink([], [], false))

  /** The file hands over its next `k` bytes. */
  function ChunkRead(s: StreamState, k: nat): Effect
    requires s.Reading? && k <= |s.rest|
  {
    Effect(Reading(s.credit - k, s.flowing && s.credit - k > 0, s.rest[k..]), [Data(s.rest[..k])])
  }

  function Credited(s: StreamState, bytes: int): StreamState
    requires s.Reading?
  {
    Reading(s.credit + bytes, s.flowing || s.credit + bytes > 0, s.rest)
  }

  /** Everything owed is granted back in one frame, and never an empty one. */
  function Released(s: StreamState): Effect
    requires s.Writing?
  {
    if s.sinceCredit == 0 then Effect(s, []) else Effect(s.(sinceCredit := 0), [Credit(s.sinceCredit)])
  }

  /** Node's `write`: refused once the stream is ending, and reporting a full
      buffer at the high-water mark. */
  function SinkAccepts(s: StreamState, payload: Bytes, highWater: nat): Sink
    requires s.Writing?
  {
    var buffered := s.sink.buffered + payload;
    if s.ending then s.sink
    else Sink(buffered, s.sink.disk, s.sink.needDrain || |buffered| >= highWater)
  }

  predicate SinkKeptUp(s: StreamState, payload: Bytes, highWater: nat)
    requires s.Writing?
  {
    !s.ending && |s.sink.buffered| + |payload| < highWater
  }

  function Written(s: StreamState, payload: Bytes, highWater: nat): Effect
    requires s.Writing?
  {
    var after := s.(sink := SinkAccepts(s, payload, highWater), sinceCredit := s.sinceCredit + |payload|);
    if SinkKeptUp(s, payload, highWater) then Released(after) else Effect(after.(awaitingDrain := true), [])
  }

  function FlushedToDisk(s: StreamState, k: nat): StreamState
    requires s.Writing? && k <= |s.sink.buffered|
  {
    s.(sink := Sink(s.sink.buffered[k..], s.sink.disk + s.sink.buffered[..k], s.sink.needDrain))
  }

  /** Node emits `drain` only for an emptied buffer of a stream not yet ending. */
  predicate DrainDue(s: StreamState) {
    s.Writing? && s.sink.needDrain && s.sink.buffered == [] && !s.ending
  }

  function Drained(s: StreamState): Effect
    requires s.Writing?
  {
    var after := s.(sink := s.sink.(needDrain := false), awaitingDrain := false);
    if s.awaitingDrain then Released(after) else Effect(after, [])
  }

  /** The far side sent everything; the rest of the buffer still goes to disk. */
  function Ended(s: StreamState): StreamState
    requires s.Writing?
  {
    s.(ending := true)
  }

  /** Only then is the far side answered: everything it sent is on disk. */
  predicate Finished(s: StreamState) {
    s.Writing? && s.ending && s.sink.buffered == []
  }

  /** The credit discipline every stream keeps: a reader flows exactly while it
      has credit, and a writer that owes credit has a drain handler to repay it. */
  predicate Disciplined(s: StreamState) {
    match s
    case Reading(credit, flowing, _) => flowing <==> credit > 0
    case Writing(sinceCredit, awaitingDrain, _, _) => sinceCredit > 0 ==> awaitingDrain
  }

  /** Every event keeps the discipline, so no handler but the one `drain` is needed. */
  lemma DisciplineIsKept(s: StreamState, payload: Bytes, highWater: nat, k: nat, bytes: nat)
    requires Disciplined(s)
    ensures s.Reading? && k <= |s.rest| && s.flowing ==> Disciplined(ChunkRead(s, k).state)
    ensures s.Reading? ==> Disciplined(Credited(s, bytes))
    ensures s.Writing? ==> Disciplined(Written(s, payload, highWater).state)
    ensures s.Writing? && k <= |s.sink.buffered| ==> Disciplined(FlushedToDisk(s, k))
    ensures s.Writing? ==> Disciplined(Drained(s).state)
    ensures s.Writing? ==> Disciplined(Ended(s))
  {
  }

  /* ------------------------------ the cap on streams --------------------------- */

  /** Channels in the table, and those whose open passed `reserve` and still waits
      for the file: they are not in the table yet. */
  datatype Slots = Slots(taken: set<nat>, opening: seq<nat>)

  datatype SlotEvent = Begin(channelId: nat) | Settle(i: nat, ok: bool) | Free(channelId: nat)

  predicate SlotPossible(s: Slots, e: SlotEvent) {
    e.Settle? ==> e.i < |s.opening|
  }

  function SlotStep(s: Slots, e: SlotEvent): Slots
    requires SlotPossible(s, e)
  {
    match e
    case Begin(channelId) =>
      if channelId !in s.taken && |s.taken| < MAX_STREAMS then s.(opening := s.opening + [channelId]) else s
    case Settle(i, ok) =>
      Slots(if ok then s.taken + {s.opening[i]} else s.taken, s.opening[..i] + s.opening[i + 1..])
    case Free(channelId) => s.(taken := s.taken - {channelId})
  }

  /** A run in which no more than `k` opens overlap. */
  ghost predicate SlotRuns(s: Slots, events: seq<SlotEvent>, t: Slots, k: nat)
    decreases |events|
  {
    |s.opening| <= k &&
    if events == [] then t == s
    else SlotPossible(s, events[0]) && SlotRuns(SlotStep(s, events[0]), events[1..], t, k)
  }

  /** Beyond the cap only opens that had already begun can still add to it. */
  predicate SlotsBounded(s: Slots, k: nat) {
    |s.taken| >= MAX_STREAMS ==> |s.taken| + |s.opening| < MAX_STREAMS + k
  }

  /** `reserve` looks at the table before the file is opened: with opens one at a
      time no more than 64 streams are ever open, with `k` overlapping 63 + k. */
  lemma {:induction false} OverlapBoundsStreams(s: Slots, events: seq<SlotEvent>, t: Slots, k: nat)
    requires k >= 1 && SlotRuns(s, events, t, k) && SlotsBounded(s, k)
    ensures |t.taken| < MAX_STREAMS + k
    decreases |events|
  {
    if events != [] {
      SlotStepBounded(s, events[0], k);
      OverlapBoundsStreams(SlotStep(s, events[0]), events[1..], t, k);
    }
  }

  lemma SlotStepBounded(s: Slots, e: SlotEvent, k: nat)
    requires SlotPossible(s, e) && SlotsBounded(s, k) && |s.opening| <= k
    ensures SlotsBounded(SlotStep(s, e), k)
  {
    match e {
      case Begin(_) =>
      case Settle(i, ok) =>
        var ch := s.opening[i];
        assert |s.taken + {ch}| <= |s.taken| + 1;
      case Free(ch) =>
        SubsetIsNoLarger(s.taken - {ch}, s.taken);
    }
  }

  function Numbered(from: nat, n: nat): (channels: seq<nat>)
    ensures |channels| == n
  {
    seq(n, i requires 0 <= i < n => from + i)
  }

  lemma SlotRunOne(s: Slots, e: SlotEvent, rest: seq<SlotEvent>, t: Slots, k: nat) returns (events: seq<SlotEvent>)
    requires |s.opening| <= k && SlotPossible(s, e) && SlotRuns(SlotStep(s, e), rest, t, k)
    ensures SlotRuns(s, events, t, k)
  {
    events := [e] + rest;
    assert events[1..] == rest;
  }

  /** Different channels, none of them in the table. */
  predicate AllNew(s: Slots) {
    (forall i :: 0 <= i < |s.opening| ==> s.opening[i] !in s.taken) &&
    (forall i, j :: 0 <= i < j < |s.opening| ==> s.opening[i] != s.opening[j])
  }

  /** The waiting opens succeed, one after the other. */
  lemma {:induction false} AllSettle(s: Slots, k: nat) returns (events: seq<SlotEvent>, t: Slots)
    requires |s.opening| <= k && AllNew(s)
    ensures SlotRuns(s, events, t, k) && |t.taken| == |s.taken| + |s.opening|
    decreases |s.opening|
  {
    if s.opening == [] {
      events, t := [], s;
    } else {
      var next := Slots(s.taken + {s.opening[0]}, s.opening[1..]);
      assert SlotStep(s, Settle(0, true)) == next;
      var rest;
      rest, t := AllSettle(next, k);
      events := SlotRunOne(s, Settle(0, true), rest, t, k);
    }
  }

  /** With 63 streams open, `k` opens pass `reserve` before any of them is done. */
  lemma {:induction false} OpensPileUp(taken: set<nat>, above: nat, n: nat, k: nat)
    returns (events: seq<SlotEvent>, t: Slots)
    requires |taken| == MAX_STREAMS - 1 && (forall channelId <- taken :: channelId < above) && n <= k
    ensures SlotRuns(Slots(taken, Numbered(above, n)), events, t, k) && |t.taken| == MAX_STREAMS - 1 + k
    decreases k - n
  {
    var s := Slots(taken, Numbered(above, n));
    if n == k {
      events, t := AllSettle(s, k);
    } else {
      var more;
      more, t := OpensPileUp(taken, above, n + 1, k);
      assert Numbered(above, n) + [above + n] == Numbered(above, n + 1);
      events := SlotRunOne(s, Begin(above + n), more, t, k);
    }
  }

  /** The bound is reached: from 63 open streams, `k` overlapping opens make 63 + k. */
  lemma OverlapReachesBound(taken: set<nat>, above: nat, k: nat) returns (events: seq<SlotEvent>, t: Slots)
    requires |taken| == MAX_STREAMS - 1 && forall channelId <- taken :: channelId < above
    ensures SlotRuns(Slots(taken, []), events, t, k) && |t.taken| == MAX_STREAMS - 1 + k
  {
    events, t := OpensPileUp(taken, above, 0, k);
    assert Numbered(above, 0) == [];
  }

  /* ------------------------------- the service ------------------------------- */

  datatype Found = Missing | Directory | Regular(content: Bytes)

  class FileService {
    var streams: map<nat, StreamState>
    /** Frames handed to the hooks, oldest first. */
    var sent: seq<(nat, Frame)>
    const highWater: nat

    constructor (highWater: nat)
      ensures streams == map[] && sent == [] && this.highWater == highWater
    {
      streams, sent, this.highWater := map[], [], highWater;
    }

    predicate Valid()
      reads this
    {
      forall ch <- streams :: Disciplined(streams[ch])
    }

    /** Applies the effect of one event to one channel and to no other. */
    twostate predicate Applied(channelId: nat, effect: Effect)
      reads this
    {
      streams == old(streams)[channelId := effect.state] &&
      sent == old(sent) + Tagged(channelId, effect.sent)
    }

    method Send(channelId: nat, frame: Frame)
      modifies this`sent
      ensures sent == old(sent) + Tagged(channelId, [frame])
    {
      sent := sent + [(channelId, frame)];
      assert Tagged(channelId, [frame]) == [(channelId, frame)];
    }

    method Reserve(channelId: nat) returns (accepted: bool)
      ensures accepted <==> channelId !in streams && |streams| < MAX_STREAMS
    {
      accepted := channelId !in streams && |streams| < MAX_STREAMS;
    }

    /** The rest of `openRead`, once `stat` has answered. */
    method OpenRead(channelId: nat, found: Found) returns (reply: Frame)
      requires Valid()
      modifies this`streams
      ensures Valid()
      ensures found.Regular? ==> reply == RpcOk && streams == old(streams)[channelId := OpenedForRead(found.content)]
      ensures !found.Regular? ==> reply == RpcErr && streams == old(streams)
    {
      match found
      case Missing => reply := RpcErr;
      case Directory => reply := RpcErr;
      case Regular(content) =>
        streams := streams[channelId := Reading(STREAM_WINDOW_BYTES, true, content)];
        reply := RpcOk;
    }

    method OpenWrite(channelId: nat, openable: bool) returns (reply: Frame)
      requires Valid()
      modifies this`streams
      ensures Valid()
      ensures openable ==> reply == RpcOk && streams == old(streams)[channelId := OPENED_FOR_WRITE]
      ensures !openable ==> reply == RpcErr && streams == old(streams)
    {
      if openable {
        streams := streams[channelId := Writing(0, false, false, Sink([], [], false))];
        reply := RpcOk;
      } else {
        reply := RpcErr;
      }
    }

    /** The `data` event of a read stream. */
    method OnData(channelId: nat, k: nat)
      requires Valid() && channelId in streams && streams[channelId].Reading?
      requires streams[channelId].flowing && k <= |streams[channelId].rest|
      modifies this
      ensures Valid() && Applied(channelId, ChunkRead(old(streams)[channelId], k))
    {
      var state := streams[channelId];
      var chunk := state.rest[..k];
      state := state.(rest := state.rest[k..], credit := state.credit - |chunk|);
      Send(channelId, Data(chunk));
      if state.credit <= 0 {
        state := state.(flowing := false);
      }
      streams := streams[channelId := state];
    }

    /** The `end` event of a read stream: everything was read and sent. */
    method OnEnd(channelId: nat)
      requires Valid() && channelId in streams && streams[channelId].Reading?
      requires streams[channelId].flowing && streams[channelId].rest == []
      modifies this
      ensures Valid() && streams == old(streams) - {channelId}
      ensures sent == old(sent) + Tagged(channelId, [End])
    {
      streams := streams - {channelId};
      Send(channelId, End);
    }

    /** The callback of a write stream's `end`: everything is on disk. */
    method OnFinished(channelId: nat)
      requires Valid() && channelId in streams && Finished(streams[channelId])
      modifies this
      ensures Valid() && streams == old(streams) - {channelId}
      ensures sent == old(sent) + Tagged(channelId, [End])
    {
      streams := streams - {channelId};
      Send(channelId, End);
    }

    /** The `error` event of either. */
    method OnError(channelId: nat)
      requires Valid() && channelId in streams
      modifies this
      ensures Valid() && streams == old(streams) - {channelId}
      ensures sent == old(sent) + Tagged(channelId, [StreamError])
    {
      streams := streams - {channelId};
      Send(channelId, StreamError);
    }

    predicate Owns(channelId: nat)
      reads this
    {
      channelId in streams
    }

    method ReleaseCredit(channelId: nat)
      requires channelId in streams && streams[channelId].Writing?
      modifies this
      ensures Applied(channelId, Released(old(streams)[channelId]))
    {
      var state := streams[channelId];
      if state.sinceCredit == 0 {
        assert Tagged<Frame>(channelId, []) == [];
        return;
      }
      Send(channelId, Credit(state.sinceCredit));
      streams := streams[channelId := state.(sinceCredit := 0)];
    }

    /** Incoming bytes for a write stream. */
    method Write(channelId: nat, payload: Bytes)
      requires Valid()
      modifies this
      ensures Valid()
      ensures if old(Owns(channelId)) && old(streams)[channelId].Writing?
              then Applied(channelId, Written(old(streams)[channelId], payload, highWater))
              else unchanged(this)
    {
      if channelId !in streams || !streams[channelId].Writing? {
        return;
      }
      var state := streams[channelId];
      var flushed := SinkKeptUp(state, payload, highWater);
      state := state.(sink := SinkAccepts(state, payload, highWater), sinceCredit := state.sinceCredit + |payload|);
      streams := streams[channelId := state];
      if flushed {
        ReleaseCredit(channelId);
        return;
      }
      assert Tagged<Frame>(channelId, []) == [];
      if state.awaitingDrain {
        return;
      }
      streams := streams[channelId := state.(awaitingDrain := true)];
    }

    /** The single pending `drain` handler. */
    method OnDrain(channelId: nat)
      requires Valid() && channelId in streams && DrainDue(streams[channelId]) && streams[channelId].awaitingDrain
      modifies this
      ensures Valid() && Applied(channelId, Drained(old(streams)[channelId]))
    {
      var state := streams[channelId];
      streams := streams[channelId := state.(sink := state.sink.(needDrain := false), awaitingDrain := false)];
      ReleaseCredit(channelId);
    }

    /** The far side finished sending, or gave up on a download. */
    method EndStream(channelId: nat)
      requires Valid()
      modifies this
      ensures Valid() && sent == old(sent)
      ensures channelId !in old(streams) ==> streams == old(streams)
      ensures channelId in old(streams) && old(streams)[channelId].Reading? ==> streams == old(streams) - {channelId}
      ensures channelId in old(streams) && old(streams)[channelId].Writing? ==>
                streams == old(streams)[channelId := Ended(old(streams)[channelId])]
    {
      if channelId !in streams {
        return;
      }
      var state := streams[channelId];
      if state.Reading? {
        streams := streams - {channelId};
        return;
      }
      streams := streams[channelId := state.(ending := true)];
    }

    /** More room on the far side: keep reading. */
    method AddCredit(channelId: nat, bytes: nat)
      requires Valid()
      modifies this
      ensures Valid() && sent == old(sent)
      ensures if old(Owns(channelId)) && old(streams)[channelId].Reading?
              then streams == old(streams)[channelId := Credited(old(streams)[channelId], bytes)]
              else unchanged(this)
    {
      if channelId !in streams || !streams[channelId].Reading? {
        return;
      }
      var state := streams[channelId].(credit := streams[channelId].credit + bytes);
      if state.credit > 0 {
        state := state.(flowing := true);
      }
      streams := streams[channelId := state];
    }

    method Abort(channelId: nat)
      requires Valid()
      modifies this`streams
      ensures Valid() && streams == old(streams) - {channelId}
    {
      if channelId !in streams {
        return;
      }
      streams := streams - {channelId};
    }

    /** Tunnel lost: no stream survives, and nothing is said about any of them. */
    method AbortAll()
      requires Valid()
      modifies this`streams
      ensures Valid() && streams == map[]
    {
      var channelIds := streams.Keys;
      while channelIds != {}
        invariant Valid() && streams.Keys == channelIds
        decreases channelIds
      {
        var channelId :| channelId in channelIds;
        Abort(channelId);
        channelIds := channelIds - {channelId};
      }
    }
  }
}
