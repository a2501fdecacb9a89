/** The agent's live terminals (apps/agent/src/channels.ts): ptys held across a
    dropped tunnel, their replay buffers, and the grace timers that kill them. */
module AgentChannels {
  import opened Common
  import opened Rings

  const MAX_CHANNELS: nat := 32

  /** `birth` tells one pty from the next on a reused channel id; `timer` is the
      handle the source keeps, the number of the `detachAll` that set it. */
  datatype Channel<T> = Channel(birth: nat, attached: bool, replay: seq<seq<T>>, replayBytes: nat, timer: Option<nat>)

  /** A grace timer set and neither cleared nor fired, with what its closure kills. */
  datatype Timer = Timer(epoch: nat, channelId: nat, birth: nat)

  datatype Sent<T> = Output(chunk: seq<T>) | Exited

  datatype Manager<T> = Manager(
    channels: map<nat, Channel<T>>,
    pending: set<Timer>,
    epoch: nat,
    births: nat,
    killed: set<nat>,
    sent: seq<(nat, Sent<T>)>)

  datatype Event<T> =
    | Open(channelId: nat, spawns: bool)
    | PtyData(channelId: nat, chunk: seq<T>)
    | PtyExit(channelId: nat)
    | Close(channelId: nat)
    | DetachAll
    | Fire(timer: Timer)

  /* --------------------------------- one channel -------------------------------- */

  function Spawned<T>(birth: nat): Channel<T> {
    Channel(birth, true, [], 0, None)
  }

  function Buffered<T>(c: Channel<T>, chunk: seq<T>): Channel<T> {
    var replay := Buffer(c.replay, chunk);
    c.(replay := replay, replayBytes := Size(replay))
  }

  function Resumed<T>(c: Channel<T>): Channel<T> {
    c.(attached := true, replay := [], replayBytes := 0, timer := None)
  }

  function Outputs<T>(channelId: nat, chunks: seq<seq<T>>): seq<(nat, Sent<T>)> {
    if chunks == [] then [] else [(channelId, Output(chunks[0]))] + Outputs(channelId, chunks[1..])
  }

  predicate ChannelOk<T>(c: Channel<T>) {
    c.replayBytes == Size(c.replay) <= CHANNEL_REPLAY_BUFFER_BYTES && (c.attached ==> c.replay == [])
  }

  /* -------------------------------- the whole table ----------------------------- */

  /** `clearTimeout` on the handle of record, if there is one. */
  function Cleared<T>(m: Manager<T>, channelId: nat): set<Timer>
    requires channelId in m.channels
  {
    if m.channels[channelId].timer.None? then m.pending
    else m.pending - {HandleOf(channelId, m.channels[channelId])}
  }

  function HandleOf<T>(channelId: nat, c: Channel<T>): Timer
    requires c.timer.Some?
  {
    Timer(c.timer.value, channelId, c.birth)
  }

  /** Every path that drops a channel from the table goes through here. */
  function Forgotten<T>(m: Manager<T>, channelId: nat): Manager<T> {
    if channelId !in m.channels then m
    else m.(pending := Cleared(m, channelId), channels := m.channels - {channelId})
  }

  /** `detachAll` arms a timer for each channel and does not clear the old one. */
  function Detached<T>(m: Manager<T>): Manager<T> {
    m.(channels := map ch | ch in m.channels :: m.channels[ch].(attached := false, timer := Some(m.epoch)),
       pending := m.pending + set ch | ch in m.channels :: Timer(m.epoch, ch, m.channels[ch].birth),
       epoch := m.epoch + 1)
  }

  predicate Possible<T>(m: Manager<T>, e: Event<T>) {
    match e
    case PtyData(channelId, _) => channelId in m.channels
    case PtyExit(channelId) => channelId in m.channels
    case Fire(timer) => timer in m.pending
    case _ => true
  }

  function Step<T>(m: Manager<T>, e: Event<T>): Manager<T>
    requires Possible(m, e)
  {
    match e
    case Open(channelId, spawns) =>
      if channelId in m.channels then
        if m.channels[channelId].attached then m
        else
          m.(pending := Cleared(m, channelId),
             channels := m.channels[channelId := Resumed(m.channels[channelId])],
             sent := m.sent + Outputs(channelId, m.channels[channelId].replay))
      else if |m.channels| >= MAX_CHANNELS || !spawns then m
      else m.(channels := m.channels[channelId := Spawned(m.births)], births := m.births + 1)
    case PtyData(channelId, chunk) =>
      var c := m.channels[channelId];
      if c.attached then m.(sent := m.sent + [(channelId, Output(chunk))])
      else m.(channels := m.channels[channelId := Buffered(c, chunk)])
    case PtyExit(channelId) =>
      var attached := m.channels[channelId].attached;
      Forgotten(m, channelId).(sent := if attached then m.sent + [(channelId, Exited)] else m.sent)
    case Close(channelId) =>
      if channelId !in m.channels then m
      else Forgotten(m, channelId).(killed := m.killed + {m.channels[channelId].birth})
    case DetachAll => Detached(m)
    case Fire(timer) =>
      var fired := m.(pending := m.pending - {timer});
      Forgotten(fired, timer.channelId).(killed := m.killed + {timer.birth})
  }

  /* ------------------------------- what timers promise -------------------------- */

  /** The pending timers are exactly the handles on record, and a channel whose
      tunnel is up has none. */
  ghost predicate TimersTracked<T>(m: Manager<T>) {
    (forall t <- m.pending :: t.channelId in m.channels && m.channels[t.channelId].timer == Some(t.epoch)
                              && m.channels[t.channelId].birth == t.birth && t.epoch < m.epoch) &&
    (forall ch <- m.channels :: m.channels[ch].timer.Some? ==> HandleOf(ch, m.channels[ch]) in m.pending) &&
    (forall ch <- m.channels :: m.channels[ch].timer.Some? <==> !m.channels[ch].attached)
  }

  /** An attached terminal that some timer is still going to kill. */
  ghost predicate Doomed<T>(m: Manager<T>, channelId: nat) {
    channelId in m.channels && m.channels[channelId].attached &&
    exists t <- m.pending :: t.channelId == channelId && t.birth == m.channels[channelId].birth
  }

  predicate NoTimers<T>(m: Manager<T>) {
    forall ch <- m.channels :: m.channels[ch].timer.None?
  }

  function Empty<T>(): Manager<T> {
    Manager(map[], {}, 0, 0, {}, [])
  }

  /** Detaching keeps the timers tracked exactly when no channel holds a handle,
      that is, when no tunnel was lost twice without a resume in between. */
  lemma DetachAllTracksIff<T>(m: Manager<T>)
    requires TimersTracked(m)
    ensures TimersTracked(Detached(m)) <==> NoTimers(m)
  {
    var d := Detached(m);
    if ch :| ch in m.channels && m.channels[ch].timer.Some? {
      var orphan := HandleOf(ch, m.channels[ch]);
      assert orphan in d.pending && d.channels[ch].timer == Some(m.epoch);
    } else {
      forall ch <- d.channels ensures HandleOf(ch, d.channels[ch]) in d.pending {
        assert ch in m.channels;
      }
      assert m.pending == {};
    }
  }

  /** So does forgetting a channel. */
  lemma ForgettingTracks<T>(m: Manager<T>, channelId: nat)
    requires TimersTracked(m)
    ensures TimersTracked(Forgotten(m, channelId))
  {
  }

  /** A timer fires at most once, and takes its channel with it. */
  lemma FiringTracks<T>(m: Manager<T>, timer: Timer)
    requires TimersTracked(m) && timer in m.pending
    ensures TimersTracked(Step(m, Fire(timer)))
  {
    ForgettingTracks(m, timer.channelId);
    assert Forgotten(m.(pending := m.pending - {timer}), timer.channelId) == Forgotten(m, timer.channelId);
  }

  lemma OpenTracks<T>(m: Manager<T>, channelId: nat, spawns: bool)
    requires TimersTracked(m)
    ensures TimersTracked(Step(m, Open(channelId, spawns)))
  {
  }

  lemma DataTracks<T>(m: Manager<T>, channelId: nat, chunk: seq<T>)
    requires TimersTracked(m) && channelId in m.channels
    ensures TimersTracked(Step(m, PtyData(channelId, chunk)))
  {
    var c := m.channels[channelId];
    if !c.attached {
      var b := Buffered(c, chunk);
      assert b.timer == c.timer && b.birth == c.birth && !b.attached;
    }
  }

  /** Every other event keeps them tracked. */
  lemma OtherEventsTrack<T>(m: Manager<T>, e: Event<T>)
    requires TimersTracked(m) && Possible(m, e) && !e.DetachAll?
    ensures TimersTracked(Step(m, e))
  {
    match e {
      case PtyExit(channelId) => ForgettingTracks(m, channelId);
      case Close(channelId) => ForgettingTracks(m, channelId);
      case Fire(timer) => FiringTracks(m, timer);
      case Open(channelId, spawns) => OpenTracks(m, channelId, spawns);
      case PtyData(channelId, chunk) => DataTracks(m, channelId, chunk);
    }
  }

  /** Tracked timers doom nothing that is attached. */
  lemma TrackedDoomsNothing<T>(m: Manager<T>, channelId: nat)
    requires TimersTracked(m)
    ensures !Doomed(m, channelId)
  {
  }

  /** One failed reconnect is enough: a channel that was waiting when the tunnel
      was lost again, and only such a channel, is doomed once it is resumed. */
  lemma SecondDetachDooms<T>(m: Manager<T>, channelId: nat)
    requires TimersTracked(m) && channelId in m.channels
    ensures Doomed(Step(Detached(m), Open(channelId, true)), channelId) <==> m.channels[channelId].timer.Some?
  {
    var d := Detached(m);
    var after := Step(d, Open(channelId, true));
    var c := m.channels[channelId];
    assert Cleared(d, channelId) == d.pending - {Timer(m.epoch, channelId, c.birth)};
    if c.timer.Some? {
      var orphan := HandleOf(channelId, c);
      assert orphan in m.pending && orphan in after.pending;
    }
  }

  /** And when that timer fires the attached pty is killed and its id forgotten. */
  lemma DoomedIsKilled<T>(m: Manager<T>, timer: Timer)
    requires timer in m.pending && timer.channelId in m.channels && m.channels[timer.channelId].birth == timer.birth
    ensures var after := Step(m, Fire(timer)); timer.birth in after.killed && timer.channelId !in after.channels
  {
  }

  ghost predicate Runs<T>(m: Manager<T>, events: seq<Event<T>>, last: Manager<T>)
    decreases |events|
  {
    if events == [] then last == m
    else Possible(m, events[0]) && Runs(Step(m, events[0]), events[1..], last)
  }

  /** No event of the run detaches while a channel is still waiting. */
  ghost predicate NeverTwice<T>(m: Manager<T>, events: seq<Event<T>>)
    decreases |events|
  {
    events == [] ||
    ((events[0].DetachAll? ==> NoTimers(m)) && (Possible(m, events[0]) ==> NeverTwice(Step(m, events[0]), events[1..])))
  }

  /** In every run that never detaches twice without a resume, no attached
      terminal has a kill pending, and every waiting one has exactly its own. */
  lemma {:induction false} AttachedIsSafe<T>(m: Manager<T>, events: seq<Event<T>>, last: Manager<T>)
    requires TimersTracked(m) && Runs(m, events, last) && NeverTwice(m, events)
    ensures TimersTracked(last) && forall channelId :: !Doomed(last, channelId)
    decreases |events|
  {
    if events == [] {
      forall channelId ensures !Doomed(last, channelId) {
        TrackedDoomsNothing(last, channelId);
      }
    } else {
      if events[0].DetachAll? {
        DetachAllTracksIff(m);
      } else {
        OtherEventsTrack(m, events[0]);
      }
      AttachedIsSafe(Step(m, events[0]), events[1..], last);
    }
  }

  /** One channel, held or attached, with a number of tunnels lost so far. */
  function Single<T>(channelId: nat, attached: bool, timer: Option<nat>, epoch: nat, pending: set<Timer>): Manager<T> {
    Manager(map[channelId := Channel(0, attached, [], 0, timer)], pending, epoch, 1, {}, [])
  }

  lemma SingleDetached<T>(channelId: nat, attached: bool, timer: Option<nat>, epoch: nat, pending: set<Timer>)
    ensures Detached(Single<T>(channelId, attached, timer, epoch, pending)) ==
            Single(channelId, false, Some(epoch), epoch + 1, pending + {Timer(epoch, channelId, 0)})
  {
    var m := Single<T>(channelId, attached, timer, epoch, pending);
    var armed := set ch | ch in m.channels :: Timer(m.epoch, ch, m.channels[ch].birth);
    assert channelId in m.channels && m.channels[channelId].birth == 0;
    assert Timer(epoch, channelId, 0) in armed;
    assert armed == {Timer(epoch, channelId, 0)};
    assert Detached(m).pending == pending + armed;
  }

  lemma SingleResumed<T>(channelId: nat, timer: nat, epoch: nat, pending: set<Timer>)
    ensures Step(Single<T>(channelId, false, Some(timer), epoch, pending), Open(channelId, true)) ==
            Single(channelId, true, None, epoch, pending - {Timer(timer, channelId, 0)})
  {
  }

  /** A tunnel lost, one failed attempt to reconnect, and a second that succeeds. */
  function Reconnected<T>(channelId: nat): Manager<T> {
    Step(Detached(Detached(Step(Empty<T>(), Open(channelId, true)))), Open(channelId, true))
  }

  lemma ReconnectedIs<T>(channelId: nat)
    ensures Reconnected<T>(channelId) == Single(channelId, true, None, 2, {Timer(0, channelId, 0)})
  {
    var first, second := Timer(0, channelId, 0), Timer(1, channelId, 0);
    assert Step(Empty<T>(), Open(channelId, true)) == Single<T>(channelId, true, None, 0, {});
    SingleDetached<T>(channelId, true, None, 0, {});
    assert {} + {first} == {first};
    SingleDetached<T>(channelId, false, Some(0), 1, {first});
    SingleResumed<T>(channelId, 1, 2, {first} + {second});
    assert {first} + {second} - {second} == {first};
  }

  /** The terminal is attached again, and the timer of the first loss kills it. */
  lemma FailedReconnectKills<T>(channelId: nat)
    ensures var back, orphan := Reconnected<T>(channelId), Timer(0, channelId, 0);
            Doomed(back, channelId) && back.killed == {} && orphan in back.pending &&
            var last := Step(back, Fire(orphan));
            last.channels == map[] && last.killed == {back.channels[channelId].birth}
  {
    ReconnectedIs<T>(channelId);
    var back, orphan := Reconnected<T>(channelId), Timer(0, channelId, 0);
    assert orphan in back.pending && back.channels[channelId].birth == orphan.birth;
    assert back.channels - {channelId} == map[];
  }

  /* ----------------------------------- the class -------------------------------- */

  class ChannelManager<T> {
    var channels: map<nat, Channel<T>>
    var pending: set<Timer>
    var epoch: nat
    var births: nat
    var killed: set<nat>
    /** Frames given to the hooks, oldest first. */
    var sent: seq<(nat, Sent<T>)>

    function View(): Manager<T>
      reads this
    {
      Manager(channels, pending, epoch, births, killed, sent)
    }

    predicate Valid()
      reads this
    {
      forall ch <- channels :: ChannelOk(channels[ch])
    }

    constructor ()
      ensures Valid() && View() == Manager(map[], {}, 0, 0, {}, [])
    {
      channels, pending, epoch, births, killed, sent := map[], {}, 0, 0, {}, [];
    }

    method ClearTimer(channelId: nat)
      requires channelId in channels
      modifies this`pending
      ensures pending == Cleared(old(View()), channelId)
    {
      var c := channels[channelId];
      if c.timer != None {
        pending := pending - {Timer(c.timer.value, channelId, c.birth)};
      }
    }

    method Forget(channelId: nat)
      requires Valid()
      modifies this`pending, this`channels
      ensures Valid() && View() == Forgotten(old(View()), channelId)
    {
      if channelId in channels {
        ClearTimer(channelId);
      }
      channels := channels - {channelId};
      assert channelId !in old(channels) ==> channels == old(channels);
    }

    /** Opens a terminal, or resumes one held from a dropped connection. */
    method Open(channelId: nat, spawns: bool) returns (resumed: Option<bool>)
      requires Valid()
      modifies this
      ensures Valid() && View() == Step(old(View()), Event.Open(channelId, spawns))
      ensures resumed == if channelId in old(channels) then (if old(channels)[channelId].attached then None else Some(true))
                         else if |old(channels)| >= MAX_CHANNELS || !spawns then None else Some(false)
    {
      if channelId in channels {
        if channels[channelId].attached {
          return None;
        }
        Resume(channelId);
        return Some(true);
      }
      if |channels| >= MAX_CHANNELS || !spawns {
        return None;
      }
      channels := channels[channelId := Spawned(births)];
      births := births + 1;
      resumed := Some(false);
    }

    method Resume(channelId: nat)
      requires Valid() && channelId in channels && !channels[channelId].attached
      modifies this
      ensures Valid() && View() == Step(old(View()), Event.Open(channelId, true))
    {
      ClearTimer(channelId);
      var held := channels[channelId].replay;
      channels := channels[channelId := Resumed(channels[channelId])];
      ghost var resumed := View();
      var i := 0;
      while i < |held|
        invariant i <= |held|
        invariant View() == resumed.(sent := sent)
        invariant sent == old(sent) + Outputs(channelId, held[..i])
      {
        OutputsAppend(channelId, held[..i], held[i]);
        assert held[..i + 1] == held[..i] + [held[i]];
        sent := sent + [(channelId, Output(held[i]))];
        i := i + 1;
      }
      assert held[..i] == held;
    }

    /** Ring-buffers detached output, dropping oldest first once over the cap. */
    static method Ring(replay: seq<seq<T>>, replayBytes: nat, chunk: seq<T>) returns (kept: seq<seq<T>>, keptBytes: nat)
      requires replayBytes == Size(replay)
      ensures kept == Buffer(replay, chunk) && keptBytes == Size(kept)
    {
      var piece := Piece(chunk);
      kept, keptBytes := replay + [piece], replayBytes + |piece|;
      FlatAppend(replay, piece);
      while keptBytes > CHANNEL_REPLAY_BUFFER_BYTES && |kept| > 1
        invariant kept != [] && keptBytes == Size(kept)
        invariant Evict(kept, CHANNEL_REPLAY_BUFFER_BYTES) == Buffer(replay, chunk)
        decreases |kept|
      {
        var dropped := kept[0];
        kept := kept[1..];
        keptBytes := keptBytes - |dropped|;
      }
    }

    method BufferOutput(channelId: nat, chunk: seq<T>)
      requires Valid() && channelId in channels && !channels[channelId].attached
      modifies this`channels
      ensures Valid() && channels == old(channels)[channelId := Buffered(old(channels)[channelId], chunk)]
    {
      var c := channels[channelId];
      var replay, replayBytes := Ring(c.replay, c.replayBytes, chunk);
      BufferStep(c.replay, chunk);
      channels := channels[channelId := c.(replay := replay, replayBytes := replayBytes)];
    }

    method OnData(channelId: nat, chunk: seq<T>)
      requires Valid() && channelId in channels
      modifies this
      ensures Valid() && View() == Step(old(View()), PtyData(channelId, chunk))
    {
      if channels[channelId].attached {
        sent := sent + [(channelId, Output(chunk))];
        return;
      }
      BufferOutput(channelId, chunk);
    }

    method OnExit(channelId: nat)
      requires Valid() && channelId in channels
      modifies this
      ensures Valid() && View() == Step(old(View()), PtyExit(channelId))
    {
      var attached := channels[channelId].attached;
      Forget(channelId);
      if attached {
        sent := sent + [(channelId, Exited)];
      }
    }

    method CloseChannel(channelId: nat)
      requires Valid()
      modifies this
      ensures Valid() && View() == Step(old(View()), Close(channelId))
    {
      if channelId !in channels {
        return;
      }
      var birth := channels[channelId].birth;
      Forget(channelId);
      killed := killed + {birth};
    }

    /** A channel midway through `detachAll`, `left` being those still to come. */
    static function Loosened(m: Manager<T>, left: set<nat>, channelId: nat): Channel<T>
      requires channelId in m.channels
    {
      if channelId in left then m.channels[channelId]
      else m.channels[channelId].(attached := false, timer := Some(m.epoch))
    }

    static predicate Armed(m: Manager<T>, left: set<nat>, t: Timer) {
      t.channelId in m.channels && t.channelId !in left && t == Timer(m.epoch, t.channelId, m.channels[t.channelId].birth)
    }

    /** One turn of the loop in `detachAll`. */
    method DetachOne(channelId: nat)
      requires channelId in channels
      modifies this`channels, this`pending
      ensures channels == old(channels)[channelId := old(channels)[channelId].(attached := false, timer := Some(epoch))]
      ensures pending == old(pending) + {Timer(epoch, channelId, old(channels)[channelId].birth)}
    {
      channels := channels[channelId := channels[channelId].(attached := false)];
      pending := pending + {Timer(epoch, channelId, channels[channelId].birth)};
      channels := channels[channelId := channels[channelId].(timer := Some(epoch))];
    }

    /** The tunnel dropped: hold every pty for the grace period. */
    method DetachAll()
      requires Valid()
      modifies this
      ensures Valid() && View() == Step(old(View()), Event.DetachAll)
    {
      ghost var before := View();
      var left := channels.Keys;
      while left != {}
        invariant View() == before.(channels := channels, pending := pending)
        invariant channels.Keys == before.channels.Keys && left <= channels.Keys
        invariant forall ch <- channels :: channels[ch] == Loosened(before, left, ch)
        invariant forall t :: t in pending <==> t in before.pending || Armed(before, left, t)
        decreases left
      {
        var ch :| ch in left;
        DetachOne(ch);
        left := left - {ch};
      }
      epoch := epoch + 1;
      assert channels == Detached(before).channels;
      assert pending == Detached(before).pending;
    }

    /** The grace period of one channel ran out. */
    method OnGrace(timer: Timer)
      requires Valid() && timer in pending
      modifies this
      ensures Valid() && View() == Step(old(View()), Fire(timer))
    {
      pending := pending - {timer};
      Forget(timer.channelId);
      killed := killed + {timer.birth};
    }
  }

  lemma {:induction false} OutputsAppend<T>(channelId: nat, chunks: seq<seq<T>>, chunk: seq<T>)
    ensures Outputs(channelId, chunks + [chunk]) == Outputs(channelId, chunks) + [(channelId, Output(chunk))]
  {
    if chunks == [] {
      assert chunks + [chunk] == [chunk];
    } else {
      assert (chunks + [chunk])[1..] == chunks[1..] + [chunk];
      OutputsAppend(channelId, chunks[1..], chunk);
      Associative([(channelId, Output(chunks[0]))], Outputs(channelId, chunks[1..]), [(channelId, Output(chunk))]);
    }
  }
}
