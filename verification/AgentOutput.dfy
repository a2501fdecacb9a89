/** Where a pty's output goes on the agent (apps/agent/src/channels.ts): over any
    run, every byte it wrote was sent on its own channel, in order, was dropped for
    want of room, or is still held for the next tunnel. */
module AgentOutput {
  import opened Common
  import opened Rings
  import opened AgentChannels

  datatype Fate = Passed | Lost | Held

  /** What one pty wrote, what became of each byte, and how many frames had been sent
      when it was spawned. */
  datatype Trace<T> = Trace(written: seq<T>, fates: seq<Fate>, mark: nat)

  /** `exited` are the ptys that came to their own end. */
  datatype Traced<T> = Traced(manager: Manager<T>, traces: map<nat, Trace<T>>, exited: set<nat>)

  function Begun<T>(): Traced<T> {
    Traced(Empty(), map[], {})
  }

  /* ------------------------------ what becomes of a byte ------------------------ */

  function Alike(n: nat, fate: Fate): (fates: seq<Fate>)
    ensures |fates| == n && forall i :: 0 <= i < n ==> fates[i] == fate
  {
    seq(n, i requires 0 <= i < n => fate)
  }

  /** Held bytes before index `k` get another fate. */
  function Resolve(fates: seq<Fate>, k: int, fate: Fate): (resolved: seq<Fate>)
    ensures |resolved| == |fates|
    ensures forall i :: 0 <= i < |fates| ==> resolved[i] == if i < k && fates[i] == Held then fate else fates[i]
  {
    seq(|fates|, i requires 0 <= i < |fates| => if i < k && fates[i] == Held then fate else fates[i])
  }

  /** The pty writes: an attached one is sent at once; of what an unwatched one has
      written, the replay `left` is held. */
  function Writes<T>(tr: Trace<T>, chunk: seq<T>, attached: bool, left: nat): Trace<T> {
    var written := tr.written + chunk;
    if attached then Trace(written, tr.fates + Alike(|chunk|, Passed), tr.mark)
    else Trace(written, Resolve(tr.fates + Alike(|chunk|, Held), |written| - left, Lost), tr.mark)
  }

  function Releases<T>(tr: Trace<T>): Trace<T> {
    tr.(fates := Resolve(tr.fates, |tr.fates|, Passed))
  }

  function TraceStep<T>(x: Traced<T>, e: Event<T>): Traced<T>
    requires Possible(x.manager, e)
  {
    var before, after := x.manager, Step(x.manager, e);
    match e
    case Open(channelId, _) =>
      if channelId in before.channels && channelId in x.traces then
        if before.channels[channelId].attached then x.(manager := after)
        else Traced(after, x.traces[channelId := Releases(x.traces[channelId])], x.exited)
      else if channelId in after.channels then
        Traced(after, x.traces[channelId := Trace([], [], |before.sent|)], x.exited)
      else x.(manager := after)
    case PtyData(channelId, chunk) =>
      if channelId in after.channels && channelId in x.traces then
        var tr := Writes(x.traces[channelId], chunk, before.channels[channelId].attached,
                         Size(after.channels[channelId].replay));
        x.(manager := after, traces := x.traces[channelId := tr])
      else x.(manager := after)
    case PtyExit(channelId) =>
      Traced(after, x.traces - {channelId}, x.exited + {before.channels[channelId].birth})
    case Close(channelId) => x.(manager := after, traces := x.traces - {channelId})
    case DetachAll => x.(manager := after)
    case Fire(timer) => x.(manager := after, traces := x.traces - {timer.channelId})
  }

  /** The bytes with that fate, in order. */
  function Chosen<T>(written: seq<T>, fates: seq<Fate>): seq<T>
    requires |written| == |fates|
  {
    if written == [] then []
    else
      var n := |written| - 1;
      Chosen(written[..n], fates[..n]) + if fates[n] == Passed then [written[n]] else []
  }

  /** The bytes of the output frames on one channel. */
  function Spoken<T>(sent: seq<(nat, Sent<T>)>, channelId: nat): seq<T> {
    if sent == [] then []
    else
      var last := sent[|sent| - 1];
      Spoken(sent[..|sent| - 1], channelId) + if last.0 == channelId && last.1.Output? then last.1.chunk else []
  }

  predicate NoExit<T>(sent: seq<(nat, Sent<T>)>, channelId: nat) {
    forall i :: 0 <= i < |sent| && sent[i].0 == channelId ==> sent[i].1.Output?
  }

  predicate HeldFrom(fates: seq<Fate>, k: int) {
    forall i :: 0 <= i < |fates| ==> (fates[i] == Held <==> k <= i)
  }

  /** Of what the pty wrote, `out` was sent, the replay is held, and the rest is lost. */
  ghost predicate Split<T>(c: Channel<T>, tr: Trace<T>, out: seq<T>) {
    |tr.fates| == |tr.written| && IsSuffix(Flat(c.replay), tr.written) &&
    HeldFrom(tr.fates, |tr.written| - Size(c.replay)) && Chosen(tr.written, tr.fates) == out && ChannelOk(c)
  }

  /** The split of what the pty on one channel wrote: all that was sent on the channel
      since it was spawned is its output. */
  ghost predicate ConservedOn<T>(x: Traced<T>, ch: nat) {
    ch in x.traces && ch in x.manager.channels &&
    var tr, sent := x.traces[ch], x.manager.sent;
    tr.mark <= |sent| && NoExit(sent[tr.mark..], ch) && Split(x.manager.channels[ch], tr, Spoken(sent[tr.mark..], ch))
  }

  ghost predicate Conserved<T>(x: Traced<T>) {
    x.traces.Keys == x.manager.channels.Keys && forall ch <- x.traces :: ConservedOn(x, ch)
  }

  /* ----------------------------------- the bytes -------------------------------- */

  lemma {:induction false} ChosenConcat<T>(a: seq<T>, f: seq<Fate>, b: seq<T>, g: seq<Fate>)
    requires |a| == |f| && |b| == |g|
    ensures Chosen(a + b, f + g) == Chosen(a, f) + Chosen(b, g)
    decreases |b|
  {
    if b == [] {
      assert a + b == a && f + g == f;
    } else {
      var n := |b| - 1;
      ChosenConcat(a, f, b[..n], g[..n]);
      assert (a + b)[..|a + b| - 1] == a + b[..n] && (f + g)[..|f + g| - 1] == f + g[..n];
      Associative(Chosen(a, f), Chosen(b[..n], g[..n]), if g[n] == Passed then [b[n]] else []);
    }
  }

  lemma {:induction false} ChosenAlike<T>(written: seq<T>, fates: seq<Fate>, fate: Fate)
    requires |written| == |fates| && forall i :: 0 <= i < |fates| ==> fates[i] == fate
    ensures Chosen(written, fates) == if fate == Passed then written else []
  {
    if written != [] {
      var n := |written| - 1;
      ChosenAlike(written[..n], fates[..n], fate);
      assert written == written[..n] + [written[n]];
    }
  }

  /** Losing what was held sends nothing. */
  lemma {:induction false} ChosenAfterLoss<T>(written: seq<T>, fates: seq<Fate>, k: int)
    requires |written| == |fates|
    ensures Chosen(written, Resolve(fates, k, Lost)) == Chosen(written, fates)
  {
    if written != [] {
      var n := |written| - 1;
      ChosenAfterLoss(written[..n], fates[..n], k);
      assert Resolve(fates, k, Lost)[..n] == Resolve(fates[..n], k, Lost);
    }
  }

  /** Releasing it sends exactly that, after all that went before. */
  lemma ChosenAfterRelease<T>(written: seq<T>, fates: seq<Fate>, k: nat)
    requires |written| == |fates| && k <= |fates| && HeldFrom(fates, k)
    ensures Chosen(written, Resolve(fates, |fates|, Passed)) == Chosen(written, fates) + written[k..]
  {
    var released := Resolve(fates, |fates|, Passed);
    ReleasedParts(fates, k);
    HeldThenPassed(written[..k], fates[..k], written[k..], fates[k..], released[k..]);
    assert written == written[..k] + written[k..];
  }

  lemma HeldThenPassed<T>(a: seq<T>, f: seq<Fate>, b: seq<T>, held: seq<Fate>, passed: seq<Fate>)
    requires |a| == |f| && |b| == |held| == |passed|
    requires forall i :: 0 <= i < |b| ==> held[i] == Held && passed[i] == Passed
    ensures Chosen(a + b, f + passed) == Chosen(a + b, f + held) + b
  {
    ChosenConcat(a, f, b, held);
    ChosenConcat(a, f, b, passed);
    ChosenAlike(b, held, Held);
    ChosenAlike(b, passed, Passed);
    assert Chosen(a, f) + [] == Chosen(a, f);
  }

  lemma ReleasedParts(fates: seq<Fate>, k: nat)
    requires k <= |fates| && HeldFrom(fates, k)
    ensures var released := Resolve(fates, |fates|, Passed);
            fates == fates[..k] + fates[k..] && released == fates[..k] + released[k..] &&
            forall i :: 0 <= i < |fates| - k ==> fates[k..][i] == Held && released[k..][i] == Passed
  {
  }

  lemma {:induction false} SpokenConcat<T>(a: seq<(nat, Sent<T>)>, b: seq<(nat, Sent<T>)>, channelId: nat)
    ensures Spoken(a + b, channelId) == Spoken(a, channelId) + Spoken(b, channelId)
    decreases |b|
  {
    if b == [] {
      assert a + b == a;
    } else {
      var n := |b| - 1;
      assert (a + b)[..|a + b| - 1] == a + b[..n];
      SpokenConcat(a, b[..n], channelId);
      Associative(Spoken(a, channelId), Spoken(b[..n], channelId),
                  if b[n].0 == channelId && b[n].1.Output? then b[n].1.chunk else []);
    }
  }

  lemma SpokenOne<T>(item: (nat, Sent<T>), channelId: nat)
    ensures Spoken([item], channelId) == if item.0 == channelId && item.1.Output? then item.1.chunk else []
  {
    assert [item][..0] == [];
  }

  lemma {:induction false} SpokenOutputs<T>(on: nat, chunks: seq<seq<T>>, channelId: nat)
    ensures Spoken(Outputs(on, chunks), channelId) == if on == channelId then Flat(chunks) else []
    ensures forall i :: 0 <= i < |Outputs(on, chunks)| ==> Outputs(on, chunks)[i].1.Output?
    decreases |chunks|
  {
    if chunks != [] {
      SpokenOutputs(on, chunks[1..], channelId);
      SpokenConcat([(on, Sent.Output(chunks[0]))], Outputs(on, chunks[1..]), channelId);
      SpokenOne((on, Sent.Output(chunks[0])), channelId);
    }
  }

  /** The frames since a mark, after some more of them. */
  lemma SpokenSince<T>(sent: seq<(nat, Sent<T>)>, more: seq<(nat, Sent<T>)>, mark: nat, channelId: nat)
    requires mark <= |sent|
    ensures Spoken((sent + more)[mark..], channelId) == Spoken(sent[mark..], channelId) + Spoken(more, channelId)
    ensures NoExit(sent[mark..], channelId) && NoExit(more, channelId) ==> NoExit((sent + more)[mark..], channelId)
  {
    assert (sent + more)[mark..] == sent[mark..] + more;
    SpokenConcat(sent[mark..], more, channelId);
  }

  /* --------------------------------- one channel -------------------------------- */

  lemma AttachedWriteSplits<T>(c: Channel<T>, tr: Trace<T>, out: seq<T>, chunk: seq<T>)
    requires Split(c, tr, out) && c.attached
    ensures Split(c, Writes(tr, chunk, true, 0), out + chunk)
  {
    ChosenConcat(tr.written, tr.fates, chunk, Alike(|chunk|, Passed));
    ChosenAlike(chunk, Alike(|chunk|, Passed), Passed);
    assert Flat(c.replay) == [];
  }

  lemma HeldLater(fates: seq<Fate>, k: nat, n: nat, later: nat)
    requires k <= |fates| && k <= later && HeldFrom(fates, k)
    ensures HeldFrom(fates + Alike(n, Held), k)
    ensures HeldFrom(Resolve(fates + Alike(n, Held), later, Lost), later)
    ensures Resolve(fates + Alike(n, Held), later, Lost) == fates + Alike(n, Held) <==> later == k || later > k == |fates| + n
  {
    var held := fates + Alike(n, Held);
    if k < later && k < |held| { assert held[k] == Held && Resolve(held, later, Lost)[k] == Lost; }
  }

  lemma HeldWriteChoice<T>(tr: Trace<T>, chunk: seq<T>, left: nat)
    requires |tr.fates| == |tr.written|
    ensures var after := Writes(tr, chunk, false, left); Chosen(after.written, after.fates) == Chosen(tr.written, tr.fates)
  {
    var held := Alike(|chunk|, Held);
    ChosenConcat(tr.written, tr.fates, chunk, held);
    ChosenAlike(chunk, held, Held);
    ChosenAfterLoss(tr.written + chunk, tr.fates + held, |tr.written + chunk| - left);
  }

  lemma HeldWriteSplits<T>(c: Channel<T>, tr: Trace<T>, out: seq<T>, chunk: seq<T>, after: Channel<T>)
    requires Split(c, tr, out) && ChannelOk(after) && IsSuffix(Flat(after.replay), Flat(c.replay) + chunk)
    ensures Split(after, Writes(tr, chunk, false, Size(after.replay)), out)
  {
    SuffixAppend(Flat(c.replay), tr.written, chunk);
    SuffixTransitive(Flat(after.replay), Flat(c.replay) + chunk, tr.written + chunk);
    HeldLater(tr.fates, |tr.written| - Size(c.replay), |chunk|, |tr.written + chunk| - Size(after.replay));
    HeldWriteChoice(tr, chunk, Size(after.replay));
  }

  lemma BufferedIsSuffix<T>(c: Channel<T>, chunk: seq<T>)
    requires ChannelOk(c) && !c.attached
    ensures var after := Buffered(c, chunk);
            ChannelOk(after) && !after.attached && IsSuffix(Flat(after.replay), Flat(c.replay) + chunk)
  {
    BufferStep(c.replay, chunk);
  }

  lemma ReleaseSplits<T>(c: Channel<T>, tr: Trace<T>, out: seq<T>)
    requires Split(c, tr, out)
    ensures Split(Resumed(c), Releases(tr), out + Flat(c.replay))
  {
    ChosenAfterRelease(tr.written, tr.fates, |tr.written| - Size(c.replay));
  }

  lemma BufferedSize<T>(c: Channel<T>, chunk: seq<T>)
    requires ChannelOk(c)
    ensures var left := Size(Buffered(c, chunk).replay);
            left <= Size(c.replay) + |chunk| &&
            (left == Size(c.replay) + |chunk| <==> chunk == [] || Size(c.replay) + |chunk| <= CHANNEL_REPLAY_BUFFER_BYTES)
  {
    BufferStep(c.replay, chunk);
    BufferLosesIff(c.replay, chunk);
  }

  /** Nothing is lost while it fits: a write loses held bytes exactly when they and it
      together exceed the replay's cap. */
  lemma LosesOnlyWhenFull<T>(c: Channel<T>, tr: Trace<T>, out: seq<T>, chunk: seq<T>)
    requires Split(c, tr, out) && !c.attached
    ensures Writes(tr, chunk, false, Size(Buffered(c, chunk).replay)).fates == tr.fates + Alike(|chunk|, Held) <==>
            chunk == [] || Size(c.replay) + |chunk| <= CHANNEL_REPLAY_BUFFER_BYTES
  {
    BufferedSize(c, chunk);
    WriteKeepsIff(c, tr, out, chunk, Buffered(c, chunk));
  }

  lemma WriteKeepsIff<T>(c: Channel<T>, tr: Trace<T>, out: seq<T>, chunk: seq<T>, after: Channel<T>)
    requires Split(c, tr, out) && Size(after.replay) <= Size(c.replay) + |chunk|
    ensures Writes(tr, chunk, false, Size(after.replay)).fates == tr.fates + Alike(|chunk|, Held) <==>
            Size(after.replay) == Size(c.replay) + |chunk|
  {
    HeldLater(tr.fates, |tr.written| - Size(c.replay), |chunk|, |tr.written| + |chunk| - Size(after.replay));
  }

  /* -------------------------------- all channels -------------------------------- */

  /** More frames, of which those on the channel are what the split now says was sent. */
  lemma GrownConserves<T>(x: Traced<T>, y: Traced<T>, ch: nat, more: seq<(nat, Sent<T>)>)
    requires ConservedOn(x, ch)
    requires ch in y.traces && ch in y.manager.channels && y.traces[ch].mark == x.traces[ch].mark
    requires y.manager.sent == x.manager.sent + more && NoExit(more, ch)
    requires var out := Spoken(x.manager.sent[x.traces[ch].mark..], ch);
             Split(y.manager.channels[ch], y.traces[ch], out + Spoken(more, ch))
    ensures ConservedOn(y, ch)
  {
    SpokenSince(x.manager.sent, more, x.traces[ch].mark, ch);
  }

  /** Frames on other channels change nothing for this one. */
  lemma OthersConserve<T>(x: Traced<T>, y: Traced<T>, ch: nat, more: seq<(nat, Sent<T>)>)
    requires ConservedOn(x, ch)
    requires ch in y.traces && ch in y.manager.channels && y.traces[ch] == x.traces[ch]
    requires y.manager.channels[ch].replay == x.manager.channels[ch].replay && ChannelOk(y.manager.channels[ch])
    requires y.manager.sent == x.manager.sent + more && forall i :: 0 <= i < |more| ==> more[i].0 != ch
    ensures ConservedOn(y, ch)
  {
    SpokenOther(more, ch);
    GrownConserves(x, y, ch, more);
  }

  lemma {:induction false} SpokenOther<T>(more: seq<(nat, Sent<T>)>, ch: nat)
    requires forall i :: 0 <= i < |more| ==> more[i].0 != ch
    ensures Spoken(more, ch) == []
  {
    if more != [] { SpokenOther(more[..|more| - 1], ch); }
  }

  lemma {:induction false} OutputsAreOn<T>(on: nat, chunks: seq<seq<T>>)
    ensures forall i :: 0 <= i < |Outputs(on, chunks)| ==> Outputs(on, chunks)[i].0 == on && Outputs(on, chunks)[i].1.Output?
    decreases |chunks|
  {
    if chunks != [] { OutputsAreOn(on, chunks[1..]); }
  }

  lemma ResumeConserves<T>(x: Traced<T>, channelId: nat, spawns: bool, ch: nat)
    requires ConservedOn(x, channelId) && ConservedOn(x, ch) && !x.manager.channels[channelId].attached
    ensures ConservedOn(TraceStep(x, Open(channelId, spawns)), ch)
  {
    var y, c := TraceStep(x, Open(channelId, spawns)), x.manager.channels[channelId];
    var more := Outputs(channelId, c.replay);
    OutputsAreOn(channelId, c.replay);
    if ch != channelId {
      OthersConserve(x, y, ch, more);
    } else {
      ReleaseSplits(c, x.traces[ch], Spoken(x.manager.sent[x.traces[ch].mark..], ch));
      SpokenOutputs(ch, c.replay, ch);
      GrownConserves(x, y, ch, more);
    }
  }

  lemma FreshIsConserved<T>(x: Traced<T>, ch: nat, birth: nat)
    requires ch in x.traces && ch in x.manager.channels
    requires x.traces[ch] == Trace([], [], |x.manager.sent|) && x.manager.channels[ch] == Spawned(birth)
    ensures ConservedOn(x, ch)
  {
    assert x.manager.sent[|x.manager.sent|..] == [];
  }

  /** A step that sends nothing and touches a channel in nothing that matters here. */
  lemma SilentConserves<T>(x: Traced<T>, y: Traced<T>, ch: nat)
    requires ConservedOn(x, ch) && ch in y.traces && ch in y.manager.channels && y.traces[ch] == x.traces[ch]
    requires y.manager.channels[ch].replay == x.manager.channels[ch].replay && ChannelOk(y.manager.channels[ch])
    requires y.manager.sent == x.manager.sent
    ensures ConservedOn(y, ch)
  {
  }

  lemma OpenConserves<T>(x: Traced<T>, channelId: nat, spawns: bool, ch: nat)
    requires Conserved(x) && ch in TraceStep(x, Open(channelId, spawns)).traces
    ensures ConservedOn(TraceStep(x, Open(channelId, spawns)), ch)
  {
    var y := TraceStep(x, Open(channelId, spawns));
    if channelId in x.traces && !x.manager.channels[channelId].attached {
      assert ConservedOn(x, channelId) && ConservedOn(x, ch);
      ResumeConserves(x, channelId, spawns, ch);
    } else if ch in x.traces {
      assert ConservedOn(x, ch);
      SilentConserves(x, y, ch);
    } else {
      FreshIsConserved(y, ch, x.manager.births);
    }
  }

  lemma AttachedDataConserves<T>(x: Traced<T>, channelId: nat, chunk: seq<T>, ch: nat)
    requires ConservedOn(x, channelId) && ConservedOn(x, ch) && x.manager.channels[channelId].attached
    ensures ConservedOn(TraceStep(x, PtyData(channelId, chunk)), ch)
  {
    var y := TraceStep(x, PtyData(channelId, chunk));
    var more := [(channelId, Sent.Output(chunk))];
    if ch != channelId {
      OthersConserve(x, y, ch, more);
    } else {
      AttachedWriteSplits(x.manager.channels[ch], x.traces[ch], Spoken(x.manager.sent[x.traces[ch].mark..], ch), chunk);
      SpokenOne((ch, Sent.Output(chunk)), ch);
      GrownConserves(x, y, ch, more);
    }
  }

  lemma HeldDataConserves<T>(x: Traced<T>, channelId: nat, chunk: seq<T>, ch: nat)
    requires ConservedOn(x, channelId) && ConservedOn(x, ch) && !x.manager.channels[channelId].attached
    ensures ConservedOn(TraceStep(x, PtyData(channelId, chunk)), ch)
  {
    var y, c := TraceStep(x, PtyData(channelId, chunk)), x.manager.channels[channelId];
    if ch != channelId {
      SilentConserves(x, y, ch);
    } else {
      BufferedIsSuffix(c, chunk);
      HeldWriteSplits(c, x.traces[ch], Spoken(x.manager.sent[x.traces[ch].mark..], ch), chunk, Buffered(c, chunk));
    }
  }

  lemma DataConserves<T>(x: Traced<T>, channelId: nat, chunk: seq<T>, ch: nat)
    requires Conserved(x) && channelId in x.manager.channels && ch in x.traces
    ensures ConservedOn(TraceStep(x, PtyData(channelId, chunk)), ch)
  {
    assert ConservedOn(x, channelId) && ConservedOn(x, ch);
    if x.manager.channels[channelId].attached {
      AttachedDataConserves(x, channelId, chunk, ch);
    } else {
      HeldDataConserves(x, channelId, chunk, ch);
    }
  }

  /** Every other event sends at most the farewell of a channel that is gone. */
  lemma GoneConserves<T>(x: Traced<T>, e: Event<T>, ch: nat)
    requires ConservedOn(x, ch) && Possible(x.manager, e) && (e.PtyExit? || e.Close? || e.DetachAll? || e.Fire?)
    requires ch in TraceStep(x, e).traces
    ensures ConservedOn(TraceStep(x, e), ch)
  {
    var y := TraceStep(x, e);
    if e.PtyExit? && x.manager.channels[e.channelId].attached {
      OthersConserve(x, y, ch, [(e.channelId, Exited)]);
    } else {
      SilentConserves(x, y, ch);
    }
  }

  lemma StepKeepsKeys<T>(x: Traced<T>, e: Event<T>)
    requires x.traces.Keys == x.manager.channels.Keys && Possible(x.manager, e)
    ensures TraceStep(x, e).traces.Keys == TraceStep(x, e).manager.channels.Keys
    ensures TraceStep(x, e).manager == Step(x.manager, e)
  {
  }

  lemma StepConserves<T>(x: Traced<T>, e: Event<T>)
    requires Conserved(x) && Possible(x.manager, e)
    ensures Conserved(TraceStep(x, e))
  {
    StepKeepsKeys(x, e);
    forall ch <- TraceStep(x, e).traces ensures ConservedOn(TraceStep(x, e), ch) {
      match e {
        case Open(channelId, spawns) => OpenConserves(x, channelId, spawns, ch);
        case PtyData(channelId, chunk) => DataConserves(x, channelId, chunk, ch);
        case _ => GoneConserves(x, e, ch);
      }
    }
  }

  /* ------------------------------------- runs ----------------------------------- */

  ghost predicate TraceRuns<T>(x: Traced<T>, events: seq<Event<T>>, y: Traced<T>)
    decreases |events|
  {
    if events == [] then y == x
    else Possible(x.manager, events[0]) && TraceRuns(TraceStep(x, events[0]), events[1..], y)
  }

  lemma {:induction false} RunConserves<T>(x: Traced<T>, events: seq<Event<T>>, y: Traced<T>)
    requires Conserved(x) && TraceRuns(x, events, y)
    ensures Conserved(y) && Runs(x.manager, events, y.manager)
    decreases |events|
  {
    if events != [] {
      StepConserves(x, events[0]);
      StepKeepsKeys(x, events[0]);
      RunConserves(TraceStep(x, events[0]), events[1..], y);
    }
  }

  /** After any run, what was sent on a channel since its pty was spawned is what that
      pty wrote, in order, but for the bytes lost for want of room and the tail that is
      held in the replay; with the tunnel up nothing is held. */
  lemma OutputIsConserved<T>(events: seq<Event<T>>, y: Traced<T>, channelId: nat)
    requires TraceRuns(Begun(), events, y) && channelId in y.manager.channels
    ensures channelId in y.traces
    ensures var c, tr, sent := y.manager.channels[channelId], y.traces[channelId], y.manager.sent;
            tr.mark <= |sent| && |tr.fates| == |tr.written| &&
            Spoken(sent[tr.mark..], channelId) == Chosen(tr.written, tr.fates) && NoExit(sent[tr.mark..], channelId) &&
            IsSuffix(Flat(c.replay), tr.written) && HeldFrom(tr.fates, |tr.written| - Size(c.replay)) &&
            (c.attached ==> forall i :: 0 <= i < |tr.fates| ==> tr.fates[i] != Held)
  {
    RunConserves(Begun(), events, y);
    assert ConservedOn(y, channelId);
  }

  /** A resume sends exactly what was held, on its own channel, and loses nothing. */
  lemma ResumeSendsHeld<T>(x: Traced<T>, channelId: nat, spawns: bool, other: nat)
    requires Conserved(x) && channelId in x.manager.channels && !x.manager.channels[channelId].attached
    ensures var y, tr := TraceStep(x, Open(channelId, spawns)), x.traces[channelId];
            channelId in y.manager.channels && y.manager.channels[channelId].attached &&
            |x.manager.sent| <= |y.manager.sent| && y.manager.sent[..|x.manager.sent|] == x.manager.sent &&
            Spoken(y.manager.sent[|x.manager.sent|..], other) ==
              if other == channelId then tr.written[|tr.written| - Size(x.manager.channels[channelId].replay)..] else []
  {
    var y, replay := TraceStep(x, Open(channelId, spawns)), x.manager.channels[channelId].replay;
    assert ConservedOn(x, channelId);
    SpokenOutputs(channelId, replay, other);
    assert y.manager.sent == x.manager.sent + Outputs(channelId, replay);
  }

  lemma AttachedHoldsNothing<T>(c: Channel<T>, tr: Trace<T>, out: seq<T>)
    requires Split(c, tr, out) && c.attached
    ensures Chosen(tr.written, tr.fates) == out && forall i :: 0 <= i < |tr.fates| ==> tr.fates[i] != Held
  {
    assert Flat(c.replay) == [];
  }

  lemma ExitIsSent<T>(x: Traced<T>, channelId: nat)
    requires channelId in x.manager.channels
    ensures TraceStep(x, PtyExit(channelId)).manager.sent ==
            x.manager.sent + if x.manager.channels[channelId].attached then [(channelId, Exited)] else []
  {
  }

  /** An exit is reported only with the tunnel up, and then after all the output. */
  lemma ExitComesLast<T>(x: Traced<T>, channelId: nat)
    requires Conserved(x) && channelId in x.manager.channels
    ensures var m, tr := x.manager, x.traces[channelId];
            tr.mark <= |m.sent| && |tr.fates| == |tr.written| &&
            TraceStep(x, PtyExit(channelId)).manager.sent ==
              m.sent + (if m.channels[channelId].attached then [(channelId, Exited)] else []) &&
            (m.channels[channelId].attached ==>
               Spoken(m.sent[tr.mark..], channelId) == Chosen(tr.written, tr.fates) &&
               forall i :: 0 <= i < |tr.fates| ==> tr.fates[i] != Held)
  {
    ExitIsSent(x, channelId);
    assert ConservedOn(x, channelId);
    if x.manager.channels[channelId].attached {
      AttachedHoldsNothing(x.manager.channels[channelId], x.traces[channelId],
                           Spoken(x.manager.sent[x.traces[channelId].mark..], channelId));
    }
  }

  /* ------------------------------ what becomes of a pty ------------------------- */

  function Births<T>(m: Manager<T>): set<nat> {
    set ch | ch in m.channels :: m.channels[ch].birth
  }

  ghost predicate OwnBirths<T>(m: Manager<T>) {
    forall a, b :: a in m.channels && b in m.channels && m.channels[a].birth == m.channels[b].birth ==> a == b
  }

  /** Each number below `births` is in exactly one of the three. */
  ghost predicate Parts(births: nat, running: set<nat>, killed: set<nat>, exited: set<nat>) {
    (forall birth: nat :: birth < births <==> birth in running || birth in killed || birth in exited) &&
    running !! killed && running !! exited && killed !! exited
  }

  lemma OneMorePart(births: nat, running: set<nat>, killed: set<nat>, exited: set<nat>)
    requires Parts(births, running, killed, exited)
    ensures Parts(births + 1, running + {births}, killed, exited)
  {
  }

  lemma PartMoves(births: nat, running: set<nat>, killed: set<nat>, exited: set<nat>, birth: nat)
    requires Parts(births, running, killed, exited) && birth in running
    ensures Parts(births, running - {birth}, killed + {birth}, exited)
    ensures Parts(births, running - {birth}, killed, exited + {birth})
  {
  }

  /** Every pty spawned is running, was killed, or came to its own end, and only one of
      these; never more than 32 run. */
  ghost predicate Accounted<T>(x: Traced<T>) {
    var m := x.manager;
    OwnBirths(m) && |m.channels| <= MAX_CHANNELS && Parts(m.births, Births(m), m.killed, x.exited)
  }

  lemma BirthsWithout<T>(m: Manager<T>, channelId: nat, less: Manager<T>)
    requires OwnBirths(m) && channelId in m.channels && less.channels == m.channels - {channelId}
    ensures OwnBirths(less) && |less.channels| <= |m.channels|
    ensures Births(less) == Births(m) - {m.channels[channelId].birth}
  {
    forall birth | birth in Births(m) - {m.channels[channelId].birth} ensures birth in Births(less) {
      var ch :| ch in m.channels && m.channels[ch].birth == birth;
      assert ch in less.channels;
    }
    SubsetIsNoLarger(less.channels.Keys, m.channels.Keys);
    assert |less.channels| == |less.channels.Keys| && |m.channels| == |m.channels.Keys|;
  }

  lemma SpawnIsAccounted<T>(x: Traced<T>, channelId: nat)
    requires Accounted(x) && x.traces.Keys == x.manager.channels.Keys
    requires channelId !in x.manager.channels && |x.manager.channels| < MAX_CHANNELS
    ensures Accounted(TraceStep(x, Open(channelId, true)))
  {
    var m, after := x.manager, TraceStep(x, Open(channelId, true)).manager;
    OwnBirthsWith(m, channelId, after);
    BirthsWith(m, channelId, after);
    OneMoreChannel(m, channelId, after);
    OneMorePart(m.births, Births(m), m.killed, x.exited);
  }

  lemma OwnBirthsWith<T>(m: Manager<T>, channelId: nat, more: Manager<T>)
    requires OwnBirths(m) && m.births !in Births(m)
    requires more.channels == m.channels[channelId := Spawned(m.births)]
    ensures OwnBirths(more)
  {
    forall ch <- m.channels ensures m.channels[ch].birth in Births(m) {
    }
  }

  lemma BirthsWith<T>(m: Manager<T>, channelId: nat, more: Manager<T>)
    requires channelId !in m.channels && more.channels == m.channels[channelId := Spawned(m.births)]
    ensures Births(more) == Births(m) + {m.births}
  {
    assert more.channels[channelId].birth == m.births;
    forall birth | birth in Births(m) ensures birth in Births(more) {
      var ch :| ch in m.channels && m.channels[ch].birth == birth;
      assert ch in more.channels && more.channels[ch].birth == birth;
    }
  }

  lemma OneMoreChannel<T>(m: Manager<T>, channelId: nat, more: Manager<T>)
    requires channelId !in m.channels && more.channels == m.channels[channelId := Spawned(m.births)]
    ensures |more.channels| == |m.channels| + 1
  {
    assert more.channels.Keys == m.channels.Keys + {channelId};
    assert |m.channels| == |m.channels.Keys| && |more.channels| == |more.channels.Keys|;
  }

  /** A step that spawns and ends nothing. */
  lemma SameBirthsAreAccounted<T>(x: Traced<T>, y: Traced<T>)
    requires Accounted(x) && y.manager.channels.Keys == x.manager.channels.Keys
    requires forall ch <- x.manager.channels :: y.manager.channels[ch].birth == x.manager.channels[ch].birth
    requires y.manager.births == x.manager.births && y.manager.killed == x.manager.killed && y.exited == x.exited
    ensures Accounted(y)
  {
    assert Births(y.manager) == Births(x.manager);
    assert |y.manager.channels| == |y.manager.channels.Keys| && |x.manager.channels| == |x.manager.channels.Keys|;
  }

  /** A pty that ends one way or the other. */
  lemma EndIsAccounted<T>(x: Traced<T>, y: Traced<T>, channelId: nat, killed: bool)
    requires Accounted(x) && channelId in x.manager.channels
    requires y.manager.channels == x.manager.channels - {channelId} && y.manager.births == x.manager.births
    requires var birth := {x.manager.channels[channelId].birth};
             if killed then y.manager.killed == x.manager.killed + birth && y.exited == x.exited
             else y.manager.killed == x.manager.killed && y.exited == x.exited + birth
    ensures Accounted(y)
  {
    var m := x.manager;
    BirthsWithout(m, channelId, y.manager);
    PartMoves(m.births, Births(m), m.killed, x.exited, m.channels[channelId].birth);
  }

  lemma OpenIsAccounted<T>(x: Traced<T>, channelId: nat, spawns: bool)
    requires Accounted(x) && x.traces.Keys == x.manager.channels.Keys
    ensures Accounted(TraceStep(x, Open(channelId, spawns)))
  {
    if channelId !in x.manager.channels && |x.manager.channels| < MAX_CHANNELS && spawns {
      SpawnIsAccounted(x, channelId);
    } else {
      SameBirthsAreAccounted(x, TraceStep(x, Open(channelId, spawns)));
    }
  }

  lemma CloseIsAccounted<T>(x: Traced<T>, channelId: nat)
    requires Accounted(x) && x.traces.Keys == x.manager.channels.Keys
    ensures Accounted(TraceStep(x, Close(channelId)))
  {
    if channelId in x.manager.channels {
      EndIsAccounted(x, TraceStep(x, Close(channelId)), channelId, true);
    } else {
      SameBirthsAreAccounted(x, TraceStep(x, Close(channelId)));
    }
  }

  lemma DataIsAccounted<T>(x: Traced<T>, channelId: nat, chunk: seq<T>)
    requires Accounted(x) && x.traces.Keys == x.manager.channels.Keys && channelId in x.manager.channels
    ensures Accounted(TraceStep(x, PtyData(channelId, chunk)))
  {
    SameBirthsAreAccounted(x, TraceStep(x, PtyData(channelId, chunk)));
  }

  lemma StepIsAccounted<T>(x: Traced<T>, e: Event<T>)
    requires Accounted(x) && x.traces.Keys == x.manager.channels.Keys && TimersTracked(x.manager)
    requires Possible(x.manager, e)
    ensures Accounted(TraceStep(x, e))
  {
    match e {
      case Open(channelId, spawns) => OpenIsAccounted(x, channelId, spawns);
      case PtyData(channelId, chunk) => DataIsAccounted(x, channelId, chunk);
      case PtyExit(channelId) => EndIsAccounted(x, TraceStep(x, e), channelId, false);
      case Close(channelId) => CloseIsAccounted(x, channelId);
      case DetachAll => SameBirthsAreAccounted(x, TraceStep(x, e));
      case Fire(timer) => EndIsAccounted(x, TraceStep(x, e), timer.channelId, true);
    }
  }

  /** In every run that never detaches twice without a resume, no pty is forgotten
      while it runs, killed twice, or killed after its own end. */
  lemma {:induction false} PtysAreAccounted<T>(x: Traced<T>, events: seq<Event<T>>, y: Traced<T>)
    requires Accounted(x) && x.traces.Keys == x.manager.channels.Keys && TimersTracked(x.manager)
    requires TraceRuns(x, events, y) && NeverTwice(x.manager, events)
    ensures Accounted(y)
    decreases |events|
  {
    if events != [] {
      var e := events[0];
      StepIsAccounted(x, e);
      StepKeepsKeys(x, e);
      if e.DetachAll? { DetachAllTracksIff(x.manager); } else { OtherEventsTrack(x.manager, e); }
      PtysAreAccounted(TraceStep(x, e), events[1..], y);
    }
  }

  lemma BegunIsAccounted<T>()
    ensures Accounted(Begun<T>()) && Conserved(Begun<T>()) && TimersTracked(Begun<T>().manager)
  {
    assert Births(Begun<T>().manager) == {};
  }
}
