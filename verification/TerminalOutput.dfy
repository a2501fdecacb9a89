/** Where a shell's output goes: over any life of one terminal, every chunk it
    emitted is handed to exactly one socket, was dropped, or is still held. */
module TerminalOutput {
  import opened Common
  import opened Rings
  import opened Terminals

  datatype Happening<T> =
    | Output(chunk: seq<T>)
    | ShellExit
    | Arrival(socket: nat)
    | Departure(socket: nat, timer: nat)
    | SessionEnd
    | GraceOver

  function React<T>(t: Terminal<T>, h: Happening<T>): Outcome<T> {
    match h
    case Output(chunk) => Emits(t, chunk)
    case ShellExit => Exits(t)
    case Arrival(socket) => Attaches(t, socket)
    case Departure(socket, timer) => Detaches(t, socket, timer)
    case SessionEnd => Ends(t)
    case GraceOver => Expires(t)
  }

  /** The data calls among socket calls: which socket got which chunk. */
  function DataActs<T>(acts: seq<Act<T>>): seq<(nat, seq<T>)> {
    if acts == [] then []
    else (if acts[0].DataTo? then [(acts[0].socket, acts[0].chunk)] else []) + DataActs(acts[1..])
  }

  datatype Fate = Handed(socket: nat) | Dropped | Held

  /** A terminal with its history: all it emitted, what became of each chunk, the
      data calls it made, and how much had been emitted at the last attach. */
  datatype Tracked<T> = Tracked(
    terminal: Terminal<T>,
    emitted: seq<seq<T>>,
    fates: seq<Fate>,
    handed: seq<(nat, seq<T>)>,
    mark: nat)

  function Begin<T>(socket: nat): Tracked<T> {
    Tracked(Registered(socket), [], [], [], 0)
  }

  /** Held chunks before index `k` get another fate. */
  function Resolve(fates: seq<Fate>, k: nat, fate: Fate): (resolved: seq<Fate>)
    ensures |resolved| == |fates|
  {
    seq(|fates|, i requires 0 <= i < |fates| => if i < k && fates[i] == Held then fate else fates[i])
  }

  function NextFates<T>(x: Tracked<T>, h: Happening<T>): seq<Fate> {
    match h
    case Output(chunk) =>
      if x.terminal.socket.Some? then x.fates + [Handed(x.terminal.socket.value)]
      else
        var kept := |Emits(x.terminal, chunk).terminal.backlog|;
        Resolve(x.fates + [Held], if kept <= |x.fates| + 1 then |x.fates| + 1 - kept else 0, Dropped)
    case Arrival(socket) => Resolve(x.fates, |x.fates|, Handed(socket))
    case _ => x.fates
  }

  function Live<T>(x: Tracked<T>, h: Happening<T>): Tracked<T> {
    var outcome := React(x.terminal, h);
    var emitted := if h.Output? then x.emitted + [h.chunk] else x.emitted;
    Tracked(outcome.terminal, emitted, NextFates(x, h), x.handed + DataActs(outcome.acts),
            if h.Arrival? then |emitted| else x.mark)
  }

  function Lives<T>(x: Tracked<T>, hs: seq<Happening<T>>): Tracked<T>
    decreases |hs|
  {
    if hs == [] then x else Lives(Live(x, hs[0]), hs[1..])
  }

  /** The chunks with a socket as their fate, in order. */
  function Given<T>(emitted: seq<seq<T>>, fates: seq<Fate>): seq<(nat, seq<T>)>
    requires |emitted| == |fates|
  {
    if emitted == [] then []
    else
      var n := |emitted| - 1;
      Given(emitted[..n], fates[..n]) + if fates[n].Handed? then [(fates[n].socket, emitted[n])] else []
  }

  /** Exactly the chunks from index `k` on are held. */
  predicate HeldFrom(fates: seq<Fate>, k: int) {
    forall i :: 0 <= i < |fates| ==> (fates[i] == Held <==> k <= i)
  }

  /** What is held is the tail of what was emitted, and is the backlog. */
  ghost predicate HeldIsTail<T>(x: Tracked<T>) {
    |x.fates| == |x.emitted| && IsSuffix(x.terminal.backlog, x.emitted) &&
    x.mark <= |x.emitted| - |x.terminal.backlog| && HeldFrom(x.fates, |x.emitted| - |x.terminal.backlog|)
  }

  /** The terminal is marked exactly when something emitted since the last attach
      was dropped. */
  ghost predicate MarkedWhenDropped<T>(x: Tracked<T>)
    requires |x.fates| == |x.emitted|
  {
    x.terminal.truncated <==>
    exists i :: x.mark <= i < |x.emitted| - |x.terminal.backlog| && x.fates[i] == Dropped
  }

  /** The split of everything emitted; what was handed over is what was sent, in order. */
  ghost predicate Conserved<T>(x: Tracked<T>) {
    HeldIsTail(x) && MarkedWhenDropped(x) && x.handed == Given(x.emitted, x.fates) &&
    (x.terminal.socket.Some? ==> x.terminal.backlog == [])
  }

  lemma GivenAppend<T>(emitted: seq<seq<T>>, fates: seq<Fate>, chunk: seq<T>, fate: Fate)
    requires |emitted| == |fates|
    ensures Given(emitted + [chunk], fates + [fate])
         == Given(emitted, fates) + if fate.Handed? then [(fate.socket, chunk)] else []
  {
    assert (emitted + [chunk])[..|emitted|] == emitted && (fates + [fate])[..|fates|] == fates;
  }

  /** Dropping what was held hands nothing over. */
  lemma {:induction false} GivenAfterDrop<T>(emitted: seq<seq<T>>, fates: seq<Fate>, k: nat)
    requires |emitted| == |fates|
    ensures Given(emitted, Resolve(fates, k, Dropped)) == Given(emitted, fates)
  {
    if emitted != [] {
      var n := |emitted| - 1;
      GivenAfterDrop(emitted[..n], fates[..n], k);
      assert Resolve(fates, k, Dropped)[..n] == Resolve(fates[..n], k, Dropped);
    }
  }

  /** An arrival is handed exactly the held tail, after all that went before. */
  lemma {:induction false} GivenAfterArrival<T>(emitted: seq<seq<T>>, fates: seq<Fate>, k: nat, socket: nat)
    requires |emitted| == |fates| && k <= |fates|
    requires HeldFrom(fates, k)
    ensures Given(emitted, Resolve(fates, |fates|, Handed(socket)))
         == Given(emitted, fates) + DataActs(HandOver(socket, emitted[k..]))
  {
    var n := |emitted| - 1;
    var resolved := Resolve(fates, |fates|, Handed(socket));
    if k == |emitted| {
      assert resolved == fates;
      assert emitted[k..] == [];
    } else {
      GivenAfterArrival(emitted[..n], fates[..n], k, socket);
      assert resolved[..n] == Resolve(fates[..n], n, Handed(socket));
      assert emitted[k..] == emitted[..n][k..] + [emitted[n]];
      HandOverData(socket, emitted[..n][k..], emitted[n]);
    }
  }

  lemma {:induction false} HandOverData<T>(socket: nat, chunks: seq<seq<T>>, chunk: seq<T>)
    ensures DataActs(HandOver(socket, chunks + [chunk])) == DataActs(HandOver(socket, chunks)) + [(socket, chunk)]
  {
    if chunks == [] {
      assert chunks + [chunk] == [chunk];
    } else {
      assert (chunks + [chunk])[1..] == chunks[1..] + [chunk];
      HandOverData(socket, chunks[1..], chunk);
      Associative([(socket, chunks[0])], DataActs(HandOver(socket, chunks[1..])), [(socket, chunk)]);
    }
  }

  lemma {:induction false} DataActsConcat<T>(a: seq<Act<T>>, b: seq<Act<T>>)
    ensures DataActs(a + b) == DataActs(a) + DataActs(b)
  {
    if a == [] {
      assert a + b == b;
    } else {
      assert (a + b)[1..] == a[1..] + b;
      DataActsConcat(a[1..], b);
      Associative(if a[0].DataTo? then [(a[0].socket, a[0].chunk)] else [], DataActs(a[1..]), DataActs(b));
    }
  }

  lemma FarewellHasNoData<T>(socket: Option<nat>)
    ensures DataActs(Farewell<T>(socket)) == []
  {
    if socket.Some? {
      var close: seq<Act<T>> := [CloseOf(socket.value)];
      assert Farewell<T>(socket)[1..] == close;
      assert DataActs(close) == DataActs(close[1..]) == [];
    }
  }

  lemma ReplayData<T>(socket: nat, chunks: seq<seq<T>>, truncated: bool)
    ensures DataActs(Replay(socket, chunks, truncated)) == DataActs(HandOver(socket, chunks))
  {
    assert Replay(socket, chunks, truncated)[1..] == HandOver(socket, chunks);
  }

  lemma ArrivalActs<T>(t: Terminal<T>, socket: nat)
    ensures DataActs(Attaches(t, socket).acts) == DataActs(HandOver(socket, t.backlog))
  {
    var takenOver := if t.socket == Some(socket) then [] else Farewell<T>(t.socket);
    FarewellHasNoData<T>(t.socket);
    FarewellHasNoData<T>(Some(socket));
    ReplayData(socket, t.backlog, t.truncated);
    DataActsConcat(takenOver, Replay(socket, t.backlog, t.truncated));
    DataActsConcat(takenOver + Replay(socket, t.backlog, t.truncated), Farewell(Some(socket)));
  }

  lemma OutputKeptTail<T>(x: Tracked<T>, chunk: seq<T>)
    requires Conserved(x) && x.terminal.socket.Some?
    ensures var y, fate := Live(x, Output(chunk)), Handed(x.terminal.socket.value);
            y.terminal == x.terminal && y.mark == x.mark && y.emitted == x.emitted + [chunk] &&
            y.fates == x.fates + [fate] && y.handed == x.handed + [(fate.socket, chunk)] && HeldIsTail(y)
  {
    OneDataAct(x.terminal.socket.value, chunk);
    OneMoreHandedIsTail(x.fates, |x.emitted|, Handed(x.terminal.socket.value));
    assert (x.emitted + [chunk])[|x.emitted| + 1..] == [];
  }

  lemma OneDataAct<T>(socket: nat, chunk: seq<T>)
    ensures DataActs([DataTo(socket, chunk)]) == [(socket, chunk)]
  {
    var acts: seq<Act<T>> := [DataTo(socket, chunk)];
    assert acts[1..] == [];
  }

  lemma OneMoreHandedIsTail(fates: seq<Fate>, k: nat, fate: Fate)
    requires |fates| == k && fate != Held && forall i :: 0 <= i < k ==> fates[i] != Held
    ensures forall i :: 0 <= i < k + 1 ==> (fates + [fate])[i] != Held
  {
  }

  lemma OutputKeptMark<T>(x: Tracked<T>, y: Tracked<T>, fate: Fate)
    requires Conserved(x) && x.terminal.backlog == [] && y.terminal == x.terminal && y.mark == x.mark
    requires |y.emitted| == |x.emitted| + 1 && y.fates == x.fates + [fate] && fate != Dropped
    ensures MarkedWhenDropped(y)
  {
    if i :| x.mark <= i < |x.emitted| && x.fates[i] == Dropped {
      assert y.fates[i] == Dropped;
    }
  }

  lemma OutputKept<T>(x: Tracked<T>, chunk: seq<T>)
    requires Conserved(x) && x.terminal.socket.Some?
    ensures Conserved(Live(x, Output(chunk)))
  {
    var socket := x.terminal.socket.value;
    OutputKeptTail(x, chunk);
    OutputKeptMark(x, Live(x, Output(chunk)), Handed(socket));
    GivenAppend(x.emitted, x.fates, chunk, Handed(socket));
  }

  /** `y` is `x` after an unwatched chunk, of which and of the backlog a tail is kept. */
  ghost predicate KeepsTail<T>(x: Tracked<T>, chunk: seq<T>, y: Tracked<T>) {
    var pushed, kept := x.terminal.backlog + [chunk], y.terminal.backlog;
    y.emitted == x.emitted + [chunk] && y.mark == x.mark && y.handed == x.handed && y.terminal.socket.None? &&
    IsSuffix(kept, pushed) &&
    y.terminal.truncated == (x.terminal.truncated || |kept| < |pushed|) &&
    |kept| <= |x.fates| + 1 && y.fates == Resolve(x.fates + [Held], |x.fates| + 1 - |kept|, Dropped)
  }

  lemma OutputHeldKeepsTail<T>(x: Tracked<T>, chunk: seq<T>)
    requires x.terminal.socket.None? && |x.terminal.backlog| <= |x.fates|
    ensures KeepsTail(x, chunk, Live(x, Output(chunk)))
  {
    var y := Live(x, Output(chunk));
    assert y.terminal == Emits(x.terminal, chunk).terminal;
    assert y.terminal.backlog == Remember(x.terminal.backlog, chunk);
    assert x.handed + [] == x.handed;
  }

  lemma TailOfPushed<T>(x: Tracked<T>, chunk: seq<T>, y: Tracked<T>)
    requires HeldIsTail(x) && KeepsTail(x, chunk, y)
    ensures HeldIsTail(y)
  {
    TailOfTail(x.emitted, x.terminal.backlog, chunk, y.terminal.backlog);
    HeldFates(x.fates, |x.emitted| - |x.terminal.backlog|, |x.emitted| + 1 - |y.terminal.backlog|);
  }

  lemma KeepingTailConserves<T>(x: Tracked<T>, chunk: seq<T>, y: Tracked<T>)
    requires Conserved(x) && KeepsTail(x, chunk, y)
    ensures Conserved(y)
  {
    var k, k' := |x.emitted| - |x.terminal.backlog|, |y.emitted| - |y.terminal.backlog|;
    TailOfPushed(x, chunk, y);
    HeldHandsNothing(x.emitted, x.fates, chunk, k');
    TruncatedMeansDropped(x, y, k, k');
  }

  lemma OutputHeld<T>(x: Tracked<T>, chunk: seq<T>)
    requires Conserved(x) && x.terminal.socket.None?
    ensures Conserved(Live(x, Output(chunk)))
  {
    OutputHeldKeepsTail(x, chunk);
    KeepingTailConserves(x, chunk, Live(x, Output(chunk)));
  }

  lemma HeldHandsNothing<T>(emitted: seq<seq<T>>, fates: seq<Fate>, chunk: seq<T>, k: nat)
    requires |emitted| == |fates|
    ensures Given(emitted + [chunk], Resolve(fates + [Held], k, Dropped)) == Given(emitted, fates)
  {
    GivenAppend(emitted, fates, chunk, Held);
    GivenAfterDrop(emitted + [chunk], fates + [Held], k);
  }

  lemma TailOfTail<T>(whole: seq<T>, tail: seq<T>, more: T, kept: seq<T>)
    requires IsSuffix(tail, whole) && IsSuffix(kept, tail + [more])
    ensures IsSuffix(kept, whole + [more])
  {
    var rest := whole[..|whole| - |tail|];
    assert whole + [more] == rest + (tail + [more]);
    assert (rest + (tail + [more]))[|rest|..] == tail + [more];
  }

  lemma HeldFates(fates: seq<Fate>, k: nat, k': nat)
    requires k <= k' <= |fates| + 1 && k <= |fates| && HeldFrom(fates, k)
    ensures HeldFrom(Resolve(fates + [Held], k', Dropped), k')
  {
  }

  lemma TruncatedMeansDropped<T>(x: Tracked<T>, y: Tracked<T>, k: nat, k': nat)
    requires k <= k' <= |y.fates| && |y.fates| == |x.fates| + 1 && k <= |x.fates| && x.mark <= k && y.mark == x.mark
    requires y.fates == Resolve(x.fates + [Held], k', Dropped)
    requires HeldFrom(x.fates, k)
    requires x.terminal.truncated <==> exists i :: x.mark <= i < k && x.fates[i] == Dropped
    requires y.terminal.truncated == (x.terminal.truncated || k < k')
    ensures y.terminal.truncated <==> exists i :: y.mark <= i < k' && y.fates[i] == Dropped
  {
    if x.terminal.truncated {
      var i :| x.mark <= i < k && x.fates[i] == Dropped;
      assert y.fates[i] == Dropped;
    } else if k < k' {
      assert y.fates[k] == Dropped;
    } else {
      forall i | y.mark <= i < k' ensures y.fates[i] != Dropped {
        assert y.fates[i] == x.fates[i];
      }
    }
  }

  lemma ArrivalTail<T>(x: Tracked<T>, socket: nat)
    requires Conserved(x)
    ensures var y := Live(x, Arrival(socket));
            y.terminal.backlog == [] && !y.terminal.truncated && y.emitted == x.emitted && y.mark == |x.emitted| &&
            y.fates == Resolve(x.fates, |x.fates|, Handed(socket)) && HeldIsTail(y)
  {
    var y := Live(x, Arrival(socket));
    assert y.emitted[|y.emitted|..] == [];
  }

  lemma ArrivalConserves<T>(x: Tracked<T>, socket: nat)
    requires Conserved(x)
    ensures Conserved(Live(x, Arrival(socket)))
  {
    ArrivalTail(x, socket);
    ArrivalActs(x.terminal, socket);
    GivenAfterArrival(x.emitted, x.fates, |x.emitted| - |x.terminal.backlog|, socket);
  }

  /** What is neither output nor an arrival hands nothing over and drops nothing. */
  lemma SilentConserves<T>(x: Tracked<T>, h: Happening<T>)
    requires Conserved(x) && !h.Output? && !h.Arrival?
    ensures Conserved(Live(x, h))
  {
    var y := Live(x, h);
    FarewellHasNoData<T>(x.terminal.socket);
    assert x.handed + [] == x.handed;
    assert y == x.(terminal := y.terminal) && y.terminal.backlog == x.terminal.backlog;
    assert y.terminal.truncated == x.terminal.truncated && (y.terminal.socket.Some? ==> y.terminal.socket == x.terminal.socket);
    SameTail(x, y.terminal);
  }

  lemma SameTail<T>(x: Tracked<T>, t: Terminal<T>)
    requires Conserved(x) && t.backlog == x.terminal.backlog && t.truncated == x.terminal.truncated
    requires t.socket.Some? ==> t.socket == x.terminal.socket
    ensures Conserved(x.(terminal := t))
  {
  }

  lemma LiveConserves<T>(x: Tracked<T>, h: Happening<T>)
    requires Conserved(x)
    ensures Conserved(Live(x, h))
  {
    match h {
      case Output(chunk) =>
        if x.terminal.socket.Some? { OutputKept(x, chunk); } else { OutputHeld(x, chunk); }
      case Arrival(socket) => ArrivalConserves(x, socket);
      case _ => SilentConserves(x, h);
    }
  }

  lemma {:induction false} LivesConserve<T>(x: Tracked<T>, hs: seq<Happening<T>>)
    requires Conserved(x)
    ensures Conserved(Lives(x, hs))
    decreases |hs|
  {
    if hs != [] {
      LiveConserves(x, hs[0]);
      LivesConserve(Live(x, hs[0]), hs[1..]);
    }
  }

  lemma BeginConserves<T>(socket: nat)
    ensures Conserved(Begin<T>(socket))
  {
    var x := Begin<T>(socket);
    assert x.emitted == [] && x.terminal.backlog == [] && x.fates == [] && x.mark == 0;
    assert x.terminal.backlog == x.emitted[0..];
    assert Given(x.emitted, x.fates) == [];
  }

  /** Over every life of a terminal, its output is conserved. */
  lemma OutputIsConserved<T>(socket: nat, hs: seq<Happening<T>>)
    ensures Conserved(Lives(Begin<T>(socket), hs))
  {
    BeginConserves<T>(socket);
    LivesConserve(Begin<T>(socket), hs);
  }

  /** Something emitted since the last attach had that fate. */
  ghost predicate SomeSince<T>(x: Tracked<T>, fate: Fate)
    requires |x.fates| == |x.emitted|
  {
    exists i :: x.mark <= i < |x.fates| && x.fates[i] == fate
  }

  /** A browser that reconnects is told the truth: that output was dropped since the
      last attach; or else that there is some it missed; or else that there is none. */
  lemma NoticeIsTrue<T>(socket: nat, hs: seq<Happening<T>>, newcomer: nat)
    ensures var x := Lives(Begin<T>(socket), hs);
            var notice := NoticeFor(x.terminal.backlog, x.terminal.truncated);
            |x.fates| == |x.emitted| && NoticeTo(newcomer, notice) in Attaches(x.terminal, newcomer).acts &&
            (notice == OutputWasDropped <==> SomeSince(x, Dropped)) &&
            (notice == HereIsWhatYouMissed <==> !SomeSince(x, Dropped) && SomeSince(x, Held)) &&
            (notice == Reconnected <==> !SomeSince(x, Dropped) && !SomeSince(x, Held))
  {
    OutputIsConserved<T>(socket, hs);
    var x := Lives(Begin<T>(socket), hs);
    var takenOver := if x.terminal.socket == Some(newcomer) then [] else Farewell<T>(x.terminal.socket);
    var k := |x.emitted| - |x.terminal.backlog|;
    if i :| x.mark <= i < |x.fates| && x.fates[i] == Dropped { assert i < k; }
    if x.terminal.backlog != [] { assert x.fates[k] == Held; }
    assert Attaches(x.terminal, newcomer).acts[|takenOver|] ==
           NoticeTo(newcomer, NoticeFor(x.terminal.backlog, x.terminal.truncated));
  }

  /* ---------------------------- what sockets are told --------------------------- */

  predicate Parts<T>(a: Act<T>, socket: nat) {
    a == ExitTo(socket) || a == CloseOf(socket)
  }

  predicate LeftOpen<T>(acts: seq<Act<T>>, socket: nat) {
    forall i :: 0 <= i < |acts| ==> !Parts(acts[i], socket)
  }

  /** The socket is told of the exit, then closed, once, and nothing comes after. */
  predicate ToldAndClosed<T>(acts: seq<Act<T>>, socket: nat) {
    exists i :: 0 <= i < |acts| - 1 && ClosedAt(acts, socket, i)
  }

  predicate ClosedAt<T>(acts: seq<Act<T>>, socket: nat, i: nat)
    requires i < |acts| - 1
  {
    acts[i] == ExitTo(socket) && acts[i + 1] == CloseOf(socket) &&
    (forall k :: 0 <= k < i ==> !Parts(acts[k], socket)) && forall k :: i + 1 < k < |acts| ==> acts[k].socket != socket
  }

  lemma {:induction false} HandOverLeavesOpen<T>(to: nat, chunks: seq<seq<T>>)
    ensures forall i :: 0 <= i < |HandOver(to, chunks)| ==> HandOver(to, chunks)[i].DataTo? && HandOver(to, chunks)[i].socket == to
    decreases |chunks|
  {
    if chunks != [] { HandOverLeavesOpen(to, chunks[1..]); }
  }

  /** Which sockets something that happens to a terminal takes away. */
  predicate LosesIt<T>(t: Terminal<T>, h: Happening<T>, socket: nat) {
    match h
    case Output(_) => false
    case ShellExit => t.socket == Some(socket)
    case SessionEnd => t.socket == Some(socket)
    case Arrival(newcomer) => if newcomer == socket then t.exited else t.socket == Some(socket)
    case _ => false
  }

  lemma FarewellTells<T>(socket: Option<nat>, other: nat)
    ensures if socket == Some(other) then ToldAndClosed(Farewell<T>(socket), other) else LeftOpen(Farewell<T>(socket), other)
    ensures forall i :: 0 <= i < |Farewell<T>(socket)| ==> socket == Some(Farewell<T>(socket)[i].socket)
  {
    if socket == Some(other) { assert ClosedAt(Farewell<T>(socket), other, 0); }
  }

  /** First the farewell to the old socket, then the replay and, for a shell that is
      gone, the farewell to the new one. */
  lemma ArrivalTells<T>(t: Terminal<T>, newcomer: nat, socket: nat)
    ensures var acts := Attaches(t, newcomer).acts;
            if LosesIt(t, Arrival(newcomer), socket) then ToldAndClosed(acts, socket) else LeftOpen(acts, socket)
  {
    var acts := Attaches(t, newcomer).acts;
    var takenOver := if t.socket == Some(newcomer) then [] else Farewell<T>(t.socket);
    var replay := Replay(newcomer, t.backlog, t.truncated);
    HandOverLeavesOpen(newcomer, t.backlog);
    FarewellTells<T>(t.socket, socket);
    FarewellTells<T>(Some(newcomer), socket);
    assert forall i :: 0 <= i < |replay| ==> replay[i].socket == newcomer && !replay[i].ExitTo? && !replay[i].CloseOf?;
    assert acts == takenOver + replay + if t.exited then Farewell<T>(Some(newcomer)) else [];
    if LosesIt(t, Arrival(newcomer), socket) {
      assert ClosedAt(acts, socket, if socket == newcomer then |takenOver + replay| else 0);
    }
  }

  /** A browser is told of the exit and then closed exactly when it loses its terminal:
      the shell exited, the session was ended, another browser took over, or the shell it
      came back to is gone. */
  lemma LosersAreTold<T>(t: Terminal<T>, h: Happening<T>, socket: nat)
    ensures if LosesIt(t, h, socket) then ToldAndClosed(React(t, h).acts, socket) else LeftOpen(React(t, h).acts, socket)
  {
    match h {
      case Output(_) =>
      case ShellExit => FarewellTells<T>(t.socket, socket);
      case Arrival(newcomer) => ArrivalTells(t, newcomer, socket);
      case SessionEnd => FarewellTells<T>(t.socket, socket);
      case Departure(_, _) =>
      case GraceOver =>
    }
  }

  /* ------------------------------ terminals of the table ------------------------ */

  /** What an event of the table does to one terminal, if anything. */
  function HappensTo<T>(table: Table<T>, e: Event<T>, id: nat): seq<Happening<T>>
    requires Possible(table, e)
  {
    match e
    case Register(session, _, _) => if IsEntry(table, session, id) then [SessionEnd] else []
    case Emit(other, chunk) => if other == id then [Output(chunk)] else []
    case Exit(other) => if other == id then [ShellExit] else []
    case Attach(session, socket) => if IsEntry(table, session, id) then [Arrival(socket)] else []
    case Detach(session, socket) =>
      if IsEntry(table, session, id) then [Departure(socket, table.nextTimer)] else []
    case End(session) => if IsEntry(table, session, id) then [SessionEnd] else []
    case Fire(timer) => if table.pending[timer] == id then [GraceOver] else []
  }

  predicate IsEntry<T>(table: Table<T>, session: SessionId, id: nat) {
    session in table.live && table.live[session] == id
  }

  lemma StepReacts<T>(table: Table<T>, e: Event<T>, id: nat)
    requires Possible(table, e) && id in table.terminals
    ensures id in Step(table, e).terminals
    ensures var hs := HappensTo(table, e, id);
            Step(table, e).terminals[id] == if hs == [] then table.terminals[id] else React(table.terminals[id], hs[0]).terminal
  {
  }

  /** Everything that happens to a terminal in the course of a run. */
  ghost function LifeOf<T>(table: Table<T>, events: seq<Event<T>>, id: nat): seq<Happening<T>>
    decreases |events|
  {
    if events == [] || !Possible(table, events[0]) then []
    else HappensTo(table, events[0], id) + LifeOf(Step(table, events[0]), events[1..], id)
  }

  lemma {:induction false} LivesConcat<T>(x: Tracked<T>, a: seq<Happening<T>>, b: seq<Happening<T>>)
    ensures Lives(x, a + b) == Lives(Lives(x, a), b)
    decreases |a|
  {
    if a == [] {
      assert a + b == b;
    } else {
      assert (a + b)[1..] == a[1..] + b;
      LivesConcat(Live(x, a[0]), a[1..], b);
    }
  }

  /** In any run of the table a terminal ends up as its own life makes it. */
  lemma {:induction false} RunIsLife<T>(table: Table<T>, events: seq<Event<T>>, last: Table<T>, id: nat, x: Tracked<T>)
    requires Runs(table, events, last) && id in table.terminals && x.terminal == table.terminals[id]
    ensures id in last.terminals && last.terminals[id] == Lives(x, LifeOf(table, events, id)).terminal
    decreases |events|
  {
    if events != [] {
      var hs := HappensTo(table, events[0], id);
      StepReacts(table, events[0], id);
      LivesConcat(x, hs, LifeOf(Step(table, events[0]), events[1..], id));
      if hs != [] { assert Lives(x, hs) == Live(x, hs[0]) by { assert hs[1..] == []; } }
      RunIsLife(Step(table, events[0]), events[1..], last, id, Lives(x, hs));
    }
  }

  /** So from its registration on, in any run of the whole table, its output is
      conserved. */
  lemma EveryTerminalConserves<T>(table: Table<T>, session: SessionId, socket: nat, id: nat, events: seq<Event<T>>,
                                  last: Table<T>)
    requires Possible(table, Register(session, socket, id)) && Runs(Step(table, Register(session, socket, id)), events, last)
    ensures var x := Lives(Begin<T>(socket), LifeOf(Step(table, Register(session, socket, id)), events, id));
            id in last.terminals && last.terminals[id] == x.terminal && Conserved(x)
  {
    RunIsLife(Step(table, Register(session, socket, id)), events, last, id, Begin<T>(socket));
    OutputIsConserved<T>(socket, LifeOf(Step(table, Register(session, socket, id)), events, id));
  }
}
