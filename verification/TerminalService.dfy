/** The module state of apps/gateway/src/terminals.ts as objects: a record per
    live terminal, changed in place and captured by its stream's closures, and
    the map of them by session. Every method is proved against the outcome that
    `Terminals` gives for its event. */
module TerminalService {
  import opened Common
  import opened Rings
  import opened Terminals

  class LiveTerminal<T> {
    var socket: Option<nat>
    var backlog: seq<seq<T>>
    var backlogBytes: nat
    var truncated: bool
    var exited: bool
    var graceTimer: Option<nat>
    var ended: nat
    var disposed: nat

    predicate Valid()
      reads this
    {
      backlogBytes == Size(backlog)
    }

    function View(): Terminal<T>
      reads this
    {
      Terminal(socket, backlog, truncated, exited, graceTimer, ended, disposed)
    }

    constructor (socket: nat)
      ensures Valid() && View() == Registered(socket)
    {
      this.socket := Some(socket);
      backlog, backlogBytes := [], 0;
      truncated, exited, graceTimer, ended, disposed := false, false, None, 0, 0;
    }

    method Remember(chunk: seq<T>)
      requires Valid()
      modifies this`backlog, this`backlogBytes, this`truncated
      ensures Valid()
      ensures backlog == Rings.Remember(old(backlog), chunk)
      ensures truncated == (old(truncated) || |backlog| <= |old(backlog)|)
    {
      FlatAppend(backlog, chunk);
      backlog := backlog + [chunk];
      backlogBytes := backlogBytes + |chunk|;
      while backlogBytes > MAX_BACKLOG_BYTES && |backlog| > 1
        invariant Valid()
        invariant 1 <= |backlog| <= |old(backlog)| + 1
        invariant Evict(backlog, MAX_BACKLOG_BYTES) == Evict(old(backlog) + [chunk], MAX_BACKLOG_BYTES)
        invariant truncated == (old(truncated) || |backlog| <= |old(backlog)|)
        decreases |backlog|
      {
        var dropped := backlog[0];
        backlog := backlog[1..];
        backlogBytes := backlogBytes - |dropped|;
        truncated := true;
      }
    }
  }

  datatype AttachResult<T> = AttachResult(backlog: seq<seq<T>>, truncated: bool, exited: bool)

  class Service<T> {
    var terminals: map<SessionId, LiveTerminal<T>>
    /** Timers set and neither cleared nor fired, with what their closures captured. */
    var pending: map<nat, (SessionId, LiveTerminal<T>)>
    var nextTimer: nat
    /** Calls on browser sockets, oldest first. */
    var acts: seq<Act<T>>

    constructor ()
      ensures terminals == map[] && pending == map[] && nextTimer == 0 && acts == []
    {
      terminals, pending, nextTimer, acts := map[], map[], 0, [];
    }

    /** The pending timers once `t`'s handle is cleared. */
    ghost function Cleared(t: LiveTerminal<T>): map<nat, (SessionId, LiveTerminal<T>)>
      reads this, t
    {
      if t.graceTimer.Some? then pending - {t.graceTimer.value} else pending
    }

    method ClearGrace(t: LiveTerminal<T>)
      modifies this`pending, t`graceTimer
      ensures pending == old(Cleared(t)) && t.graceTimer == None
    {
      if t.graceTimer == None {
        return;
      }
      pending := pending - {t.graceTimer.value};
      t.graceTimer := None;
    }

    method SayFarewell(socket: Option<nat>)
      modifies this`acts
      ensures acts == old(acts) + Farewell(socket)
    {
      if socket != None {
        acts := acts + [ExitTo(socket.value)];
        acts := acts + [CloseOf(socket.value)];
      }
    }

    method Dispose(t: LiveTerminal<T>)
      modifies t`disposed
      ensures t.disposed == old(t.disposed) + 1
    {
      t.disposed := t.disposed + 1;
    }

    method EndTerminal(session: SessionId)
      requires session in terminals ==> terminals[session].Valid()
      modifies this, if session in terminals then {terminals[session]} else {}
      ensures terminals == old(terminals) - {session} && nextTimer == old(nextTimer)
      ensures session !in old(terminals) ==> pending == old(pending) && acts == old(acts)
      ensures session in old(terminals) ==>
        var t := old(terminals[session]);
        t.Valid() && t.View() == Ends(old(t.View())).terminal &&
        acts == old(acts) + Ends(old(t.View())).acts && pending == old(Cleared(terminals[session]))
    {
      if session !in terminals {
        return;
      }
      var t := terminals[session];
      terminals := terminals - {session};
      ClearGrace(t);
      SayFarewell(t.socket);
      if !t.exited {
        t.ended := t.ended + 1;
      }
      Dispose(t);
    }

    method RegisterTerminal(session: SessionId, socket: nat) returns (t: LiveTerminal<T>)
      requires session in terminals ==> terminals[session].Valid()
      modifies this, if session in terminals then {terminals[session]} else {}
      ensures fresh(t) && t.Valid() && t.View() == Registered(socket)
      ensures terminals == old(terminals)[session := t] && nextTimer == old(nextTimer)
      ensures session !in old(terminals) ==> pending == old(pending) && acts == old(acts)
      ensures session in old(terminals) ==>
        var ended := old(terminals[session]);
        ended.View() == Ends(old(ended.View())).terminal &&
        acts == old(acts) + Ends(old(ended.View())).acts && pending == old(Cleared(terminals[session]))
    {
      EndTerminal(session);
      t := new LiveTerminal(socket);
      terminals := terminals[session := t];
    }

    method Hold(t: LiveTerminal<T>, chunk: seq<T>)
      requires t.Valid() && t.socket.None?
      modifies t`backlog, t`backlogBytes, t`truncated
      ensures t.Valid() && t.View() == Emits(old(t.View()), chunk).terminal
    {
      t.Remember(chunk);
    }

    /** The stream's data closure, which holds on to its own record. */
    method OnData(t: LiveTerminal<T>, chunk: seq<T>)
      requires t.Valid()
      modifies this`acts, t`backlog, t`backlogBytes, t`truncated
      ensures t.Valid() && t.View() == Emits(old(t.View()), chunk).terminal
      ensures acts == old(acts) + if old(t.socket).Some? then [DataTo(old(t.socket).value, chunk)] else []
    {
      if t.socket != None {
        acts := acts + [DataTo(t.socket.value, chunk)];
        return;
      }
      Hold(t, chunk);
      assert acts + [] == acts;
    }

    /** The stream's exit closure: deletes by session id, whoever is there. */
    method OnExit(session: SessionId, t: LiveTerminal<T>)
      requires t.Valid()
      modifies this, t
      ensures t.Valid() && t.View() == Exits(old(t.View())).terminal && nextTimer == old(nextTimer)
      ensures acts == old(acts) + Exits(old(t.View())).acts
      ensures terminals == if Exits(old(t.View())).kept then old(terminals) else old(terminals) - {session}
      ensures pending == if old(t.socket).Some? then old(Cleared(t)) else old(pending)
    {
      t.exited := true;
      if t.socket != None {
        SayFarewell(t.socket);
        terminals := terminals - {session};
        ClearGrace(t);
        Dispose(t);
      }
    }

    /** The newcomer wins; a socket it replaces is told to stop. */
    method TakeOver(t: LiveTerminal<T>, socket: nat)
      modifies this`acts, t`socket
      ensures t.socket == Some(socket)
      ensures acts == old(acts) + if old(t.socket) == Some(socket) then [] else Farewell(old(t.socket))
    {
      if t.socket != None && t.socket != Some(socket) {
        var previous := t.socket;
        t.socket := None;
        SayFarewell(previous);
      } else {
        assert acts + [] == acts;
      }
      t.socket := Some(socket);
    }

    method AttachSocket(session: SessionId, socket: nat) returns (result: Option<AttachResult<T>>)
      requires session in terminals ==> terminals[session].Valid()
      modifies this, if session in terminals then {terminals[session]} else {}
      ensures nextTimer == old(nextTimer)
      ensures session !in old(terminals) ==>
        result == None && terminals == old(terminals) && pending == old(pending) && acts == old(acts)
      ensures session in old(terminals) ==>
        var t := old(terminals[session]);
        var outcome := Attaches(old(t.View()), socket);
        t.Valid() && t.View() == outcome.terminal && pending == old(Cleared(terminals[session])) &&
        terminals == (if outcome.kept then old(terminals) else old(terminals) - {session}) &&
        result == Some(AttachResult(old(t.backlog), old(t.truncated), old(t.exited))) &&
        acts == old(acts) + if old(t.socket) == Some(socket) then [] else Farewell(old(t.socket))
    {
      if session !in terminals {
        return None;
      }
      var t := terminals[session];
      ClearGrace(t);
      TakeOver(t, socket);
      var backlog, truncated := t.backlog, t.truncated;
      t.backlog, t.backlogBytes, t.truncated := [], 0, false;
      if t.exited {
        terminals := terminals - {session};
        ClearGrace(t);
        Dispose(t);
      }
      result := Some(AttachResult(backlog, truncated, t.exited));
    }

    /** `resumeTerminal` in routes.ts: a notice, and the backlog in order. */
    method ResumeTerminal(socket: nat, resumed: AttachResult<T>)
      modifies this`acts
      ensures acts == old(acts) + Replay(socket, resumed.backlog, resumed.truncated) +
                      if resumed.exited then Farewell(Some(socket)) else []
    {
      if resumed.truncated {
        acts := acts + [NoticeTo(socket, OutputWasDropped)];
      } else if |resumed.backlog| > 0 {
        acts := acts + [NoticeTo(socket, HereIsWhatYouMissed)];
      } else {
        acts := acts + [NoticeTo(socket, Reconnected)];
      }
      ghost var told := acts;
      var i := 0;
      while i < |resumed.backlog|
        invariant i <= |resumed.backlog|
        invariant acts == told + HandOver(socket, resumed.backlog[..i])
      {
        HandOverAppend(socket, resumed.backlog[..i], resumed.backlog[i]);
        assert resumed.backlog[..i + 1] == resumed.backlog[..i] + [resumed.backlog[i]];
        acts := acts + [DataTo(socket, resumed.backlog[i])];
        i := i + 1;
      }
      assert resumed.backlog[..i] == resumed.backlog;
      if resumed.exited {
        SayFarewell(Some(socket));
      }
    }

    /** What a reconnecting browser's request does. */
    method Reattach(session: SessionId, socket: nat)
      requires session in terminals && terminals[session].Valid()
      modifies this, terminals[session]
      ensures var t := old(terminals[session]);
        var outcome := Attaches(old(t.View()), socket);
        t.Valid() && t.View() == outcome.terminal && acts == old(acts) + outcome.acts &&
        terminals == if outcome.kept then old(terminals) else old(terminals) - {session}
    {
      var resumed := AttachSocket(session, socket);
      ResumeTerminal(socket, resumed.value);
    }

    method DetachSocket(session: SessionId, socket: nat)
      requires session in terminals ==> terminals[session].Valid()
      modifies this, if session in terminals then {terminals[session]} else {}
      ensures acts == old(acts)
      ensures session !in old(terminals) || old(terminals[session].socket) != Some(socket) ==>
        terminals == old(terminals) && pending == old(pending) && nextTimer == old(nextTimer)
      ensures session in old(terminals) ==>
        var t := old(terminals[session]);
        var outcome := Detaches(old(t.View()), socket, old(nextTimer));
        t.Valid() && t.View() == outcome.terminal &&
        terminals == (if outcome.kept then old(terminals) else old(terminals) - {session}) &&
        (old(t.socket) == Some(socket) && !old(t.exited) ==>
          pending == old(Cleared(terminals[session]))[old(nextTimer) := (session, t)] && nextTimer == old(nextTimer) + 1) &&
        (old(t.socket) == Some(socket) && old(t.exited) ==> pending == old(Cleared(terminals[session])))
    {
      if session !in terminals || terminals[session].socket != Some(socket) {
        return;
      }
      var t := terminals[session];
      t.socket := None;
      if t.exited {
        terminals := terminals - {session};
        ClearGrace(t);
        Dispose(t);
        return;
      }
      ClearGrace(t);
      pending := pending[nextTimer := (session, t)];
      t.graceTimer := Some(nextTimer);
      nextTimer := nextTimer + 1;
    }

    /** A grace timer fires. */
    method OnGrace(timer: nat)
      requires timer in pending && pending[timer].1.Valid()
      modifies this, pending[timer].1
      ensures var (session, t) := old(pending[timer]);
        t.Valid() && t.View() == Expires(old(t.View())).terminal &&
        terminals == old(terminals) - {session} && pending == old(pending) - {timer} &&
        acts == old(acts) && nextTimer == old(nextTimer)
    {
      var (session, t) := pending[timer];
      pending := pending - {timer};
      terminals := terminals - {session};
      t.ended := t.ended + 1;
      Dispose(t);
    }
  }

  lemma {:induction false} HandOverAppend<T>(socket: nat, chunks: seq<seq<T>>, chunk: seq<T>)
    ensures HandOver(socket, chunks + [chunk]) == HandOver(socket, chunks) + [DataTo(socket, chunk)]
  {
    if chunks == [] {
      assert chunks + [chunk] == [chunk];
    } else {
      assert (chunks + [chunk])[1..] == chunks[1..] + [chunk];
      HandOverAppend(socket, chunks[1..], chunk);
      Associative([DataTo(socket, chunks[0])], HandOver(socket, chunks[1..]), [DataTo(socket, chunk)]);
    }
  }
}
