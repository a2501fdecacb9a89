/** Terminals that outlive the browser socket attached to them
    (apps/gateway/src/terminals.ts): what one event does to one terminal, the
    table that holds them, and the classes whose methods make those changes. */
module Terminals {
  import opened Common
  import opened Rings

  /** What a reconnecting browser is told before it is shown what it missed. */
  datatype Notice = OutputWasDropped | HereIsWhatYouMissed | Reconnected

  /** Calls on browser sockets, in order. A chunk counts as handed over when it
      is passed to `send`, whether or not the socket is still open. */
  datatype Act<T> =
    | NoticeTo(socket: nat, notice: Notice)
    | DataTo(socket: nat, chunk: seq<T>)
    | ExitTo(socket: nat)
    | CloseOf(socket: nat)

  /** `ended` and `disposed` count the calls to `stream.end()` and `dispose()`. */
  datatype Terminal<T> = Terminal(
    socket: Option<nat>,
    backlog: seq<seq<T>>,
    truncated: bool,
    exited: bool,
    timer: Option<nat>,
    ended: nat,
    disposed: nat)

  /** What an event does: the terminal it leaves, the socket calls it makes and
      whether the session keeps its entry in the table. */
  datatype Outcome<T> = Outcome(terminal: Terminal<T>, acts: seq<Act<T>>, kept: bool)

  function Registered<T>(socket: nat): Terminal<T> {
    Terminal(Some(socket), [], false, false, None, 0, 0)
  }

  function Farewell<T>(socket: Option<nat>): seq<Act<T>> {
    if socket.Some? then [ExitTo(socket.value), CloseOf(socket.value)] else []
  }

  function HandOver<T>(socket: nat, chunks: seq<seq<T>>): seq<Act<T>> {
    if chunks == [] then [] else [DataTo(socket, chunks[0])] + HandOver(socket, chunks[1..])
  }

  function NoticeFor<T>(chunks: seq<seq<T>>, truncated: bool): Notice {
    if truncated then OutputWasDropped else if chunks != [] then HereIsWhatYouMissed else Reconnected
  }

  /** The notice, then what was held, in order. */
  function Replay<T>(socket: nat, chunks: seq<seq<T>>, truncated: bool): seq<Act<T>> {
    [NoticeTo(socket, NoticeFor(chunks, truncated))] + HandOver(socket, chunks)
  }

  function Emits<T>(t: Terminal<T>, chunk: seq<T>): Outcome<T> {
    if t.socket.Some? then Outcome(t, [DataTo(t.socket.value, chunk)], true)
    else
      var kept := Remember(t.backlog, chunk);
      Outcome(t.(backlog := kept, truncated := t.truncated || |kept| <= |t.backlog|), [], true)
  }

  function Exits<T>(t: Terminal<T>): Outcome<T> {
    var gone := t.(exited := true);
    if t.socket.None? then Outcome(gone, [], true)
    else Outcome(gone.(timer := None, disposed := t.disposed + 1), Farewell(t.socket), false)
  }

  /** `attachSocket`, then `resumeTerminal` replaying what was missed. */
  function Attaches<T>(t: Terminal<T>, socket: nat): Outcome<T> {
    var takenOver := if t.socket == Some(socket) then [] else Farewell<T>(t.socket);
    var attached := t.(socket := Some(socket), backlog := [], truncated := false, timer := None);
    var replay := takenOver + Replay(socket, t.backlog, t.truncated);
    if t.exited then Outcome(attached.(disposed := t.disposed + 1), replay + Farewell(Some(socket)), false)
    else Outcome(attached, replay, true)
  }

  /** A socket that is not the one on record detaches nothing. */
  function Detaches<T>(t: Terminal<T>, socket: nat, timer: nat): Outcome<T> {
    if t.socket != Some(socket) then Outcome(t, [], true)
    else if t.exited then Outcome(t.(socket := None, timer := None, disposed := t.disposed + 1), [], false)
    else Outcome(t.(socket := None, timer := Some(timer)), [], true)
  }

  function Ends<T>(t: Terminal<T>): Outcome<T> {
    Outcome(t.(timer := None, ended := if t.exited then t.ended else t.ended + 1, disposed := t.disposed + 1),
            Farewell(t.socket), false)
  }

  /** The grace period ran out. */
  function Expires<T>(t: Terminal<T>): Outcome<T> {
    Outcome(t.(ended := t.ended + 1, disposed := t.disposed + 1), [], false)
  }

  /* ---------------------------------- the table --------------------------------- */

  type SessionId = string

  /** Every terminal ever registered, by identity, because the closures of a dead
      one still run; `live` is the map of the source, `pending` the timers set
      and neither cleared nor fired. */
  datatype Table<T> = Table(
    terminals: map<nat, Terminal<T>>,
    sessions: map<nat, SessionId>,
    live: map<SessionId, nat>,
    pending: map<nat, nat>,
    nextTimer: nat)

  datatype Event<T> =
    | Register(session: SessionId, socket: nat, id: nat)
    | Emit(id: nat, chunk: seq<T>)
    | Exit(id: nat)
    | Attach(session: SessionId, socket: nat)
    | Detach(session: SessionId, socket: nat)
    | End(session: SessionId)
    | Fire(timer: nat)

  predicate Possible<T>(table: Table<T>, e: Event<T>) {
    match e
    case Register(session, _, id) =>
      id !in table.terminals && id !in table.sessions && (session in table.live ==> table.live[session] in table.terminals)
    case Emit(id, _) => id in table.terminals
    case Exit(id) => id in table.terminals && id in table.sessions
    case Fire(timer) => timer in table.pending && table.pending[timer] in table.terminals && table.pending[timer] in table.sessions
    case Attach(session, _) => session in table.live ==> table.live[session] in table.terminals
    case Detach(session, _) => session in table.live ==> table.live[session] in table.terminals
    case End(session) => session in table.live ==> table.live[session] in table.terminals
  }

  /** `clearTimeout` on the old handle, then the new one set. */
  function Retimed(pending: map<nat, nat>, id: nat, before: Option<nat>, after: Option<nat>): map<nat, nat> {
    if before == after then pending
    else
      var cleared := if before.Some? then pending - {before.value} else pending;
      if after.Some? then cleared[after.value := id] else cleared
  }

  /** The entry of `session` is dropped when the outcome does not keep it. */
  function Apply<T>(table: Table<T>, id: nat, session: SessionId, outcome: Outcome<T>): Table<T>
    requires id in table.terminals
  {
    table.(terminals := table.terminals[id := outcome.terminal],
           live := if outcome.kept then table.live else table.live - {session},
           pending := Retimed(table.pending, id, table.terminals[id].timer, outcome.terminal.timer))
  }

  function EndSession<T>(table: Table<T>, session: SessionId): Table<T>
    requires Possible(table, End(session))
  {
    if session !in table.live then table
    else Apply(table, table.live[session], session, Ends(table.terminals[table.live[session]]))
  }

  function Step<T>(table: Table<T>, e: Event<T>): Table<T>
    requires Possible(table, e)
  {
    match e
    case Register(session, socket, id) =>
      var cleared := EndSession(table, session);
      cleared.(terminals := cleared.terminals[id := Registered(socket)],
               sessions := cleared.sessions[id := session],
               live := cleared.live[session := id])
    case Emit(id, chunk) => table.(terminals := table.terminals[id := Emits(table.terminals[id], chunk).terminal])
    case Exit(id) => Apply(table, id, table.sessions[id], Exits(table.terminals[id]))
    case Attach(session, socket) =>
      if session !in table.live then table
      else Apply(table, table.live[session], session, Attaches(table.terminals[table.live[session]], socket))
    case Detach(session, socket) =>
      if session !in table.live then table
      else
        var outcome := Detaches(table.terminals[table.live[session]], socket, table.nextTimer);
        Apply(table, table.live[session], session, outcome)
          .(nextTimer := if outcome.terminal.timer == Some(table.nextTimer) then table.nextTimer + 1 else table.nextTimer)
    case End(session) => EndSession(table, session)
    case Fire(timer) =>
      var id := table.pending[timer];
      Apply(table, id, table.sessions[id], Expires(table.terminals[id])).(pending := table.pending - {timer})
  }

  function Empty<T>(): Table<T> {
    Table(map[], map[], map[], map[], 0)
  }

  /** Someone is watching: nothing pending, nothing missed, nothing over. */
  predicate Watched<T>(t: Terminal<T>) {
    t.socket.Some? && t.timer.None? && t.backlog == [] && !t.truncated && !t.exited && t.disposed == 0 && t.ended == 0
  }

  /** Nobody is: exactly one countdown is running. */
  predicate Waiting<T>(table: Table<T>, id: nat)
    requires id in table.terminals
  {
    var t := table.terminals[id];
    t.socket.None? && t.disposed == 0 && t.ended == 0 &&
    t.timer.Some? && t.timer.value in table.pending && table.pending[t.timer.value] == id
  }

  ghost predicate IsLive<T>(table: Table<T>, id: nat) {
    id in table.sessions && table.sessions[id] in table.live && table.live[table.sessions[id]] == id
  }

  ghost predicate EntriesOk<T>(table: Table<T>) {
    forall session <- table.live ::
      table.live[session] in table.terminals && table.live[session] in table.sessions &&
      table.sessions[table.live[session]] == session &&
      (Watched(table.terminals[table.live[session]]) || Waiting(table, table.live[session]))
  }

  ghost predicate TimersOk<T>(table: Table<T>) {
    forall timer <- table.pending ::
      timer < table.nextTimer && IsLive(table, table.pending[timer]) && table.pending[timer] in table.terminals &&
      table.terminals[table.pending[timer]].timer == Some(timer)
  }

  /** Disposed of, and its shell either exited or was ended, once. */
  predicate Over<T>(t: Terminal<T>) {
    t.disposed >= 1 && t.ended <= 1 && (t.exited || t.ended == 1)
  }

  /** Whatever is no longer in the table was disposed of. */
  ghost predicate DeadDisposed<T>(table: Table<T>) {
    table.sessions.Keys == table.terminals.Keys &&
    (forall id <- table.terminals :: !IsLive(table, id) ==> Over(table.terminals[id])) &&
    (forall id <- table.terminals :: table.terminals[id].socket.Some? ==> table.terminals[id].timer.None?)
  }

  ghost predicate TableInv<T>(table: Table<T>) {
    EntriesOk(table) && TimersOk(table) && DeadDisposed(table)
  }

  /** A dead terminal whose socket is still on record, with a successor under the
      same session: its exit closure deletes the entry by session id. */
  ghost predicate Superseded<T>(table: Table<T>, id: nat)
    requires id in table.terminals && id in table.sessions
  {
    table.terminals[id].socket.Some? && table.sessions[id] in table.live && table.live[table.sessions[id]] != id
  }

  ghost predicate Tidy<T>(table: Table<T>, e: Event<T>)
    requires Possible(table, e)
  {
    e.Exit? ==> !Superseded(table, e.id)
  }

  lemma EmptyInv<T>()
    ensures TableInv(Empty<T>())
  {
  }

  lemma RemovalKeepsEntries<T>(table: Table<T>, id: nat, outcome: Outcome<T>)
    requires TableInv(table) && id in table.terminals && IsLive(table, id) && !outcome.kept
    requires outcome.terminal.timer.None?
    ensures EntriesOk(Apply(table, id, table.sessions[id], outcome))
  {
    var after := Apply(table, id, table.sessions[id], outcome);
    forall session <- after.live
      ensures Watched(after.terminals[after.live[session]]) || Waiting(after, after.live[session])
    {
      assert session in table.live && table.live[session] != id;
    }
  }

  lemma RemovalKeepsTimers<T>(table: Table<T>, id: nat, outcome: Outcome<T>)
    requires TableInv(table) && id in table.terminals && IsLive(table, id) && !outcome.kept
    requires outcome.terminal.timer.None?
    ensures TimersOk(Apply(table, id, table.sessions[id], outcome))
  {
  }

  lemma RemovalKeepsDead<T>(table: Table<T>, id: nat, outcome: Outcome<T>)
    requires TableInv(table) && id in table.terminals && IsLive(table, id) && !outcome.kept
    requires Over(outcome.terminal) && outcome.terminal.timer.None?
    ensures DeadDisposed(Apply(table, id, table.sessions[id], outcome))
  {
  }

  /** A live entry that leaves the table, disposed of and with its timer cleared. */
  lemma RemovalKeepsInv<T>(table: Table<T>, id: nat, outcome: Outcome<T>)
    requires TableInv(table) && id in table.terminals && IsLive(table, id)
    requires !outcome.kept && Over(outcome.terminal) && outcome.terminal.timer.None?
    ensures TableInv(Apply(table, id, table.sessions[id], outcome))
  {
    RemovalKeepsEntries(table, id, outcome);
    RemovalKeepsTimers(table, id, outcome);
    RemovalKeepsDead(table, id, outcome);
  }

  /** A live entry that stays, watched or with the countdown it already had. */
  lemma StayingKeepsInv<T>(table: Table<T>, id: nat, outcome: Outcome<T>)
    requires TableInv(table) && id in table.terminals && IsLive(table, id) && outcome.kept
    requires Watched(outcome.terminal) ||
             (outcome.terminal.socket.None? && outcome.terminal.disposed == 0 && outcome.terminal.ended == 0 && Waiting(table, id)
              && outcome.terminal.timer == table.terminals[id].timer)
    ensures TableInv(Apply(table, id, table.sessions[id], outcome))
  {
    var after := Apply(table, id, table.sessions[id], outcome);
    forall session <- after.live
      ensures Watched(after.terminals[after.live[session]]) || Waiting(after, after.live[session])
    {
      assert session in table.live;
    }
  }

  /** Ending a session leaves a table without it. */
  lemma EndKeepsInv<T>(table: Table<T>, session: SessionId)
    requires TableInv(table)
    ensures Possible(table, End(session)) && TableInv(EndSession(table, session)) && session !in EndSession(table, session).live
  {
    if session in table.live {
      var id := table.live[session];
      RemovalKeepsInv(table, id, Ends(table.terminals[id]));
    }
  }

  /** Adding a fresh, watched terminal. */
  lemma AdditionKeepsInv<T>(table: Table<T>, session: SessionId, socket: nat, id: nat)
    requires TableInv(table) && session !in table.live && id !in table.terminals && id !in table.sessions
    ensures TableInv(table.(terminals := table.terminals[id := Registered(socket)],
                            sessions := table.sessions[id := session],
                            live := table.live[session := id]))
  {
  }

  lemma RegisterKeepsInv<T>(table: Table<T>, session: SessionId, socket: nat, id: nat)
    requires TableInv(table) && Possible(table, Register(session, socket, id))
    ensures TableInv(Step(table, Register(session, socket, id)))
  {
    EndKeepsInv(table, session);
    AdditionKeepsInv(EndSession(table, session), session, socket, id);
  }

  lemma EmitKeepsInv<T>(table: Table<T>, id: nat, chunk: seq<T>)
    requires TableInv(table) && Possible(table, Emit(id, chunk))
    ensures TableInv(Step(table, Emit(id, chunk)))
  {
  }

  /** A dead terminal's exit changes nothing but itself, unless it is superseded. */
  lemma DeadExitKeepsInv<T>(table: Table<T>, id: nat)
    requires TableInv(table) && Possible(table, Exit(id)) && !Superseded(table, id) && !IsLive(table, id)
    ensures TableInv(Step(table, Exit(id)))
  {
    var t := table.terminals[id];
    DeadChangeKeepsInv(table, id, Exits(t).terminal);
    var session := table.sessions[id];
    if t.socket.Some? {
      assert session !in table.live;
      assert table.live - {session} == table.live;
    }
    assert Exits(t).terminal.timer == t.timer;
    assert Apply(table, id, session, Exits(t)) == table.(terminals := table.terminals[id := Exits(t).terminal]);
  }

  lemma DeadChangeKeepsInv<T>(table: Table<T>, id: nat, t: Terminal<T>)
    requires TableInv(table) && id in table.terminals && !IsLive(table, id)
    requires Over(t) && (t.socket.Some? ==> t.timer.None?)
    ensures TableInv(table.(terminals := table.terminals[id := t]))
  {
  }

  lemma ExitKeepsInv<T>(table: Table<T>, id: nat)
    requires TableInv(table) && Possible(table, Exit(id)) && !Superseded(table, id)
    ensures TableInv(Step(table, Exit(id)))
  {
    if !IsLive(table, id) {
      DeadExitKeepsInv(table, id);
    } else if table.terminals[id].socket.Some? {
      RemovalKeepsInv(table, id, Exits(table.terminals[id]));
    } else {
      StayingKeepsInv(table, id, Exits(table.terminals[id]));
    }
  }

  lemma AttachKeepsInv<T>(table: Table<T>, session: SessionId, socket: nat)
    requires TableInv(table)
    ensures Possible(table, Attach(session, socket)) && TableInv(Step(table, Attach(session, socket)))
  {
    if session in table.live {
      var id := table.live[session];
      var outcome := Attaches(table.terminals[id], socket);
      if outcome.kept {
        StayingKeepsInv(table, id, outcome);
      } else {
        RemovalKeepsInv(table, id, outcome);
      }
    }
  }

  lemma DetachKeepsEntries<T>(table: Table<T>, session: SessionId, socket: nat)
    requires TableInv(table) && Possible(table, Detach(session, socket))
    ensures EntriesOk(Step(table, Detach(session, socket)))
  {
  }

  lemma DetachKeepsTimers<T>(table: Table<T>, session: SessionId, socket: nat)
    requires TableInv(table) && Possible(table, Detach(session, socket))
    ensures TimersOk(Step(table, Detach(session, socket)))
  {
  }

  lemma DetachKeepsDead<T>(table: Table<T>, session: SessionId, socket: nat)
    requires TableInv(table) && Possible(table, Detach(session, socket))
    ensures DeadDisposed(Step(table, Detach(session, socket)))
  {
  }

  lemma DetachKeepsInv<T>(table: Table<T>, session: SessionId, socket: nat)
    requires TableInv(table)
    ensures Possible(table, Detach(session, socket)) && TableInv(Step(table, Detach(session, socket)))
  {
    DetachKeepsEntries(table, session, socket);
    DetachKeepsTimers(table, session, socket);
    DetachKeepsDead(table, session, socket);
  }

  lemma FireKeepsEntries<T>(table: Table<T>, timer: nat)
    requires TableInv(table) && Possible(table, Fire(timer))
    ensures EntriesOk(Step(table, Fire(timer)))
  {
  }

  lemma FireKeepsTimers<T>(table: Table<T>, timer: nat)
    requires TableInv(table) && Possible(table, Fire(timer))
    ensures TimersOk(Step(table, Fire(timer)))
  {
  }

  lemma FireKeepsDead<T>(table: Table<T>, timer: nat)
    requires TableInv(table) && Possible(table, Fire(timer))
    ensures DeadDisposed(Step(table, Fire(timer)))
  {
  }

  lemma FireKeepsInv<T>(table: Table<T>, timer: nat)
    requires TableInv(table) && Possible(table, Fire(timer))
    ensures TableInv(Step(table, Fire(timer)))
  {
    FireKeepsEntries(table, timer);
    FireKeepsTimers(table, timer);
    FireKeepsDead(table, timer);
  }

  /** Every event keeps the table as promised, except the exit of a terminal
      that a second registration of its session superseded. */
  lemma StepKeepsInv<T>(table: Table<T>, e: Event<T>)
    requires TableInv(table) && Possible(table, e) && Tidy(table, e)
    ensures TableInv(Step(table, e))
  {
    match e {
      case Register(session, socket, id) => RegisterKeepsInv(table, session, socket, id);
      case Emit(id, chunk) => EmitKeepsInv(table, id, chunk);
      case Exit(id) => ExitKeepsInv(table, id);
      case Attach(session, socket) => AttachKeepsInv(table, session, socket);
      case Detach(session, socket) => DetachKeepsInv(table, session, socket);
      case End(session) => EndKeepsInv(table, session);
      case Fire(timer) => FireKeepsInv(table, timer);
    }
  }

  /** Exactly then: a superseded exit drops its successor's entry undisposed. */
  lemma ExitKeepsInvIff<T>(table: Table<T>, id: nat)
    requires TableInv(table) && Possible(table, Exit(id))
    ensures TableInv(Step(table, Exit(id))) <==> !Superseded(table, id)
  {
    if Superseded(table, id) {
      var successor := table.live[table.sessions[id]];
      var after := Step(table, Exit(id));
      assert after.terminals[successor] == table.terminals[successor];
      assert after.terminals[successor].disposed == 0;
      assert !IsLive(after, successor);
    } else {
      ExitKeepsInv(table, id);
    }
  }

  /** It happens: two registrations of one session, and then the first shell exits.
      The second terminal is left running, without an entry. */
  lemma SupersededHappens<T>(session: SessionId)
    ensures var once := Step(Empty<T>(), Register(session, 0, 0));
            Possible(once, Register(session, 1, 1)) &&
            var twice := Step(once, Register(session, 1, 1));
            Runs(Empty<T>(), [Register(session, 0, 0), Register(session, 1, 1)], twice) &&
            Possible(twice, Exit(0)) && Superseded(twice, 0) &&
            var after := Step(twice, Exit(0));
            after.live == map[] && after.terminals[1] == Registered(1) && after.terminals[1].disposed == 0
  {
    var once := Step(Empty<T>(), Register(session, 0, 0));
    var first: Event<T>, second: Event<T> := Register(session, 0, 0), Register(session, 1, 1);
    assert [first, second][1..] == [second];
    assert Possible(once, second);
    var twice := Step(once, second);
    assert twice.live == map[session := 1];
    assert Runs(twice, [], twice);
    assert [second][1..] == [];
  }

  ghost predicate Runs<T>(table: Table<T>, events: seq<Event<T>>, last: Table<T>)
    decreases |events|
  {
    if events == [] then last == table
    else Possible(table, events[0]) && Tidy(table, events[0]) && Runs(Step(table, events[0]), events[1..], last)
  }

  /** The invariant over every run without a superseded exit. */
  lemma {:induction false} RunKeepsInv<T>(table: Table<T>, events: seq<Event<T>>, last: Table<T>)
    requires TableInv(table) && Runs(table, events, last)
    ensures TableInv(last)
    decreases |events|
  {
    if events != [] {
      StepKeepsInv(table, events[0]);
      RunKeepsInv(Step(table, events[0]), events[1..], last);
    }
  }

  /** Register a session id once and no exit is ever superseded. */
  ghost predicate RegisteredOnce<T>(table: Table<T>) {
    forall a <- table.sessions, b <- table.sessions :: table.sessions[a] == table.sessions[b] ==> a == b
  }

  lemma RegisteredOnceIsTidy<T>(table: Table<T>, e: Event<T>)
    requires TableInv(table) && RegisteredOnce(table) && Possible(table, e)
    ensures Tidy(table, e)
    ensures RegisteredOnce(Step(table, e)) <==> (e.Register? ==> e.session !in table.sessions.Values)
  {
    if e.Register? && e.session in table.sessions.Values {
      var a :| a in table.sessions && table.sessions[a] == e.session;
      assert Step(table, e).sessions[a] == Step(table, e).sessions[e.id];
    }
  }

  /** The late close of a socket that was replaced changes nothing. */
  lemma LateCloseChangesNothing<T>(table: Table<T>, session: SessionId, replaced: nat)
    requires TableInv(table)
    requires session in table.live ==> table.terminals[table.live[session]].socket != Some(replaced)
    ensures Step(table, Detach(session, replaced)) == table
  {
    if session in table.live {
      var id := table.live[session];
      assert table.terminals[id := table.terminals[id]] == table.terminals;
    }
  }

  /** A terminal with a socket has not exited, so `detachSocket` never takes its
      branch for one that has; every detach starts the one countdown. */
  lemma DetachStartsCountdown<T>(table: Table<T>, session: SessionId, socket: nat)
    requires TableInv(table) && session in table.live
    requires table.terminals[table.live[session]].socket == Some(socket)
    ensures !table.terminals[table.live[session]].exited
    ensures var after := Step(table, Detach(session, socket));
      session in after.live && after.live[session] == table.live[session] && Waiting(after, after.live[session]) &&
      after.pending == table.pending[table.nextTimer := table.live[session]]
  {
  }
}
