/** One enrolled machine on the gateway (apps/gateway/src/agents/registry.ts):
    its channel ids, the calls waiting for an answer and its file streams. */
module Registry {
  import opened Common

  const MAX_CHANNEL_ID: nat := 0xffff_ffff
  const MAX_PROBES: nat := 0xffff

  /* ------------------------------ the id allocator ------------------------------ */

  /** The `i`-th id probed from `start`, wrapping to 1 and never 0. */
  function Candidate(start: nat, i: nat): nat {
    if start + i <= MAX_CHANNEL_ID then start + i else start + i - MAX_CHANNEL_ID
  }

  function NextId(id: nat): nat {
    if id >= MAX_CHANNEL_ID then 1 else id + 1
  }

  /** The first free id within `attempts` probes, and where the next search starts. */
  function Allocate(start: nat, taken: set<nat>, attempts: nat): (Option<nat>, nat)
    decreases attempts
  {
    if attempts == 0 then (None, start)
    else if start !in taken then (Some(start), NextId(start))
    else Allocate(NextId(start), taken, attempts - 1)
  }

  /** An allocated id is free and in the protocol's range; the search fails
      exactly when every id it may probe is taken. */
  lemma {:induction false} AllocateFinds(start: nat, taken: set<nat>, attempts: nat)
    requires 1 <= start <= MAX_CHANNEL_ID && attempts <= MAX_PROBES
    ensures var (found, next) := Allocate(start, taken, attempts);
            1 <= next <= MAX_CHANNEL_ID &&
            (found.Some? ==> 1 <= found.value <= MAX_CHANNEL_ID && found.value !in taken) &&
            (found.None? <==> forall i :: 0 <= i < attempts ==> Candidate(start, i) in taken)
    decreases attempts
  {
    if attempts != 0 {
      assert Candidate(start, 0) == start;
      if start in taken {
        AllocateFinds(NextId(start), taken, attempts - 1);
        assert forall i: nat :: i + 1 < attempts ==> Candidate(start, i + 1) == Candidate(NextId(start), i);
        forall i: nat | 0 < i < attempts
          ensures Candidate(start, i) == Candidate(NextId(start), i - 1)
        {
        }
      }
    }
  }

  /** The id found is the first free one from the start on, and the next search begins
      right after it. */
  lemma {:induction false} AllocateTakesFirst(start: nat, taken: set<nat>, attempts: nat) returns (i: nat)
    requires 1 <= start <= MAX_CHANNEL_ID && attempts <= MAX_PROBES
    ensures var (found, next) := Allocate(start, taken, attempts);
            i <= attempts && (forall k: nat :: k < i ==> Candidate(start, k) in taken) &&
            (found.None? <==> i == attempts) && (found.Some? ==> found.value == Candidate(start, i)) &&
            next == Candidate(start, if found.Some? then i + 1 else i)
    decreases attempts
  {
    assert Candidate(start, 0) == start && Candidate(start, 1) == NextId(start);
    if attempts == 0 || start !in taken {
      i := 0;
    } else {
      var rest := AllocateTakesFirst(NextId(start), taken, attempts - 1);
      i := rest + 1;
      forall k: nat | k <= i ensures Candidate(start, k + 1) == Candidate(NextId(start), k) {
      }
      forall k: nat | k < i ensures Candidate(start, k) in taken {
        if k > 0 { assert Candidate(start, k - 1 + 1) == Candidate(NextId(start), k - 1); }
      }
    }
  }

  /** So an id is never issued twice in a row, whatever was freed in between. */
  lemma NotTwiceInARow(start: nat, taken: set<nat>, later: set<nat>)
    requires 1 <= start <= MAX_CHANNEL_ID
    ensures var (first, next) := Allocate(start, taken, MAX_PROBES);
            first.Some? ==> Allocate(next, later, MAX_PROBES).0 != first
  {
    var i := AllocateTakesFirst(start, taken, MAX_PROBES);
    AllocateFinds(start, taken, MAX_PROBES);
    var k := AllocateTakesFirst(Allocate(start, taken, MAX_PROBES).1, later, MAX_PROBES);
  }

  function Probed(start: nat, n: nat): set<nat> {
    set i | 0 <= i < n :: Candidate(start, i)
  }

  /** A run of probes never meets the same id twice. */
  lemma {:induction false} ProbesAreDistinct(start: nat, n: nat)
    requires 1 <= start <= MAX_CHANNEL_ID && n <= MAX_PROBES
    ensures |Probed(start, n)| == n
  {
    if n == 0 {
      assert Probed(start, 0) == {};
    } else {
      ProbesAreDistinct(start, n - 1);
      assert Probed(start, n) == Probed(start, n - 1) + {Candidate(start, n - 1)};
      assert Candidate(start, n - 1) !in Probed(start, n - 1);
    }
  }

  /** With fewer live ids than probes the search never fails. */
  lemma AllocationSucceeds(start: nat, taken: set<nat>)
    requires 1 <= start <= MAX_CHANNEL_ID && |taken| < MAX_PROBES
    ensures Allocate(start, taken, MAX_PROBES).0.Some?
  {
    AllocateFinds(start, taken, MAX_PROBES);
    if Allocate(start, taken, MAX_PROBES).0.None? {
      assert Probed(start, MAX_PROBES) <= taken;
      ProbesAreDistinct(start, MAX_PROBES);
      SubsetIsNoLarger(Probed(start, MAX_PROBES), taken);
      assert false;
    }
  }

  /* ----------------------------------- the ledger ------------------------------- */

  /** Something a caller waits on: the opening of a terminal, the answer to a
      request, or the end of a file stream. */
  datatype Call = OpenCall(serial: nat) | RpcCall(serial: nat) | StreamSink(serial: nat)

  /** Every call made, how often each was settled, and which were failed. */
  datatype Ledger = Ledger(issued: set<Call>, settled: multiset<Call>, rejected: set<Call>)

  function Issue(l: Ledger, c: Call): Ledger {
    l.(issued := l.issued + {c})
  }

  function Settle(l: Ledger, c: Call, ok: bool): Ledger {
    Ledger(l.issued, l.settled + multiset{c}, if ok then l.rejected else l.rejected + {c})
  }

  function FailAll(l: Ledger, calls: set<Call>): Ledger {
    Ledger(l.issued, l.settled + multiset(calls), l.rejected + calls)
  }

  /** Each call issued is either still waited on or was settled, once. */
  ghost predicate SettledOnce(l: Ledger, outstanding: set<Call>) {
    outstanding <= l.issued &&
    forall c: Call :: l.settled[c] == if c in l.issued && c !in outstanding then 1 else 0
  }

  lemma IssueKeepsOnce(l: Ledger, outstanding: set<Call>, c: Call)
    requires SettledOnce(l, outstanding) && c !in l.issued
    ensures SettledOnce(Issue(l, c), outstanding + {c})
  {
  }

  lemma SettleKeepsOnce(l: Ledger, outstanding: set<Call>, c: Call, ok: bool)
    requires SettledOnce(l, outstanding) && c in outstanding
    ensures SettledOnce(Settle(l, c, ok), outstanding - {c})
  {
  }

  lemma FailAllKeepsOnce(l: Ledger, outstanding: set<Call>)
    requires SettledOnce(l, outstanding)
    ensures SettledOnce(FailAll(l, outstanding), {})
  {
  }

  /** issued = settled + outstanding. */
  lemma NothingIsForgotten(l: Ledger, outstanding: set<Call>)
    requires SettledOnce(l, outstanding)
    ensures multiset(l.issued) == l.settled + multiset(outstanding)
    ensures |l.issued| == |l.settled| + |outstanding|
  {
    assert forall c: Call :: multiset(l.issued)[c] == (l.settled + multiset(outstanding))[c];
    assert |multiset(l.issued)| == |l.issued|;
  }

  /* ---------------------------------- the tables -------------------------------- */

  /** `timers` are the timeouts set and neither cleared nor fired; the values of
      `pending`, `rpcs` and `streams` are the waiting callers. */
  datatype Device = Device(
    socket: Option<nat>,
    hello: bool,
    channels: set<nat>,
    pending: map<nat, Call>,
    rpcs: map<nat, Call>,
    streams: map<nat, Call>,
    timers: set<Call>,
    nextChannelId: nat,
    nextRpcId: nat,
    nextSerial: nat,
    grace: bool,
    ledger: Ledger)

  const NEW_DEVICE := Device(None, false, {}, map[], map[], map[], {}, 1, 1, 0, false, Ledger({}, multiset{}, {}))

  datatype Event =
    | Attach(socket: nat)
    | Detach(socket: nat)
    | Hello
    | Opened(channelId: nat)
    | ChannelError(channelId: nat)
    | ChannelExit(channelId: nat)
    | RpcAnswer(id: nat, ok: bool)
    | StreamEnds(channelId: nat, ok: bool)
    | CallRpc
    | OpenShell(shellKnown: bool)
    | OpenStream
    | ReleaseStream(channelId: nat)
    | OpenTimesOut(channelId: nat)
    | RpcTimesOut(id: nat)
    | ForgetChannel(channelId: nat)
    | GraceEnds
    | Kill

  function Outstanding(d: Device): set<Call> {
    d.pending.Values + d.rpcs.Values + d.streams.Values
  }

  function Taken(d: Device): set<nat> {
    d.channels + d.pending.Keys + d.streams.Keys
  }

  predicate Online(d: Device) {
    d.socket.Some? && d.hello
  }

  /** A timeout fires only while its timer is set. */
  predicate Possible(d: Device, e: Event) {
    match e
    case OpenTimesOut(channelId) => channelId in d.pending && d.pending[channelId] in d.timers
    case RpcTimesOut(id) => id in d.rpcs && d.rpcs[id] in d.timers
    case GraceEnds => d.grace
    case _ => true
  }

  /** Ends the wait of the open on `channelId`; a failed one also forgets its channel. */
  function SettleOpen(d: Device, channelId: nat, ok: bool): Device {
    if channelId !in d.pending then d
    else
      var call := d.pending[channelId];
      d.(pending := d.pending - {channelId}, timers := d.timers - {call}, ledger := Settle(d.ledger, call, ok),
         channels := if ok then d.channels else d.channels - {channelId})
  }

  function SettleRpc(d: Device, id: nat, ok: bool): Device {
    if id !in d.rpcs then d
    else
      var call := d.rpcs[id];
      d.(rpcs := d.rpcs - {id}, timers := d.timers - {call}, ledger := Settle(d.ledger, call, ok))
  }

  function SettleStream(d: Device, channelId: nat, ok: bool): Device {
    if channelId !in d.streams then d
    else d.(streams := d.streams - {channelId}, ledger := Settle(d.ledger, d.streams[channelId], ok))
  }

  function IssueRpc(d: Device): Device {
    if !Online(d) then d
    else
      var call := RpcCall(d.nextSerial);
      d.(nextRpcId := d.nextRpcId + 1, nextSerial := d.nextSerial + 1, rpcs := d.rpcs[d.nextRpcId := call],
         timers := d.timers + {call}, ledger := Issue(d.ledger, call))
  }

  function Awaiting(d: Device, id: nat): Device {
    var call := OpenCall(d.nextSerial);
    d.(nextSerial := d.nextSerial + 1, channels := d.channels + {id}, pending := d.pending[id := call],
       timers := d.timers + {call}, ledger := Issue(d.ledger, call))
  }

  /** Registers the channel before the agent is asked, so that early output finds it. */
  function IssueOpen(d: Device, shellKnown: bool): Device {
    if !Online(d) || !shellKnown then d
    else
      var (found, next) := Allocate(d.nextChannelId, Taken(d), MAX_PROBES);
      var searched := d.(nextChannelId := next);
      if found.None? then searched else Awaiting(searched, found.value)
  }

  function IssueStream(d: Device): Device {
    var (found, next) := Allocate(d.nextChannelId, Taken(d), MAX_PROBES);
    if found.None? then d.(nextChannelId := next)
    else
      var call := StreamSink(d.nextSerial);
      d.(nextChannelId := next, nextSerial := d.nextSerial + 1, streams := d.streams[found.value := call],
         ledger := Issue(d.ledger, call))
  }

  /** The current socket closed: everything that waits on it fails now. Terminals
      stay for the grace period, except those still opening; whether there is a
      grace period at all is decided before the latter are forgotten. */
  function Detached(d: Device): Device {
    d.(socket := None, hello := false, pending := map[], rpcs := map[], streams := map[],
       timers := d.timers - d.pending.Values - d.rpcs.Values, channels := d.channels - d.pending.Keys,
       grace := d.grace || d.channels != {}, ledger := FailAll(d.ledger, Outstanding(d)))
  }

  function Step(d: Device, e: Event): Device
    requires Possible(d, e)
  {
    match e
    case Attach(socket) => d.(socket := Some(socket), grace := false)
    case Detach(socket) => if d.socket == Some(socket) then Detached(d) else d
    case Hello => d.(hello := true)
    case Opened(channelId) => SettleOpen(d, channelId, true)
    case ChannelError(channelId) =>
      var settled := SettleOpen(d, channelId, false);
      settled.(channels := settled.channels - {channelId})
    case ChannelExit(channelId) => d.(channels := d.channels - {channelId})
    case RpcAnswer(id, ok) => SettleRpc(d, id, ok)
    case StreamEnds(channelId, ok) => SettleStream(d, channelId, ok)
    case CallRpc => IssueRpc(d)
    case OpenShell(shellKnown) => IssueOpen(d, shellKnown)
    case OpenStream => IssueStream(d)
    case ReleaseStream(channelId) => SettleStream(d, channelId, true)
    case OpenTimesOut(channelId) => SettleOpen(d, channelId, false)
    case RpcTimesOut(id) => SettleRpc(d, id, false)
    case ForgetChannel(channelId) => d.(channels := d.channels - {channelId})
    case GraceEnds => d.(channels := {}, grace := false)
    case Kill => d.(channels := {})
  }

  /* --------------------------------- the invariant ------------------------------ */

  ghost predicate InRange(ids: set<nat>) {
    forall id <- ids :: 1 <= id <= MAX_CHANNEL_ID
  }

  /** Terminals and streams share one id space without sharing an id. */
  ghost predicate IdsOk(d: Device) {
    1 <= d.nextChannelId <= MAX_CHANNEL_ID &&
    InRange(d.channels) && InRange(d.pending.Keys) && InRange(d.streams.Keys) &&
    d.channels !! d.streams.Keys && d.pending.Keys !! d.streams.Keys
  }

  ghost predicate Injective(table: map<nat, Call>) {
    forall a, b :: a in table && b in table && table[a] == table[b] ==> a == b
  }

  /** Each caller waits in one table under one key. */
  ghost predicate CallersOk(d: Device) {
    Injective(d.pending) && Injective(d.rpcs) && Injective(d.streams) &&
    (forall c <- d.pending.Values :: c.OpenCall?) &&
    (forall c <- d.rpcs.Values :: c.RpcCall?) &&
    (forall c <- d.streams.Values :: c.StreamSink?)
  }

  ghost predicate KeysAreOld(d: Device) {
    (forall c <- d.ledger.issued :: c.serial < d.nextSerial) &&
    (forall id <- d.rpcs :: id < d.nextRpcId)
  }

  /** A timeout is pending exactly for the opens and requests still waited on. */
  ghost predicate TimersOk(d: Device) {
    d.timers == d.pending.Values + d.rpcs.Values
  }

  ghost predicate Inv(d: Device) {
    IdsOk(d) && CallersOk(d) && KeysAreOld(d) && TimersOk(d) && SettledOnce(d.ledger, Outstanding(d)) &&
    (d.socket.Some? ==> !d.grace)
  }

  lemma Without(table: map<nat, Call>, key: nat)
    requires Injective(table) && key in table
    ensures Injective(table - {key})
    ensures (table - {key}).Values == table.Values - {table[key]}
  {
    var less := table - {key};
    forall c <- table.Values - {table[key]} ensures c in less.Values {
      var k :| k in table && table[k] == c;
      assert less[k] == c;
    }
  }

  lemma With(table: map<nat, Call>, key: nat, call: Call)
    requires Injective(table) && key !in table && call !in table.Values
    ensures Injective(table[key := call])
    ensures table[key := call].Values == table.Values + {call}
  {
    var more := table[key := call];
    forall c <- table.Values + {call} ensures c in more.Values {
      if c == call {
        assert more[key] == c;
      } else {
        var k :| k in table && table[k] == c;
        assert more[k] == c;
      }
    }
  }

  lemma SettleOpenKeepsInv(d: Device, channelId: nat, ok: bool)
    requires Inv(d)
    ensures Inv(SettleOpen(d, channelId, ok))
  {
    if channelId in d.pending {
      var call := d.pending[channelId];
      Without(d.pending, channelId);
      SettleKeepsOnce(d.ledger, Outstanding(d), call, ok);
      assert Outstanding(SettleOpen(d, channelId, ok)) == Outstanding(d) - {call};
    }
  }

  lemma SettleRpcKeepsInv(d: Device, id: nat, ok: bool)
    requires Inv(d)
    ensures Inv(SettleRpc(d, id, ok))
  {
    if id in d.rpcs {
      var call := d.rpcs[id];
      Without(d.rpcs, id);
      SettleKeepsOnce(d.ledger, Outstanding(d), call, ok);
      assert Outstanding(SettleRpc(d, id, ok)) == Outstanding(d) - {call};
    }
  }

  lemma SettleStreamKeepsInv(d: Device, channelId: nat, ok: bool)
    requires Inv(d)
    ensures Inv(SettleStream(d, channelId, ok))
  {
    if channelId in d.streams {
      var call := d.streams[channelId];
      Without(d.streams, channelId);
      SettleKeepsOnce(d.ledger, Outstanding(d), call, ok);
      assert Outstanding(SettleStream(d, channelId, ok)) == Outstanding(d) - {call};
    }
  }

  lemma IssueRpcKeepsInv(d: Device)
    requires Inv(d)
    ensures Inv(IssueRpc(d))
  {
    if Online(d) {
      var call := RpcCall(d.nextSerial);
      With(d.rpcs, d.nextRpcId, call);
      IssueKeepsOnce(d.ledger, Outstanding(d), call);
      assert Outstanding(IssueRpc(d)) == Outstanding(d) + {call};
    }
  }

  lemma IssueOpenKeepsInv(d: Device, shellKnown: bool)
    requires Inv(d)
    ensures Inv(IssueOpen(d, shellKnown))
  {
    AllocateFinds(d.nextChannelId, Taken(d), MAX_PROBES);
    var found := Allocate(d.nextChannelId, Taken(d), MAX_PROBES).0;
    if Online(d) && shellKnown && found.Some? {
      var call := OpenCall(d.nextSerial);
      With(d.pending, found.value, call);
      IssueKeepsOnce(d.ledger, Outstanding(d), call);
      assert Outstanding(IssueOpen(d, shellKnown)) == Outstanding(d) + {call};
    }
  }

  lemma IssueStreamKeepsInv(d: Device)
    requires Inv(d)
    ensures Inv(IssueStream(d))
  {
    AllocateFinds(d.nextChannelId, Taken(d), MAX_PROBES);
    var found := Allocate(d.nextChannelId, Taken(d), MAX_PROBES).0;
    if found.Some? {
      var call := StreamSink(d.nextSerial);
      With(d.streams, found.value, call);
      IssueKeepsOnce(d.ledger, Outstanding(d), call);
      assert Outstanding(IssueStream(d)) == Outstanding(d) + {call};
    }
  }

  lemma DetachedKeepsInv(d: Device)
    requires Inv(d)
    ensures Inv(Detached(d))
  {
    FailAllKeepsOnce(d.ledger, Outstanding(d));
    assert Outstanding(Detached(d)) == {};
  }

  /** Events that settle and issue nothing, and at most take terminals away. */
  predicate Quiet(e: Event) {
    e.Attach? || e.Hello? || e.ChannelExit? || e.ForgetChannel? || e.GraceEnds? || e.Kill?
  }

  lemma QuietEventKeepsInv(d: Device, e: Event)
    requires Inv(d) && Possible(d, e) && Quiet(e)
    ensures Inv(Step(d, e))
  {
    assert Outstanding(Step(d, e)) == Outstanding(d);
  }

  lemma StepKeepsInv(d: Device, e: Event)
    requires Inv(d) && Possible(d, e)
    ensures Inv(Step(d, e))
  {
    match e {
      case Detach(socket) => DetachedKeepsInv(d);
      case Opened(channelId) => SettleOpenKeepsInv(d, channelId, true);
      case ChannelError(channelId) => SettleOpenKeepsInv(d, channelId, false);
      case RpcAnswer(id, ok) => SettleRpcKeepsInv(d, id, ok);
      case StreamEnds(channelId, ok) => SettleStreamKeepsInv(d, channelId, ok);
      case CallRpc => IssueRpcKeepsInv(d);
      case OpenShell(shellKnown) => IssueOpenKeepsInv(d, shellKnown);
      case OpenStream => IssueStreamKeepsInv(d);
      case ReleaseStream(channelId) => SettleStreamKeepsInv(d, channelId, true);
      case OpenTimesOut(channelId) => SettleOpenKeepsInv(d, channelId, false);
      case RpcTimesOut(id) => SettleRpcKeepsInv(d, id, false);
      case _ => QuietEventKeepsInv(d, e);
    }
  }

  ghost predicate Runs(d: Device, events: seq<Event>, end: Device)
    decreases |events|
  {
    if events == [] then end == d
    else Possible(d, events[0]) && Runs(Step(d, events[0]), events[1..], end)
  }

  /** Settle-once over whole runs: of every call issued, each is settled once or
      still waited on, and a timeout is set for exactly the opens and requests. */
  lemma {:induction false} EveryRunSettlesOnce(d: Device, events: seq<Event>, end: Device)
    requires Inv(d) && Runs(d, events, end)
    ensures Inv(end)
    ensures multiset(end.ledger.issued) == end.ledger.settled + multiset(Outstanding(end))
    ensures |end.ledger.issued| == |end.ledger.settled| + |end.pending.Values + end.rpcs.Values + end.streams.Values|
    decreases |events|
  {
    if events == [] {
      NothingIsForgotten(end.ledger, Outstanding(end));
    } else {
      StepKeepsInv(d, events[0]);
      EveryRunSettlesOnce(Step(d, events[0]), events[1..], end);
    }
  }

  /* ---------------------------- how a call is settled --------------------------- */

  function Waiter(table: map<nat, Call>, key: nat): multiset<Call> {
    if key in table then multiset{table[key]} else multiset{}
  }

  /** The callers told of a failure: by an error of their channel, request or stream,
      by their timeout, or by the loss of the current socket. */
  function FailedBy(d: Device, e: Event): multiset<Call> {
    match e
    case ChannelError(channelId) => Waiter(d.pending, channelId)
    case OpenTimesOut(channelId) => Waiter(d.pending, channelId)
    case RpcAnswer(id, ok) => if ok then multiset{} else Waiter(d.rpcs, id)
    case RpcTimesOut(id) => Waiter(d.rpcs, id)
    case StreamEnds(channelId, ok) => if ok then multiset{} else Waiter(d.streams, channelId)
    case Detach(socket) => if d.socket == Some(socket) then multiset(Outstanding(d)) else multiset{}
    case _ => multiset{}
  }

  /** The callers given what they asked for. */
  function ServedBy(d: Device, e: Event): multiset<Call> {
    match e
    case Opened(channelId) => Waiter(d.pending, channelId)
    case RpcAnswer(id, ok) => if ok then Waiter(d.rpcs, id) else multiset{}
    case StreamEnds(channelId, ok) => if ok then Waiter(d.streams, channelId) else multiset{}
    case ReleaseStream(channelId) => Waiter(d.streams, channelId)
    case _ => multiset{}
  }

  /** Between two ledgers these callers were failed, and these served. */
  ghost predicate Told(before: Ledger, after: Ledger, failed: multiset<Call>, served: multiset<Call>) {
    after.settled == before.settled + failed + served &&
    forall c :: c in after.rejected <==> c in before.rejected || c in failed
  }

  lemma SettleOpenTells(d: Device, channelId: nat, ok: bool)
    ensures var waiter, none := Waiter(d.pending, channelId), multiset{};
            Told(d.ledger, SettleOpen(d, channelId, ok).ledger, if ok then none else waiter, if ok then waiter else none)
  {
  }

  lemma SettleRpcTells(d: Device, id: nat, ok: bool)
    ensures var waiter, none := Waiter(d.rpcs, id), multiset{};
            Told(d.ledger, SettleRpc(d, id, ok).ledger, if ok then none else waiter, if ok then waiter else none)
  {
  }

  lemma SettleStreamTells(d: Device, channelId: nat, ok: bool)
    ensures var waiter, none := Waiter(d.streams, channelId), multiset{};
            Told(d.ledger, SettleStream(d, channelId, ok).ledger, if ok then none else waiter, if ok then waiter else none)
  {
  }

  lemma DetachedTells(d: Device)
    ensures Told(d.ledger, Detached(d).ledger, multiset(Outstanding(d)), multiset{})
  {
  }

  lemma OpeningTells(d: Device, shellKnown: bool)
    ensures Told(d.ledger, IssueOpen(d, shellKnown).ledger, multiset{}, multiset{})
  {
  }

  lemma CallingTells(d: Device)
    ensures Told(d.ledger, IssueRpc(d).ledger, multiset{}, multiset{})
    ensures Told(d.ledger, IssueStream(d).ledger, multiset{}, multiset{})
  {
  }

  /** Each event tells exactly the callers it should, and tells them the right thing. */
  lemma StepTells(d: Device, e: Event)
    requires Possible(d, e)
    ensures Told(d.ledger, Step(d, e).ledger, FailedBy(d, e), ServedBy(d, e))
  {
    match e {
      case Detach(_) => DetachedTells(d);
      case Opened(channelId) => SettleOpenTells(d, channelId, true);
      case ChannelError(channelId) => SettleOpenTells(d, channelId, false);
      case OpenTimesOut(channelId) => SettleOpenTells(d, channelId, false);
      case RpcAnswer(id, ok) => SettleRpcTells(d, id, ok);
      case RpcTimesOut(id) => SettleRpcTells(d, id, false);
      case StreamEnds(channelId, ok) => SettleStreamTells(d, channelId, ok);
      case ReleaseStream(channelId) => SettleStreamTells(d, channelId, true);
      case CallRpc => CallingTells(d);
      case OpenShell(shellKnown) => OpeningTells(d, shellKnown);
      case OpenStream => CallingTells(d);
      case _ =>
    }
  }

  /** All callers failed, and all served, in the course of a run. */
  ghost function FailedIn(d: Device, events: seq<Event>): multiset<Call>
    decreases |events|
  {
    if events == [] || !Possible(d, events[0]) then multiset{}
    else FailedBy(d, events[0]) + FailedIn(Step(d, events[0]), events[1..])
  }

  ghost function ServedIn(d: Device, events: seq<Event>): multiset<Call>
    decreases |events|
  {
    if events == [] || !Possible(d, events[0]) then multiset{}
    else ServedBy(d, events[0]) + ServedIn(Step(d, events[0]), events[1..])
  }

  lemma {:induction false} RunTells(d: Device, events: seq<Event>, end: Device)
    requires Runs(d, events, end)
    ensures Told(d.ledger, end.ledger, FailedIn(d, events), ServedIn(d, events))
    decreases |events|
  {
    if events != [] {
      StepTells(d, events[0]);
      RunTells(Step(d, events[0]), events[1..], end);
    }
  }

  /** A caller is rejected exactly when an error, a failing answer, a timeout or the
      loss of the socket ended its wait; it is served exactly when what it asked for
      came; never both, never twice; and until then it waits. */
  lemma CallersAreToldRight(events: seq<Event>, end: Device, c: Call)
    requires Runs(NEW_DEVICE, events, end)
    ensures c in end.ledger.rejected <==> c in FailedIn(NEW_DEVICE, events)
    ensures FailedIn(NEW_DEVICE, events)[c] + ServedIn(NEW_DEVICE, events)[c] ==
            if c in end.ledger.issued && c !in Outstanding(end) then 1 else 0
  {
    NewDeviceInv();
    EveryRunSettlesOnce(NEW_DEVICE, events, end);
    RunTells(NEW_DEVICE, events, end);
  }

  /** The id the next stream or terminal gets. */
  function IdFor(d: Device): Option<nat> {
    Allocate(d.nextChannelId, Taken(d), MAX_PROBES).0
  }

  /** A request waits under the id its caller is given, and the answer to that id,
      good or bad, is told to it and to nobody else. */
  lemma AnswerReachesItsCaller(d: Device, ok: bool)
    requires Inv(d) && Online(d)
    ensures var call, after, answer := RpcCall(d.nextSerial), Step(d, CallRpc), RpcAnswer(d.nextRpcId, ok);
            call !in d.ledger.issued && Outstanding(after) == Outstanding(d) + {call} &&
            (if ok then ServedBy(after, answer) else FailedBy(after, answer)) == multiset{call}
  {
    With(d.rpcs, d.nextRpcId, RpcCall(d.nextSerial));
  }

  /** So does an opening, and early output of its terminal is routed to it. */
  lemma OpeningReachesItsCaller(d: Device, ok: bool)
    requires Inv(d) && Online(d) && IdFor(d).Some?
    ensures var call, after, id := OpenCall(d.nextSerial), Step(d, OpenShell(true)), IdFor(d).value;
            call !in d.ledger.issued && Outstanding(after) == Outstanding(d) + {call} && id !in Taken(d) &&
            Route(after, id).Terminal? &&
            (if ok then ServedBy(after, Opened(id)) else FailedBy(after, ChannelError(id))) == multiset{call}
  {
    AllocateFinds(d.nextChannelId, Taken(d), MAX_PROBES);
    With(d.pending, IdFor(d).value, OpenCall(d.nextSerial));
  }

  /** And a file stream: its frames go to its own sink. */
  lemma FramesReachTheirSink(d: Device, ok: bool)
    requires Inv(d) && IdFor(d).Some?
    ensures var call, after, id := StreamSink(d.nextSerial), Step(d, OpenStream), IdFor(d).value;
            call !in d.ledger.issued && Outstanding(after) == Outstanding(d) + {call} && id !in Taken(d) &&
            Route(after, id) == Stream(call) &&
            (if ok then ServedBy(after, StreamEnds(id, ok)) else FailedBy(after, StreamEnds(id, ok))) == multiset{call}
  {
    AllocateFinds(d.nextChannelId, Taken(d), MAX_PROBES);
    With(d.streams, IdFor(d).value, StreamSink(d.nextSerial));
  }

  predicate EndsTerminal(d: Device, e: Event, channelId: nat) {
    match e
    case ChannelError(id) => id == channelId
    case ChannelExit(id) => id == channelId
    case ForgetChannel(id) => id == channelId
    case OpenTimesOut(id) => id == channelId
    case Detach(socket) => d.socket == Some(socket) && channelId in d.pending
    case GraceEnds => true
    case Kill => true
    case _ => false
  }

  /** A terminal stays routed until its exit, its error, its failed opening or the end
      of the grace period; an answer to its opening serves the caller and ends nothing. */
  lemma TerminalLivesUntil(d: Device, e: Event, channelId: nat)
    requires Possible(d, e) && channelId in d.channels
    ensures channelId in Step(d, e).channels <==> !EndsTerminal(d, e, channelId)
  {
    match e {
      case Detach(_) =>
      case OpenShell(_) =>
      case _ =>
    }
  }

  /** A device goes online with its hello, and offline with its current socket; a newer
      socket that takes over keeps it online. */
  lemma OnlineIff(d: Device, e: Event)
    requires Possible(d, e)
    ensures Online(Step(d, e)) <==>
            if e.Hello? then d.socket.Some?
            else if e.Attach? then d.hello
            else Online(d) && !(e.Detach? && d.socket == Some(e.socket))
    ensures e.Detach? && d.socket == Some(e.socket) ==> forall newer :: !Online(Step(Step(d, e), Attach(newer)))
  {
    match e {
      case Detach(_) =>
      case OpenShell(_) =>
      case OpenStream =>
      case _ =>
    }
  }

  /** Offline, terminals wait for the grace period to end, and for nothing longer. */
  predicate OnTheClock(d: Device) {
    d.socket.None? && d.channels != {} ==> d.grace
  }

  lemma {:induction false} TerminalsAreOnTheClock(d: Device, events: seq<Event>, end: Device)
    requires OnTheClock(d) && Runs(d, events, end)
    ensures OnTheClock(end)
    decreases |events|
  {
    if events != [] {
      StepKeepsTheClock(d, events[0]);
      TerminalsAreOnTheClock(Step(d, events[0]), events[1..], end);
    }
  }

  lemma StepKeepsTheClock(d: Device, e: Event)
    requires OnTheClock(d) && Possible(d, e)
    ensures OnTheClock(Step(d, e))
  {
  }

  lemma NewDeviceInv()
    ensures Inv(NEW_DEVICE)
  {
  }

  /* ------------------------------ what callers rely on -------------------------- */

  /** Where a binary frame goes: a file stream, else a terminal, else nowhere. */
  datatype Owner = Stream(call: Call) | Terminal | NoOwner

  function Route(d: Device, channelId: nat): Owner {
    if channelId in d.streams then Stream(d.streams[channelId])
    else if channelId in d.channels then Terminal
    else NoOwner
  }

  /** The order of the two look-ups never matters: no frame of a live terminal is
      taken by a stream, and none of a stream could have gone to a terminal. */
  lemma FramesHaveOneOwner(d: Device, events: seq<Event>, end: Device, channelId: nat)
    requires Inv(d) && Runs(d, events, end)
    ensures Route(end, channelId).Terminal? <==> channelId in end.channels
    ensures Route(end, channelId).Stream? <==> channelId in end.streams && channelId !in end.channels
  {
    EveryRunSettlesOnce(d, events, end);
  }

  /** The agent takes a known id for a resume request, so a new terminal must get
      an id no terminal holds; while fewer than 65535 ids are live it gets one. */
  lemma OpenShellIsNeverAResume(d: Device)
    requires Inv(d) && Online(d) && |Taken(d)| < MAX_PROBES
    ensures exists id :: id !in Taken(d) && 1 <= id <= MAX_CHANNEL_ID &&
                         IssueOpen(d, true).channels == d.channels + {id} && id in IssueOpen(d, true).pending
  {
    AllocateFinds(d.nextChannelId, Taken(d), MAX_PROBES);
    AllocationSucceeds(d.nextChannelId, Taken(d));
    var found := Allocate(d.nextChannelId, Taken(d), MAX_PROBES).0;
    var id := found.value;
    assert IssueOpen(d, true).channels == d.channels + {id};
    assert id in IssueOpen(d, true).pending;
  }

  /** A close event fails every waiting caller exactly when it is the close of the
      current socket; any other leaves all of them waiting. */
  lemma DetachFailsAllIffCurrent(d: Device, socket: nat)
    requires Inv(d)
    ensures var after := Step(d, Detach(socket));
            if d.socket == Some(socket)
            then Outstanding(after) == {} && after.timers == {} && Outstanding(d) <= after.ledger.rejected
            else after == d
  {
  }

  predicate EndsStream(d: Device, e: Event, channelId: nat) {
    e == ReleaseStream(channelId) || (e.StreamEnds? && e.channelId == channelId) ||
    (e.Detach? && d.socket == Some(e.socket))
  }

  lemma IssueStreamKeepsStreams(d: Device, channelId: nat)
    requires 1 <= d.nextChannelId <= MAX_CHANNEL_ID && channelId in d.streams
    ensures channelId in IssueStream(d).streams && IssueStream(d).streams[channelId] == d.streams[channelId]
  {
    AllocateFinds(d.nextChannelId, Taken(d), MAX_PROBES);
    var found := Allocate(d.nextChannelId, Taken(d), MAX_PROBES).0;
    assert channelId in Taken(d);
    assert found.Some? ==> found.value != channelId;
  }

  /** Nothing else ends a file stream: in particular no timeout does. */
  lemma StreamLivesUntil(d: Device, e: Event, channelId: nat)
    requires Inv(d) && Possible(d, e) && channelId in d.streams
    ensures channelId in Step(d, e).streams <==> !EndsStream(d, e, channelId)
    ensures channelId in Step(d, e).streams ==> Step(d, e).streams[channelId] == d.streams[channelId]
  {
    match e {
      case OpenStream => IssueStreamKeepsStreams(d, channelId);
      case OpenShell(_) =>
      case Detach(_) =>
      case _ =>
    }
  }

  /** A newer connection replaces the current one, and the close of the old one
      then changes nothing: no waiting caller has been told, although the agent
      on the new connection knows nothing of the old streams. */
  lemma TakeoverStrandsCallers(d: Device, older: nat, newer: nat)
    requires Inv(d) && d.socket == Some(older) && older != newer
    ensures var after := Step(Step(d, Attach(newer)), Detach(older));
            after == d.(socket := Some(newer), grace := false) && Outstanding(after) == Outstanding(d) &&
            after.ledger == d.ledger
  {
    assert Step(d, Attach(newer)).socket != Some(older);
  }

  lemma RunOne(d: Device, e: Event, rest: seq<Event>, end: Device)
    requires Possible(d, e) && Runs(Step(d, e), rest, end)
    ensures Runs(d, [e] + rest, end)
  {
    assert ([e] + rest)[1..] == rest;
  }

  /** It happens: a machine that reconnects before its old socket has closed leaves
      a file stream that nobody will ever end. */
  lemma TakeoverHappens() returns (events: seq<Event>, end: Device)
    ensures Runs(NEW_DEVICE, events, end)
    ensures end.socket == Some(2) && !end.grace && Outstanding(end) == {StreamSink(0)} && end.ledger.settled == multiset{}
  {
    var d1 := Step(NEW_DEVICE, Attach(1));
    var d2 := Step(d1, Hello);
    var d3 := Step(d2, OpenStream);
    var d4 := Step(d3, Attach(2));
    assert Allocate(1, {}, MAX_PROBES).0 == Some(1);
    assert d3.streams == map[1 := StreamSink(0)];
    events, end := [], Step(d4, Detach(1));
    RunOne(d4, Detach(1), events, end);
    events := [Detach(1)] + events;
    RunOne(d3, Attach(2), events, end);
    events := [Attach(2)] + events;
    RunOne(d2, OpenStream, events, end);
    events := [OpenStream] + events;
    RunOne(d1, Hello, events, end);
    events := [Hello] + events;
    RunOne(NEW_DEVICE, Attach(1), events, end);
    events := [Attach(1)] + events;
  }

  /* ------------------------------------ the class ------------------------------- */

  lemma TablesAreApart(d: Device)
    requires CallersOk(d)
    ensures d.pending.Values !! d.rpcs.Values && d.pending.Values !! d.streams.Values && d.rpcs.Values !! d.streams.Values
  {
  }

  lemma FailOneMore(l: Ledger, calls: set<Call>, c: Call)
    requires c !in calls
    ensures Settle(FailAll(l, calls), c, false) == FailAll(l, calls + {c})
  {
    assert multiset(calls + {c}) == multiset(calls) + multiset{c};
  }

  lemma ThreeTables(l: Ledger, opens: set<Call>, rpcs: set<Call>, sinks: set<Call>)
    requires opens !! rpcs && opens !! sinks && rpcs !! sinks
    ensures FailAll(FailAll(FailAll(l, opens), rpcs), sinks) == FailAll(l, opens + rpcs + sinks)
  {
    assert multiset(opens + rpcs + sinks) == multiset(opens) + multiset(rpcs) + multiset(sinks);
  }

  /** The ledger is bookkeeping of this model; `nextSerial` stands for the identity
      of each caller's promise or sink. */
  class AgentDevice {
    var socket: Option<nat>
    var hello: bool
    var channels: set<nat>
    var pending: map<nat, Call>
    var rpcs: map<nat, Call>
    var streams: map<nat, Call>
    var timers: set<Call>
    var nextChannelId: nat
    var nextRpcId: nat
    var nextSerial: nat
    var grace: bool
    ghost var ledger: Ledger

    ghost function View(): Device
      reads this
    {
      Device(socket, hello, channels, pending, rpcs, streams, timers, nextChannelId, nextRpcId, nextSerial, grace,
             ledger)
    }

    constructor ()
      ensures View() == NEW_DEVICE
    {
      socket, hello, channels, pending, rpcs, streams := None, false, {}, map[], map[], map[];
      timers, nextChannelId, nextRpcId, nextSerial, grace := {}, 1, 1, 0, false;
      ledger := Ledger({}, multiset{}, {});
    }

    method Attach(newer: nat)
      modifies this
      ensures View() == Step(old(View()), Event.Attach(newer))
    {
      if socket.Some? { socket := None; }
      if grace { grace := false; }
      socket := Some(newer);
    }

    method FailOpens()
      modifies `timers, `ledger
      ensures timers == old(timers) - pending.Values
      ensures ledger == FailAll(old(ledger), pending.Values)
    {
      var left := pending.Values;
      while left != {}
        invariant left <= pending.Values
        invariant timers == old(timers) - (pending.Values - left)
        invariant ledger == FailAll(old(ledger), pending.Values - left)
      {
        var call :| call in left;
        FailOneMore(old(ledger), pending.Values - left, call);
        assert pending.Values - (left - {call}) == (pending.Values - left) + {call};
        timers := timers - {call};
        ledger := Settle(ledger, call, false);
        left := left - {call};
      }
      assert pending.Values - left == pending.Values;
    }

    method FailRpcs()
      modifies `timers, `ledger
      ensures timers == old(timers) - rpcs.Values
      ensures ledger == FailAll(old(ledger), rpcs.Values)
    {
      var left := rpcs.Values;
      while left != {}
        invariant left <= rpcs.Values
        invariant timers == old(timers) - (rpcs.Values - left)
        invariant ledger == FailAll(old(ledger), rpcs.Values - left)
      {
        var call :| call in left;
        FailOneMore(old(ledger), rpcs.Values - left, call);
        assert rpcs.Values - (left - {call}) == (rpcs.Values - left) + {call};
        timers := timers - {call};
        ledger := Settle(ledger, call, false);
        left := left - {call};
      }
      assert rpcs.Values - left == rpcs.Values;
    }

    method FailStreams()
      requires Injective(streams)
      modifies `streams, `ledger
      ensures streams == map[]
      ensures ledger == FailAll(old(ledger), old(streams.Values))
    {
      ghost var all := streams.Values;
      while streams != map[]
        invariant Injective(streams) && streams.Values <= all
        invariant ledger == FailAll(old(ledger), all - streams.Values)
        decreases |streams.Keys|
      {
        var channelId :| channelId in streams;
        var call := streams[channelId];
        Without(streams, channelId);
        FailOneMore(old(ledger), all - streams.Values, call);
        assert all - (streams - {channelId}).Values == (all - streams.Values) + {call};
        streams := streams - {channelId};
        ledger := Settle(ledger, call, false);
      }
      assert all - streams.Values == all;
    }

    method FailCallers()
      requires Injective(streams)
      requires pending.Values !! rpcs.Values && pending.Values !! streams.Values && rpcs.Values !! streams.Values
      modifies `pending, `rpcs, `streams, `timers, `ledger
      ensures pending == map[] && rpcs == map[] && streams == map[]
      ensures timers == old(timers) - old(pending.Values) - old(rpcs.Values)
      ensures ledger == FailAll(old(ledger), old(pending.Values) + old(rpcs.Values) + old(streams.Values))
    {
      ghost var l, opens, answers, sinks := ledger, pending.Values, rpcs.Values, streams.Values;
      FailOpens();
      pending := map[];
      FailRpcs();
      rpcs := map[];
      FailStreams();
      ThreeTables(l, opens, answers, sinks);
    }

    /** The loops of `detach`, once the socket is known to be the current one. */
    method Disconnect()
      requires Injective(streams)
      requires pending.Values !! rpcs.Values && pending.Values !! streams.Values && rpcs.Values !! streams.Values
      modifies `socket, `hello, `pending, `rpcs, `streams, `timers, `channels, `grace, `ledger
      ensures socket == None && !hello && pending == map[] && rpcs == map[] && streams == map[]
      ensures timers == old(timers) - old(pending.Values) - old(rpcs.Values)
      ensures channels == old(channels) - old(pending.Keys) && grace == (old(grace) || old(channels) != {})
      ensures ledger == FailAll(old(ledger), old(pending.Values) + old(rpcs.Values) + old(streams.Values))
    {
      socket, hello := None, false;
      var opening := pending.Keys;
      FailCallers();
      if channels != {} { grace := true; }
      // The rejected callers of `OpenShell` forget their channels.
      channels := channels - opening;
    }

    method Detach(closed: nat)
      requires CallersOk(View())
      modifies this
      ensures View() == Step(old(View()), Event.Detach(closed))
    {
      if socket != Some(closed) { return; }
      TablesAreApart(View());
      Disconnect();
    }

    method OnOpened(channelId: nat)
      modifies this
      ensures View() == Step(old(View()), Opened(channelId))
    {
      if channelId !in pending { return; }
      var call := pending[channelId];
      timers := timers - {call};
      pending := pending - {channelId};
      ledger := Settle(ledger, call, true);
    }

    method OnChannelError(channelId: nat)
      modifies this
      ensures View() == Step(old(View()), ChannelError(channelId))
    {
      if channelId in pending {
        var call := pending[channelId];
        timers := timers - {call};
        pending := pending - {channelId};
        ledger := Settle(ledger, call, false);
      }
      channels := channels - {channelId};
    }

    method OnRpcAnswer(id: nat, ok: bool)
      modifies this
      ensures View() == Step(old(View()), RpcAnswer(id, ok))
    {
      if id !in rpcs { return; }
      var call := rpcs[id];
      timers := timers - {call};
      rpcs := rpcs - {id};
      ledger := Settle(ledger, call, ok);
    }

    method ReleaseStream(channelId: nat)
      modifies this
      ensures View() == Step(old(View()), Event.ReleaseStream(channelId))
    {
      if channelId in streams { ledger := Settle(ledger, streams[channelId], true); }
      streams := streams - {channelId};
    }

    method OnStreamError(channelId: nat)
      modifies this
      ensures View() == Step(old(View()), StreamEnds(channelId, false))
    {
      if channelId in streams { ledger := Settle(ledger, streams[channelId], false); }
      streams := streams - {channelId};
    }

    method AllocateChannelId() returns (id: Option<nat>)
      modifies `nextChannelId
      ensures (id, nextChannelId) == Allocate(old(nextChannelId), Taken(View()), MAX_PROBES)
    {
      ghost var taken := Taken(View());
      var attempt := 0;
      while attempt < MAX_PROBES
        invariant attempt <= MAX_PROBES
        invariant Allocate(nextChannelId, taken, MAX_PROBES - attempt) ==
                  Allocate(old(nextChannelId), taken, MAX_PROBES)
      {
        var candidate := nextChannelId;
        nextChannelId := if nextChannelId >= MAX_CHANNEL_ID then 1 else nextChannelId + 1;
        if candidate !in channels && candidate !in pending && candidate !in streams {
          return Some(candidate);
        }
        attempt := attempt + 1;
      }
      return None;
    }

    method Rpc() returns (id: Option<nat>)
      modifies this
      ensures View() == Step(old(View()), CallRpc)
      ensures id == if Online(old(View())) then Some(old(nextRpcId)) else None
    {
      if socket.None? || !hello { return None; }
      id := Some(nextRpcId);
      var call := RpcCall(nextSerial);
      nextRpcId, nextSerial := nextRpcId + 1, nextSerial + 1;
      timers := timers + {call};
      rpcs := rpcs[id.value := call];
      ledger := Issue(ledger, call);
    }

    method OpenStream() returns (id: Option<nat>)
      modifies this
      ensures View() == Step(old(View()), Event.OpenStream)
      ensures id == IdFor(old(View()))
    {
      id := AllocateChannelId();
      if id.None? { return; }
      var call := StreamSink(nextSerial);
      nextSerial := nextSerial + 1;
      streams := streams[id.value := call];
      ledger := Issue(ledger, call);
    }

    method OpenShell(shellKnown: bool) returns (id: Option<nat>)
      modifies this
      ensures View() == Step(old(View()), Event.OpenShell(shellKnown))
      ensures id == if Online(old(View())) && shellKnown then IdFor(old(View())) else None
    {
      if socket.None? || !hello || !shellKnown { return None; }
      id := AllocateChannelId();
      if id.None? { return; }
      AwaitOpen(id.value);
    }

    method AwaitOpen(id: nat)
      modifies this
      ensures View() == Awaiting(old(View()), id)
    {
      channels := channels + {id};
      var call := OpenCall(nextSerial);
      nextSerial := nextSerial + 1;
      timers := timers + {call};
      pending := pending[id := call];
      ledger := Issue(ledger, call);
    }

    /** The open timeout and the rejection it causes in `OpenShell`. */
    method OnOpenTimeout(channelId: nat)
      requires Possible(View(), OpenTimesOut(channelId))
      modifies this
      ensures View() == Step(old(View()), OpenTimesOut(channelId))
    {
      var call := pending[channelId];
      timers := timers - {call};
      pending := pending - {channelId};
      channels := channels - {channelId};
      ledger := Settle(ledger, call, false);
    }

    method OnRpcTimeout(id: nat)
      requires Possible(View(), RpcTimesOut(id))
      modifies this
      ensures View() == Step(old(View()), RpcTimesOut(id))
    {
      var call := rpcs[id];
      timers := timers - {call};
      rpcs := rpcs - {id};
      ledger := Settle(ledger, call, false);
    }
  }
}
