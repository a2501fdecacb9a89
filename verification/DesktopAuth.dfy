/** Signing a desktop app in from the browser (apps/api/src/lib/desktop-auth.ts) on
    an expiring map (apps/api/src/lib/store.ts). Times are milliseconds. Hashes are
    taken as injective, so a stored digest is modelled by the secret itself. */
module DesktopAuth {
  import opened Common
  import opened InsertionMap

  const TTL_MS: nat := 5 * 60 * 1000
  const MAX_ENTRIES: nat := 5_000
  const MAX_CODE_ATTEMPTS: nat := 5
  const MAX_POLLS: nat := 300

  datatype Status = Pending | Approved(user: string) | Denied

  datatype Request = Request(secret: string, code: string, expiresAt: nat, codeAttempts: nat, polls: nat, status: Status)

  datatype Entry = Entry(request: Request, expiresAt: nat)

  function Upper(c: char): char {
    if 'a' <= c <= 'z' then (c as int - 32) as char else c
  }

  /** The code without case and without anything but letters and digits. */
  function Normalised(code: string): string {
    if code == "" then "" else Symbol(Upper(code[0])) + Normalised(code[1..])
  }

  function Symbol(c: char): string {
    if 'A' <= c <= 'Z' || '0' <= c <= '9' then [c] else ""
  }

  function Created(now: nat, secret: string, code: string): Request {
    Request(secret, Normalised(code), now + TTL_MS, 0, 0, Pending)
  }

  /* -------------------------------- the expiring map ---------------------------- */

  predicate Expired(e: Entry, now: nat) {
    e.expiresAt <= now
  }

  function Unexpired(t: Table<Entry>, now: nat): set<string> {
    set key | key in t.entries && !Expired(t.entries[key], now)
  }

  /** Sweeps, makes room and starts the entry's time to live anew. */
  ghost function Stored(t: Table<Entry>, now: nat, id: string, r: Request): Table<Entry>
    requires Valid(t)
  {
    RestrictIsValid(t, Unexpired(t, now));
    Put(Evict(Restrict(t, Unexpired(t, now)), MAX_ENTRIES - 1), id, Entry(r, now + TTL_MS))
  }

  /** The request while both the map's and its own deadline lie ahead. */
  function Live(t: Table<Entry>, now: nat, id: string): Option<Request> {
    if id in t.entries && now < t.entries[id].expiresAt && now < t.entries[id].request.expiresAt
    then Some(t.entries[id].request) else None
  }

  /** Looking up an expired request drops it. */
  function Looked(t: Table<Entry>, now: nat, id: string): Table<Entry> {
    if id in t.entries && Live(t, now, id).None? then Drop(t, id) else t
  }

  /* ------------------------------------ the calls ------------------------------- */

  datatype PollResult = StillPending | WasDenied | PollExpired | HandedOver(user: string) | InvalidSecret

  ghost function Poll(t: Table<Entry>, now: nat, id: string, secret: string): (Table<Entry>, PollResult)
    requires Valid(t)
  {
    match Live(t, now, id)
    case None => (Looked(t, now, id), PollExpired)
    case Some(r) =>
      var counted := r.(polls := r.polls + 1);
      if r.secret != secret then (t, InvalidSecret)
      else if counted.polls > MAX_POLLS then (Drop(t, id), PollExpired)
      else if r.status.Denied? then (Drop(t, id), WasDenied)
      else if r.status.Approved? && r.status.user != "" then (Drop(t, id), HandedOver(r.status.user))
      else (Stored(t, now, id, counted), StillPending)
  }

  datatype ApproveResult = NowApproved | ApproveExpired | AlreadyResolved | InvalidCode

  ghost function Approve(t: Table<Entry>, now: nat, id: string, code: string, user: string): (Table<Entry>, ApproveResult)
    requires Valid(t)
  {
    match Live(t, now, id)
    case None => (Looked(t, now, id), ApproveExpired)
    case Some(r) =>
      var missed := r.(codeAttempts := r.codeAttempts + 1);
      if !r.status.Pending? then (t, AlreadyResolved)
      else if r.code == Normalised(code) then (Stored(t, now, id, r.(status := Approved(user))), NowApproved)
      else if missed.codeAttempts >= MAX_CODE_ATTEMPTS then (Drop(t, id), ApproveExpired)
      else (Stored(t, now, id, missed), InvalidCode)
  }

  ghost function Deny(t: Table<Entry>, now: nat, id: string): Table<Entry>
    requires Valid(t)
  {
    match Live(t, now, id)
    case None => Looked(t, now, id)
    case Some(r) => if r.status.Pending? then Stored(t, now, id, r.(status := Denied)) else t
  }

  /* ------------------------------------- runs ----------------------------------- */

  /** What was issued, with how many polls were answered "pending" and how many codes
      turned down, and whether it was denied. */
  datatype Issued = Issued(secret: string, code: string, at: nat, polls: nat, misses: nat, denied: bool)

  /** Everything issued so far, who approved it, and to whom it was handed over. */
  datatype History = History(issued: map<string, Issued>, approvals: map<string, string>, collected: map<string, string>)

  function WithIssued(past: History, id: string, now: nat, secret: string, code: string): History {
    past.(issued := past.issued[id := Issued(secret, code, now, 0, 0, false)])
  }

  function WithPoll(past: History, id: string): History {
    if id !in past.issued then past
    else past.(issued := past.issued[id := past.issued[id].(polls := past.issued[id].polls + 1)])
  }

  function WithMiss(past: History, id: string): History {
    if id !in past.issued then past
    else past.(issued := past.issued[id := past.issued[id].(misses := past.issued[id].misses + 1)])
  }

  function WithDenial(past: History, id: string): History {
    if id !in past.issued then past else past.(issued := past.issued[id := past.issued[id].(denied := true)])
  }

  function WithHandOver(past: History, id: string, user: string): History {
    past.(collected := past.collected[id := user])
  }

  function WithApproval(past: History, id: string, user: string): History {
    past.(approvals := past.approvals[id := user])
  }

  function AfterPoll(past: History, id: string, result: PollResult): History {
    match result
    case StillPending => WithPoll(past, id)
    case HandedOver(user) => WithHandOver(past, id, user)
    case _ => past
  }

  function AfterApprove(past: History, id: string, user: string, result: ApproveResult): History {
    match result
    case NowApproved => WithApproval(past, id, user)
    case InvalidCode => WithMiss(past, id)
    case _ => past
  }

  /** A denial takes effect on a live request that nobody has answered. */
  function AfterDeny(past: History, id: string, live: Option<Request>): History {
    if live.Some? && live.value.status.Pending? then WithDenial(past, id) else past
  }

  datatype System = System(table: Table<Entry>, now: nat, past: History)

  datatype Event =
    | Wait(ms: nat)
    | Create(id: string, secret: string, code: string)
    | Polled(id: string, secret: string)
    | ApprovedBy(id: string, code: string, user: string)
    | DeniedBy(id: string)
    | Previewed(id: string)

  /** Request ids are random and never repeat; an approver is signed in. */
  predicate Possible(s: System, e: Event) {
    match e
    case Create(id, _, _) => id !in s.past.issued
    case ApprovedBy(_, _, user) => user != ""
    case _ => true
  }

  ghost function Step(s: System, e: Event): System
    requires Valid(s.table)
  {
    match e
    case Wait(ms) => s.(now := s.now + ms)
    case Create(id, secret, code) =>
      s.(table := Stored(s.table, s.now, id, Created(s.now, secret, code)),
         past := WithIssued(s.past, id, s.now, secret, code))
    case Polled(id, secret) =>
      var (table, result) := Poll(s.table, s.now, id, secret);
      s.(table := table, past := AfterPoll(s.past, id, result))
    case ApprovedBy(id, code, user) =>
      var (table, result) := Approve(s.table, s.now, id, code, user);
      s.(table := table, past := AfterApprove(s.past, id, user, result))
    case DeniedBy(id) =>
      s.(table := Deny(s.table, s.now, id), past := AfterDeny(s.past, id, Live(s.table, s.now, id)))
    case Previewed(id) => s.(table := Looked(s.table, s.now, id))
  }

  /* --------------------------------- the invariant ------------------------------ */

  /** A request kept agrees with what was issued and with who approved it. */
  predicate RequestOk(id: string, r: Request, past: History) {
    id in past.issued &&
    r.secret == past.issued[id].secret && r.code == Normalised(past.issued[id].code) &&
    r.expiresAt == past.issued[id].at + TTL_MS &&
    r.codeAttempts == past.issued[id].misses < MAX_CODE_ATTEMPTS && r.polls == past.issued[id].polls <= MAX_POLLS &&
    id !in past.collected &&
    (r.status.Denied? <==> past.issued[id].denied) && (r.status.Approved? <==> id in past.approvals) &&
    (r.status.Approved? ==> r.status.user == past.approvals[id] && r.status.user != "")
  }

  ghost predicate TableOk(t: Table<Entry>, past: History) {
    Valid(t) && |t.order| <= MAX_ENTRIES &&
    forall id {:trigger RequestOk(id, t.entries[id].request, past)} ::
      id in t.entries ==> RequestOk(id, t.entries[id].request, past)
  }

  predicate PastOk(past: History) {
    (forall id <- past.approvals :: id in past.issued && !past.issued[id].denied) &&
    (forall id <- past.issued :: past.issued[id].misses < MAX_CODE_ATTEMPTS && past.issued[id].polls <= MAX_POLLS) &&
    (forall id <- past.collected :: id in past.approvals && past.collected[id] == past.approvals[id])
  }

  ghost predicate Inv(s: System) {
    TableOk(s.table, s.past) && PastOk(s.past)
  }

  lemma StoredIsOk(t: Table<Entry>, now: nat, id: string, r: Request, before: History, past: History)
    requires TableOk(t, before) && RequestOk(id, r, past)
    requires forall other, q :: other != id && RequestOk(other, q, before) ==> RequestOk(other, q, past)
    ensures TableOk(Stored(t, now, id, r), past)
  {
    RestrictIsValid(t, Unexpired(t, now));
    var room := Evict(Restrict(t, Unexpired(t, now)), MAX_ENTRIES - 1);
    EvictOnlyTakes(Restrict(t, Unexpired(t, now)), MAX_ENTRIES - 1);
    PutIsValid(room, id, Entry(r, now + TTL_MS));
  }

  lemma DroppedIsOk(t: Table<Entry>, id: string, before: History, past: History)
    requires TableOk(t, before)
    requires forall other, q :: other != id && RequestOk(other, q, before) ==> RequestOk(other, q, past)
    ensures TableOk(Drop(t, id), past)
  {
    DropIsValid(t, id);
    FilterIsShorter(t.order, t.entries.Keys - {id});
  }

  lemma DroppedStaysOk(t: Table<Entry>, id: string, past: History)
    requires TableOk(t, past)
    ensures TableOk(Drop(t, id), past)
  {
    DroppedIsOk(t, id, past, past);
  }

  lemma HandedOverIsOk(t: Table<Entry>, id: string, user: string, past: History)
    requires TableOk(t, past) && PastOk(past) && id in past.approvals && past.approvals[id] == user
    ensures TableOk(Drop(t, id), WithHandOver(past, id, user)) && PastOk(WithHandOver(past, id, user))
  {
    DroppedIsOk(t, id, past, WithHandOver(past, id, user));
  }

  lemma LiveIsOk(t: Table<Entry>, now: nat, id: string, past: History)
    requires TableOk(t, past)
    ensures match Live(t, now, id) case None => TableOk(Looked(t, now, id), past) case Some(r) => RequestOk(id, r, past)
  {
    if Live(t, now, id).None? { DroppedStaysOk(t, id, past); }
  }

  ghost predicate PollKeepsOk(t: Table<Entry>, now: nat, id: string, secret: string, past: History)
    requires Valid(t)
  {
    var (t', result) := Poll(t, now, id, secret);
    TableOk(t', AfterPoll(past, id, result)) && PastOk(AfterPoll(past, id, result))
  }

  lemma VainPollIsOk(t: Table<Entry>, now: nat, id: string, secret: string, past: History)
    requires TableOk(t, past) && PastOk(past)
    requires Live(t, now, id).None? || Live(t, now, id).value.secret != secret || Live(t, now, id).value.polls >= MAX_POLLS
    ensures PollKeepsOk(t, now, id, secret, past)
  {
    DroppedStaysOk(t, id, past);
  }

  lemma VainIsOk(t: Table<Entry>, now: nat, id: string, r: Request, past: History)
    requires TableOk(t, past) && PastOk(past) && RequestOk(id, r, past) && r.polls < MAX_POLLS
    ensures TableOk(Stored(t, now, id, r.(polls := r.polls + 1)), WithPoll(past, id)) && PastOk(WithPoll(past, id))
  {
    StoredIsOk(t, now, id, r.(polls := r.polls + 1), past, WithPoll(past, id));
  }

  lemma PolledOnce(t: Table<Entry>, now: nat, id: string, r: Request)
    requires Valid(t) && Live(t, now, id) == Some(r) && r.polls < MAX_POLLS && r.status.Pending?
    ensures Poll(t, now, id, r.secret) == (Stored(t, now, id, r.(polls := r.polls + 1)), StillPending)
  {
  }

  lemma PendingPollIsOk(t: Table<Entry>, now: nat, id: string, r: Request, past: History)
    requires TableOk(t, past) && PastOk(past) && Live(t, now, id) == Some(r) && r.polls < MAX_POLLS && r.status.Pending?
    ensures PollKeepsOk(t, now, id, r.secret, past)
  {
    assert RequestOk(id, r, past);
    VainIsOk(t, now, id, r, past);
    PolledOnce(t, now, id, r);
  }

  lemma DeniedPollIsOk(t: Table<Entry>, now: nat, id: string, r: Request, past: History)
    requires TableOk(t, past) && PastOk(past) && Live(t, now, id) == Some(r) && r.polls < MAX_POLLS && r.status.Denied?
    ensures PollKeepsOk(t, now, id, r.secret, past)
  {
    DroppedStaysOk(t, id, past);
  }

  lemma ApprovedPollIsOk(t: Table<Entry>, now: nat, id: string, r: Request, past: History)
    requires TableOk(t, past) && PastOk(past) && Live(t, now, id) == Some(r) && r.polls < MAX_POLLS && r.status.Approved?
    ensures PollKeepsOk(t, now, id, r.secret, past)
  {
    assert RequestOk(id, r, past);
    HandedOverIsOk(t, id, r.status.user, past);
  }

  lemma PollIsOk(t: Table<Entry>, now: nat, id: string, secret: string, past: History)
    requires TableOk(t, past) && PastOk(past)
    ensures PollKeepsOk(t, now, id, secret, past)
  {
    var live := Live(t, now, id);
    if live.Some? && live.value.secret == secret && live.value.polls < MAX_POLLS {
      match live.value.status {
        case Pending => PendingPollIsOk(t, now, id, live.value, past);
        case Denied => DeniedPollIsOk(t, now, id, live.value, past);
        case Approved(_) => ApprovedPollIsOk(t, now, id, live.value, past);
      }
    } else {
      VainPollIsOk(t, now, id, secret, past);
    }
  }

  lemma PollKeepsInv(s: System, id: string, secret: string)
    requires Inv(s)
    ensures Inv(Step(s, Polled(id, secret)))
  {
    PollIsOk(s.table, s.now, id, secret, s.past);
  }

  lemma RightCodeIsOk(t: Table<Entry>, now: nat, id: string, r: Request, user: string, past: History)
    requires TableOk(t, past) && PastOk(past) && RequestOk(id, r, past) && user != "" && r.status.Pending?
    ensures TableOk(Stored(t, now, id, r.(status := Approved(user))), WithApproval(past, id, user))
    ensures PastOk(WithApproval(past, id, user))
  {
    StoredIsOk(t, now, id, r.(status := Approved(user)), past, WithApproval(past, id, user));
  }

  ghost predicate ApproveKeepsOk(t: Table<Entry>, now: nat, id: string, code: string, user: string, past: History)
    requires Valid(t)
  {
    var (t', result) := Approve(t, now, id, code, user);
    TableOk(t', AfterApprove(past, id, user, result)) && PastOk(AfterApprove(past, id, user, result))
  }

  lemma LateApprovalIsOk(t: Table<Entry>, now: nat, id: string, code: string, user: string, past: History)
    requires TableOk(t, past) && PastOk(past)
    requires Live(t, now, id).None? || !Live(t, now, id).value.status.Pending?
    ensures ApproveKeepsOk(t, now, id, code, user, past)
  {
    DroppedStaysOk(t, id, past);
  }

  lemma RightApprovalIsOk(t: Table<Entry>, now: nat, id: string, r: Request, code: string, user: string, past: History)
    requires TableOk(t, past) && PastOk(past) && user != "" && Live(t, now, id) == Some(r) && r.status.Pending?
    requires r.code == Normalised(code)
    ensures ApproveKeepsOk(t, now, id, code, user, past)
  {
    assert RequestOk(id, r, past);
    RightCodeIsOk(t, now, id, r, user, past);
  }

  lemma MissIsOk(t: Table<Entry>, now: nat, id: string, r: Request, past: History)
    requires TableOk(t, past) && PastOk(past) && RequestOk(id, r, past) && r.codeAttempts + 1 < MAX_CODE_ATTEMPTS
    ensures TableOk(Stored(t, now, id, r.(codeAttempts := r.codeAttempts + 1)), WithMiss(past, id))
    ensures PastOk(WithMiss(past, id))
  {
    StoredIsOk(t, now, id, r.(codeAttempts := r.codeAttempts + 1), past, WithMiss(past, id));
  }

  lemma MissedOnce(t: Table<Entry>, now: nat, id: string, r: Request, code: string, user: string)
    requires Valid(t) && Live(t, now, id) == Some(r) && r.status.Pending?
    requires r.code != Normalised(code) && r.codeAttempts + 1 < MAX_CODE_ATTEMPTS
    ensures Approve(t, now, id, code, user) == (Stored(t, now, id, r.(codeAttempts := r.codeAttempts + 1)), InvalidCode)
  {
  }

  lemma WrongApprovalIsOk(t: Table<Entry>, now: nat, id: string, r: Request, code: string, user: string, past: History)
    requires TableOk(t, past) && PastOk(past) && Live(t, now, id) == Some(r) && r.status.Pending?
    requires r.code != Normalised(code) && r.codeAttempts + 1 < MAX_CODE_ATTEMPTS
    ensures ApproveKeepsOk(t, now, id, code, user, past)
  {
    assert RequestOk(id, r, past);
    MissIsOk(t, now, id, r, past);
    MissedOnce(t, now, id, r, code, user);
  }

  lemma LastWrongApprovalIsOk(t: Table<Entry>, now: nat, id: string, r: Request, code: string, user: string, past: History)
    requires TableOk(t, past) && PastOk(past) && Live(t, now, id) == Some(r) && r.status.Pending?
    requires r.code != Normalised(code) && r.codeAttempts + 1 >= MAX_CODE_ATTEMPTS
    ensures ApproveKeepsOk(t, now, id, code, user, past)
  {
    DroppedStaysOk(t, id, past);
  }

  lemma ApproveIsOk(t: Table<Entry>, now: nat, id: string, code: string, user: string, past: History)
    requires TableOk(t, past) && PastOk(past) && user != ""
    ensures ApproveKeepsOk(t, now, id, code, user, past)
  {
    var live := Live(t, now, id);
    if live.None? || !live.value.status.Pending? {
      LateApprovalIsOk(t, now, id, code, user, past);
    } else if live.value.code == Normalised(code) {
      RightApprovalIsOk(t, now, id, live.value, code, user, past);
    } else if live.value.codeAttempts + 1 < MAX_CODE_ATTEMPTS {
      WrongApprovalIsOk(t, now, id, live.value, code, user, past);
    } else {
      LastWrongApprovalIsOk(t, now, id, live.value, code, user, past);
    }
  }

  lemma ApproveKeepsInv(s: System, id: string, code: string, user: string)
    requires Inv(s) && user != ""
    ensures Inv(Step(s, ApprovedBy(id, code, user)))
  {
    ApproveIsOk(s.table, s.now, id, code, user, s.past);
  }

  lemma CreateIsOk(t: Table<Entry>, now: nat, id: string, secret: string, code: string, past: History)
    requires TableOk(t, past) && PastOk(past) && id !in past.issued
    ensures var past' := WithIssued(past, id, now, secret, code);
            TableOk(Stored(t, now, id, Created(now, secret, code)), past') &&
            PastOk(past')
  {
    var past' := WithIssued(past, id, now, secret, code);
    var r := Created(now, secret, code);
    assert RequestOk(id, r, past');
    StoredIsOk(t, now, id, r, past, past');
  }

  lemma DenyIsOk(t: Table<Entry>, now: nat, id: string, past: History)
    requires TableOk(t, past) && PastOk(past)
    ensures var past' := AfterDeny(past, id, Live(t, now, id)); TableOk(Deny(t, now, id), past') && PastOk(past')
  {
    LiveIsOk(t, now, id, past);
    match Live(t, now, id) {
      case None =>
      case Some(r) =>
        if r.status.Pending? { StoredIsOk(t, now, id, r.(status := Denied), past, WithDenial(past, id)); }
    }
  }

  lemma StepKeepsInv(s: System, e: Event)
    requires Inv(s) && Possible(s, e)
    ensures Inv(Step(s, e))
  {
    match e {
      case Wait(_) =>
      case Create(id, secret, code) => CreateIsOk(s.table, s.now, id, secret, code, s.past);
      case Polled(id, secret) => PollKeepsInv(s, id, secret);
      case ApprovedBy(id, code, user) => ApproveKeepsInv(s, id, code, user);
      case DeniedBy(id) => DenyIsOk(s.table, s.now, id, s.past);
      case Previewed(id) => LiveIsOk(s.table, s.now, id, s.past);
    }
  }

  ghost predicate Runs(s: System, events: seq<Event>, end: System)
    decreases |events|
  {
    Valid(s.table) &&
    if events == [] then end == s
    else Possible(s, events[0]) && Runs(Step(s, events[0]), events[1..], end)
  }

  lemma {:induction false} RunKeepsInv(s: System, events: seq<Event>, end: System)
    requires Inv(s) && Runs(s, events, end)
    ensures Inv(end)
    decreases |events|
  {
    if events != [] {
      StepKeepsInv(s, events[0]);
      RunKeepsInv(Step(s, events[0]), events[1..], end);
    }
  }

  /* --------------------------------- the main results --------------------------- */

  const FRESH := System(Table(map[], []), 0, History(map[], map[], map[]))

  /** A poll hands the session over only to the holder of the device secret, only
      for the user who approved, within five minutes of creation, and only if no
      poll did so before. */
  lemma HandOverIsEarned(events: seq<Event>, s: System, id: string, secret: string)
    requires Runs(FRESH, events, s) && Valid(s.table)
    requires Poll(s.table, s.now, id, secret).1.HandedOver?
    ensures id in s.past.issued && secret == s.past.issued[id].secret && s.now < s.past.issued[id].at + TTL_MS
    ensures id in s.past.approvals && Poll(s.table, s.now, id, secret).1.user == s.past.approvals[id]
    ensures id !in s.past.collected
    ensures id in Step(s, Polled(id, secret)).past.collected
  {
    RunKeepsInv(FRESH, events, s);
    assert RequestOk(id, s.table.entries[id].request, s.past);
  }

  /** What a poll of a live request answers: the wrong secret nothing; the right one the
      session if it was approved, the refusal if it was denied, and else that nobody has
      answered, unless that was said 300 times. */
  lemma PollTellsTheAnswer(events: seq<Event>, s: System, id: string, secret: string)
    requires Runs(FRESH, events, s) && Valid(s.table) && Live(s.table, s.now, id).Some?
    ensures id in s.past.issued && id !in s.past.collected
    ensures var issued, result := s.past.issued[id], Poll(s.table, s.now, id, secret).1;
            (result.InvalidSecret? <==> secret != issued.secret) &&
            (result.PollExpired? <==> secret == issued.secret && issued.polls == MAX_POLLS) &&
            (secret == issued.secret && issued.polls < MAX_POLLS ==>
               (result.HandedOver? <==> id in s.past.approvals) && (result.WasDenied? <==> issued.denied))
  {
    RunKeepsInv(FRESH, events, s);
    assert RequestOk(id, s.table.entries[id].request, s.past);
  }

  /** What an approval of a live request answers: that it was answered before; else that
      the code is right, or wrong, or wrong for the fifth time. */
  lemma ApprovalTellsTheAnswer(events: seq<Event>, s: System, id: string, code: string, user: string)
    requires Runs(FRESH, events, s) && Valid(s.table) && Live(s.table, s.now, id).Some?
    ensures id in s.past.issued
    ensures var issued, result := s.past.issued[id], Approve(s.table, s.now, id, code, user).1;
            var right := Normalised(code) == Normalised(issued.code);
            (result.AlreadyResolved? <==> issued.denied || id in s.past.approvals) &&
            (!result.AlreadyResolved? ==>
               (result.NowApproved? <==> right) && (result.InvalidCode? <==> !right && issued.misses < 4) &&
               (result.ApproveExpired? <==> !right && issued.misses == 4))
  {
    RunKeepsInv(FRESH, events, s);
    assert RequestOk(id, s.table.entries[id].request, s.past);
  }

  lemma StoredIsThere(t: Table<Entry>, now: nat, id: string, r: Request)
    requires Valid(t)
    ensures var t' := Stored(t, now, id, r);
            Valid(t') && id in t'.entries && t'.entries[id] == Entry(r, now + TTL_MS)
  {
    RestrictIsValid(t, Unexpired(t, now));
    var room := Evict(Restrict(t, Unexpired(t, now)), MAX_ENTRIES - 1);
    EvictOnlyTakes(Restrict(t, Unexpired(t, now)), MAX_ENTRIES - 1);
    PutIsValid(room, id, Entry(r, now + TTL_MS));
  }

  /** Storing one forgets all that have expired. */
  lemma StoringSweeps(t: Table<Entry>, now: nat, id: string, r: Request, other: string)
    requires Valid(t) && other in Stored(t, now, id, r).entries && other != id
    ensures other in t.entries && now < t.entries[other].expiresAt
  {
    RestrictIsValid(t, Unexpired(t, now));
    EvictOnlyTakes(Restrict(t, Unexpired(t, now)), MAX_ENTRIES - 1);
  }

  /** What is due, oldest first. */
  function Due(t: Table<Entry>, now: nat): seq<string> {
    Filter(t.order, Unexpired(t, now))
  }

  /** Storing a request keeps another that is due exactly when that is among the newest
      4999 that are: also when what is stored was in the store already. */
  lemma StoringKeepsIff(t: Table<Entry>, now: nat, id: string, r: Request, other: string)
    requires Valid(t) && other != id && other in Unexpired(t, now)
    ensures var due := Due(t, now);
            other in Stored(t, now, id, r).entries <==>
            other in due[if |due| < MAX_ENTRIES then 0 else |due| - (MAX_ENTRIES - 1)..]
  {
    var rest := Restrict(t, Unexpired(t, now));
    RestrictIsValid(t, Unexpired(t, now));
    EvictKeepsNewest(rest, MAX_ENTRIES - 1);
    EvictOnlyTakes(rest, MAX_ENTRIES - 1);
    FilterKeeps(t.order, Unexpired(t, now), other);
    assert Due(t, now) == rest.order;
  }

  /** So in a full store a mere poll costs the oldest request its place, although it
      adds nothing. */
  lemma PollEvictsOldest(t: Table<Entry>, now: nat, id: string, r: Request)
    requires Valid(t) && Live(t, now, id) == Some(r) && r.polls < MAX_POLLS && r.status.Pending?
    requires |Due(t, now)| == MAX_ENTRIES && Due(t, now)[0] != id
    ensures Due(t, now)[0] in t.entries && Due(t, now)[0] !in Poll(t, now, id, r.secret).0.entries
  {
    var due, oldest := Due(t, now), Due(t, now)[0];
    FilterKeeps(t.order, Unexpired(t, now), oldest);
    FilterIsDistinct(t.order, Unexpired(t, now));
    StoringKeepsIff(t, now, id, r.(polls := r.polls + 1), oldest);
    PolledOnce(t, now, id, r);
  }

  /** While fewer than 5000 requests are kept, storing one loses no other that is due. */
  lemma StoredKeepsOthers(t: Table<Entry>, now: nat, id: string, r: Request, other: string)
    requires Valid(t) && |t.order| < MAX_ENTRIES && other != id && other in Unexpired(t, now)
    ensures var t' := Stored(t, now, id, r); other in t'.entries && t'.entries[other] == t.entries[other]
  {
    FilterIsShorter(t.order, Unexpired(t, now));
  }

  /** The last answer to a request: its poll hands over, refuses or gives up, or the
      fifth wrong code is turned down. */
  predicate LastAnswer(e: Event, id: string, r: Request) {
    match e
    case Polled(other, secret) =>
      other == id && secret == r.secret && (r.polls == MAX_POLLS || !r.status.Pending?)
    case ApprovedBy(other, code, _) =>
      other == id && r.status.Pending? && Normalised(code) != r.code && r.codeAttempts + 1 == MAX_CODE_ATTEMPTS
    case _ => false
  }

  /** Storing anything leaves a request that is due where it was, unless it replaces it
      by one with the same deadline. */
  lemma StoredLeavesLive(t: Table<Entry>, now: nat, stored: string, r: Request, id: string)
    requires Valid(t) && |t.order| < MAX_ENTRIES && Live(t, now, id).Some?
    requires stored == id ==> r.expiresAt == Live(t, now, id).value.expiresAt
    ensures Live(Stored(t, now, stored, r), now, id).Some?
  {
    StoredIsThere(t, now, stored, r);
    if stored != id { StoredKeepsOthers(t, now, stored, r, id); }
  }

  lemma PollLeavesLive(t: Table<Entry>, now: nat, polled: string, secret: string, id: string)
    requires Valid(t) && |t.order| < MAX_ENTRIES && Live(t, now, id).Some? && Live(t, now, id).value.polls <= MAX_POLLS
    requires Live(t, now, id).value.status.Approved? ==> Live(t, now, id).value.status.user != ""
    ensures Live(Poll(t, now, polled, secret).0, now, id).Some? <==>
            !LastAnswer(Polled(polled, secret), id, Live(t, now, id).value)
  {
    var live := Live(t, now, polled);
    if live.Some? { StoredLeavesLive(t, now, polled, live.value.(polls := live.value.polls + 1), id); }
  }

  lemma ApproveLeavesLive(t: Table<Entry>, now: nat, named: string, code: string, user: string, id: string)
    requires Valid(t) && |t.order| < MAX_ENTRIES && Live(t, now, id).Some?
    requires Live(t, now, id).value.codeAttempts < MAX_CODE_ATTEMPTS
    ensures Live(Approve(t, now, named, code, user).0, now, id).Some? <==>
            !LastAnswer(ApprovedBy(named, code, user), id, Live(t, now, id).value)
  {
    var live := Live(t, now, named);
    if live.Some? {
      StoredLeavesLive(t, now, named, live.value.(status := Approved(user)), id);
      StoredLeavesLive(t, now, named, live.value.(codeAttempts := live.value.codeAttempts + 1), id);
    }
  }

  lemma DenyLeavesLive(t: Table<Entry>, now: nat, named: string, id: string)
    requires Valid(t) && |t.order| < MAX_ENTRIES && Live(t, now, id).Some?
    ensures Live(Deny(t, now, named), now, id).Some?
  {
    var live := Live(t, now, named);
    if live.Some? { StoredLeavesLive(t, now, named, live.value.(status := Denied), id); }
  }

  /** A request that is due stays so until its last answer, whatever else happens to it
      or to others, while fewer than 5000 are kept. */
  lemma RequestsAreKept(s: System, e: Event, id: string)
    requires Inv(s) && Possible(s, e) && !e.Wait? && |s.table.order| < MAX_ENTRIES
    requires Live(s.table, s.now, id).Some?
    ensures Live(Step(s, e).table, s.now, id).Some? <==> !LastAnswer(e, id, Live(s.table, s.now, id).value)
  {
    assert RequestOk(id, s.table.entries[id].request, s.past);
    match e {
      case Create(other, secret, code) =>
        StoredLeavesLive(s.table, s.now, other, Created(s.now, secret, code), id);
      case Polled(other, secret) => PollLeavesLive(s.table, s.now, other, secret, id);
      case ApprovedBy(other, code, user) => ApproveLeavesLive(s.table, s.now, other, code, user, id);
      case DeniedBy(other) => DenyLeavesLive(s.table, s.now, other, id);
      case Previewed(_) =>
    }
  }

  /** A request that is no longer due is forgotten by whatever asks for it next. */
  lemma ExpiredIsForgotten(s: System, e: Event, id: string)
    requires Inv(s) && Possible(s, e) && Live(s.table, s.now, id).None?
    requires match e
             case Polled(other, _) => other == id
             case ApprovedBy(other, _, _) => other == id
             case DeniedBy(other) => other == id
             case Previewed(other) => other == id
             case _ => false
    ensures id !in Step(s, e).table.entries
  {
  }

  /** However full the store is, a request just created is there: for five minutes,
      and no longer, it answers its own device, and takes the code it showed. */
  lemma FreshRequestIsLive(t: Table<Entry>, now: nat, id: string, secret: string, code: string, later: nat,
                           asked: string, typed: string, user: string)
    requires Valid(t) && now <= later
    ensures var t' := Stored(t, now, id, Created(now, secret, code));
            Valid(t') && Live(t', later, id) == (if later < now + TTL_MS then Some(Created(now, secret, code)) else None) &&
            Poll(t', later, id, asked).1 ==
              (if later >= now + TTL_MS then PollExpired else if asked == secret then StillPending else InvalidSecret) &&
            Approve(t', later, id, typed, user).1 ==
              (if later >= now + TTL_MS then ApproveExpired
               else if Normalised(typed) == Normalised(code) then NowApproved else InvalidCode)
  {
    StoredIsThere(t, now, id, Created(now, secret, code));
  }

  lemma {:induction false} NormalisedConcat(a: string, b: string)
    ensures Normalised(a + b) == Normalised(a) + Normalised(b)
  {
    if a == "" {
      assert a + b == b;
    } else {
      assert (a + b)[1..] == a[1..] + b;
      NormalisedConcat(a[1..], b);
      Associative(Symbol(Upper(a[0])), Normalised(a[1..]), Normalised(b));
    }
  }

  lemma NormalisedSymbol(c: char)
    ensures Normalised([c]) == Symbol(Upper(c)) && Normalised([Upper(c)]) == Symbol(Upper(c))
  {
    assert [c][1..] == "" && [Upper(c)][1..] == "";
  }

  lemma NormalisedAround(a: string, c: char, b: string)
    ensures Normalised(a + [c] + b) == Normalised(a) + Symbol(Upper(c)) + Normalised(b)
  {
    NormalisedConcat(a + [c], b);
    NormalisedConcat(a, [c]);
    NormalisedSymbol(c);
  }

  /** A code may be typed in either case, with dashes and spaces or without. */
  lemma CodesAreTypedLoosely(a: string, c: char, b: string)
    ensures Normalised(a + [c] + b) == Normalised(a + [Upper(c)] + b)
    ensures Normalised([c]) == "" ==> Normalised(a + [c] + b) == Normalised(a + b)
    ensures Normalised([c]) == "" <==> !('a' <= c <= 'z' || 'A' <= c <= 'Z' || '0' <= c <= '9')
  {
    NormalisedAround(a, c, b);
    NormalisedAround(a, Upper(c), b);
    NormalisedConcat(a, b);
    NormalisedSymbol(c);
    assert Normalised(a) + "" == Normalised(a);
  }

  /** A hand-over, once done, is never undone or repeated. */
  lemma {:induction false} CollectedStays(s: System, events: seq<Event>, end: System, id: string)
    requires Inv(s) && Runs(s, events, end) && id in s.past.collected
    ensures id in end.past.collected && end.past.collected[id] == s.past.collected[id]
    ensures Valid(end.table) && forall secret :: !Poll(end.table, end.now, id, secret).1.HandedOver?
    decreases |events|
  {
    if events == [] {
      assert id in s.table.entries ==> RequestOk(id, s.table.entries[id].request, s.past);
    } else {
      StepKeepsInv(s, events[0]);
      PastOnlyGrows(s, events[0], id);
      CollectedStays(Step(s, events[0]), events[1..], end, id);
    }
  }

  lemma PastOnlyGrows(s: System, e: Event, id: string)
    requires Inv(s) && Possible(s, e) && id in s.past.collected
    ensures id in Step(s, e).past.collected && Step(s, e).past.collected[id] == s.past.collected[id]
  {
    match e {
      case Polled(other, secret) =>
        assert other in s.table.entries ==> RequestOk(other, s.table.entries[other].request, s.past);
      case _ =>
    }
  }

  /** A browser approves only with the code the app showed, and only once. */
  lemma ApprovalNeedsTheCode(s: System, id: string, code: string, user: string)
    requires Inv(s) && user != "" && Approve(s.table, s.now, id, code, user).1.NowApproved?
    ensures id in s.past.issued && Normalised(code) == Normalised(s.past.issued[id].code)
    ensures id !in s.past.approvals && s.now < s.past.issued[id].at + TTL_MS
  {
    assert RequestOk(id, s.table.entries[id].request, s.past);
  }

  predicate SameAnswer(before: Table<Entry>, after: Table<Entry>, id: string) {
    id in before.entries && id in after.entries ==>
      after.entries[id].request.status == before.entries[id].request.status
  }

  lemma StoringKeepsAnswer(t: Table<Entry>, now: nat, other: string, r: Request, id: string)
    requires Valid(t)
    requires other == id && id in t.entries ==> r.status == t.entries[id].request.status
    ensures SameAnswer(t, Stored(t, now, other, r), id)
  {
    RestrictIsValid(t, Unexpired(t, now));
    EvictOnlyTakes(Restrict(t, Unexpired(t, now)), MAX_ENTRIES - 1);
  }

  /** Once answered, a request keeps its answer for as long as it is kept at all. */
  lemma AnswersStand(s: System, e: Event, id: string)
    requires Inv(s) && Possible(s, e) && id in s.table.entries && !s.table.entries[id].request.status.Pending?
    ensures SameAnswer(s.table, Step(s, e).table, id)
  {
    assert RequestOk(id, s.table.entries[id].request, s.past);
    match e {
      case Create(other, secret, code) =>
        StoringKeepsAnswer(s.table, s.now, other, Created(s.now, secret, code), id);
      case Polled(other, _) =>
        var live := Live(s.table, s.now, other);
        if live.Some? { StoringKeepsAnswer(s.table, s.now, other, live.value.(polls := live.value.polls + 1), id); }
      case ApprovedBy(other, code, user) => ApprovingKeepsAnswer(s.table, s.now, other, code, user, id);
      case DeniedBy(other) =>
        var live := Live(s.table, s.now, other);
        if live.Some? && live.value.status.Pending? {
          StoringKeepsAnswer(s.table, s.now, other, live.value.(status := Denied), id);
        }
      case _ =>
    }
  }

  lemma ApprovingKeepsAnswer(t: Table<Entry>, now: nat, other: string, code: string, user: string, id: string)
    requires Valid(t) && id in t.entries && !t.entries[id].request.status.Pending?
    ensures SameAnswer(t, Approve(t, now, other, code, user).0, id)
  {
    var live := Live(t, now, other);
    if live.Some? && live.value.status.Pending? {
      var r := live.value;
      StoringKeepsAnswer(t, now, other, r.(status := Approved(user)), id);
      StoringKeepsAnswer(t, now, other, r.(codeAttempts := r.codeAttempts + 1), id);
    }
  }

  /** At any time no request, kept or gone, was tried with more than four wrong codes
      that were answered as such, or polled more than 300 times in vain, and at most
      5000 are kept. */
  lemma LimitsHold(events: seq<Event>, s: System, id: string)
    requires Runs(FRESH, events, s)
    ensures |s.table.entries.Keys| <= MAX_ENTRIES
    ensures id in s.past.issued ==> s.past.issued[id].misses <= 4 && s.past.issued[id].polls <= 300
    ensures id in s.table.entries ==>
              s.table.entries[id].request.codeAttempts <= 4 && s.table.entries[id].request.polls <= 300
  {
    RunKeepsInv(FRESH, events, s);
    SizeIsLength(s.table);
    assert id in s.table.entries ==> RequestOk(id, s.table.entries[id].request, s.past);
  }

  /* ------------------------------------ the code -------------------------------- */

  /** The in-memory store of requests; every change stores the request again. */
  class RequestStore {
    var table: Table<Entry>

    constructor ()
      ensures table == Table(map[], []) && Valid(table)
    {
      table := Table(map[], []);
    }

    method Set(now: nat, id: string, r: Request)
      requires Valid(table)
      modifies this
      ensures table == Stored(old(table), now, id, r)
    {
      RestrictIsValid(table, Unexpired(table, now));
      assert Fresh(table, e => Expired(e, now)) == Unexpired(table, now);
      table := Sweep(table, e => Expired(e, now));
      table := EvictOldest(table, MAX_ENTRIES - 1);
      table := Put(table, id, Entry(r, now + TTL_MS));
    }

    method GetLive(now: nat, id: string) returns (r: Option<Request>)
      modifies this
      ensures table == Looked(old(table), now, id)
      ensures r == Live(old(table), now, id)
    {
      if id !in table.entries { return None; }
      var entry := table.entries[id];
      if entry.expiresAt <= now || entry.request.expiresAt <= now {
        table := Drop(table, id);
        return None;
      }
      return Some(entry.request);
    }

    method CreateRequest(now: nat, id: string, secret: string, code: string)
      requires Valid(table)
      modifies this
      ensures table == Stored(old(table), now, id, Created(now, secret, code))
    {
      Set(now, id, Created(now, secret, code));
    }

    method PollRequest(now: nat, id: string, secret: string) returns (result: PollResult)
      requires Valid(table)
      modifies this
      ensures (table, result) == Poll(old(table), now, id, secret)
    {
      var found := GetLive(now, id);
      if found.None? { return PollExpired; }
      var r := found.value;
      if r.secret != secret { return InvalidSecret; }
      r := r.(polls := r.polls + 1);
      if r.polls > MAX_POLLS {
        table := Drop(table, id);
        return PollExpired;
      }
      if r.status.Denied? {
        table := Drop(table, id);
        return WasDenied;
      }
      if r.status.Approved? && r.status.user != "" {
        table := Drop(table, id);
        return HandedOver(r.status.user);
      }
      Set(now, id, r);
      return StillPending;
    }

    method ApproveRequest(now: nat, id: string, code: string, user: string) returns (result: ApproveResult)
      requires Valid(table)
      modifies this
      ensures (table, result) == Approve(old(table), now, id, code, user)
    {
      var found := GetLive(now, id);
      if found.None? { return ApproveExpired; }
      var r := found.value;
      if !r.status.Pending? { return AlreadyResolved; }
      if r.code != Normalised(code) {
        r := r.(codeAttempts := r.codeAttempts + 1);
        if r.codeAttempts >= MAX_CODE_ATTEMPTS {
          table := Drop(table, id);
          return ApproveExpired;
        }
        Set(now, id, r);
        return InvalidCode;
      }
      Set(now, id, r.(status := Approved(user)));
      return NowApproved;
    }

    method DenyRequest(now: nat, id: string)
      requires Valid(table)
      modifies this
      ensures table == Deny(old(table), now, id)
    {
      var found := GetLive(now, id);
      if found.None? || !found.value.status.Pending? { return; }
      Set(now, id, found.value.(status := Denied));
    }
  }
}
