/** Failed sign-ins and the growing lock they earn (apps/api/src/lib/login-throttle.ts).
    Times are milliseconds; a key is an account and an address. */
module LoginThrottle {
  import opened Common
  import opened InsertionMap

  const WINDOW_MS: nat := 15 * 60 * 1000
  const ATTEMPTS_BEFORE_LOCK: nat := 5
  const BASE_LOCK_MS: nat := 60 * 1000
  const MAX_LOCK_MS: nat := 15 * 60 * 1000
  const MAX_TRACKED: nat := 20_000

  datatype Attempt = Attempt(failures: nat, firstFailureAt: nat, lockedUntil: nat)

  function Pow2(n: nat): nat {
    if n == 0 then 1 else 2 * Pow2(n - 1)
  }

  function LockMs(failures: nat): nat
    requires failures >= ATTEMPTS_BEFORE_LOCK
  {
    var lock := BASE_LOCK_MS * Pow2(failures - ATTEMPTS_BEFORE_LOCK);
    if lock < MAX_LOCK_MS then lock else MAX_LOCK_MS
  }

  predicate Stale(a: Attempt, now: nat) {
    now - a.firstFailureAt > WINDOW_MS && a.lockedUntil <= now
  }

  function FreshKeys(t: Table<Attempt>, now: nat): set<string> {
    set key | key in t.entries && !Stale(t.entries[key], now)
  }

  ghost function Swept(t: Table<Attempt>, now: nat): Table<Attempt>
    requires Valid(t)
  {
    RestrictIsValid(t, FreshKeys(t, now));
    Evict(Restrict(t, FreshKeys(t, now)), MAX_TRACKED)
  }

  /** The lock left on an entry, in whole seconds. */
  function LockLeft(a: Attempt, now: nat): nat {
    if a.lockedUntil <= now then 0 else (a.lockedUntil - now + 999) / 1000
  }

  function LockOf(t: Table<Attempt>, now: nat, key: string): nat {
    if key in t.entries then LockLeft(t.entries[key], now) else 0
  }

  /** One failure more; a gap longer than the window starts a new count. */
  function OneMore(t: Table<Attempt>, now: nat, key: string): Attempt {
    var a := if key in t.entries && now - t.entries[key].firstFailureAt <= WINDOW_MS
             then t.entries[key] else Attempt(0, now, 0);
    var failures := a.failures + 1;
    Attempt(failures, a.firstFailureAt,
            if failures >= ATTEMPTS_BEFORE_LOCK then now + LockMs(failures) else a.lockedUntil)
  }

  ghost function Failed(t: Table<Attempt>, now: nat, key: string): Table<Attempt>
    requires Valid(t)
  {
    PutIsValid(t, key, OneMore(t, now, key));
    Swept(Put(t, key, OneMore(t, now, key)), now)
  }

  /* --------------------------------- the invariant ------------------------------ */

  /** How long after its first failure an entry with that many is locked at least,
      when every failure waited for the lock before it. */
  function LockedFor(failures: nat): nat {
    if failures < 5 then 0
    else if failures == 5 then 60_000
    else if failures == 6 then 180_000
    else if failures == 7 then 420_000
    else if failures == 8 then 900_000
    else 1_800_000
  }

  predicate EntryOk(a: Attempt, now: nat) {
    1 <= a.failures <= 9 && a.firstFailureAt <= now &&
    (a.failures < ATTEMPTS_BEFORE_LOCK ==> a.lockedUntil == 0) &&
    (a.failures >= ATTEMPTS_BEFORE_LOCK ==>
       a.firstFailureAt + LockedFor(a.failures) <= a.lockedUntil <= now + MAX_LOCK_MS)
  }

  ghost predicate Inv(t: Table<Attempt>, now: nat) {
    Valid(t) && |t.order| <= MAX_TRACKED && forall key <- t.entries :: EntryOk(t.entries[key], now)
  }

  lemma LocksGrow(failures: nat)
    requires 5 <= failures <= 9
    ensures LockMs(failures) == if failures == 5 then 60_000 else if failures == 6 then 120_000
                                else if failures == 7 then 240_000 else if failures == 8 then 480_000 else 900_000
  {
    assert Pow2(0) == 1 && Pow2(1) == 2 && Pow2(2) == 4;
    assert Pow2(3) == 2 * Pow2(2) && Pow2(4) == 2 * Pow2(3);
  }

  /** A failure that waited for its lock keeps the count at nine or below: the
      ninth locks the account past the end of the window. */
  lemma OneMoreIsOk(t: Table<Attempt>, now: nat, key: string)
    requires Inv(t, now) && LockOf(t, now, key) == 0
    ensures EntryOk(OneMore(t, now, key), now)
    ensures key in t.entries && now - t.entries[key].firstFailureAt <= WINDOW_MS ==>
              t.entries[key].lockedUntil <= OneMore(t, now, key).lockedUntil &&
              OneMore(t, now, key).failures == t.entries[key].failures + 1
  {
    var a := OneMore(t, now, key);
    if key in t.entries {
      assert EntryOk(t.entries[key], now);
    }
    if 5 <= a.failures <= 9 { LocksGrow(a.failures); }
  }

  predicate Counting(t: Table<Attempt>, now: nat, key: string) {
    key in t.entries && now - t.entries[key].firstFailureAt <= WINDOW_MS
  }

  /** A failure recorded without waiting breaks the promise exactly when it is the
      tenth within the window, or comes sooner after the first than the locks so far
      add up to. The tenth always comes while a lock is left. */
  lemma RecordingIsSafeIff(t: Table<Attempt>, now: nat, key: string)
    requires Inv(t, now)
    ensures OneMore(t, now, key).failures > 9 <==> Counting(t, now, key) && t.entries[key].failures == 9
    ensures OneMore(t, now, key).failures > 9 ==> LockOf(t, now, key) > 0
    ensures EntryOk(OneMore(t, now, key), now) <==>
            (Counting(t, now, key) && t.entries[key].failures >= ATTEMPTS_BEFORE_LOCK ==>
               t.entries[key].failures < 9 &&
               now - t.entries[key].firstFailureAt >= LockedFor(t.entries[key].failures))
  {
    var a := OneMore(t, now, key);
    if key in t.entries {
      assert EntryOk(t.entries[key], now);
    }
    if 5 <= a.failures <= 9 { LocksGrow(a.failures); }
  }

  lemma SweptKeepsInv(t: Table<Attempt>, now: nat)
    requires Valid(t) && forall key <- t.entries :: EntryOk(t.entries[key], now)
    ensures Inv(Swept(t, now), now)
  {
    RestrictIsValid(t, FreshKeys(t, now));
    EvictOnlyTakes(Restrict(t, FreshKeys(t, now)), MAX_TRACKED);
  }

  /** Callers that record a failure only while no lock is left keep every count at
      nine or below, every lock within 900 seconds and the table within its cap. */
  lemma FailureKeepsInv(t: Table<Attempt>, now: nat, key: string)
    requires Inv(t, now) && LockOf(t, now, key) == 0
    ensures Inv(Failed(t, now, key), now)
  {
    OneMoreIsOk(t, now, key);
    PutIsValid(t, key, OneMore(t, now, key));
    SweptKeepsInv(Put(t, key, OneMore(t, now, key)), now);
  }

  lemma LocksAreBounded(t: Table<Attempt>, now: nat, key: string)
    requires Inv(t, now)
    ensures LockOf(t, now, key) <= 900
  {
  }

  /* ------------------------------------- runs ----------------------------------- */

  datatype Event = Wait(ms: nat) | Failure(key: string) | Success(key: string) | Look

  /** A sign-in is attempted, and so can fail, only when the lock reads 0. */
  ghost function Step(t: Table<Attempt>, now: nat, e: Event): (Table<Attempt>, nat)
    requires Valid(t)
  {
    match e
    case Wait(ms) => (t, now + ms)
    case Failure(key) => (if LockOf(t, now, key) == 0 then Failed(t, now, key) else Swept(t, now), now)
    case Success(key) => (Drop(t, key), now)
    case Look => (Swept(t, now), now)
  }

  lemma StepKeepsInv(t: Table<Attempt>, now: nat, e: Event)
    requires Inv(t, now)
    ensures var (t', now') := Step(t, now, e); Inv(t', now') && now <= now'
  {
    match e {
      case Wait(_) =>
      case Failure(key) =>
        if LockOf(t, now, key) == 0 { FailureKeepsInv(t, now, key); } else { SweptKeepsInv(t, now); }
      case Success(key) =>
        DropIsValid(t, key);
        FilterIsShorter(t.order, t.entries.Keys - {key});
      case Look => SweptKeepsInv(t, now);
    }
  }

  ghost predicate Runs(t: Table<Attempt>, now: nat, events: seq<Event>, t': Table<Attempt>, now': nat)
    decreases |events|
  {
    Valid(t) &&
    if events == [] then t' == t && now' == now
    else var next := Step(t, now, events[0]); Runs(next.0, next.1, events[1..], t', now')
  }

  /** In every run no account counts more than nine failures, no lock exceeds 900
      seconds and no more than 20000 entries are kept. */
  lemma {:induction false} EveryRunIsBounded(t: Table<Attempt>, now: nat, events: seq<Event>, t': Table<Attempt>,
                                             now': nat, key: string)
    requires Inv(t, now) && Runs(t, now, events, t', now')
    ensures Inv(t', now') && LockOf(t', now', key) <= 900 && |t'.entries.Keys| <= MAX_TRACKED
    ensures key in t'.entries ==> t'.entries[key].failures <= 9
    decreases |events|
  {
    if events == [] {
      LocksAreBounded(t, now, key);
      SizeIsLength(t);
    } else {
      StepKeepsInv(t, now, events[0]);
      var next := Step(t, now, events[0]);
      EveryRunIsBounded(next.0, next.1, events[1..], t', now', key);
    }
  }

  /* ---------------------------- what an account goes through -------------------- */

  /** A sweep of a table within its cap forgets exactly what is past its window and
      past its lock. */
  lemma SweepKeepsTheRest(t: Table<Attempt>, now: nat, key: string)
    requires Valid(t) && |t.order| <= MAX_TRACKED
    ensures key in Swept(t, now).entries <==>
            key in t.entries && (now <= t.entries[key].firstFailureAt + WINDOW_MS || now < t.entries[key].lockedUntil)
    ensures key in Swept(t, now).entries ==> Swept(t, now).entries[key] == t.entries[key]
  {
    FilterIsShorter(t.order, FreshKeys(t, now));
  }

  /** The seconds reported are the fewest that cover the lock. */
  lemma LockIsRoundedUp(t: Table<Attempt>, now: nat, key: string, seconds: nat)
    ensures LockOf(t, now, key) <= seconds <==>
            key in t.entries ==> t.entries[key].lockedUntil <= now + 1000 * seconds
  {
  }

  /** The failures counted against an account now. */
  function Count(t: Table<Attempt>, now: nat, key: string): nat {
    if Counting(t, now, key) then t.entries[key].failures else 0
  }

  /** The lock in seconds that so many failures earn. */
  function Penalty(failures: nat): nat {
    if failures < 5 then 0
    else if failures == 5 then 60
    else if failures == 6 then 120
    else if failures == 7 then 240
    else if failures == 8 then 480
    else 900
  }

  lemma FailedKeepsEntry(t: Table<Attempt>, now: nat, key: string)
    requires Inv(t, now) && |t.order| < MAX_TRACKED && LockOf(t, now, key) == 0
    ensures key in Failed(t, now, key).entries && Failed(t, now, key).entries[key] == OneMore(t, now, key)
  {
    OneMoreIsOk(t, now, key);
    PutIsValid(t, key, OneMore(t, now, key));
    SweepKeepsTheRest(Put(t, key, OneMore(t, now, key)), now, key);
  }

  /** One more failure is one more counted, from the same first one if it lies in the
      window, and locks the account: for a minute at the fifth, twice as long each time
      after that, and never for more than fifteen. */
  lemma FailureCounts(t: Table<Attempt>, now: nat, key: string)
    requires Inv(t, now) && |t.order| < MAX_TRACKED && LockOf(t, now, key) == 0
    ensures var after := Step(t, now, Failure(key)).0;
            Counting(after, now, key) && Count(after, now, key) == Count(t, now, key) + 1 &&
            LockOf(after, now, key) == Penalty(Count(after, now, key)) &&
            after.entries[key].firstFailureAt ==
              if Counting(t, now, key) then t.entries[key].firstFailureAt else now
  {
    FailedKeepsEntry(t, now, key);
    OneMoreIsOk(t, now, key);
    var failures := OneMore(t, now, key).failures;
    if failures >= 5 { LocksGrow(failures); }
  }

  /** Nothing that happens to other accounts, and no look or refused attempt, changes
      what is counted against this one. */
  lemma OthersDoNotCount(t: Table<Attempt>, now: nat, e: Event, key: string)
    requires Inv(t, now) && |t.order| < MAX_TRACKED && Counting(t, now, key) && !e.Wait?
    requires e != Success(key) && (e == Failure(key) ==> LockOf(t, now, key) > 0)
    ensures var after := Step(t, now, e).0; key in after.entries && after.entries[key] == t.entries[key]
  {
    match e {
      case Failure(other) =>
        if LockOf(t, now, other) == 0 {
          PutIsValid(t, other, OneMore(t, now, other));
          SweepKeepsTheRest(Put(t, other, OneMore(t, now, other)), now, key);
        } else {
          SweepKeepsTheRest(t, now, key);
        }
      case Success(_) =>
      case Look => SweepKeepsTheRest(t, now, key);
    }
  }

  /** A success forgets the account's own failures, and its lock. */
  lemma SuccessForgives(t: Table<Attempt>, now: nat, key: string, other: string)
    requires Inv(t, now)
    ensures var after := Step(t, now, Success(key)).0;
            Count(after, now, other) == (if other == key then 0 else Count(t, now, other)) &&
            LockOf(after, now, other) == if other == key then 0 else LockOf(t, now, other)
  {
  }

  /** How many failures of the account a run records: those that met no lock. */
  ghost function Recorded(t: Table<Attempt>, now: nat, events: seq<Event>, key: string): nat
    decreases |events|
  {
    if events == [] || !Valid(t) then 0
    else
      var next := Step(t, now, events[0]);
      (if events[0] == Failure(key) && LockOf(t, now, key) == 0 then 1 else 0) + Recorded(next.0, next.1, events[1..], key)
  }

  /** There is always room in the table, so nothing is evicted. */
  ghost predicate Roomy(t: Table<Attempt>, now: nat, events: seq<Event>)
    decreases |events|
  {
    |t.order| < MAX_TRACKED &&
    (events == [] || !Valid(t) || Roomy(Step(t, now, events[0]).0, Step(t, now, events[0]).1, events[1..]))
  }

  /** Failures spread over one window add up, whatever happens in between but a
      success of the same account. */
  lemma {:induction false} FailuresAddUp(t: Table<Attempt>, now: nat, events: seq<Event>, t': Table<Attempt>,
                                         now': nat, key: string)
    requires Inv(t, now) && Runs(t, now, events, t', now') && Roomy(t, now, events)
    requires Counting(t, now, key) && now' <= t.entries[key].firstFailureAt + WINDOW_MS && Success(key) !in events
    ensures now <= now' && Counting(t', now', key)
    ensures t'.entries[key].firstFailureAt == t.entries[key].firstFailureAt
    ensures Count(t', now', key) == Count(t, now, key) + Recorded(t, now, events, key)
    decreases |events|
  {
    if events != [] {
      var e, next := events[0], Step(t, now, events[0]);
      assert events == [e] + events[1..];
      StepKeepsInv(t, now, e);
      TimeOnlyPasses(next.0, next.1, events[1..], t', now');
      if e == Failure(key) && LockOf(t, now, key) == 0 {
        FailureCounts(t, now, key);
      } else if !e.Wait? {
        OthersDoNotCount(t, now, e, key);
      }
      FailuresAddUp(next.0, next.1, events[1..], t', now', key);
    }
  }

  lemma {:induction false} TimeOnlyPasses(t: Table<Attempt>, now: nat, events: seq<Event>, t': Table<Attempt>, now': nat)
    requires Runs(t, now, events, t', now')
    ensures now <= now'
    decreases |events|
  {
    if events != [] {
      var next := Step(t, now, events[0]);
      TimeOnlyPasses(next.0, next.1, events[1..], t', now');
    }
  }

  /** Without that discipline the count has no bound: attempts checked before the
      first of them failed are all recorded. */
  lemma {:induction false} UncheckedFailuresAddUp(now: nat, key: string, n: nat)
    requires n > 0
    ensures Burst(now, key, n).order == [key] && key in Burst(now, key, n).entries
    ensures Burst(now, key, n).entries[key].failures == n && Burst(now, key, n).entries[key].firstFailureAt == now
    ensures Valid(Burst(now, key, n))
  {
    var before := Burst(now, key, n - 1);
    if n > 1 { UncheckedFailuresAddUp(now, key, n - 1); }
    var a := OneMore(before, now, key);
    var put := Put(before, key, a);
    PutIsValid(before, key, a);
    assert put.order == [key] && put.entries.Keys == {key};
    assert FreshKeys(put, now) == {key};
    FilterIsShorter(put.order, FreshKeys(put, now));
    assert Restrict(put, FreshKeys(put, now)) == put;
  }

  ghost function Burst(now: nat, key: string, n: nat): (t: Table<Attempt>)
    ensures Valid(t)
  {
    if n == 0 then Table(map[], []) else BurstStep(Burst(now, key, n - 1), now, key)
  }

  ghost function BurstStep(t: Table<Attempt>, now: nat, key: string): (r: Table<Attempt>)
    requires Valid(t)
    ensures Valid(r)
  {
    PutIsValid(t, key, OneMore(t, now, key));
    var put := Put(t, key, OneMore(t, now, key));
    RestrictIsValid(put, FreshKeys(put, now));
    EvictOnlyTakes(Restrict(put, FreshKeys(put, now)), MAX_TRACKED);
    Failed(t, now, key)
  }

  /* ------------------------------------ the code -------------------------------- */

  class Throttle {
    var attempts: Table<Attempt>

    constructor ()
      ensures Inv(attempts, 0)
    {
      attempts := Table(map[], []);
    }

    method SweepAttempts(now: nat)
      requires Valid(attempts)
      modifies this
      ensures attempts == Swept(old(attempts), now)
    {
      RestrictIsValid(attempts, FreshKeys(attempts, now));
      assert Fresh(attempts, a => Stale(a, now)) == FreshKeys(attempts, now);
      attempts := Sweep(attempts, a => Stale(a, now));
      attempts := EvictOldest(attempts, MAX_TRACKED);
    }

    method GetLoginLock(now: nat, key: string) returns (seconds: nat)
      requires Valid(attempts)
      modifies this
      ensures attempts == Step(old(attempts), now, Look).0
      ensures seconds == LockOf(attempts, now, key)
    {
      SweepAttempts(now);
      if key !in attempts.entries || attempts.entries[key].lockedUntil <= now { return 0; }
      return (attempts.entries[key].lockedUntil - now + 999) / 1000;
    }

    method RecordLoginFailure(now: nat, key: string) returns (seconds: nat)
      requires Valid(attempts)
      modifies this
      ensures attempts == Failed(old(attempts), now, key)
      ensures seconds == LockLeft(OneMore(old(attempts), now, key), now)
    {
      var entry := Attempt(0, now, 0);
      if key in attempts.entries && now - attempts.entries[key].firstFailureAt <= WINDOW_MS {
        entry := attempts.entries[key];
      }
      entry := entry.(failures := entry.failures + 1);
      if entry.failures >= ATTEMPTS_BEFORE_LOCK {
        entry := entry.(lockedUntil := now + LockMs(entry.failures));
      }
      PutIsValid(attempts, key, entry);
      attempts := Put(attempts, key, entry);
      SweepAttempts(now);
      return LockLeft(entry, now);
    }

    method ClearLoginFailures(key: string)
      requires Valid(attempts)
      modifies this
      ensures attempts == Step(old(attempts), 0, Success(key)).0
    {
      attempts := Drop(attempts, key);
    }
  }
}
