/**
 Logical admission of LOCAL password work: the mutex-guarded occupancy counter and
 the bounded table of per-username attempts.

 One call is one critical section, so a run is a sequence of calls whose clock reads
 never decrease. `live` names the leases that still exist and `issued` the identity of
 the next lease object; the table, `occupied` and `closed` are the guarded state.
 */
module PasswordAdmission {
  import opened Common

  const TRACKED_USERNAMES: nat := 4096
  const SECOND: nat := 1_000_000_000
  const USIZE_MAX: nat := 0xFFFF_FFFF_FFFF_FFFF
  const MAX_PERMITS: nat := 0x1FFF_FFFF_FFFF_FFFF

  datatype Policy = Policy(maxFailures: nat, window: nat, lockout: nat, workers: nat, saturation: nat) {
    function Capacity(): nat { workers * saturation }

    /** What `validate` and the `NonZero` fields demand of a policy. */
    predicate Valid() {
      && 1 <= maxFailures <= USIZE_MAX
      && 1 <= workers && 1 <= saturation && Capacity() <= MAX_PERMITS
      && 0 < window && 0 < lockout
    }
  }

  datatype Attempt = Attempt(windowStart: int, failures: nat, blockedUntil: Option<int>, lastSeen: int, active: int)

  type LeaseId = nat

  datatype State = State(
    closed: bool,
    occupied: int,
    attempts: map<string, Attempt>,
    live: map<LeaseId, Option<string>>,
    issued: nat)

  const INITIAL := State(false, 0, map[], map[], 0)

  datatype Event =
    | Admit(username: Option<string>)
    | Use(lease: LeaseId, ask: Ask)
    | Release(lease: LeaseId)
    | Close

  /** What a lease is used for while it lives. */
  datatype Ask = CheckWork | Recheck | Incorrect | Succeeded(verified: string)

  /** One critical section: what is asked, the clock read under the lock, and the caller's deadline. */
  datatype Call = Call(event: Event, now: int, original: int)

  datatype Answer =
    | Granted(lease: LeaseId, occupancy: int)
    | Done
    | Deadline
    | Closed
    | RateLimited(wait: int)
    | Capacity
    | Configuration
    | NoLease  // the lease named by the call does not exist, so the call cannot be made

  function Fresh(now: int): Attempt { Attempt(now, 0, None, now, 0) }

  /** `Attempt::refresh_window`. */
  function Refresh(e: Attempt, now: int, window: nat): Attempt {
    if Since(now, e.windowStart) >= window
    then
      e.(windowStart := now, failures := 0,
         blockedUntil := if Pending(e.blockedUntil, now) then e.blockedUntil else None)
    else e
  }

  /** The entries the purge drops: idle, not blocked, unseen for longer than window plus lockout. */
  predicate Stale(p: Policy, e: Attempt, now: int) {
    && e.active == 0
    && !Pending(e.blockedUntil, now)
    && Since(now, e.lastSeen) > p.window + p.lockout
  }

  function Retained(p: Policy, attempts: map<string, Attempt>, now: int): map<string, Attempt> {
    map u | u in attempts && !Stale(p, attempts[u], now) :: attempts[u]
  }

  function Enter(p: Policy, e: Attempt, now: int): Attempt {
    var r := Refresh(e, now, p.window);
    r.(active := r.active + 1, lastSeen := now)
  }

  /** The entry after one more wrong password. */
  function Failed(p: Policy, e: Attempt, now: int): Attempt {
    var r := Refresh(e, now, p.window);
    var failures := if r.failures < USIZE_MAX then r.failures + 1 else r.failures;
    r.(failures := failures,
       lastSeen := now,
       blockedUntil := if failures >= p.maxFailures then Some(now + p.lockout) else r.blockedUntil)
  }

  function Cleared(e: Attempt, now: int): Attempt {
    e.(failures := 0, blockedUntil := None, windowStart := now, lastSeen := now)
  }

  function Take(s: State, username: Option<string>): (State, Answer) {
    (s.(occupied := s.occupied + 1, live := s.live[s.issued := username], issued := s.issued + 1),
     Granted(s.issued, s.occupied + 1))
  }

  /** Admission for a named user; `purging` selects the source's bounded, purging table. */
  function AdmitNamed(p: Policy, purging: bool, s: State, u: string, now: int): (State, Answer) {
    var kept := if purging then Retained(p, s.attempts, now) else s.attempts;
    if purging && u !in kept && |kept| == TRACKED_USERNAMES then
      (s.(attempts := kept), Capacity)
    else
      var entry := if u in kept then kept[u] else Fresh(now);
      if Pending(entry.blockedUntil, now) then
        (s.(attempts := kept), RateLimited(entry.blockedUntil.value - now))
      else
        Take(s.(attempts := kept[u := Enter(p, entry, now)]), Some(u))
  }

  /** `Drop for PasswordWorkLease`. */
  function Released(s: State, lease: LeaseId): State
    requires lease in s.live
  {
    var r := s.(occupied := s.occupied - 1, live := s.live - {lease});
    match s.live[lease]
    case None => r
    case Some(u) =>
      if u !in s.attempts then r else
      var e := s.attempts[u].(active := s.attempts[u].active - 1);
      if e.active == 0 && e.failures == 0 && e.blockedUntil.None?
      then r.(attempts := s.attempts - {u})
      else r.(attempts := s.attempts[u := e])
  }

  /** Use of a live lease of `who`, once deadline and closure have been ruled out. */
  function Used(p: Policy, s: State, who: Option<string>, ask: Ask, now: int): (State, Answer) {
    if ask.CheckWork? then (s, Done)
    else if who.None? || who.value !in s.attempts then (s, if ask.Recheck? then Done else Configuration)
    else
      var u, e := who.value, s.attempts[who.value];
      match ask
      case CheckWork => (s, Done)
      case Recheck => (s, if Pending(e.blockedUntil, now) then RateLimited(e.blockedUntil.value - now) else Done)
      case Incorrect => (s.(attempts := s.attempts[u := Failed(p, e, now)]), Done)
      case Succeeded(verified) =>
        if verified != u then (s, Configuration) else (s.(attempts := s.attempts[u := Cleared(e, now)]), Done)
  }

  /** One critical section. With `purging` false the table is unbounded and nothing is ever purged. */
  function Step(p: Policy, purging: bool, s: State, c: Call): (State, Answer) {
    match c.event
    case Close => (s.(closed := true), Done)
    case Release(lease) => if lease in s.live then (Released(s, lease), Done) else (s, NoLease)
    case Admit(username) =>
      if c.now >= c.original then (s, Deadline)
      else if s.closed then (s, Closed)
      else if s.occupied == p.Capacity() then (s, RateLimited(SECOND))
      else if username.None? then Take(s, None)
      else AdmitNamed(p, purging, s, username.value, c.now)
    case Use(lease, ask) =>
      if lease !in s.live then (s, NoLease)
      else if c.now >= c.original then (s, Deadline)
      else if s.closed then (s, Closed)
      else Used(p, s, s.live[lease], ask, c.now)
  }

  // ---------------------------------------------------------------- runs

  predicate Ordered(start: int, calls: seq<Call>)
    decreases |calls|
  {
    calls == [] || (start <= calls[0].now && Ordered(calls[0].now, calls[1..]))
  }

  function Last(start: int, calls: seq<Call>): int
    decreases |calls|
  {
    if calls == [] then start else Last(calls[0].now, calls[1..])
  }

  function Run(p: Policy, purging: bool, s: State, calls: seq<Call>): State
    decreases |calls|
  {
    if calls == [] then s else Run(p, purging, Step(p, purging, s, calls[0]).0, calls[1..])
  }

  // ---------------------------------------------------------------- lease conservation

  ghost function Holders(live: map<LeaseId, Option<string>>, u: string): set<LeaseId> {
    set l | l in live && live[l] == Some(u)
  }

  /** What every reachable state satisfies at clock `t`, apart from the table bound. */
  ghost predicate Conserved(p: Policy, s: State, t: int) {
    && s.occupied == |s.live| <= p.Capacity()
    && (forall l | l in s.live :: l < s.issued && (s.live[l].Some? ==> s.live[l].value in s.attempts))
    && (forall u | u in s.attempts :: WellTimed(p, s.attempts[u], t) && s.attempts[u].active == |Holders(s.live, u)|)
  }

  /** Clock facts of one entry, and no idle entry without a failure or a lockout to remember. */
  predicate WellTimed(p: Policy, e: Attempt, t: int) {
    && e.windowStart <= e.lastSeen <= t
    && (e.blockedUntil.Some? ==> e.blockedUntil.value <= e.lastSeen + p.lockout)
    && (e.active == 0 ==> e.failures > 0 || e.blockedUntil.Some?)
  }

  lemma HoldersAdded(live: map<LeaseId, Option<string>>, l: LeaseId, who: Option<string>, u: string)
    requires l !in live
    ensures |Holders(live[l := who], u)| == |Holders(live, u)| + (if who == Some(u) then 1 else 0)
  {
    var after := Holders(live[l := who], u);
    assert after == Holders(live, u) + (if who == Some(u) then {l} else {});
  }

  lemma HoldersRemoved(live: map<LeaseId, Option<string>>, l: LeaseId, u: string)
    requires l in live
    ensures |Holders(live - {l}, u)| == |Holders(live, u)| - (if live[l] == Some(u) then 1 else 0)
  {
    assert Holders(live - {l}, u) == Holders(live, u) - {l};
  }

  lemma TakeConserves(p: Policy, s: State, who: Option<string>, t: int)
    requires s.occupied == |s.live| < p.Capacity()
    requires forall l | l in s.live :: l < s.issued && (s.live[l].Some? ==> s.live[l].value in s.attempts)
    requires who.Some? ==> who.value in s.attempts
    requires forall u | u in s.attempts ::
               WellTimed(p, s.attempts[u], t)
               && s.attempts[u].active == |Holders(s.live, u)| + (if who == Some(u) then 1 else 0)
    ensures Conserved(p, Take(s, who).0, t)
  {
    MapAddSize(s.live, s.issued, who);
    forall u | u in s.attempts {
      HoldersAdded(s.live, s.issued, who, u);
    }
  }

  lemma ReleaseConserves(p: Policy, s: State, lease: LeaseId, t: int)
    requires Conserved(p, s, t) && lease in s.live
    ensures Conserved(p, Released(s, lease), t)
    ensures s.occupied >= 1 && (s.live[lease].Some? ==> s.attempts[s.live[lease].value].active >= 1)
  {
    MapRemoveSize(s.live, lease);
    forall u | u in s.attempts {
      HoldersRemoved(s.live, lease, u);
    }
    var r := Released(s, lease);
    if s.live[lease].Some? {
      var u := s.live[lease].value;
      assert lease in Holders(s.live, u);
      assert s.attempts[u].active >= 1;
      forall l | l in r.live && r.live[l].Some?
        ensures r.live[l].value in r.attempts
      {
        if r.live[l].value == u {
          assert l in Holders(s.live - {lease}, u);
        }
      }
    }
  }

  lemma LaterConserves(p: Policy, s: State, t: int, now: int)
    requires Conserved(p, s, t) && t <= now
    ensures Conserved(p, s, now)
  {
  }

  /** A purge spares every user with a live lease. */
  lemma RetainConserves(p: Policy, s: State, now: int)
    requires Conserved(p, s, now)
    ensures Conserved(p, s.(attempts := Retained(p, s.attempts, now)), now)
  {
    forall l | l in s.live && s.live[l].Some?
      ensures s.live[l].value in Retained(p, s.attempts, now)
    {
      assert l in Holders(s.live, s.live[l].value);
    }
  }

  /** Entering a user counts the lease that is about to be taken. */
  lemma EnterConserves(p: Policy, s: State, u: string, now: int)
    requires Conserved(p, s, now) && s.occupied != p.Capacity()
    ensures var entry := if u in s.attempts then s.attempts[u] else Fresh(now);
            Conserved(p, Take(s.(attempts := s.attempts[u := Enter(p, entry, now)]), Some(u)).0, now)
  {
    var entry := if u in s.attempts then s.attempts[u] else Fresh(now);
    if u !in s.attempts {
      NoHolders(s, s.attempts, u);
    }
    assert entry.active == |Holders(s.live, u)|;
    assert WellTimed(p, Enter(p, entry, now), now);
    TakeConserves(p, s.(attempts := s.attempts[u := Enter(p, entry, now)]), Some(u), now);
  }

  lemma AdmitConserves(p: Policy, purging: bool, s: State, u: string, now: int)
    requires Conserved(p, s, now) && s.occupied != p.Capacity()
    ensures Conserved(p, AdmitNamed(p, purging, s, u, now).0, now)
  {
    if purging {
      RetainConserves(p, s, now);
      EnterConserves(p, s.(attempts := Retained(p, s.attempts, now)), u, now);
    } else {
      EnterConserves(p, s, u, now);
    }
  }

  lemma NoHolders(s: State, kept: map<string, Attempt>, u: string)
    requires u !in kept
    requires forall l | l in s.live && s.live[l].Some? :: s.live[l].value in kept
    ensures |Holders(s.live, u)| == 0
  {
    assert Holders(s.live, u) == {};
  }

  lemma UseConserves(p: Policy, s: State, who: Option<string>, ask: Ask, now: int)
    requires p.Valid() && Conserved(p, s, now) && who in s.live.Values
    ensures Conserved(p, Used(p, s, who, ask, now).0, now)
  {
    if who.Some? && who.value in s.attempts {
      var l :| l in s.live && s.live[l] == who;
      assert l in Holders(s.live, who.value);
      var e := s.attempts[who.value];
      assert WellTimed(p, Failed(p, e, now), now) && WellTimed(p, Cleared(e, now), now);
    }
  }

  /** Every critical section, purging or not, keeps the accounting. */
  lemma StepConserves(p: Policy, purging: bool, s: State, c: Call, t: int)
    requires p.Valid() && Conserved(p, s, t) && t <= c.now
    ensures Conserved(p, Step(p, purging, s, c).0, c.now)
  {
    LaterConserves(p, s, t, c.now);
    match c.event
    case Release(lease) =>
      if lease in s.live {
        ReleaseConserves(p, s, lease, c.now);
      }
    case Admit(username) =>
      if username.Some? && c.now < c.original && !s.closed && s.occupied != p.Capacity() {
        AdmitConserves(p, purging, s, username.value, c.now);
      } else if username.None? && s.occupied != p.Capacity() {
        TakeConserves(p, s, None, c.now);
      }
    case Use(lease, ask) =>
      if lease in s.live {
        UseConserves(p, s, s.live[lease], ask, c.now);
      }
    case Close =>
  }

  lemma StepBounded(p: Policy, s: State, c: Call)
    requires |s.attempts| <= TRACKED_USERNAMES
    ensures |Step(p, true, s, c).0.attempts| <= TRACKED_USERNAMES
  {
    if c.event.Admit? && c.event.username.Some? {
      var kept := Retained(p, s.attempts, c.now);
      MapSubsetSize(kept, s.attempts);
      var u := c.event.username.value;
      if u !in kept {
        MapAddSize(kept, u, Enter(p, Fresh(c.now), c.now));
      } else {
        assert kept[u := Enter(p, kept[u], c.now)].Keys == kept.Keys;
      }
    } else if c.event.Release? && c.event.lease in s.live {
      MapSubsetSize(Released(s, c.event.lease).attempts, s.attempts);
    } else if c.event.Use? {
      MapSubsetSize(Step(p, true, s, c).0.attempts, s.attempts);
    }
  }

  /** Lease conservation over every run of the source's limiter. */
  lemma {:induction false} RunConserves(p: Policy, s: State, calls: seq<Call>, t: int)
    requires p.Valid() && Conserved(p, s, t) && |s.attempts| <= TRACKED_USERNAMES && Ordered(t, calls)
    ensures Conserved(p, Run(p, true, s, calls), Last(t, calls))
    ensures |Run(p, true, s, calls).attempts| <= TRACKED_USERNAMES
    decreases |calls|
  {
    if calls != [] {
      StepConserves(p, true, s, calls[0], t);
      StepBounded(p, s, calls[0]);
      RunConserves(p, Step(p, true, s, calls[0]).0, calls[1..], calls[0].now);
    }
  }

  /**
   From a new limiter, whatever calls are made: the occupied slots are the live leases, each user's
   active count is the number of live leases that name them, and nothing stays behind once all are released.
   */
  lemma LeaseConservation(p: Policy, calls: seq<Call>, start: int, u: string)
    requires p.Valid() && Ordered(start, calls)
    ensures var s := Run(p, true, INITIAL, calls);
            && s.occupied == |s.live| <= p.Capacity() && |s.attempts| <= TRACKED_USERNAMES
            && (if u in s.attempts then s.attempts[u].active else 0) == |Holders(s.live, u)|
            && (s.live == map[] ==> s.occupied == 0 && (u in s.attempts ==> s.attempts[u].active == 0))
  {
    RunConserves(p, INITIAL, calls, start);
    var s := Run(p, true, INITIAL, calls);
    if u !in s.attempts {
      NoHolders(s, s.attempts, u);
    }
    if s.live == map[] {
      assert Holders(s.live, u) == {};
    }
  }

  // ---------------------------------------------------------------- purging is unobservable

  function Answers(p: Policy, purging: bool, s: State, calls: seq<Call>): seq<Answer>
    decreases |calls|
  {
    if calls == [] then []
    else
      var (next, answer) := Step(p, purging, s, calls[0]);
      [answer] + Answers(p, purging, next, calls[1..])
  }

  /** The calls of a run that the bounded table did not refuse for lack of room. */
  function Made(p: Policy, s: State, calls: seq<Call>): seq<Call>
    decreases |calls|
  {
    if calls == [] then []
    else
      var (next, answer) := Step(p, true, s, calls[0]);
      (if answer == Capacity then [] else [calls[0]]) + Made(p, next, calls[1..])
  }

  function WithoutCapacity(answers: seq<Answer>): seq<Answer> {
    if answers == [] then []
    else (if answers[0] == Capacity then [] else [answers[0]]) + WithoutCapacity(answers[1..])
  }

  /** The purging table `s` is the never-purging table `full` without some entries already stale at `t`. */
  ghost predicate Similar(p: Policy, s: State, full: State, t: int) {
    && s == full.(attempts := s.attempts)
    && (forall u | u in s.attempts :: u in full.attempts && full.attempts[u] == s.attempts[u])
    && (forall u | u in full.attempts && u !in s.attempts :: Stale(p, full.attempts[u], t))
  }

  /** A stale entry is indistinguishable from an absent one: admission restarts it from scratch. */
  lemma StaleEntersFresh(p: Policy, e: Attempt, t: int, now: int)
    requires WellTimed(p, e, t) && t <= now && Stale(p, e, now)
    ensures Enter(p, e, now) == Enter(p, Fresh(now), now)
  {
  }

  /** What one call must show: the same answer and similar tables, or a refusal for lack of room. */
  ghost predicate Agrees(p: Policy, left: (State, Answer), full: State, right: (State, Answer), now: int) {
    if left.1 == Capacity then Similar(p, left.0, full, now)
    else left.1 == right.1 && Similar(p, left.0, right.0, now)
  }

  lemma RetainSimilar(p: Policy, s: State, full: State, now: int)
    requires Similar(p, s, full, now)
    ensures Similar(p, s.(attempts := Retained(p, s.attempts, now)), full, now)
  {
  }

  lemma TakeSimilar(p: Policy, s: State, full: State, u: string, e: Attempt, now: int)
    requires Similar(p, s, full, now)
    ensures Take(s.(attempts := s.attempts[u := e]), Some(u)).1
            == Take(full.(attempts := full.attempts[u := e]), Some(u)).1
    ensures Similar(p, Take(s.(attempts := s.attempts[u := e]), Some(u)).0,
                    Take(full.(attempts := full.attempts[u := e]), Some(u)).0, now)
  {
  }

  lemma AdmitSimilar(p: Policy, s: State, full: State, u: string, now: int)
    requires Similar(p, s, full, now) && (u in full.attempts ==> WellTimed(p, full.attempts[u], now))
    ensures Agrees(p, AdmitNamed(p, true, s, u, now), full, AdmitNamed(p, false, full, u, now), now)
  {
    var kept := s.(attempts := Retained(p, s.attempts, now));
    RetainSimilar(p, s, full, now);
    if u in kept.attempts {
      TakeSimilar(p, kept, full, u, Enter(p, kept.attempts[u], now), now);
    } else {
      if u in full.attempts {
        StaleEntersFresh(p, full.attempts[u], now, now);
      }
      TakeSimilar(p, kept, full, u, Enter(p, Fresh(now), now), now);
    }
  }

  lemma ReleaseSimilar(p: Policy, s: State, full: State, lease: LeaseId, t: int)
    requires Conserved(p, s, t) && Similar(p, s, full, t) && lease in s.live
    ensures Similar(p, Released(s, lease), Released(full, lease), t)
  {
  }

  lemma UseSimilar(p: Policy, s: State, full: State, lease: LeaseId, ask: Ask, t: int, now: int)
    requires t <= now && Conserved(p, s, t) && Similar(p, s, full, t) && lease in s.live
    ensures Agrees(p, Used(p, s, s.live[lease], ask, now), full, Used(p, full, s.live[lease], ask, now), now)
  {
    LaterSimilar(p, s, full, t, now);
    if s.live[lease].Some? {
      var u := s.live[lease].value;
      PutSimilar(p, s, full, u, Failed(p, s.attempts[u], now), now);
      PutSimilar(p, s, full, u, Cleared(s.attempts[u], now), now);
    }
  }

  lemma PutSimilar(p: Policy, s: State, full: State, u: string, e: Attempt, now: int)
    requires Similar(p, s, full, now)
    ensures Similar(p, s.(attempts := s.attempts[u := e]), full.(attempts := full.attempts[u := e]), now)
  {
  }

  lemma LaterSimilar(p: Policy, s: State, full: State, t: int, now: int)
    requires t <= now && Similar(p, s, full, t)
    ensures Similar(p, s, full, now)
  {
  }

  lemma StepSimilar(p: Policy, s: State, full: State, c: Call, t: int)
    requires p.Valid() && t <= c.now
    requires Conserved(p, s, t) && Conserved(p, full, t) && Similar(p, s, full, t)
    ensures Agrees(p, Step(p, true, s, c), full, Step(p, false, full, c), c.now)
  {
    LaterSimilar(p, s, full, t, c.now);
    match c.event
    case Admit(username) => AdmissionSimilar(p, s, full, c);
    case Release(lease) =>
      if lease in s.live {
        ReleaseSimilar(p, s, full, lease, t);
        LaterSimilar(p, Released(s, lease), Released(full, lease), t, c.now);
      }
    case Use(lease, ask) =>
      if lease in s.live {
        UseSimilar(p, s, full, lease, ask, t, c.now);
      }
    case Close =>
  }

  lemma AdmissionSimilar(p: Policy, s: State, full: State, c: Call)
    requires c.event.Admit? && Similar(p, s, full, c.now)
    requires forall u | u in full.attempts :: WellTimed(p, full.attempts[u], c.now)
    ensures Agrees(p, Step(p, true, s, c), full, Step(p, false, full, c), c.now)
  {
    if c.event.username.Some? {
      AdmitSimilar(p, s, full, c.event.username.value, c.now);
    }
  }

  lemma {:induction false} RunSimilar(p: Policy, s: State, full: State, calls: seq<Call>, t: int)
    requires p.Valid() && Ordered(t, calls)
    requires Conserved(p, s, t) && Conserved(p, full, t) && Similar(p, s, full, t)
    ensures WithoutCapacity(Answers(p, true, s, calls)) == Answers(p, false, full, Made(p, s, calls))
    decreases |calls|
  {
    if calls != [] {
      var c := calls[0];
      var (next, answer) := Step(p, true, s, c);
      var made := Made(p, next, calls[1..]);
      StepConserves(p, true, s, c, t);
      StepConserves(p, false, full, c, t);
      StepSimilar(p, s, full, c, t);
      assert Answers(p, true, s, calls)[1..] == Answers(p, true, next, calls[1..]);
      if answer == Capacity {
        assert Conserved(p, full, c.now);
        RunSimilar(p, next, full, calls[1..], c.now);
        assert Made(p, s, calls) == made;
      } else {
        RunSimilar(p, next, Step(p, false, full, c).0, calls[1..], c.now);
        assert ([c] + made)[1..] == made;
      }
    }
  }

  /**
   Over every run the purging limiter answers exactly as one that never purges and never runs out
   of room, once the Capacity refusals are counted as requests not made.
   */
  lemma PurgingIsUnobservable(p: Policy, calls: seq<Call>, start: int)
    requires p.Valid() && Ordered(start, calls)
    ensures WithoutCapacity(Answers(p, true, INITIAL, calls)) == Answers(p, false, INITIAL, Made(p, INITIAL, calls))
  {
    RunSimilar(p, INITIAL, INITIAL, calls, start);
  }

  // ---------------------------------------------------------------- lockouts only move later

  /** User `u` is blocked at least until `until`. */
  predicate Locked(s: State, u: string, until: int) {
    u in s.attempts && s.attempts[u].blockedUntil.Some? && until <= s.attempts[u].blockedUntil.value
  }

  /** The call goes through a live lease of `u`. */
  predicate Through(s: State, c: Call, u: string) {
    c.event.Use? && c.event.lease in s.live && s.live[c.event.lease] == Some(u)
  }

  /** The call records `ask` for `u`. */
  predicate Records(p: Policy, s: State, c: Call, u: string, wrong: bool) {
    && Through(s, c, u)
    && (if wrong then c.event.ask.Incorrect? else c.event.ask.Succeeded?)
    && Step(p, true, s, c).1 == Done
  }

  /** No success for `u` is recorded in the run. */
  predicate NoSuccess(p: Policy, s: State, calls: seq<Call>, u: string)
    decreases |calls|
  {
    calls != [] ==>
      && !Records(p, s, calls[0], u, false)
      && NoSuccess(p, Step(p, true, s, calls[0]).0, calls[1..], u)
  }

  /** Every call of the run admits nobody as `u` and passes no recheck of `u`. */
  predicate Refused(p: Policy, s: State, calls: seq<Call>, u: string)
    decreases |calls|
  {
    calls != [] ==>
      var (next, answer) := Step(p, true, s, calls[0]);
      && (calls[0].event == Admit(Some(u)) ==> !answer.Granted?)
      && (Through(s, calls[0], u) && calls[0].event.ask.Recheck? ==> answer != Done)
      && Refused(p, next, calls[1..], u)
  }

  /** The leases through which wrong passwords for `u` were recorded, in order. */
  function WrongThrough(p: Policy, s: State, calls: seq<Call>, u: string): seq<LeaseId>
    decreases |calls|
  {
    if calls == [] then []
    else
      (if Records(p, s, calls[0], u, true) then [calls[0].event.lease] else [])
      + WrongThrough(p, Step(p, true, s, calls[0]).0, calls[1..], u)
  }

  predicate Before(calls: seq<Call>, until: int) {
    forall i | 0 <= i < |calls| :: calls[i].now < until
  }

  lemma StepKeepsLockout(p: Policy, s: State, c: Call, t: int, u: string, until: int)
    requires p.Valid() && Conserved(p, s, t) && t <= c.now < until
    requires Locked(s, u, until) && !Records(p, s, c, u, false)
    ensures Locked(Step(p, true, s, c).0, u, until)
    ensures s.attempts[u].blockedUntil.value <= Step(p, true, s, c).0.attempts[u].blockedUntil.value
    ensures c.event == Admit(Some(u)) ==> !Step(p, true, s, c).1.Granted?
    ensures Through(s, c, u) && c.event.ask.Recheck? ==> Step(p, true, s, c).1 != Done
    ensures c.now < c.original && !s.closed
            && ((c.event == Admit(Some(u)) && s.occupied != p.Capacity()) || (Through(s, c, u) && c.event.ask.Recheck?))
            ==> Step(p, true, s, c).1 == RateLimited(s.attempts[u].blockedUntil.value - c.now)
    ensures Holders(Step(p, true, s, c).0.live, u) <= Holders(s.live, u)
  {
    match c.event
    case Admit(username) =>
      if username.Some? {
        AdmitKeepsLockout(p, s, username.value, c.now, u, until);
      }
    case Use(lease, ask) =>
      if lease in s.live && c.now < c.original && !s.closed {
        UseKeepsLockout(p, s, s.live[lease], ask, c.now, u, until);
      }
    case Release(lease) =>
    case Close =>
  }

  lemma AdmitKeepsLockout(p: Policy, s: State, v: string, now: int, u: string, until: int)
    requires now < until && Locked(s, u, until)
    ensures var (next, answer) := AdmitNamed(p, true, s, v, now);
            && Locked(next, u, until) && s.attempts[u].blockedUntil.value <= next.attempts[u].blockedUntil.value
            && (v == u ==> answer == RateLimited(s.attempts[u].blockedUntil.value - now))
            && Holders(next.live, u) <= Holders(s.live, u)
  {
    assert u in Retained(p, s.attempts, now);
  }

  lemma UseKeepsLockout(p: Policy, s: State, who: Option<string>, ask: Ask, now: int, u: string, until: int)
    requires p.Valid() && now < until && Locked(s, u, until)
    requires s.attempts[u].blockedUntil.value <= now + p.lockout
    requires !(who == Some(u) && ask.Succeeded? && Used(p, s, who, ask, now).1 == Done)
    ensures var (next, answer) := Used(p, s, who, ask, now);
            && Locked(next, u, until) && s.attempts[u].blockedUntil.value <= next.attempts[u].blockedUntil.value
            && (who == Some(u) && ask.Recheck? ==> answer == RateLimited(s.attempts[u].blockedUntil.value - now))
            && next.live == s.live
  {
  }

  lemma {:induction false} DistinctWithin(ids: seq<LeaseId>, bound: set<LeaseId>)
    requires Distinct(ids) && forall l | l in ids :: l in bound
    ensures |ids| <= |bound|
    decreases |ids|
  {
    if ids != [] {
      assert ids[0] !in ids[1..];
      DistinctWithin(ids[1..], bound - {ids[0]});
    }
  }

  /**
   A pending lockout survives every run that records no success for its user: it is never shortened
   or dropped, it refuses every admission and recheck, and the wrong passwords still recorded come
   from leases that were live when it began.
   */
  lemma {:induction false} LockoutHolds(p: Policy, s: State, calls: seq<Call>, t: int, u: string, until: int)
    requires p.Valid() && Conserved(p, s, t) && Ordered(t, calls) && Before(calls, until)
    requires Locked(s, u, until) && NoSuccess(p, s, calls, u)
    ensures Locked(Run(p, true, s, calls), u, until)
    ensures s.attempts[u].blockedUntil.value <= Run(p, true, s, calls).attempts[u].blockedUntil.value
    ensures Refused(p, s, calls, u)
    ensures forall l | l in WrongThrough(p, s, calls, u) :: l in Holders(s.live, u)
    decreases |calls|
  {
    if calls != [] {
      var next := Step(p, true, s, calls[0]).0;
      StepConserves(p, true, s, calls[0], t);
      StepKeepsLockout(p, s, calls[0], t, u, until);
      assert Before(calls[1..], until);
      LockoutHolds(p, next, calls[1..], calls[0].now, u, until);
    }
  }

  /** With one result per lease, at most as many wrong passwords land as leases were live at the start. */
  lemma LockoutBoundsGuesses(p: Policy, s: State, calls: seq<Call>, t: int, u: string, until: int)
    requires p.Valid() && Conserved(p, s, t) && Ordered(t, calls) && Before(calls, until)
    requires Locked(s, u, until) && NoSuccess(p, s, calls, u)
    requires Distinct(WrongThrough(p, s, calls, u))
    ensures |WrongThrough(p, s, calls, u)| <= s.attempts[u].active <= p.Capacity()
  {
    LockoutHolds(p, s, calls, t, u, until);
    HoldersAreFew(p, s, t, u, WrongThrough(p, s, calls, u));
  }

  lemma HoldersAreFew(p: Policy, s: State, t: int, u: string, ids: seq<LeaseId>)
    requires Conserved(p, s, t) && u in s.attempts && Distinct(ids) && forall l | l in ids :: l in Holders(s.live, u)
    ensures |ids| <= s.attempts[u].active <= p.Capacity()
  {
    DistinctWithin(ids, Holders(s.live, u));
    SubsetSize(Holders(s.live, u), s.live.Keys);
  }

  // ---------------------------------------------------------------- wrong passwords lead to lockouts

  /** A wrong password for `u` is recorded and starts no lockout of full length. */
  predicate Unpunished(p: Policy, s: State, c: Call, u: string) {
    Records(p, s, c, u, true) && !Locked(Step(p, true, s, c).0, u, c.now + p.lockout)
  }

  function UnpunishedCount(p: Policy, s: State, calls: seq<Call>, u: string): nat
    decreases |calls|
  {
    if calls == [] then 0
    else
      var first := if Unpunished(p, s, calls[0], u) then 1 else 0;
      first + UnpunishedCount(p, Step(p, true, s, calls[0]).0, calls[1..], u)
  }

  /** How many more can be recorded in the interval of one window that begins at `a`. */
  function EntryAllowance(p: Policy, e: Attempt, a: int): nat
    requires p.Valid()
  {
    (if e.failures < p.maxFailures then p.maxFailures - 1 - e.failures else 0)
      + (if a <= e.windowStart then 0 else p.maxFailures - 1)
  }

  function Allowance(p: Policy, s: State, u: string, a: int): nat
    requires p.Valid()
  {
    if u in s.attempts then EntryAllowance(p, s.attempts[u], a) else p.maxFailures - 1
  }

  predicate Within(calls: seq<Call>, from: int, to: int) {
    forall i | 0 <= i < |calls| :: from <= calls[i].now < to
  }

  lemma FailureAllowance(p: Policy, e: Attempt, t: int, now: int, a: int)
    requires p.Valid() && WellTimed(p, e, t) && t <= now && a <= now < a + p.window
    ensures var failed := Failed(p, e, now);
            (if failed.blockedUntil == Some(now + p.lockout) then 0 else 1) + EntryAllowance(p, failed, a)
              <= EntryAllowance(p, e, a)
  {
  }

  lemma AdmitAllowance(p: Policy, s: State, v: string, t: int, now: int, u: string, a: int)
    requires p.Valid() && Conserved(p, s, t) && t <= now && a <= now < a + p.window
    ensures Allowance(p, AdmitNamed(p, true, s, v, now).0, u, a) <= Allowance(p, s, u, a)
  {
  }

  lemma ReleaseAllowance(p: Policy, s: State, lease: LeaseId, u: string, a: int)
    requires p.Valid() && lease in s.live
    ensures Allowance(p, Released(s, lease), u, a) <= Allowance(p, s, u, a)
  {
  }

  /** Every call pays for what it leaves unpunished out of an allowance that never grows. */
  lemma StepAllowance(p: Policy, s: State, c: Call, t: int, u: string, a: int)
    requires p.Valid() && Conserved(p, s, t) && t <= c.now && a <= c.now < a + p.window && !Records(p, s, c, u, false)
    ensures (if Unpunished(p, s, c, u) then 1 else 0) + Allowance(p, Step(p, true, s, c).0, u, a)
            <= Allowance(p, s, u, a)
  {
    match c.event
    case Admit(username) =>
      if username.Some? {
        AdmitAllowance(p, s, username.value, t, c.now, u, a);
      }
    case Release(lease) =>
      if lease in s.live {
        ReleaseAllowance(p, s, lease, u, a);
      }
    case Use(lease, ask) =>
      if u in s.attempts {
        FailureAllowance(p, s.attempts[u], t, c.now, a);
      }
    case Close =>
  }

  lemma {:induction false} RunAllowance(p: Policy, s: State, calls: seq<Call>, t: int, u: string, a: int)
    requires p.Valid() && Conserved(p, s, t) && Ordered(t, calls) && Within(calls, a, a + p.window)
             && NoSuccess(p, s, calls, u)
    ensures UnpunishedCount(p, s, calls, u) <= Allowance(p, s, u, a)
    decreases |calls|
  {
    if calls != [] {
      StepConserves(p, true, s, calls[0], t);
      StepAllowance(p, s, calls[0], t, u, a);
      assert Within(calls[1..], a, a + p.window);
      RunAllowance(p, Step(p, true, s, calls[0]).0, calls[1..], calls[0].now, u, a);
    }
  }

  /**
   Wrong passwords lead to lockouts. After any history, in any half-open interval no longer than the
   window and without a success for the user, all but 2 * max - 2 recorded wrong passwords start a
   lockout of full length, whatever purges, releases and other users do.
   */
  lemma WrongPasswordsLock(p: Policy, history: seq<Call>, calls: seq<Call>, start: int, u: string, a: int, length: nat)
    requires p.Valid() && Ordered(start, history) && Ordered(Last(start, history), calls)
    requires length <= p.window && Within(calls, a, a + length)
    requires NoSuccess(p, Run(p, true, INITIAL, history), calls, u)
    ensures UnpunishedCount(p, Run(p, true, INITIAL, history), calls, u) <= 2 * p.maxFailures - 2
  {
    RunConserves(p, INITIAL, history, start);
    RunAllowance(p, Run(p, true, INITIAL, history), calls, Last(start, history), u, a);
  }

  /**
   A success opens a new window: until it is over, without another success, all but max - 1 of the wrong
   passwords recorded for the user start a lockout of full length.
   */
  lemma SuccessRestartsWindow(p: Policy, s: State, c: Call, calls: seq<Call>, t: int, u: string)
    requires p.Valid() && Conserved(p, s, t) && t <= c.now && Records(p, s, c, u, false)
    requires var next := Step(p, true, s, c).0;
             Ordered(c.now, calls) && Within(calls, c.now, c.now + p.window) && NoSuccess(p, next, calls, u)
    ensures UnpunishedCount(p, Step(p, true, s, c).0, calls, u) <= p.maxFailures - 1
  {
    StepConserves(p, true, s, c, t);
    RunAllowance(p, Step(p, true, s, c).0, calls, c.now, u, c.now);
  }

  // ---------------------------------------------------------------- lockouts are earned

  /** How many wrong passwords are recorded for `u`. */
  function WrongCount(p: Policy, s: State, calls: seq<Call>, u: string): nat
    decreases |calls|
  {
    if calls == [] then 0
    else
      var first := if Records(p, s, calls[0], u, true) then 1 else 0;
      first + WrongCount(p, Step(p, true, s, calls[0]).0, calls[1..], u)
  }

  /** No admission of `u` is refused except for lack of work slots or room, and no recheck of `u` is refused. */
  predicate Unhindered(p: Policy, s: State, calls: seq<Call>, u: string)
    decreases |calls|
  {
    calls != [] ==>
      var (next, answer) := Step(p, true, s, calls[0]);
      && (calls[0].event == Admit(Some(u)) && answer.RateLimited? ==> s.occupied == p.Capacity())
      && (Through(s, calls[0], u) && calls[0].event.ask.Recheck? ==> !answer.RateLimited?)
      && Unhindered(p, next, calls[1..], u)
  }

  /** `u` is not blocked and has at most `k` failures. */
  predicate Tame(s: State, u: string, k: nat) {
    u in s.attempts ==> s.attempts[u].failures <= k && s.attempts[u].blockedUntil.None?
  }

  lemma StepTame(p: Policy, s: State, c: Call, u: string, k: nat)
    requires Tame(s, u, k) && k + (if Records(p, s, c, u, true) then 1 else 0) < p.maxFailures
    ensures Tame(Step(p, true, s, c).0, u, k + (if Records(p, s, c, u, true) then 1 else 0))
    ensures c.event == Admit(Some(u)) && Step(p, true, s, c).1.RateLimited? ==> s.occupied == p.Capacity()
    ensures Through(s, c, u) && c.event.ask.Recheck? ==> !Step(p, true, s, c).1.RateLimited?
  {
  }

  lemma {:induction false} RunTame(p: Policy, s: State, calls: seq<Call>, u: string, k: nat)
    requires Tame(s, u, k) && k + WrongCount(p, s, calls, u) < p.maxFailures
    ensures Unhindered(p, s, calls, u)
    decreases |calls|
  {
    if calls != [] {
      StepTame(p, s, calls[0], u, k);
      RunTame(p, Step(p, true, s, calls[0]).0, calls[1..], u, k + (if Records(p, s, calls[0], u, true) then 1 else 0));
    }
  }

  /**
   Lockouts are earned: a user for whom fewer than the allowed wrong passwords are recorded, from the
   start or since a success `c`, is never refused for a lockout.
   */
  lemma LockoutsAreEarned(p: Policy, history: seq<Call>, c: Call, calls: seq<Call>, u: string)
    requires p.Valid()
    ensures WrongCount(p, INITIAL, calls, u) < p.maxFailures ==> Unhindered(p, INITIAL, calls, u)
    ensures var s := Run(p, true, INITIAL, history); var next := Step(p, true, s, c).0;
            Records(p, s, c, u, false) && WrongCount(p, next, calls, u) < p.maxFailures ==>
              Unhindered(p, next, calls, u)
  {
    if WrongCount(p, INITIAL, calls, u) < p.maxFailures {
      RunTame(p, INITIAL, calls, u, 0);
    }
    var s := Run(p, true, INITIAL, history);
    SuccessTames(p, s, c, u);
    if Records(p, s, c, u, false) && WrongCount(p, Step(p, true, s, c).0, calls, u) < p.maxFailures {
      RunTame(p, Step(p, true, s, c).0, calls, u, 0);
    }
  }

  lemma SuccessTames(p: Policy, s: State, c: Call, u: string)
    ensures Records(p, s, c, u, false) ==> Tame(Step(p, true, s, c).0, u, 0)
  {
  }

  /** How many of the times are `a` or later. */
  function CountFrom(times: seq<int>, a: int): nat {
    if times == [] then 0
    else CountFrom(times[..|times| - 1], a) + (if a <= times[|times| - 1] then 1 else 0)
  }

  lemma {:induction false} CountFromShrinks(times: seq<int>, a: int, b: int)
    requires a <= b
    ensures CountFrom(times, b) <= CountFrom(times, a)
    decreases |times|
  {
    if times != [] {
      CountFromShrinks(times[..|times| - 1], a, b);
    }
  }

  /**
   Wrong passwords for `u`, recorded at the times `past` and then in the run, never come to the allowed number
   within one window: counting back from each, less than a window, there are fewer.
   */
  predicate Sparse(p: Policy, s: State, calls: seq<Call>, u: string, past: seq<int>)
    decreases |calls|
  {
    calls != [] ==>
      var c := calls[0];
      var times := if Records(p, s, c, u, true) then past + [c.now] else past;
      && (Records(p, s, c, u, true) ==> CountFrom(times, c.now - p.window + 1) < p.maxFailures)
      && Sparse(p, Step(p, true, s, c).0, calls[1..], u, times)
  }

  /** `u` is not blocked, and every failure counted lies in its window. */
  predicate Paced(s: State, u: string, past: seq<int>) {
    u in s.attempts ==>
      && s.attempts[u].blockedUntil.None?
      && s.attempts[u].failures <= CountFrom(past, s.attempts[u].windowStart)
  }

  /** The failure counted now is counted with those of less than a window before. */
  lemma FailurePaced(p: Policy, e: Attempt, past: seq<int>, now: int)
    requires p.Valid() && e.windowStart <= now && e.blockedUntil.None? && e.failures <= CountFrom(past, e.windowStart)
    requires CountFrom(past + [now], now - p.window + 1) < p.maxFailures
    ensures var f := Failed(p, e, now); f.blockedUntil.None? && f.failures <= CountFrom(past + [now], f.windowStart)
  {
    var r, times := Refresh(e, now, p.window), past + [now];
    assert times[..|times| - 1] == past;
    CountFromShrinks(times, now - p.window + 1, r.windowStart);
  }

  /** Any step that records no wrong password for `u` keeps what is counted, or counts less. */
  lemma OtherwisePaced(p: Policy, s: State, c: Call, u: string, past: seq<int>)
    requires Paced(s, u, past) && !Records(p, s, c, u, true)
    ensures Paced(Step(p, true, s, c).0, u, past)
  {
  }

  lemma WrongPaced(p: Policy, s: State, c: Call, t: int, u: string, past: seq<int>)
    requires p.Valid() && Conserved(p, s, t) && t <= c.now && Paced(s, u, past) && Records(p, s, c, u, true)
    requires CountFrom(past + [c.now], c.now - p.window + 1) < p.maxFailures
    ensures Paced(Step(p, true, s, c).0, u, past + [c.now])
  {
    assert u in s.attempts && WellTimed(p, s.attempts[u], t);
    FailurePaced(p, s.attempts[u], past, c.now);
    assert Step(p, true, s, c).0.attempts == s.attempts[u := Failed(p, s.attempts[u], c.now)];
  }

  /** Who is not blocked is not refused for a lockout. */
  lemma PacedIsUnhindered(p: Policy, s: State, c: Call, u: string, past: seq<int>)
    requires Paced(s, u, past)
    ensures c.event == Admit(Some(u)) && Step(p, true, s, c).1.RateLimited? ==> s.occupied == p.Capacity()
    ensures Through(s, c, u) && c.event.ask.Recheck? ==> !Step(p, true, s, c).1.RateLimited?
  {
  }

  lemma {:induction false} RunPaced(p: Policy, s: State, calls: seq<Call>, t: int, u: string, past: seq<int>)
    requires p.Valid() && Conserved(p, s, t) && Ordered(t, calls) && Paced(s, u, past) && Sparse(p, s, calls, u, past)
    ensures Unhindered(p, s, calls, u)
    decreases |calls|
  {
    if calls != [] {
      var c := calls[0];
      PacedIsUnhindered(p, s, c, u, past);
      StepConserves(p, true, s, c, t);
      if Records(p, s, c, u, true) {
        WrongPaced(p, s, c, t, u, past);
        RunPaced(p, Step(p, true, s, c).0, calls[1..], c.now, u, past + [c.now]);
      } else {
        OtherwisePaced(p, s, c, u, past);
        RunPaced(p, Step(p, true, s, c).0, calls[1..], c.now, u, past);
      }
    }
  }

  /**
   Lockouts are earned within one window: in every ordered run from a new limiter, a user whose wrong passwords
   never come to the allowed number in less than a window is never refused for a lockout, however many they are.
   */
  lemma LockoutsAreEarnedInAWindow(p: Policy, calls: seq<Call>, t: int, u: string)
    requires p.Valid() && Ordered(t, calls) && Sparse(p, INITIAL, calls, u, [])
    ensures Unhindered(p, INITIAL, calls, u)
  {
    RunPaced(p, INITIAL, calls, t, u, []);
  }

  // ---------------------------------------------------------------- who is admitted

  /** The limiter still has to know `v`: a lease is live, a lockout pending, or window and lockout are not over. */
  ghost predicate Remembered(p: Policy, s: State, v: string, now: int) {
    v in s.attempts
    && (Holders(s.live, v) != {} || Pending(s.attempts[v].blockedUntil, now)
        || now <= s.attempts[v].lastSeen + p.window + p.lockout)
  }

  ghost function RememberedUsers(p: Policy, s: State, now: int): set<string> {
    set v | v in s.attempts && Remembered(p, s, v, now)
  }

  lemma RetainedAreRemembered(p: Policy, s: State, t: int, now: int)
    requires Conserved(p, s, t) && t <= now
    ensures Retained(p, s.attempts, now).Keys == RememberedUsers(p, s, now)
    ensures |Retained(p, s.attempts, now)| == |RememberedUsers(p, s, now)| <= |s.attempts|
  {
    forall v | v in s.attempts ensures v in Retained(p, s.attempts, now) <==> Remembered(p, s, v, now) {
      assert s.attempts[v].active == |Holders(s.live, v)|;
    }
    MapSubsetSize(Retained(p, s.attempts, now), s.attempts);
  }

  /**
   Who is admitted: before the deadline, while open, if fewer leases are live than the capacity allows and the
   user is neither locked out nor a stranger while 4096 others have to be remembered; and what the others are told.
   */
  lemma AdmissionMeans(p: Policy, s: State, t: int, u: string, now: int, original: int)
    requires p.Valid() && Conserved(p, s, t) && |s.attempts| <= TRACKED_USERNAMES && t <= now
    ensures var answer := Step(p, true, s, Call(Admit(Some(u)), now, original)).1;
            var heard := now < original && !s.closed && |s.live| < p.Capacity();
            var locked := u in s.attempts && Pending(s.attempts[u].blockedUntil, now);
            var strange := !Remembered(p, s, u, now) && |RememberedUsers(p, s, now)| == TRACKED_USERNAMES;
            && (answer == Granted(s.issued, |s.live| + 1) <==> heard && !locked && !strange)
            && (answer == Capacity <==> heard && strange)
            && (heard && locked ==> answer == RateLimited(s.attempts[u].blockedUntil.value - now))
            && (answer == Deadline <==> original <= now)
            && (answer == Closed <==> now < original && s.closed)
            && (now < original && !s.closed && |s.live| == p.Capacity() ==> answer == RateLimited(SECOND))
  {
    RetainedAreRemembered(p, s, t, now);
  }

  /** Work that names nobody needs a slot only. */
  lemma AnonymousAdmissionMeans(p: Policy, s: State, t: int, now: int, original: int)
    requires Conserved(p, s, t)
    ensures var (next, answer) := Step(p, true, s, Call(Admit(None), now, original));
            && (answer == Granted(s.issued, |s.live| + 1) <==> now < original && !s.closed && |s.live| < p.Capacity())
            && next.attempts == s.attempts
  {
  }

  // ---------------------------------------------------------------- closing and deadlines

  /** Nothing is admitted, rechecked or recorded; leases may only be released. */
  predicate Silent(p: Policy, s: State, calls: seq<Call>)
    decreases |calls|
  {
    calls != [] ==>
      var (next, answer) := Step(p, true, s, calls[0]);
      && (calls[0].event.Admit? || calls[0].event.Use? ==>
            next == s && (answer == Deadline || answer == Closed || answer == NoLease))
      && Silent(p, next, calls[1..])
  }

  /** Closing is final: afterwards every admission, recheck and record is refused and changes nothing. */
  lemma {:induction false} CloseIsFinal(p: Policy, s: State, calls: seq<Call>)
    requires s.closed
    ensures Silent(p, s, calls) && Run(p, true, s, calls).closed
    decreases |calls|
  {
    if calls != [] {
      CloseIsFinal(p, Step(p, true, s, calls[0]).0, calls[1..]);
    }
  }

  /** From its deadline on a call changes nothing and learns only that. */
  lemma DeadlineIsFinal(p: Policy, s: State, c: Call)
    requires c.original <= c.now && (c.event.Admit? || c.event.Use?)
    ensures Step(p, true, s, c).0 == s
    ensures Step(p, true, s, c).1 == Deadline || (c.event.Use? && c.event.lease !in s.live)
  {
  }

  // ---------------------------------------------------------------- the shared owner

  datatype Lease = Lease(id: LeaseId, username: Option<string>)

  /** The state behind the mutex. Each method is one critical section reading the clock as `now`. */
  class LocalPasswordAdmission {
    const policy: Policy
    var closed: bool
    var occupied: nat
    var attempts: map<string, Attempt>
    var issued: nat
    ghost var live: map<LeaseId, Option<string>>
    ghost var clock: int

    ghost function Model(): State
      reads this
    {
      State(closed, occupied, attempts, live, issued)
    }

    ghost predicate Valid()
      reads this
    {
      policy.Valid() && Conserved(policy, Model(), clock) && |attempts| <= TRACKED_USERNAMES
    }

    ghost predicate Owns(lease: Lease)
      reads this
    {
      lease.id in live && live[lease.id] == lease.username
    }

    constructor (policy: Policy, ghost now: int)
      requires policy.Valid()
      ensures Valid() && this.policy == policy && Model() == INITIAL && clock == now
    {
      this.policy := policy;
      closed, occupied, attempts, issued := false, 0, map[], 0;
      live, clock := map[], now;
    }

    method Shut(now: int)
      requires Valid() && clock <= now
      modifies this
      ensures Valid() && clock == now
      ensures Model() == Step(policy, true, old(Model()), Call(Close, now, now)).0
    {
      StepConserves(policy, true, Model(), Call(Close, now, now), clock);
      clock := now;
      closed := true;
    }

    method Admit(username: Option<string>, now: int, original: int) returns (answer: Answer)
      requires Valid() && clock <= now
      modifies this
      ensures Valid() && clock == now
      ensures (Model(), answer) == Step(policy, true, old(Model()), Call(Event.Admit(username), now, original))
    {
      ghost var call := Call(Event.Admit(username), now, original);
      StepConserves(policy, true, Model(), call, clock);
      StepBounded(policy, Model(), call);
      answer := AdmitUnderLock(username, now, original);
      clock := now;
    }

    method AdmitUnderLock(username: Option<string>, now: int, original: int) returns (answer: Answer)
      modifies this`attempts, this`occupied, this`issued, this`live
      ensures (Model(), answer) == Step(policy, true, old(Model()), Call(Event.Admit(username), now, original))
    {
      if now >= original { return Deadline; }
      if closed { return Closed; }
      if occupied == policy.Capacity() { return RateLimited(SECOND); }
      if username.Some? {
        var u := username.value;
        attempts := Retained(policy, attempts, now);
        if u !in attempts && |attempts| == TRACKED_USERNAMES { return Capacity; }
        var entry := if u in attempts then attempts[u] else Fresh(now);
        if Pending(entry.blockedUntil, now) { return RateLimited(entry.blockedUntil.value - now); }
        entry := Refresh(entry, now, policy.window);
        entry := entry.(active := entry.active + 1);
        entry := entry.(lastSeen := now);
        attempts := attempts[u := entry];
      }
      occupied := occupied + 1;
      live := live[issued := username];
      issued := issued + 1;
      return Granted(issued - 1, occupied);
    }

    method RecheckAttempt(lease: Lease, now: int, original: int) returns (answer: Answer)
      requires Valid() && clock <= now && Owns(lease)
      modifies this`clock
      ensures Valid() && clock == now
      ensures (Model(), answer) == Step(policy, true, old(Model()), Call(Use(lease.id, Recheck), now, original))
    {
      StepConserves(policy, true, Model(), Call(Use(lease.id, Recheck), now, original), clock);
      clock := now;
      if now >= original { return Deadline; }
      if closed { return Closed; }
      if lease.username.Some? && lease.username.value in attempts {
        var until := attempts[lease.username.value].blockedUntil;
        if Pending(until, now) { return RateLimited(until.value - now); }
      }
      return Done;
    }

    method RecordIncorrect(lease: Lease, now: int, original: int) returns (answer: Answer)
      requires Valid() && clock <= now && Owns(lease)
      modifies this`clock, this`attempts
      ensures Valid() && clock == now
      ensures (Model(), answer) == Step(policy, true, old(Model()), Call(Use(lease.id, Incorrect), now, original))
    {
      ghost var call := Call(Use(lease.id, Incorrect), now, original);
      StepConserves(policy, true, Model(), call, clock);
      StepBounded(policy, Model(), call);
      clock := now;
      if now >= original { return Deadline; }
      if closed { return Closed; }
      if lease.username.None? || lease.username.value !in attempts { return Configuration; }
      CountFailure(lease.username.value, now);
      return Done;
    }

    method CountFailure(username: string, now: int)
      requires username in attempts
      modifies this`attempts
      ensures attempts == old(attempts)[username := Failed(policy, old(attempts)[username], now)]
    {
      var entry := Refresh(attempts[username], now, policy.window);
      if entry.failures < USIZE_MAX { entry := entry.(failures := entry.failures + 1); }
      entry := entry.(lastSeen := now);
      if entry.failures >= policy.maxFailures { entry := entry.(blockedUntil := Some(now + policy.lockout)); }
      attempts := attempts[username := entry];
    }

    method RecordSucceeded(lease: Lease, verified: string, now: int, original: int) returns (answer: Answer)
      requires Valid() && clock <= now && Owns(lease)
      modifies this`clock, this`attempts
      ensures Valid() && clock == now
      ensures (Model(), answer) == Step(policy, true, old(Model()),
          Call(Use(lease.id, Succeeded(verified)), now, original))
    {
      ghost var call := Call(Use(lease.id, Succeeded(verified)), now, original);
      StepConserves(policy, true, Model(), call, clock);
      StepBounded(policy, Model(), call);
      clock := now;
      if now >= original { return Deadline; }
      if closed { return Closed; }
      if lease.username != Some(verified) || verified !in attempts { return Configuration; }
      var entry := attempts[verified];
      entry := entry.(failures := 0, blockedUntil := None);
      entry := entry.(windowStart := now, lastSeen := now);
      attempts := attempts[verified := entry];
      return Done;
    }

    /** `Drop` for the lease: both decrements stay at or above zero. */
    method Drop(lease: Lease, now: int)
      requires Valid() && clock <= now && Owns(lease)
      modifies this
      ensures Valid() && clock == now
      ensures Model() == Step(policy, true, old(Model()), Call(Release(lease.id), now, now)).0
    {
      ghost var call := Call(Release(lease.id), now, now);
      ReleaseConserves(policy, Model(), lease.id, clock);
      StepConserves(policy, true, Model(), call, clock);
      StepBounded(policy, Model(), call);
      DropUnderLock(lease);
      clock := now;
    }

    method DropUnderLock(lease: Lease)
      requires Owns(lease) && 1 <= occupied
      requires lease.username.Some? && lease.username.value in attempts ==> 1 <= attempts[lease.username.value].active
      modifies this`attempts, this`occupied, this`live
      ensures Model() == Released(old(Model()), lease.id)
    {
      occupied := occupied - 1;
      live := live - {lease.id};
      if lease.username.Some? && lease.username.value in attempts {
        var entry := attempts[lease.username.value];
        assert 1 <= entry.active;
        entry := entry.(active := entry.active - 1);
        if entry.active == 0 && entry.failures == 0 && entry.blockedUntil.None? {
          attempts := attempts - {lease.username.value};
        } else {
          attempts := attempts[lease.username.value := entry];
        }
      }
    }
  }
}
