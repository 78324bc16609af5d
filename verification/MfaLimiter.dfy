/**
 The MFA attempt limiter: one guard in flight per subject, a purge only when the table is
 full, and removal of the entry on success.

 Admissions and failures read the clock before they take the mutex, so critical sections may run with
 reads that lag behind reads already used; success and drop read no clock. `guards` names the guards
 that still exist and `newest` the newest read used so far; both are bookkeeping of the model.
 */
module MfaLimiter {
  import opened Common

  const U32_MAX: nat := 0xFFFF_FFFF

  datatype Policy = Policy(maxFailures: nat, window: nat, lockout: nat, maxTracked: nat) {
    predicate Valid() {
      1 <= maxFailures <= U32_MAX && 0 < window && 0 < lockout && 1 <= maxTracked
    }

    /** The shorter of window and lockout. */
    function Span(): nat { if window < lockout then window else lockout }
  }

  datatype Entry = Entry(windowStart: int, failures: nat, blockUntil: Option<int>, lastSeen: int, inFlight: bool)

  type GuardId = nat

  /** A live guard; no clock read it still takes can be older than `since`. */
  datatype Guard = Guard(subject: string, failed: bool, since: int)

  datatype State = State(entries: map<string, Entry>, guards: map<GuardId, Guard>, issued: nat, newest: int)

  function Initial(start: int): State { State(map[], map[], 0, start) }

  datatype Call =
    | Admit(subject: string, now: int)
    | Failure(guard: GuardId, now: int)
    | Success(guard: GuardId)
    | Cancel(guard: GuardId)

  datatype Answer = Granted(guard: GuardId) | Done | Busy | RateLimited(wait: int) | Capacity | Unavailable | NoGuard

  predicate Stale(p: Policy, e: Entry, now: int) {
    && !e.inFlight
    && !Pending(e.blockUntil, now)
    && Since(now, e.lastSeen) > p.window + p.lockout
  }

  function Retained(p: Policy, entries: map<string, Entry>, now: int): map<string, Entry> {
    map u | u in entries && !Stale(p, entries[u], now) :: entries[u]
  }

  /** The table after making room for `subject`: purged only when it is full and the subject is unknown. */
  function Roomy(p: Policy, entries: map<string, Entry>, subject: string, now: int): map<string, Entry> {
    if subject !in entries && |entries| >= p.maxTracked then Retained(p, entries, now) else entries
  }

  function Fresh(now: int): Entry { Entry(now, 0, None, now, false) }

  function EntryOf(s: State, u: string, now: int): Entry { if u in s.entries then s.entries[u] else Fresh(now) }

  /** A new guard for `u`, whose entry is created if need be. */
  function Granting(s: State, u: string, now: int): State {
    State(s.entries[u := EntryOf(s, u, now).(inFlight := true, lastSeen := now)],
          s.guards[s.issued := Guard(u, false, s.newest)],
          s.issued + 1,
          s.newest)
  }

  /** Admission; `purging` selects the source's bounded, purging table. */
  function Admitted(p: Policy, purging: bool, s: State, u: string, now: int): (State, Answer) {
    var entries := if purging then Roomy(p, s.entries, u, now) else s.entries;
    var kept := s.(entries := entries, newest := Newer(s.newest, now));
    if purging && u !in kept.entries && |kept.entries| >= p.maxTracked then (kept, Capacity)
    else
      var e := EntryOf(kept, u, now);
      if e.inFlight then (kept, Busy)
      else if Pending(e.blockUntil, now) then (kept, RateLimited(e.blockUntil.value - now))
      else (Granting(kept, u, now), Granted(s.issued))
  }

  /** The entry after one more wrong code. */
  function Failed(p: Policy, e: Entry, now: int): Entry {
    var restart := e.failures == 0 || Since(now, e.windowStart) >= p.window;
    var counted := if restart then 0 else e.failures;
    var failures := if counted < U32_MAX then counted + 1 else counted;
    e.(windowStart := if restart then now else e.windowStart,
       failures := failures,
       blockUntil := if failures >= p.maxFailures then Some(now + p.lockout) else e.blockUntil,
       lastSeen := now)
  }

  function Recorded(p: Policy, s: State, guard: GuardId, now: int): State
    requires guard in s.guards && s.guards[guard].subject in s.entries
  {
    var u := s.guards[guard].subject;
    State(s.entries[u := Failed(p, s.entries[u], now)], s.guards[guard := Guard(u, true, now)],
          s.issued, Newer(s.newest, now))
  }

  function Finished(s: State, guard: GuardId): State
    requires guard in s.guards
  {
    s.(entries := s.entries - {s.guards[guard].subject}, guards := s.guards - {guard})
  }

  function Cancelled(s: State, guard: GuardId): State
    requires guard in s.guards
  {
    var u := s.guards[guard].subject;
    s.(entries := if u !in s.entries then s.entries
                  else if s.entries[u].failures == 0 then s.entries - {u}
                  else s.entries[u := s.entries[u].(inFlight := false)],
       guards := s.guards - {guard})
  }

  /** One critical section. With `purging` false the table is unbounded and nothing is ever purged. */
  function Step(p: Policy, purging: bool, s: State, c: Call): (State, Answer) {
    match c
    case Admit(subject, now) => Admitted(p, purging, s, subject, now)
    case Failure(guard, now) =>
      if guard !in s.guards then (s, NoGuard)
      else if s.guards[guard].subject !in s.entries then (s, Unavailable)
      else (Recorded(p, s, guard, now), Done)
    case Success(guard) => if guard !in s.guards then (s, NoGuard) else (Finished(s, guard), Done)
    case Cancel(guard) => if guard !in s.guards then (s, NoGuard) else (Cancelled(s, guard), Done)
  }

  function Run(p: Policy, s: State, calls: seq<Call>): State
    decreases |calls|
  {
    if calls == [] then s else Run(p, Step(p, true, s, calls[0]).0, calls[1..])
  }

  // ---------------------------------------------------------------- guard exclusivity

  /** The subjects somebody is verifying right now. */
  ghost function Subjects(guards: map<GuardId, Guard>): set<string> {
    set g | g in guards :: guards[g].subject
  }

  /** An entry is in flight exactly while its subject is held, and an idle entry remembers a failure. */
  predicate EntryFits(e: Entry, held: bool) {
    e.inFlight == held && (!held ==> e.failures >= 1)
  }

  /** At most one live guard per subject. */
  ghost predicate OneEach(guards: map<GuardId, Guard>) {
    forall g, h | g in guards && h in guards && guards[g].subject == guards[h].subject :: g == h
  }

  /** What every reachable state satisfies, whatever the clock reads. */
  ghost predicate Exclusive(p: Policy, s: State) {
    && |s.entries| <= p.maxTracked
    && OneEach(s.guards)
    && (forall u | u in s.entries :: EntryFits(s.entries[u], u in Subjects(s.guards)))
    && (forall g | g in s.guards :: g < s.issued && s.guards[g].subject in s.entries)
  }

  lemma SubjectsSet(guards: map<GuardId, Guard>, g: GuardId, guard: Guard)
    requires OneEach(guards)
    requires if g in guards then guards[g].subject == guard.subject else guard.subject !in Subjects(guards)
    ensures OneEach(guards[g := guard])
    ensures Subjects(guards[g := guard]) == Subjects(guards) + {guard.subject}
  {
    var after := guards[g := guard];
    forall u | u in Subjects(guards)
      ensures u in Subjects(after)
    {
      var h :| h in guards && guards[h].subject == u;
      assert h in after && after[h].subject == u;
    }
    assert g in after && after[g].subject == guard.subject;
  }

  lemma SubjectsRemoved(guards: map<GuardId, Guard>, g: GuardId)
    requires OneEach(guards) && g in guards
    ensures OneEach(guards - {g})
    ensures Subjects(guards - {g}) == Subjects(guards) - {guards[g].subject}
  {
    var after := guards - {g};
    forall u | u in Subjects(guards) && u != guards[g].subject
      ensures u in Subjects(after)
    {
      var h :| h in guards && guards[h].subject == u;
      assert h in after && after[h].subject == u;
    }
  }

  /** A purge never removes an in-flight or blocked entry. */
  lemma PurgeSpares(p: Policy, s: State, u: string, now: int)
    requires Exclusive(p, s) && u in s.entries
    requires u in Subjects(s.guards) || Pending(s.entries[u].blockUntil, now)
    ensures u in Retained(p, s.entries, now) && Retained(p, s.entries, now)[u] == s.entries[u]
  {
    assert EntryFits(s.entries[u], u in Subjects(s.guards));
  }

  lemma RoomyExclusive(p: Policy, s: State, subject: string, now: int)
    requires Exclusive(p, s)
    ensures Exclusive(p, s.(entries := Roomy(p, s.entries, subject, now), newest := Newer(s.newest, now)))
  {
    var entries := Roomy(p, s.entries, subject, now);
    MapSubsetSize(entries, s.entries);
    forall g | g in s.guards
      ensures s.guards[g].subject in entries
    {
      assert s.guards[g].subject in Subjects(s.guards);
      PurgeSpares(p, s, s.guards[g].subject, now);
    }
  }

  /** A new guard takes a subject that nobody holds. */
  lemma GrantExclusive(p: Policy, s: State, u: string, now: int)
    requires Exclusive(p, s) && !EntryOf(s, u, now).inFlight && (u in s.entries || |s.entries| < p.maxTracked)
    ensures u !in Subjects(s.guards) && Exclusive(p, Granting(s, u, now))
  {
    var e := EntryOf(s, u, now).(inFlight := true, lastSeen := now);
    if u in s.entries {
      assert s.entries[u := e].Keys == s.entries.Keys;
      assert |s.entries[u := e]| == |s.entries|;
    } else {
      MapAddSize(s.entries, u, e);
    }
    assert u in Subjects(s.guards) ==> u in s.entries;
    SubjectsSet(s.guards, s.issued, Guard(u, false, s.newest));
  }

  lemma AdmitExclusive(p: Policy, s: State, u: string, now: int)
    requires Exclusive(p, s)
    ensures Exclusive(p, Admitted(p, true, s, u, now).0)
  {
    RoomyExclusive(p, s, u, now);
    if Admitted(p, true, s, u, now).1.Granted? {
      GrantExclusive(p, s.(entries := Roomy(p, s.entries, u, now), newest := Newer(s.newest, now)), u, now);
    }
  }

  lemma FailureExclusive(p: Policy, s: State, guard: GuardId, now: int)
    requires Exclusive(p, s) && guard in s.guards
    ensures Exclusive(p, Recorded(p, s, guard, now))
  {
    var next := Recorded(p, s, guard, now);
    var u := s.guards[guard].subject;
    assert u in Subjects(s.guards);
    assert next.entries.Keys == s.entries.Keys;
    assert |next.entries| == |s.entries|;
    SubjectsSet(s.guards, guard, Guard(u, true, now));
    assert Subjects(next.guards) == Subjects(s.guards);
  }

  /** Removing a guard and its entry frees its subject and nobody else's. */
  lemma FinishExclusive(p: Policy, s: State, guard: GuardId)
    requires Exclusive(p, s) && guard in s.guards
    ensures Exclusive(p, Finished(s, guard))
            && Subjects(Finished(s, guard).guards) == Subjects(s.guards) - {s.guards[guard].subject}
  {
    var freed := s.guards[guard].subject;
    MapSubsetSize(s.entries - {freed}, s.entries);
    SubjectsRemoved(s.guards, guard);
    forall g | g in s.guards - {guard} ensures s.guards[g].subject != freed {
      assert g in s.guards;
    }
  }

  /** An idle entry can be put back for a free subject. */
  lemma IdleExclusive(p: Policy, s: State, u: string, e: Entry)
    requires Exclusive(p, s) && u !in s.entries && u !in Subjects(s.guards) && |s.entries| < p.maxTracked
    requires EntryFits(e, false)
    ensures Exclusive(p, s.(entries := s.entries[u := e]))
  {
    MapAddSize(s.entries, u, e);
  }

  /** Dropping a guard without success frees its subject, and forgets it exactly if it never failed. */
  lemma CancelExclusive(p: Policy, s: State, guard: GuardId)
    requires Exclusive(p, s) && guard in s.guards
    ensures Exclusive(p, Cancelled(s, guard))
    ensures var u, next := s.guards[guard].subject, Cancelled(s, guard);
            && Subjects(next.guards) == Subjects(s.guards) - {u}
            && (u in next.entries <==> s.entries[u].failures > 0)
            && (u in next.entries ==> next.entries[u] == s.entries[u].(inFlight := false))
            && next.entries - {u} == s.entries - {u}
  {
    var freed, free := s.guards[guard].subject, Finished(s, guard);
    assert freed in Subjects(s.guards);
    FinishExclusive(p, s, guard);
    MapRemoveSize(s.entries, freed);
    if s.entries[freed].failures != 0 {
      var idle := s.entries[freed].(inFlight := false);
      IdleExclusive(p, free, freed, idle);
      assert free.entries[freed := idle] == s.entries[freed := idle];
      assert s.entries[freed := idle] - {freed} == s.entries - {freed};
    }
  }

  lemma StepExclusive(p: Policy, s: State, c: Call)
    requires Exclusive(p, s)
    ensures Exclusive(p, Step(p, true, s, c).0)
  {
    match c
    case Admit(subject, now) => AdmitExclusive(p, s, subject, now);
    case Failure(guard, now) =>
      if guard in s.guards {
        FailureExclusive(p, s, guard, now);
      }
    case Success(guard) =>
      if guard in s.guards {
        FinishExclusive(p, s, guard);
      }
    case Cancel(guard) =>
      if guard in s.guards {
        CancelExclusive(p, s, guard);
      }
  }

  /** Guard exclusivity over every run. */
  lemma {:induction false} RunExclusive(p: Policy, s: State, calls: seq<Call>)
    requires Exclusive(p, s)
    ensures Exclusive(p, Run(p, s, calls))
    decreases |calls|
  {
    if calls != [] {
      StepExclusive(p, s, calls[0]);
      RunExclusive(p, Step(p, true, s, calls[0]).0, calls[1..]);
    }
  }

  /**
   From a new limiter, whatever calls are made and whatever their clock reads: a subject is in flight
   exactly while one guard for it lives, an idle entry remembers a failure, and the table keeps its limit.
   */
  lemma GuardsAreExclusive(p: Policy, calls: seq<Call>, start: int, u: string)
    ensures var s := Run(p, Initial(start), calls);
            && |s.entries| <= p.maxTracked
            && (u in s.entries && s.entries[u].inFlight <==> exists g :: g in s.guards && s.guards[g].subject == u)
            && (forall g, h | g in s.guards && h in s.guards && s.guards[g].subject == u == s.guards[h].subject ::
                  g == h)
            && (u in s.entries && !s.entries[u].inFlight ==> s.entries[u].failures >= 1)
  {
    RunExclusive(p, Initial(start), calls);
    var s := Run(p, Initial(start), calls);
    assert u in Subjects(s.guards) <==> exists g :: g in s.guards && s.guards[g].subject == u;
  }

  // ---------------------------------------------------------------- who is admitted

  /** The limiter still has to know `v`: it is in flight, blocked, or window and lockout are not over. */
  ghost predicate Remembered(p: Policy, s: State, v: string, now: int) {
    v in s.entries
    && (v in Subjects(s.guards) || Pending(s.entries[v].blockUntil, now)
        || now <= s.entries[v].lastSeen + p.window + p.lockout)
  }

  ghost predicate Blocked(s: State, u: string, now: int) { u in s.entries && Pending(s.entries[u].blockUntil, now) }

  /** A full table admits a stranger only if it holds somebody who need not be remembered. */
  ghost predicate Crowded(p: Policy, s: State, u: string, now: int) {
    u !in s.entries && |s.entries| == p.maxTracked && forall v | v in s.entries :: Remembered(p, s, v, now)
  }

  lemma RoomyMeans(p: Policy, s: State, u: string, now: int)
    requires Exclusive(p, s)
    ensures u in Roomy(p, s.entries, u, now) <==> u in s.entries
    ensures u !in s.entries ==> (|Roomy(p, s.entries, u, now)| >= p.maxTracked <==> Crowded(p, s, u, now))
  {
    forall v | v in s.entries ensures Stale(p, s.entries[v], now) <==> !Remembered(p, s, v, now) {
      assert EntryFits(s.entries[v], v in Subjects(s.guards));
    }
    var kept := Retained(p, s.entries, now);
    MapSubsetSize(kept, s.entries);
    if v :| v in s.entries && !Remembered(p, s, v, now) {
      MapSubsetSize(kept, s.entries - {v});
      MapRemoveSize(s.entries, v);
    } else {
      assert kept == s.entries;
    }
  }

  /** Who is admitted, and what the others are told. */
  lemma AdmissionMeans(p: Policy, s: State, u: string, now: int)
    requires p.Valid() && Exclusive(p, s)
    ensures var (next, answer) := Step(p, true, s, Admit(u, now));
            var held := u in Subjects(s.guards);
            && (answer == Capacity <==> Crowded(p, s, u, now))
            && (answer == Busy <==> held)
            && (!held && Blocked(s, u, now) ==> answer == RateLimited(s.entries[u].blockUntil.value - now))
            && (answer == Granted(s.issued) <==> !held && !Blocked(s, u, now) && !Crowded(p, s, u, now))
            && (answer == Granted(s.issued) ==> u in Subjects(next.guards))
            && (answer != Granted(s.issued) ==> next.guards == s.guards)
  {
    RoomyMeans(p, s, u, now);
    if u in s.entries {
      assert EntryFits(s.entries[u], u in Subjects(s.guards));
    }
    assert u in Subjects(s.guards) ==> u in s.entries;
    var (next, answer) := Step(p, true, s, Admit(u, now));
    if answer == Granted(s.issued) {
      assert s.issued in next.guards && next.guards[s.issued].subject == u;
    }
  }

  // ---------------------------------------------------------------- lockouts are earned

  predicate RecordsFailure(s: State, c: Call, u: string) {
    c.Failure? && c.guard in s.guards && s.guards[c.guard].subject == u
  }

  function FailureCount(p: Policy, s: State, calls: seq<Call>, u: string): nat
    decreases |calls|
  {
    if calls == [] then 0
    else
      var first := if RecordsFailure(s, calls[0], u) then 1 else 0;
      first + FailureCount(p, Step(p, true, s, calls[0]).0, calls[1..], u)
  }

  /** No admission of `u` is refused for a lockout. */
  predicate Unhindered(p: Policy, s: State, calls: seq<Call>, u: string)
    decreases |calls|
  {
    calls != [] ==>
      var (next, answer) := Step(p, true, s, calls[0]);
      (calls[0].Admit? && calls[0].subject == u ==> !answer.RateLimited?) && Unhindered(p, next, calls[1..], u)
  }

  /** `u` is not blocked and has at most `k` failures. */
  predicate Tame(s: State, u: string, k: nat) {
    u in s.entries ==> s.entries[u].failures <= k && s.entries[u].blockUntil.None?
  }

  lemma StepTame(p: Policy, s: State, c: Call, u: string, k: nat)
    requires Tame(s, u, k) && k + (if RecordsFailure(s, c, u) then 1 else 0) < p.maxFailures
    ensures Tame(Step(p, true, s, c).0, u, k + (if RecordsFailure(s, c, u) then 1 else 0))
    ensures c.Admit? && c.subject == u ==> !Step(p, true, s, c).1.RateLimited?
  {
  }

  lemma {:induction false} RunTame(p: Policy, s: State, calls: seq<Call>, u: string, k: nat)
    requires Tame(s, u, k) && k + FailureCount(p, s, calls, u) < p.maxFailures
    ensures Unhindered(p, s, calls, u)
    decreases |calls|
  {
    if calls != [] {
      StepTame(p, s, calls[0], u, k);
      RunTame(p, Step(p, true, s, calls[0]).0, calls[1..], u, k + (if RecordsFailure(s, calls[0], u) then 1 else 0));
    }
  }

  /**
   Lockouts are earned: a subject for which fewer than the allowed failures are recorded, from the start or
   since a success with `guard`, is never refused for a lockout, whatever the clock reads.
   */
  lemma LockoutsAreEarned(p: Policy, start: int, history: seq<Call>, guard: GuardId, calls: seq<Call>, u: string)
    requires p.Valid()
    ensures FailureCount(p, Initial(start), calls, u) < p.maxFailures ==> Unhindered(p, Initial(start), calls, u)
    ensures var s := Run(p, Initial(start), history); var next := Step(p, true, s, Success(guard)).0;
            guard in s.guards && s.guards[guard].subject == u && FailureCount(p, next, calls, u) < p.maxFailures ==>
              Unhindered(p, next, calls, u)
  {
    if FailureCount(p, Initial(start), calls, u) < p.maxFailures {
      RunTame(p, Initial(start), calls, u, 0);
    }
    var s := Run(p, Initial(start), history);
    var next := Step(p, true, s, Success(guard)).0;
    if guard in s.guards && s.guards[guard].subject == u && FailureCount(p, next, calls, u) < p.maxFailures {
      RunTame(p, next, calls, u, 0);
    }
  }

  // ---------------------------------------------------------------- clock reads

  /**
   How late a read may be: an admission lags the newest read used by at most `lag`, and a failure is
   read after its guard was granted.
   */
  predicate Timely(lag: nat, s: State, c: Call) {
    && (c.Admit? ==> s.newest - lag <= c.now)
    && (c.Failure? && c.guard in s.guards ==> s.guards[c.guard].since <= c.now)
  }

  predicate TimelyRun(p: Policy, lag: nat, s: State, calls: seq<Call>)
    decreases |calls|
  {
    calls != [] ==> Timely(lag, s, calls[0]) && TimelyRun(p, lag, Step(p, true, s, calls[0]).0, calls[1..])
  }

  /** What one entry's times say when the newest read is `t`. */
  predicate WellTimed(p: Policy, lag: nat, e: Entry, t: int) {
    && e.windowStart <= t && e.windowStart <= e.lastSeen + lag
    && (e.failures == 0 ==> e.blockUntil.None?)
    && (e.failures >= p.maxFailures ==> e.blockUntil.Some? && e.windowStart + p.lockout <= e.blockUntil.value)
    && (e.blockUntil.Some? ==> e.blockUntil.value <= e.lastSeen + p.lockout)
  }

  /** A guard is younger than its window, and one that has not failed was admitted past any lockout. */
  predicate GuardTimed(g: Guard, e: Entry, t: int) {
    && e.windowStart <= g.since <= t && e.lastSeen <= g.since
    && (!g.failed ==> !Pending(e.blockUntil, g.since))
  }

  ghost predicate Timed(p: Policy, lag: nat, s: State) {
    && (forall u | u in s.entries :: WellTimed(p, lag, s.entries[u], s.newest))
    && (forall g | g in s.guards ::
          s.guards[g].subject in s.entries && GuardTimed(s.guards[g], s.entries[s.guards[g].subject], s.newest))
  }

  lemma RoomyTimed(p: Policy, lag: nat, s: State, subject: string, now: int)
    requires Exclusive(p, s) && Timed(p, lag, s)
    ensures Timed(p, lag, s.(entries := Roomy(p, s.entries, subject, now), newest := Newer(s.newest, now)))
  {
    forall g | g in s.guards
      ensures s.guards[g].subject in Roomy(p, s.entries, subject, now)
    {
      assert s.guards[g].subject in Subjects(s.guards);
      PurgeSpares(p, s, s.guards[g].subject, now);
    }
  }

  lemma GrantTimed(p: Policy, lag: nat, s: State, u: string, now: int)
    requires p.Valid() && Timed(p, lag, s) && u !in Subjects(s.guards) && s.newest - lag <= now <= s.newest
    requires !Pending(EntryOf(s, u, now).blockUntil, now)
    ensures Timed(p, lag, Granting(s, u, now))
  {
    forall g | g in s.guards ensures s.guards[g].subject != u {
      assert s.guards[g].subject in Subjects(s.guards);
    }
  }

  lemma AdmitTimed(p: Policy, lag: nat, s: State, u: string, now: int)
    requires p.Valid() && Exclusive(p, s) && Timed(p, lag, s) && s.newest - lag <= now
    ensures Timed(p, lag, Admitted(p, true, s, u, now).0)
  {
    RoomyTimed(p, lag, s, u, now);
    RoomyExclusive(p, s, u, now);
    if Admitted(p, true, s, u, now).1.Granted? {
      var kept := s.(entries := Roomy(p, s.entries, u, now), newest := Newer(s.newest, now));
      GrantExclusive(p, kept, u, now);
      GrantTimed(p, lag, kept, u, now);
    }
  }

  lemma FailureTimed(p: Policy, lag: nat, s: State, guard: GuardId, now: int)
    requires p.Valid() && Exclusive(p, s) && Timed(p, lag, s) && guard in s.guards && s.guards[guard].since <= now
    ensures Timed(p, lag, Recorded(p, s, guard, now))
  {
    var u := s.guards[guard].subject;
    assert GuardTimed(s.guards[guard], s.entries[u], s.newest);
    assert WellTimed(p, lag, Failed(p, s.entries[u], now), Newer(s.newest, now));
  }

  lemma LeaveTimed(p: Policy, lag: nat, s: State, guard: GuardId)
    requires Exclusive(p, s) && Timed(p, lag, s) && guard in s.guards
    ensures Timed(p, lag, Finished(s, guard)) && Timed(p, lag, Cancelled(s, guard))
  {
    forall g | g in s.guards && g != guard ensures s.guards[g].subject != s.guards[guard].subject {
    }
  }

  lemma StepTimed(p: Policy, lag: nat, s: State, c: Call)
    requires p.Valid() && Exclusive(p, s) && Timed(p, lag, s) && Timely(lag, s, c)
    ensures Timed(p, lag, Step(p, true, s, c).0)
  {
    match c
    case Admit(subject, now) => AdmitTimed(p, lag, s, subject, now);
    case Failure(guard, now) =>
      if guard in s.guards {
        FailureTimed(p, lag, s, guard, now);
      }
    case Success(guard) =>
      if guard in s.guards {
        LeaveTimed(p, lag, s, guard);
      }
    case Cancel(guard) =>
      if guard in s.guards {
        LeaveTimed(p, lag, s, guard);
      }
  }

  lemma {:induction false} RunTimed(p: Policy, lag: nat, s: State, calls: seq<Call>)
    requires p.Valid() && Exclusive(p, s) && Timed(p, lag, s) && TimelyRun(p, lag, s, calls)
    ensures Exclusive(p, Run(p, s, calls)) && Timed(p, lag, Run(p, s, calls))
    decreases |calls|
  {
    if calls != [] {
      StepExclusive(p, s, calls[0]);
      StepTimed(p, lag, s, calls[0]);
      RunTimed(p, lag, Step(p, true, s, calls[0]).0, calls[1..]);
    }
  }

  // ---------------------------------------------------------------- the shared owner

  /** The table behind the mutex; each method is one critical section with the read its caller took before it. */
  class LocalMfaAttemptLimiter {
    const policy: Policy
    var entries: map<string, Entry>
    var issued: nat
    ghost var guards: map<GuardId, Guard>
    ghost var newest: int

    ghost function Model(): State
      reads this
    {
      State(entries, guards, issued, newest)
    }

    ghost predicate Valid()
      reads this
    {
      policy.Valid() && Exclusive(policy, Model())
    }

    ghost predicate Owns(guard: GuardId, subject: string)
      reads this
    {
      guard in guards && guards[guard].subject == subject
    }

    constructor (policy: Policy, ghost start: int)
      requires policy.Valid()
      ensures Valid() && this.policy == policy && Model() == Initial(start)
    {
      this.policy := policy;
      entries, issued := map[], 0;
      guards, newest := map[], start;
    }

    method AdmitAt(subject: string, now: int) returns (answer: Answer)
      requires Valid()
      modifies this
      ensures Valid()
      ensures (Model(), answer) == Step(policy, true, old(Model()), Admit(subject, now))
    {
      StepExclusive(policy, Model(), Admit(subject, now));
      answer := AdmitUnderLock(subject, now);
    }

    method AdmitUnderLock(subject: string, now: int) returns (answer: Answer)
      modifies this
      ensures (Model(), answer) == Step(policy, true, old(Model()), Admit(subject, now))
    {
      newest := Newer(newest, now);
      var entry := Fresh(now);
      if subject !in entries {
        if |entries| >= policy.maxTracked {
          entries := Retained(policy, entries, now);
        }
        if |entries| >= policy.maxTracked { return Capacity; }
      } else {
        entry := entries[subject];
      }
      if entry.inFlight { return Busy; }
      if Pending(entry.blockUntil, now) { return RateLimited(entry.blockUntil.value - now); }
      entry := entry.(inFlight := true);
      entry := entry.(lastSeen := now);
      entries := entries[subject := entry];
      guards := guards[issued := Guard(subject, false, newest)];
      issued := issued + 1;
      return Granted(issued - 1);
    }

    method FailureAt(guard: GuardId, subject: string, now: int) returns (answer: Answer)
      requires Valid() && Owns(guard, subject)
      modifies this
      ensures Valid()
      ensures (Model(), answer) == Step(policy, true, old(Model()), Failure(guard, now))
    {
      StepExclusive(policy, Model(), Failure(guard, now));
      FailureUnderLock(guard, subject, now);
      return Done;
    }

    method FailureUnderLock(guard: GuardId, subject: string, now: int)
      requires Owns(guard, subject) && subject in entries
      modifies this
      ensures Model() == Recorded(policy, old(Model()), guard, now)
    {
      var entry := entries[subject];
      if entry.failures == 0 || Since(now, entry.windowStart) >= policy.window {
        entry := entry.(windowStart := now, failures := 0);
      }
      if entry.failures < U32_MAX { entry := entry.(failures := entry.failures + 1); }
      if entry.failures >= policy.maxFailures { entry := entry.(blockUntil := Some(now + policy.lockout)); }
      entry := entry.(lastSeen := now);
      entries := entries[subject := entry];
      guards := guards[guard := Guard(subject, true, now)];
      newest := Newer(newest, now);
    }

    method RecordSuccess(guard: GuardId, subject: string)
      requires Valid() && Owns(guard, subject)
      modifies this
      ensures Valid()
      ensures Model() == Step(policy, true, old(Model()), Success(guard)).0
    {
      StepExclusive(policy, Model(), Success(guard));
      entries := entries - {subject};
      guards := guards - {guard};
    }

    /** `Drop` of a guard that recorded no success. */
    method Drop(guard: GuardId, subject: string)
      requires Valid() && Owns(guard, subject)
      modifies this
      ensures Valid()
      ensures Model() == Step(policy, true, old(Model()), Cancel(guard)).0
    {
      StepExclusive(policy, Model(), Cancel(guard));
      DropUnderLock(guard, subject);
    }

    method DropUnderLock(guard: GuardId, subject: string)
      requires Owns(guard, subject) && subject in entries
      modifies this`entries, this`guards
      ensures Model() == Cancelled(old(Model()), guard)
    {
      if entries[subject].failures == 0 {
        entries := entries - {subject};
      } else {
        entries := entries[subject := entries[subject].(inFlight := false)];
      }
      guards := guards - {guard};
    }
  }
}
