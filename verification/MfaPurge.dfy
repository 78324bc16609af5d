/**
 The MFA limiter's purge cannot be observed: it answers as a limiter with an unbounded table that never
 forgets anything, once refusals for lack of room count as requests not made. A purged subject that is
 admitted and dropped again is unknown to one table and idle in the other, so the tables are compared by
 what they can still answer.
 */
module MfaPurge {
  import opened Common
  import opened MfaLimiter
  import opened MfaSituations

  function Answers(p: Policy, purging: bool, s: State, calls: seq<Call>): seq<Answer>
    decreases |calls|
  {
    if calls == [] then []
    else
      var (next, answer) := Step(p, purging, s, calls[0]);
      [answer] + Answers(p, purging, next, calls[1..])
  }

  /** The calls the purging limiter did not refuse for lack of room. */
  function Made(p: Policy, s: State, calls: seq<Call>): seq<Call>
    decreases |calls|
  {
    if calls == [] then []
    else
      var (next, answer) := Step(p, true, s, calls[0]);
      (if answer == Capacity then [] else [calls[0]]) + Made(p, next, calls[1..])
  }

  function WithoutCapacity(answers: seq<Answer>): seq<Answer> {
    if answers == [] then []
    else (if answers[0] == Capacity then [] else [answers[0]]) + WithoutCapacity(answers[1..])
  }

  // ---------------------------------------------------------------- when an entry no longer matters

  /** How far admissions may lag: window and one tick, and unless one failure locks also lockout and one tick. */
  predicate Harmless(p: Policy, lag: nat) { lag <= p.window + 1 && (p.maxFailures == 1 || lag <= p.lockout + 1) }

  /** The lockout is over for every admission still to come. */
  predicate Past(lag: nat, until: Option<int>, t: int) { until.Some? ==> until.value <= t - lag }

  predicate SameBlock(lag: nat, small: Option<int>, full: Option<int>, t: int) {
    small == full || (small.None? && Past(lag, full, t))
  }

  /** An entry that makes no difference any more: idle, its lockout past and its window over for later guards. */
  predicate Spent(p: Policy, lag: nat, e: Entry, t: int) {
    && !e.inFlight && e.failures >= 1 && Past(lag, e.blockUntil, t)
    && (p.maxFailures > 1 ==> e.windowStart + p.window <= t)
  }

  /** The window is over for every failure the guards of `u` can still record. */
  ghost predicate WindowOver(p: Policy, s: State, u: string, e: Entry) {
    forall g | g in s.guards && s.guards[g].subject == u ::
      p.maxFailures > 1 ==> e.windowStart + p.window <= s.guards[g].since
  }

  /** Equal counts in the same window; if one failure locks, having failed is all that counts. */
  predicate SameCount(p: Policy, small: Entry, full: Entry) {
    if p.maxFailures == 1 then small.failures > 0 <==> full.failures > 0
    else small.failures == full.failures && (full.failures > 0 ==> small.windowStart == full.windowStart)
  }

  /** Two entries of `u` that answer alike. */
  ghost predicate AlikeEntries(p: Policy, lag: nat, s: State, u: string, small: Entry, full: Entry) {
    && small.inFlight == full.inFlight && SameBlock(lag, small.blockUntil, full.blockUntil, s.newest)
    && if small.failures == 0 && full.failures > 0 then small.inFlight && WindowOver(p, s, u, full)
       else SameCount(p, small, full)
  }

  ghost predicate AlikeAt(p: Policy, lag: nat, s: State, full: State, u: string) {
    if u in s.entries then u in full.entries && AlikeEntries(p, lag, s, u, s.entries[u], full.entries[u])
    else u in full.entries ==> Spent(p, lag, full.entries[u], s.newest)
  }

  ghost predicate SameGuards(s: State, full: State) {
    && full.issued == s.issued && full.guards.Keys == s.guards.Keys
    && forall g | g in s.guards :: full.guards[g].subject == s.guards[g].subject
  }

  ghost predicate Alike(p: Policy, lag: nat, s: State, full: State) {
    SameGuards(s, full) && forall u :: AlikeAt(p, lag, s, full, u)
  }

  // ---------------------------------------------------------------- every call keeps the tables alike

  lemma PurgedIsSpent(p: Policy, lag: nat, e: Entry, t: int, now: int)
    requires p.Valid() && Harmless(p, lag) && WellTimed(p, lag, e, t) && EntryFits(e, false) && Stale(p, e, now)
    ensures Spent(p, lag, e, Newer(t, now))
  {
  }

  lemma RoomyAlike(p: Policy, lag: nat, s: State, full: State, v: string, now: int)
    requires p.Valid() && Exclusive(p, s) && Timed(p, lag, s) && Alike(p, lag, s, full) && Harmless(p, lag)
    ensures Alike(p, lag, s.(entries := Roomy(p, s.entries, v, now), newest := Newer(s.newest, now)), full)
  {
    var kept := s.(entries := Roomy(p, s.entries, v, now), newest := Newer(s.newest, now));
    forall u ensures AlikeAt(p, lag, kept, full, u) {
      assert AlikeAt(p, lag, s, full, u);
      if u in s.entries && u !in kept.entries {
        assert EntryFits(s.entries[u], u in Subjects(s.guards));
        PurgedIsSpent(p, lag, s.entries[u], s.newest, now);
      }
    }
  }

  lemma GrantAlike(p: Policy, lag: nat, s: State, full: State, u: string, now: int)
    requires Alike(p, lag, s, full) && u !in Subjects(s.guards) && !EntryOf(s, u, now).inFlight
    ensures Alike(p, lag, Granting(s, u, now), Granting(full, u, now))
  {
    forall g | g in s.guards ensures s.guards[g].subject != u {
      assert s.guards[g].subject in Subjects(s.guards);
    }
    forall v ensures AlikeAt(p, lag, Granting(s, u, now), Granting(full, u, now), v) {
      assert AlikeAt(p, lag, s, full, v);
    }
  }

  /** The full table's own clock plays no role. */
  lemma AnyClock(p: Policy, lag: nat, s: State, full: State, t: int)
    requires Alike(p, lag, s, full)
    ensures Alike(p, lag, s, full.(newest := t))
  {
    forall u ensures AlikeAt(p, lag, s, full.(newest := t), u) {
      assert AlikeAt(p, lag, s, full, u);
    }
  }

  /** What one call must show: the same answer and tables alike, or a refusal for lack of room. */
  ghost predicate Agrees(p: Policy, lag: nat, left: (State, Answer), full: State, right: (State, Answer)) {
    if left.1 == Capacity then Alike(p, lag, left.0, full)
    else left.1 == right.1 && Alike(p, lag, left.0, right.0)
  }

  lemma AdmitAlike(p: Policy, lag: nat, s: State, full: State, u: string, now: int)
    requires p.Valid() && Harmless(p, lag) && s.newest - lag <= now
    requires Exclusive(p, s) && Timed(p, lag, s) && Alike(p, lag, s, full)
    ensures Agrees(p, lag, Admitted(p, true, s, u, now), full, Admitted(p, false, full, u, now))
  {
    var kept := s.(entries := Roomy(p, s.entries, u, now), newest := Newer(s.newest, now));
    var full' := full.(newest := Newer(full.newest, now));
    RoomyAlike(p, lag, s, full, u, now);
    AnyClock(p, lag, kept, full, full'.newest);
    SameVerdict(p, lag, kept, full', u, now);
    RoomyExclusive(p, s, u, now);
    if Admitted(p, true, s, u, now).1.Granted? {
      GrantExclusive(p, kept, u, now);
      GrantAlike(p, lag, kept, full', u, now);
    }
  }

  /** Both tables see `u` in flight, blocked until the same time, or free. */
  lemma SameVerdict(p: Policy, lag: nat, s: State, full: State, u: string, now: int)
    requires Alike(p, lag, s, full) && s.newest - lag <= now
    ensures EntryOf(s, u, now).inFlight == EntryOf(full, u, now).inFlight
    ensures var b, b' := EntryOf(s, u, now).blockUntil, EntryOf(full, u, now).blockUntil;
            Pending(b, now) == Pending(b', now) && (Pending(b, now) ==> b == b')
  {
    assert AlikeAt(p, lag, s, full, u);
  }

  lemma FailureAlike(p: Policy, lag: nat, s: State, full: State, guard: GuardId, now: int)
    requires p.Valid() && Exclusive(p, s) && Timed(p, lag, s) && Alike(p, lag, s, full)
    requires guard in s.guards && s.guards[guard].since <= now
    ensures s.guards[guard].subject in full.entries
    ensures Alike(p, lag, Recorded(p, s, guard, now), Recorded(p, full, guard, now))
  {
    var next, v := Recorded(p, s, guard, now), s.guards[guard].subject;
    assert v in Subjects(s.guards);
    forall g | g in s.guards && s.guards[g].subject == v ensures g == guard {
    }
    assert AlikeAt(p, lag, s, full, v);
    var next' := Recorded(p, full, guard, now);
    forall u ensures AlikeAt(p, lag, next, next', u) {
      assert AlikeAt(p, lag, s, full, u);
    }
  }

  lemma FinishAlike(p: Policy, lag: nat, s: State, full: State, guard: GuardId)
    requires Alike(p, lag, s, full) && guard in s.guards
    ensures Alike(p, lag, Finished(s, guard), Finished(full, guard))
  {
    forall u ensures AlikeAt(p, lag, Finished(s, guard), Finished(full, guard), u) {
      assert AlikeAt(p, lag, s, full, u);
    }
  }

  lemma CancelAlike(p: Policy, lag: nat, s: State, full: State, guard: GuardId)
    requires Exclusive(p, s) && Timed(p, lag, s) && Alike(p, lag, s, full) && guard in s.guards
    ensures Alike(p, lag, Cancelled(s, guard), Cancelled(full, guard))
  {
    forall u ensures AlikeAt(p, lag, Cancelled(s, guard), Cancelled(full, guard), u) {
      assert AlikeAt(p, lag, s, full, u);
      if u == s.guards[guard].subject {
        DroppedAlike(p, lag, s, full, guard);
      } else {
        OthersAlike(p, lag, s, full, guard, u);
      }
    }
  }

  lemma OthersAlike(p: Policy, lag: nat, s: State, full: State, guard: GuardId, u: string)
    requires AlikeAt(p, lag, s, full, u) && SameGuards(s, full) && guard in s.guards && u != s.guards[guard].subject
    ensures AlikeAt(p, lag, Cancelled(s, guard), Cancelled(full, guard), u)
  {
  }

  /** An entry that was only readmitted after its purge is dropped by one table and spent in the other. */
  lemma DroppedAlike(p: Policy, lag: nat, s: State, full: State, guard: GuardId)
    requires Exclusive(p, s) && Timed(p, lag, s) && Alike(p, lag, s, full) && guard in s.guards
    ensures AlikeAt(p, lag, Cancelled(s, guard), Cancelled(full, guard), s.guards[guard].subject)
  {
    var v := s.guards[guard].subject;
    assert AlikeAt(p, lag, s, full, v);
    assert GuardTimed(s.guards[guard], s.entries[v], s.newest);
    assert WellTimed(p, lag, s.entries[v], s.newest);
  }

  lemma StepAlike(p: Policy, lag: nat, s: State, full: State, c: Call)
    requires p.Valid() && Harmless(p, lag) && Timely(lag, s, c)
    requires Exclusive(p, s) && Timed(p, lag, s) && Alike(p, lag, s, full)
    ensures Agrees(p, lag, Step(p, true, s, c), full, Step(p, false, full, c))
  {
    match c
    case Admit(u, now) => AdmitAlike(p, lag, s, full, u, now);
    case Failure(guard, now) =>
      if guard in s.guards {
        FailureAlike(p, lag, s, full, guard, now);
      }
    case Success(guard) =>
      if guard in s.guards {
        FinishAlike(p, lag, s, full, guard);
      }
    case Cancel(guard) =>
      if guard in s.guards {
        CancelAlike(p, lag, s, full, guard);
      }
  }

  lemma {:induction false} RunAlike(p: Policy, lag: nat, s: State, full: State, calls: seq<Call>)
    requires p.Valid() && Harmless(p, lag) && TimelyRun(p, lag, s, calls)
    requires Exclusive(p, s) && Timed(p, lag, s) && Alike(p, lag, s, full)
    ensures WithoutCapacity(Answers(p, true, s, calls)) == Answers(p, false, full, Made(p, s, calls))
    decreases |calls|
  {
    if calls != [] {
      var c := calls[0];
      var (next, answer) := Step(p, true, s, c);
      var made := Made(p, next, calls[1..]);
      StepExclusive(p, s, c);
      StepTimed(p, lag, s, c);
      StepAlike(p, lag, s, full, c);
      assert Answers(p, true, s, calls)[1..] == Answers(p, true, next, calls[1..]);
      if answer == Capacity {
        RunAlike(p, lag, next, full, calls[1..]);
        assert Made(p, s, calls) == made;
      } else {
        RunAlike(p, lag, next, Step(p, false, full, c).0, calls[1..]);
        assert ([c] + made)[1..] == made;
      }
    }
  }

  /**
   Over every run whose admissions lag harmlessly, the purging limiter answers exactly as one that never
   purges and never runs out of room, once the Capacity refusals are counted as requests not made.
   */
  lemma PurgingIsUnobservable(p: Policy, lag: nat, start: int, calls: seq<Call>)
    requires p.Valid() && Harmless(p, lag) && TimelyRun(p, lag, Initial(start), calls)
    ensures WithoutCapacity(Answers(p, true, Initial(start), calls))
         == Answers(p, false, Initial(start), Made(p, Initial(start), calls))
  {
    RunAlike(p, lag, Initial(start), Initial(start), calls);
  }

  // ---------------------------------------------------------------- and no longer with more lag

  /** A timely run with room for everybody whose last call, and no earlier one, is answered differently. */
  predicate Tells(p: Policy, lag: nat, s: State, full: State, calls: seq<Call>)
    decreases |calls|
  {
    calls != [] && Timely(lag, s, calls[0])
    && var (next, answer) := Step(p, true, s, calls[0]);
    && var (next', answer') := Step(p, false, full, calls[0]);
    && answer != Capacity
    && if |calls| == 1 then answer != answer' else answer == answer' && Tells(p, lag, next, next', calls[1..])
  }

  /** Some run from here tells the two tables apart. */
  ghost predicate Differ(p: Policy, lag: nat, s: State, full: State) { exists calls :: Tells(p, lag, s, full, calls) }

  lemma {:induction false} TellingIsObserved(p: Policy, lag: nat, s: State, full: State, calls: seq<Call>)
    requires Tells(p, lag, s, full, calls)
    ensures TimelyRun(p, lag, s, calls)
    ensures WithoutCapacity(Answers(p, true, s, calls)) != Answers(p, false, full, Made(p, s, calls))
    decreases |calls|
  {
    var c := calls[0];
    var (next, answer) := Step(p, true, s, c);
    var (next', answer') := Step(p, false, full, c);
    var rest, made := calls[1..], Made(p, next, calls[1..]);
    var some, all := Answers(p, true, next, rest), Answers(p, false, next', made);
    assert ([c] + made)[1..] == made && ([answer] + some)[1..] == some;
    assert WithoutCapacity(Answers(p, true, s, calls)) == [answer] + WithoutCapacity(some);
    assert Answers(p, false, full, [c] + made) == [answer'] + all;
    if |calls| > 1 {
      TellingIsObserved(p, lag, next, next', rest);
      assert ([answer] + WithoutCapacity(some))[1..] != ([answer'] + all)[1..];
    } else {
      assert ([answer] + WithoutCapacity(some))[0] != ([answer'] + all)[0];
    }
  }

  /** Which pairs of tables are known to be told apart. */
  type Distinction = (State, State) -> bool

  ghost predicate Leads(p: Policy, lag: nat, d: Distinction, s: State, full: State, c: Call) {
    Timely(lag, s, c)
    && var (next, answer) := Step(p, true, s, c);
    && var (next', answer') := Step(p, false, full, c);
    && answer != Capacity && (answer != answer' || d(next, next'))
  }

  /** One call that is answered differently, or leads to tables that are told apart, tells them apart. */
  ghost predicate Rule(p: Policy, lag: nat, d: Distinction) {
    forall s, full, c :: Leads(p, lag, d, s, full, c) ==> d(s, full)
  }

  lemma TellApart(p: Policy, lag: nat, d: Distinction, s: State, full: State, c: Call)
    requires Rule(p, lag, d) && Timely(lag, s, c)
    requires Step(p, true, s, c).1 != Step(p, false, full, c).1 && Step(p, true, s, c).1 != Capacity
    ensures d(s, full)
  {
    assert Leads(p, lag, d, s, full, c);
  }

  lemma BothThen(p: Policy, lag: nat, d: Distinction, s: State, full: State, c: Call, next: State, next': State,
                 answer: Answer)
    requires Rule(p, lag, d) && Timely(lag, s, c)
    requires Step(p, true, s, c) == (next, answer) && Step(p, false, full, c) == (next', answer)
    requires answer != Capacity && d(next, next')
    ensures d(s, full)
  {
    assert Leads(p, lag, d, s, full, c);
  }

  /** One wrong code of `u`, whose entries may differ. */
  lemma RoundBoth(p: Policy, lag: nat, d: Distinction, s: State, full: State, o: Others, u: string, e: Entry,
                  e': Entry, n: nat, now: int)
    requires Rule(p, lag, d)
    requires p.Valid() && New(o, u, n) && s.newest <= now
    requires Step(p, true, s, Admit(u, now)) == (InFlight(o, u, Held(e, now), Guard(u, false, now), n, now), Granted(n))
    requires Step(p, false, full, Admit(u, now))
             == (InFlight(o, u, Held(e', now), Guard(u, false, now), n, now), Granted(n))
    requires d(Idle(o, u, After(p, e, now), n + 1, now), Idle(o, u, After(p, e', now), n + 1, now))
    ensures d(s, full)
  {
    var h, h', g := Held(e, now), Held(e', now), Guard(u, true, now);
    var s1, f1 := InFlight(o, u, h, Guard(u, false, now), n, now), InFlight(o, u, h', Guard(u, false, now), n, now);
    var s2, f2 := InFlight(o, u, Failed(p, h, now), g, n, now), InFlight(o, u, Failed(p, h', now), g, n, now);
    var s3, f3 := Idle(o, u, After(p, e, now), n + 1, now), Idle(o, u, After(p, e', now), n + 1, now);
    FailHeld(p, true, o, u, h, now, n, now, now);
    FailHeld(p, false, o, u, h', now, n, now, now);
    CancelHeld(p, true, o, u, Failed(p, h, now), g, n, now);
    CancelHeld(p, false, o, u, Failed(p, h', now), g, n, now);
    BothThen(p, lag, d, s2, f2, Cancel(n), s3, f3, Done);
    BothThen(p, lag, d, s1, f1, Failure(n, now), s2, f2, Done);
    BothThen(p, lag, d, s, full, Admit(u, now), s1, f1, Granted(n));
  }

  lemma KnownBoth(p: Policy, lag: nat, d: Distinction, o: Others, u: string, e: Entry, e': Entry, n: nat, now: int)
    requires Rule(p, lag, d)
    requires p.Valid() && New(o, u, n) && !e.inFlight && e.blockUntil.None? && !e'.inFlight && e'.blockUntil.None?
    requires d(Idle(o, u, After(p, e, now), n + 1, now), Idle(o, u, After(p, e', now), n + 1, now))
    ensures d(Idle(o, u, e, n, now), Idle(o, u, e', n, now))
  {
    AdmitKnown(p, true, o, u, e, n, now, now);
    AdmitKnown(p, false, o, u, e', n, now, now);
    RoundBoth(p, lag, d, Idle(o, u, e, n, now), Idle(o, u, e', n, now), o, u, e, e', n, now);
  }

  lemma {:induction false} RoundsBoth(p: Policy, lag: nat, d: Distinction, o: Others, u: string, e: Entry, e': Entry,
                                      n: nat, now: int, k: nat)
    requires Rule(p, lag, d)
    requires p.Valid() && New(o, u, n) && (k > 0 ==> Open(p, e, now, k) && Open(p, e', now, k))
    requires d(Idle(o, u, AfterMany(p, e, now, k), n + k, now), Idle(o, u, AfterMany(p, e', now, k), n + k, now))
    ensures d(Idle(o, u, e, n, now), Idle(o, u, e', n, now))
    decreases k
  {
    if k > 0 {
      if k > 1 {
        OpenAfter(p, e, now, k);
        OpenAfter(p, e', now, k);
      }
      RoundsBoth(p, lag, d, o, u, After(p, e, now), After(p, e', now), n + 1, now, k - 1);
      KnownBoth(p, lag, d, o, u, e, e', n, now);
    }
  }

  /** All places but one are taken by others, who stay; `v` is a newcomer. */
  predicate Crowd(p: Policy, o: Others, u: string, v: string, n: nat) {
    && New(o, u, n) && New(o, v, n) && u != v && |o.entries| + 1 == p.maxTracked
    && forall x | x in o.entries :: o.entries[x].inFlight
  }

  /** The newcomer has the stale entry of `u` purged and leaves; the full table keeps it. */
  lemma PurgeBoth(p: Policy, lag: nat, d: Distinction, o: Others, u: string, v: string, e: Entry, n: nat, t: int,
                  now: int)
    requires Rule(p, lag, d)
    requires p.Valid() && Crowd(p, o, u, v, n) && Stale(p, e, now) && t - lag <= now
    requires d(Without(o, n + 1, Newer(t, now)), Idle(o, u, e, n + 1, Newer(t, now)))
    ensures d(Idle(o, u, e, n, t), Idle(o, u, e, n, t))
  {
    var h, g, t' := Held(Fresh(now), now), Guard(v, false, Newer(t, now)), Newer(t, now);
    var more := Others(o.entries[u := e], o.guards);
    AdmitPurging(p, o, u, e, n, t, v, now);
    AdmitNew(p, false, more, v, n, t, now);
    CancelHeld(p, true, o, v, h, g, n, t');
    CancelHeld(p, false, more, v, h, g, n, t');
    BothThen(p, lag, d, InFlight(o, v, h, g, n, t'), InFlight(more, v, h, g, n, t'), Cancel(n),
             Without(o, n + 1, t'), Idle(o, u, e, n + 1, t'), Done);
    BothThen(p, lag, d, Idle(o, u, e, n, t), Idle(o, u, e, n, t), Admit(v, now),
             InFlight(o, v, h, g, n, t'), InFlight(more, v, h, g, n, t'), Granted(n));
  }

  /** A late admission that is dropped again moves `lastSeen` back. */
  lemma LateBoth(p: Policy, lag: nat, d: Distinction, o: Others, u: string, e: Entry, n: nat, t: int, now: int)
    requires Rule(p, lag, d)
    requires New(o, u, n) && !e.inFlight && e.failures >= 1 && e.blockUntil.None? && t - lag <= now <= t
    requires d(Idle(o, u, e.(lastSeen := now), n + 1, t), Idle(o, u, e.(lastSeen := now), n + 1, t))
    ensures d(Idle(o, u, e, n, t), Idle(o, u, e, n, t))
  {
    var held, left := InFlight(o, u, Held(e, now), Guard(u, false, t), n, t), Idle(o, u, e.(lastSeen := now), n + 1, t);
    AdmitKnown(p, true, o, u, e, n, t, now);
    AdmitKnown(p, false, o, u, e, n, t, now);
    CancelHeld(p, true, o, u, Held(e, now), Guard(u, false, t), n, t);
    CancelHeld(p, false, o, u, Held(e, now), Guard(u, false, t), n, t);
    BothThen(p, lag, d, held, held, Cancel(n), left, left, Done);
    BothThen(p, lag, d, Idle(o, u, e, n, t), Idle(o, u, e, n, t), Admit(u, now), held, held, Granted(n));
  }

  /** Another subject is admitted and stays. */
  lemma StayBoth(p: Policy, lag: nat, d: Distinction, o: Others, v: string, n: nat)
    requires Rule(p, lag, d)
    requires Room(p, o, v, n)
    requires var s := InFlight(o, v, Held(Fresh(0), 0), Guard(v, false, 0), n, 0); d(s, s)
    ensures d(Without(o, n, 0), Without(o, n, 0))
  {
    var s := InFlight(o, v, Held(Fresh(0), 0), Guard(v, false, 0), n, 0);
    AdmitNew(p, true, o, v, n, 0, 0);
    AdmitNew(p, false, o, v, n, 0, 0);
    BothThen(p, lag, d, Without(o, n, 0), Without(o, n, 0), Admit(v, 0), s, s, Granted(n));
  }

  lemma FillersGrow(u: string, j: nat)
    ensures InFlight(Fillers(u, j), Filler(u, j), Held(Fresh(0), 0), Guard(Filler(u, j), false, 0), j, 0)
         == Without(Fillers(u, j + 1), j + 1, 0)
  {
  }

  lemma FillOne(p: Policy, lag: nat, d: Distinction, u: string, j: nat)
    requires Rule(p, lag, d)
    requires j + 1 < p.maxTracked && d(Without(Fillers(u, j + 1), j + 1, 0), Without(Fillers(u, j + 1), j + 1, 0))
    ensures d(Without(Fillers(u, j), j, 0), Without(Fillers(u, j), j, 0))
  {
    FillersFit(u, j);
    FillersGrow(u, j);
    StayBoth(p, lag, d, Fillers(u, j), Filler(u, j), j);
  }

  lemma {:induction false} FillBoth(p: Policy, lag: nat, d: Distinction, u: string, j: nat, k: nat)
    requires Rule(p, lag, d)
    requires j <= k < p.maxTracked && d(Without(Fillers(u, k), k, 0), Without(Fillers(u, k), k, 0))
    ensures d(Without(Fillers(u, j), j, 0), Without(Fillers(u, j), j, 0))
    decreases k - j
  {
    if j < k {
      FillBoth(p, lag, d, u, j + 1, k);
      FillOne(p, lag, d, u, j);
    }
  }

  /** Whatever a crowd makes possible is possible from a new limiter. */
  lemma CrowdGathers(p: Policy, lag: nat, d: Distinction, u: string) returns (o: Others, v: string, n: nat)
    requires Rule(p, lag, d)
    requires p.Valid()
    ensures Crowd(p, o, u, v, n)
    ensures d(Without(o, n, 0), Without(o, n, 0)) ==> d(Initial(0), Initial(0))
  {
    n := p.maxTracked - 1;
    o, v := Fillers(u, n), Filler(u, n);
    FillersFit(u, n);
    if d(Without(o, n, 0), Without(o, n, 0)) {
      FillBoth(p, lag, d, u, 0, n);
    }
  }

  /** `k` wrong codes at time 0 of a subject neither table knows. */
  lemma NewcomerBoth(p: Policy, lag: nat, d: Distinction, o: Others, u: string, n: nat, k: nat)
    requires Rule(p, lag, d)
    requires p.Valid() && Room(p, o, u, n) && 1 <= k <= p.maxFailures
    requires var e := AfterMany(p, After(p, Fresh(0), 0), 0, k - 1);
             d(Idle(o, u, e, n + k, 0), Idle(o, u, e, n + k, 0))
    ensures d(Without(o, n, 0), Without(o, n, 0))
  {
    var first := After(p, Fresh(0), 0);
    RoundsBoth(p, lag, d, o, u, first, first, n + 1, 0, k - 1);
    AdmitNew(p, true, o, u, n, 0, 0);
    AdmitNew(p, false, o, u, n, 0, 0);
    RoundBoth(p, lag, d, Without(o, n, 0), Without(o, n, 0), o, u, Fresh(0), Fresh(0), n, 0);
  }

  // ---------------------------------------------------------------- a lockout that is forgotten

  lemma LockedEntry(p: Policy)
    requires p.Valid()
    ensures var e := AfterMany(p, After(p, Fresh(0), 0), 0, p.maxFailures - 1);
            !e.inFlight && e.blockUntil == Some(p.lockout) && e.lastSeen == 0
  {
    if p.maxFailures > 1 {
      LockedNow(p, After(p, Fresh(0), 0), 0, p.maxFailures - 1);
    }
  }

  /** With a lag beyond the window a purged lockout is missed by a late admission. */
  lemma LockoutForgotten(p: Policy, lag: nat, d: Distinction, o: Others, u: string, v: string, n: nat)
    requires Rule(p, lag, d)
    requires p.Valid() && lag > p.window + 1 && Crowd(p, o, u, v, n)
    ensures d(Without(o, n, 0), Without(o, n, 0))
  {
    LockedEntry(p);
    LockoutPurged(p, lag, d, o, u, v, AfterMany(p, After(p, Fresh(0), 0), 0, p.maxFailures - 1), n + p.maxFailures);
    NewcomerBoth(p, lag, d, o, u, n, p.maxFailures);
  }

  lemma LockoutPurged(p: Policy, lag: nat, d: Distinction, o: Others, u: string, v: string, e: Entry, n: nat)
    requires Rule(p, lag, d)
    requires p.Valid() && lag > p.window + 1 && Crowd(p, o, u, v, n)
    requires !e.inFlight && e.blockUntil == Some(p.lockout) && e.lastSeen == 0
    ensures d(Idle(o, u, e, n, 0), Idle(o, u, e, n, 0))
  {
    var now := p.window + p.lockout + 1;
    LockoutTells(p, lag, d, o, u, e, n + 1, now);
    PurgeBoth(p, lag, d, o, u, v, e, n, 0, now);
  }

  lemma LockoutTells(p: Policy, lag: nat, d: Distinction, o: Others, u: string, e: Entry, n: nat, t: int)
    requires Rule(p, lag, d)
    requires Room(p, o, u, n) && !e.inFlight && Pending(e.blockUntil, t - lag)
    ensures d(Without(o, n, t), Idle(o, u, e, n, t))
  {
    AdmitNew(p, true, o, u, n, t, t - lag);
    TellApart(p, lag, d, Without(o, n, t), Idle(o, u, e, n, t), Admit(u, t - lag));
  }

  // ---------------------------------------------------------------- a count that is forgotten

  /** The full table counts one failure more and locks first. */
  lemma CountTells(p: Policy, lag: nat, d: Distinction, o: Others, u: string, e: Entry, n: nat, now: int)
    requires Rule(p, lag, d)
    requires p.Valid() && 2 <= p.maxFailures && Room(p, o, u, n)
    requires Open(p, e, now, p.maxFailures - 1) && e.failures == 1
    ensures d(Without(o, n, now), Idle(o, u, e, n, now))
  {
    var m, a, a' := p.maxFailures, After(p, Fresh(now), now), After(p, e, now);
    if m > 2 {
      OpenAfter(p, e, now, m - 1);
    }
    LastTells(p, lag, d, o, u, a, a', n + m - 1, now);
    RoundsBoth(p, lag, d, o, u, a, a', n + 1, now, m - 2);
    AdmitNew(p, true, o, u, n, now, now);
    AdmitKnown(p, false, o, u, e, n, now, now);
    RoundBoth(p, lag, d, Without(o, n, now), Idle(o, u, e, n, now), o, u, Fresh(now), e, n, now);
  }

  lemma LastTells(p: Policy, lag: nat, d: Distinction, o: Others, u: string, a: Entry, a': Entry, n: nat, now: int)
    requires Rule(p, lag, d)
    requires p.Valid() && 2 <= p.maxFailures && a.failures == 1 && a'.failures == 2
    requires Open(p, a, now, p.maxFailures - 2)
    requires if p.maxFailures == 2 then !a'.inFlight && a'.blockUntil == Some(now + p.lockout)
             else Open(p, a', now, p.maxFailures - 2)
    ensures var k := p.maxFailures - 2;
            d(Idle(o, u, AfterMany(p, a, now, k), n, now), Idle(o, u, AfterMany(p, a', now, k), n, now))
  {
    var k := p.maxFailures - 2;
    var e, e' := AfterMany(p, a, now, k), AfterMany(p, a', now, k);
    AfterManyCounts(p, a, now, k);
    if k > 0 {
      LockedNow(p, a', now, k);
    }
    AdmitKnown(p, true, o, u, e, n, now, now);
    TellApart(p, lag, d, Idle(o, u, e, n, now), Idle(o, u, e', n, now), Admit(u, now));
  }

  lemma {:induction false} LockedNow(p: Policy, e: Entry, now: int, k: nat)
    requires p.Valid() && Open(p, e, now, k) && e.failures + k == p.maxFailures && k > 0
    ensures var r := AfterMany(p, e, now, k);
            !r.inFlight && r.blockUntil == Some(now + p.lockout) && r.lastSeen == now
    decreases k
  {
    if k > 1 {
      OpenAfter(p, e, now, k);
      LockedNow(p, After(p, e, now), now, k - 1);
    }
  }

  /** With a lag beyond the lockout a purged count is missed within its window. */
  lemma CountForgotten(p: Policy, lag: nat, d: Distinction, o: Others, u: string, v: string, n: nat)
    requires Rule(p, lag, d)
    requires p.Valid() && 2 <= p.maxFailures && lag > p.lockout + 1 && Crowd(p, o, u, v, n)
    ensures d(Without(o, n, 0), Without(o, n, 0))
  {
    var late: int := 0 - lag;
    var e, now := After(p, Fresh(0), 0), late + p.window + p.lockout + 1;
    CountTells(p, lag, d, o, u, e.(lastSeen := late), n + 3, Newer(0, now));
    PurgeBoth(p, lag, d, o, u, v, e.(lastSeen := late), n + 2, 0, now);
    LateBoth(p, lag, d, o, u, e, n + 1, 0, late);
    NewcomerBoth(p, lag, d, o, u, n, 1);
  }

  lemma DifferRule(p: Policy, lag: nat, d: Distinction)
    requires forall s, full :: d(s, full) <==> Differ(p, lag, s, full)
    ensures Rule(p, lag, d)
  {
    forall s, full, c | Leads(p, lag, d, s, full, c) ensures d(s, full) {
      var next, next' := Step(p, true, s, c).0, Step(p, false, full, c).0;
      if Step(p, true, s, c).1 != Step(p, false, full, c).1 {
        assert Tells(p, lag, s, full, [c]);
      } else {
        var rest :| Tells(p, lag, next, next', rest);
        assert ([c] + rest)[1..] == rest;
        assert Tells(p, lag, s, full, [c] + rest);
      }
    }
  }

  ghost predicate Unobservable(p: Policy, lag: nat) {
    forall start, calls | TimelyRun(p, lag, Initial(start), calls) ::
      WithoutCapacity(Answers(p, true, Initial(start), calls))
        == Answers(p, false, Initial(start), Made(p, Initial(start), calls))
  }

  /** The purge is unobservable exactly if admissions lag harmlessly. */
  lemma HarmlessIsExact(p: Policy, lag: nat)
    requires p.Valid()
    ensures Unobservable(p, lag) <==> Harmless(p, lag)
  {
    if Harmless(p, lag) {
      forall start, calls | TimelyRun(p, lag, Initial(start), calls)
        ensures WithoutCapacity(Answers(p, true, Initial(start), calls))
             == Answers(p, false, Initial(start), Made(p, Initial(start), calls))
      {
        PurgingIsUnobservable(p, lag, start, calls);
      }
    } else {
      var d := (s: State, full: State) => Differ(p, lag, s, full);
      DifferRule(p, lag, d);
      var o, v, n := CrowdGathers(p, lag, d, "");
      if lag > p.window + 1 {
        LockoutForgotten(p, lag, d, o, "", v, n);
      } else {
        CountForgotten(p, lag, d, o, "", v, n);
      }
      var calls :| Tells(p, lag, Initial(0), Initial(0), calls);
      TellingIsObserved(p, lag, Initial(0), Initial(0), calls);
    }
  }
}
