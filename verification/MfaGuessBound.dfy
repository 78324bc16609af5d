/**
 How many wrong codes the MFA limiter lets through. In any interval no longer than window and lockout
 at most 2 * max - 2 failures of a subject are recorded between its successes, provided no admission
 works with a clock read that lags too far; how far is exact.
 */
module MfaGuessBound {
  import opened Common
  import opened MfaLimiter
  import opened MfaSituations

  /** The failures of `u` read in [a, b) are counted; admissions lag by at most `lag`. */
  datatype Watch = Watch(p: Policy, lag: nat, u: string, a: int, b: int) {
    predicate Valid() { p.Valid() && b - a <= p.Span() }

    /** The lag that is harmless: the longer of window and lockout and one tick. */
    predicate Prompt() { p.maxFailures == 1 || lag <= Slack(p) }
  }

  function Slack(p: Policy): nat { (if p.window < p.lockout then p.lockout else p.window) + 1 }

  function GuessLimit(m: nat): int {
    if m == 1 then 1 else 2 * m - 2
  }

  /** The call records a failure for `u`. */
  predicate Guesses(s: State, c: Call, u: string) {
    c.Failure? && c.guard in s.guards && s.guards[c.guard].subject == u && u in s.entries
  }

  predicate Counts(w: Watch, s: State, c: Call) { Guesses(s, c, w.u) && w.a <= c.now < w.b }

  function Counted(w: Watch, s: State, calls: seq<Call>): nat
    decreases |calls|
  {
    if calls == [] then 0
    else (if Counts(w, s, calls[0]) then 1 else 0) + Counted(w, Step(w.p, true, s, calls[0]).0, calls[1..])
  }

  /** Each guard records at most one failure, and no success is recorded for `u`. */
  predicate HonestCall(s: State, c: Call, u: string) {
    && (c.Failure? && c.guard in s.guards ==> !s.guards[c.guard].failed)
    && (c.Success? && c.guard in s.guards ==> s.guards[c.guard].subject != u)
  }

  predicate Honest(p: Policy, s: State, calls: seq<Call>, u: string)
    decreases |calls|
  {
    calls != [] ==> HonestCall(s, calls[0], u) && Honest(p, Step(p, true, s, calls[0]).0, calls[1..], u)
  }

  // ---------------------------------------------------------------- the budget

  /** How many failures the entry can still record in [a, b). */
  function EntryBudget(w: Watch, e: Entry): nat
    requires w.p.Valid()
  {
    var m := w.p.maxFailures;
    if e.blockUntil.Some? && w.b <= e.blockUntil.value then 0
    else if e.failures == 0 || m <= e.failures then m
    else if w.a <= e.windowStart then m - e.failures
    else m - 1 - e.failures + m
  }

  /** Nothing more can count: reads have passed `b`, and so will those of every guard that may still fail. */
  ghost predicate Over(w: Watch, s: State) {
    w.b <= s.newest
    && forall g | g in s.guards && s.guards[g].subject == w.u :: s.guards[g].failed || w.b <= s.guards[g].since
  }

  ghost function Budget(w: Watch, s: State): nat
    requires w.p.Valid()
  {
    if Over(w, s) then 0
    else if w.u !in s.entries then w.p.maxFailures
    else EntryBudget(w, s.entries[w.u])
  }

  /** From here on every failure of `u` is read at or after `a`. */
  ghost predicate Begun(w: Watch, s: State) {
    w.a <= s.newest
    && forall g | g in s.guards && s.guards[g].subject == w.u :: s.guards[g].failed || w.a <= s.guards[g].since
  }

  lemma BudgetFailed(w: Watch, e: Entry, now: int)
    requires w.Valid() && w.a <= now < w.b && e.windowStart <= now && !Pending(e.blockUntil, now)
    ensures 1 + EntryBudget(w, Failed(w.p, e, now)) <= EntryBudget(w, e)
  {
  }

  /** An entry that is purged before `b` had at least the budget of an absent one. */
  lemma BudgetPurged(w: Watch, e: Entry, t: int, now: int)
    requires w.Valid() && w.Prompt() && WellTimed(w.p, w.lag, e, t) && EntryFits(e, false)
    requires Stale(w.p, e, now) && now < w.b
    ensures w.p.maxFailures <= EntryBudget(w, e)
  {
  }

  lemma BudgetFailure(w: Watch, s: State, guard: GuardId, now: int)
    requires w.Valid() && Exclusive(w.p, s) && Timed(w.p, w.lag, s) && Begun(w, s)
    requires guard in s.guards && !s.guards[guard].failed && s.guards[guard].since <= now
    ensures (if Counts(w, s, Failure(guard, now)) then 1 else 0) + Budget(w, Recorded(w.p, s, guard, now))
            <= Budget(w, s)
  {
    var v := s.guards[guard].subject;
    if v == w.u {
      assert GuardTimed(s.guards[guard], s.entries[v], s.newest);
      forall g | g in s.guards && s.guards[g].subject == v ensures g == guard {
      }
      if now < w.b {
        BudgetFailed(w, s.entries[v], now);
      }
    }
  }

  /** While a guard of `u` may still fail, its entry is in flight and out of reach. */
  lemma AdmitLeavesHeld(p: Policy, s: State, v: string, now: int, g: GuardId)
    requires Exclusive(p, s) && g in s.guards
    ensures var next, u := Admitted(p, true, s, v, now).0, s.guards[g].subject;
            && u in next.entries && next.entries[u] == s.entries[u]
            && g in next.guards && next.guards[g] == s.guards[g]
  {
    assert s.guards[g].subject in Subjects(s.guards);
    PurgeSpares(p, s, s.guards[g].subject, now);
  }

  lemma BudgetAdmit(w: Watch, s: State, v: string, now: int)
    requires w.Valid() && w.Prompt() && Exclusive(w.p, s) && Timed(w.p, w.lag, s)
    ensures Budget(w, Admitted(w.p, true, s, v, now).0) <= Budget(w, s)
  {
    var next := Admitted(w.p, true, s, v, now).0;
    if g :| g in s.guards && s.guards[g].subject == w.u {
      AdmitLeavesHeld(w.p, s, v, now, g);
      forall h | h in s.guards && s.guards[h].subject == w.u ensures h == g {
      }
      assert next.guards == s.guards || (v != w.u && next.guards == s.guards[s.issued := next.guards[s.issued]]);
    } else if !Over(w, next) {
      BudgetAdmitFree(w, s, v, now);
    }
  }

  lemma BudgetAdmitFree(w: Watch, s: State, v: string, now: int)
    requires w.Valid() && w.Prompt() && Exclusive(w.p, s) && Timed(w.p, w.lag, s)
    requires w.u !in Subjects(s.guards) && !Over(w, Admitted(w.p, true, s, v, now).0)
    ensures Budget(w, Admitted(w.p, true, s, v, now).0) <= Budget(w, s)
  {
    var kept, next := Roomy(w.p, s.entries, v, now), Admitted(w.p, true, s, v, now).0;
    assert now < w.b && s.newest < w.b;
    if w.u in s.entries {
      assert EntryFits(s.entries[w.u], false);
      if w.u !in kept {
        BudgetPurged(w, s.entries[w.u], s.newest, now);
      }
    }
  }

  lemma BudgetCancel(w: Watch, s: State, guard: GuardId)
    requires w.p.Valid() && Exclusive(w.p, s) && Timed(w.p, w.lag, s) && guard in s.guards
    ensures Budget(w, Cancelled(s, guard)) <= Budget(w, s)
  {
    var v := s.guards[guard].subject;
    assert WellTimed(w.p, w.lag, s.entries[v], s.newest);
  }

  lemma BudgetFinish(w: Watch, s: State, guard: GuardId)
    requires w.p.Valid() && guard in s.guards && s.guards[guard].subject != w.u
    ensures Budget(w, Finished(s, guard)) == Budget(w, s)
  {
    var next := Finished(s, guard);
    assert forall g | g in s.guards && s.guards[g].subject == w.u :: g in next.guards && next.guards[g] == s.guards[g];
  }

  /** Every call pays for the failure it records out of a budget that never grows. */
  lemma BudgetStep(w: Watch, s: State, c: Call)
    requires w.Valid() && w.Prompt() && Exclusive(w.p, s) && Timed(w.p, w.lag, s) && Begun(w, s)
    requires Timely(w.lag, s, c) && HonestCall(s, c, w.u)
    ensures (if Counts(w, s, c) then 1 else 0) + Budget(w, Step(w.p, true, s, c).0) <= Budget(w, s)
  {
    match c
    case Admit(v, now) => BudgetAdmit(w, s, v, now);
    case Failure(guard, now) =>
      if guard in s.guards {
        BudgetFailure(w, s, guard, now);
      }
    case Success(guard) =>
      if guard in s.guards {
        BudgetFinish(w, s, guard);
      }
    case Cancel(guard) =>
      if guard in s.guards {
        BudgetCancel(w, s, guard);
      }
  }

  lemma BegunStep(w: Watch, s: State, c: Call)
    requires Begun(w, s)
    ensures Begun(w, Step(w.p, true, s, c).0)
  {
  }

  lemma {:induction false} BudgetRun(w: Watch, s: State, calls: seq<Call>)
    requires w.Valid() && w.Prompt() && Exclusive(w.p, s) && Timed(w.p, w.lag, s) && Begun(w, s)
    requires TimelyRun(w.p, w.lag, s, calls) && Honest(w.p, s, calls, w.u)
    ensures Counted(w, s, calls) <= Budget(w, s)
    decreases |calls|
  {
    if calls != [] {
      BudgetStep(w, s, calls[0]);
      BegunStep(w, s, calls[0]);
      StepExclusive(w.p, s, calls[0]);
      StepTimed(w.p, w.lag, s, calls[0]);
      BudgetRun(w, Step(w.p, true, s, calls[0]).0, calls[1..]);
    }
  }

  /** The first failure that counts starts the budget; before it nothing is spent. */
  lemma {:induction false} CountBound(w: Watch, s: State, calls: seq<Call>)
    requires w.Valid() && w.Prompt() && Exclusive(w.p, s) && Timed(w.p, w.lag, s)
    requires TimelyRun(w.p, w.lag, s, calls) && Honest(w.p, s, calls, w.u)
    ensures Counted(w, s, calls) <= GuessLimit(w.p.maxFailures)
    decreases |calls|
  {
    if calls != [] {
      var next := Step(w.p, true, s, calls[0]).0;
      StepExclusive(w.p, s, calls[0]);
      StepTimed(w.p, w.lag, s, calls[0]);
      if Counts(w, s, calls[0]) {
        FirstCounted(w, s, calls[0]);
        BudgetRun(w, next, calls[1..]);
      } else {
        CountBound(w, next, calls[1..]);
      }
    }
  }

  lemma FirstCounted(w: Watch, s: State, c: Call)
    requires w.Valid() && Exclusive(w.p, s) && Timed(w.p, w.lag, s) && Timely(w.lag, s, c)
    requires HonestCall(s, c, w.u) && Counts(w, s, c)
    ensures Begun(w, Step(w.p, true, s, c).0) && 1 + Budget(w, Step(w.p, true, s, c).0) <= GuessLimit(w.p.maxFailures)
  {
    forall g | g in s.guards && s.guards[g].subject == w.u ensures g == c.guard {
    }
    assert GuardTimed(s.guards[c.guard], s.entries[w.u], s.newest);
    BudgetFailed(w, s.entries[w.u], c.now);
  }

  /** A run of a new limiter: `history`, and then `calls` without a success for `u`. */
  predicate Plausible(w: Watch, start: int, history: seq<Call>, calls: seq<Call>) {
    && TimelyRun(w.p, w.lag, Initial(start), history)
    && TimelyRun(w.p, w.lag, Run(w.p, Initial(start), history), calls)
    && Honest(w.p, Run(w.p, Initial(start), history), calls, w.u)
  }

  /**
   The guess bound. After any history, among the failures of a subject read in any half-open interval no
   longer than min(window, lockout), between two successes for it, at most 2 * max - 2 are recorded (one
   when max is 1), whatever purges, cancellations and other subjects do and in whatever order the mutex
   is taken. This is below the 2 * max - 1 one would allow for two full windows meeting in the interval.
   */
  lemma GuessBound(w: Watch, start: int, history: seq<Call>, calls: seq<Call>)
    requires w.Valid() && w.Prompt() && Plausible(w, start, history, calls)
    ensures Counted(w, Run(w.p, Initial(start), history), calls) <= GuessLimit(w.p.maxFailures)
            <= 2 * w.p.maxFailures - 1
  {
    RunTimed(w.p, w.lag, Initial(start), history);
    CountBound(w, Run(w.p, Initial(start), history), calls);
  }

  // ---------------------------------------------------------------- what some run achieves

  predicate Achieves(w: Watch, s: State, calls: seq<Call>, k: nat) {
    TimelyRun(w.p, w.lag, s, calls) && Honest(w.p, s, calls, w.u) && Counted(w, s, calls) == k
  }

  /** From `s` some timely honest run has `k` counted failures. */
  ghost predicate Can(w: Watch, s: State, k: nat) { exists calls :: Achieves(w, s, calls, k) }

  lemma CanRest(w: Watch, s: State)
    ensures Can(w, s, 0)
  {
    assert Achieves(w, s, [], 0);
  }

  /** One call first. */
  lemma CallThen(w: Watch, s: State, c: Call, next: State, k: nat)
    requires Timely(w.lag, s, c) && HonestCall(s, c, w.u) && Step(w.p, true, s, c).0 == next && Can(w, next, k)
    ensures Can(w, s, k + (if Counts(w, s, c) then 1 else 0))
  {
    var rest :| Achieves(w, next, rest, k);
    assert ([c] + rest)[1..] == rest;
    assert Achieves(w, s, [c] + rest, k + (if Counts(w, s, c) then 1 else 0));
  }

  /** One wrong code at `now`: admit, fail, drop the guard. */
  lemma RoundThen(w: Watch, s: State, o: Others, e: Entry, n: nat, now: int, k: nat)
    requires w.p.Valid() && s.newest <= now && Room(w.p, o, w.u, n)
    requires Step(w.p, true, s, Admit(w.u, now)).0 == InFlight(o, w.u, Held(e, now), Guard(w.u, false, now), n, now)
    requires Can(w, Idle(o, w.u, After(w.p, e, now), n + 1, now), k)
    ensures Can(w, s, k + (if w.a <= now < w.b then 1 else 0))
  {
    var s1 := InFlight(o, w.u, Held(e, now), Guard(w.u, false, now), n, now);
    var s2 := InFlight(o, w.u, Failed(w.p, Held(e, now), now), Guard(w.u, true, now), n, now);
    FailHeld(w.p, true, o, w.u, Held(e, now), now, n, now, now);
    CancelHeld(w.p, true, o, w.u, Failed(w.p, Held(e, now), now), Guard(w.u, true, now), n, now);
    CallThen(w, s2, Cancel(n), Idle(o, w.u, After(w.p, e, now), n + 1, now), k);
    CallThen(w, s1, Failure(n, now), s2, k);
    CallThen(w, s, Admit(w.u, now), s1, k + (if w.a <= now < w.b then 1 else 0));
  }

  /** `k` wrong codes at `now` in an open window. */
  lemma {:induction false} RoundsThen(w: Watch, o: Others, e: Entry, n: nat, now: int, k: nat, j: nat)
    requires w.p.Valid() && w.a <= now < w.b && Room(w.p, o, w.u, n) && (k > 0 ==> Open(w.p, e, now, k))
    requires Can(w, Idle(o, w.u, AfterMany(w.p, e, now, k), n + k, now), j)
    ensures Can(w, Idle(o, w.u, e, n, now), k + j)
    decreases k
  {
    if k > 0 {
      if k > 1 {
        OpenAfter(w.p, e, now, k);
      }
      RoundsThen(w, o, After(w.p, e, now), n + 1, now, k - 1, j);
      AdmitKnown(w.p, true, o, w.u, e, n, now, now);
      RoundThen(w, Idle(o, w.u, e, n, now), o, e, n, now, k - 1 + j);
    }
  }

  /** `k` wrong codes at `now`, the first of which opens a window. */
  lemma BurstThen(w: Watch, s: State, o: Others, e: Entry, n: nat, now: int, k: nat, j: nat)
    requires w.p.Valid() && w.a <= now < w.b && s.newest <= now && Room(w.p, o, w.u, n) && k > 0
    requires Step(w.p, true, s, Admit(w.u, now)).0 == InFlight(o, w.u, Held(e, now), Guard(w.u, false, now), n, now)
    requires k > 1 ==> Open(w.p, After(w.p, e, now), now, k - 1)
    requires Can(w, Idle(o, w.u, AfterMany(w.p, After(w.p, e, now), now, k - 1), n + k, now), j)
    ensures Can(w, s, k + j)
  {
    var first := After(w.p, e, now);
    MoreThen(w, o, first, n, now, k, j);
    RoundThen(w, s, o, e, n, now, k - 1 + j);
  }

  lemma MoreThen(w: Watch, o: Others, first: Entry, n: nat, now: int, k: nat, j: nat)
    requires w.p.Valid() && w.a <= now < w.b && Room(w.p, o, w.u, n) && k > 0
             && (k > 1 ==> Open(w.p, first, now, k - 1))
    requires Can(w, Idle(o, w.u, AfterMany(w.p, first, now, k - 1), n + k, now), j)
    ensures Can(w, Idle(o, w.u, first, n + 1, now), k - 1 + j)
  {
    RoundsThen(w, o, first, n + 1, now, k - 1, j);
  }

  // ---------------------------------------------------------------- the bound is attained

  /** A window that is over is replaced by a new one, which takes the full count. */
  lemma NewWindow(w: Watch, e: Entry, n: nat, t: int, now: int)
    requires w.p.Valid() && 2 <= w.p.maxFailures && t <= now && w.a <= now < w.b
    requires !e.inFlight && e.blockUntil.None? && Since(now, e.windowStart) >= w.p.window
    ensures Can(w, Idle(NOBODY, w.u, e, n, t), w.p.maxFailures)
  {
    var m := w.p.maxFailures;
    CanRest(w, Idle(NOBODY, w.u, AfterMany(w.p, After(w.p, e, now), now, m - 1), n + m, now));
    AdmitKnown(w.p, true, NOBODY, w.u, e, n, t, now);
    BurstThen(w, Idle(NOBODY, w.u, e, n, t), NOBODY, e, n, now, m, 0);
  }

  /** From one failure at time 0: fill the old window just before it closes, then the new one. */
  lemma TwoWindows(w: Watch, e: Entry)
    requires w.p.Valid() && 2 <= w.p.maxFailures && 2 <= w.p.Span() && w.a == w.p.window - 1 && w.b == w.a + w.p.Span()
    requires e.windowStart == 0 && e.failures == 1 && !e.inFlight && e.blockUntil.None?
    ensures Can(w, Idle(NOBODY, w.u, e, 1, 0), 2 * w.p.maxFailures - 2)
  {
    var m, filled := w.p.maxFailures, AfterMany(w.p, e, w.a, w.p.maxFailures - 2);
    AfterManyCounts(w.p, e, w.a, m - 2);
    if m == 2 {
      NewWindow(w, e, 1, 0, w.p.window);
    } else {
      NewWindow(w, filled, m - 1, w.a, w.p.window);
      OldWindow(w, e, m);
    }
  }

  lemma OldWindow(w: Watch, e: Entry, j: nat)
    requires w.p.Valid() && 3 <= w.p.maxFailures && w.a == w.p.window - 1 < w.b
             && Open(w.p, e, w.a, w.p.maxFailures - 2)
    requires Can(w, Idle(NOBODY, w.u, AfterMany(w.p, e, w.a, w.p.maxFailures - 2), w.p.maxFailures - 1, w.a), j)
    ensures Can(w, Idle(NOBODY, w.u, e, 1, 0), w.p.maxFailures - 2 + j)
  {
    var k, next := w.p.maxFailures - 2, After(w.p, e, w.a);
    if k > 1 {
      OpenAfter(w.p, e, w.a, k);
    }
    AdmitKnown(w.p, true, NOBODY, w.u, e, 1, 0, w.a);
    BurstThen(w, Idle(NOBODY, w.u, e, 1, 0), NOBODY, e, 1, w.a, k, j);
  }

  /** For every policy whose window and lockout exceed one tick, ordered reads reach the bound of `GuessBound`. */
  lemma GuessBoundIsTight(p: Policy, u: string)
    requires p.Valid() && 2 <= p.maxFailures && 2 <= p.Span()
    ensures Can(Watch(p, 0, u, p.window - 1, p.window - 1 + p.Span()), Initial(0), GuessLimit(p.maxFailures))
  {
    var w := Watch(p, 0, u, p.window - 1, p.window - 1 + p.Span());
    TwoWindows(w, After(p, Fresh(0), 0));
    AdmitNew(p, true, NOBODY, u, 0, 0, 0);
    RoundThen(w, Initial(0), NOBODY, Fresh(0), 0, 0, 2 * p.maxFailures - 2);
  }

  // ---------------------------------------------------------------- and the admitted lag is exact

  /** Other subjects can take all places but one. */
  lemma {:induction false} FillThen(w: Watch, j: nat, k: nat, i: nat)
    requires j <= k < w.p.maxTracked && Can(w, Without(Fillers(w.u, k), k, 0), i)
    ensures Can(w, Without(Fillers(w.u, j), j, 0), i)
    decreases k - j
  {
    if j < k {
      FillThen(w, j + 1, k, i);
      FillersFit(w.u, j);
      AdmitNew(w.p, true, Fillers(w.u, j), Filler(w.u, j), j, 0, 0);
      CallThen(w, Without(Fillers(w.u, j), j, 0), Admit(Filler(w.u, j), 0), Without(Fillers(w.u, j + 1), j + 1, 0), i);
    }
  }

  /** A late admission that is dropped again moves `lastSeen` back. */
  lemma LateThen(w: Watch, o: Others, e: Entry, n: nat, t: int, now: int, k: nat)
    requires Room(w.p, o, w.u, n) && !e.inFlight && e.failures >= 1 && e.blockUntil.None? && t - w.lag <= now <= t
    requires Can(w, Idle(o, w.u, e.(lastSeen := now), n + 1, t), k)
    ensures Can(w, Idle(o, w.u, e, n, t), k)
  {
    var held := InFlight(o, w.u, Held(e, now), Guard(w.u, false, t), n, t);
    AdmitKnown(w.p, true, o, w.u, e, n, t, now);
    CancelHeld(w.p, true, o, w.u, Held(e, now), Guard(w.u, false, t), n, t);
    CallThen(w, held, Cancel(n), Idle(o, w.u, e.(lastSeen := now), n + 1, t), k);
    CallThen(w, Idle(o, w.u, e, n, t), Admit(w.u, now), held, k);
  }

  /** Another subject finds the table full, has the stale entry purged, and leaves. */
  lemma PurgeThen(w: Watch, o: Others, e: Entry, n: nat, t: int, v: string, now: int, k: nat)
    requires Room(w.p, o, w.u, n) && Room(w.p, o, v, n) && v != w.u && |o.entries| + 1 == w.p.maxTracked && t <= now
    requires Stale(w.p, e, now) && forall x | x in o.entries :: o.entries[x].inFlight
    requires Can(w, Without(o, n + 1, now), k)
    ensures Can(w, Idle(o, w.u, e, n, t), k)
  {
    var held := InFlight(o, v, Held(Fresh(now), now), Guard(v, false, now), n, now);
    AdmitPurging(w.p, o, w.u, e, n, t, v, now);
    CancelHeld(w.p, true, o, v, Held(Fresh(now), now), Guard(v, false, now), n, now);
    CallThen(w, held, Cancel(n), Without(o, n + 1, now), k);
    CallThen(w, Idle(o, w.u, e, n, t), Admit(v, now), held, k);
  }

  /** `k` wrong codes of a subject the table does not know. */
  lemma NewcomerThen(w: Watch, o: Others, n: nat, now: int, k: nat, j: nat)
    requires w.p.Valid() && w.a <= now < w.b && Room(w.p, o, w.u, n) && 2 <= w.p.maxFailures
             && 1 <= k <= w.p.maxFailures
    requires Can(w, Idle(o, w.u, AfterMany(w.p, After(w.p, Fresh(now), now), now, k - 1), n + k, now), j)
    ensures Can(w, Without(o, n, now), k + j)
  {
    AdmitNew(w.p, true, o, w.u, n, now, now);
    BurstThen(w, Without(o, n, now), o, Fresh(now), n, now, k, j);
  }

  /** A late admission and a purge let a subject start afresh within the interval. */
  lemma AfreshThen(w: Watch, e: Entry, n: nat, k: nat)
    requires w.p.Valid() && w.lag > Slack(w.p) && w.a == 0 && w.b == w.p.Span() && w.p.maxTracked - 1 <= n
    requires !e.inFlight && e.failures >= 1 && e.blockUntil.None?
    requires Can(w, Without(Fillers(w.u, w.p.maxTracked - 1), n + 2, w.p.Span() - 1), k)
    ensures Can(w, Idle(Fillers(w.u, w.p.maxTracked - 1), w.u, e, n, 0), k)
  {
    var j, now, late: int := w.p.maxTracked - 1, w.p.Span() - 1, 0 - w.lag;
    var o := Fillers(w.u, j);
    FillersFit(w.u, j);
    PurgeThen(w, o, e.(lastSeen := late), n + 1, 0, Filler(w.u, j), now, k);
    LateThen(w, o, e, n, 0, late, k);
  }

  lemma FullCount(w: Watch, n: nat, now: int)
    requires w.p.Valid() && 2 <= w.p.maxFailures && w.a <= now < w.b && w.p.maxTracked - 1 <= n
    ensures Can(w, Without(Fillers(w.u, w.p.maxTracked - 1), n, now), w.p.maxFailures)
  {
    var m, o := w.p.maxFailures, Fillers(w.u, w.p.maxTracked - 1);
    FillersFit(w.u, w.p.maxTracked - 1);
    CanRest(w, Idle(o, w.u, AfterMany(w.p, After(w.p, Fresh(now), now), now, m - 1), n + m, now));
    NewcomerThen(w, o, n, now, m, 0);
  }

  /** What all but one failure of a count leave behind. */
  lemma AlmostFull(p: Policy, now: int)
    requires p.Valid() && 2 <= p.maxFailures
    ensures var e := AfterMany(p, After(p, Fresh(now), now), now, p.maxFailures - 2);
            !e.inFlight && e.failures >= 1 && e.blockUntil.None?
  {
    AfterManyCounts(p, After(p, Fresh(now), now), now, p.maxFailures - 2);
  }

  /** All but one failure of a count, a fresh start, and a full count. */
  lemma LateReadsExceed(w: Watch)
    requires w.p.Valid() && 2 <= w.p.maxFailures && w.lag > Slack(w.p) && w.a == 0 && w.b == w.p.Span()
    ensures Can(w, Initial(0), 2 * w.p.maxFailures - 1)
  {
    var m, j := w.p.maxFailures, w.p.maxTracked - 1;
    FullCount(w, j + m + 1, w.p.Span() - 1);
    AlmostFull(w.p, 0);
    AfreshThen(w, AfterMany(w.p, After(w.p, Fresh(0), 0), 0, m - 2), j + m - 1, m);
    FillersFit(w.u, j);
    NewcomerThen(w, Fillers(w.u, j), j, 0, m - 1, m);
    FillThen(w, 0, j, 2 * m - 1);
  }

  /** No run with admissions that lag by at most `lag` exceeds the bound. */
  ghost predicate Bounded(p: Policy, lag: nat) {
    forall u, a, b, start, history, calls | b - a <= p.Span()
      && Plausible(Watch(p, lag, u, a, b), start, history, calls) ::
      Counted(Watch(p, lag, u, a, b), Run(p, Initial(start), history), calls) <= GuessLimit(p.maxFailures)
  }

  /**
   The bound holds exactly if one failure locks, or no admission lags by more than the longer of window and
   lockout and one tick: with any more lag some run records a failure too many.
   */
  lemma BoundIsExact(p: Policy, lag: nat)
    requires p.Valid()
    ensures Bounded(p, lag) <==> p.maxFailures == 1 || lag <= Slack(p)
  {
    if p.maxFailures == 1 || lag <= Slack(p) {
      forall u, a, b, start, history, calls | b - a <= p.Span()
        && Plausible(Watch(p, lag, u, a, b), start, history, calls)
        ensures Counted(Watch(p, lag, u, a, b), Run(p, Initial(start), history), calls) <= GuessLimit(p.maxFailures)
      {
        GuessBound(Watch(p, lag, u, a, b), start, history, calls);
      }
    } else {
      var w := Watch(p, lag, "", 0, p.Span());
      LateReadsExceed(w);
      var calls :| Achieves(w, Initial(0), calls, 2 * p.maxFailures - 1);
      assert Run(p, Initial(0), []) == Initial(0);
      assert Plausible(w, 0, [], calls);
    }
  }
}
