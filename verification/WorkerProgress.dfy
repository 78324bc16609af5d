/**
 What the password workers can always do: work that nothing disturbs is derived and gives back what it took,
 and close goes through once the registered workers have exited.
 */
module WorkerProgress {
  import opened Common
  import opened PasswordWorkers

  lemma {:induction false} RunConcat(s: State, a: seq<Step>, b: seq<Step>)
    ensures Run(s, a + b) == Run(Run(s, a), b)
    decreases |a|
  {
    if a == [] {
      assert a + b == b;
    } else {
      assert (a + b)[1..] == a[1..] + b;
      RunConcat(Next(s, a[0]), a[1..], b);
    }
  }

  /** What a work goes through if nothing disturbs it. */
  function Course(w: WorkId, lease: Option<LeaseId>): seq<Step> {
    [Submit(w, lease), Acquire(w), Spawn(w), Begin(w), Derive(w), Exit(w)]
  }

  lemma LastStep(s: State, e: Step)
    ensures Run(s, [e]) == Next(s, e)
  {
    assert [e][1..] == [];
  }

  lemma OneStep(s: State, steps: seq<Step>, k: nat)
    requires k < |steps|
    ensures Run(s, steps[..k + 1]) == Next(Run(s, steps[..k]), steps[k])
  {
    assert steps[..k + 1] == steps[..k] + [steps[k]];
    RunConcat(s, steps[..k], [steps[k]]);
    LastStep(Run(s, steps[..k]), steps[k]);
  }

  predicate Open(s: State, w: WorkId, lease: Option<LeaseId>) {
    && s.phase.Ready? && s.closer.Unclosed? && s.available > 0 && w !in s.works
    && (lease.Some? ==> Owned(s, lease.value) && s.leases[lease.value].strong >= 1)
  }

  function StageAfter(k: nat): Stage
    requires 1 <= k <= 6
  {
    match k
    case 1 => Waiting
    case 2 => Permitted
    case 3 => Registered
    case 4 => Running
    case 5 => Derived
    case _ => Ended
  }

  /** The state `k` steps into the course: the work holds a permit in between, and both handles until it derives. */
  function After(s: State, w: WorkId, lease: Option<LeaseId>, k: nat): State
    requires Open(s, w, lease) && 1 <= k <= 6
  {
    var held := 2 <= k <= 5;
    var put := s.(works := s.works[w := Work(lease, StageAfter(k), true, held, lease.Some? && k < 6, lease.Some?
      && k < 5)],
                  available := s.available - Bit(held));
    if lease.None? || k == 6 then put
    else put.(leases := s.leases[lease.value := s.leases[lease.value].(strong := s.leases[lease.value].strong
                                                                                 + (if k == 5 then 1 else 2))])
  }

  lemma CourseBegins(s: State, w: WorkId, lease: Option<LeaseId>)
    requires Open(s, w, lease)
    ensures Next(s, Submit(w, lease)) == After(s, w, lease, 1)
  {
  }

  lemma CourseMoves(s: State, w: WorkId, lease: Option<LeaseId>, k: nat)
    requires Open(s, w, lease) && 2 <= k <= 4
    ensures Next(After(s, w, lease, k - 1), Course(w, lease)[k - 1]) == After(s, w, lease, k)
  {
    var r := After(s, w, lease, k - 1);
    assert r.works[w].stage == StageAfter(k - 1);
  }

  lemma CourseDerives(s: State, w: WorkId, lease: Option<LeaseId>)
    requires Open(s, w, lease)
    ensures Next(After(s, w, lease, 4), Derive(w)) == After(s, w, lease, 5)
  {
    assert After(s, w, lease, 4).works[w].stage == Running;
  }

  lemma CourseEnds(s: State, w: WorkId, lease: Option<LeaseId>)
    requires Open(s, w, lease)
    ensures Next(After(s, w, lease, 5), Exit(w)) == After(s, w, lease, 6)
  {
    assert After(s, w, lease, 5).works[w].stage == Derived;
    if lease.Some? {
      assert After(s, w, lease, 5).leases[lease.value := s.leases[lease.value]] == s.leases;
    }
  }

  lemma {:induction false} CourseHolds(s: State, w: WorkId, lease: Option<LeaseId>, k: nat)
    requires Open(s, w, lease) && 1 <= k <= 6
    ensures Run(s, Course(w, lease)[..k]) == After(s, w, lease, k)
    decreases k
  {
    var steps := Course(w, lease);
    OneStep(s, steps, k - 1);
    if k == 1 {
      assert steps[..0] == [];
      CourseBegins(s, w, lease);
    } else {
      CourseHolds(s, w, lease, k - 1);
      if k <= 4 {
        CourseMoves(s, w, lease, k);
      } else if k == 5 {
        CourseDerives(s, w, lease);
      } else {
        CourseEnds(s, w, lease);
      }
    }
  }

  /**
   While the pool is open and a permit is free, work submitted under a lease its caller owns waits, takes
   the permit, is registered, runs, has derived and ends; it then has returned its permit and its handles,
   and nothing else has changed.
   */
  lemma UndisturbedWork(s: State, w: WorkId, lease: Option<LeaseId>, k: nat)
    requires Sound(s) && Tracked(s) && 1 <= k <= 6
    requires s.phase.Ready? && s.closer.Unclosed? && s.available > 0 && w !in s.works
    requires lease.Some? ==> Owned(s, lease.value)
    ensures var r := Run(s, Course(w, lease)[..k]);
            && w in r.works
            && r.works[w].stage == [Waiting, Permitted, Registered, Running, Derived, Ended][k - 1]
            && r.available == s.available - Bit(2 <= k <= 5)
            && (k == 6 ==> r.leases == s.leases)
            && r.released == s.released && forall x | x in s.works :: x in r.works && r.works[x] == s.works[x]
  {
    CourseHolds(s, w, lease, k);
  }

  /** Startup derives once and then admits work. */
  lemma StartupCompletes(limit: nat)
    ensures var s := Run(Initial(limit), [Boot, Begin(BOOT), Derive(BOOT), Exit(BOOT), BootDone]);
            s.phase.Ready? && s.available == limit && s.closer.Unclosed? && s.works.Keys == {BOOT}
  {
    var steps := [Boot, Begin(BOOT), Derive(BOOT), Exit(BOOT), BootDone];
    var s := Initial(limit);
    assert steps[..0] == [] && steps[..5] == steps;
    OneStep(s, steps, 0);
    OneStep(s, steps, 1);
    OneStep(s, steps, 2);
    OneStep(s, steps, 3);
    OneStep(s, steps, 4);
  }

  /** Registered work outlives its caller, and work that is not yet registered ends with it. */
  lemma LosingTheCaller(s: State, w: WorkId)
    requires Sound(s) && w in s.works && s.works[w].caller
    ensures var r := Next(s, LoseCaller(w));
            && w in r.works && !r.works[w].caller
            && r.works[w].stage == (if Live(s.works[w].stage) then s.works[w].stage else Ended)
            && (Live(s.works[w].stage) ==> r.works[w].permit == s.works[w].permit && r.available == s.available)
            && (!Live(s.works[w].stage) ==> !r.works[w].permit)
  {
    assert WorkFits(s, w, s.works[w]);
  }

  /** After the pool is marked closed nothing is registered any more: a permitted work ends instead. */
  lemma ClosedPoolRegistersNothing(s: State, e: Step, w: WorkId)
    requires ClosedFlag(s) && w in Next(s, e).works && Live(Next(s, e).works[w].stage)
    ensures w in s.works && Live(s.works[w].stage)
  {
  }

  ghost function LiveNow(works: map<WorkId, Work>): set<WorkId> { set w | w in works && Live(works[w].stage) }

  /** Letting every registered worker exit drains the pool. */
  lemma {:induction false} Drain(s: State) returns (steps: seq<Step>)
    ensures forall i | 0 <= i < |steps| :: steps[i].Exit?
    ensures NoTasks(Run(s, steps)) && Run(s, steps).closer == s.closer
    decreases |LiveNow(s.works)|
  {
    if NoTasks(s) {
      steps := [];
    } else {
      var w :| w in s.works && Live(s.works[w].stage);
      var next := Next(s, Exit(w));
      assert LiveNow(next.works) == LiveNow(s.works) - {w};
      var rest := Drain(next);
      steps := [Exit(w)] + rest;
      assert steps[1..] == rest;
    }
  }

  lemma CloseDrains(s: State)
    ensures Run(s, [CloseMark, CloseSlots, CloseTasks]).closer in {Draining, Returned}
  {
    var steps := [CloseMark, CloseSlots, CloseTasks];
    assert steps[..0] == [] && steps[..3] == steps;
    OneStep(s, steps, 0);
    OneStep(s, steps, 1);
    OneStep(s, steps, 2);
  }

  /** Close can always go through: once the registered workers have exited, it returns. */
  lemma CloseCanReturn(s: State) returns (steps: seq<Step>)
    ensures forall i | 0 <= i < |steps| ::
              steps[i] in {CloseMark, CloseSlots, CloseTasks, CloseReturn} || steps[i].Exit?
    ensures Run(s, steps).closer.Returned?
  {
    var closing := [CloseMark, CloseSlots, CloseTasks];
    CloseDrains(s);
    var exits := Drain(Run(s, closing));
    var drained := Run(Run(s, closing), exits);
    RunConcat(s, closing, exits);
    RunConcat(s, closing + exits, [CloseReturn]);
    steps := closing + exits + [CloseReturn];
    LastStep(drained, CloseReturn);
  }
}
