/**
 The physical password workers: a semaphore bounds the key derivations, a mutex serialises
 registration with closing, and close waits for every registered worker. A lease is shared by
 reference counting: admission hands out the first handle, every admitted work takes two more, one
 for itself and one for its operation, and whoever drops the last handle releases the lease.

 A step that is not enabled leaves the state alone, so every sequence of steps is a run. The mutex
 is held from the moment close marks the pool closed until the tracker is closed; registration
 needs it free.
 */
module PasswordWorkers {
  import opened Common

  type WorkId = nat
  type LeaseId = nat

  /** Waiting for a permit, holding one before registration, registered, deriving, derived, or over. */
  datatype Stage = Waiting | Permitted | Registered | Running | Derived | Ended

  /**
   One piece of work; `caller` says whether somebody still awaits it, `permit` whether it owns a slot.
   Until registration the caller's future owns its handles on the lease, afterwards the blocking closure.
   */
  datatype Work = Work(lease: Option<LeaseId>, stage: Stage, caller: bool, permit: bool, logical: bool, captured: bool)

  /** The shared allocation of a lease: its strong count, and the handles outside any work. */
  datatype Shared = Shared(strong: int, owners: nat)

  /** Startup runs one derivation outside the semaphore before any other work can exist. */
  datatype Phase = New | Booting | Ready

  datatype Closer = Unclosed | Marked | SlotsClosed | Draining | Returned

  /** `leases` are the allocations that still exist; `released` lists the leases dropped so far. */
  datatype State = State(limit: nat, phase: Phase, closer: Closer, available: int, works: map<WorkId, Work>,
                         leases: map<LeaseId, Shared>, released: seq<LeaseId>)

  const BOOT: WorkId := 0

  function Initial(limit: nat): State { State(limit, New, Unclosed, limit, map[], map[], []) }

  datatype Step =
    | Boot
    | BootDone
    | Grant(lease: LeaseId)
    | Share(lease: LeaseId)
    | Forget(lease: LeaseId)
    | Submit(work: WorkId, holds: Option<LeaseId>)
    | Acquire(work: WorkId)
    | Spawn(work: WorkId)
    | Begin(work: WorkId)
    | Derive(work: WorkId)
    | Exit(work: WorkId)
    | GiveUp(work: WorkId)
    | LoseCaller(work: WorkId)
    | CloseMark
    | CloseSlots
    | CloseTasks
    | CloseReturn

  predicate Live(stage: Stage) { stage.Registered? || stage.Running? || stage.Derived? }

  /** The tracker is empty. */
  ghost predicate NoTasks(s: State) {
    forall w | w in s.works :: !Live(s.works[w].stage)
  }

  /** The mutex around registration is free. */
  predicate Unlocked(s: State) { s.closer.Unclosed? || s.closer.Draining? || s.closer.Returned? }

  predicate ClosedFlag(s: State) { !s.closer.Unclosed? }

  predicate SlotsAreClosed(s: State) { !s.closer.Unclosed? && !s.closer.Marked? }

  // ---------------------------------------------------------------- handles

  function Bit(b: bool): nat { if b then 1 else 0 }

  function HandlesOf(work: Work): nat { Bit(work.logical) + Bit(work.captured) }

  predicate Owned(s: State, lease: LeaseId) { lease in s.leases && s.leases[lease].owners > 0 }

  /** Dropping `k` handles: the last one releases the lease. */
  function DropHandles(s: State, lease: LeaseId, k: nat): State
    requires lease in s.leases
  {
    var shared := s.leases[lease];
    if shared.strong == k then s.(leases := s.leases - {lease}, released := s.released + [lease])
    else s.(leases := s.leases[lease := shared.(strong := shared.strong - k)])
  }

  /** Puts the work `w` into its next stage and drops the handles it no longer owns. */
  function Settle(s: State, w: WorkId, work: Work): State
    requires w in s.works && HandlesOf(work) <= HandlesOf(s.works[w])
  {
    var put, k := s.(works := s.works[w := work]), HandlesOf(s.works[w]) - HandlesOf(work);
    if k > 0 && work.lease.Some? && work.lease.value in s.leases then DropHandles(put, work.lease.value, k) else put
  }

  /** The work is over: its future or closure is dropped, with its handles and its permit. */
  function Finish(s: State, w: WorkId): State
    requires w in s.works
  {
    var work := s.works[w];
    Settle(s, w, work.(stage := Ended, permit := false, logical := false, captured := false))
      .(available := s.available + Bit(work.permit))
  }

  /** Creating a work clones two handles out of one its caller owns. */
  function Submitted(s: State, w: WorkId, lease: Option<LeaseId>): State
    requires lease.Some? ==> lease.value in s.leases
  {
    var put := s.(works := s.works[w := Work(lease, Waiting, true, false, lease.Some?, lease.Some?)]);
    if lease.None? then put
    else
      var shared := s.leases[lease.value];
      put.(leases := s.leases[lease.value := shared.(strong := shared.strong + 2)])
  }

  ghost function Next(s: State, e: Step): State {
    match e
    case Boot =>
      if s.phase.New? && !ClosedFlag(s) && Unlocked(s) && BOOT !in s.works
      then s.(works := s.works[BOOT := Work(None, Registered, true, false, false, false)], phase := Booting) else s
    case BootDone => if s.phase.Booting? && BOOT in s.works && s.works[BOOT].stage.Ended? then s.(phase := Ready) else s
    case Grant(lease) =>
      if lease in s.leases || lease in s.released then s else s.(leases := s.leases[lease := Shared(1, 1)])
    case Share(lease) =>
      if !Owned(s, lease) then s
      else s.(leases := s.leases[lease := Shared(s.leases[lease].strong + 1, s.leases[lease].owners + 1)])
    case Forget(lease) =>
      if !Owned(s, lease) then s
      else DropHandles(s.(leases := s.leases[lease := s.leases[lease].(owners := s.leases[lease].owners - 1)]), lease,
          1)
    case Submit(w, lease) =>
      if s.phase.Ready? && w !in s.works && (lease.Some? ==> Owned(s, lease.value)) then Submitted(s, w, lease) else s
    case Acquire(w) =>
      if w in s.works && s.works[w].stage.Waiting? && !SlotsAreClosed(s) && s.available > 0
      then Settle(s, w, s.works[w].(stage := Permitted, permit := true)).(available := s.available - 1) else s
    case Spawn(w) =>
      if w in s.works && s.works[w].stage.Permitted? && Unlocked(s)
      then if ClosedFlag(s) then Finish(s, w) else Settle(s, w, s.works[w].(stage := Registered))
      else s
    case Begin(w) =>
      if w in s.works && s.works[w].stage.Registered? then Settle(s, w, s.works[w].(stage := Running)) else s
    case Derive(w) =>
      if w in s.works && s.works[w].stage.Running?
      then Settle(s, w, s.works[w].(stage := Derived, captured := false)) else s
    case Exit(w) => if w in s.works && Live(s.works[w].stage) then Finish(s, w) else s
    case GiveUp(w) =>
      if w in s.works && (s.works[w].stage.Waiting? || s.works[w].stage.Permitted?) then Finish(s, w) else s
    case LoseCaller(w) =>
      if w !in s.works || !s.works[w].caller then s
      else
        var gone := Settle(s, w, s.works[w].(caller := false));
        if Live(s.works[w].stage) || s.works[w].stage.Ended? then gone else Finish(gone, w)
    case CloseMark => if s.closer.Unclosed? then s.(closer := Marked) else s
    case CloseSlots => if s.closer.Marked? then s.(closer := SlotsClosed) else s
    case CloseTasks => if s.closer.SlotsClosed? then s.(closer := Draining) else s
    case CloseReturn => if s.closer.Draining? && NoTasks(s) then s.(closer := Returned) else s
  }

  ghost function Run(s: State, steps: seq<Step>): State
    decreases |steps|
  {
    if steps == [] then s else Run(Next(s, steps[0]), steps[1..])
  }

  // ---------------------------------------------------------------- permits

  ghost function Permits(works: map<WorkId, Work>): set<WorkId> { set w | w in works && works[w].permit }

  ghost function RunningNow(works: map<WorkId, Work>): set<WorkId> { set w | w in works && works[w].stage.Running? }

  /**
   Only the startup derivation works without a permit, and before the engine is ready nothing else
   exists. A work keeps both handles until it has derived, and its own until it is over.
   */
  predicate WorkFits(s: State, w: WorkId, work: Work) {
    && (work.permit <==> (work.stage.Permitted? || Live(work.stage)) && w != BOOT)
    && (s.phase.Ready? ==> w != BOOT || work.stage.Ended?)
    && (!s.phase.Ready? ==> w == BOOT)
    && (w == BOOT ==> work.lease.None? && !work.stage.Permitted? && !work.stage.Waiting?)
    && work.logical == (work.lease.Some? && !work.stage.Ended?)
    && work.captured == (work.logical && !work.stage.Derived?)
    && (s.closer.Returned? ==> !Live(work.stage))
  }

  ghost predicate Sound(s: State) {
    && 1 <= s.limit && 0 <= s.available && s.available + |Permits(s.works)| == s.limit
    && (forall w | w in s.works :: WorkFits(s, w, s.works[w]))
    && (s.phase.Ready? ==> BOOT in s.works)
  }

  lemma PermitsPut(works: map<WorkId, Work>, w: WorkId, work: Work)
    ensures |Permits(works[w := work])| ==
            |Permits(works)| + Bit(work.permit) - Bit(w in works && works[w].permit)
  {
    var before, after := Permits(works), Permits(works[w := work]);
    if work.permit {
      assert after == before + {w};
    } else {
      assert after == before - {w};
    }
  }

  /** Two states that differ in leases only are equally sound. */
  predicate SameWorks(s: State, r: State) {
    r.limit == s.limit && r.phase == s.phase && r.closer == s.closer && r.available == s.available && r.works == s.works
  }

  lemma SameSound(s: State, r: State)
    requires Sound(s) && SameWorks(s, r)
    ensures Sound(r)
  {
  }

  /** Replacing one work keeps the accounting if the permits it takes and returns are counted. */
  lemma PutSound(s: State, w: WorkId, work: Work, r: State)
    requires Sound(s) && WorkFits(s, w, work) && 0 <= r.available
    requires SameWorks(s.(works := s.works[w := work], available := r.available), r)
    requires r.available + Bit(work.permit) == s.available + Bit(w in s.works && s.works[w].permit)
    ensures Sound(r)
  {
    PermitsPut(s.works, w, work);
  }

  lemma FinishSound(s: State, w: WorkId)
    requires Sound(s) && w in s.works
    ensures Sound(Finish(s, w))
  {
    assert WorkFits(s, w, s.works[w]);
    PutSound(s, w, s.works[w].(stage := Ended, permit := false, logical := false, captured := false), Finish(s, w));
  }

  /** The steps that move one work along. */
  lemma WorkSound(s: State, e: Step, w: WorkId)
    requires Sound(s) && w in s.works && Next(s, e) != s
    requires e == Acquire(w) || e == Spawn(w) || e == Begin(w) || e == Derive(w) || e == Exit(w) || e == GiveUp(w)
    ensures Sound(Next(s, e))
  {
    var work, next := s.works[w], Next(s, e);
    assert WorkFits(s, w, work);
    if e.Acquire? {
      PutSound(s, w, work.(stage := Permitted, permit := true), next);
    } else if e.Spawn? && !ClosedFlag(s) {
      PutSound(s, w, work.(stage := Registered), next);
    } else if e.Begin? {
      PutSound(s, w, work.(stage := Running), next);
    } else if e.Derive? {
      PutSound(s, w, work.(stage := Derived, captured := false), next);
    } else {
      FinishSound(s, w);
    }
  }

  lemma LoseCallerSound(s: State, w: WorkId)
    requires Sound(s) && w in s.works
    ensures Sound(Next(s, LoseCaller(w)))
  {
    var gone := Settle(s, w, s.works[w].(caller := false));
    assert WorkFits(s, w, s.works[w]);
    PutSound(s, w, s.works[w].(caller := false), gone);
    FinishSound(gone, w);
  }

  lemma NextSound(s: State, e: Step)
    requires Sound(s)
    ensures Sound(Next(s, e))
  {
    if Next(s, e) != s {
      if e.Boot? {
        PutSound(s.(phase := Booting), BOOT, Work(None, Registered, true, false, false, false), Next(s, e));
      } else if e.Submit? {
        PutSound(s, e.work, Work(e.holds, Waiting, true, false, e.holds.Some?, e.holds.Some?), Next(s, e));
      } else if e.LoseCaller? {
        LoseCallerSound(s, e.work);
      } else if e.Acquire? || e.Spawn? || e.Begin? || e.Derive? || e.Exit? || e.GiveUp? {
        WorkSound(s, e, e.work);
      } else if e.Grant? || e.Share? || e.Forget? {
        SameSound(s, Next(s, e));
      }
    }
  }

  lemma {:induction false} RunSound(s: State, steps: seq<Step>)
    requires Sound(s)
    ensures Sound(Run(s, steps))
    decreases |steps|
  {
    if steps != [] {
      NextSound(s, steps[0]);
      RunSound(Next(s, steps[0]), steps[1..]);
    }
  }

  // ---------------------------------------------------------------- handles are counted

  ghost function Logical(works: map<WorkId, Work>, l: LeaseId): set<WorkId> {
    set w | w in works && works[w].lease == Some(l) && works[w].logical
  }

  ghost function Captured(works: map<WorkId, Work>, l: LeaseId): set<WorkId> {
    set w | w in works && works[w].lease == Some(l) && works[w].captured
  }

  /** All handles on the lease that works own, in futures and closures. */
  ghost function Handles(works: map<WorkId, Work>, l: LeaseId): nat { |Logical(works, l)| + |Captured(works, l)| }

  function HandlesOn(work: Work, l: LeaseId): nat { if work.lease == Some(l) then HandlesOf(work) else 0 }

  lemma LogicalPut(works: map<WorkId, Work>, w: WorkId, work: Work, l: LeaseId)
    ensures |Logical(works[w := work], l)| == |Logical(works, l)| + Bit(work.lease == Some(l) && work.logical)
                                              - Bit(w in works && works[w].lease == Some(l) && works[w].logical)
  {
    var before, after := Logical(works, l), Logical(works[w := work], l);
    if work.lease == Some(l) && work.logical {
      assert after == before + {w};
    } else {
      assert after == before - {w};
    }
  }

  lemma CapturedPut(works: map<WorkId, Work>, w: WorkId, work: Work, l: LeaseId)
    ensures |Captured(works[w := work], l)| == |Captured(works, l)| + Bit(work.lease == Some(l) && work.captured)
                                               - Bit(w in works && works[w].lease == Some(l) && works[w].captured)
  {
    var before, after := Captured(works, l), Captured(works[w := work], l);
    if work.lease == Some(l) && work.captured {
      assert after == before + {w};
    } else {
      assert after == before - {w};
    }
  }

  lemma HandlesPut(works: map<WorkId, Work>, w: WorkId, work: Work, l: LeaseId)
    ensures Handles(works[w := work], l) + (if w in works then HandlesOn(works[w], l) else 0)
            == Handles(works, l) + HandlesOn(work, l)
  {
    LogicalPut(works, w, work, l);
    CapturedPut(works, w, work, l);
  }

  /** One handle of a work is among all of them. */
  lemma HandlesHeld(works: map<WorkId, Work>, w: WorkId, l: LeaseId)
    requires w in works
    ensures HandlesOn(works[w], l) <= Handles(works, l)
  {
    if works[w].lease == Some(l) && works[w].logical {
      assert w in Logical(works, l);
    }
    if works[w].lease == Some(l) && works[w].captured {
      assert w in Captured(works, l);
    }
  }

  /** The strong count of `l`, less `k` handles about to be dropped, is the number of handles. */
  ghost predicate CountFits(s: State, l: LeaseId, k: nat)
    requires l in s.leases
  {
    1 <= s.leases[l].strong == s.leases[l].owners + Handles(s.works, l) + k
  }

  ghost predicate ReleasedOnce(s: State) {
    && Distinct(s.released)
    && (forall l | l in s.released :: l !in s.leases)
  }

  /**
   What every reachable state satisfies: each allocation's count is its handles, a lease without
   allocation has none, and no lease has been released twice.
   */
  ghost predicate Tracked(s: State) {
    && (forall l | l in s.leases :: CountFits(s, l, 0))
    && (forall l: LeaseId :: l !in s.leases ==> Handles(s.works, l) == 0)
    && ReleasedOnce(s)
  }

  /** While `k` handles of `l` wait to be dropped everything else is tracked. */
  ghost predicate Owing(s: State, l: LeaseId, k: nat) {
    && l in s.leases && CountFits(s, l, k)
    && (forall x | x in s.leases && x != l :: CountFits(s, x, 0))
    && (forall x: LeaseId :: x !in s.leases ==> Handles(s.works, x) == 0)
    && ReleasedOnce(s)
  }

  lemma DropTracked(s: State, l: LeaseId, k: nat)
    requires Owing(s, l, k)
    ensures k <= s.leases[l].strong && Tracked(DropHandles(s, l, k))
  {
  }

  lemma SettleTracked(s: State, w: WorkId, work: Work)
    requires Tracked(s) && w in s.works && work.lease == s.works[w].lease && HandlesOf(work) <= HandlesOf(s.works[w])
    requires work.lease.None? ==> HandlesOf(s.works[w]) == 0
    ensures Tracked(Settle(s, w, work))
  {
    var put, k := s.(works := s.works[w := work]), HandlesOf(s.works[w]) - HandlesOf(work);
    forall l: LeaseId ensures Handles(put.works, l) + (if work.lease == Some(l) then k else 0) == Handles(s.works, l) {
      HandlesPut(s.works, w, work, l);
    }
    if k > 0 {
      HandlesHeld(s.works, w, work.lease.value);
      assert work.lease.value in s.leases;
      assert Owing(put, work.lease.value, k);
      DropTracked(put, work.lease.value, k);
    }
  }

  lemma SameTracked(s: State, r: State)
    requires Tracked(s) && r.works == s.works && r.leases == s.leases && r.released == s.released
    ensures Tracked(r)
  {
  }

  lemma FinishTracked(s: State, w: WorkId)
    requires Sound(s) && Tracked(s) && w in s.works
    ensures Tracked(Finish(s, w))
  {
    var work := s.works[w].(stage := Ended, permit := false, logical := false, captured := false);
    assert WorkFits(s, w, s.works[w]);
    SettleTracked(s, w, work);
    SameTracked(Settle(s, w, work), Finish(s, w));
  }

  /** A caller's handle appears or goes; `leases` is the table with the new owner count and the old strong count. */
  lemma OwnersTracked(s: State, e: Step)
    requires Tracked(s) && (e.Grant? || e.Share? || e.Forget?)
    ensures Tracked(Next(s, e))
  {
    var l := e.lease;
    if e.Forget? && Owned(s, l) {
      var less := s.(leases := s.leases[l := s.leases[l].(owners := s.leases[l].owners - 1)]);
      assert Owing(less, l, 1);
      DropTracked(less, l, 1);
    }
  }

  lemma SubmitTracked(s: State, w: WorkId, lease: Option<LeaseId>)
    requires Tracked(s) && w !in s.works && (lease.Some? ==> lease.value in s.leases)
    ensures Tracked(Submitted(s, w, lease))
  {
    var work := Work(lease, Waiting, true, false, lease.Some?, lease.Some?);
    forall l: LeaseId ensures Handles(s.works[w := work], l)
      == Handles(s.works, l) + (if lease == Some(l) then 2 else 0) {
      HandlesPut(s.works, w, work, l);
    }
  }

  lemma WorkTracked(s: State, e: Step, w: WorkId)
    requires Sound(s) && Tracked(s) && w in s.works && Next(s, e) != s
    requires e == Acquire(w) || e == Spawn(w) || e == Begin(w) || e == Derive(w) || e == Exit(w) || e == GiveUp(w)
    ensures Tracked(Next(s, e))
  {
    var work := s.works[w];
    assert WorkFits(s, w, work);
    if e.Acquire? {
      SettleTracked(s, w, work.(stage := Permitted, permit := true));
      SameTracked(Settle(s, w, work.(stage := Permitted, permit := true)), Next(s, e));
    } else if e.Spawn? && !ClosedFlag(s) {
      SettleTracked(s, w, work.(stage := Registered));
    } else if e.Begin? {
      SettleTracked(s, w, work.(stage := Running));
    } else if e.Derive? {
      SettleTracked(s, w, work.(stage := Derived, captured := false));
    } else {
      FinishTracked(s, w);
    }
  }

  lemma LoseCallerTracked(s: State, w: WorkId)
    requires Sound(s) && Tracked(s) && w in s.works
    ensures Tracked(Next(s, LoseCaller(w)))
  {
    var gone := Settle(s, w, s.works[w].(caller := false));
    assert WorkFits(s, w, s.works[w]);
    SettleTracked(s, w, s.works[w].(caller := false));
    PutSound(s, w, s.works[w].(caller := false), gone);
    FinishTracked(gone, w);
  }

  lemma NextTracked(s: State, e: Step)
    requires Sound(s) && Tracked(s)
    ensures Tracked(Next(s, e))
  {
    if Next(s, e) != s {
      if e.Boot? {
        SubmitTracked(s, BOOT, None);
        BootTracked(s);
      } else if e.Submit? {
        SubmitTracked(s, e.work, e.holds);
      } else if e.LoseCaller? {
        LoseCallerTracked(s, e.work);
      } else if e.Acquire? || e.Spawn? || e.Begin? || e.Derive? || e.Exit? || e.GiveUp? {
        WorkTracked(s, e, e.work);
      } else if e.Grant? || e.Share? || e.Forget? {
        OwnersTracked(s, e);
      } else {
        SameTracked(s, Next(s, e));
      }
    }
  }

  lemma BootTracked(s: State)
    requires Tracked(s) && BOOT !in s.works
    ensures Tracked(s.(works := s.works[BOOT := Work(None, Registered, true, false, false, false)], phase := Booting))
  {
    forall l: LeaseId ensures Handles(s.works[BOOT := Work(None, Registered, true, false, false, false)], l)
      == Handles(s.works, l) {
      HandlesPut(s.works, BOOT, Work(None, Registered, true, false, false, false), l);
    }
  }

  lemma {:induction false} RunTracked(s: State, steps: seq<Step>)
    requires Sound(s) && Tracked(s)
    ensures Sound(Run(s, steps)) && Tracked(Run(s, steps))
    decreases |steps|
  {
    if steps != [] {
      NextSound(s, steps[0]);
      NextTracked(s, steps[0]);
      RunTracked(Next(s, steps[0]), steps[1..]);
    }
  }

  // ---------------------------------------------------------------- what admission and shutdown can rely on

  lemma RunInitial(limit: nat, steps: seq<Step>)
    requires 1 <= limit
    ensures var s := Run(Initial(limit), steps); Sound(s) && Tracked(s) && s.limit == limit
  {
    assert Permits(map[]) == {};
    forall l: LeaseId ensures Handles(map[], l) == 0 {
      assert Logical(map[], l) == {} && Captured(map[], l) == {};
    }
    RunTracked(Initial(limit), steps);
    LimitIsFixed(Initial(limit), steps);
  }

  /** In every run at most the limit of derivations run at once. */
  lemma WorkersAreBounded(limit: nat, steps: seq<Step>)
    requires 1 <= limit
    ensures |RunningNow(Run(Initial(limit), steps).works)| <= limit
  {
    var s := Run(Initial(limit), steps);
    RunInitial(limit, steps);
    var running := RunningNow(s.works);
    if s.phase.Ready? {
      assert running <= Permits(s.works);
      SubsetSize(running, Permits(s.works));
    } else {
      assert running <= {BOOT};
      SubsetSize(running, {BOOT});
    }
  }

  /**
   A lease lives as long as anybody holds it. In every run its strong count is the number of its handles,
   so a running derivation keeps its lease, twice, whether or not its caller is still there; a lease that
   nobody holds has been released, and no lease is released twice.
   */
  lemma LeasesOutliveWorkers(limit: nat, steps: seq<Step>, w: WorkId, l: LeaseId)
    requires 1 <= limit
    ensures var s := Run(Initial(limit), steps);
            && (l in s.leases ==> 1 <= s.leases[l].strong == s.leases[l].owners + Handles(s.works, l))
            && (l !in s.leases ==> Handles(s.works, l) == 0)
            && (w in s.works && s.works[w].lease == Some(l) && !s.works[w].stage.Ended? ==>
                  l in s.leases && l !in s.released)
            && (w in s.works && s.works[w].lease == Some(l) && s.works[w].stage.Running? ==> s.leases[l].strong >= 2)
            && Distinct(s.released)
  {
    var s := Run(Initial(limit), steps);
    RunInitial(limit, steps);
    if w in s.works {
      assert WorkFits(s, w, s.works[w]);
      HandlesHeld(s.works, w, l);
    }
  }

  /** Once granted, a lease exists or has been released. */
  lemma {:induction false} GrantedLeases(s: State, steps: seq<Step>, l: LeaseId)
    requires l in s.leases || l in s.released
    ensures l in Run(s, steps).leases || l in Run(s, steps).released
    decreases |steps|
  {
    if steps != [] {
      NeverLost(s, steps[0], l);
      GrantedLeases(Next(s, steps[0]), steps[1..], l);
    }
  }

  lemma NeverLost(s: State, e: Step, l: LeaseId)
    requires l in s.leases || l in s.released
    ensures l in Next(s, e).leases || l in Next(s, e).released
  {
  }

  lemma NextFixes(s: State, e: Step)
    ensures Next(s, e).limit == s.limit && (s.closer.Returned? ==> Next(s, e).closer.Returned?)
  {
  }

  lemma {:induction false} LimitIsFixed(s: State, steps: seq<Step>)
    ensures Run(s, steps).limit == s.limit
    decreases |steps|
  {
    if steps != [] {
      NextFixes(s, steps[0]);
      LimitIsFixed(Next(s, steps[0]), steps[1..]);
    }
  }

  lemma {:induction false} ReturnedIsFinal(s: State, steps: seq<Step>)
    requires s.closer.Returned?
    ensures Run(s, steps).closer.Returned?
    decreases |steps|
  {
    if steps != [] {
      NextFixes(s, steps[0]);
      ReturnedIsFinal(Next(s, steps[0]), steps[1..]);
    }
  }

  /** Once close has returned no worker is registered or running, and whatever happens later none ever is. */
  lemma CloseIsFinal(limit: nat, steps: seq<Step>, later: seq<Step>)
    requires 1 <= limit && Run(Initial(limit), steps).closer.Returned?
    ensures NoTasks(Run(Initial(limit), steps)) && NoTasks(Run(Run(Initial(limit), steps), later))
  {
    var s := Run(Initial(limit), steps);
    RunInitial(limit, steps);
    RunSound(s, later);
    ReturnedIsFinal(s, later);
  }
}
