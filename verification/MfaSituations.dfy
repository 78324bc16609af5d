/**
 Situations of the MFA limiter in which one subject is told apart from all others, and what single calls
 make of them.
 */
module MfaSituations {
  import opened Common
  import opened MfaLimiter

  /** The part of the table and the guards that belongs to other subjects. */
  datatype Others = Others(entries: map<string, Entry>, guards: map<GuardId, Guard>)

  const NOBODY: Others := Others(map[], map[])

  /** `u` is unknown, and `n` is a new guard. */
  predicate New(o: Others, u: string, n: nat) {
    u !in o.entries && forall g | g in o.guards :: g < n
  }

  /** And there is room for one more subject. */
  predicate Room(p: Policy, o: Others, u: string, n: nat) { New(o, u, n) && |o.entries| < p.maxTracked }

  function Without(o: Others, n: nat, t: int): State { State(o.entries, o.guards, n, t) }

  function Idle(o: Others, u: string, e: Entry, n: nat, t: int): State { State(o.entries[u := e], o.guards, n, t) }

  function InFlight(o: Others, u: string, e: Entry, g: Guard, n: nat, t: int): State {
    State(o.entries[u := e], o.guards[n := g], n + 1, t)
  }

  function Held(e: Entry, now: int): Entry { e.(inFlight := true, lastSeen := now) }

  function After(p: Policy, e: Entry, now: int): Entry { Failed(p, Held(e, now), now).(inFlight := false) }

  // ---------------------------------------------------------------- single calls

  lemma AdmitNew(p: Policy, purging: bool, o: Others, u: string, n: nat, t: int, now: int)
    requires New(o, u, n) && (purging ==> |o.entries| < p.maxTracked)
    ensures var t' := Newer(t, now);
            Step(p, purging, Without(o, n, t), Admit(u, now))
            == (InFlight(o, u, Held(Fresh(now), now), Guard(u, false, t'), n, t'), Granted(n))
  {
  }

  lemma AdmitKnown(p: Policy, purging: bool, o: Others, u: string, e: Entry, n: nat, t: int, now: int)
    requires !e.inFlight && !Pending(e.blockUntil, now)
    ensures var t' := Newer(t, now);
            Step(p, purging, Idle(o, u, e, n, t), Admit(u, now))
            == (InFlight(o, u, Held(e, now), Guard(u, false, t'), n, t'), Granted(n))
  {
    assert o.entries[u := e][u := Held(e, now)] == o.entries[u := Held(e, now)];
  }

  lemma FailHeld(p: Policy, purging: bool, o: Others, u: string, e: Entry, since: int, n: nat, t: int, now: int)
    ensures Step(p, purging, InFlight(o, u, e, Guard(u, false, since), n, t), Failure(n, now))
         == (InFlight(o, u, Failed(p, e, now), Guard(u, true, now), n, Newer(t, now)), Done)
  {
    var failed := Failed(p, e, now);
    assert o.entries[u := e][u := failed] == o.entries[u := failed];
    assert o.guards[n := Guard(u, false, since)][n := Guard(u, true, now)] == o.guards[n := Guard(u, true, now)];
  }

  lemma CancelHeld(p: Policy, purging: bool, o: Others, u: string, e: Entry, g: Guard, n: nat, t: int)
    requires New(o, u, n) && g.subject == u
    ensures Step(p, purging, InFlight(o, u, e, g, n, t), Cancel(n))
         == (if e.failures == 0 then Without(o, n + 1, t) else Idle(o, u, e.(inFlight := false), n + 1, t), Done)
  {
    assert o.guards[n := g] - {n} == o.guards;
    assert o.entries[u := e] - {u} == o.entries;
    assert o.entries[u := e][u := e.(inFlight := false)] == o.entries[u := e.(inFlight := false)];
  }

  /** A newcomer finds the table full and has the one stale entry purged. */
  lemma AdmitPurging(p: Policy, o: Others, u: string, e: Entry, n: nat, t: int, v: string, now: int)
    requires New(o, u, n) && New(o, v, n) && v != u && |o.entries| + 1 == p.maxTracked && Stale(p, e, now)
    requires forall x | x in o.entries :: o.entries[x].inFlight
    ensures var t' := Newer(t, now);
            Step(p, true, Idle(o, u, e, n, t), Admit(v, now))
            == (InFlight(o, v, Held(Fresh(now), now), Guard(v, false, t'), n, t'), Granted(n))
  {
    MapAddSize(o.entries, u, e);
    assert Retained(p, o.entries[u := e], now) == o.entries;
  }

  // ---------------------------------------------------------------- wrong codes in an open window

  function AfterMany(p: Policy, e: Entry, now: int, k: nat): Entry
    decreases k
  {
    if k == 0 then e else AfterMany(p, After(p, e, now), now, k - 1)
  }

  /** An open window that can take `k` more failures without locking earlier than the last. */
  predicate Open(p: Policy, e: Entry, now: int, k: nat) {
    && !e.inFlight && e.blockUntil.None?
    && 1 <= e.failures && e.failures + k <= p.maxFailures
    && Since(now, e.windowStart) < p.window
  }

  lemma OpenAfter(p: Policy, e: Entry, now: int, k: nat)
    requires p.Valid() && Open(p, e, now, k) && k > 1
    ensures Open(p, After(p, e, now), now, k - 1)
  {
  }

  lemma {:induction false} AfterManyCounts(p: Policy, e: Entry, now: int, k: nat)
    requires p.Valid() && Open(p, e, now, k)
    ensures var r := AfterMany(p, e, now, k);
            r.windowStart == e.windowStart && r.failures == e.failures + k && !r.inFlight
            && (r.failures < p.maxFailures ==> r.blockUntil.None?)
    decreases k
  {
    if k > 1 {
      OpenAfter(p, e, now, k);
      AfterManyCounts(p, After(p, e, now), now, k - 1);
    }
  }

  // ---------------------------------------------------------------- other subjects that stay in flight

  function Filler(u: string, i: nat): (name: string)
    ensures |name| == |u| + 1 + i
  {
    if i == 0 then u + "x" else Filler(u, i - 1) + "x"
  }

  /** The first `j` fillers, all in flight since time 0. */
  function Fillers(u: string, j: nat): Others {
    if j == 0 then NOBODY
    else
      var o := Fillers(u, j - 1);
      Others(o.entries[Filler(u, j - 1) := Held(Fresh(0), 0)], o.guards[j - 1 := Guard(Filler(u, j - 1), false, 0)])
  }

  lemma {:induction false} FillersFit(u: string, j: nat)
    ensures var o := Fillers(u, j);
            && |o.entries| == j && (forall g | g in o.guards :: g < j)
            && (forall v | v in o.entries :: |u| < |v| <= |u| + j && o.entries[v].inFlight)
    decreases j
  {
    if j > 0 {
      FillersFit(u, j - 1);
      MapAddSize(Fillers(u, j - 1).entries, Filler(u, j - 1), Held(Fresh(0), 0));
    }
  }
}
