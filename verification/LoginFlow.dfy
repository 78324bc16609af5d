/**
 One-time login flows. Every save and every consume is one transaction on the flow table; calls
 interleave freely, and each may time out, be cancelled, lose its connection or have its commit
 outcome withheld.

 A step takes one call forward, on the client's side or on the server's. A step that is not enabled
 leaves the state alone, so every sequence of steps is a run. Clock reads are arbitrary and need not
 be ordered. The state hash is the unique key; a locked key makes other writers wait.
 */
module LoginFlow {
  import opened Common

  type CallId = nat

  const FLOW_TTL_MICROS: int := 600_000_000

  datatype Flow = Flow(payload: string, expiresAt: int)

  /** A stored row; `origin` is the save call that wrote it. */
  datatype Row = Row(binding: string, flow: Flow, createdAt: int, origin: CallId)

  datatype Request =
    | Save(key: string, binding: string, flow: Flow)
    | Consume(key: string, binding: string)

  datatype Error = InvalidFlow | FlowExists | Unavailable | CorruptFlow | Storage | Closed | Clock | Deadline

  datatype Reply = Saved | Returned(flow: Flow) | Expired | Uncertain | Refused(error: Error)

  /** How far the client has come: `Committing` is after `commit_started` was set. */
  datatype Client = Begun | Locked | Written | Committing | Replied(reply: Reply) | Gone

  /** The transaction as the server sees it. */
  datatype Tx = Open | CommitSent | Committed | Aborted

  /** One call: the row it locked or wrote and the clock reads it took, in order. */
  datatype Call = Call(request: Request, client: Client, tx: Tx, row: Option<Row>, clocks: seq<int>)

  /** `log` lists the committed calls in commit order. */
  datatype State = State(table: map<string, Row>, locks: map<string, CallId>, calls: map<CallId, Call>,
                         log: seq<CallId>)

  const INITIAL := State(map[], map[], map[], [])

  datatype Step =
    | Start(call: CallId, request: Request)
    | Insert(call: CallId, now: int)
    | Lock(call: CallId, now: int)
    | Delete(call: CallId)
    | SendCommit(call: CallId, now: int)
    | Acknowledge(call: CallId)
    | Fail(call: CallId, error: Error)
    | Cancel(call: CallId)
    | ServerCommit(call: CallId)
    | ServerAbort(call: CallId)

  /** `OidcFlow::stored`: which stored rows decode under the configured limits. */
  type Decodes = Row -> bool

  function ExpiredObservation(expiry: int, now: int, already: bool): bool { already || expiry <= now }

  function With(s: State, c: CallId, call: Call): State { s.(calls := s.calls[c := call]) }

  function Answer(s: State, c: CallId, reply: Reply): State
    requires c in s.calls
  {
    With(s, c, s.calls[c].(client := Replied(reply)))
  }

  /** `save_flow` up to its INSERT. */
  function InsertStep(s: State, c: CallId, now: int): State
    requires c in s.calls
  {
    var call := s.calls[c];
    if !call.request.Save? || !call.client.Begun? || !call.tx.Open? then s
    else
      var Save(key, binding, flow) := call.request;
      if flow.expiresAt <= now || flow.expiresAt - now > FLOW_TTL_MICROS then Answer(s, c, Refused(InvalidFlow))
      else if key in s.locks then s
      else if key in s.table then Answer(s, c, Refused(FlowExists))
      else
        With(s, c, call.(client := Written, row := Some(Row(binding, flow, now, c)), clocks := [now]))
          .(locks := s.locks[key := c])
  }

  /** `consume_flow` up to its first clock read: SELECT ... FOR UPDATE and decoding. */
  function LockStep(d: Decodes, s: State, c: CallId, now: int): State
    requires c in s.calls
  {
    var call := s.calls[c];
    if !call.request.Consume? || !call.client.Begun? || !call.tx.Open? then s
    else
      var key := call.request.key;
      if key !in s.table || s.table[key].binding != call.request.binding then Answer(s, c, Refused(Unavailable))
      else if key in s.locks then s
      else
        var row := s.table[key];
        var client := if !d(row) || row.createdAt > now then Replied(Refused(CorruptFlow)) else Locked;
        With(s, c, call.(client := client, row := Some(row), clocks := [now])).(locks := s.locks[key := c])
  }

  function SendStep(s: State, c: CallId, now: int): State
    requires c in s.calls
  {
    var call := s.calls[c];
    if !call.client.Written? then s
    else if call.request.Save? && call.request.flow.expiresAt <= now then Answer(s, c, Refused(InvalidFlow))
    else
      With(s, c, call.(client := Committing, tx := if call.tx.Open? then CommitSent else call.tx,
                       clocks := call.clocks + [now]))
  }

  /** The reply once the commit is known: expiry was observed after the lock and again before the commit. */
  function Confirmed(call: Call): Reply
    requires call.row.Some? && |call.clocks| == 2
  {
    if call.request.Save? then Saved
    else
      var expiry := call.row.value.flow.expiresAt;
      if ExpiredObservation(expiry, call.clocks[1], ExpiredObservation(expiry, call.clocks[0], false)) then Expired
      else Returned(call.row.value.flow)
  }

  function Unlocked(s: State, c: CallId): map<string, CallId>
    requires c in s.calls
  {
    var key := s.calls[c].request.key;
    if key in s.locks && s.locks[key] == c then s.locks - {key} else s.locks
  }

  function CommitStep(s: State, c: CallId): State
    requires c in s.calls
  {
    var call := s.calls[c];
    if !call.tx.CommitSent? || call.row.None? then s
    else
      var key := call.request.key;
      State(if call.request.Save? then s.table[key := call.row.value] else s.table - {key},
            Unlocked(s, c), s.calls[c := call.(tx := Committed)], s.log + [c])
  }

  function Next(d: Decodes, s: State, e: Step): State {
    if e.Start? then
      if e.call in s.calls then s else With(s, e.call, Call(e.request, Begun, Open, None, []))
    else if e.call !in s.calls then s
    else
      var c, call := e.call, s.calls[e.call];
      match e
      case Start(_, _) => s
      case Insert(_, now) => InsertStep(s, c, now)
      case Lock(_, now) => LockStep(d, s, c, now)
      case Delete(_) =>
        if call.request.Consume? && call.client.Locked? && call.tx.Open?
        then With(s, c, call.(client := Written)) else s
      case SendCommit(_, now) => SendStep(s, c, now)
      case Acknowledge(_) =>
        if call.client.Committing? && call.tx.Committed? && call.row.Some? && |call.clocks| == 2
        then Answer(s, c, Confirmed(call)) else s
      case Fail(_, error) =>
        if call.client.Replied? || call.client.Gone? then s
        else Answer(s, c, if call.client.Committing? then Uncertain else Refused(error))
      case Cancel(_) => if call.client.Replied? then s else With(s, c, call.(client := Gone))
      case ServerCommit(_) => CommitStep(s, c)
      case ServerAbort(_) =>
        if call.tx.Open? || call.tx.CommitSent?
        then With(s, c, call.(tx := Aborted)).(locks := Unlocked(s, c)) else s
  }

  function Run(d: Decodes, s: State, steps: seq<Step>): State
    decreases |steps|
  {
    if steps == [] then s else Run(d, Next(d, s, steps[0]), steps[1..])
  }

  // ---------------------------------------------------------------- the invariant

  predicate InTransaction(call: Call) { call.tx.Open? || call.tx.CommitSent? }

  predicate Holding(call: Call) { call.row.Some? && InTransaction(call) }

  /** A reply says how the transaction stands: open or rolled back, committed, or anything once sent. */
  predicate ReplyFits(reply: Reply, call: Call) {
    match reply
    case Saved => call.request.Save? && call.tx.Committed?
    case Expired =>
      && call.request.Consume? && call.tx.Committed? && call.row.Some? && |call.clocks| == 2
      && (call.row.value.flow.expiresAt <= call.clocks[0] || call.row.value.flow.expiresAt <= call.clocks[1])
    case Returned(flow) =>
      && call.request.Consume? && call.tx.Committed? && call.row.Some? && flow == call.row.value.flow
      && |call.clocks| == 2 && call.clocks[0] < flow.expiresAt && call.clocks[1] < flow.expiresAt
    case Uncertain => !call.tx.Open?
    case Refused(_) => call.tx.Open? || call.tx.Aborted?
  }

  /** What one call looks like by itself. */
  predicate CallFits(d: Decodes, c: CallId, call: Call) {
    && (call.client.Begun? ==> call.row.None? && call.clocks == [])
    && (call.client.Begun? || call.client.Locked? || call.client.Written? ==> call.tx.Open? || call.tx.Aborted?)
    && (call.client.Locked? || call.client.Written? ==> call.row.Some? && |call.clocks| == 1)
    && (call.client.Committing? ==> !call.tx.Open?)
    && (call.client.Replied? ==> ReplyFits(call.client.reply, call))
    && (call.client.Committing? || call.tx.CommitSent? || call.tx.Committed? ==> call.row.Some? && |call.clocks| == 2)
    && (call.row.Some? ==> |call.clocks| >= 1 && RowFits(d, c, call))
  }

  /** A flow that may be saved at `now`: not expired, and expiring within ten minutes. */
  predicate Current(flow: Flow, now: int) { now < flow.expiresAt <= now + FLOW_TTL_MICROS }

  /** The row a save wrote is its own; the row a consume read carries its binding and, unless refused, decodes. */
  predicate RowFits(d: Decodes, c: CallId, call: Call)
    requires call.row.Some? && |call.clocks| >= 1
  {
    var row := call.row.value;
    match call.request
    case Save(_, binding, flow) =>
      && row == Row(binding, flow, call.clocks[0], c) && Current(flow, call.clocks[0])
      && (call.tx.CommitSent? || call.tx.Committed? ==> |call.clocks| == 2 && call.clocks[1] < flow.expiresAt)
    case Consume(_, binding) =>
      && row.binding == binding
      && (call.tx.CommitSent? || call.tx.Committed? || call.client.Locked? || call.client.Written? ==>
            d(row) && row.createdAt <= call.clocks[0])
  }

  /** The row was written by a committed save under the key. */
  predicate SavedRow(s: State, key: string, row: Row) {
    && row.origin in s.calls
    && s.calls[row.origin].request.Save? && s.calls[row.origin].request.key == key
    && s.calls[row.origin].tx.Committed? && s.calls[row.origin].row == Some(row)
  }

  predicate Taken(call: Call) { call.request.Consume? && call.tx.Committed? && call.row.Some? }

  /** The lock of a key belongs to a call holding that key, and every holder has its lock. */
  ghost predicate LocksFit(s: State) {
    && (forall k | k in s.locks ::
          s.locks[k] in s.calls && s.calls[s.locks[k]].request.key == k && Holding(s.calls[s.locks[k]]))
    && (forall c | c in s.calls && Holding(s.calls[c]) ::
          s.calls[c].request.key in s.locks && s.locks[s.calls[c].request.key] == c)
  }

  /** A holder's view of its key is still the table's. */
  predicate HolderSees(s: State, call: Call)
    requires call.row.Some?
  {
    if call.request.Save? then call.request.key !in s.table
    else call.request.key in s.table && s.table[call.request.key] == call.row.value
  }

  /** A consumed row came from a committed save and is in the table no longer. */
  predicate TakenFits(s: State, call: Call)
    requires Taken(call)
  {
    && SavedRow(s, call.request.key, call.row.value)
    && (call.request.key in s.table ==> s.table[call.request.key].origin != call.row.value.origin)
  }

  /** Locks and the views they protect. */
  ghost predicate Guarded(s: State) {
    LocksFit(s) && forall c | c in s.calls && Holding(s.calls[c]) :: HolderSees(s, s.calls[c])
  }

  /**
   What the committed transactions leave behind: every stored row was saved, every taken row is gone, no row
   is taken twice.
   */
  ghost predicate Historic(s: State) {
    && (forall k | k in s.table :: SavedRow(s, k, s.table[k]))
    && (forall c | c in s.calls && Taken(s.calls[c]) :: TakenFits(s, s.calls[c]))
    && TakenOnce(s)
    && (forall c :: c in s.log <==> c in s.calls && s.calls[c].tx.Committed?)
  }

  ghost predicate TakenOnce(s: State) {
    forall c, c' | c in s.calls && c' in s.calls && Taken(s.calls[c]) && Taken(s.calls[c'])
                   && s.calls[c].row.value.origin == s.calls[c'].row.value.origin :: c == c'
  }

  ghost predicate CallsFit(d: Decodes, s: State) {
    forall c | c in s.calls :: CallFits(d, c, s.calls[c])
  }

  ghost predicate Safe(d: Decodes, s: State) {
    Guarded(s) && Historic(s) && CallsFit(d, s)
  }

  // ---------------------------------------------------------------- every step keeps it

  /** Only call `c` differs, and not in what it asked for. */
  ghost predicate Touches(s: State, next: State, c: CallId) {
    && c in s.calls && next.calls.Keys == s.calls.Keys && next.calls[c].request == s.calls[c].request
    && forall x | x in s.calls && x != c :: next.calls[x] == s.calls[x]
  }

  lemma SavedKept(s: State, next: State, c: CallId, key: string, row: Row)
    requires Touches(s, next, c) && SavedRow(s, key, row)
    requires s.calls[c].tx.Committed? ==> next.calls[c].tx.Committed? && next.calls[c].row == s.calls[c].row
    ensures SavedRow(next, key, row)
  {
  }

  /** History only changes when something commits. */
  lemma HistoryKept(s: State, next: State, c: CallId)
    requires Historic(s) && Touches(s, next, c) && next.table == s.table && next.log == s.log
    requires next.calls[c].tx.Committed? == s.calls[c].tx.Committed?
    requires s.calls[c].tx.Committed? ==> next.calls[c].row == s.calls[c].row
    ensures Historic(next)
  {
    forall k | k in next.table ensures SavedRow(next, k, next.table[k]) {
      SavedKept(s, next, c, k, s.table[k]);
    }
    forall x | x in next.calls && Taken(next.calls[x]) ensures TakenFits(next, next.calls[x]) {
      assert Taken(s.calls[x]);
      SavedKept(s, next, c, s.calls[x].request.key, s.calls[x].row.value);
    }
  }

  /** A step on the client's side alone: same row, and the transaction at most asked to commit. */
  lemma ClientStepSafe(d: Decodes, s: State, c: CallId, call: Call)
    requires Safe(d, s) && c in s.calls && CallFits(d, c, call)
    requires call.request == s.calls[c].request && call.row == s.calls[c].row
    requires call.tx == s.calls[c].tx || (s.calls[c].tx.Open? && call.tx.CommitSent?)
    ensures Safe(d, With(s, c, call))
  {
    HistoryKept(s, With(s, c, call), c);
    ClientStepGuarded(s, c, call);
  }

  lemma ClientStepGuarded(s: State, c: CallId, call: Call)
    requires Guarded(s) && c in s.calls && call.request == s.calls[c].request && call.row == s.calls[c].row
    requires InTransaction(call) == InTransaction(s.calls[c])
    ensures Guarded(With(s, c, call))
  {
  }

  lemma StartSafe(d: Decodes, s: State, c: CallId, request: Request)
    requires Safe(d, s) && c !in s.calls
    ensures Safe(d, With(s, c, Call(request, Begun, Open, None, [])))
  {
    StartHistoric(s, c, Call(request, Begun, Open, None, []));
  }

  lemma StartHistoric(s: State, c: CallId, call: Call)
    requires Historic(s) && c !in s.calls && call.tx.Open?
    ensures Historic(With(s, c, call))
  {
    var next := With(s, c, call);
    forall k | k in next.table ensures SavedRow(next, k, next.table[k]) {
      assert SavedRow(s, k, s.table[k]);
    }
    forall x | x in next.calls && Taken(next.calls[x]) ensures TakenFits(next, next.calls[x]) {
      assert TakenFits(s, s.calls[x]);
    }
  }

  /** Taking a free key's lock. */
  lemma AcquireGuarded(s: State, c: CallId, call: Call)
    requires Guarded(s) && c in s.calls && call.request == s.calls[c].request && call.tx.Open?
    requires s.calls[c].row.None? && call.row.Some? && HolderSees(s, call) && call.request.key !in s.locks
    ensures Guarded(With(s, c, call).(locks := s.locks[call.request.key := c]))
  {
  }

  lemma AcquireSafe(d: Decodes, s: State, c: CallId, call: Call)
    requires Safe(d, s) && c in s.calls && CallFits(d, c, call)
    requires call.request == s.calls[c].request && call.tx == s.calls[c].tx == Open
    requires s.calls[c].row.None? && call.row.Some? && HolderSees(s, call) && call.request.key !in s.locks
    ensures Safe(d, With(s, c, call).(locks := s.locks[call.request.key := c]))
  {
    HistoryKept(s, With(s, c, call).(locks := s.locks[call.request.key := c]), c);
    AcquireGuarded(s, c, call);
  }

  /** Ending a transaction gives up its lock; nobody else held the key. */
  lemma LeaveGuarded(s: State, next: State, c: CallId)
    requires Guarded(s) && Touches(s, next, c) && InTransaction(s.calls[c]) && !InTransaction(next.calls[c])
    requires next.locks == Unlocked(s, c)
    requires s.calls[c].row.None? ==> next.table == s.table
    requires forall k | k != s.calls[c].request.key ::
               (k in next.table <==> k in s.table) && (k in s.table ==> next.table[k] == s.table[k])
    requires next.calls[c].row == s.calls[c].row
    ensures Guarded(next)
  {
    var key := s.calls[c].request.key;
    if s.calls[c].row.Some? {
      assert s.locks[key] == c;
    } else {
      assert next.locks == s.locks;
    }
    forall x | x in next.calls && Holding(next.calls[x])
      ensures next.calls[x].request.key in next.locks && next.locks[next.calls[x].request.key] == x
      ensures HolderSees(next, next.calls[x])
    {
      assert Holding(s.calls[x]) && x != c;
    }
  }

  lemma AbortSafe(d: Decodes, s: State, c: CallId)
    requires Safe(d, s) && c in s.calls && InTransaction(s.calls[c])
    ensures Safe(d, Next(d, s, ServerAbort(c)))
  {
    var aborted := s.calls[c].(tx := Aborted);
    var next := With(s, c, aborted).(locks := Unlocked(s, c));
    AbortFits(d, c, s.calls[c]);
    HistoryKept(s, next, c);
    LeaveGuarded(s, next, c);
  }

  lemma AbortFits(d: Decodes, c: CallId, call: Call)
    requires CallFits(d, c, call) && InTransaction(call)
    ensures CallFits(d, c, call.(tx := Aborted))
  {
  }

  lemma CommitHistoric(s: State, c: CallId)
    requires Historic(s) && c in s.calls && s.calls[c].tx.CommitSent? && s.calls[c].row.Some?
             && HolderSees(s, s.calls[c])
    requires s.calls[c].request.Save? ==> s.calls[c].row.value.origin == c
    ensures Historic(CommitStep(s, c))
  {
    var next := CommitStep(s, c);
    var call := s.calls[c];
    var key, row := call.request.key, call.row.value;
    assert Touches(s, next, c);
    forall k | k in next.table ensures SavedRow(next, k, next.table[k]) {
      if k in s.table && (k != key || call.request.Consume?) {
        SavedKept(s, next, c, k, s.table[k]);
      }
    }
    forall x | x in next.calls && Taken(next.calls[x]) ensures TakenFits(next, next.calls[x]) {
      if x == c {
        SavedKept(s, next, c, key, row);
      } else {
        assert TakenFits(s, s.calls[x]);
        SavedKept(s, next, c, s.calls[x].request.key, s.calls[x].row.value);
      }
    }
    CommitTakenOnce(s, c);
  }

  /** A row still in the table has been taken by nobody. */
  lemma CommitTakenOnce(s: State, c: CallId)
    requires Historic(s) && c in s.calls && s.calls[c].tx.CommitSent? && s.calls[c].row.Some?
             && HolderSees(s, s.calls[c])
    ensures TakenOnce(CommitStep(s, c))
  {
    var next := CommitStep(s, c);
    if next.calls[c].request.Consume? {
      forall x | x in s.calls && x != c && Taken(s.calls[x])
        ensures s.calls[x].row.value.origin != s.calls[c].row.value.origin
      {
        assert TakenFits(s, s.calls[x]);
        assert SavedRow(s, s.calls[c].request.key, s.calls[c].row.value);
      }
    }
  }

  lemma CommitSafe(d: Decodes, s: State, c: CallId)
    requires Safe(d, s) && c in s.calls && s.calls[c].tx.CommitSent?
    ensures Safe(d, CommitStep(s, c))
  {
    assert CallFits(d, c, s.calls[c]);
    CommitGuarded(s, c);
    CommitHistoric(s, c);
  }

  lemma CommitGuarded(s: State, c: CallId)
    requires Guarded(s) && c in s.calls && s.calls[c].tx.CommitSent? && s.calls[c].row.Some?
    ensures Guarded(CommitStep(s, c)) && HolderSees(s, s.calls[c])
  {
    assert Holding(s.calls[c]);
    LeaveGuarded(s, CommitStep(s, c), c);
  }

  /** A client-side step leaves the table, the locks and the log alone. */
  ghost predicate OnlyClient(s: State, next: State, c: CallId) {
    c in s.calls && c in next.calls && next == With(s, c, next.calls[c])
    && next.calls[c].request == s.calls[c].request && next.calls[c].row == s.calls[c].row
    && (next.calls[c].tx == s.calls[c].tx || (s.calls[c].tx.Open? && next.calls[c].tx.CommitSent?))
  }

  lemma InsertSafe(d: Decodes, s: State, c: CallId, now: int)
    requires Safe(d, s) && c in s.calls
    ensures Safe(d, InsertStep(s, c, now))
  {
    var call := InsertStep(s, c, now).calls[c];
    assert CallFits(d, c, s.calls[c]);
    InsertCases(d, s, c, now);
    if call.row != s.calls[c].row {
      AcquireSafe(d, s, c, call);
    } else {
      ClientStepSafe(d, s, c, call);
    }
  }

  /** An insert takes the free lock of a free key, or only answers, or does nothing. */
  lemma InsertCases(d: Decodes, s: State, c: CallId, now: int)
    requires c in s.calls && CallFits(d, c, s.calls[c])
    ensures var next := InsertStep(s, c, now);
            c in next.calls
            && var was, call := s.calls[c], next.calls[c];
            && CallFits(d, c, call) && call.request == was.request && call.tx == was.tx
            && if call.row == was.row then next == With(s, c, call)
               else
                 && was.row.None? && call.row.Some? && HolderSees(s, call) && call.request.key !in s.locks
                 && call.tx.Open? && next == With(s, c, call).(locks := s.locks[call.request.key := c])
  {
    assert s.calls[c := s.calls[c]] == s.calls;
  }

  lemma LockSafe(d: Decodes, s: State, c: CallId, now: int)
    requires Safe(d, s) && c in s.calls
    ensures Safe(d, LockStep(d, s, c, now))
  {
    var next := LockStep(d, s, c, now);
    assert CallFits(d, c, s.calls[c]);
    if next.calls[c].row != s.calls[c].row {
      AcquireSafe(d, s, c, next.calls[c]);
    } else if next != s {
      ClientStepSafe(d, s, c, next.calls[c]);
    }
  }

  /** The remaining steps of a live call are client-side and keep the call well formed. */
  lemma ClientMoves(d: Decodes, s: State, e: Step)
    requires e.call in s.calls && CallFits(d, e.call, s.calls[e.call])
    requires e.Delete? || e.SendCommit? || e.Acknowledge? || e.Fail? || e.Cancel?
    ensures OnlyClient(s, Next(d, s, e), e.call) && CallFits(d, e.call, Next(d, s, e).calls[e.call])
  {
    assert s.calls[e.call := s.calls[e.call]] == s.calls;
  }

  lemma NextSafe(d: Decodes, s: State, e: Step)
    requires Safe(d, s)
    ensures Safe(d, Next(d, s, e))
  {
    var c := e.call;
    if e.Start? {
      if c !in s.calls {
        StartSafe(d, s, c, e.request);
      }
    } else if c in s.calls {
      assert CallFits(d, c, s.calls[c]);
      if e.Insert? {
        InsertSafe(d, s, c, e.now);
      } else if e.Lock? {
        LockSafe(d, s, c, e.now);
      } else if e.ServerCommit? {
        if s.calls[c].tx.CommitSent? {
          CommitSafe(d, s, c);
        }
      } else if e.ServerAbort? {
        if InTransaction(s.calls[c]) {
          AbortSafe(d, s, c);
        }
      } else {
        ClientMoves(d, s, e);
        ClientStepSafe(d, s, c, Next(d, s, e).calls[c]);
      }
    }
  }

  lemma {:induction false} RunSafe(d: Decodes, s: State, steps: seq<Step>)
    requires Safe(d, s)
    ensures Safe(d, Run(d, s, steps))
    decreases |steps|
  {
    if steps != [] {
      NextSafe(d, s, steps[0]);
      RunSafe(d, Next(d, s, steps[0]), steps[1..]);
    }
  }

  // ---------------------------------------------------------------- what callers can rely on

  predicate RepliedWith(s: State, c: CallId, reply: Reply) {
    c in s.calls && s.calls[c].client == Replied(reply)
  }

  /** A reply is never taken back. */
  lemma {:induction false} RepliesAreFinal(d: Decodes, s: State, steps: seq<Step>, c: CallId, reply: Reply)
    requires RepliedWith(s, c, reply)
    ensures RepliedWith(Run(d, s, steps), c, reply)
    decreases |steps|
  {
    if steps != [] {
      RepliesAreFinal(d, Next(d, s, steps[0]), steps[1..], c, reply);
    }
  }

  /**
   The table changes exactly when a call commits, every commit is logged once, and it changes one row: a save
   adds its own under a free key, a consume takes the one it had locked.
   */
  lemma TableChangesOnCommit(d: Decodes, s: State, e: Step)
    requires Safe(d, s)
    ensures var next := Next(d, s, e);
            && (next.table != s.table <==> next.log != s.log)
            && (next.log != s.log ==> next.log == s.log + [e.call] && e.call !in s.log && ChangesRow(s, next, e.call))
  {
    if !e.ServerCommit? {
      QuietStep(d, s, e);
    } else if e.call in s.calls && s.calls[e.call].tx.CommitSent? {
      assert CallFits(d, e.call, s.calls[e.call]);
      CommitGuarded(s, e.call);
      CommitChanges(d, s, e.call);
    }
  }

  /** Call `c` adds or removes exactly the row under its key. */
  predicate ChangesRow(s: State, next: State, c: CallId) {
    c in s.calls && s.calls[c].row.Some?
    && var key, row := s.calls[c].request.key, s.calls[c].row.value;
    if s.calls[c].request.Save? then key !in s.table && next.table == s.table[key := row] && row.origin == c
    else key in s.table && s.table[key] == row && next.table == s.table - {key}
  }

  lemma CommitChanges(d: Decodes, s: State, c: CallId)
    requires c in s.calls && s.calls[c].tx.CommitSent? && CallFits(d, c, s.calls[c]) && HolderSees(s, s.calls[c])
    ensures ChangesRow(s, CommitStep(s, c), c) && CommitStep(s, c).table != s.table
            && CommitStep(s, c).log == s.log + [c]
  {
    var key := s.calls[c].request.key;
    assert key in s.table <==> key !in CommitStep(s, c).table;
  }

  lemma QuietStep(d: Decodes, s: State, e: Step)
    requires !e.ServerCommit?
    ensures Next(d, s, e).table == s.table && Next(d, s, e).log == s.log
  {
  }

  /**
   One-time consumption: under every interleaving each committed flow is returned by at most one
   consume, to a caller with the key and binding it was saved under, and never when either clock read
   saw it expired.
   */
  lemma FlowsAreReturnedOnce(d: Decodes, steps: seq<Step>, c: CallId, c': CallId, flow: Flow, flow': Flow)
    ensures var s := Run(d, INITIAL, steps);
            RepliedWith(s, c, Returned(flow)) ==>
              && s.calls[c].request.Consume? && s.calls[c].row.Some?
              && var row := s.calls[c].row.value;
              && row.flow == flow && SavedRow(s, s.calls[c].request.key, row)
              && s.calls[row.origin].request == Save(s.calls[c].request.key, s.calls[c].request.binding, flow)
              && d(row) && |s.calls[c].clocks| == 2 && row.createdAt <= s.calls[c].clocks[0]
              && s.calls[c].clocks[0] < flow.expiresAt && s.calls[c].clocks[1] < flow.expiresAt
    ensures var s := Run(d, INITIAL, steps);
            RepliedWith(s, c, Returned(flow)) && RepliedWith(s, c', Returned(flow')) && c != c' ==>
              s.calls[c].row.Some? && s.calls[c'].row.Some?
                && s.calls[c].row.value.origin != s.calls[c'].row.value.origin
  {
    var s := Run(d, INITIAL, steps);
    RunSafe(d, INITIAL, steps);
    if RepliedWith(s, c, Returned(flow)) {
      assert CallFits(d, c, s.calls[c]) && Taken(s.calls[c]) && TakenFits(s, s.calls[c]);
      var origin := s.calls[c].row.value.origin;
      assert CallFits(d, origin, s.calls[origin]);
      if RepliedWith(s, c', Returned(flow')) {
        assert CallFits(d, c', s.calls[c']) && Taken(s.calls[c']);
      }
    }
  }

  /** The replies that report a change of the table. */
  predicate Changes(reply: Reply) { reply.Saved? || reply.Returned? || reply.Expired? }

  /**
   Only current flows are saved: a call answered Saved found its flow unexpired and expiring within ten minutes
   at its first clock read and still unexpired at its second, and so was every flow in the table when it was saved.
   */
  lemma SavedFlowsAreCurrent(d: Decodes, steps: seq<Step>, c: CallId, key: string)
    ensures var s := Run(d, INITIAL, steps);
            RepliedWith(s, c, Saved) ==>
              && s.calls[c].request.Save? && |s.calls[c].clocks| == 2
              && var expiry, t0, t1 := s.calls[c].request.flow.expiresAt, s.calls[c].clocks[0], s.calls[c].clocks[1];
              t0 < expiry <= t0 + 600_000_000 && t1 < expiry
    ensures var s := Run(d, INITIAL, steps);
            key in s.table ==>
              s.table[key].createdAt < s.table[key].flow.expiresAt <= s.table[key].createdAt + 600_000_000
  {
    var s := Run(d, INITIAL, steps);
    RunSafe(d, INITIAL, steps);
    if c in s.calls {
      assert CallFits(d, c, s.calls[c]);
    }
    if key in s.table {
      assert SavedRow(s, key, s.table[key]);
      assert CallFits(d, s.table[key].origin, s.calls[s.table[key].origin]);
    }
  }

  /** Some step of the run by call `c` changes the table. */
  ghost predicate ChangedBy(d: Decodes, s: State, steps: seq<Step>, c: CallId)
    decreases |steps|
  {
    steps != []
    && ((Next(d, s, steps[0]).table != s.table && steps[0].call == c)
      || ChangedBy(d, Next(d, s, steps[0]), steps[1..], c))
  }

  /** The log names exactly the calls that have changed the table, and none changes it twice. */
  lemma {:induction false} LogNamesTheChanges(d: Decodes, s: State, steps: seq<Step>, c: CallId)
    requires Safe(d, s)
    ensures c in Run(d, s, steps).log <==> c in s.log || ChangedBy(d, s, steps, c)
    ensures c in s.log ==> !ChangedBy(d, s, steps, c)
    decreases |steps|
  {
    if steps != [] {
      NextSafe(d, s, steps[0]);
      TableChangesOnCommit(d, s, steps[0]);
      LogNamesTheChanges(d, Next(d, s, steps[0]), steps[1..], c);
    }
  }

  /**
   Every reply except an uncertain outcome determines whether its call has changed the table, and that it
   will not change it any more, whatever happens later.
   */
  lemma RepliesDetermineTheChange(d: Decodes, steps: seq<Step>, later: seq<Step>, c: CallId, reply: Reply)
    requires RepliedWith(Run(d, INITIAL, steps), c, reply) && !reply.Uncertain?
    ensures ChangedBy(d, INITIAL, steps, c) <==> Changes(reply)
    ensures !ChangedBy(d, Run(d, INITIAL, steps), later, c)
  {
    var s := Run(d, INITIAL, steps);
    RunSafe(d, INITIAL, steps);
    LogNamesTheChanges(d, INITIAL, steps, c);
    LogNamesTheChanges(d, s, later, c);
    RepliesAreFinal(d, s, later, c, reply);
    RunSafe(d, s, later);
    assert CallFits(d, c, s.calls[c]) && CallFits(d, c, Run(d, s, later).calls[c]);
  }

  // ---------------------------------------------------------------- a flow that is left alone comes back

  /** All of one save without interruption, the clock reading `t0` before the insert and `t1` before the commit. */
  function SaveSteps(c: CallId, key: string, binding: string, flow: Flow, t0: int, t1: int): seq<Step> {
    [Start(c, Save(key, binding, flow)), Insert(c, t0), SendCommit(c, t1), ServerCommit(c), Acknowledge(c)]
  }

  function ConsumeSteps(c: CallId, key: string, binding: string, t0: int, t1: int): seq<Step> {
    [Start(c, Consume(key, binding)), Lock(c, t0), Delete(c), SendCommit(c, t1), ServerCommit(c), Acknowledge(c)]
  }

  /** Start, and the first statement of the transaction. */
  lemma SaveWrites(d: Decodes, s: State, c: CallId, key: string, binding: string, flow: Flow,
                   t0: int) returns (next: State)
    requires c !in s.calls && key !in s.table && key !in s.locks && t0 < flow.expiresAt <= t0 + FLOW_TTL_MICROS
    ensures next == Next(d, Next(d, s, Start(c, Save(key, binding, flow))), Insert(c, t0))
    ensures var call := Call(Save(key, binding, flow), Written, Open, Some(Row(binding, flow, t0, c)), [t0]);
            next == State(s.table, s.locks[key := c], s.calls[c := call], s.log)
  {
    var begun := With(s, c, Call(Save(key, binding, flow), Begun, Open, None, []));
    var call := Call(Save(key, binding, flow), Written, Open, Some(Row(binding, flow, t0, c)), [t0]);
    next := Next(d, begun, Insert(c, t0));
    assert begun.calls[c := call] == s.calls[c := call];
  }

  lemma ConsumeWrites(d: Decodes, s: State, c: CallId, key: string, binding: string, t0: int) returns (next: State)
    requires c !in s.calls && key in s.table && key !in s.locks
    requires s.table[key].binding == binding && d(s.table[key]) && s.table[key].createdAt <= t0
    ensures next == Next(d, Next(d, Next(d, s, Start(c, Consume(key, binding))), Lock(c, t0)), Delete(c))
    ensures var call := Call(Consume(key, binding), Written, Open, Some(s.table[key]), [t0]);
            next == State(s.table, s.locks[key := c], s.calls[c := call], s.log)
  {
    var begun := With(s, c, Call(Consume(key, binding), Begun, Open, None, []));
    var locked := Next(d, begun, Lock(c, t0));
    var call := Call(Consume(key, binding), Written, Open, Some(s.table[key]), [t0]);
    next := Next(d, locked, Delete(c));
    assert locked.calls[c := call] == s.calls[c := call];
  }

  /** A written transaction that nobody disturbs commits and is acknowledged. */
  lemma WrittenCommits(d: Decodes, s: State, c: CallId, t1: int) returns (next: State)
    requires c in s.calls && s.calls[c].client.Written? && s.calls[c].tx.Open? && s.calls[c].row.Some?
             && |s.calls[c].clocks| == 1
    requires s.calls[c].request.key in s.locks && s.locks[s.calls[c].request.key] == c
    requires s.calls[c].request.Save? ==> t1 < s.calls[c].request.flow.expiresAt
    ensures next == Next(d, Next(d, Next(d, s, SendCommit(c, t1)), ServerCommit(c)), Acknowledge(c))
    ensures var key, row := s.calls[c].request.key, s.calls[c].row.value;
            && next.table == (if s.calls[c].request.Save? then s.table[key := row] else s.table - {key})
            && next.locks == s.locks - {key}
            && next.calls.Keys == s.calls.Keys
            && RepliedWith(next, c, if s.calls[c].request.Save? then Saved
                                    else if row.flow.expiresAt <= Newer(s.calls[c].clocks[0], t1) then Expired
                                    else Returned(row.flow))
  {
    var sent := Next(d, s, SendCommit(c, t1));
    assert sent.calls[c] == s.calls[c].(client := Committing, tx := CommitSent, clocks := s.calls[c].clocks + [t1]);
    var committed := Next(d, sent, ServerCommit(c));
    assert committed.calls[c] == sent.calls[c].(tx := Committed);
    next := Next(d, committed, Acknowledge(c));
  }

  /** Once the client has its reply and nothing has been sent, its remaining steps do nothing. */
  lemma NothingFollows(d: Decodes, s: State, c: CallId, t1: int)
    requires c in s.calls && s.calls[c].client.Replied? && s.calls[c].tx.Open?
    ensures Next(d, s, Delete(c)) == s && Next(d, s, SendCommit(c, t1)) == s
    ensures Next(d, s, ServerCommit(c)) == s && Next(d, s, Acknowledge(c)) == s
  {
  }

  /** What a save that is left alone is answered. */
  function SaveReply(s: State, key: string, flow: Flow, t0: int, t1: int): Reply {
    if !(t0 < flow.expiresAt <= t0 + 600_000_000) then Refused(InvalidFlow)
    else if key in s.table then Refused(FlowExists)
    else if flow.expiresAt <= t1 then Refused(InvalidFlow)
    else Saved
  }

  /**
   A save that is left alone: a current flow under a free key is stored, anything else is refused and leaves
   the table alone.
   */
  lemma SaveAlone(d: Decodes, s: State, c: CallId, key: string, binding: string, flow: Flow, t0: int, t1: int)
    requires c !in s.calls && key !in s.locks
    ensures var r, reply := Run(d, s, SaveSteps(c, key, binding, flow, t0, t1)), SaveReply(s, key, flow, t0, t1);
            && RepliedWith(r, c, reply) && r.calls.Keys == s.calls.Keys + {c}
            && r.table == (if reply.Saved? then s.table[key := Row(binding, flow, t0, c)] else s.table)
            && (reply.Saved? ==> r.locks == s.locks)
  {
    if !(t0 < flow.expiresAt <= t0 + 600_000_000) || key in s.table {
      SaveRefused(d, s, c, key, binding, flow, t0, t1);
    } else if flow.expiresAt <= t1 {
      SaveLate(d, s, c, key, binding, flow, t0, t1);
    } else {
      SaveStores(d, s, c, key, binding, flow, t0, t1);
    }
  }

  lemma SaveStores(d: Decodes, s: State, c: CallId, key: string, binding: string, flow: Flow, t0: int, t1: int)
    requires c !in s.calls && key !in s.locks && key !in s.table
    requires t0 < flow.expiresAt <= t0 + FLOW_TTL_MICROS && t1 < flow.expiresAt
    ensures var r := Run(d, s, SaveSteps(c, key, binding, flow, t0, t1));
            RepliedWith(r, c, Saved) && r.table == s.table[key := Row(binding, flow, t0, c)] && r.locks == s.locks
            && r.calls.Keys == s.calls.Keys + {c}
  {
    RunOfFive(d, s, SaveSteps(c, key, binding, flow, t0, t1));
    var written := SaveWrites(d, s, c, key, binding, flow, t0);
    var done := WrittenCommits(d, written, c, t1);
  }

  lemma SaveLate(d: Decodes, s: State, c: CallId, key: string, binding: string, flow: Flow, t0: int, t1: int)
    requires c !in s.calls && key !in s.locks && key !in s.table
    requires t0 < flow.expiresAt <= t0 + FLOW_TTL_MICROS && flow.expiresAt <= t1
    ensures var r := Run(d, s, SaveSteps(c, key, binding, flow, t0, t1));
            RepliedWith(r, c, Refused(InvalidFlow)) && r.table == s.table && r.calls.Keys == s.calls.Keys + {c}
  {
    RunOfFive(d, s, SaveSteps(c, key, binding, flow, t0, t1));
    var written := SaveWrites(d, s, c, key, binding, flow, t0);
    NothingFollows(d, Next(d, written, SendCommit(c, t1)), c, t1);
  }

  lemma SaveRefused(d: Decodes, s: State, c: CallId, key: string, binding: string, flow: Flow, t0: int, t1: int)
    requires c !in s.calls && key !in s.locks && (!(t0 < flow.expiresAt <= t0 + 600_000_000) || key in s.table)
    ensures var r := Run(d, s, SaveSteps(c, key, binding, flow, t0, t1));
            && RepliedWith(r, c, SaveReply(s, key, flow, t0, t1)) && r.table == s.table
            && r.calls.Keys == s.calls.Keys + {c}
  {
    RunOfFive(d, s, SaveSteps(c, key, binding, flow, t0, t1));
    var begun := Next(d, s, Start(c, Save(key, binding, flow)));
    NothingFollows(d, Next(d, begun, Insert(c, t0)), c, t1);
  }

  lemma RunOfFive(d: Decodes, s: State, e: seq<Step>)
    requires |e| == 5
    ensures Run(d, s, e) == Next(d, Next(d, Next(d, Next(d, Next(d, s, e[0]), e[1]), e[2]), e[3]), e[4])
  {
    var s1 := Next(d, s, e[0]);
    var s2 := Next(d, s1, e[1]);
    var s3 := Next(d, s2, e[2]);
    var s4 := Next(d, s3, e[3]);
    RunAt(d, s, e, 0);
    RunAt(d, s1, e, 1);
    RunAt(d, s2, e, 2);
    RunAt(d, s3, e, 3);
    RunAt(d, s4, e, 4);
  }

  lemma RunAt(d: Decodes, s: State, e: seq<Step>, i: nat)
    requires i < |e|
    ensures Run(d, s, e[i..]) == Run(d, Next(d, s, e[i]), e[i + 1..])
  {
    assert e[i..][1..] == e[i + 1..];
  }

  /** What a consume that is left alone is answered. */
  function ConsumeReply(d: Decodes, s: State, key: string, binding: string, t0: int, t1: int): Reply {
    if key !in s.table || s.table[key].binding != binding then Refused(Unavailable)
    else if !d(s.table[key]) || t0 < s.table[key].createdAt then Refused(CorruptFlow)
    else if s.table[key].flow.expiresAt <= t0 || s.table[key].flow.expiresAt <= t1 then Expired
    else Returned(s.table[key].flow)
  }

  /**
   A consume that is left alone: a stored, decodable flow with the right binding is returned if it was
   unexpired at both clock reads and reported expired otherwise, and in either case is gone; anything else
   is refused and stays.
   */
  lemma ConsumeAlone(d: Decodes, s: State, c: CallId, key: string, binding: string, t0: int, t1: int)
    requires c !in s.calls && key !in s.locks
    ensures var r, reply := Run(d, s, ConsumeSteps(c, key, binding, t0, t1)), ConsumeReply(d, s, key, binding, t0, t1);
            && RepliedWith(r, c, reply)
            && r.table == (if reply.Refused? then s.table else s.table - {key})
            && (!reply.Refused? ==> r.locks == s.locks)
  {
    if ConsumeReply(d, s, key, binding, t0, t1).Refused? {
      ConsumeRefused(d, s, c, key, binding, t0, t1);
    } else {
      ConsumeTakes(d, s, c, key, binding, t0, t1);
    }
  }

  lemma RunOfSix(d: Decodes, s: State, e: seq<Step>)
    requires |e| == 6
    ensures Run(d, s, e) == Next(d, Next(d, Next(d, Next(d, Next(d, Next(d, s, e[0]), e[1]), e[2]), e[3]), e[4]), e[5])
  {
    RunAt(d, s, e, 0);
    assert e[0..] == e && |e[1..]| == 5;
    RunOfFive(d, Next(d, s, e[0]), e[1..]);
  }

  lemma ConsumeTakes(d: Decodes, s: State, c: CallId, key: string, binding: string, t0: int, t1: int)
    requires c !in s.calls && key in s.table && key !in s.locks
    requires s.table[key].binding == binding && d(s.table[key]) && s.table[key].createdAt <= t0
    ensures var r, flow := Run(d, s, ConsumeSteps(c, key, binding, t0, t1)), s.table[key].flow;
            && RepliedWith(r, c, if flow.expiresAt <= t0 || flow.expiresAt <= t1 then Expired else Returned(flow))
            && r.table == s.table - {key} && r.locks == s.locks
  {
    RunOfSix(d, s, ConsumeSteps(c, key, binding, t0, t1));
    var written := ConsumeWrites(d, s, c, key, binding, t0);
    var done := WrittenCommits(d, written, c, t1);
  }

  /** A refused call is over once its lock is granted. */
  lemma LockRefuses(d: Decodes, s: State, c: CallId, key: string, binding: string, t0: int, t1: int)
    requires c !in s.calls && key !in s.locks && ConsumeReply(d, s, key, binding, t0, t1).Refused?
    ensures var r := Next(d, Next(d, s, Start(c, Consume(key, binding))), Lock(c, t0));
            RepliedWith(r, c, ConsumeReply(d, s, key, binding, t0, t1)) && r.table == s.table
  {
  }

  lemma ConsumeRefused(d: Decodes, s: State, c: CallId, key: string, binding: string, t0: int, t1: int)
    requires c !in s.calls && key !in s.locks && ConsumeReply(d, s, key, binding, t0, t1).Refused?
    ensures var r := Run(d, s, ConsumeSteps(c, key, binding, t0, t1));
            RepliedWith(r, c, ConsumeReply(d, s, key, binding, t0, t1)) && r.table == s.table
  {
    RunOfSix(d, s, ConsumeSteps(c, key, binding, t0, t1));
    LockRefuses(d, s, c, key, binding, t0, t1);
    NothingFollows(d, Next(d, Next(d, s, Start(c, Consume(key, binding))), Lock(c, t0)), c, t1);
  }

  /**
   A transaction that has not committed can be rolled back: the table stays as it is and exactly the locks of
   its call are released; one that has ended stays ended.
   */
  lemma AbortReleases(d: Decodes, steps: seq<Step>, c: CallId)
    requires c in Run(d, INITIAL, steps).calls
    ensures var s := Run(d, INITIAL, steps);
            var r, ended := Next(d, s, ServerAbort(c)), s.calls[c].tx.Committed? || s.calls[c].tx.Aborted?;
            && r.table == s.table
            && (ended ==> r == s)
            && (!ended ==> c in r.calls && r.calls[c].tx.Aborted?
                           && forall k :: k in r.locks <==> k in s.locks && s.locks[k] != c)
  {
    RunSafe(d, INITIAL, steps);
  }

  /** Round trip: what is saved and left alone is handed out once, unchanged, and leaves the table as it was. */
  lemma SavedFlowComesBack(d: Decodes, s: State, c: CallId, c': CallId, key: string, binding: string, flow: Flow,
                           t0: int, t1: int, t2: int, t3: int)
    requires c !in s.calls && c' !in s.calls && c != c' && key !in s.table && key !in s.locks
    requires t0 < flow.expiresAt <= t0 + FLOW_TTL_MICROS && t1 < flow.expiresAt
    requires d(Row(binding, flow, t0, c)) && t0 <= t2 < flow.expiresAt && t3 < flow.expiresAt
    ensures var saved := Run(d, s, SaveSteps(c, key, binding, flow, t0, t1));
            var consumed := Run(d, saved, ConsumeSteps(c', key, binding, t2, t3));
            RepliedWith(saved, c, Saved) && RepliedWith(consumed, c', Returned(flow)) && consumed.table == s.table
  {
    SaveAlone(d, s, c, key, binding, flow, t0, t1);
    var saved := Run(d, s, SaveSteps(c, key, binding, flow, t0, t1));
    ConsumeAlone(d, saved, c', key, binding, t2, t3);
    assert s.table[key := Row(binding, flow, t0, c)] - {key} == s.table;
  }
}
