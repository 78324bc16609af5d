/** Now snapshots: canonical decimals, section and ordering validation, and masking. */
module NowSnapshot {
  import opened Common
  import opened Text
  import opened Utf8

  const SAFE_COUNT_MAX: nat := 9_007_199_254_740_991
  const MILLION: nat := 1_000_000
  const U64_MAX: nat := 0xFFFF_FFFF_FFFF_FFFF
  const MAX_MILLISECONDS_NS: nat := U64_MAX * MILLION
  const I64_MIN: int := -0x8000_0000_0000_0000
  const I64_MAX: int := 0x7FFF_FFFF_FFFF_FFFF
  const I128_MIN: int := -0x8000_0000_0000_0000_0000_0000_0000_0000
  const I128_MAX: int := 0x7FFF_FFFF_FFFF_FFFF_FFFF_FFFF_FFFF_FFFF

  // ---------------------------------------------------------------- canonical decimals

  predicate Digit(c: char) { '0' <= c <= '9' }

  function DigitOf(n: nat): (c: char)
    requires n < 10
    ensures Digit(c) && c as int - '0' as int == n
  {
    (n + '0' as int) as char
  }

  function Digits(n: nat): (s: string)
    ensures s != "" && forall i | 0 <= i < |s| :: Digit(s[i])
  {
    if n < 10 then [DigitOf(n)] else Digits(n / 10) + [DigitOf(n % 10)]
  }

  /** `to_string` of an integer. */
  function ToText(n: int): string { if n < 0 then ['-'] + Digits(-n) else Digits(n) }

  predicate AllDigits(s: string) { s != "" && forall i | 0 <= i < |s| :: Digit(s[i]) }

  function Value(s: string): nat
    requires forall i | 0 <= i < |s| :: Digit(s[i])
  {
    if s == "" then 0
    else
      assert Digit(s[|s| - 1]);
      10 * Value(s[..|s| - 1]) + (s[|s| - 1] as int - '0' as int)
  }

  /** `i128::from_str`: an optional sign, at least one digit, and a value in range. */
  function Parse(s: string): Option<int> {
    var signed := s != "" && (s[0] == '-' || s[0] == '+');
    var body := if signed then s[1..] else s;
    if !AllDigits(body) then None
    else
      var size: int := Value(body);
      var n := if signed && s[0] == '-' then -size else size;
      if I128_MIN <= n <= I128_MAX then Some(n) else None
  }

  /** `decimal`: the canonical text of a 128-bit integer. */
  function Decimal(s: string): Option<int> {
    var n := Parse(s);
    if n.Some? && ToText(n.value) == s then n else None
  }

  lemma {:induction false} ValueOfDigits(n: nat)
    ensures Value(Digits(n)) == n
    decreases n
  {
    if n >= 10 {
      ValueOfDigits(n / 10);
      var s := Digits(n);
      assert s[..|s| - 1] == Digits(n / 10) && s[|s| - 1] == DigitOf(n % 10);
    } else {
      assert Digits(n)[..0] == "";
    }
  }

  /** Decimal text and 128-bit integers are in one-to-one correspondence. */
  lemma DecimalInverts(n: int, s: string)
    requires I128_MIN <= n <= I128_MAX
    ensures Decimal(s) == Some(n) <==> s == ToText(n)
  {
    if s == ToText(n) {
      if n < 0 {
        ValueOfDigits(-n);
        assert s[1..] == Digits(-n);
      } else {
        ValueOfDigits(n);
        assert Digit(s[0]);
      }
    }
  }

  function Milliseconds(s: string): Option<int> {
    var n := Decimal(s);
    if n.Some? && 0 <= n.value <= MAX_MILLISECONDS_NS && n.value % MILLION == 0 then n else None
  }

  /** The texts with a decimal reading are those of the 128-bit integers, and each reads as its integer. */
  lemma DecimalMeans(s: string)
    ensures Decimal(s).Some? <==> exists n :: I128_MIN <= n <= I128_MAX && s == ToText(n)
    ensures Decimal(s).Some? ==> s == ToText(Decimal(s).value) && I128_MIN <= Decimal(s).value <= I128_MAX
  {
    if n :| I128_MIN <= n <= I128_MAX && s == ToText(n) {
      DecimalInverts(n, s);
    }
  }

  /** `s` is the time `n`, a whole number of milliseconds written in nanoseconds. */
  predicate Stamp(s: string, n: int) {
    s == ToText(n) && 0 <= n <= U64_MAX * 1_000_000 && n % 1_000_000 == 0
  }

  lemma MillisecondsMean(s: string, n: int)
    ensures Milliseconds(s) == Some(n) <==> Stamp(s, n)
  {
    if I128_MIN <= n <= I128_MAX {
      DecimalInverts(n, s);
    }
    DecimalMeans(s);
  }

  // ---------------------------------------------------------------- ordering

  /** What ordering sees of a row: its id, its decoded time (absent when malformed), and its own validity. */
  datatype Keyed = Keyed(id: string, time: Option<Option<int>>, valid: bool)

  /** Times compare as options: unknown is below every known time. */
  predicate Earlier(a: Option<int>, b: Option<int>) {
    b.Some? && (a.None? || a.value < b.value)
  }

  /** Newer first, unknown last, ties by ascending id. */
  predicate Precedes(a: Keyed, b: Keyed) {
    a.time.Some? && b.time.Some?
    && (Earlier(b.time.value, a.time.value) || (a.time.value == b.time.value && Less(a.id, b.id)))
  }

  /** The order said outright: later times first, rows without a time last, equal times by the bytes of the id. */
  lemma PrecedesMeans(a: Keyed, b: Keyed)
    requires a.time.Some? && b.time.Some?
    ensures Precedes(a, b) <==>
            match (a.time.value, b.time.value)
            case (Some(x), Some(y)) => x > y || (x == y && Below(Encoded(a.id), Encoded(b.id)))
            case (Some(x), None) => true
            case (None, Some(y)) => false
            case (None, None) => Below(Encoded(a.id), Encoded(b.id))
  {
    LessIsBelow(a.id, b.id);
  }

  /** The rows are valid, globally strictly sorted and have pairwise distinct ids. */
  predicate Sorted(rows: seq<Keyed>) {
    && (forall i | 0 <= i < |rows| :: rows[i].valid && rows[i].time.Some?)
    && (forall i, j | 0 <= i < j < |rows| :: Precedes(rows[i], rows[j]))
    && (forall i, j | 0 <= i < j < |rows| :: rows[i].id != rows[j].id)
  }

  lemma PrecedesTransitive(a: Keyed, b: Keyed, c: Keyed)
    requires Precedes(a, b) && Precedes(b, c)
    ensures Precedes(a, c)
  {
    if a.time == b.time == c.time {
      LessTransitive(a.id, b.id, c.id);
    }
  }

  /** `ordered`: comparing neighbours and remembering the ids decides the global property. */
  method Ordered(rows: seq<Keyed>) returns (ok: bool)
    ensures ok <==> Sorted(rows)
  {
    var ids: set<string> := {};
    var previous: Option<Keyed> := None;
    for n := 0 to |rows|
      invariant Sorted(rows[..n])
      invariant forall id :: id in ids <==> exists i | 0 <= i < n :: rows[i].id == id
      invariant if n == 0 then previous.None? else previous == Some(rows[n - 1])
    {
      var row := rows[n];
      if row.time.None? { return false; }
      if !row.valid || row.id in ids { return false; }
      ids := ids + {row.id};
      if previous.Some? {
        var before := previous.value;
        LessTotal(before.id, row.id);
        if Earlier(before.time.value, row.time.value)
          || (before.time.value == row.time.value && !Less(before.id, row.id)) {
          assert !Precedes(rows[n - 1], rows[n]);
          return false;
        }
        assert Precedes(before, row);
        forall i | 0 <= i < n ensures Precedes(rows[i], row) {
          if i < n - 1 {
            assert Precedes(rows[..n][i], rows[..n][n - 1]);
            PrecedesTransitive(rows[i], before, row);
          }
        }
      }
      previous := Some(row);
    }
    assert rows[..|rows|] == rows;
    return true;
  }

  // ---------------------------------------------------------------- sections

  datatype Availability = Available | NoCorpus | Failed

  datatype ErrorCode = Forbidden | Unavailable | InvalidData | LimitExceeded | CountsUnavailable

  datatype Section<T> = Section(availability: Availability, items: seq<T>, total: Option<nat>, hasMore: Option<bool>,
                                error: Option<ErrorCode>) {
    /** `RawSection::validate`. */
    predicate Consistent() {
      match availability
      case Available =>
        && total.Some? && total.value <= SAFE_COUNT_MAX
        && |items| == (if total.value < 20 then total.value else 20)
        && hasMore == Some(total.value > |items|) && error.None?
      case NoCorpus => items == [] && total == Some(0) && hasMore == Some(false) && error.None?
      case Failed => items == [] && total.None? && hasMore.None? && error.Some?
    }
  }

  /** The only consistent sections: a page of at most twenty items, the empty corpus, and the failures. */
  lemma SectionMeans<T>(s: Section<T>)
    ensures s.Consistent() <==>
            || (exists n: nat :: n <= 0x1F_FFFF_FFFF_FFFF && |s.items| == (if n > 20 then 20 else n)
                                 && s == Section(Available, s.items, Some(n), Some(n > 20), None))
            || s == Section(NoCorpus, [], Some(0), Some(false), None)
            || (exists e :: s == Section(Failed, [], None, None, Some(e)))
  {
    if s.Consistent() && s.availability.Available? {
      assert s == Section(Available, s.items, Some(s.total.value), Some(s.total.value > 20), None);
    }
  }

  datatype Task = Task(id: string, session: string, title: string, owner: string, leaseExpiresAt: string,
                       updatedAt: string)
  datatype Session = Session(id: string, title: string, owner: string, leaseExpiresAt: string, updatedAt: string,
                             completedTasks: nat, totalTasks: nat)
  datatype Memory = Memory(id: string, title: string, updatedBy: string, updatedAt: string)
  datatype Knowledge = Knowledge(slug: string, title: string, updatedAt: Option<string>)

  datatype Snapshot = Snapshot(project: string, generatedAt: string, tasks: Section<Task>, sessions: Section<Session>,
                               memories: Section<Memory>, knowledge: Section<Knowledge>)

  predicate ExactTitle(s: string) { s != "" && Trim(s) == s }

  predicate Slug(s: string) {
    s != "" && !(".." <= s) && '/' !in s && '\\' !in s
    && forall i | 0 <= i < |s| :: !Control(s[i])
  }

  function Known(t: Option<int>): Option<Option<int>> { if t.Some? then Some(t) else None }

  predicate After(s: string, generated: int) { Milliseconds(s).Some? && Milliseconds(s).value > generated }

  function TaskKey(t: Task, generated: int): Keyed {
    Keyed(t.id, Known(Milliseconds(t.updatedAt)),
          CanonicalId(t.id) && CanonicalId(t.session) && ExactTitle(t.title) && Ulid(t.owner)
            && After(t.leaseExpiresAt, generated))
  }

  function SessionKey(t: Session, generated: int): Keyed {
    Keyed(t.id, Known(Milliseconds(t.updatedAt)),
          CanonicalId(t.id) && ExactTitle(t.title) && Ulid(t.owner) && After(t.leaseExpiresAt, generated)
          && t.totalTasks <= SAFE_COUNT_MAX && t.completedTasks <= t.totalTasks)
  }

  function MemoryKey(m: Memory): Keyed {
    Keyed(m.id, Known(Milliseconds(m.updatedAt)), CanonicalId(m.id) && Trim(m.title) != "" && Ulid(m.updatedBy))
  }

  function KnowledgeKey(k: Knowledge): Keyed {
    Keyed(k.slug,
          match k.updatedAt
          case None => Some(None)
          case Some(text) =>
            var n := Decimal(text);
            if n.Some? && I64_MIN <= n.value <= I64_MAX then Some(n) else None,
          Slug(k.slug))
  }

  /** What makes a row acceptable and what it is ordered by, said of its fields. */
  lemma TaskRowMeans(t: Task, generated: int, n: int)
    ensures var key := TaskKey(t, generated);
            && key.id == t.id && (key.time == Some(Some(n)) <==> Stamp(t.updatedAt, n)) && key.time != Some(None)
            && (key.valid <==>
                && CanonicalId(t.id) && CanonicalId(t.session) && t.title != "" && Trimmed(t.title) && Ulid(t.owner)
                && exists end :: Stamp(t.leaseExpiresAt, end) && end > generated)
  {
    MillisecondsMean(t.updatedAt, n);
    TrimIsTrimmed(t.title);
    AfterMeans(t.leaseExpiresAt, generated);
  }

  lemma SessionRowMeans(t: Session, generated: int, n: int)
    ensures var key := SessionKey(t, generated);
            && key.id == t.id && (key.time == Some(Some(n)) <==> Stamp(t.updatedAt, n)) && key.time != Some(None)
            && (key.valid <==>
                && CanonicalId(t.id) && t.title != "" && Trimmed(t.title) && Ulid(t.owner)
                && t.completedTasks <= t.totalTasks <= 0x1F_FFFF_FFFF_FFFF
                && exists end :: Stamp(t.leaseExpiresAt, end) && end > generated)
  {
    MillisecondsMean(t.updatedAt, n);
    TrimIsTrimmed(t.title);
    AfterMeans(t.leaseExpiresAt, generated);
  }

  lemma MemoryRowMeans(m: Memory, n: int)
    ensures var key := MemoryKey(m);
            && key.id == m.id && (key.time == Some(Some(n)) <==> Stamp(m.updatedAt, n)) && key.time != Some(None)
            && (key.valid <==>
                CanonicalId(m.id) && Ulid(m.updatedBy) && exists i | 0 <= i < |m.title| :: !Whitespace(m.title[i]))
  {
    MillisecondsMean(m.updatedAt, n);
    BlankMeans(m.title);
  }

  lemma KnowledgeRowMeans(k: Knowledge, n: int)
    ensures var key := KnowledgeKey(k);
            && key.id == k.slug && (key.time == Some(None) <==> k.updatedAt == None)
            && (key.time == Some(Some(n)) <==> I64_MIN <= n <= I64_MAX && k.updatedAt == Some(ToText(n)))
            && (key.valid <==>
                && 1 <= |k.slug| && !(2 <= |k.slug| && k.slug[0] == '.' && k.slug[1] == '.')
                && forall i | 0 <= i < |k.slug| :: k.slug[i] != '/' && k.slug[i] != '\\' && !Control(k.slug[i]))
  {
    assert ".." <= k.slug <==> 2 <= |k.slug| && k.slug[0] == '.' && k.slug[1] == '.';
    if k.updatedAt.Some? {
      DecimalMeans(k.updatedAt.value);
      if I128_MIN <= n <= I128_MAX {
        DecimalInverts(n, k.updatedAt.value);
      }
    }
  }

  lemma AfterMeans(s: string, generated: int)
    ensures After(s, generated) <==> exists end :: Stamp(s, end) && end > generated
  {
    if end :| Stamp(s, end) && end > generated {
      MillisecondsMean(s, end);
    }
    if Milliseconds(s).Some? {
      MillisecondsMean(s, Milliseconds(s).value);
    }
  }

  lemma BlankMeans(s: string)
    ensures Trim(s) != "" <==> exists i | 0 <= i < |s| :: !Whitespace(s[i])
  {
    TrimMeans(s);
    var i: nat, j: nat :| Between(s, Whitespace, i, j, Trim(s));
    if Trim(s) != "" {
      assert s[i] == Trim(s)[0];
    }
  }

  function Keys<T>(items: seq<T>, key: T -> Keyed): (keys: seq<Keyed>)
    ensures |keys| == |items|
  {
    seq(|items|, i requires 0 <= i < |items| => key(items[i]))
  }

  predicate GeneratedFits(text: string) {
    Decimal(text).Some? && 0 <= Decimal(text).value <= MAX_MILLISECONDS_NS + MILLION - 1
  }

  /** A snapshot is generated at a nanosecond of a millisecond that fits 64 bits. */
  lemma GeneratedMeans(text: string)
    ensures GeneratedFits(text) <==> exists n :: text == ToText(n) && 0 <= n && n / 1_000_000 <= U64_MAX
  {
    DecimalMeans(text);
    if n :| text == ToText(n) && 0 <= n && n / 1_000_000 <= U64_MAX {
      DecimalInverts(n, text);
    }
  }

  /** `RawSnapshot::validate`. */
  predicate Valid(s: Snapshot) {
    GeneratedFits(s.generatedAt)
    && var generated := Decimal(s.generatedAt).value;
    && CanonicalId(s.project)
    && s.tasks.Consistent() && s.sessions.Consistent() && s.memories.Consistent() && s.knowledge.Consistent()
    && Sorted(Keys(s.tasks.items, (t: Task) => TaskKey(t, generated)))
    && Sorted(Keys(s.sessions.items, (t: Session) => SessionKey(t, generated)))
    && Sorted(Keys(s.memories.items, (m: Memory) => MemoryKey(m)))
    && Sorted(Keys(s.knowledge.items, (k: Knowledge) => KnowledgeKey(k)))
  }

  method Validate(s: Snapshot) returns (ok: bool)
    ensures ok <==> Valid(s)
  {
    if !GeneratedFits(s.generatedAt) { return false; }
    var generated := Decimal(s.generatedAt).value;
    if !CanonicalId(s.project) { return false; }
    if !s.tasks.Consistent() || !s.sessions.Consistent() || !s.memories.Consistent()
      || !s.knowledge.Consistent() { return false; }
    ok := Ordered(Keys(s.tasks.items, (t: Task) => TaskKey(t, generated)));
    if !ok { return; }
    ok := Ordered(Keys(s.sessions.items, (t: Session) => SessionKey(t, generated)));
    if !ok { return; }
    ok := Ordered(Keys(s.memories.items, (m: Memory) => MemoryKey(m)));
    if !ok { return; }
    ok := Ordered(Keys(s.knowledge.items, (k: Knowledge) => KnowledgeKey(k)));
  }

  // ---------------------------------------------------------------- masking

  /** What every removed section becomes. */
  function Removed<T>(): Section<T> { Section(Failed, [], None, None, Some(Forbidden)) }

  /** The section says that it is forbidden, and nothing else. */
  predicate Forbids<T>(section: Section<T>) {
    && section.availability == Failed && section.error == Some(Forbidden)
    && section.items == [] && section.total == None && section.hasMore == None
  }

  /** The section kept, or removed. */
  function Kept<T>(section: Section<T>, keep: bool): Section<T> { if keep then section else Removed() }

  /** `NowSectionData::forbid`, overwriting field by field. */
  method Forbid<T>(section: Section<T>) returns (r: Section<T>)
    ensures r == Removed()
  {
    r := section;
    r := r.(availability := Failed);
    r := r.(items := []);
    r := r.(total := None);
    r := r.(hasMore := None);
    r := r.(error := Some(Forbidden));
  }

  /** `mask_sections`: the flags select tasks with sessions, memories and knowledge. */
  method MaskSections(s: Snapshot, taskRead: bool, memoryRead: bool, knowledgeRead: bool) returns (r: Snapshot)
    ensures r == Masked(s, taskRead, memoryRead, knowledgeRead)
    ensures r.project == s.project && r.generatedAt == s.generatedAt
    ensures if taskRead then r.tasks == s.tasks && r.sessions == s.sessions
            else Forbids(r.tasks) && Forbids(r.sessions)
    ensures if memoryRead then r.memories == s.memories else Forbids(r.memories)
    ensures if knowledgeRead then r.knowledge == s.knowledge else Forbids(r.knowledge)
  {
    r := s;
    if !taskRead {
      var tasks := Forbid(r.tasks);
      var sessions := Forbid(r.sessions);
      r := r.(tasks := tasks, sessions := sessions);
    }
    if !memoryRead {
      var memories := Forbid(r.memories);
      r := r.(memories := memories);
    }
    if !knowledgeRead {
      var knowledge := Forbid(r.knowledge);
      r := r.(knowledge := knowledge);
    }
  }

  function Masked(s: Snapshot, task: bool, memory: bool, knowledge: bool): Snapshot {
    s.(tasks := Kept(s.tasks, task), sessions := Kept(s.sessions, task),
       memories := Kept(s.memories, memory), knowledge := Kept(s.knowledge, knowledge))
  }

  /**
   Masking returns a permitted section unchanged, keeps a valid snapshot valid,
       composes as the conjunction of its flags, and its result does
   not depend on what the removed sections held.
   */
  lemma MaskingIsSafe(s: Snapshot, other: Snapshot, t: bool, m: bool, k: bool, t': bool, m': bool, k': bool)
    ensures Valid(s) ==> Valid(Masked(s, t, m, k))
    ensures t ==> Masked(s, t, m, k).tasks == s.tasks && Masked(s, t, m, k).sessions == s.sessions
    ensures m ==> Masked(s, t, m, k).memories == s.memories
    ensures k ==> Masked(s, t, m, k).knowledge == s.knowledge
    ensures Masked(Masked(s, t, m, k), t', m', k') == Masked(s, t && t', m && m', k && k')
    ensures s.project == other.project && s.generatedAt == other.generatedAt
            && (t ==> s.tasks == other.tasks && s.sessions == other.sessions)
            && (m ==> s.memories == other.memories) && (k ==> s.knowledge == other.knowledge)
            ==> Masked(s, t, m, k) == Masked(other, t, m, k)
  {
    var masked := Masked(s, t, m, k);
    assert !t ==> masked.tasks.items == [] && masked.sessions.items == [];
    assert !m ==> masked.memories.items == [];
    assert !k ==> masked.knowledge.items == [];
  }
}
