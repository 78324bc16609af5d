/**
 Installation inventories and their stored rows: the validating constructors, the row-by-row
 decoder, and the flattening it inverts.
 */
module Inventory {
  import opened Common
  import opened Text

  datatype ProjectVersions = ProjectVersions(project: string, versions: seq<string>)

  /** One stored row. */
  datatype Row = Row(project: string, position: int, version: string)

  const I64_MAX: int := 0x7FFF_FFFF_FFFF_FFFF

  predicate CanonicalVersion(v: string) {
    v != "" && Trim(v) == v && forall i | 0 <= i < |v| :: !Control(v[i])
  }

  // ---------------------------------------------------------------- sorting

  function Insert(x: string, sorted: seq<string>): seq<string> {
    if sorted == [] || !Less(sorted[0], x) then [x] + sorted else [sorted[0]] + Insert(x, sorted[1..])
  }

  /** `Vec::sort`. */
  function Sort(xs: seq<string>): seq<string> {
    if xs == [] then [] else Insert(xs[0], Sort(xs[1..]))
  }

  predicate Ascending(xs: seq<string>) {
    forall i, j | 0 <= i < j < |xs| :: Less(xs[i], xs[j])
  }

  predicate NonDescending(xs: seq<string>) {
    forall i, j | 0 <= i < j < |xs| :: !Less(xs[j], xs[i])
  }

  lemma NotLessTransitive(a: string, b: string, c: string)
    requires !Less(b, a) && !Less(c, b)
    ensures !Less(c, a)
  {
    LessTotal(a, b);
    LessTotal(b, c);
    if Less(a, b) && Less(b, c) {
      LessTransitive(a, b, c);
      LessTotal(a, c);
    }
  }

  lemma ConsSorted(x: string, xs: seq<string>)
    requires NonDescending(xs) && (xs != [] ==> !Less(xs[0], x))
    ensures NonDescending([x] + xs)
  {
    var all := [x] + xs;
    forall i, j | 0 <= i < j < |all| ensures !Less(all[j], all[i]) {
      if i > 0 {
        assert !Less(xs[j - 1], xs[i - 1]);
      } else if j > 1 {
        NotLessTransitive(x, xs[0], xs[j - 1]);
      }
    }
  }

  lemma {:induction false} InsertRearranges(x: string, xs: seq<string>)
    ensures multiset(Insert(x, xs)) == multiset(xs) + multiset{x}
    ensures Insert(x, xs)[0] == x || (xs != [] && Insert(x, xs)[0] == xs[0])
    decreases |xs|
  {
    if xs != [] && Less(xs[0], x) {
      InsertRearranges(x, xs[1..]);
      assert xs == [xs[0]] + xs[1..];
    }
  }

  lemma {:induction false} InsertSorts(x: string, xs: seq<string>)
    requires NonDescending(xs)
    ensures NonDescending(Insert(x, xs))
    decreases |xs|
  {
    if xs == [] || !Less(xs[0], x) {
      ConsSorted(x, xs);
    } else {
      InsertSorts(x, xs[1..]);
      InsertRearranges(x, xs[1..]);
      LessTotal(xs[0], x);
      ConsSorted(xs[0], Insert(x, xs[1..]));
    }
  }

  /** Sorting is a sorted rearrangement. */
  lemma {:induction false} SortSorts(xs: seq<string>)
    ensures NonDescending(Sort(xs)) && multiset(Sort(xs)) == multiset(xs)
    decreases |xs|
  {
    if xs != [] {
      SortSorts(xs[1..]);
      InsertSorts(xs[0], Sort(xs[1..]));
      InsertRearranges(xs[0], Sort(xs[1..]));
      assert xs == [xs[0]] + xs[1..];
    }
  }

  /** Sorting leaves a strictly ascending list alone. */
  lemma {:induction false} SortIsIdentity(xs: seq<string>)
    requires Ascending(xs)
    ensures Sort(xs) == xs
    decreases |xs|
  {
    if xs != [] {
      SortIsIdentity(xs[1..]);
      if |xs| > 1 {
        assert Less(xs[0], xs[1]);
        LessTotal(xs[0], xs[1]);
      }
      assert xs == [xs[0]] + xs[1..];
    }
  }

  lemma DistinctFirst(x: string, rest: seq<string>)
    ensures Distinct([x] + rest) <==> x !in rest && Distinct(rest)
  {
    var xs := [x] + rest;
    if x !in rest && Distinct(rest) {
      forall i, j | 0 <= i < j < |xs| ensures xs[i] != xs[j] {
        assert xs[j] == rest[j - 1] && (i > 0 ==> xs[i] == rest[i - 1]);
      }
    }
    if Distinct(xs) {
      forall i, j | 0 <= i < j < |rest| ensures rest[i] != rest[j] {
        assert xs[i + 1] != xs[j + 1];
      }
      forall j | 0 <= j < |rest| ensures rest[j] != x {
        assert xs[0] != xs[j + 1];
      }
    }
  }

  lemma {:induction false} DistinctCounts(xs: seq<string>)
    ensures Distinct(xs) <==> forall x :: multiset(xs)[x] <= 1
    decreases |xs|
  {
    if xs != [] {
      var x, rest := xs[0], xs[1..];
      assert xs == [x] + rest && multiset(xs) == multiset{x} + multiset(rest);
      DistinctFirst(x, rest);
      DistinctCounts(rest);
      assert x in rest <==> x in multiset(rest);
      if !Distinct(xs) {
        if x in rest {
          assert multiset(xs)[x] > 1;
        } else {
          var y :| multiset(rest)[y] > 1;
          assert multiset(xs)[y] > 1;
        }
      }
    }
  }

  /** Some neighbours are equal. */
  predicate Repeats(xs: seq<string>) {
    exists i, j | 0 <= i < |xs| && 0 <= j < |xs| && j == i + 1 :: xs[i] == xs[j]
  }

  /** In sorted order equal texts are neighbours, so looking at neighbours finds every repetition. */
  lemma NeighboursRepeat(xs: seq<string>)
    ensures Repeats(Sort(xs)) <==> !Distinct(xs)
    ensures !Repeats(Sort(xs)) ==> Ascending(Sort(xs))
  {
    var sorted := Sort(xs);
    SortSorts(xs);
    DistinctCounts(xs);
    DistinctCounts(sorted);
    if !Repeats(sorted) {
      StrictlySorted(sorted);
      forall i, j | 0 <= i < j < |sorted| ensures sorted[i] != sorted[j] {
        assert Less(sorted[i], sorted[j]);
        LessTotal(sorted[i], sorted[j]);
      }
    }
  }

  lemma StrictlySorted(sorted: seq<string>)
    requires NonDescending(sorted) && !Repeats(sorted)
    ensures Ascending(sorted)
  {
    forall i, j | 0 <= i < j < |sorted| ensures Less(sorted[i], sorted[j]) {
      var next := sorted[i + 1];
      LessTotal(sorted[i], next);
      assert sorted[i] != next && (j > i + 1 ==> !Less(sorted[j], next));
      LessTotal(next, sorted[j]);
      if Less(next, sorted[j]) {
        LessTransitive(sorted[i], next, sorted[j]);
      }
    }
  }

  // ---------------------------------------------------------------- validating constructors

  /** `InstanceProjectVersions::new`: sorted versions, or nothing. */
  function NewProject(project: string, versions: seq<string>): Option<ProjectVersions> {
    if !CanonicalId(project) || versions == [] || |versions| > I64_MAX
       || (exists i | 0 <= i < |versions| :: !CanonicalVersion(versions[i])) then None
    else
      var sorted := Sort(versions);
      if Repeats(sorted) then None else Some(ProjectVersions(project, sorted))
  }

  predicate WellformedProject(p: ProjectVersions) {
    && CanonicalId(p.project) && p.versions != [] && |p.versions| <= I64_MAX
    && (forall i | 0 <= i < |p.versions| :: CanonicalVersion(p.versions[i]))
    && Ascending(p.versions)
  }

  /** Whatever is accepted is well formed and holds exactly the given versions. */
  lemma NewProjectSound(project: string, versions: seq<string>)
    requires NewProject(project, versions).Some?
    ensures WellformedProject(NewProject(project, versions).value)
    ensures NewProject(project, versions).value.project == project
    ensures multiset(NewProject(project, versions).value.versions) == multiset(versions)
  {
    var sorted := Sort(versions);
    SortSorts(versions);
    StrictlySorted(sorted);
    forall i | 0 <= i < |sorted| ensures CanonicalVersion(sorted[i]) {
      assert sorted[i] in multiset(sorted);
      assert sorted[i] in versions;
    }
    assert |sorted| == |multiset(sorted)| == |versions|;
  }

  /** Exactly nonempty lists of different canonical versions of a canonical project are accepted. */
  lemma NewProjectMeans(project: string, versions: seq<string>)
    ensures NewProject(project, versions).Some? <==>
            && CanonicalId(project) && 1 <= |versions| <= I64_MAX && Distinct(versions)
            && forall v | v in versions :: v != "" && Trimmed(v) && forall c | c in v :: !Control(c)
  {
    forall v | v in versions ensures Trim(v) == v <==> Trimmed(v) {
      TrimIsTrimmed(v);
    }
    NeighboursRepeat(versions);
  }

  /** Versions already in strict order are accepted as they are. */
  lemma NewProjectKeeps(p: ProjectVersions)
    requires WellformedProject(p)
    ensures NewProject(p.project, p.versions) == Some(p)
  {
    SortIsIdentity(p.versions);
    forall i, j | 0 <= i < j < |p.versions| ensures p.versions[i] != p.versions[j] {
      assert Less(p.versions[i], p.versions[j]);
      LessTotal(p.versions[i], p.versions[j]);
    }
  }

  /** A well-formed inventory: well-formed projects in strictly ascending order of their ids. */
  predicate Wellformed(inventory: seq<ProjectVersions>) {
    && (forall i | 0 <= i < |inventory| :: WellformedProject(inventory[i]))
    && InOrder(inventory)
  }

  predicate InOrder(inventory: seq<ProjectVersions>) {
    forall i, j | 0 <= i < j < |inventory| :: Less(inventory[i].project, inventory[j].project)
  }

  // ---------------------------------------------------------------- rows

  function ProjectRows(p: ProjectVersions): (rows: seq<Row>)
    ensures |rows| == |p.versions|
  {
    seq(|p.versions|, i requires 0 <= i < |p.versions| => Row(p.project, i + 1, p.versions[i]))
  }

  /** The rows an inventory is stored as. */
  function Flatten(inventory: seq<ProjectVersions>): seq<Row> {
    if inventory == [] then [] else Flatten(inventory[..|inventory| - 1]) + ProjectRows(inventory[|inventory| - 1])
  }

  // ---------------------------------------------------------------- lawful rows

  /** A row continues the previous row's project at the next position, or opens a later project at position 1. */
  predicate LawfulRow(rows: seq<Row>, i: nat)
    requires i < |rows|
  {
    var row := rows[i];
    && CanonicalId(row.project) && CanonicalVersion(row.version) && row.position <= I64_MAX
    && if i > 0 && rows[i - 1].project == row.project
       then row.position == rows[i - 1].position + 1 && Less(rows[i - 1].version, row.version)
       else row.position == 1 && (i > 0 ==> Less(rows[i - 1].project, row.project))
  }

  lemma FlattenLast(inventory: seq<ProjectVersions>)
    requires Wellformed(inventory) && inventory != []
    ensures var p, rows := inventory[|inventory| - 1], Flatten(inventory);
            |rows| >= |p.versions| && rows[|rows| - 1] == Row(p.project, |p.versions|, p.versions[|p.versions| - 1])
  {
    var p := inventory[|inventory| - 1];
    assert WellformedProject(p);
    assert ProjectRows(p)[|p.versions| - 1] == Row(p.project, |p.versions|, p.versions[|p.versions| - 1]);
  }

  lemma WellformedPrefix(inventory: seq<ProjectVersions>)
    requires Wellformed(inventory) && inventory != []
    ensures Wellformed(inventory[..|inventory| - 1])
  {
  }

  /** Stored rows are lawful, row by row. */
  lemma {:induction false} StoredRowsAreLawful(inventory: seq<ProjectVersions>, i: nat)
    requires Wellformed(inventory) && i < |Flatten(inventory)|
    ensures LawfulRow(Flatten(inventory), i)
    decreases |inventory|
  {
    var front, p := inventory[..|inventory| - 1], inventory[|inventory| - 1];
    var rows, before := Flatten(inventory), Flatten(front);
    WellformedPrefix(inventory);
    if i < |before| {
      StoredRowsAreLawful(front, i);
      assert rows[i] == before[i] && (i > 0 ==> rows[i - 1] == before[i - 1]);
    } else {
      var k := i - |before|;
      assert rows[i] == Row(p.project, k + 1, p.versions[k]);
      if k > 0 {
        assert rows[i - 1] == Row(p.project, k, p.versions[k - 1]);
        assert Less(p.versions[k - 1], p.versions[k]);
      } else if i > 0 {
        FlattenLast(front);
        var last := inventory[|inventory| - 2];
        assert Less(last.project, p.project);
        LessTotal(last.project, p.project);
      }
    }
  }

  /** The last project can be read off the last row. */
  lemma LastProject(fa: seq<Row>, pa: ProjectVersions, fb: seq<Row>, pb: ProjectVersions)
    requires fa + ProjectRows(pa) == fb + ProjectRows(pb) && pa.versions != [] && pb.versions != []
    ensures pa == pb && fa == fb
  {
    var a, b := fa + ProjectRows(pa), fb + ProjectRows(pb);
    var m, n := |pa.versions|, |pb.versions|;
    assert a[|a| - 1] == ProjectRows(pa)[m - 1] && b[|b| - 1] == ProjectRows(pb)[n - 1];
    assert m == n && a[..|fa|] == fa && b[..|fb|] == fb;
    forall i | 0 <= i < m ensures pa.versions[i] == pb.versions[i] {
      assert a[|fa| + i] == ProjectRows(pa)[i] && b[|fb| + i] == ProjectRows(pb)[i];
    }
    assert pa.versions == pb.versions;
  }

  /** Different well-formed inventories are stored differently. */
  lemma {:induction false} FlattenInjective(a: seq<ProjectVersions>, b: seq<ProjectVersions>)
    requires Wellformed(a) && Wellformed(b) && Flatten(a) == Flatten(b)
    ensures a == b
    decreases |a|
  {
    if a != [] && b != [] {
      LastProject(Flatten(a[..|a| - 1]), a[|a| - 1], Flatten(b[..|b| - 1]), b[|b| - 1]);
      WellformedPrefix(a);
      WellformedPrefix(b);
      FlattenInjective(a[..|a| - 1], b[..|b| - 1]);
      assert a == a[..|a| - 1] + [a[|a| - 1]] && b == b[..|b| - 1] + [b[|b| - 1]];
    } else if a != [] {
      FlattenLast(a);
    } else if b != [] {
      FlattenLast(b);
    }
  }

  // ---------------------------------------------------------------- the decoder

  /** The rows so far are the finished projects and the versions of the open one, possibly none. */
  ghost predicate Ready(rows: seq<Row>, projects: seq<ProjectVersions>, project: string, versions: seq<string>) {
    && Wellformed(projects) && CanonicalId(project) && |versions| <= I64_MAX && Ascending(versions)
    && (projects != [] ==> Less(projects[|projects| - 1].project, project))
    && rows == Flatten(projects) + ProjectRows(ProjectVersions(project, versions))
  }

  /** Between rows: nothing read yet, or the open project has at least one version. */
  ghost predicate Reading(rows: seq<Row>, projects: seq<ProjectVersions>, project: string, versions: seq<string>) {
    if project == "" then projects == [] && versions == [] && rows == []
    else versions != [] && Ready(rows, projects, project, versions)
  }

  /** No well-formed inventory is stored as these rows. */
  ghost predicate Malformed(rows: seq<Row>) {
    forall inventory | Wellformed(inventory) :: Flatten(inventory) != rows
  }

  lemma UnlawfulIsMalformed(rows: seq<Row>, i: nat)
    requires i < |rows| && !LawfulRow(rows, i)
    ensures Malformed(rows)
  {
    forall inventory | Wellformed(inventory) ensures Flatten(inventory) != rows {
      if Flatten(inventory) == rows {
        StoredRowsAreLawful(inventory, i);
      }
    }
  }

  lemma ReadingLast(rows: seq<Row>, projects: seq<ProjectVersions>, project: string, versions: seq<string>)
    requires Reading(rows, projects, project, versions) && project != ""
    ensures |rows| >= 1 && rows[|rows| - 1] == Row(project, |versions|, versions[|versions| - 1])
  {
  }

  /** The next row opens a later project at position 1, or continues the open one. */
  predicate NextFits(row: Row, project: string, versions: seq<string>) {
    && CanonicalId(row.project)
    && if row.project == project
       then versions != [] && |versions| < I64_MAX && row.position == |versions| + 1
         && Less(versions[|versions| - 1], row.version)
       else row.position == 1 && (project != "" ==> Less(project, row.project))
  }

  lemma NextRow(rows: seq<Row>, n: nat, projects: seq<ProjectVersions>, project: string, versions: seq<string>)
    requires n < |rows| && Reading(rows[..n], projects, project, versions)
    ensures Malformed(rows) || NextFits(rows[n], project, versions)
  {
    if project != "" {
      ReadingLast(rows[..n], projects, project, versions);
      assert rows[..n][n - 1] == rows[n - 1];
    }
    if !LawfulRow(rows, n) {
      UnlawfulIsMalformed(rows, n);
    }
  }

  /** Closing the open project either yields it as read, or exposes a version no inventory holds. */
  lemma CloseProject(rows: seq<Row>, n: nat, projects: seq<ProjectVersions>, project: string, versions: seq<string>)
    requires n <= |rows| && Reading(rows[..n], projects, project, versions) && project != ""
    ensures NewProject(project, versions).None? ==> Malformed(rows)
    ensures NewProject(project, versions).Some? ==>
              && NewProject(project, versions) == Some(ProjectVersions(project, versions))
              && Wellformed(projects + [ProjectVersions(project, versions)])
              && Flatten(projects + [ProjectVersions(project, versions)]) == rows[..n]
  {
    var p := ProjectVersions(project, versions);
    if i :| 0 <= i < |versions| && !CanonicalVersion(versions[i]) {
      var k := |Flatten(projects)| + i;
      assert rows[k] == rows[..n][k] == ProjectRows(p)[i];
      UnlawfulIsMalformed(rows, k);
    } else {
      NewProjectKeeps(p);
      AppendProject(projects, p);
    }
  }

  /** After closing, a later project can be opened. */
  lemma OpenProject(rows: seq<Row>, projects: seq<ProjectVersions>, project: string)
    requires Wellformed(projects) && Flatten(projects) == rows && CanonicalId(project)
    requires projects != [] ==> Less(projects[|projects| - 1].project, project)
    ensures Ready(rows, projects, project, [])
  {
    assert ProjectRows(ProjectVersions(project, [])) == [];
  }

  lemma AppendProject(projects: seq<ProjectVersions>, p: ProjectVersions)
    requires Wellformed(projects) && WellformedProject(p)
    requires projects != [] ==> Less(projects[|projects| - 1].project, p.project)
    ensures Wellformed(projects + [p]) && Flatten(projects + [p]) == Flatten(projects) + ProjectRows(p)
  {
    AppendInOrder(projects, p);
    FlattenMore(projects, p);
  }

  lemma AppendInOrder(projects: seq<ProjectVersions>, p: ProjectVersions)
    requires InOrder(projects) && (projects != [] ==> Less(projects[|projects| - 1].project, p.project))
    ensures InOrder(projects + [p])
  {
    var all := projects + [p];
    forall i, j | 0 <= i < j < |all| ensures Less(all[i].project, all[j].project) {
      if j == |projects| && i < j - 1 {
        LessTransitive(projects[i].project, projects[j - 1].project, p.project);
      }
    }
  }

  lemma FlattenMore(projects: seq<ProjectVersions>, p: ProjectVersions)
    ensures Flatten(projects + [p]) == Flatten(projects) + ProjectRows(p)
  {
    assert (projects + [p])[..|projects|] == projects;
  }

  lemma AppendAscending(xs: seq<string>, x: string)
    requires Ascending(xs) && (xs != [] ==> Less(xs[|xs| - 1], x))
    ensures Ascending(xs + [x])
  {
    var more := xs + [x];
    forall i, j | 0 <= i < j < |more| ensures Less(more[i], more[j]) {
      if j == |xs| && i < j - 1 {
        LessTransitive(xs[i], xs[j - 1], x);
      }
    }
  }

  /** Appending its version to the open project reads the next row. */
  lemma ReadOne(rows: seq<Row>, n: nat, projects: seq<ProjectVersions>, project: string, versions: seq<string>)
    requires n < |rows| && Ready(rows[..n], projects, project, versions) && |versions| < I64_MAX
    requires rows[n] == Row(project, |versions| + 1, rows[n].version)
    requires versions != [] ==> Less(versions[|versions| - 1], rows[n].version)
    ensures Reading(rows[..n + 1], projects, project, versions + [rows[n].version])
  {
    var more := versions + [rows[n].version];
    assert ProjectRows(ProjectVersions(project, more)) == ProjectRows(ProjectVersions(project, versions)) + [rows[n]];
    assert rows[..n + 1] == rows[..n] + [rows[n]];
    AppendAscending(versions, rows[n].version);
    assert project != "";
  }

  /** Finishes the open project, if there is one. */
  method Close(rows: seq<Row>, n: nat, projects: seq<ProjectVersions>, project: string, versions: seq<string>)
    returns (closed: Option<seq<ProjectVersions>>)
    requires n <= |rows| && Reading(rows[..n], projects, project, versions)
    ensures closed.None? ==> Malformed(rows)
    ensures closed.Some? ==> Wellformed(closed.value) && Flatten(closed.value) == rows[..n]
    ensures closed.Some? && closed.value != [] ==> closed.value[|closed.value| - 1].project == project != ""
  {
    if project == "" { return Some(projects); }
    CloseProject(rows, n, projects, project, versions);
    var finished := NewProject(project, versions);
    if finished.None? { return None; }
    return Some(projects + [finished.value]);
  }

  /** Finishes the open project and opens that of the next row. */
  method Switch(rows: seq<Row>, n: nat, projects: seq<ProjectVersions>, project: string, versions: seq<string>)
    returns (closed: Option<seq<ProjectVersions>>)
    requires n < |rows| && Reading(rows[..n], projects, project, versions)
    requires rows[n].project != project && CanonicalId(rows[n].project)
    ensures closed.None? ==> Malformed(rows)
    ensures closed.Some? ==> Ready(rows[..n], closed.value, rows[n].project, [])
  {
    NextRow(rows, n, projects, project, versions);
    if project != "" && !Less(project, rows[n].project) { return None; }
    closed := Close(rows, n, projects, project, versions);
    if closed.Some? {
      OpenProject(rows[..n], closed.value, rows[n].project);
    }
  }

  /**
   The decoder's row loop: it accepts exactly the rows of a well-formed inventory, and then returns
   that inventory.
   */
  method DecodeRows(rows: seq<Row>) returns (inventory: Option<seq<ProjectVersions>>)
    ensures inventory.Some? ==> Wellformed(inventory.value) && Flatten(inventory.value) == rows
    ensures inventory.None? ==> Malformed(rows)
  {
    var projects: seq<ProjectVersions> := [];
    var project := "";
    var versions: seq<string> := [];
    for n := 0 to |rows|
      invariant Reading(rows[..n], projects, project, versions)
    {
      var row := rows[n];
      NextRow(rows, n, projects, project, versions);
      if !CanonicalId(row.project) { return None; }
      if row.project != project {
        var closed := Switch(rows, n, projects, project, versions);
        if closed.None? { return None; }
        projects, project, versions := closed.value, row.project, [];
      }
      if |versions| == I64_MAX || row.position != |versions| + 1
         || (versions != [] && !Less(versions[|versions| - 1], row.version)) {
        return None;
      }
      ReadOne(rows, n, projects, project, versions);
      versions := versions + [row.version];
    }
    assert rows[..|rows|] == rows;
    inventory := Close(rows, |rows|, projects, project, versions);
  }

  /** Decoding inverts flattening, and nothing else decodes. */
  lemma RowsRoundTrip(inventory: seq<ProjectVersions>, decoded: Option<seq<ProjectVersions>>)
    requires Wellformed(inventory)
    requires decoded.Some? ==> Wellformed(decoded.value) && Flatten(decoded.value) == Flatten(inventory)
    requires decoded.None? ==> Malformed(Flatten(inventory))
    ensures decoded == Some(inventory)
  {
    if decoded.Some? {
      FlattenInjective(decoded.value, inventory);
    }
  }

  // ---------------------------------------------------------------- the stored parent

  function InsertProject(x: ProjectVersions, sorted: seq<ProjectVersions>): seq<ProjectVersions> {
    if sorted == [] || !Less(sorted[0].project, x.project) then [x] + sorted
    else [sorted[0]] + InsertProject(x, sorted[1..])
  }

  /** `sort_by` the project id. */
  function SortProjects(xs: seq<ProjectVersions>): seq<ProjectVersions> {
    if xs == [] then [] else InsertProject(xs[0], SortProjects(xs[1..]))
  }

  function Ids(projects: seq<ProjectVersions>): (ids: seq<string>)
    ensures |ids| == |projects|
  {
    seq(|projects|, i requires 0 <= i < |projects| => projects[i].project)
  }

  lemma {:induction false} InsertProjectMeans(x: ProjectVersions, xs: seq<ProjectVersions>)
    ensures Ids(InsertProject(x, xs)) == Insert(x.project, Ids(xs))
    ensures multiset(InsertProject(x, xs)) == multiset(xs) + multiset{x}
    decreases |xs|
  {
    if xs != [] && Less(xs[0].project, x.project) {
      InsertProjectMeans(x, xs[1..]);
      assert xs == [xs[0]] + xs[1..] && Ids(xs)[1..] == Ids(xs[1..]);
      assert Ids([xs[0]] + InsertProject(x, xs[1..])) == [xs[0].project] + Ids(InsertProject(x, xs[1..]));
    } else {
      assert Ids([x] + xs) == [x.project] + Ids(xs);
    }
  }

  /** Sorting projects rearranges them and sorts their ids. */
  lemma {:induction false} SortProjectsMeans(xs: seq<ProjectVersions>)
    ensures Ids(SortProjects(xs)) == Sort(Ids(xs)) && multiset(SortProjects(xs)) == multiset(xs)
    decreases |xs|
  {
    if xs != [] {
      SortProjectsMeans(xs[1..]);
      InsertProjectMeans(xs[0], SortProjects(xs[1..]));
      assert xs == [xs[0]] + xs[1..] && Ids(xs)[1..] == Ids(xs[1..]);
    }
  }

  /** `InstanceInventory::new`. */
  function NewInventory(instance: string, projects: seq<ProjectVersions>): Option<seq<ProjectVersions>> {
    if !InstallationId(instance) then None
    else
      var sorted := SortProjects(projects);
      if Repeats(Ids(sorted)) then None else Some(sorted)
  }

  lemma {:induction false} SortProjectsIsIdentity(xs: seq<ProjectVersions>)
    requires Wellformed(xs)
    ensures SortProjects(xs) == xs
    decreases |xs|
  {
    if xs != [] {
      var rest := xs[1..];
      SortProjectsIsIdentity(rest);
      if |xs| > 1 {
        assert Less(xs[0].project, xs[1].project);
        LessTotal(xs[0].project, xs[1].project);
      }
      assert xs == [xs[0]] + rest;
    }
  }

  /** Exactly projects with different ids are accepted, and then stored in ascending order of them. */
  lemma NewInventoryMeans(instance: string, projects: seq<ProjectVersions>)
    ensures var r := NewInventory(instance, projects);
            && (r.Some? <==> InstallationId(instance) && Distinct(Ids(projects)))
            && (r.Some? ==> InOrder(r.value) && multiset(r.value) == multiset(projects))
  {
    SortProjectsMeans(projects);
    NeighboursRepeat(Ids(projects));
    var sorted := SortProjects(projects);
    if !Repeats(Ids(sorted)) {
      forall i, j | 0 <= i < j < |sorted| ensures Less(sorted[i].project, sorted[j].project) {
        assert Less(Ids(sorted)[i], Ids(sorted)[j]);
      }
    }
  }

  /** A well-formed inventory needs no reordering and is accepted for every canonical installation. */
  lemma NewInventoryKeeps(instance: string, projects: seq<ProjectVersions>)
    requires Wellformed(projects)
    ensures NewInventory(instance, projects) == if InstallationId(instance) then Some(projects) else None
  {
    SortProjectsIsIdentity(projects);
    forall i, j | 0 <= i < j < |projects| ensures projects[i].project != projects[j].project {
      assert Less(projects[i].project, projects[j].project);
      LessTotal(projects[i].project, projects[j].project);
    }
  }

  datatype Parent = Parent(instance: string, issuer: string, subject: string, createdAt: int, updatedAt: int,
                           rows: seq<Row>)

  predicate OwnerValue(value: string, characters: nat) {
    value != "" && '\0' !in value && |value| <= characters
  }

  predicate HeaderFits(expected: string, parent: Parent) {
    && parent.instance == expected && 0 <= parent.createdAt && 0 <= parent.updatedAt
    && OwnerValue(parent.issuer, 1024) && OwnerValue(parent.subject, 512)
  }

  datatype StoredInventory = StoredInventory(instance: string, issuer: string, subject: string,
                                             projects: seq<ProjectVersions>, createdAt: int, updatedAt: int)

  /** `decode_inventory` after its JSON has been read. */
  method Decode(expected: string, parent: Parent) returns (stored: Option<StoredInventory>)
    ensures stored.Some? <==>
            && parent.instance == expected && InstallationId(expected)
            && parent.createdAt >= 0 && parent.updatedAt >= 0
            && 1 <= |parent.issuer| <= 1024 && 1 <= |parent.subject| <= 512
            && '\0' !in parent.issuer && '\0' !in parent.subject
            && !Malformed(parent.rows)
    ensures stored.Some? ==>
              && Wellformed(stored.value.projects) && Flatten(stored.value.projects) == parent.rows
              && parent == Parent(stored.value.instance, stored.value.issuer, stored.value.subject,
                                  stored.value.createdAt, stored.value.updatedAt, parent.rows)
  {
    if !HeaderFits(expected, parent) { return None; }
    var projects := DecodeRows(parent.rows);
    if projects.None? { return None; }
    NewInventoryKeeps(parent.instance, projects.value);
    var inventory := NewInventory(parent.instance, projects.value);
    if inventory.None? { return None; }
    return Some(StoredInventory(parent.instance, parent.issuer, parent.subject, inventory.value,
                                parent.createdAt, parent.updatedAt));
  }
}
