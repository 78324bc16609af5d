/** Requested storage scopes, the object-key roots they own, and their isolation from one another. */
module StorageScopes {
  import opened Common
  import opened Text
  import opened Paths
  import opened Utf8
  import opened Encodings

  datatype Module = Hub | Task | Memory | Knowledge | Ast {
    function Name(): string {
      match this
      case Hub => "hub"
      case Task => "task"
      case Memory => "memory"
      case Knowledge => "knowledge"
      case Ast => "ast"
    }
  }

  datatype Scope = ProjectScope(project: string, area: Module) | UserMemory(installation: string) | GlobalHub {
    function ProjectId(): Option<string> {
      if ProjectScope? then Some(project) else None
    }

    /** What the scope constructors accept. */
    predicate Valid() {
      match this
      case ProjectScope(project, _) => CanonicalId(project)
      case UserMemory(installation) => InstallationId(installation)
      case GlobalHub => true
    }
  }

  /** The roots of a scope as path segments; `namespace` is the caller's own user namespace. */
  function RootSegments(scope: Scope, namespace: string): seq<seq<string>> {
    match scope
    case GlobalHub => [["v1", "hub", "global", "registry"], ["v1", "hub", "global", "rules"]]
    case ProjectScope(p, area) =>
      if area.Hub? then
        [["v1", "projects", p, "registry"], ["v1", "projects", p, "artifacts"],
         ["v1", "projects", p, "hub", "metadata"], ["v1", "projects", p, "hub", "events"]]
      else [["v1", "projects", p, "corpora", area.Name()]]
    case UserMemory(i) => [["v1", "installations", i, "users", namespace, "corpora", "memory"]]
  }

  /** `StorageScope::roots`. */
  function Roots(scope: Scope, namespace: string): (roots: seq<string>)
    ensures |roots| == |RootSegments(scope, namespace)| >= 1
  {
    var segments := RootSegments(scope, namespace);
    seq(|segments|, i requires 0 <= i < |segments| => Join(segments[i], '/'))
  }

  /** Three segments before others. */
  lemma JoinThree(a: string, b: string, c: string, rest: seq<string>, head: string)
    requires rest != [] && head == a + "/" + b + "/"
    ensures Join([a, b, c] + rest, '/') == head + c + "/" + Join(rest, '/')
  {
    assert ([a, b, c] + rest)[1..] == [b, c] + rest && ([b, c] + rest)[1..] == [c] + rest && ([c] + rest)[1..] == rest;
    var j := Join(rest, '/');
    assert Join([b, c] + rest, '/') == b + "/" + (c + "/" + j);
    assert a + "/" + (b + "/" + (c + "/" + j)) == a + "/" + b + "/" + c + "/" + j;
  }

  lemma JoinTwo(a: string, b: string)
    ensures Join([a, b], '/') == a + "/" + b
  {
    assert [a, b][1..] == [b];
  }

  /** The roots of the global Hub as they read. */
  lemma HubRootsRead(namespace: string)
    ensures Roots(GlobalHub, namespace)
            == ["v1/hub/" + "global" + "/" + "registry", "v1/hub/" + "global" + "/" + "rules"]
  {
    assert "v1" + "/" + "hub" + "/" == "v1/hub/";
    JoinThree("v1", "hub", "global", ["registry"], "v1/hub/");
    JoinThree("v1", "hub", "global", ["rules"], "v1/hub/");
    assert ["v1", "hub", "global"] + ["registry"] == ["v1", "hub", "global", "registry"];
    assert ["v1", "hub", "global"] + ["rules"] == ["v1", "hub", "global", "rules"];
  }

  /** A root within a project as it reads. */
  lemma WithinProject(p: string, rest: seq<string>)
    requires rest != []
    ensures Join(["v1", "projects", p] + rest, '/') == "v1/projects/" + p + "/" + Join(rest, '/')
  {
    assert "v1" + "/" + "projects" + "/" == "v1/projects/";
    JoinThree("v1", "projects", p, rest, "v1/projects/");
  }

  /** The roots of a project as they read. */
  lemma ProjectRootsRead(p: string, area: Module, namespace: string)
    ensures Roots(ProjectScope(p, area), namespace) ==
            var home := "v1/projects/" + p + "/";
            match area
            case Hub => [home + "registry", home + "artifacts", home + ("hub" + "/" + "metadata"),
                         home + ("hub" + "/" + "events")]
            case Task => [home + ("corpora" + "/" + "task")]
            case Memory => [home + ("corpora" + "/" + "memory")]
            case Knowledge => [home + ("corpora" + "/" + "knowledge")]
            case Ast => [home + ("corpora" + "/" + "ast")]
  {
    var segments, start := RootSegments(ProjectScope(p, area), namespace), ["v1", "projects", p];
    forall i | 0 <= i < |segments|
      ensures Join(segments[i], '/') == "v1/projects/" + p + "/" + Join(segments[i][3..], '/')
    {
      assert segments[i] == start + segments[i][3..];
      WithinProject(p, segments[i][3..]);
    }
    JoinTwo("hub", "metadata");
    JoinTwo("hub", "events");
    JoinTwo("corpora", area.Name());
  }

  /** The root of a user's memory as it reads. */
  lemma MemoryRootsRead(i: string, namespace: string)
    ensures Roots(UserMemory(i), namespace) ==
            ["v1/installations/" + i + "/" + ("users" + "/" + (namespace + "/" + ("corpora" + "/" + "memory")))]
  {
    var tail := ["users", namespace, "corpora", "memory"];
    assert "v1" + "/" + "installations" + "/" == "v1/installations/";
    JoinThree("v1", "installations", i, tail, "v1/installations/");
    assert ["v1", "installations", i] + tail == RootSegments(UserMemory(i), namespace)[0];
    assert tail[1..] == [namespace, "corpora", "memory"] && tail[1..][1..] == ["corpora", "memory"];
    JoinTwo("corpora", "memory");
    assert Join(tail[1..], '/') == namespace + "/" + Join(["corpora", "memory"], '/');
  }

  /** Segments free of slashes. */
  predicate SlashFree(segments: seq<string>) {
    forall i | 0 <= i < |segments| :: '/' !in segments[i]
  }

  lemma RootSegmentsSlashFree(scope: Scope, namespace: string, i: nat)
    requires scope.Valid() && '/' !in namespace && i < |RootSegments(scope, namespace)|
    ensures RootSegments(scope, namespace)[i] != [] && SlashFree(RootSegments(scope, namespace)[i])
  {
    match scope
    case GlobalHub =>
    case ProjectScope(project, area) =>
      assert '/' !in project;
      assert '/' !in area.Name();
    case UserMemory(installation) =>
      assert '/' !in installation;
  }

  lemma RootSplits(scope: Scope, namespace: string, i: nat)
    requires scope.Valid() && '/' !in namespace && i < |Roots(scope, namespace)|
    ensures Split(Roots(scope, namespace)[i], '/') == RootSegments(scope, namespace)[i]
  {
    RootSegmentsSlashFree(scope, namespace, i);
    SplitJoin(RootSegments(scope, namespace)[i], '/');
  }

  /** The object key belongs to the scope. */
  ghost predicate Owns(scope: Scope, namespace: string, key: string) {
    exists i | 0 <= i < |Roots(scope, namespace)| :: Under(key, Roots(scope, namespace)[i])
  }

  /** Root segments determine the scope, and for user memory the namespace. */
  lemma SegmentsIdentify(s1: Scope, n1: string, i: nat, s2: Scope, n2: string, j: nat, all: seq<string>)
    requires i < |RootSegments(s1, n1)| && j < |RootSegments(s2, n2)|
    requires RootSegments(s1, n1)[i] <= all && RootSegments(s2, n2)[j] <= all
    ensures s1 == s2 && (s1.UserMemory? ==> n1 == n2)
  {
    var a, b := RootSegments(s1, n1)[i], RootSegments(s2, n2)[j];
    assert a[1] == all[1] == b[1] && a[2] == all[2] == b[2] && a[3] == all[3] == b[3];
    if |a| > 4 {
      assert a[4] == all[4];
    }
    if |b| > 4 {
      assert b[4] == all[4];
    }
  }

  /**
   Isolation: two valid scopes that share any object key are the same scope, and for user memory the
   same owner, provided the digest does not collide on the two owners.
   */
  lemma ScopesAreIsolated(digest: seq<Byte> -> seq<Byte>, s1: Scope, i1: seq<Byte>, u1: seq<Byte>,
                          s2: Scope, i2: seq<Byte>, u2: seq<Byte>, key: string)
    requires s1.Valid() && s2.Valid() && Lengths([i1, u1]) && Lengths([i2, u2])
    requires var a, b := NamespaceInput(i1, u1), NamespaceInput(i2, u2); digest(a) == digest(b) ==> a == b
    requires Owns(s1, Namespace(digest, i1, u1), key) && Owns(s2, Namespace(digest, i2, u2), key)
    ensures s1 == s2 && (s1.UserMemory? ==> i1 == i2 && u1 == u2)
  {
    var n1, n2 := Namespace(digest, i1, u1), Namespace(digest, i2, u2);
    HexHasNoSlash(digest(NamespaceInput(i1, u1)));
    HexHasNoSlash(digest(NamespaceInput(i2, u2)));
    var i :| 0 <= i < |Roots(s1, n1)| && Under(key, Roots(s1, n1)[i]);
    var j :| 0 <= j < |Roots(s2, n2)| && Under(key, Roots(s2, n2)[j]);
    RootSplits(s1, n1, i);
    RootSplits(s2, n2, j);
    UnderSegments(key, Roots(s1, n1)[i]);
    UnderSegments(key, Roots(s2, n2)[j]);
    SegmentsIdentify(s1, n1, i, s2, n2, j, Split(key, '/'));
    if s1.UserMemory? {
      NamespaceSeparates(digest, i1, u1, i2, u2);
    }
  }
}
