/**
 Grant rules: who a rule is for, how raw rules are compiled, and which compiled rules apply.
 Glob syntax and matching belong to a library and are parameters here.
 */
module GrantPolicy {
  import opened Common
  import opened Text
  import opened Templates

  /** The glob library: which patterns compile, and which texts a compiled pattern matches. */
  datatype Globs = Globs(compiles: string -> bool, matches: (string, string) -> bool) {
    predicate Accepts(pattern: string) { Trim(pattern) != "" && compiles(Trim(pattern)) }

    predicate AnyMatches(patterns: seq<string>, text: string) {
      exists i | 0 <= i < |patterns| :: matches(patterns[i], text)
    }
  }

  datatype Principal = Principal(issuer: string, subject: string, username: Option<string>,
                                 organization: Option<string>, teams: seq<string>)

  datatype Selector =
    | Global
    | Anonymous
    | Authenticated
    | User(name: string)
    | Team(name: string)
    | OrganizationOf(name: string)
    | SubjectOf(name: string)
  {
    predicate Matches(user: Option<Principal>) {
      match this
      case Global => true
      case Anonymous => user.None?
      case Authenticated => user.Some?
      case User(name) => user.Some? && user.value.username == Some(name)
      case Team(name) => user.Some? && name in user.value.teams
      case OrganizationOf(name) => user.Some? && user.value.organization == Some(name)
      case SubjectOf(name) =>
        user.Some? && (user.value.subject == name || user.value.issuer + "|" + user.value.subject == name)
    }
  }

  /** One stored rule, as read. */
  datatype GrantRule = GrantRule(accessKind: string, principal: string, route: string, capabilities: seq<string>,
                                 projects: seq<string>, operations: seq<string>, prefixes: seq<string>)

  /** The Hub part of a compiled rule; texts are trimmed. */
  datatype HubRule = HubRule(selector: Selector, capabilities: seq<string>, projects: seq<string>, route: string)

  /** A rule without projects, or for all of them, covers even a request that names none. */
  predicate CoversProject(projects: seq<string>, project: Option<string>) {
    projects == [] || "*" in projects || (project.Some? && project.value in projects)
  }

  datatype StorageRule = StorageRule(hub: HubRule, operations: seq<string>, templates: seq<string>)

  function Lower(s: string): string {
    seq(|s|, i requires 0 <= i < |s| => if 'A' <= s[i] <= 'Z' then (s[i] as int + 32) as char else s[i])
  }

  /** The same letters as the word, capitals or not. */
  predicate Spells(s: string, word: string) {
    |s| == |word| &&
    forall i | 0 <= i < |s| :: s[i] == word[i]
      || ('A' <= s[i] <= 'Z' && s[i] as int + ('a' as int - 'A' as int) == word[i] as int)
  }

  /** Lowering and comparing ignores the case of ASCII letters only. */
  lemma LowerMeans(s: string, word: string)
    requires forall i | 0 <= i < |word| :: !('A' <= word[i] <= 'Z')
    ensures Lower(s) == word <==> Spells(s, word)
  {
    if Lower(s) == word {
      assert forall i | 0 <= i < |s| :: Lower(s)[i] == word[i];
    }
  }

  function ParseSelector(kind: string, name: string): Option<Selector> {
    var k := Lower(Trim(kind));
    if k == "global" then Some(Global)
    else if k == "anonymous" then Some(Anonymous)
    else if k == "authenticated" then Some(Authenticated)
    else if k == "user" then Some(User(Trim(name)))
    else if k == "team" then Some(Team(Trim(name)))
    else if k == "organization" then Some(OrganizationOf(Trim(name)))
    else if k == "subject" then Some(SubjectOf(Trim(name)))
    else None
  }

  function TrimAll(texts: seq<string>): (r: seq<string>)
    ensures |r| == |texts|
  {
    seq(|texts|, i requires 0 <= i < |texts| => Trim(texts[i]))
  }

  /** `trim_matches('/')`. */
  function TrimSlashes(s: string): string {
    if s != "" && s[0] == '/' then TrimSlashes(s[1..])
    else if s != "" && s[|s| - 1] == '/' then TrimSlashes(s[..|s| - 1])
    else s
  }

  /** Slashes go at the two ends and nowhere else. */
  lemma {:induction false} TrimSlashesMeans(s: string)
    ensures Strips(s, c => c == '/', TrimSlashes(s))
    decreases |s|
  {
    var slash, r := (c: char) => c == '/', TrimSlashes(s);
    if s != "" && s[0] == '/' {
      TrimSlashesMeans(s[1..]);
      var i: nat, j: nat :| Between(s[1..], slash, i, j, r);
      assert forall k | j + 1 <= k < |s| :: s[k] == s[1..][k - 1];
      assert forall k | 1 <= k < i + 1 :: s[k] == s[1..][k - 1];
      assert Between(s, slash, i + 1, j + 1, r);
    } else if s != "" && s[|s| - 1] == '/' {
      TrimSlashesMeans(s[..|s| - 1]);
      var i: nat, j: nat :| Between(s[..|s| - 1], slash, i, j, r);
      assert Between(s, slash, i, j, r);
    } else {
      assert Between(s, slash, 0, |s|, r);
    }
  }

  function Template(raw: string): string { TrimSlashes(Trim(raw)) }

  predicate HubCompiles(g: Globs, raw: GrantRule) {
    && ParseSelector(raw.accessKind, raw.principal).Some?
    && raw.capabilities != []
    && (forall i | 0 <= i < |raw.projects| :: Trim(raw.projects[i]) == "*" || CanonicalId(Trim(raw.projects[i])))
    && (forall i | 0 <= i < |raw.capabilities| :: g.Accepts(raw.capabilities[i]))
  }

  predicate StorageCompiles(g: Globs, raw: GrantRule) {
    && HubCompiles(g, raw)
    && (forall i | 0 <= i < |raw.operations| :: g.Accepts(raw.operations[i]))
    && (forall i | 0 <= i < |raw.prefixes| :: Admissible(Template(raw.prefixes[i])))
  }

  function HubCompiled(g: Globs, raw: GrantRule): HubRule
    requires HubCompiles(g, raw)
  {
    HubRule(ParseSelector(raw.accessKind, raw.principal).value, TrimAll(raw.capabilities), TrimAll(raw.projects),
            Trim(raw.route))
  }

  function StorageCompiled(g: Globs, raw: GrantRule): (rule: StorageRule)
    requires StorageCompiles(g, raw)
    ensures forall i | 0 <= i < |rule.templates| :: Admissible(rule.templates[i])
  {
    StorageRule(HubCompiled(g, raw), TrimAll(raw.operations),
                seq(|raw.prefixes|, i requires 0 <= i < |raw.prefixes| => Template(raw.prefixes[i])))
  }

  function RuleOf(g: Globs, raw: GrantRule): Option<StorageRule> {
    if StorageCompiles(g, raw) then Some(StorageCompiled(g, raw)) else None
  }

  /** `HubResourcePolicy::compile` alone, for the callers that need no storage part. */
  method CompileHub(g: Globs, snapshot: seq<GrantRule>) returns (compiled: Option<seq<HubRule>>)
    ensures compiled.None? <==> exists i | 0 <= i < |snapshot| :: !HubCompiles(g, snapshot[i])
    ensures compiled.Some? ==>
              && |compiled.value| == |snapshot|
              && forall i | 0 <= i < |snapshot| :: compiled.value[i] == HubCompiled(g, snapshot[i])
  {
    var rules: seq<HubRule> := [];
    for n := 0 to |snapshot|
      invariant |rules| == n
      invariant forall i | 0 <= i < n :: HubCompiles(g, snapshot[i]) && rules[i] == HubCompiled(g, snapshot[i])
    {
      if !HubCompiles(g, snapshot[n]) { return None; }
      rules := rules + [HubCompiled(g, snapshot[n])];
    }
    return Some(rules);
  }

  /**
   Compiling a snapshot: all or nothing, rule by rule, and every template kept is admissible.
   */
  method Compile(g: Globs, snapshot: seq<GrantRule>) returns (compiled: Option<seq<StorageRule>>)
    ensures compiled.None? <==> exists i | 0 <= i < |snapshot| :: RuleOf(g, snapshot[i]).None?
    ensures compiled.Some? ==>
              && |compiled.value| == |snapshot|
              && forall i | 0 <= i < |snapshot| :: Some(compiled.value[i]) == RuleOf(g, snapshot[i])
    ensures compiled.Some? ==>
              forall i, k | 0 <= i < |compiled.value| && 0 <= k < |compiled.value[i].templates| ::
                Admissible(compiled.value[i].templates[k])
  {
    var rules: seq<StorageRule> := [];
    for n := 0 to |snapshot|
      invariant |rules| == n && forall i | 0 <= i < n :: Some(rules[i]) == RuleOf(g, snapshot[i])
    {
      var rule := CompileRule(g, snapshot[n]);
      if rule.None? { return None; }
      rules := rules + [rule.value];
    }
    return Some(rules);
  }

  /** One rule; the templates are normalized and probed one by one. */
  method CompileRule(g: Globs, raw: GrantRule) returns (rule: Option<StorageRule>)
    ensures rule == RuleOf(g, raw)
  {
    if !HubCompiles(g, raw) { return None; }
    if exists i | 0 <= i < |raw.operations| :: !g.Accepts(raw.operations[i]) { return None; }
    var templates: seq<string> := [];
    for k := 0 to |raw.prefixes|
      invariant |templates| == k
      invariant forall i | 0 <= i < k :: templates[i] == Template(raw.prefixes[i]) && Admissible(templates[i])
    {
      var template := Template(raw.prefixes[k]);
      if !Admissible(template) { return None; }
      templates := templates + [template];
    }
    assert templates == StorageCompiled(g, raw).templates;
    return Some(StorageRule(HubCompiled(g, raw), TrimAll(raw.operations), templates));
  }
}
