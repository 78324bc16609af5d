/**
 What the stored grant rules mean, said of the rules as they are stored: which rules are malformed, whom a
 rule is for, and what it opens. Compiling a snapshot and evaluating the compiled rules decides exactly that.
 */
module GrantMeaning {
  import opened Common
  import opened Text
  import opened Paths
  import opened Templates
  import opened StorageScopes
  import opened GrantPolicy
  import opened StoragePolicy
  import opened HubDiscovery

  // ---------------------------------------------------------------- what a stored rule says

  predicate Kind(raw: GrantRule, word: string) { Spells(Trim(raw.accessKind), word) }

  predicate KnownKind(raw: GrantRule) {
    || Kind(raw, "global") || Kind(raw, "anonymous") || Kind(raw, "authenticated") || Kind(raw, "user")
    || Kind(raw, "team") || Kind(raw, "organization") || Kind(raw, "subject")
  }

  /** The rule is for this caller; `None` is an anonymous one. */
  predicate For(raw: GrantRule, user: Option<Principal>) {
    var name := Trim(raw.principal);
    || Kind(raw, "global")
    || (Kind(raw, "anonymous") && user.None?)
    || (Kind(raw, "authenticated") && user.Some?)
    || (Kind(raw, "user") && user.Some? && user.value.username == Some(name))
    || (Kind(raw, "team") && user.Some? && name in user.value.teams)
    || (Kind(raw, "organization") && user.Some? && user.value.organization == Some(name))
    || (Kind(raw, "subject") && user.Some?
        && (name == user.value.subject || name == user.value.issuer + "|" + user.value.subject))
  }

  /** The rule is for every project, or names this one. */
  predicate Names(raw: GrantRule, project: Option<string>) {
    raw.projects == [] ||
    exists i | 0 <= i < |raw.projects| :: Trim(raw.projects[i]) == "*" || project == Some(Trim(raw.projects[i]))
  }

  predicate Reaches(g: Globs, patterns: seq<string>, text: string) {
    exists i | 0 <= i < |patterns| :: g.matches(Trim(patterns[i]), text)
  }

  /** The capabilities reach the operation, and the rule lists it or lists none. */
  predicate Permits(g: Globs, raw: GrantRule, operation: string) {
    && (Reaches(g, raw.capabilities, "s3") || Reaches(g, raw.capabilities, "s3:" + operation))
    && (raw.operations == [] || Reaches(g, raw.operations, operation))
  }

  function RouteFor(raw: GrantRule, default: string): string {
    if Trim(raw.route) == "" then default else Trim(raw.route)
  }

  /** The prefix with the caller's values in place of its placeholders. */
  function Path(q: Request, prefix: string): string { Substitute(Template(prefix), Choose(q.Values())) }

  /** A placeholder the prefix uses has no value for this request, or an unsafe one. */
  ghost predicate Unfilled(q: Request, prefix: string) {
    exists v :: Contains(Template(prefix), Name(v)) && !Usable(q.Values(), v)
  }

  /** The key lies under the prefix as it reads for this request. */
  ghost predicate PrefixCovers(q: Request, prefix: string, key: string) {
    !Unfilled(q, prefix) && !SomeSegmentTooLong(Path(q, prefix)) && Under(key, Path(q, prefix))
  }

  /** The prefix cannot be read for this request, and not for want of a project. */
  ghost predicate PrefixBroken(q: Request, prefix: string) {
    && (Unfilled(q, prefix) || SomeSegmentTooLong(Path(q, prefix)))
    && !(q.scope.ProjectId().None? && Contains(Template(prefix), "{project}"))
  }

  /** The rule alone gives the caller the operation on the key, inside the requested scope. */
  ghost predicate Gives(q: Request, raw: GrantRule, operation: string, key: string) {
    && For(raw, Some(q.caller)) && Names(raw, q.scope.ProjectId()) && Permits(q.globs, raw, operation)
    && (raw.prefixes == [] || exists i | 0 <= i < |raw.prefixes| :: PrefixCovers(q, raw.prefixes[i], key))
    && Owns(q.scope, q.OwnNamespace(), key)
  }

  /** The operations, by name and in the order of the four lists of a decision. */
  const LABELS := ["read", "write", "publish", "delete"]

  ghost predicate GivesSomething(q: Request, raw: GrantRule) {
    exists k, key :: 0 <= k < 4 && Gives(q, raw, LABELS[k], key)
  }

  /** The rule permits some operation to this caller but one of its prefixes cannot be read. */
  ghost predicate Broken(q: Request, raw: GrantRule) {
    && For(raw, Some(q.caller)) && Names(raw, q.scope.ProjectId())
    && (exists k | 0 <= k < 4 :: Permits(q.globs, raw, LABELS[k]))
    && exists i | 0 <= i < |raw.prefixes| :: PrefixBroken(q, raw.prefixes[i])
  }

  // ---------------------------------------------------------------- malformed rules

  predicate PatternsFit(g: Globs, patterns: seq<string>) {
    forall i | 0 <= i < |patterns| :: Trim(patterns[i]) != "" && g.compiles(Trim(patterns[i]))
  }

  /** Every brace belongs to a placeholder, and a word in place of each leaves a safe path. */
  predicate PrefixFits(prefix: string) {
    Clean(Template(prefix), ALL) && SafePath(Substitute(Template(prefix), _ => VALIDATION))
  }

  predicate HubWellformed(g: Globs, raw: GrantRule) {
    && KnownKind(raw) && raw.capabilities != [] && PatternsFit(g, raw.capabilities)
    && forall i | 0 <= i < |raw.projects| :: Trim(raw.projects[i]) == "*" || CanonicalId(Trim(raw.projects[i]))
  }

  predicate RuleWellformed(g: Globs, raw: GrantRule) {
    && HubWellformed(g, raw) && PatternsFit(g, raw.operations)
    && forall i | 0 <= i < |raw.prefixes| :: PrefixFits(raw.prefixes[i])
  }

  // ---------------------------------------------------------------- compiled rules say the same

  lemma KindMeans(raw: GrantRule)
    ensures forall word | word in ["global", "anonymous", "authenticated", "user", "team", "organization", "subject"] ::
              Kind(raw, word) <==> Lower(Trim(raw.accessKind)) == word
  {
    var k := Trim(raw.accessKind);
    LowerMeans(k, "global");
    LowerMeans(k, "anonymous");
    LowerMeans(k, "authenticated");
    LowerMeans(k, "user");
    LowerMeans(k, "team");
    LowerMeans(k, "organization");
    LowerMeans(k, "subject");
  }

  /** Parsing a selector knows the seven kinds, and the selector matches the callers the rule is for. */
  lemma SelectorMeans(raw: GrantRule, user: Option<Principal>)
    ensures var s := ParseSelector(raw.accessKind, raw.principal);
            (s.Some? <==> KnownKind(raw)) && (s.Some? ==> (s.value.Matches(user) <==> For(raw, user)))
  {
    KindMeans(raw);
  }

  lemma AdmissibleMeans(prefix: string)
    ensures Admissible(Template(prefix)) <==> PrefixFits(prefix)
  {
    if Admissible(Template(prefix)) {
      AdmissibleIsClean(Template(prefix));
    }
    if Clean(Template(prefix), ALL) {
      ProbeMeans(Template(prefix));
    }
  }

  /** Exactly the well-formed rules compile. */
  lemma CompilesMeans(g: Globs, raw: GrantRule)
    ensures HubCompiles(g, raw) <==> HubWellformed(g, raw)
    ensures RuleOf(g, raw).Some? <==> RuleWellformed(g, raw)
  {
    SelectorMeans(raw, None);
    forall i | 0 <= i < |raw.prefixes| ensures Admissible(Template(raw.prefixes[i])) <==> PrefixFits(raw.prefixes[i]) {
      AdmissibleMeans(raw.prefixes[i]);
    }
  }

  lemma TrimAllReaches(g: Globs, patterns: seq<string>, text: string)
    ensures g.AnyMatches(TrimAll(patterns), text) <==> Reaches(g, patterns, text)
  {
    if i :| 0 <= i < |patterns| && g.matches(Trim(patterns[i]), text) {
      assert g.matches(TrimAll(patterns)[i], text);
    }
  }

  /** A compiled Hub rule: whom it is for, what its patterns reach, which projects it covers, and its route. */
  lemma HubRuleMeans(g: Globs, raw: GrantRule, user: Option<Principal>, project: Option<string>, text: string,
                     default: string)
    requires HubCompiles(g, raw)
    ensures var rule := HubCompiled(g, raw);
            && (rule.selector.Matches(user) <==> For(raw, user))
            && (CoversProject(rule.projects, project) <==> Names(raw, project))
            && (g.AnyMatches(rule.capabilities, text) <==> Reaches(g, raw.capabilities, text))
            && (if rule.route == "" then default else rule.route) == RouteFor(raw, default)
  {
    SelectorMeans(raw, user);
    TrimAllReaches(g, raw.capabilities, text);
    if i :| 0 <= i < |raw.projects| && Trim(raw.projects[i]) == "*" {
      assert TrimAll(raw.projects)[i] == "*";
    }
    if i :| 0 <= i < |raw.projects| && project == Some(Trim(raw.projects[i])) {
      assert TrimAll(raw.projects)[i] == project.value;
    }
  }

  /** A compiled rule applies to, allows and opens the Hub for what the stored one does, on the same route. */
  lemma RuleMeans(q: Request, raw: GrantRule, k: nat)
    requires StorageCompiles(q.globs, raw) && k < 4
    ensures var rule := StorageCompiled(q.globs, raw);
            && (Applies(q, rule) <==> For(raw, Some(q.caller)) && Names(raw, q.scope.ProjectId()))
            && (Allows(q, rule, OPERATIONS[k]) <==> Permits(q.globs, raw, LABELS[k]))
            && (OpensHub(q, rule) <==> Reaches(q.globs, raw.capabilities, "hub"))
            && Route(q, rule) == RouteFor(raw, q.defaultRoute)
  {
    var rule, operation := StorageCompiled(q.globs, raw), LABELS[k];
    assert OPERATIONS[k].Label() == operation;
    HubRuleMeans(q.globs, raw, Some(q.caller), q.scope.ProjectId(), "hub", q.defaultRoute);
    HubRuleMeans(q.globs, raw, Some(q.caller), q.scope.ProjectId(), "s3", q.defaultRoute);
    HubRuleMeans(q.globs, raw, Some(q.caller), q.scope.ProjectId(), "s3:" + operation, q.defaultRoute);
    TrimAllReaches(q.globs, raw.operations, operation);
    CapableMeans(q, rule, OPERATIONS[k]);
  }

  lemma CapableMeans(q: Request, rule: StorageRule, op: Operation)
    ensures Capable(q, rule, op) <==>
            q.globs.AnyMatches(rule.hub.capabilities, "s3")
              || q.globs.AnyMatches(rule.hub.capabilities, "s3:" + op.Label())
  {
  }

  lemma UnfilledMeans(q: Request, prefix: string)
    ensures Unfilled(q, prefix) <==> UsesUnusable(Template(prefix), q.Values())
  {
    forall v: Placeholder ensures v in ORDER {
      match v
      case Project => assert ORDER[0] == v;
      case Username => assert ORDER[1] == v;
      case Organization => assert ORDER[2] == v;
      case Subject => assert ORDER[3] == v;
    }
  }

  /** Rendering covers the keys under the prefix as it reads, and refuses it where it cannot be read. */
  lemma PrefixMeans(q: Request, prefix: string, key: string)
    requires Admissible(Template(prefix))
    ensures TemplateCovers(q, Template(prefix), key) <==> PrefixCovers(q, prefix, key)
    ensures Refuses(q, Template(prefix)) <==> PrefixBroken(q, prefix)
  {
    RenderingIsSubstitution(Template(prefix), q.Values());
    UnfilledMeans(q, prefix);
    if q.scope.ProjectId().None? && Contains(Template(prefix), Name(Project)) {
      assert !Usable(q.Values(), Project);
    }
  }

  lemma PrefixesMean(q: Request, raw: GrantRule, key: string)
    requires StorageCompiles(q.globs, raw)
    ensures var rule := StorageCompiled(q.globs, raw);
            && (Covers(q, rule, key) <==>
                raw.prefixes == [] || exists i | 0 <= i < |raw.prefixes| :: PrefixCovers(q, raw.prefixes[i], key))
            && (Unrenderable(q, rule) <==> exists i | 0 <= i < |raw.prefixes| :: PrefixBroken(q, raw.prefixes[i]))
  {
    var templates := StorageCompiled(q.globs, raw).templates;
    forall i | 0 <= i < |raw.prefixes|
      ensures TemplateCovers(q, templates[i], key) <==> PrefixCovers(q, raw.prefixes[i], key)
      ensures Refuses(q, templates[i]) <==> PrefixBroken(q, raw.prefixes[i])
    {
      PrefixMeans(q, raw.prefixes[i], key);
    }
    if i :| 0 <= i < |raw.prefixes| && PrefixCovers(q, raw.prefixes[i], key) {
      assert templates[i] in templates;
    }
    if i :| 0 <= i < |raw.prefixes| && PrefixBroken(q, raw.prefixes[i]) {
      assert templates[i] in templates;
    }
  }

  lemma AuthorizesMeans(q: Request, raw: GrantRule, k: nat, key: string)
    requires StorageCompiles(q.globs, raw) && k < 4
    ensures Authorizes(q, StorageCompiled(q.globs, raw), OPERATIONS[k], key) <==> Gives(q, raw, LABELS[k], key)
  {
    RuleMeans(q, raw, k);
    PrefixesMean(q, raw, key);
  }

  /** A compiled rule contributes exactly if the stored one gives the caller some operation on some key. */
  lemma ContributesMeans(q: Request, raw: GrantRule)
    requires StorageCompiles(q.globs, raw)
    ensures Contributes(q, StorageCompiled(q.globs, raw)) <==> GivesSomething(q, raw)
  {
    var rule := StorageCompiled(q.globs, raw);
    if Contributes(q, rule) {
      var op: Operation :| Allows(q, rule, op);
      var p :| Opens(q, rule, p);
      UnderSelf(p);
      OpensMeansCovers(q, rule, p);
      OperationAt(op);
      AuthorizesMeans(q, raw, op.Index(), p);
      assert Gives(q, raw, LABELS[op.Index()], p);
    }
    if k, key :| 0 <= k < 4 && Gives(q, raw, LABELS[k], key) {
      AuthorizesMeans(q, raw, k, key);
      OpensMeansCovers(q, rule, key);
      assert Allows(q, rule, OPERATIONS[k]);
    }
  }

  lemma BrokenMeans(q: Request, raw: GrantRule)
    requires StorageCompiles(q.globs, raw)
    ensures var rule := StorageCompiled(q.globs, raw); Active(q, rule) && Unrenderable(q, rule) <==> Broken(q, raw)
  {
    var rule := StorageCompiled(q.globs, raw);
    PrefixesMean(q, raw, "");
    forall k | 0 <= k < 4 ensures Allows(q, rule, OPERATIONS[k]) <==> Permits(q.globs, raw, LABELS[k]) {
      RuleMeans(q, raw, k);
    }
    RuleMeans(q, raw, 0);
    if op: Operation :| Allows(q, rule, op) {
      OperationAt(op);
      assert Permits(q.globs, raw, LABELS[op.Index()]);
    }
    if k :| 0 <= k < 4 && Permits(q.globs, raw, LABELS[k]) {
      assert Allows(q, rule, OPERATIONS[k]);
    }
  }

  // ---------------------------------------------------------------- storage, from stored rules to the decision

  ghost predicate AllWellformed(g: Globs, snapshot: seq<GrantRule>) {
    forall raw | raw in snapshot :: RuleWellformed(g, raw)
  }

  /** The global Hub asks for one rule that is for the caller and reaches the Hub. */
  ghost predicate HubOpen(q: Request, snapshot: seq<GrantRule>) {
    q.scope.GlobalHub? ==>
      exists raw :: raw in snapshot && For(raw, Some(q.caller)) && Names(raw, None)
                    && Reaches(q.globs, raw.capabilities, "hub")
  }

  ghost predicate SomeBroken(q: Request, snapshot: seq<GrantRule>) {
    exists raw :: raw in snapshot && Broken(q, raw)
  }

  /** Two rules that give something are on different routes. */
  ghost predicate RoutesDiffer(q: Request, snapshot: seq<GrantRule>) {
    exists a, b :: a in snapshot && b in snapshot && GivesSomething(q, a) && GivesSomething(q, b)
                   && RouteFor(a, q.defaultRoute) != RouteFor(b, q.defaultRoute)
  }

  /** One single rule gives the operation on the key. */
  ghost predicate SomeGives(q: Request, snapshot: seq<GrantRule>, operation: string, key: string) {
    exists raw :: raw in snapshot && Gives(q, raw, operation, key)
  }

  ghost predicate Opened(prefixes: set<string>, key: string) { exists p :: p in prefixes && Under(key, p) }

  /** What the answer to a storage request must be, said of the stored rules. */
  ghost predicate Decides(q: Request, snapshot: seq<GrantRule>, r: Evaluation) {
    match r
    case Failed(InvalidPolicy) =>
      !AllWellformed(q.globs, snapshot) || (HubOpen(q, snapshot) && SomeBroken(q, snapshot))
    case Failed(ConflictingRoutes) =>
      AllWellformed(q.globs, snapshot) && HubOpen(q, snapshot) && RoutesDiffer(q, snapshot)
    case NoAccess =>
      && AllWellformed(q.globs, snapshot)
      && (HubOpen(q, snapshot) ==>
            !SomeBroken(q, snapshot) && forall k, key | 0 <= k < 4 :: !SomeGives(q, snapshot, LABELS[k], key))
    case Decision(route, access) =>
      && AllWellformed(q.globs, snapshot) && HubOpen(q, snapshot) && !SomeBroken(q, snapshot)
      && (exists raw :: raw in snapshot && GivesSomething(q, raw))
      && (forall raw | raw in snapshot && GivesSomething(q, raw) :: RouteFor(raw, q.defaultRoute) == route)
      && |access| == 4
      && forall k, key | 0 <= k < 4 :: Opened(access[k], key) <==> SomeGives(q, snapshot, LABELS[k], key)
  }

  /** The rules are the compiled forms of the snapshot. */
  ghost predicate CompiledFrom(g: Globs, snapshot: seq<GrantRule>, rules: seq<StorageRule>) {
    |rules| == |snapshot| && forall i | 0 <= i < |rules| :: RuleOf(g, snapshot[i]) == Some(rules[i])
  }

  lemma GateMeansHubOpen(q: Request, snapshot: seq<GrantRule>, rules: seq<StorageRule>)
    requires CompiledFrom(q.globs, snapshot, rules)
    ensures GateOpen(q, rules) <==> HubOpen(q, snapshot)
  {
    forall i | 0 <= i < |rules|
      ensures Applies(q, rules[i]) && OpensHub(q, rules[i]) <==>
              For(snapshot[i], Some(q.caller)) && Names(snapshot[i], q.scope.ProjectId())
              && Reaches(q.globs, snapshot[i].capabilities, "hub")
    {
      RuleMeans(q, snapshot[i], 0);
    }
    if q.scope.GlobalHub? {
      if GateOpen(q, rules) {
        var rule :| rule in rules && Applies(q, rule) && OpensHub(q, rule);
        var i :| 0 <= i < |rules| && rules[i] == rule;
        assert snapshot[i] in snapshot;
      }
      if HubOpen(q, snapshot) {
        var raw :| raw in snapshot && For(raw, Some(q.caller)) && Names(raw, None)
                   && Reaches(q.globs, raw.capabilities, "hub");
        var i :| 0 <= i < |snapshot| && snapshot[i] == raw;
        assert rules[i] in rules;
      }
    }
  }

  lemma FailuresMean(q: Request, snapshot: seq<GrantRule>, rules: seq<StorageRule>)
    requires CompiledFrom(q.globs, snapshot, rules)
    ensures SomeUnrenderable(q, rules) <==> SomeBroken(q, snapshot)
    ensures Conflict(q, rules) <==> RoutesDiffer(q, snapshot)
  {
    forall i | 0 <= i < |rules|
      ensures Active(q, rules[i]) && Unrenderable(q, rules[i]) <==> Broken(q, snapshot[i])
      ensures Contributes(q, rules[i]) <==> GivesSomething(q, snapshot[i])
      ensures Route(q, rules[i]) == RouteFor(snapshot[i], q.defaultRoute)
      ensures rules[i] in rules && snapshot[i] in snapshot
    {
      BrokenMeans(q, snapshot[i]);
      ContributesMeans(q, snapshot[i]);
      RuleMeans(q, snapshot[i], 0);
    }
  }

  lemma GrantsMean(q: Request, snapshot: seq<GrantRule>, rules: seq<StorageRule>, k: nat, key: string)
    requires CompiledFrom(q.globs, snapshot, rules) && k < 4
    ensures (exists rule :: rule in rules && Authorizes(q, rule, OPERATIONS[k], key)) <==>
            SomeGives(q, snapshot, LABELS[k], key)
  {
    forall i | 0 <= i < |rules|
      ensures Authorizes(q, rules[i], OPERATIONS[k], key) <==> Gives(q, snapshot[i], LABELS[k], key)
      ensures rules[i] in rules && snapshot[i] in snapshot
    {
      AuthorizesMeans(q, snapshot[i], k, key);
    }
  }

  lemma CompiledIsWellformed(g: Globs, snapshot: seq<GrantRule>, rules: seq<StorageRule>)
    requires CompiledFrom(g, snapshot, rules)
    ensures AllWellformed(g, snapshot)
  {
    forall raw | raw in snapshot ensures RuleWellformed(g, raw) {
      CompilesMeans(g, raw);
    }
  }

  lemma RouteDecides(q: Request, snapshot: seq<GrantRule>, rules: seq<StorageRule>, route: string)
    requires CompiledFrom(q.globs, snapshot, rules)
    requires exists rule :: rule in rules && Contributes(q, rule)
    requires forall rule | rule in rules && Contributes(q, rule) :: Route(q, rule) == route
    ensures exists raw :: raw in snapshot && GivesSomething(q, raw)
    ensures forall raw | raw in snapshot && GivesSomething(q, raw) :: RouteFor(raw, q.defaultRoute) == route
  {
    forall i | 0 <= i < |rules|
      ensures Contributes(q, rules[i]) <==> GivesSomething(q, snapshot[i])
      ensures Route(q, rules[i]) == RouteFor(snapshot[i], q.defaultRoute)
      ensures rules[i] in rules && snapshot[i] in snapshot
    {
      ContributesMeans(q, snapshot[i]);
      RuleMeans(q, snapshot[i], 0);
    }
  }

  /** What a decision opens, and what a refusal denies, said of the stored rules. */
  lemma AccessDecides(q: Request, snapshot: seq<GrantRule>, rules: seq<StorageRule>, r: Evaluation, k: nat, key: string)
    requires CompiledFrom(q.globs, snapshot, rules) && Meets(q, rules, r) && k < 4
    ensures r.Decision? ==> (Opened(r.access[k], key) <==> SomeGives(q, snapshot, LABELS[k], key))
    ensures r.NoAccess? && GateOpen(q, rules) ==> !SomeGives(q, snapshot, LABELS[k], key)
  {
    assert OPERATIONS[k].Index() == k;
    DecisionMeansGrants(q, rules, r, OPERATIONS[k], key);
    GrantsMean(q, snapshot, rules, k, key);
  }

  /** An evaluation of the compiled rules answers as the stored rules say. */
  lemma EvaluationDecides(q: Request, snapshot: seq<GrantRule>, rules: seq<StorageRule>, r: Evaluation)
    requires CompiledFrom(q.globs, snapshot, rules) && Meets(q, rules, r)
    ensures Decides(q, snapshot, r)
  {
    CompiledIsWellformed(q.globs, snapshot, rules);
    GateMeansHubOpen(q, snapshot, rules);
    FailuresMean(q, snapshot, rules);
    forall k, key | 0 <= k < 4
      ensures r.Decision? ==> (Opened(r.access[k], key) <==> SomeGives(q, snapshot, LABELS[k], key))
      ensures r.NoAccess? && GateOpen(q, rules) ==> !SomeGives(q, snapshot, LABELS[k], key)
    {
      AccessDecides(q, snapshot, rules, r, k, key);
    }
    if r.Decision? {
      RouteDecides(q, snapshot, rules, r.route);
    }
  }

  /**
   Storage authorization from the stored rules: compiled and evaluated, they open a key for an operation if
   and only if one single stored rule gives it.
   */
  method Authorize(q: Request, snapshot: seq<GrantRule>) returns (r: Evaluation)
    ensures Decides(q, snapshot, r)
  {
    var compiled := Compile(q.globs, snapshot);
    if compiled.None? {
      ghost var i :| 0 <= i < |snapshot| && RuleOf(q.globs, snapshot[i]).None?;
      CompilesMeans(q.globs, snapshot[i]);
      return Failed(InvalidPolicy);
    }
    r := Evaluate(q, compiled.value);
    EvaluationDecides(q, snapshot, compiled.value, r);
  }

  // ---------------------------------------------------------------- the Hub, from stored rules to a route

  /** The rule shows the caller the project. */
  predicate Shows(g: Globs, raw: GrantRule, user: Option<Principal>, project: string) {
    For(raw, user) && Reaches(g, raw.capabilities, "hub") && Names(raw, Some(project))
  }

  /** The rules are the compiled Hub parts of the snapshot. */
  ghost predicate HubCompiledFrom(g: Globs, snapshot: seq<GrantRule>, rules: seq<HubRule>) {
    |rules| == |snapshot| &&
    forall i | 0 <= i < |rules| :: HubCompiles(g, snapshot[i]) && rules[i] == HubCompiled(g, snapshot[i])
  }

  lemma CoveringMeans(g: Globs, user: Option<Principal>, snapshot: seq<GrantRule>, rules: seq<HubRule>,
                      project: string, default: string)
    requires HubCompiledFrom(g, snapshot, rules)
    ensures forall i | 0 <= i < |rules| ::
              && (Covering(g, user, rules, project, rules[i]) <==> Shows(g, snapshot[i], user, project))
              && Resolved(RouteOf(rules[i]), default) == RouteFor(snapshot[i], default)
  {
    forall i | 0 <= i < |rules|
      ensures Covering(g, user, rules, project, rules[i]) <==> Shows(g, snapshot[i], user, project)
      ensures Resolved(RouteOf(rules[i]), default) == RouteFor(snapshot[i], default)
    {
      HubRuleMeans(g, snapshot[i], user, Some(project), "hub", default);
    }
  }

  /** What the Hub must answer about a project, said of the stored rules. */
  ghost predicate Resolves(g: Globs, user: Option<Principal>, snapshot: seq<GrantRule>, project: string,
                           default: string, answer: Lookup) {
    match answer
    case Absent => forall raw | raw in snapshot :: !Shows(g, raw, user, project)
    case Found(route) =>
      && (exists raw :: raw in snapshot && Shows(g, raw, user, project))
      && forall raw | raw in snapshot && Shows(g, raw, user, project) :: RouteFor(raw, default) == route
    case ConflictingRoutes =>
      exists a, b :: a in snapshot && b in snapshot && Shows(g, a, user, project) && Shows(g, b, user, project)
                     && RouteFor(a, default) != RouteFor(b, default)
  }

  lemma SomeCoverMeans(g: Globs, user: Option<Principal>, snapshot: seq<GrantRule>, rules: seq<HubRule>,
                       project: string)
    requires HubCompiledFrom(g, snapshot, rules)
    ensures SomeCover(g, user, rules, project) <==> exists raw :: raw in snapshot && Shows(g, raw, user, project)
  {
    CoveringMeans(g, user, snapshot, rules, project, "");
    if rule :| Covering(g, user, rules, project, rule) {
      var i :| 0 <= i < |rules| && rules[i] == rule;
      assert snapshot[i] in snapshot;
    }
    if raw :| raw in snapshot && Shows(g, raw, user, project) {
      var i :| 0 <= i < |snapshot| && snapshot[i] == raw;
      assert Covering(g, user, rules, project, rules[i]);
    }
  }

  lemma AllResolveMeans(g: Globs, user: Option<Principal>, snapshot: seq<GrantRule>, rules: seq<HubRule>,
                        project: string, default: string, route: string)
    requires HubCompiledFrom(g, snapshot, rules)
    ensures AllResolve(g, user, rules, project, default, route) <==>
            forall raw | raw in snapshot && Shows(g, raw, user, project) :: RouteFor(raw, default) == route
  {
    CoveringMeans(g, user, snapshot, rules, project, default);
    if AllResolve(g, user, rules, project, default, route) {
      forall raw | raw in snapshot && Shows(g, raw, user, project) ensures RouteFor(raw, default) == route {
        var i :| 0 <= i < |snapshot| && snapshot[i] == raw;
        assert Covering(g, user, rules, project, rules[i]);
      }
    } else {
      var rule :| Covering(g, user, rules, project, rule) && Resolved(RouteOf(rule), default) != route;
      var i :| 0 <= i < |rules| && rules[i] == rule;
      assert snapshot[i] in snapshot;
    }
  }

  lemma LookupResolves(g: Globs, user: Option<Principal>, snapshot: seq<GrantRule>, rules: seq<HubRule>,
                       project: string, default: string, routes: seq<CatalogRoute>, answer: Lookup)
    requires HubCompiledFrom(g, snapshot, rules)
    requires RoutesOf(g, user, rules, routes) && Answers(routes, project, default, answer)
    ensures Resolves(g, user, snapshot, project, default, answer)
  {
    RoutingMeans(g, user, rules, project, default, routes, answer);
    SomeCoverMeans(g, user, snapshot, rules, project);
    match answer
    case Absent =>
    case Found(route) => AllResolveMeans(g, user, snapshot, rules, project, default, route);
    case ConflictingRoutes =>
      var a :| a in snapshot && Shows(g, a, user, project);
      AllResolveMeans(g, user, snapshot, rules, project, default, RouteFor(a, default));
      assert !AllResolve(g, user, rules, project, default, RouteFor(a, default));
  }

  /**
   The Hub from the stored rules: a malformed rule refuses everything; otherwise the selections show exactly
   the projects some stored rule shows the caller, and the route is the one all those rules agree on.
   */
  method Discover(g: Globs, user: Option<Principal>, snapshot: seq<GrantRule>, project: string, default: string)
    returns (found: Option<(seq<Selection>, Lookup)>)
    ensures found.None? <==> exists raw :: raw in snapshot && !HubWellformed(g, raw)
    ensures found.Some? ==>
              && Distinct(found.value.0)
              && ((exists s :: s in found.value.0 && SelectionCovers(s, project)) <==>
                  exists raw :: raw in snapshot && Shows(g, raw, user, project))
              && Resolves(g, user, snapshot, project, default, found.value.1)
  {
    var compiled := CompileHub(g, snapshot);
    forall raw | raw in snapshot ensures HubCompiles(g, raw) <==> HubWellformed(g, raw) {
      CompilesMeans(g, raw);
    }
    if compiled.None? { return None; }
    var rules := compiled.value;
    var selectors := Selectors(g, user, rules);
    var routes := CatalogRoutes(g, user, rules);
    var answer := FindRoute(routes, project, default);
    LookupResolves(g, user, snapshot, rules, project, default, routes, answer);
    DiscoveryAgreesWithRouting(g, user, rules, project, default, selectors, routes, answer);
    return Some((selectors, answer));
  }
}
