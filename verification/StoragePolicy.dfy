/**
 Storage authorization. A decision is a compact list of prefixes per operation; its meaning is the
 set of object keys it opens.
 */
module StoragePolicy {
  import opened Common
  import opened Text
  import opened Paths
  import opened Templates
  import opened GrantPolicy
  import opened Utf8
  import opened Encodings
  import opened StorageScopes

  datatype Operation = Read | Write | Publish | Delete {
    function Index(): (i: nat)
      ensures i < 4
    {
      match this
      case Read => 0
      case Write => 1
      case Publish => 2
      case Delete => 3
    }

    function Label(): string {
      match this
      case Read => "read"
      case Write => "write"
      case Publish => "publish"
      case Delete => "delete"
    }
  }

  const OPERATIONS: seq<Operation> := [Read, Write, Publish, Delete]

  lemma OperationAt(op: Operation)
    ensures OPERATIONS[op.Index()] == op
  {
  }

  type Digest = seq<Byte> -> seq<Byte>

  /** Everything an evaluation depends on besides the rules. */
  datatype Request = Request(globs: Globs, digest: Digest, caller: Principal, scope: Scope, defaultRoute: string) {
    /** The caller's own namespace, for user memory. */
    function OwnNamespace(): string { Namespace(digest, Encoded(caller.issuer), Encoded(caller.subject)) }

    function Values(): Templates.Values {
      (v: Placeholder) => match v
        case Project => scope.ProjectId()
        case Username => caller.username
        case Organization => caller.organization
        case Subject => Some(caller.subject)
    }

    function ScopeRoots(): seq<string> { Roots(scope, OwnNamespace()) }
  }

  /** Which field of the request each placeholder, as it is written, stands for. */
  lemma PlaceholdersMean(q: Request, v: Placeholder)
    ensures match Name(v)
            case "{project}" =>
              q.Values()(v) == if q.scope.ProjectScope? then Some(q.scope.project) else None
            case "{username}" => q.Values()(v) == q.caller.username
            case "{organization}" => q.Values()(v) == q.caller.organization
            case "{subject}" => q.Values()(v) == Some(q.caller.subject)
            case _ => false
  {
  }

  datatype Error = InvalidPolicy | ConflictingRoutes

  datatype Evaluation = NoAccess | Decision(route: string, access: seq<set<string>>) | Failed(error: Error)

  // ---------------------------------------------------------------- what one rule says

  predicate Applies(q: Request, rule: StorageRule) {
    rule.hub.selector.Matches(Some(q.caller)) && CoversProject(rule.hub.projects, q.scope.ProjectId())
  }

  predicate Capable(q: Request, rule: StorageRule, op: Operation) {
    exists i | 0 <= i < |rule.hub.capabilities| ::
      q.globs.matches(rule.hub.capabilities[i], "s3") || q.globs.matches(rule.hub.capabilities[i], "s3:" + op.Label())
  }

  predicate Lists(q: Request, rule: StorageRule, op: Operation) {
    rule.operations == [] || q.globs.AnyMatches(rule.operations, op.Label())
  }

  predicate Allows(q: Request, rule: StorageRule, op: Operation) { Capable(q, rule, op) && Lists(q, rule, op) }

  predicate OpensHub(q: Request, rule: StorageRule) { q.globs.AnyMatches(rule.hub.capabilities, "hub") }

  function Route(q: Request, rule: StorageRule): string {
    if rule.hub.route == "" then q.defaultRoute else rule.hub.route
  }

  ghost predicate Active(q: Request, rule: StorageRule) {
    Applies(q, rule) && exists op :: Allows(q, rule, op)
  }

  /** Some template of the rule cannot be rendered for this request. */
  predicate Unrenderable(q: Request, rule: StorageRule) {
    exists template | template in rule.templates :: Refuses(q, template)
  }

  predicate Refuses(q: Request, template: string) { Render(template, q.Values()) == Invalid }

  /** The part of a root that one template opens. */
  function Hit(q: Request, template: string, root: string): Option<string> {
    match Render(template, q.Values())
    case Rendered(path) => Intersect(path, root)
    case Skipped => None
    case Invalid => None
  }

  /** `p` is the part of some root that the template opens. */
  ghost predicate HitBy(q: Request, template: string, p: string) {
    exists i | 0 <= i < |q.ScopeRoots()| :: Hit(q, template, q.ScopeRoots()[i]) == Some(p)
  }

  ghost predicate HitByAny(q: Request, templates: seq<string>, p: string) {
    exists template :: template in templates && HitBy(q, template, p)
  }

  /** `p` is one of the prefixes the rule opens. */
  ghost predicate Opens(q: Request, rule: StorageRule, p: string) {
    if rule.templates == [] then p in q.ScopeRoots() else HitByAny(q, rule.templates, p)
  }

  ghost predicate Contributes(q: Request, rule: StorageRule) {
    Active(q, rule) && exists p :: Opens(q, rule, p)
  }

  // ---------------------------------------------------------------- the evaluation and its contract

  ghost predicate GateOpen(q: Request, rules: seq<StorageRule>) {
    q.scope.GlobalHub? ==> exists rule :: rule in rules && Applies(q, rule) && OpensHub(q, rule)
  }

  ghost predicate SomeUnrenderable(q: Request, rules: seq<StorageRule>) {
    exists rule :: rule in rules && Active(q, rule) && Unrenderable(q, rule)
  }

  ghost predicate Conflict(q: Request, rules: seq<StorageRule>) {
    exists a, b :: a in rules && b in rules && Contributes(q, a) && Contributes(q, b) && Route(q, a) != Route(q, b)
  }

  /** `p` is opened for `op` by a contributing rule. */
  ghost predicate Grants(q: Request, rules: seq<StorageRule>, op: Operation, p: string) {
    exists rule :: rule in rules && Applies(q, rule) && Allows(q, rule, op) && Opens(q, rule, p)
  }

  /** What the result of an evaluation must be, whatever the order of the rules. */
  ghost predicate Meets(q: Request, rules: seq<StorageRule>, r: Evaluation) {
    match r
    case Failed(error) =>
      GateOpen(q, rules) && (if error.InvalidPolicy? then SomeUnrenderable(q, rules) else Conflict(q, rules))
    case NoAccess =>
      GateOpen(q, rules) ==> !SomeUnrenderable(q, rules) && forall rule | rule in rules :: !Contributes(q, rule)
    case Decision(route, access) =>
      && GateOpen(q, rules) && !SomeUnrenderable(q, rules)
      && (exists rule :: rule in rules && Contributes(q, rule))
      && (forall rule | rule in rules && Contributes(q, rule) :: Route(q, rule) == route)
      && |access| == 4
      && forall op: Operation, p :: p in access[op.Index()] <==> Grants(q, rules, op, p)
  }

  /** One applying rule: its index, the operations its capabilities reach, and whether they open the Hub. */
  datatype Match = Match(index: nat, capable: seq<bool>, hub: bool)

  predicate MatchFits(q: Request, rules: seq<StorageRule>, m: Match) {
    && m.index < |rules| && Applies(q, rules[m.index]) && m.hub == OpensHub(q, rules[m.index])
    && |m.capable| == 4 && forall k | 0 <= k < 4 :: m.capable[k] == Capable(q, rules[m.index], OPERATIONS[k])
  }

  predicate Within(matching: seq<Match>, n: nat) { forall k | 0 <= k < |matching| :: matching[k].index < n }

  /** The matches are those of the applying rules below `n`, in the order of the rules. */
  ghost predicate Matching(q: Request, rules: seq<StorageRule>, n: nat, matching: seq<Match>)
    requires n <= |rules|
  {
    && Within(matching, n)
    && (forall k | 0 <= k < |matching| :: MatchFits(q, rules, matching[k]))
    && (forall k, l | 0 <= k < l < |matching| :: matching[k].index < matching[l].index)
    && (forall i | 0 <= i < n && Applies(q, rules[i]) :: exists k | 0 <= k < |matching| :: matching[k].index == i)
  }

  /** `HubResourcePolicy::storage_rules`. */
  method StorageRules(q: Request, rules: seq<StorageRule>) returns (matching: seq<Match>)
    ensures Matching(q, rules, |rules|, matching)
  {
    matching := [];
    for n := 0 to |rules|
      invariant Matching(q, rules, n, matching)
    {
      var rule := rules[n];
      if !Applies(q, rule) { continue; }
      var capable := seq(4, k requires 0 <= k < 4 => Capable(q, rule, OPERATIONS[k]));
      ghost var before := matching;
      matching := matching + [Match(n, capable, OpensHub(q, rule))];
      forall i | 0 <= i < n + 1 && Applies(q, rules[i]) ensures exists k | 0 <= k < |matching|
        :: matching[k].index == i {
        if i < n {
          var k :| 0 <= k < |before| && before[k].index == i;
          assert matching[k].index == i;
        } else {
          assert matching[|before|].index == i;
        }
      }
    }
  }

  /** The rules behind the matches. */
  ghost function Matched(rules: seq<StorageRule>, matching: seq<Match>): seq<StorageRule>
    requires Within(matching, |rules|)
  {
    seq(|matching|, k requires 0 <= k < |matching| => rules[matching[k].index])
  }

  lemma MatchedApply(q: Request, rules: seq<StorageRule>, matching: seq<Match>)
    requires Matching(q, rules, |rules|, matching)
    ensures forall rule :: rule in Matched(rules, matching) <==> rule in rules && Applies(q, rule)
  {
    var matched := Matched(rules, matching);
    forall rule | rule in matched ensures rule in rules && Applies(q, rule) {
      var k :| 0 <= k < |matched| && matched[k] == rule;
      assert MatchFits(q, rules, matching[k]);
    }
    forall rule | rule in rules && Applies(q, rule) ensures rule in matched {
      var i :| 0 <= i < |rules| && rules[i] == rule;
      var k :| 0 <= k < |matching| && matching[k].index == i;
      assert matched[k] == rule;
    }
  }

  /** Adds to `found` what a rendered template opens of each root. */
  method AddHits(q: Request, template: string, path: string, found: set<string>) returns (more: set<string>)
    requires Render(template, q.Values()) == Rendered(path)
    ensures forall p :: p in more <==> p in found || HitBy(q, template, p)
  {
    var roots := q.ScopeRoots();
    more := found;
    for n := 0 to |roots|
      invariant forall p :: p in more <==> p in found || exists i | 0 <= i < n :: Hit(q, template, roots[i]) == Some(p)
    {
      var both := Intersect(path, roots[n]);
      assert Hit(q, template, roots[n]) == both;
      if both.Some? {
        more := more + {both.value};
      }
    }
  }

  lemma SkippedHitsNothing(q: Request, template: string)
    requires Render(template, q.Values()) == Skipped
    ensures forall p :: !HitBy(q, template, p)
  {
  }

  /** Accumulates the prefixes of one rule; `None` when a template cannot be rendered. */
  method RulePrefixes(q: Request, rule: StorageRule) returns (prefixes: Option<set<string>>)
    ensures prefixes.None? <==> Unrenderable(q, rule)
    ensures prefixes.Some? ==> forall p :: p in prefixes.value <==> Opens(q, rule, p)
  {
    if rule.templates == [] {
      return Some(set p | p in q.ScopeRoots());
    }
    var found: set<string> := {};
    for j := 0 to |rule.templates|
      invariant forall template | template in rule.templates[..j] :: !Refuses(q, template)
      invariant forall p :: p in found <==> HitByAny(q, rule.templates[..j], p)
    {
      var template := rule.templates[j];
      assert rule.templates[..j + 1] == rule.templates[..j] + [template];
      HitByOneMore(q, rule.templates[..j], template);
      var more := TemplatePrefixes(q, template, found);
      if more.None? { return None; }
      found := more.value;
    }
    assert rule.templates[..|rule.templates|] == rule.templates;
    return Some(found);
  }

  lemma HitByOneMore(q: Request, templates: seq<string>, template: string)
    ensures forall p :: HitByAny(q, templates + [template], p) <==> HitByAny(q, templates, p) || HitBy(q, template, p)
  {
    assert forall t :: t in templates + [template] <==> t in templates || t == template;
  }

  /** Renders one template and adds what it opens. */
  method TemplatePrefixes(q: Request, template: string, found: set<string>) returns (more: Option<set<string>>)
    ensures more.None? <==> Refuses(q, template)
    ensures more.Some? ==> forall p :: p in more.value <==> p in found || HitBy(q, template, p)
  {
    var candidate := RenderLoop(template, q.Values());
    match candidate {
      case Invalid => return None;
      case Skipped =>
        SkippedHitsNothing(q, template);
        return Some(found);
      case Rendered(path) =>
        var hits := AddHits(q, template, path, found);
        return Some(hits);
    }
  }

  function Extended(q: Request, rule: StorageRule, access: seq<set<string>>,
                    prefixes: set<string>): (r: seq<set<string>>)
    requires |access| == 4
    ensures |r| == 4
    ensures forall op: Operation :: r[op.Index()] == access[op.Index()] + (if Allows(q, rule, op) then prefixes else {})
  {
    seq(4, k requires 0 <= k < 4 => access[k] + (if Allows(q, rule, OPERATIONS[k]) then prefixes else {}))
  }

  /** What the route and the four sets know after the matching rules `seen`. */
  ghost predicate Progress(q: Request, seen: seq<StorageRule>, route: Option<string>, access: seq<set<string>>) {
    && |access| == 4
    && !SomeUnrenderable(q, seen)
    && (route.Some? <==> exists rule :: rule in seen && Contributes(q, rule))
    && (route.Some? ==> forall rule | rule in seen && Contributes(q, rule) :: Route(q, rule) == route.value)
    && forall op: Operation, p :: p in access[op.Index()] <==> Grants(q, seen, op, p)
  }

  lemma SkipRule(q: Request, seen: seq<StorageRule>, rule: StorageRule, route: Option<string>, access: seq<set<string>>)
    requires Progress(q, seen, route, access)
    requires !Contributes(q, rule) && !(Active(q, rule) && Unrenderable(q, rule))
    ensures Progress(q, seen + [rule], route, access)
  {
    var now := seen + [rule];
    assert forall x :: x in now <==> x in seen || x == rule;
    forall op: Operation, p
      ensures Grants(q, now, op, p) <==> Grants(q, seen, op, p)
    {}
  }

  lemma TakeRule(q: Request, seen: seq<StorageRule>, rule: StorageRule, route: Option<string>,
                 access: seq<set<string>>, prefixes: set<string>)
    requires Progress(q, seen, route, access)
    requires Contributes(q, rule) && !Unrenderable(q, rule) && (route.Some? ==> route.value == Route(q, rule))
    requires forall p :: p in prefixes <==> Opens(q, rule, p)
    ensures Progress(q, seen + [rule], Some(Route(q, rule)), Extended(q, rule, access, prefixes))
  {
    var now := seen + [rule];
    assert forall x :: x in now <==> x in seen || x == rule;
    assert rule in now;
    forall op: Operation, p
      ensures Grants(q, now, op, p) <==> Grants(q, seen, op, p) || (Allows(q, rule, op) && Opens(q, rule, p))
    {
      if Grants(q, seen, op, p) {
        var x :| x in seen && Applies(q, x) && Allows(q, x, op) && Opens(q, x, p);
        assert x in now;
      }
    }
  }

  /** Only applying rules matter, so what is known of them settles the evaluation. */
  lemma MatchingSettles(q: Request, rules: seq<StorageRule>, matching: seq<StorageRule>, route: Option<string>,
                        access: seq<set<string>>)
    requires forall rule :: rule in matching <==> rule in rules && Applies(q, rule)
    requires GateOpen(q, rules) && Progress(q, matching, route, access)
    ensures Meets(q, rules, if route.None? then NoAccess else Decision(route.value, access))
  {
    forall op: Operation, p
      ensures Grants(q, rules, op, p) <==> Grants(q, matching, op, p)
    {}
  }

  /** The Hub gate, decided on the matches. */
  lemma GateMeans(q: Request, rules: seq<StorageRule>, matching: seq<Match>)
    requires Matching(q, rules, |rules|, matching)
    ensures GateOpen(q, rules) <==> !q.scope.GlobalHub? || exists k | 0 <= k < |matching| :: matching[k].hub
  {
    if k :| 0 <= k < |matching| && matching[k].hub {
      assert MatchFits(q, rules, matching[k]) && rules[matching[k].index] in rules;
    }
    if rule :| rule in rules && Applies(q, rule) && OpensHub(q, rule) {
      var i :| 0 <= i < |rules| && rules[i] == rule;
      var k :| 0 <= k < |matching| && matching[k].index == i;
      assert MatchFits(q, rules, matching[k]);
    }
  }

  /** What one applying rule comes to: nothing, an error, or some prefixes. */
  datatype Outcome = Nothing | Broken | Opened(prefixes: set<string>)

  ghost predicate OutcomeFits(q: Request, rule: StorageRule, o: Outcome) {
    match o
    case Nothing => !Contributes(q, rule) && !(Active(q, rule) && Unrenderable(q, rule))
    case Broken => Active(q, rule) && Unrenderable(q, rule)
    case Opened(prefixes) =>
      Contributes(q, rule) && !Unrenderable(q, rule) && forall p :: p in prefixes <==> Opens(q, rule, p)
  }

  lemma ActiveMeans(q: Request, rules: seq<StorageRule>, m: Match)
    requires MatchFits(q, rules, m)
    ensures Active(q, rules[m.index]) <==>
            exists k | 0 <= k < 4 :: m.capable[k] && Lists(q, rules[m.index], OPERATIONS[k])
  {
    var rule := rules[m.index];
    if op :| Allows(q, rule, op) {
      OperationAt(op);
      assert m.capable[op.Index()] && Lists(q, rule, OPERATIONS[op.Index()]);
    }
    if k :| 0 <= k < 4 && m.capable[k] && Lists(q, rule, OPERATIONS[k]) {
      assert Allows(q, rule, OPERATIONS[k]);
    }
  }

  method RuleOutcome(q: Request, rules: seq<StorageRule>, m: Match) returns (o: Outcome)
    requires MatchFits(q, rules, m)
    ensures OutcomeFits(q, rules[m.index], o)
  {
    var rule := rules[m.index];
    ActiveMeans(q, rules, m);
    if !exists k | 0 <= k < 4 :: m.capable[k] && Lists(q, rule, OPERATIONS[k]) { return Nothing; }
    var prefixes := RulePrefixes(q, rule);
    if prefixes.None? { return Broken; }
    if prefixes.value == {} { return Nothing; }
    return Opened(prefixes.value);
  }

  /** The loop over the matches: the common route and what is opened per operation, or what went wrong. */
  method Gather(q: Request, rules: seq<StorageRule>, matching: seq<Match>)
    returns (error: Option<Error>, route: Option<string>, access: seq<set<string>>)
    requires Matching(q, rules, |rules|, matching)
    ensures match error
            case None => Progress(q, Matched(rules, matching), route, access)
            case Some(InvalidPolicy) => SomeUnrenderable(q, Matched(rules, matching))
            case Some(ConflictingRoutes) => Conflict(q, Matched(rules, matching))
  {
    ghost var matched := Matched(rules, matching);
    route, access := None, [{}, {}, {}, {}];
    for n := 0 to |matching|
      invariant Progress(q, matched[..n], route, access)
    {
      var rule := rules[matching[n].index];
      assert matched[n] == rule && rule in matched && matched[..n + 1] == matched[..n] + [rule];
      var outcome := RuleOutcome(q, rules, matching[n]);
      match outcome {
        case Nothing => SkipRule(q, matched[..n], rule, route, access);
        case Broken => return Some(InvalidPolicy), route, access;
        case Opened(prefixes) =>
          var selected := Route(q, rule);
          if route.Some? && route.value != selected {
            RoutesConflict(q, matched[..n], matched, rule, route, access);
            return Some(ConflictingRoutes), route, access;
          }
          TakeRule(q, matched[..n], rule, route, access, prefixes);
          route, access := Some(selected), Extended(q, rule, access, prefixes);
      }
    }
    assert matched[..|matching|] == matched;
    return None, route, access;
  }

  lemma RoutesConflict(q: Request, seen: seq<StorageRule>, all: seq<StorageRule>, rule: StorageRule,
                       route: Option<string>,
                       access: seq<set<string>>)
    requires Progress(q, seen, route, access) && (forall x | x in seen :: x in all) && rule in all
             && Contributes(q, rule)
    requires route.Some? && route.value != Route(q, rule)
    ensures Conflict(q, all)
  {
    var other :| other in seen && Contributes(q, other);
  }

  lemma FailuresSettle(q: Request, rules: seq<StorageRule>, matched: seq<StorageRule>)
    requires forall rule | rule in matched :: rule in rules
    ensures SomeUnrenderable(q, matched) ==> SomeUnrenderable(q, rules)
    ensures Conflict(q, matched) ==> Conflict(q, rules)
  {
  }

  /** `StoragePolicy::evaluate`. */
  method Evaluate(q: Request, rules: seq<StorageRule>) returns (r: Evaluation)
    ensures Meets(q, rules, r)
  {
    var matching := StorageRules(q, rules);
    MatchedApply(q, rules, matching);
    GateMeans(q, rules, matching);
    if q.scope.GlobalHub? && !exists k | 0 <= k < |matching| :: matching[k].hub {
      return NoAccess;
    }
    var error, route, access := Gather(q, rules, matching);
    if error.Some? {
      FailuresSettle(q, rules, Matched(rules, matching));
      return Failed(error.value);
    }
    MatchingSettles(q, rules, Matched(rules, matching), route, access);
    if route.None? { return NoAccess; }
    return Decision(route.value, access);
  }

  // ---------------------------------------------------------------- meaning

  /** Some rendered template of the rule covers the key, or the rule names no template. */
  ghost predicate Covers(q: Request, rule: StorageRule, key: string) {
    rule.templates == [] || exists template :: template in rule.templates && TemplateCovers(q, template, key)
  }

  predicate TemplateCovers(q: Request, template: string, key: string) {
    var r := Render(template, q.Values());
    r.Rendered? && Under(key, r.path)
  }

  /** One single rule gives the caller `op` on the key, inside the requested scope. */
  ghost predicate Authorizes(q: Request, rule: StorageRule, op: Operation, key: string) {
    Applies(q, rule) && Allows(q, rule, op) && Covers(q, rule, key) && Owns(q.scope, q.OwnNamespace(), key)
  }

  /** A template's hits open exactly the keys under both the rendered template and the scope. */
  lemma HitsMeanCover(q: Request, template: string, key: string)
    ensures (exists p :: HitBy(q, template, p) && Under(key, p)) <==>
            TemplateCovers(q, template, key) && Owns(q.scope, q.OwnNamespace(), key)
  {
    var roots, r := q.ScopeRoots(), Render(template, q.Values());
    if r.Rendered? {
      forall i | 0 <= i < |roots|
        ensures Hit(q, template, roots[i]) == Intersect(r.path, roots[i])
        ensures Under(key, r.path) && Under(key, roots[i]) <==>
                Hit(q, template, roots[i]).Some? && Under(key, Hit(q, template, roots[i]).value)
      {
        IntersectMeans(r.path, roots[i], key);
      }
      if TemplateCovers(q, template, key) && Owns(q.scope, q.OwnNamespace(), key) {
        var i :| 0 <= i < |roots| && Under(key, roots[i]);
        assert HitBy(q, template, Hit(q, template, roots[i]).value);
      }
    }
  }

  /** The prefixes a rule opens denote exactly the keys it covers inside the scope. */
  lemma OpensMeansCovers(q: Request, rule: StorageRule, key: string)
    ensures (exists p :: Opens(q, rule, p) && Under(key, p)) <==>
            Covers(q, rule, key) && Owns(q.scope, q.OwnNamespace(), key)
  {
    if rule.templates == [] {
      if exists p :: Opens(q, rule, p) && Under(key, p) {
        var p :| Opens(q, rule, p) && Under(key, p);
        var i :| 0 <= i < |q.ScopeRoots()| && q.ScopeRoots()[i] == p;
      }
      if Owns(q.scope, q.OwnNamespace(), key) {
        var i :| 0 <= i < |q.ScopeRoots()| && Under(key, q.ScopeRoots()[i]);
        assert Opens(q, rule, q.ScopeRoots()[i]);
      }
    } else {
      if exists p :: Opens(q, rule, p) && Under(key, p) {
        var p :| Opens(q, rule, p) && Under(key, p);
        var template :| template in rule.templates && HitBy(q, template, p);
        HitsMeanCover(q, template, key);
      }
      if Covers(q, rule, key) && Owns(q.scope, q.OwnNamespace(), key) {
        var template :| template in rule.templates && TemplateCovers(q, template, key);
        HitsMeanCover(q, template, key);
        var p :| HitBy(q, template, p) && Under(key, p);
        assert Opens(q, rule, p);
      }
    }
  }

  /**
   A decision means exactly the grants: a key lies under a returned prefix for an operation if and only
   if one single applying rule allows the operation, covers the key and the scope owns it. No access
   means that no key qualifies for any operation, or that the global Hub gate is shut.
   */
  lemma DecisionMeansGrants(q: Request, rules: seq<StorageRule>, r: Evaluation, op: Operation, key: string)
    requires Meets(q, rules, r)
    ensures r.Decision? ==>
              ((exists p :: p in r.access[op.Index()] && Under(key, p)) <==>
               (exists rule :: rule in rules && Authorizes(q, rule, op, key)))
    ensures r.NoAccess? && GateOpen(q, rules) ==> !exists rule :: rule in rules && Authorizes(q, rule, op, key)
  {
    forall rule | rule in rules
      ensures (exists p :: Opens(q, rule, p) && Under(key, p)) <==>
              Covers(q, rule, key) && Owns(q.scope, q.OwnNamespace(), key)
    {
      OpensMeansCovers(q, rule, key);
    }
    if r.Decision? && exists p :: p in r.access[op.Index()] && Under(key, p) {
      var p :| p in r.access[op.Index()] && Under(key, p);
      assert Grants(q, rules, op, p);
      var rule :| rule in rules && Applies(q, rule) && Allows(q, rule, op) && Opens(q, rule, p);
      assert Authorizes(q, rule, op, key);
    }
    if exists rule :: rule in rules && Authorizes(q, rule, op, key) {
      var rule :| rule in rules && Authorizes(q, rule, op, key);
      var p :| Opens(q, rule, p) && Under(key, p);
      assert Grants(q, rules, op, p);
      assert Contributes(q, rule);
    }
  }

  /** Every returned prefix lies under a root of the requested scope. */
  lemma DecisionIsConfined(q: Request, rules: seq<StorageRule>, r: Evaluation, op: Operation, p: string)
    requires Meets(q, rules, r) && r.Decision? && p in r.access[op.Index()]
    ensures exists i | 0 <= i < |q.ScopeRoots()| :: Under(p, q.ScopeRoots()[i])
  {
    assert Grants(q, rules, op, p);
    var rule :| rule in rules && Applies(q, rule) && Allows(q, rule, op) && Opens(q, rule, p);
    UnderSelf(p);
    OpensMeansCovers(q, rule, p);
  }

  /** A rule restricted to named projects says nothing about user memory or the global Hub. */
  lemma RestrictedRulesStayInProjects(q: Request, rule: StorageRule, op: Operation, key: string)
    requires rule.hub.projects != [] && "*" !in rule.hub.projects && !q.scope.ProjectScope?
    ensures !Applies(q, rule) && !Contributes(q, rule) && !Authorizes(q, rule, op, key)
  {
  }

  /**
   Order independence: two rule lists with the same rules, in any order and with any repetition, err
   together, and otherwise give the same result.
   */
  lemma OrderIndependence(q: Request, rules: seq<StorageRule>, r: Evaluation, rules': seq<StorageRule>, r': Evaluation)
    requires forall rule :: rule in rules <==> rule in rules'
    requires Meets(q, rules, r) && Meets(q, rules', r')
    ensures r.Failed? <==> r'.Failed?
    ensures !r.Failed? ==> r == r'
  {
    SameKind(q, rules, r, rules', r');
    if r.Decision? {
      SameDecision(q, rules, r, rules', r');
    }
  }

  lemma SameKind(q: Request, rules: seq<StorageRule>, r: Evaluation, rules': seq<StorageRule>, r': Evaluation)
    requires forall rule :: rule in rules <==> rule in rules'
    requires Meets(q, rules, r) && Meets(q, rules', r')
    ensures (r.Failed? <==> r'.Failed?) && (r.NoAccess? <==> r'.NoAccess?)
  {
    SameVerdicts(q, rules, rules');
  }

  lemma SameDecision(q: Request, rules: seq<StorageRule>, r: Evaluation, rules': seq<StorageRule>, r': Evaluation)
    requires forall rule :: rule in rules <==> rule in rules'
    requires Meets(q, rules, r) && Meets(q, rules', r') && r.Decision? && r'.Decision?
    ensures r == r'
  {
    SameAccess(q, rules, r.access, rules', r'.access);
  }

  lemma SameAccess(q: Request, rules: seq<StorageRule>, access: seq<set<string>>, rules': seq<StorageRule>,
                   access': seq<set<string>>)
    requires forall rule :: rule in rules <==> rule in rules'
    requires |access| == 4 && forall op: Operation, p :: p in access[op.Index()] <==> Grants(q, rules, op, p)
    requires |access'| == 4 && forall op: Operation, p :: p in access'[op.Index()] <==> Grants(q, rules', op, p)
    ensures access == access'
  {
    forall k | 0 <= k < 4
      ensures access[k] == access'[k]
    {
      var op := OPERATIONS[k];
      assert op.Index() == k;
      forall p
        ensures p in access[op.Index()] <==> p in access'[op.Index()]
      {
        SameGrants(q, rules, rules', op, p);
      }
    }
  }

  lemma SameVerdicts(q: Request, rules: seq<StorageRule>, rules': seq<StorageRule>)
    requires forall rule :: rule in rules <==> rule in rules'
    ensures GateOpen(q, rules) <==> GateOpen(q, rules')
    ensures SomeUnrenderable(q, rules) <==> SomeUnrenderable(q, rules')
    ensures Conflict(q, rules) <==> Conflict(q, rules')
  {
  }

  lemma SameGrants(q: Request, rules: seq<StorageRule>, rules': seq<StorageRule>, op: Operation, p: string)
    requires forall rule :: rule in rules <==> rule in rules'
    ensures Grants(q, rules, op, p) <==> Grants(q, rules', op, p)
  {
  }

  // ---------------------------------------------------------------- isolation of decisions

  lemma UnderTransitive(key: string, p: string, root: string)
    requires Under(key, p) && Under(p, root)
    ensures Under(key, root)
  {
    assert root == p[..|root|] == key[..|root|];
  }

  /** What a decision opens belongs to its scope. */
  lemma OpenedIsOwned(q: Request, rules: seq<StorageRule>, r: Evaluation, op: Operation, p: string, key: string)
    requires Meets(q, rules, r) && r.Decision? && p in r.access[op.Index()] && Under(key, p)
    ensures Owns(q.scope, q.OwnNamespace(), key)
  {
    DecisionIsConfined(q, rules, r, op, p);
    var i :| 0 <= i < |q.ScopeRoots()| && Under(p, q.ScopeRoots()[i]);
    UnderTransitive(key, p, q.ScopeRoots()[i]);
  }

  /** The stream digested for a caller. */
  function OwnerInput(caller: Principal): seq<Byte> { NamespaceInput(Encoded(caller.issuer), Encoded(caller.subject)) }

  predicate Sizeable(caller: Principal) { Bytes(caller.issuer) < U64 && Bytes(caller.subject) < U64 }

  /**
   Two decisions, whatever their callers, rules and operations, open a common object key only for the same
   scope, and for user memory only to the same owner, unless the digest collides on the two callers.
   */
  lemma DecisionsAreIsolated(q1: Request, rules1: seq<StorageRule>, r1: Evaluation, op1: Operation, p1: string,
                             q2: Request, rules2: seq<StorageRule>, r2: Evaluation, op2: Operation, p2: string,
                                 key: string)
    requires Meets(q1, rules1, r1) && r1.Decision? && p1 in r1.access[op1.Index()] && Under(key, p1)
    requires Meets(q2, rules2, r2) && r2.Decision? && p2 in r2.access[op2.Index()] && Under(key, p2)
    requires q1.scope.Valid() && q2.scope.Valid() && q1.digest == q2.digest && Sizeable(q1.caller)
             && Sizeable(q2.caller)
    requires var a, b := OwnerInput(q1.caller), OwnerInput(q2.caller); q1.digest(a) == q1.digest(b) ==> a == b
    ensures q1.scope == q2.scope
    ensures q1.scope.UserMemory? ==> q1.caller.issuer == q2.caller.issuer && q1.caller.subject == q2.caller.subject
  {
    OpenedIsOwned(q1, rules1, r1, op1, p1, key);
    OpenedIsOwned(q2, rules2, r2, op2, p2, key);
    SameOwner(q1, q2, key);
  }

  lemma SameOwner(q1: Request, q2: Request, key: string)
    requires q1.scope.Valid() && q2.scope.Valid() && q1.digest == q2.digest && Sizeable(q1.caller)
             && Sizeable(q2.caller)
    requires var a, b := OwnerInput(q1.caller), OwnerInput(q2.caller); q1.digest(a) == q1.digest(b) ==> a == b
    requires Owns(q1.scope, q1.OwnNamespace(), key) && Owns(q2.scope, q2.OwnNamespace(), key)
    ensures q1.scope == q2.scope
    ensures q1.scope.UserMemory? ==> q1.caller.issuer == q2.caller.issuer && q1.caller.subject == q2.caller.subject
  {
    var i1, u1 := Encoded(q1.caller.issuer), Encoded(q1.caller.subject);
    var i2, u2 := Encoded(q2.caller.issuer), Encoded(q2.caller.subject);
    BytesAreEncoded(q1.caller.issuer);
    BytesAreEncoded(q1.caller.subject);
    BytesAreEncoded(q2.caller.issuer);
    BytesAreEncoded(q2.caller.subject);
    ScopesAreIsolated(q1.digest, q1.scope, i1, u1, q2.scope, i2, u2, key);
    if q1.scope.UserMemory? {
      EncodedInjective(q1.caller.issuer, q2.caller.issuer);
      EncodedInjective(q1.caller.subject, q2.caller.subject);
    }
  }
}
