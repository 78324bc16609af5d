/**
 Hub discovery: two independent projections of the same rules. One lists the projects a caller may
 see; the other selects the storage route of a project's catalog.
 */
module HubDiscovery {
  import opened Common
  import opened GrantPolicy

  datatype Selection = All | One(project: string)

  datatype CatalogRoute = CatalogRoute(route: string, projects: seq<string>)

  datatype Lookup = Absent | Found(route: string) | ConflictingRoutes

  /** The rule is for this caller (nobody when anonymous) and carries the Hub capability. */
  predicate ForHub(g: Globs, user: Option<Principal>, rule: HubRule) {
    rule.selector.Matches(user) && g.AnyMatches(rule.capabilities, "hub")
  }

  function Selected(project: string): Selection { if project == "*" then All else One(project) }

  /** What one rule contributes to the selections. */
  predicate Selects(rule: HubRule, s: Selection) {
    if rule.projects == [] then s == All
    else exists i | 0 <= i < |rule.projects| :: Selected(rule.projects[i]) == s
  }

  ghost predicate SelectedBy(g: Globs, user: Option<Principal>, rules: seq<HubRule>, s: Selection) {
    exists rule :: rule in rules && ForHub(g, user, rule) && Selects(rule, s)
  }

  /** `HubResourcePolicy::selectors`: the deduplicated selections of the caller's Hub rules. */
  method Selectors(g: Globs, user: Option<Principal>, rules: seq<HubRule>) returns (selectors: seq<Selection>)
    ensures Distinct(selectors)
    ensures forall s :: s in selectors <==> SelectedBy(g, user, rules, s)
  {
    var seen: set<Selection> := {};
    selectors := [];
    for n := 0 to |rules|
      invariant Distinct(selectors) && (forall s :: s in seen <==> s in selectors)
      invariant forall s :: s in selectors <==> SelectedBy(g, user, rules[..n], s)
    {
      var rule := rules[n];
      assert rules[..n + 1] == rules[..n] + [rule];
      SelectedByOneMore(g, user, rules[..n], rule);
      if !ForHub(g, user, rule) { continue; }
      ghost var before := selectors;
      if rule.projects == [] && All !in seen {
        seen, selectors := seen + {All}, selectors + [All];
      }
      for k := 0 to |rule.projects|
        invariant Distinct(selectors) && (forall s :: s in seen <==> s in selectors)
        invariant rule.projects != [] ==>
                    forall s :: s in selectors <==>
                      s in before || exists i | 0 <= i < k :: Selected(rule.projects[i]) == s
        invariant rule.projects == [] ==> forall s :: s in selectors <==> s in before || s == All
      {
        var key := Selected(rule.projects[k]);
        if key !in seen {
          seen, selectors := seen + {key}, selectors + [key];
        }
      }
    }
    assert rules[..|rules|] == rules;
  }

  lemma SelectedByOneMore(g: Globs, user: Option<Principal>, rules: seq<HubRule>, rule: HubRule)
    ensures forall s :: SelectedBy(g, user, rules + [rule], s) <==>
                        SelectedBy(g, user, rules, s) || (ForHub(g, user, rule) && Selects(rule, s))
  {
    var more := rules + [rule];
    assert forall x :: x in more <==> x in rules || x == rule;
  }

  function RouteOf(rule: HubRule): CatalogRoute { CatalogRoute(rule.route, rule.projects) }

  /** The routes of the caller's Hub rules, rule by rule. */
  function HubRoutes(g: Globs, user: Option<Principal>, rules: seq<HubRule>): seq<CatalogRoute> {
    if rules == [] then []
    else
      var last := rules[|rules| - 1];
      HubRoutes(g, user, rules[..|rules| - 1]) + if ForHub(g, user, last) then [RouteOf(last)] else []
  }

  /** `HubResourcePolicy::catalog_routes`: one route for each Hub rule of the caller, in order. */
  method CatalogRoutes(g: Globs, user: Option<Principal>, rules: seq<HubRule>) returns (routes: seq<CatalogRoute>)
    ensures routes == HubRoutes(g, user, rules) && RoutesOf(g, user, rules, routes)
  {
    routes := [];
    for n := 0 to |rules|
      invariant routes == HubRoutes(g, user, rules[..n])
    {
      assert rules[..n + 1][..n] == rules[..n];
      if ForHub(g, user, rules[n]) {
        routes := routes + [RouteOf(rules[n])];
      }
    }
    assert rules[..|rules|] == rules;
    HubRoutesMean(g, user, rules);
  }

  /** The routes are those of the caller's Hub rules. */
  ghost predicate RoutesOf(g: Globs, user: Option<Principal>, rules: seq<HubRule>, routes: seq<CatalogRoute>) {
    forall c :: c in routes <==> exists rule :: rule in rules && ForHub(g, user, rule) && c == RouteOf(rule)
  }

  lemma {:induction false} HubRoutesMean(g: Globs, user: Option<Principal>, rules: seq<HubRule>)
    ensures RoutesOf(g, user, rules, HubRoutes(g, user, rules))
    decreases |rules|
  {
    if rules != [] {
      var front, last := rules[..|rules| - 1], rules[|rules| - 1];
      HubRoutesMean(g, user, front);
      assert forall x :: x in rules <==> x in front || x == last;
    }
  }

  function Resolved(c: CatalogRoute, default: string): string { if c.route == "" then default else c.route }

  /** The routes that cover the project all resolve alike, or two of them differ. */
  ghost predicate Answers(routes: seq<CatalogRoute>, project: string, default: string, answer: Lookup) {
    match answer
    case Absent => forall c | c in routes :: !CoversProject(c.projects, Some(project))
    case Found(route) =>
      && (exists c :: c in routes && CoversProject(c.projects, Some(project)))
      && forall c | c in routes && CoversProject(c.projects, Some(project)) :: Resolved(c, default) == route
    case ConflictingRoutes =>
      exists a, b :: a in routes && b in routes && CoversProject(a.projects, Some(project))
        && CoversProject(b.projects, Some(project))
                     && Resolved(a, default) != Resolved(b, default)
  }

  /** `HubAccessResolution::catalog_route`. */
  method FindRoute(routes: seq<CatalogRoute>, project: string, default: string) returns (answer: Lookup)
    ensures Answers(routes, project, default, answer)
  {
    answer := Absent;
    for n := 0 to |routes|
      invariant !answer.ConflictingRoutes? && Answers(routes[..n], project, default, answer)
    {
      var c := routes[n];
      assert routes[..n + 1] == routes[..n] + [c];
      assert forall x :: x in routes[..n + 1] <==> x in routes[..n] || x == c;
      if CoversProject(c.projects, Some(project)) {
        var route := Resolved(c, default);
        if answer.Found? && answer.route != route {
          ghost var other :| other in routes[..n] && CoversProject(other.projects, Some(project));
          return ConflictingRoutes;
        }
        answer := Found(route);
      }
    }
    assert routes[..|routes|] == routes;
  }

  /** The covering Hub rules of the caller. */
  ghost predicate Covering(g: Globs, user: Option<Principal>, rules: seq<HubRule>, project: string, rule: HubRule) {
    rule in rules && ForHub(g, user, rule) && CoversProject(rule.projects, Some(project))
  }

  predicate SelectionCovers(s: Selection, project: string) { s.All? || s.project == project }

  ghost predicate SomeCover(g: Globs, user: Option<Principal>, rules: seq<HubRule>, project: string) {
    exists rule :: Covering(g, user, rules, project, rule)
  }

  /** Every covering rule resolves to `route`. */
  ghost predicate AllResolve(g: Globs, user: Option<Principal>, rules: seq<HubRule>, project: string, default: string,
                             route: string) {
    forall rule | Covering(g, user, rules, project, rule) :: Resolved(RouteOf(rule), default) == route
  }

  lemma SelectionsCover(g: Globs, user: Option<Principal>, rules: seq<HubRule>, project: string,
                        selectors: seq<Selection>)
    requires forall s :: s in selectors <==> SelectedBy(g, user, rules, s)
    ensures (exists s :: s in selectors && SelectionCovers(s, project)) <==> SomeCover(g, user, rules, project)
  {
    if SomeCover(g, user, rules, project) {
      var rule :| Covering(g, user, rules, project, rule);
      CoverIsSelected(rule, project);
      var s :| Selects(rule, s) && SelectionCovers(s, project);
      assert SelectedBy(g, user, rules, s);
    }
    if exists s :: s in selectors && SelectionCovers(s, project) {
      var s :| s in selectors && SelectionCovers(s, project);
      assert SelectedBy(g, user, rules, s);
      var rule :| rule in rules && ForHub(g, user, rule) && Selects(rule, s);
      SelectedIsCover(rule, s, project);
      assert Covering(g, user, rules, project, rule);
    }
  }

  lemma RoutingMeans(g: Globs, user: Option<Principal>, rules: seq<HubRule>, project: string, default: string,
                     routes: seq<CatalogRoute>, answer: Lookup)
    requires RoutesOf(g, user, rules, routes) && Answers(routes, project, default, answer)
    ensures match answer
            case Absent => !SomeCover(g, user, rules, project)
            case Found(route) =>
              SomeCover(g, user, rules, project) && AllResolve(g, user, rules, project, default, route)
            case ConflictingRoutes =>
              SomeCover(g, user, rules, project) && forall r :: !AllResolve(g, user, rules, project, default, r)
  {
    forall rule | Covering(g, user, rules, project, rule)
      ensures RouteOf(rule) in routes && CoversProject(RouteOf(rule).projects, Some(project))
    {}
    match answer
    case Absent =>
    case Found(route) =>
      var c :| c in routes && CoversProject(c.projects, Some(project));
      var rule :| rule in rules && ForHub(g, user, rule) && c == RouteOf(rule);
      assert Covering(g, user, rules, project, rule);
    case ConflictingRoutes =>
      var a, b :| a in routes && b in routes && CoversProject(a.projects, Some(project))
        && CoversProject(b.projects, Some(project))
                  && Resolved(a, default) != Resolved(b, default);
      var ra :| ra in rules && ForHub(g, user, ra) && a == RouteOf(ra);
      var rb :| rb in rules && ForHub(g, user, rb) && b == RouteOf(rb);
      assert Covering(g, user, rules, project, ra) && Covering(g, user, rules, project, rb);
  }

  /**
   Discovery agrees with routing, for every caller, rule list and project: the deduplicated selections
   cover a project exactly when its route is not absent; the route is found exactly when the caller's
   covering rules all resolve to it, and conflicts exactly when no single route serves them all. None
   of this depends on the order of the rules.
   */
  lemma DiscoveryAgreesWithRouting(g: Globs, user: Option<Principal>, rules: seq<HubRule>, project: string,
                                   default: string,
                                   selectors: seq<Selection>, routes: seq<CatalogRoute>, answer: Lookup)
    requires forall s :: s in selectors <==> SelectedBy(g, user, rules, s)
    requires RoutesOf(g, user, rules, routes) && Answers(routes, project, default, answer)
    ensures (exists s :: s in selectors && SelectionCovers(s, project)) <==> !answer.Absent?
    ensures answer.Absent? <==> !SomeCover(g, user, rules, project)
    ensures forall r :: answer == Found(r) <==>
              SomeCover(g, user, rules, project) && AllResolve(g, user, rules, project, default, r)
    ensures answer.ConflictingRoutes? <==>
              exists a, b :: Covering(g, user, rules, project, a) && Covering(g, user, rules, project, b)
                             && Resolved(RouteOf(a), default) != Resolved(RouteOf(b), default)
  {
    SelectionsCover(g, user, rules, project, selectors);
    RoutingMeans(g, user, rules, project, default, routes, answer);
    if SomeCover(g, user, rules, project) {
      var a :| Covering(g, user, rules, project, a);
      if answer.ConflictingRoutes? {
        assert !AllResolve(g, user, rules, project, default, Resolved(RouteOf(a), default));
      }
    }
  }

  lemma CoverIsSelected(rule: HubRule, project: string)
    requires CoversProject(rule.projects, Some(project))
    ensures exists s :: Selects(rule, s) && SelectionCovers(s, project)
  {
    if rule.projects == [] {
      assert Selects(rule, All);
    } else {
      var id :| id in rule.projects && (id == "*" || id == project);
      assert Selects(rule, Selected(id));
    }
  }

  lemma SelectedIsCover(rule: HubRule, s: Selection, project: string)
    requires Selects(rule, s) && SelectionCovers(s, project)
    ensures CoversProject(rule.projects, Some(project))
  {
  }
}
