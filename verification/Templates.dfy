/** Storage prefix templates: the compile-time probe, rendering, and what rendering means. */
module Templates {
  import opened Common
  import opened Text
  import opened Paths

  datatype Placeholder = Project | Username | Organization | Subject

  function Name(v: Placeholder): (n: string)
    ensures 2 <= |n| && n[0] == '{' && n[|n| - 1] == '}'
    ensures forall i | 1 <= i < |n| :: n[i] != '{'
    ensures 'v' !in n
  {
    match v
    case Project => "{project}"
    case Username => "{username}"
    case Organization => "{organization}"
    case Subject => "{subject}"
  }

  const ORDER: seq<Placeholder> := [Project, Username, Organization, Subject]

  const VALIDATION := "validation"

  /** The value of each placeholder for one caller and one requested scope. */
  type Values = Placeholder -> Option<string>

  datatype Rendered = Skipped | Rendered(path: string) | Invalid

  /** Sequential replacement in the source's order, stopping at a used value that is missing or unsafe. */
  function Fill(s: string, names: seq<Placeholder>, values: Values): Option<string>
    decreases |names|
  {
    if names == [] then Some(s)
    else if Contains(s, Name(names[0])) then
      var value := values(names[0]);
      if value.Some? && SafeSegment(value.value)
      then Fill(Replace(s, Name(names[0]), value.value), names[1..], values)
      else None
    else Fill(s, names[1..], values)
  }

  /** What `render` returns. */
  function Render(template: string, values: Values): Rendered {
    if values(Project).None? && Contains(template, Name(Project)) then Skipped
    else
      match Fill(template, ORDER, values)
      case None => Invalid
      case Some(path) => if SafePath(path) then Rendered(path) else Invalid
  }

  /** `render` itself: a loop that rewrites the text placeholder by placeholder. */
  method RenderLoop(template: string, values: Values) returns (r: Rendered)
    ensures r == Render(template, values)
  {
    if values(Project).None? && Contains(template, Name(Project)) { return Skipped; }
    var rendered := template;
    for i := 0 to |ORDER|
      invariant Fill(template, ORDER, values) == Fill(rendered, ORDER[i..], values)
    {
      assert ORDER[i..][1..] == ORDER[i + 1..];
      if Contains(rendered, Name(ORDER[i])) {
        var value := values(ORDER[i]);
        if value.None? || !SafeSegment(value.value) { return Invalid; }
        rendered := Replace(rendered, Name(ORDER[i]), value.value);
      }
    }
    if !SafePath(rendered) { return Invalid; }
    return Rendered(rendered);
  }

  /** The compile-time probe: every placeholder replaced by the word "validation". */
  function Probe(template: string): string {
    Replace(Replace(Replace(Replace(template, Name(Project), VALIDATION), Name(Username), VALIDATION),
                    Name(Organization), VALIDATION), Name(Subject), VALIDATION)
  }

  /** Templates the compiler keeps. */
  predicate Admissible(template: string) { SafePath(Probe(template)) }

  // ---------------------------------------------------------------- one-pass meaning

  /** The placeholder a text begins with. */
  function Front(s: string): (v: Option<Placeholder>)
    ensures v.Some? ==> Name(v.value) <= s
  {
    if Name(Project) <= s then Some(Project)
    else if Name(Username) <= s then Some(Username)
    else if Name(Organization) <= s then Some(Organization)
    else if Name(Subject) <= s then Some(Subject)
    else None
  }

  lemma FrontIs(s: string, v: Placeholder)
    ensures Name(v) <= s <==> Front(s) == Some(v)
  {
    if Name(v) <= s {
      assert s[1] == Name(v)[1];
    }
  }

  /** Simultaneous substitution: one pass from left to right, never rescanning what was inserted. */
  function Substitute(s: string, f: Placeholder -> string): string {
    if s == "" then ""
    else
      match Front(s)
      case Some(v) => f(v) + Substitute(s[|Name(v)|..], f)
      case None => [s[0]] + Substitute(s[1..], f)
  }

  /** Every brace of the text belongs to one of the placeholders `vs`. */
  predicate Clean(s: string, vs: set<Placeholder>) {
    s != "" ==>
      match Front(s)
      case Some(v) => v in vs && Clean(s[|Name(v)|..], vs)
      case None => s[0] != '{' && s[0] != '}' && Clean(s[1..], vs)
  }

  predicate Plain(s: string) { '{' !in s && '}' !in s }

  lemma {:induction false} PlainPrefixClean(v: string, rest: string, vs: set<Placeholder>)
    requires Plain(v)
    ensures Clean(v + rest, vs) == Clean(rest, vs)
    decreases |v|
  {
    if v == "" {
      assert v + rest == rest;
    } else {
      assert (v + rest)[1..] == v[1..] + rest;
      FrontBrace(v + rest);
      PlainPrefixClean(v[1..], rest, vs);
    }
  }

  lemma {:induction false} PlainPrefixSubstitute(v: string, rest: string, f: Placeholder -> string)
    requires Plain(v)
    ensures Substitute(v + rest, f) == v + Substitute(rest, f)
    decreases |v|
  {
    if v == "" {
      assert v + rest == rest;
    } else {
      var s := v + rest;
      FrontBrace(s);
      assert Front(s).None? && Substitute(s, f) == [s[0]] + Substitute(s[1..], f);
      assert s[1..] == v[1..] + rest;
      PlainPrefixSubstitute(v[1..], rest, f);
      assert [v[0]] + (v[1..] + Substitute(rest, f)) == v + Substitute(rest, f);
    }
  }

  lemma FrontBrace(s: string)
    ensures Front(s).Some? ==> s != "" && s[0] == '{'
  {
  }

  // ---------------------------------------------------------------- text lemmas

  lemma {:induction false} ContainsSkip(s: string, needle: string, k: nat)
    requires k <= |s| && forall i | 0 <= i < k :: !(needle <= s[i..])
    ensures Contains(s, needle) == Contains(s[k..], needle)
    decreases k
  {
    if k > 0 {
      assert s[0..] == s;
      forall i | 0 <= i < k - 1 ensures !(needle <= s[1..][i..]) {
        assert s[1..][i..] == s[i + 1..];
      }
      ContainsSkip(s[1..], needle, k - 1);
      assert s[1..][k - 1..] == s[k..];
    } else {
      assert s[0..] == s;
    }
  }

  lemma {:induction false} ReplaceSkip(s: string, needle: string, value: string, k: nat)
    requires needle != "" && k <= |s| && forall i | 0 <= i < k :: !(needle <= s[i..])
    ensures Replace(s, needle, value) == s[..k] + Replace(s[k..], needle, value)
    decreases k
  {
    if k > 0 {
      assert s[0..] == s;
      forall i | 0 <= i < k - 1 ensures !(needle <= s[1..][i..]) {
        assert s[1..][i..] == s[i + 1..];
      }
      ReplaceSkip(s[1..], needle, value, k - 1);
      assert s[1..][k - 1..] == s[k..] && [s[0]] + s[1..][..k - 1] == s[..k];
    } else {
      assert s[0..] == s;
    }
  }

  /** A placeholder occurs nowhere inside another one. */
  lemma NoOverlap(s: string, u: Placeholder, v: Placeholder)
    requires Name(u) <= s && u != v
    ensures forall i | 0 <= i < |Name(u)| :: !(Name(v) <= s[i..])
  {
    forall i | 0 <= i < |Name(u)| ensures !(Name(v) <= s[i..]) {
      if i == 0 {
        assert s[0..] == s;
        FrontIs(s, u);
        FrontIs(s, v);
      } else {
        assert s[i..][0] == s[i] == Name(u)[i];
      }
    }
  }

  /** How a text that begins with a placeholder reads. */
  lemma NameFirst(u: Placeholder, rest: string, vs: set<Placeholder>, f: Placeholder -> string)
    ensures Front(Name(u) + rest) == Some(u)
    ensures Clean(Name(u) + rest, vs) == (u in vs && Clean(rest, vs))
    ensures Substitute(Name(u) + rest, f) == f(u) + Substitute(rest, f)
  {
    var s := Name(u) + rest;
    FrontIs(s, u);
    assert s[|Name(u)|..] == rest;
  }

  lemma NameFirstReplace(u: Placeholder, rest: string, v: Placeholder, value: string)
    ensures Replace(Name(u) + rest, Name(v), value)
            == (if u == v then value else Name(u)) + Replace(rest, Name(v), value)
    ensures Contains(Name(u) + rest, Name(v)) == (u == v || Contains(rest, Name(v)))
  {
    var s := Name(u) + rest;
    assert s[|Name(u)|..] == rest && s[..|Name(u)|] == Name(u);
    if u != v {
      NoOverlap(s, u, v);
      ReplaceSkip(s, Name(v), value, |Name(u)|);
      ContainsSkip(s, Name(v), |Name(u)|);
    }
  }

  // ---------------------------------------------------------------- sequential replacement is simultaneous

  const ALL: set<Placeholder> := {Project, Username, Organization, Subject}

  /** One sequential step on a clean text removes the placeholder `v` and leaves a clean text. */
  lemma {:induction false} ReplaceCleans(s: string, v: Placeholder, value: string, vs: set<Placeholder>)
    requires Clean(s, vs) && Plain(value)
    ensures Clean(Replace(s, Name(v), value), vs - {v})
    decreases |s|
  {
    if s != "" {
      if Front(s).Some? {
        var u := Front(s).value;
        var tail := s[|Name(u)|..];
        assert s == Name(u) + tail;
        ReplaceCleans(tail, v, value, vs);
        NameCleans(u, tail, v, value, vs);
      } else {
        FrontIs(s, v);
        assert Replace(s, Name(v), value) == [s[0]] + Replace(s[1..], Name(v), value);
        ReplaceCleans(s[1..], v, value, vs);
        PlainPrefixClean([s[0]], Replace(s[1..], Name(v), value), vs - {v});
      }
    }
  }

  lemma NameCleans(u: Placeholder, tail: string, v: Placeholder, value: string, vs: set<Placeholder>)
    requires Plain(value) && u in vs && Clean(Replace(tail, Name(v), value), vs - {v})
    ensures Clean(Replace(Name(u) + tail, Name(v), value), vs - {v})
  {
    var rest := Replace(tail, Name(v), value);
    NameFirstReplace(u, tail, v, value);
    if u == v {
      PlainPrefixClean(value, rest, vs - {v});
    } else {
      NameFirst(u, rest, vs - {v}, _ => "");
    }
  }

  /** One sequential step by the value `f` gives `v` keeps the one-pass meaning under `f`. */
  lemma {:induction false} ReplaceKeepsMeaning(s: string, v: Placeholder, value: string, vs: set<Placeholder>,
                                               f: Placeholder -> string)
    requires Clean(s, vs) && Plain(value) && f(v) == value
    ensures Substitute(Replace(s, Name(v), value), f) == Substitute(s, f)
    decreases |s|
  {
    if s != "" {
      if Front(s).Some? {
        var u := Front(s).value;
        var tail := s[|Name(u)|..];
        assert s == Name(u) + tail;
        ReplaceKeepsMeaning(tail, v, value, vs, f);
        NameFirst(u, tail, vs, f);
        NameFirstReplace(u, tail, v, value);
        PlainPrefixSubstitute(value, Replace(tail, Name(v), value), f);
        NameFirst(u, Replace(tail, Name(v), value), vs - {v}, f);
      } else {
        FrontIs(s, v);
        assert Replace(s, Name(v), value) == [s[0]] + Replace(s[1..], Name(v), value);
        ReplaceKeepsMeaning(s[1..], v, value, vs, f);
        PlainPrefixSubstitute([s[0]], Replace(s[1..], Name(v), value), f);
      }
    }
  }

  /** A clean text without `v` stays clean without allowing `v`. */
  lemma {:induction false} AbsentIsDropped(s: string, v: Placeholder, vs: set<Placeholder>)
    requires Clean(s, vs) && !Contains(s, Name(v))
    ensures Clean(s, vs - {v})
    decreases |s|
  {
    if s != "" {
      FrontIs(s, v);
      if Front(s).Some? {
        var u := Front(s).value;
        assert s == Name(u) + s[|Name(u)|..];
        NameFirstReplace(u, s[|Name(u)|..], v, "");
        AbsentIsDropped(s[|Name(u)|..], v, vs);
      } else {
        AbsentIsDropped(s[1..], v, vs);
      }
    }
  }

  /** A text with no placeholder left means itself. */
  lemma {:induction false} NothingLeft(s: string, f: Placeholder -> string)
    requires Clean(s, {})
    ensures Substitute(s, f) == s && Plain(s)
    decreases |s|
  {
    if s != "" {
      NothingLeft(s[1..], f);
      assert s == [s[0]] + s[1..];
    }
  }

  /** The usable value of a placeholder; an unusable one is never consulted by a successful rendering. */
  function Usable(values: Values, v: Placeholder): bool {
    values(v).Some? && SafeSegment(values(v).value)
  }

  function Choose(values: Values): Placeholder -> string {
    v => if Usable(values, v) then values(v).value else VALIDATION
  }

  lemma SafeIsPlain(s: string)
    requires SafeSegment(s)
    ensures Plain(s) && Wellformed(s)
  {
  }

  /** Some listed placeholder is used without a usable value. */
  predicate Blocked(s: string, names: seq<Placeholder>, values: Values) {
    exists v :: v in names && Contains(s, Name(v)) && !Usable(values, v)
  }

  lemma BlockedFirst(s: string, names: seq<Placeholder>, values: Values)
    requires names != []
    ensures Blocked(s, names, values) <==>
            (Contains(s, Name(names[0])) && !Usable(values, names[0])) || Blocked(s, names[1..], values)
  {
    assert forall v :: v in names <==> v == names[0] || v in names[1..];
  }

  /** Sequential filling fails exactly on a used, unusable value and otherwise is one-pass substitution. */
  lemma {:induction false} FillMeans(s: string, names: seq<Placeholder>, values: Values, vs: set<Placeholder>)
    requires Clean(s, vs) && (forall v | v in vs :: v in names)
    requires forall i, j | 0 <= i < j < |names| :: names[i] != names[j]
    ensures Fill(s, names, values).None? <==> Blocked(s, names, values)
    ensures Fill(s, names, values).Some? ==> Fill(s, names, values).value == Substitute(s, Choose(values))
    decreases |names|
  {
    if names == [] {
      assert vs == {};
      NothingLeft(s, Choose(values));
    } else {
      var v, rest := names[0], names[1..];
      BlockedFirst(s, names, values);
      if !Contains(s, Name(v)) {
        AbsentIsDropped(s, v, vs);
        FillMeans(s, rest, values, vs - {v});
      } else if Usable(values, v) {
        var next := Replace(s, Name(v), values(v).value);
        UsableReplaced(s, v, values, vs);
        FillMeans(next, rest, values, vs - {v});
        forall u | u in rest
          ensures Contains(next, Name(u)) <==> Contains(s, Name(u))
        {
          ReplaceKeepsOthers(s, v, values(v).value, u, vs);
        }
      }
    }
  }

  lemma UsableReplaced(s: string, v: Placeholder, values: Values, vs: set<Placeholder>)
    requires Clean(s, vs) && Usable(values, v)
    ensures Plain(values(v).value)
    ensures Clean(Replace(s, Name(v), values(v).value), vs - {v})
    ensures Substitute(Replace(s, Name(v), values(v).value), Choose(values)) == Substitute(s, Choose(values))
  {
    SafeIsPlain(values(v).value);
    ReplaceCleans(s, v, values(v).value, vs);
    ReplaceKeepsMeaning(s, v, values(v).value, vs, Choose(values));
  }

  /** Replacing `v` neither adds nor removes another placeholder. */
  lemma {:induction false} ReplaceKeepsOthers(s: string, v: Placeholder, value: string, u: Placeholder,
                                              vs: set<Placeholder>)
    requires Clean(s, vs) && Plain(value) && u != v
    ensures Contains(Replace(s, Name(v), value), Name(u)) == Contains(s, Name(u))
    decreases |s|
  {
    if s != "" {
      if Front(s).Some? {
        var w := Front(s).value;
        var tail := s[|Name(w)|..];
        assert s == Name(w) + tail;
        ReplaceKeepsOthers(tail, v, value, u, vs);
        NameKeepsOthers(w, tail, v, value, u);
      } else {
        ReplaceKeepsOthers(s[1..], v, value, u, vs);
        LetterKeepsOthers(s, v, value, u);
      }
    }
  }

  lemma NameKeepsOthers(w: Placeholder, tail: string, v: Placeholder, value: string, u: Placeholder)
    requires Plain(value) && u != v && Contains(Replace(tail, Name(v), value), Name(u)) == Contains(tail, Name(u))
    ensures Contains(Replace(Name(w) + tail, Name(v), value), Name(u)) == Contains(Name(w) + tail, Name(u))
  {
    var rest := Replace(tail, Name(v), value);
    NameFirstReplace(w, tail, v, value);
    NameFirstReplace(w, tail, u, "");
    if w == v {
      PlainHides(value, rest, u);
    } else {
      NameFirstReplace(w, rest, u, "");
    }
  }

  lemma LetterKeepsOthers(s: string, v: Placeholder, value: string, u: Placeholder)
    requires s != "" && Front(s).None? && Plain(s[..1])
    requires Contains(Replace(s[1..], Name(v), value), Name(u)) == Contains(s[1..], Name(u))
    ensures Contains(Replace(s, Name(v), value), Name(u)) == Contains(s, Name(u))
  {
    FrontIs(s, v);
    FrontIs(s, u);
    assert Replace(s, Name(v), value) == s[..1] + Replace(s[1..], Name(v), value);
    PlainHides(s[..1], Replace(s[1..], Name(v), value), u);
  }

  lemma PlainHides(value: string, rest: string, u: Placeholder)
    requires Plain(value)
    ensures Contains(value + rest, Name(u)) == Contains(rest, Name(u))
  {
    var s := value + rest;
    forall i | 0 <= i < |value| ensures !(Name(u) <= s[i..]) {
      assert s[i..][0] == value[i] && value[i] in value;
    }
    ContainsSkip(s, Name(u), |value|);
    assert s[|value|..] == rest;
  }

  // ---------------------------------------------------------------- what the probe guarantees

  /** "validation" begins with a letter no placeholder contains, so the probe cannot forge a placeholder. */
  lemma {:induction false} ReplaceStarts(s: string, needle: string, w: string)
    requires needle != "" && w <= Replace(s, needle, VALIDATION) && 'v' !in w
    ensures w <= s && Replace(s, needle, VALIDATION)[|w|..] == Replace(s[|w|..], needle, VALIDATION)
    decreases |w|
  {
    if w != "" {
      var r := Replace(s, needle, VALIDATION);
      assert r[0] == w[0];
      assert w[0] in w;
      assert !(needle <= s);
      assert r[1..] == Replace(s[1..], needle, VALIDATION);
      assert w[1..] <= r[1..];
      ReplaceStarts(s[1..], needle, w[1..]);
      assert s[1..][|w| - 1..] == s[|w|..] && r[1..][|w| - 1..] == r[|w|..];
    } else {
      assert s[0..] == s;
    }
  }

  /** If replacing `v` leaves a clean text, the text was clean with `v` allowed. */
  lemma {:induction false} ReplaceReflectsClean(s: string, v: Placeholder, vs: set<Placeholder>)
    requires Clean(Replace(s, Name(v), VALIDATION), vs)
    ensures Clean(s, vs + {v})
    decreases |s|
  {
    if s != "" {
      FrontIs(s, v);
      var r := Replace(s, Name(v), VALIDATION);
      if Front(s) == Some(v) {
        PlainPrefixClean(VALIDATION, Replace(s[|Name(v)|..], Name(v), VALIDATION), vs);
        ReplaceReflectsClean(s[|Name(v)|..], v, vs);
      } else if Front(r).Some? {
        var u := Front(r).value;
        ReplaceStarts(s, Name(v), Name(u));
        FrontIs(s, u);
        ReplaceReflectsClean(s[|Name(u)|..], v, vs);
      } else {
        assert r[1..] == Replace(s[1..], Name(v), VALIDATION);
        FrontBrace(s);
        ReplaceReflectsClean(s[1..], v, vs);
      }
    }
  }

  lemma {:induction false} PlainIsClean(s: string)
    requires Plain(s)
    ensures Clean(s, {})
    decreases |s|
  {
    if s != "" {
      FrontBrace(s);
      PlainIsClean(s[1..]);
    }
  }

  lemma {:induction false} ShapePlain(s: string, start: bool)
    requires Shape(s, start)
    ensures Plain(s)
    decreases |s|
  {
    if s != "" {
      ShapePlain(s[1..], !start && s[0] == '/');
    }
  }

  /** Every brace of an admissible template belongs to a placeholder. */
  lemma AdmissibleIsClean(template: string)
    requires Admissible(template)
    ensures Clean(template, ALL)
  {
    var s1 := Replace(template, Name(Project), VALIDATION);
    var s2 := Replace(s1, Name(Username), VALIDATION);
    var s3 := Replace(s2, Name(Organization), VALIDATION);
    var s4 := Replace(s3, Name(Subject), VALIDATION);
    SafePathShape(s4);
    ShapePlain(s4, true);
    PlainIsClean(s4);
    assert ALL == {Subject, Organization, Username} + {Project};
    assert {Subject, Organization, Username} == {Subject, Organization} + {Username};
    assert {Subject, Organization} == {Subject} + {Organization};
    assert {Subject} == {} + {Subject};
    ReplaceReflectsClean(s3, Subject, {});
    ReplaceReflectsClean(s2, Organization, {Subject});
    ReplaceReflectsClean(s1, Username, {Subject, Organization});
    ReplaceReflectsClean(template, Project, {Subject, Organization, Username});
  }

  /** The probe is itself the one-pass substitution by "validation". */
  lemma ProbeMeans(template: string)
    requires Clean(template, ALL)
    ensures Probe(template) == Substitute(template, _ => VALIDATION)
  {
    var f: Placeholder -> string := _ => VALIDATION;
    var s1 := Replace(template, Name(Project), VALIDATION);
    var s2 := Replace(s1, Name(Username), VALIDATION);
    var s3 := Replace(s2, Name(Organization), VALIDATION);
    ReplaceCleans(template, Project, VALIDATION, ALL);
    ReplaceKeepsMeaning(template, Project, VALIDATION, ALL, f);
    ReplaceCleans(s1, Username, VALIDATION, ALL - {Project});
    ReplaceKeepsMeaning(s1, Username, VALIDATION, ALL - {Project}, f);
    ReplaceCleans(s2, Organization, VALIDATION, ALL - {Project} - {Username});
    ReplaceKeepsMeaning(s2, Organization, VALIDATION, ALL - {Project} - {Username}, f);
    ReplaceCleans(s3, Subject, VALIDATION, ALL - {Project} - {Username} - {Organization});
    ReplaceKeepsMeaning(s3, Subject, VALIDATION, ALL - {Project} - {Username} - {Organization}, f);
    assert ALL - {Project} - {Username} - {Organization} - {Subject} == {};
    NothingLeft(Probe(template), f);
  }

  /** The path shape of a template does not depend on which well-formed values are substituted. */
  lemma {:induction false} ShapeIndependent(s: string, f: Placeholder -> string, g: Placeholder -> string, start: bool)
    requires forall v :: Wellformed(f(v)) && Wellformed(g(v))
    ensures Shape(Substitute(s, f), start) == Shape(Substitute(s, g), start)
    decreases |s|
  {
    if s != "" {
      match Front(s)
      case Some(v) =>
        var tail := s[|Name(v)|..];
        ShapeIndependent(tail, f, g, false);
        ShapeSegment(f(v), Substitute(tail, f), start);
        ShapeSegment(g(v), Substitute(tail, g), start);
      case None =>
        ShapeIndependent(s[1..], f, g, !start && s[0] == '/');
        assert ([s[0]] + Substitute(s[1..], f))[1..] == Substitute(s[1..], f);
        assert ([s[0]] + Substitute(s[1..], g))[1..] == Substitute(s[1..], g);
    }
  }

  predicate SomeSegmentTooLong(path: string) {
    exists i | 0 <= i < |Split(path, '/')| :: |Split(path, '/')[i]| > 128
  }

  /** A placeholder the template uses has no value, or an unsafe one. */
  ghost predicate UsesUnusable(template: string, values: Values) {
    Blocked(template, ORDER, values)
  }

  lemma AdmissibleFill(template: string, values: Values)
    requires Admissible(template)
    ensures Fill(template, ORDER, values) ==
            if UsesUnusable(template, values) then None else Some(Substitute(template, Choose(values)))
  {
    AdmissibleIsClean(template);
    FillMeans(template, ORDER, values, ALL);
  }

  /** Whatever safe values are substituted, an admissible template keeps the shape of a path. */
  lemma AdmissibleShape(template: string, values: Values)
    requires Admissible(template)
    ensures Shape(Substitute(template, Choose(values)), true)
  {
    var f := Choose(values);
    forall v
      ensures Wellformed(f(v)) && Wellformed(VALIDATION)
    {
      if Usable(values, v) {
        SafeIsPlain(values(v).value);
      }
    }
    AdmissibleIsClean(template);
    ProbeMeans(template);
    ShapeIndependent(template, f, _ => VALIDATION, true);
    SafePathShape(Probe(template));
  }

  /**
   For every template the compiler keeps, rendering is simultaneous substitution: it is skipped only
   for a template that needs a project in a scope that has none, it fails only for a used value that
   is missing or unsafe or for a segment over 128 bytes, and otherwise it is the one-pass result.
   */
  lemma RenderingIsSubstitution(template: string, values: Values)
    requires Admissible(template)
    ensures Render(template, values) ==
            var path := Substitute(template, Choose(values));
            if values(Project).None? && Contains(template, Name(Project)) then Skipped
            else if UsesUnusable(template, values) || SomeSegmentTooLong(path) then Invalid
            else Rendered(path)
  {
    AdmissibleFill(template, values);
    AdmissibleShape(template, values);
    SafePathShape(Substitute(template, Choose(values)));
  }
}
