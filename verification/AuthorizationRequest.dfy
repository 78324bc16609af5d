/**
 Admission of OAuth authorization requests (section 4.1.1 of RFC 6749, with the PKCE parameters of
 section 4.3 of RFC 7636 and the resource parameter of section 2 of RFC 8707) and revalidation of the
 stored canonical form. URI parsing, challenge syntax and the SDK's authorization machine are parameters.
 */
module AuthorizationRequest {
  import opened Common
  import opened Text
  import opened Utf8

  datatype Error =
    | InvalidRequest | InvalidClient | InvalidRedirect | InvalidScope | LoginRequired | InvalidTarget | MalformedStored

  datatype Result<+T> = Ok(value: T) | Err(error: Error)

  datatype Input = Input(clientId: string, redirectUri: string, responseType: string, scope: string, state: string,
                         nonce: string, challenge: string, challengeMethod: string, responseMode: Option<string>,
                         resources: seq<string>, prompts: seq<string>)

  /** The stored canonical form. */
  datatype Fields = Fields(format: string, phase: string, clientId: string, apiAudience: string,
                           resource: Option<string>,
                           redirectUri: string, state: string, scopes: seq<string>, responseMode: string, nonce: string,
                           challenge: string, challengeMethod: string)

  datatype Policy = Policy(cliClientId: string, apiAudience: string, acceptedResources: seq<string>,
                           parameterBytes: nat)

  /** A current client: its id and the redirect URIs it admits. */
  datatype Client = Client(id: string, admitsRedirect: string -> bool)

  /** What the SDK's authorization machine is driven with. */
  datatype SdkRequest = SdkRequest(clientId: string, redirectUri: string, responseType: string, scope: string,
                                   state: string,
                                   challenge: string, challengeMethod: string)

  /** The libraries: syntax predicates, and the SDK machine as its error, if any. */
  datatype Library = Library(clientIdSyntax: string -> bool, validResource: string -> bool,
                             canonicalChallenge: string -> bool,
                             sdk: SdkRequest -> Option<Error>) {
    /** The machine accepts the code flow only. */
    ghost predicate CodeOnly() {
      forall r :: sdk(r).None? ==> r.responseType == "code"
    }
  }

  const FORMAT := "rust-broker-authorization-v1"

  // ---------------------------------------------------------------- sizes

  /** Total bytes of the parts, one delimiter each. */
  function Weight(parts: seq<string>): nat {
    if parts == [] then 0 else Bytes(parts[0]) + 1 + Weight(parts[1..])
  }

  function Scalars(i: Input): seq<string> {
    [i.clientId, i.redirectUri, i.responseType, i.scope, i.state, i.nonce, i.challenge, i.challengeMethod,
     if i.responseMode.Some? then i.responseMode.value else ""]
  }

  function Sum(parts: seq<string>): nat {
    if parts == [] then 0 else Bytes(parts[0]) + Sum(parts[1..])
  }

  /** What a request counts against the parameter limit. */
  function Total(i: Input): nat { Sum(Scalars(i)) + Weight(i.resources) + Weight(i.prompts) }

  /** `bound`: the running total, checked after every parameter, exceeds the limit exactly if the sum does. */
  method Bound(p: Policy, i: Input) returns (ok: bool)
    ensures ok <==> Total(i) <= p.parameterBytes
  {
    var total: nat := 0;
    var scalars := Scalars(i);
    for n := 0 to |scalars|
      invariant total + Sum(scalars[n..]) == Sum(scalars)
      invariant total <= p.parameterBytes
    {
      SumFrom(scalars, n);
      if Bytes(scalars[n]) > p.parameterBytes { return false; }
      total := total + Bytes(scalars[n]);
      if total > p.parameterBytes { return false; }
    }
    var lists := i.resources + i.prompts;
    WeightConcat(i.resources, i.prompts);
    for n := 0 to |lists|
      invariant total + Weight(lists[n..]) == Total(i)
      invariant total <= p.parameterBytes
    {
      assert lists[n..][1..] == lists[n + 1..];
      if Bytes(lists[n]) > p.parameterBytes { return false; }
      total := total + Bytes(lists[n]) + 1;
      if total > p.parameterBytes { return false; }
    }
    return true;
  }

  lemma SumFrom(parts: seq<string>, n: nat)
    requires n < |parts|
    ensures Sum(parts[n..]) == Bytes(parts[n]) + Sum(parts[n + 1..])
  {
    assert parts[n..][1..] == parts[n + 1..];
  }

  lemma {:induction false} WeightConcat(a: seq<string>, b: seq<string>)
    ensures Weight(a + b) == Weight(a) + Weight(b)
    decreases |a|
  {
    if a == [] {
      assert a + b == b;
    } else {
      assert (a + b)[1..] == a[1..] + b;
      WeightConcat(a[1..], b);
    }
  }

  // ---------------------------------------------------------------- admission

  function NonEmpty(parts: seq<string>): seq<string> {
    if parts == [] then [] else (if parts[0] == "" then [] else [parts[0]]) + NonEmpty(parts[1..])
  }

  predicate KnownScope(s: string) {
    s == "openid" || s == "profile" || s == "email" || s == "phone" || s == "address" || s == "offline_access"
  }

  /** Known scopes in order of first appearance, after those already kept. */
  function Collect(words: seq<string>, kept: seq<string>): seq<string>
    decreases |words|
  {
    if words == [] then kept
    else Collect(words[1..], if KnownScope(words[0]) && words[0] !in kept then kept + [words[0]] else kept)
  }

  function ScopesOf(scope: string): seq<string> { Collect(NonEmpty(Split(scope, ' ')), []) }

  /** The one target resource among the parameters; `None` when they are not acceptable. */
  function Pick(lib: Library, p: Policy, resources: seq<string>, chosen: Option<string>): Option<Option<string>>
    decreases |resources|
  {
    if resources == [] then Some(chosen)
    else
      var value := Trim(resources[0]);
      if value == "" then Pick(lib, p, resources[1..], chosen)
      else if chosen.Some? || !lib.validResource(value) || value !in p.acceptedResources then None
      else Pick(lib, p, resources[1..], Some(value))
  }

  function ResponseMode(mode: Option<string>): string {
    if mode == Some("fragment") then "fragment" else if mode == Some("form_post") then "form_post" else "query"
  }

  /** The checks before the resource loop, in the source's order. */
  function Screen(lib: Library, p: Policy, i: Input, client: Client): Option<Error> {
    if Total(i) > p.parameterBytes then Some(InvalidRequest)
    else if !lib.clientIdSyntax(i.clientId) || i.clientId != client.id then Some(InvalidClient)
    else if Trim(i.state) == "" || Bytes(i.state) > 512 || Trim(i.nonce) == "" then Some(InvalidRequest)
    else if "none" in i.prompts then Some(if |i.prompts| == 1 then LoginRequired else InvalidRequest)
    else if i.challengeMethod != "S256" || !lib.canonicalChallenge(i.challenge) then Some(InvalidRequest)
    else None
  }

  function Sdk(i: Input, scope: string): SdkRequest {
    SdkRequest(i.clientId, i.redirectUri, i.responseType, scope, i.state, i.challenge, i.challengeMethod)
  }

  function Pending(p: Policy, i: Input, resource: Option<string>, scopes: seq<string>): Fields {
    Fields(FORMAT, "pending", i.clientId, p.apiAudience, resource, i.redirectUri, i.state, scopes,
           ResponseMode(i.responseMode), i.nonce, i.challenge, i.challengeMethod)
  }

  /** `OidcAuthorizationPolicy::admit`. */
  function Admit(lib: Library, p: Policy, i: Input, client: Client): Result<Fields> {
    var screened := Screen(lib, p, i, client);
    if screened.Some? then Err(screened.value)
    else
      var picked := Pick(lib, p, i.resources, None);
      if picked.None? then Err(InvalidTarget)
      else if i.clientId != p.cliClientId && picked.value.None? then Err(InvalidTarget)
      else if !client.admitsRedirect(i.redirectUri) then Err(InvalidRedirect)
      else
        var scopes := ScopesOf(i.scope);
        if "openid" !in scopes then Err(InvalidScope)
        else
          var failure := lib.sdk(Sdk(i, Join(scopes, ' ')));
          if failure.Some? then Err(failure.value) else Ok(Pending(p, i, picked.value, scopes))
  }

  /** `admit` with its loops over resources and scopes. */
  method AdmitLoop(lib: Library, p: Policy, i: Input, client: Client) returns (r: Result<Fields>)
    ensures r == Admit(lib, p, i, client)
  {
    var fits := Bound(p, i);
    if !fits { return Err(InvalidRequest); }
    if !lib.clientIdSyntax(i.clientId) || i.clientId != client.id { return Err(InvalidClient); }
    if Trim(i.state) == "" || Bytes(i.state) > 512 || Trim(i.nonce) == "" { return Err(InvalidRequest); }
    if "none" in i.prompts { return Err(if |i.prompts| == 1 then LoginRequired else InvalidRequest); }
    if i.challengeMethod != "S256" || !lib.canonicalChallenge(i.challenge) { return Err(InvalidRequest); }
    var resource: Option<string> := None;
    for n := 0 to |i.resources|
      invariant Pick(lib, p, i.resources, None) == Pick(lib, p, i.resources[n..], resource)
    {
      assert i.resources[n..][1..] == i.resources[n + 1..];
      var value := Trim(i.resources[n]);
      if value == "" { continue; }
      if resource.Some? || !lib.validResource(value) || value !in p.acceptedResources { return Err(InvalidTarget); }
      resource := Some(value);
    }
    if i.clientId != p.cliClientId && resource.None? { return Err(InvalidTarget); }
    if !client.admitsRedirect(i.redirectUri) { return Err(InvalidRedirect); }
    var words, scopes := NonEmpty(Split(i.scope, ' ')), [];
    for n := 0 to |words|
      invariant Collect(words, []) == Collect(words[n..], scopes)
    {
      assert words[n..][1..] == words[n + 1..];
      if KnownScope(words[n]) && words[n] !in scopes {
        scopes := scopes + [words[n]];
      }
    }
    if "openid" !in scopes { return Err(InvalidScope); }
    var failure := lib.sdk(Sdk(i, Join(scopes, ' ')));
    if failure.Some? { return Err(failure.value); }
    return Ok(Pending(p, i, resource, scopes));
  }

  // ---------------------------------------------------------------- revalidation

  /** The request a stored form stands for. */
  function Canonical(f: Fields): Input {
    Input(f.clientId, f.redirectUri, "code", Join(f.scopes, ' '), f.state, f.nonce, f.challenge, f.challengeMethod,
          Some(f.responseMode), if f.resource.Some? then [f.resource.value] else [], [])
  }

  /** `revalidate_phase`: readmit the canonical request and compare. */
  function Revalidate(lib: Library, p: Policy, f: Fields, client: Client, phase: string): Result<()> {
    if f.format != FORMAT || f.phase != phase || f.apiAudience != p.apiAudience then Err(MalformedStored)
    else
      var admitted := Admit(lib, p, Canonical(f), client);
      if admitted.Err? || admitted.value.(phase := phase) != f then Err(MalformedStored) else Ok(())
  }

  // ---------------------------------------------------------------- what the loops select

  lemma {:induction false} CollectMeans(words: seq<string>, kept: seq<string>, w: string)
    ensures w in Collect(words, kept) <==> w in kept || (KnownScope(w) && w in words)
    decreases |words|
  {
    if words != [] {
      assert w in words <==> w == words[0] || w in words[1..];
      CollectMeans(words[1..], if KnownScope(words[0]) && words[0] !in kept then kept + [words[0]] else kept, w);
    }
  }

  lemma {:induction false} NonEmptyMeans(parts: seq<string>, w: string)
    ensures w in NonEmpty(parts) <==> w != "" && w in parts
    decreases |parts|
  {
    if parts != [] {
      assert w in parts <==> w == parts[0] || w in parts[1..];
      NonEmptyMeans(parts[1..], w);
    }
  }

  /** The stored scopes are exactly the known space-separated words of the scope parameter. */
  lemma ScopesMean(scope: string, w: string)
    ensures w in ScopesOf(scope) <==> KnownScope(w) && w in Split(scope, ' ')
  {
    NonEmptyMeans(Split(scope, ' '), w);
    CollectMeans(NonEmpty(Split(scope, ' ')), [], w);
  }

  predicate Blank(resources: seq<string>) {
    forall i | 0 <= i < |resources| :: Trim(resources[i]) == ""
  }

  /** The parameter at `n` is acceptable and the only one that is not blank. */
  predicate Sole(lib: Library, p: Policy, resources: seq<string>, n: int, value: string) {
    && 0 <= n < |resources|
    && Trim(resources[n]) == value != "" && lib.validResource(value) && value in p.acceptedResources
    && forall i | 0 <= i < |resources| && i != n :: Trim(resources[i]) == ""
  }

  lemma {:induction false} PickAfterChoice(lib: Library, p: Policy, resources: seq<string>, value: string)
    ensures Pick(lib, p, resources, Some(value)) == if Blank(resources) then Some(Some(value)) else None
    decreases |resources|
  {
    if resources != [] {
      PickAfterChoice(lib, p, resources[1..], value);
      assert resources == [resources[0]] + resources[1..];
    }
  }

  /** A resource is stored exactly if it is the one nonblank parameter, and none exactly if all are blank. */
  lemma {:induction false} PickMeans(lib: Library, p: Policy, resources: seq<string>, value: string)
    ensures Pick(lib, p, resources, None) == Some(None) <==> Blank(resources)
    ensures Pick(lib, p, resources, None) == Some(Some(value)) <==> exists n :: Sole(lib, p, resources, n, value)
    decreases |resources|
  {
    if resources != [] {
      var first, rest := Trim(resources[0]), resources[1..];
      assert resources == [resources[0]] + rest;
      if first == "" {
        PickMeans(lib, p, rest, value);
        SoleShift(lib, p, resources, value);
      } else {
        PickAfterChoice(lib, p, rest, first);
        assert forall n | Sole(lib, p, resources, n, value) :: n == 0;
        assert Sole(lib, p, resources, 0, value) <==>
               first == value && lib.validResource(first) && first in p.acceptedResources && Blank(rest);
      }
    }
  }

  /** A blank first parameter shifts the sole one by one. */
  lemma SoleShift(lib: Library, p: Policy, resources: seq<string>, value: string)
    requires resources != [] && Trim(resources[0]) == ""
    ensures (exists n :: Sole(lib, p, resources, n, value)) <==> exists n :: Sole(lib, p, resources[1..], n, value)
  {
    var rest := resources[1..];
    if n :| Sole(lib, p, resources, n, value) {
      assert Sole(lib, p, rest, n - 1, value);
    }
    if n :| Sole(lib, p, rest, n, value) {
      assert resources == [resources[0]] + rest;
      assert Sole(lib, p, resources, n + 1, value);
    }
  }

  // ---------------------------------------------------------------- canonical parts are fixed points

  predicate CanonicalScopes(scopes: seq<string>) {
    && (forall i | 0 <= i < |scopes| :: KnownScope(scopes[i]))
    && forall i, j | 0 <= i < j < |scopes| :: scopes[i] != scopes[j]
  }

  lemma {:induction false} CollectIsCanonical(words: seq<string>, kept: seq<string>)
    requires CanonicalScopes(kept)
    ensures CanonicalScopes(Collect(words, kept))
    decreases |words|
  {
    if words != [] {
      CollectIsCanonical(words[1..], if KnownScope(words[0]) && words[0] !in kept then kept + [words[0]] else kept);
    }
  }

  lemma {:induction false} CollectKeeps(words: seq<string>, kept: seq<string>)
    requires CanonicalScopes(kept + words)
    ensures Collect(words, kept) == kept + words
    decreases |words|
  {
    if words == [] {
      assert kept + words == kept;
    } else {
      assert (kept + words)[|kept|] == words[0];
      assert forall i | 0 <= i < |kept| :: (kept + words)[i] == kept[i];
      assert kept + [words[0]] + words[1..] == kept + words;
      CollectKeeps(words[1..], kept + [words[0]]);
    }
  }

  lemma {:induction false} NonEmptyKeeps(words: seq<string>)
    requires forall i | 0 <= i < |words| :: words[i] != ""
    ensures NonEmpty(words) == words
    decreases |words|
  {
    if words != [] {
      NonEmptyKeeps(words[1..]);
    }
  }

  lemma KnownScopesArePlain(s: string)
    requires KnownScope(s)
    ensures s != "" && ' ' !in s
  {
  }

  /** Wherever a kept scope stands among the words, the scopes kept before it stand earlier. */
  predicate FirstAppearance(words: seq<string>, scopes: seq<string>) {
    forall i, j, n | 0 <= i < j < |scopes| && 0 <= n < |words| && words[n] == scopes[j] :: scopes[i] in words[..n]
  }

  lemma {:induction false} CollectInOrder(done: seq<string>, words: seq<string>, kept: seq<string>)
    requires forall w | w in kept :: w in done
    requires forall w | w in done && KnownScope(w) :: w in kept
    requires FirstAppearance(done + words, kept)
    ensures FirstAppearance(done + words, Collect(words, kept))
    decreases |words|
  {
    if words != [] {
      var all, w := done + words, words[0];
      assert done + [w] + words[1..] == all;
      var more := if KnownScope(w) && w !in kept then kept + [w] else kept;
      forall i, j, n | 0 <= i < j < |more| && 0 <= n < |all| && all[n] == more[j] ensures more[i] in all[..n] {
        assert more[i] == kept[i];
        if j == |kept| {
          assert forall m | 0 <= m < |done| :: all[m] == done[m] != w;
          assert kept[i] in done && all[..n] == done + words[..n - |done|];
        } else {
          assert more[j] == kept[j];
        }
      }
      CollectInOrder(done + [w], words[1..], more);
    }
  }

  /** Joining canonical scopes and reading them again gives them back. */
  lemma ScopesRoundTrip(scopes: seq<string>)
    requires CanonicalScopes(scopes) && scopes != []
    ensures ScopesOf(Join(scopes, ' ')) == scopes
  {
    forall i | 0 <= i < |scopes| ensures scopes[i] != "" && ' ' !in scopes[i] {
      KnownScopesArePlain(scopes[i]);
    }
    SplitJoin(scopes, ' ');
    NonEmptyKeeps(scopes);
    assert [] + scopes == scopes;
    CollectKeeps(scopes, []);
  }

  /** A picked resource is a trimmed, acceptable parameter that weighs no more than the parameters did. */
  lemma {:induction false} PickedResource(lib: Library, p: Policy, resources: seq<string>, chosen: Option<string>)
    requires Pick(lib, p, resources, chosen).Some?
    ensures var r := Pick(lib, p, resources, chosen).value;
            if r == chosen then true
            else chosen.None? && r.Some? && Trim(r.value) == r.value != "" && lib.validResource(r.value)
                 && r.value in p.acceptedResources && Bytes(r.value) + 1 <= Weight(resources)
    decreases |resources|
  {
    if resources != [] {
      var value := Trim(resources[0]);
      TrimIsTrimmed(resources[0]);
      TrimIsTrimmed(value);
      TrimBytes(resources[0]);
      PickedResource(lib, p, resources[1..], if value == "" then chosen else Some(value));
    }
  }

  // ---------------------------------------------------------------- sizes of canonical parts

  lemma {:induction false} BytesConcat(a: string, b: string)
    ensures Bytes(a + b) == Bytes(a) + Bytes(b)
    decreases |a|
  {
    if a == "" {
      assert a + b == b;
    } else {
      assert (a + b)[1..] == a[1..] + b;
      BytesConcat(a[1..], b);
    }
  }

  lemma {:induction false} TrimStartBytes(s: string)
    ensures Bytes(TrimStart(s)) <= Bytes(s)
    decreases |s|
  {
    if s != "" && Whitespace(s[0]) {
      TrimStartBytes(s[1..]);
    }
  }

  lemma TrimBytes(s: string)
    ensures Bytes(Trim(s)) <= Bytes(s)
  {
    TrimStartBytes(s);
    var t := TrimStart(s);
    TrimEndEnds(t);
    var e := TrimEnd(t);
    assert t == e + t[|e|..];
    BytesConcat(e, t[|e|..]);
  }

  lemma {:induction false} SplitWeight(s: string)
    ensures Weight(Split(s, ' ')) == Bytes(s) + 1
    decreases |s|
  {
    if s != "" {
      SplitWeight(s[1..]);
      var rest := Split(s[1..], ' ');
      if s[0] == ' ' {
        assert Split(s, ' ')[1..] == rest;
      } else {
        assert Split(s, ' ')[1..] == rest[1..];
        assert ([s[0]] + rest[0])[1..] == rest[0];
      }
    }
  }

  lemma {:induction false} JoinWeight(parts: seq<string>)
    requires parts != []
    ensures Bytes(Join(parts, ' ')) + 1 == Weight(parts)
    decreases |parts|
  {
    if |parts| > 1 {
      JoinWeight(parts[1..]);
      BytesConcat(parts[0] + [' '], Join(parts[1..], ' '));
      BytesConcat(parts[0], [' ']);
    }
  }

  lemma {:induction false} NonEmptyWeight(parts: seq<string>)
    ensures Weight(NonEmpty(parts)) <= Weight(parts)
    decreases |parts|
  {
    if parts != [] {
      NonEmptyWeight(parts[1..]);
      var rest := NonEmpty(parts[1..]);
      if parts[0] != "" {
        assert ([parts[0]] + rest)[1..] == rest;
      } else {
        assert [] + rest == rest;
      }
    }
  }

  lemma {:induction false} CollectWeight(words: seq<string>, kept: seq<string>)
    ensures Weight(Collect(words, kept)) <= Weight(kept) + Weight(words)
    decreases |words|
  {
    if words != [] {
      var more := if KnownScope(words[0]) && words[0] !in kept then kept + [words[0]] else kept;
      WeightConcat(kept, [words[0]]);
      CollectWeight(words[1..], more);
    }
  }

  /** Canonical scopes are no longer than the scope parameter. */
  lemma ScopesShrink(scope: string)
    requires ScopesOf(scope) != []
    ensures Bytes(Join(ScopesOf(scope), ' ')) <= Bytes(scope)
  {
    SplitWeight(scope);
    NonEmptyWeight(Split(scope, ' '));
    CollectWeight(NonEmpty(Split(scope, ' ')), []);
    JoinWeight(ScopesOf(scope));
  }

  // ---------------------------------------------------------------- admission is a fixed point

  lemma ResponseModeGrows(mode: Option<string>)
    ensures Bytes(ResponseMode(mode)) <= (if mode.Some? then Bytes(mode.value) else 0) + 5
  {
    QueryBytes();
  }

  lemma QueryBytes()
    ensures Bytes("query") == 5
  {
    assert "query"[1..] == "uery" && "uery"[1..] == "ery" && "ery"[1..] == "ry" && "ry"[1..] == "y" && "y"[1..] == "";
  }

  lemma SumScalars(i: Input)
    ensures Sum(Scalars(i)) ==
            Bytes(i.clientId) + Bytes(i.redirectUri) + Bytes(i.responseType) + Bytes(i.scope) + Bytes(i.state)
              + Bytes(i.nonce)
            + Bytes(i.challenge) + Bytes(i.challengeMethod)
              + (if i.responseMode.Some? then Bytes(i.responseMode.value) else 0)
  {
    var s := Scalars(i);
    assert s[0..] == s && s[9..] == [];
    SumFrom(s, 0); SumFrom(s, 1); SumFrom(s, 2); SumFrom(s, 3); SumFrom(s, 4);
    SumFrom(s, 5); SumFrom(s, 6); SumFrom(s, 7); SumFrom(s, 8);
  }

  lemma AdmitUnfolds(lib: Library, p: Policy, i: Input, client: Client, f: Fields)
    ensures Admit(lib, p, i, client) == Ok(f) <==>
            && Screen(lib, p, i, client).None?
            && Pick(lib, p, i.resources, None) == Some(f.resource) && (i.clientId == p.cliClientId || f.resource.Some?)
            && client.admitsRedirect(i.redirectUri)
            && f.scopes == ScopesOf(i.scope) && "openid" in f.scopes
            && lib.sdk(Sdk(i, Join(f.scopes, ' '))).None?
            && f == Pending(p, i, f.resource, f.scopes)
  {
  }

  /** No resource is named and the client needs none, or exactly one acceptable resource is. */
  ghost predicate TargetFits(lib: Library, p: Policy, i: Input) {
    (Blank(i.resources) && i.clientId == p.cliClientId) || exists n, value :: Sole(lib, p, i.resources, n, value)
  }

  lemma TargetMeans(lib: Library, p: Policy, i: Input)
    ensures var picked := Pick(lib, p, i.resources, None);
            TargetFits(lib, p, i) <==> picked.Some? && (i.clientId == p.cliClientId || picked.value.Some?)
  {
    var picked := Pick(lib, p, i.resources, None);
    PickMeans(lib, p, i.resources, if picked.Some? && picked.value.Some? then picked.value.value else "");
    if n, value :| Sole(lib, p, i.resources, n, value) {
      PickMeans(lib, p, i.resources, value);
    }
  }

  /** Which requests are admitted, in terms of their parameters alone. */
  lemma AdmissionMeans(lib: Library, p: Policy, i: Input, client: Client)
    ensures Admit(lib, p, i, client).Ok? <==>
            && Total(i) <= p.parameterBytes
            && lib.clientIdSyntax(i.clientId) && i.clientId == client.id && client.admitsRedirect(i.redirectUri)
            && Trim(i.state) != "" && Bytes(i.state) <= 512 && Trim(i.nonce) != "" && "none" !in i.prompts
            && i.challengeMethod == "S256" && lib.canonicalChallenge(i.challenge)
            && TargetFits(lib, p, i) && "openid" in Split(i.scope, ' ')
            && lib.sdk(Sdk(i, Join(ScopesOf(i.scope), ' '))).None?
  {
    TargetMeans(lib, p, i);
    ScopesMean(i.scope, "openid");
  }

  /** What is stored: the one resource named, the known scope words without repetition, and the rest as given. */
  lemma AdmittedRecords(lib: Library, p: Policy, i: Input, client: Client, f: Fields, value: string, word: string)
    requires Admit(lib, p, i, client) == Ok(f)
    ensures f.resource == Some(value) <==> exists n :: Sole(lib, p, i.resources, n, value)
    ensures f.resource == None <==> Blank(i.resources)
    ensures word in f.scopes <==> KnownScope(word) && word in Split(i.scope, ' ')
    ensures CanonicalScopes(f.scopes) && FirstAppearance(NonEmpty(Split(i.scope, ' ')), f.scopes)
    ensures f.responseMode == "fragment" <==> i.responseMode == Some("fragment")
    ensures f.responseMode == "form_post" <==> i.responseMode == Some("form_post")
    ensures f.responseMode == "query" <==>
            i.responseMode.None? || (i.responseMode.value != "fragment" && i.responseMode.value != "form_post")
    ensures f.format == "rust-broker-authorization-v1" && f.phase == "pending"
    ensures f.clientId == i.clientId == client.id && f.apiAudience == p.apiAudience
    ensures f.redirectUri == i.redirectUri && f.state == i.state && f.nonce == i.nonce
    ensures f.challenge == i.challenge && f.challengeMethod == i.challengeMethod == "S256"
  {
    AdmitUnfolds(lib, p, i, client, f);
    PickMeans(lib, p, i.resources, value);
    ScopesMean(i.scope, word);
    CollectIsCanonical(NonEmpty(Split(i.scope, ' ')), []);
    CollectInOrder([], NonEmpty(Split(i.scope, ' ')), []);
    assert [] + NonEmpty(Split(i.scope, ' ')) == NonEmpty(Split(i.scope, ' '));
  }

  /** The requirements on a request, in the order they are put to it. */
  ghost predicate Requirement(lib: Library, p: Policy, i: Input, client: Client, k: nat) {
    match k
    case 0 => Total(i) <= p.parameterBytes
    case 1 => lib.clientIdSyntax(i.clientId) && i.clientId == client.id
    case 2 => Trim(i.state) != "" && Bytes(i.state) <= 512 && Trim(i.nonce) != ""
    case 3 => "none" !in i.prompts
    case 4 => i.challengeMethod == "S256" && lib.canonicalChallenge(i.challenge)
    case 5 => TargetFits(lib, p, i)
    case 6 => client.admitsRedirect(i.redirectUri)
    case 7 => "openid" in Split(i.scope, ' ')
    case _ => lib.sdk(Sdk(i, Join(ScopesOf(i.scope), ' '))).None?
  }

  /** The first requirement a request fails decides its error. */
  lemma RefusalMeans(lib: Library, p: Policy, i: Input, client: Client, k: nat)
    requires k <= 8 && !Requirement(lib, p, i, client, k)
    requires forall j: nat | j < k :: Requirement(lib, p, i, client, j)
    ensures Admit(lib, p, i, client) == Err(
              match k
              case 1 => InvalidClient
              case 3 => if i.prompts == ["none"] then LoginRequired else InvalidRequest
              case 5 => InvalidTarget
              case 6 => InvalidRedirect
              case 7 => InvalidScope
              case 8 => lib.sdk(Sdk(i, Join(ScopesOf(i.scope), ' '))).value
              case _ => InvalidRequest)
  {
    var met := (j: nat) => Requirement(lib, p, i, client, j);
    assert k > 0 ==> met(0);
    assert k > 1 ==> met(1);
    assert k > 2 ==> met(2);
    assert k > 3 ==> met(3);
    assert k > 4 ==> met(4);
    assert k > 5 ==> met(5);
    assert k > 6 ==> met(6);
    assert k > 7 ==> met(7);
    TargetMeans(lib, p, i);
    ScopesMean(i.scope, "openid");
  }

  lemma ScreenAgain(lib: Library, p: Policy, i: Input, client: Client, f: Fields)
    requires Screen(lib, p, i, client).None? && f == Pending(p, i, f.resource, f.scopes)
    ensures Screen(lib, p, Canonical(f), client)
         == if Total(Canonical(f)) <= p.parameterBytes then None else Some(InvalidRequest)
  {
  }

  /** Readmitting the canonical request of an admitted one reproduces it, if its size is admitted at all. */
  lemma CanonicalReadmits(lib: Library, p: Policy, i: Input, client: Client, f: Fields)
    requires lib.CodeOnly() && Admit(lib, p, i, client) == Ok(f)
    ensures Admit(lib, p, Canonical(f), client)
         == if Total(Canonical(f)) <= p.parameterBytes then Ok(f) else Err(InvalidRequest)
  {
    AdmitUnfolds(lib, p, i, client, f);
    ScreenAgain(lib, p, i, client, f);
    CollectIsCanonical(NonEmpty(Split(i.scope, ' ')), []);
    ScopesRoundTrip(f.scopes);
    PickedResource(lib, p, i.resources, None);
    PickCanonical(lib, p, f.resource);
    assert Sdk(Canonical(f), Join(f.scopes, ' ')) == Sdk(i, Join(f.scopes, ' '));
    if Total(Canonical(f)) <= p.parameterBytes {
      AdmitUnfolds(lib, p, Canonical(f), client, f);
    }
  }

  /** Only the response mode can make the canonical request larger, and by at most five bytes. */
  lemma CanonicalGrowsByFive(lib: Library, p: Policy, i: Input, client: Client, f: Fields)
    requires lib.CodeOnly() && Admit(lib, p, i, client) == Ok(f)
    ensures Total(Canonical(f)) <= Total(i) + 5
  {
    AdmitUnfolds(lib, p, i, client, f);
    PickedResource(lib, p, i.resources, None);
    assert Weight(Canonical(f).resources) <= Weight(i.resources);
    ScopesShrink(i.scope);
    ResponseModeGrows(i.responseMode);
    SumScalars(i);
    SumScalars(Canonical(f));
  }

  lemma PickCanonical(lib: Library, p: Policy, resource: Option<string>)
    requires resource.Some? ==> Trim(resource.value) == resource.value != ""
                                && lib.validResource(resource.value) && resource.value in p.acceptedResources
    ensures Pick(lib, p, if resource.Some? then [resource.value] else [], None) == Some(resource)
  {
    if resource.Some? {
      assert [resource.value][1..] == [];
    }
  }

  /**
   Admission is a fixed point: the stored form of an admitted request revalidates, in either phase,
   exactly when its canonical request fits the parameter limit; five spare bytes always suffice.
   */
  lemma AdmissionIsAFixedPoint(lib: Library, p: Policy, i: Input, client: Client, phase: string)
    requires lib.CodeOnly() && Admit(lib, p, i, client).Ok?
    ensures var f := Admit(lib, p, i, client).value;
            && Revalidate(lib, p, f.(phase := phase), client, phase)
               == (if Total(Canonical(f)) <= p.parameterBytes then Ok(()) else Err(MalformedStored))
            && (Total(i) + 5 <= p.parameterBytes ==> Total(Canonical(f)) <= p.parameterBytes)
  {
    var f := Admit(lib, p, i, client).value;
    CanonicalReadmits(lib, p, i, client, f);
    CanonicalGrowsByFive(lib, p, i, client, f);
    assert Canonical(f.(phase := phase)) == Canonical(f);
  }

  /** Revalidation accepts exactly the forms some request was admitted as, while their own request still fits. */
  lemma RevalidationMeans(lib: Library, p: Policy, f: Fields, client: Client, phase: string)
    requires lib.CodeOnly()
    ensures Revalidate(lib, p, f, client, phase) == Ok(()) <==>
            && f.phase == phase && Total(Canonical(f)) <= p.parameterBytes
            && exists i :: Admit(lib, p, i, client) == Ok(f.(phase := "pending"))
    ensures Revalidate(lib, p, f, client, phase) in {Ok(()), Err(MalformedStored)}
  {
    var g := f.(phase := "pending");
    assert Canonical(g) == Canonical(f);
    if Revalidate(lib, p, f, client, phase) == Ok(()) {
      var admitted := Admit(lib, p, Canonical(f), client).value;
      AdmitUnfolds(lib, p, Canonical(f), client, admitted);
      assert admitted == g;
    }
    if i :| Admit(lib, p, i, client) == Ok(g) {
      AdmitUnfolds(lib, p, i, client, g);
      CanonicalReadmits(lib, p, i, client, g);
    }
  }

  /**
   The limit matters: a request for `openid` alone that fills it exactly and names no response mode is
   admitted, and its stored form does not revalidate.
   */
  lemma FullRequestDoesNotRevalidate(lib: Library, p: Policy, i: Input, client: Client)
    requires lib.CodeOnly() && lib.sdk(Sdk(i, "openid")).None?
    requires lib.clientIdSyntax(i.clientId) && lib.canonicalChallenge(i.challenge)
    requires Trim(i.state) != "" && Bytes(i.state) <= 512 && Trim(i.nonce) != ""
    requires i.scope == "openid" && i.challengeMethod == "S256" && i.responseMode == None && i.resources == []
             && i.prompts == []
    requires i.clientId == client.id == p.cliClientId && client.admitsRedirect(i.redirectUri)
    requires Total(i) == p.parameterBytes
    ensures Admit(lib, p, i, client).Ok?
    ensures Revalidate(lib, p, Admit(lib, p, i, client).value, client, "pending") == Err(MalformedStored)
  {
    OpenidAlone();
    var f := Pending(p, i, None, ["openid"]);
    AdmitUnfolds(lib, p, i, client, f);
    AdmissionIsAFixedPoint(lib, p, i, client, "pending");
    DefaultModeGrows(i, Canonical(f));
  }

  lemma DefaultModeGrows(i: Input, c: Input)
    requires i.responseMode == None && c == i.(responseMode := Some("query"))
    ensures Total(c) == Total(i) + 5
  {
    QueryBytes();
    SumScalars(i);
    SumScalars(c);
  }

  lemma OpenidAlone()
    ensures ScopesOf("openid") == ["openid"] && Join(["openid"], ' ') == "openid"
  {
    ScopesRoundTrip(["openid"]);
  }
}
