# A verified model of the broker's admission and authorization core

The graphit broker decides who may guess a password or a second factor, which object keys a caller may
touch, which login flow is handed to whom, and which stored records it trusts. This project models that
logic in Dafny 4.11 and proves what it promises: over every sequence of calls, every interleaving, every rule
list and every input. `dafny verify dfyconfig.toml` checks everything.

| module | part of the broker |
|---|---|
| `PasswordAdmission` | the shared limiter of password work: leases, failure windows, lockouts, the bounded user table |
| `PasswordWorkers`, `WorkerProgress` | the physical key-derivation workers: semaphore, tracker, shutdown, and the leases they share by reference counting |
| `MfaLimiter`, `MfaGuessBound`, `MfaPurge`, `MfaSituations` | the second-factor limiter: one guard per subject, failure windows, lockouts; how many guesses it lets through; that its purge cannot be observed |
| `LoginFlow` | one-time login flows: save and consume as transactions over a table with row locks |
| `AuthorizationRequest` | admission of authorization requests and revalidation of their stored form |
| `GrantMeaning` | what the stored grant rules mean, and that compiling and evaluating them decides exactly that, for storage and for the Hub |
| `GrantPolicy`, `StoragePolicy`, `StorageScopes`, `Templates`, `Paths` | compiling grants, evaluating storage access, scopes and their roots, prefix templates |
| `HubDiscovery` | the projects a caller discovers and the catalog route each is served by |
| `Encodings` | the byte streams behind user namespaces and inference cache scopes |
| `Inventory` | installation inventories and the decoder of their stored rows |
| `NowSnapshot` | validation and masking of activity snapshots |
| `Text`, `Utf8`, `Ulids`, `Common` | strings as Rust treats them, their bytes and their order, identifiers as numbers, and small facts about maps |

Three shapes recur. The two limiters are classes whose methods update their table in place; each method is
proved equal to one step of a transition function, and the theorems are about all runs of that function.
The two concurrent protocols are transition systems in which a step that is not enabled changes nothing, so a
run is any sequence of steps. Loops over lists are methods proved against a contract that mentions neither the
order of the list nor the loop. Clocks are parameters. The password limiter reads its monotonic clock under
its mutex, so its runs have nondecreasing reads. The second-factor limiter reads before it takes the mutex, so
its critical sections may run with reads that lag behind reads already used; exclusivity is proved for all
reads, and the timing results for admissions that lag by at most a stated amount. The login flows assume
nothing about their clock.

Three results differ from what one would first expect. The second-factor bound is lower than two full windows
allow: 2 * max - 2 failures (one when max is 1), since a failure already counted opened the old window; it is
attained for every policy with max at least 2 whose window and lockout exceed one clock tick. It depends on
how far an admission's read may lag, and `BoundIsExact` says how far: with more lag than the longer of window
and lockout and one tick, a late admission that is dropped moves the last sighting of a subject back, a purge
forgets its count, and one failure too many is recorded. `HarmlessIsExact` does the same for the purge. And an
admitted authorization request can fail to revalidate: its canonical form always names a response mode, so a
request that fills the parameter limit without one grows past it. `AdmissionIsAFixedPoint` gives the exact
condition and `FullRequestDoesNotRevalidate` the failing family.

## Model

| member | source | states |
|---|---|---|
| `PasswordAdmission.LeaseConservation` | crates/broker-control/src/local_password_admission.rs:186-393 | from a new limiter, after any sequence of calls: occupied slots are the live leases and at most the capacity, each user's active count is the number of live leases naming them, the table has at most 4096 entries, and releasing everything leaves nothing active |
| `PasswordAdmission.RunConserves` | crates/broker-control/src/local_password_admission.rs:186-393 | the invariant behind it (also: every user with a live lease has an entry, clock facts, no idle entry without something to remember) is kept by every run |
| `PasswordAdmission.StepConserves` | crates/broker-control/src/local_password_admission.rs:186-393 | each critical section, with or without purging, keeps the invariant |
| `PasswordAdmission.StepBounded` | crates/broker-control/src/local_password_admission.rs:207-231 | no critical section grows the table past 4096 users |
| `PasswordAdmission.RetainConserves` | crates/broker-control/src/local_password_admission.rs:207-218 | the purge spares every user with a live lease |
| `PasswordAdmission.ReleaseConserves` | crates/broker-control/src/local_password_admission.rs:375-393 | dropping a lease keeps the invariant and neither decrement goes below zero |
| `PasswordAdmission.PurgingIsUnobservable` | crates/broker-control/src/local_password_admission.rs:207-243 | over every run the purging limiter gives the same answers as one that never purges and is never full, once Capacity refusals count as requests not made |
| `PasswordAdmission.StepSimilar` | crates/broker-control/src/local_password_admission.rs:186-373 | one call on a purged table and on the unpurged one gives the same answer and again a purged and an unpurged table, or is refused for capacity |
| `PasswordAdmission.StaleEntersFresh` | crates/broker-control/src/local_password_admission.rs:96-106 | an entry old enough to be purged is admitted exactly as an absent one: its window has elapsed |
| `PasswordAdmission.LockoutHolds` | crates/broker-control/src/local_password_admission.rs:290-373 | a pending lockout survives every run without a recorded success: never shortened or dropped, no admission, no passed recheck, and wrong passwords only through leases live when it began |
| `PasswordAdmission.StepKeepsLockout` | crates/broker-control/src/local_password_admission.rs:186-373 | the same for one critical section, and who is refused for the lockout is told exactly how long it still lasts |
| `PasswordAdmission.LockoutBoundsGuesses` | crates/broker-control/src/local_password_admission.rs:315-343 | with one result per lease, at most as many wrong passwords are recorded during the lockout as leases were live for the user at its start |
| `PasswordAdmission.WrongPasswordsLock` | crates/broker-control/src/local_password_admission.rs:315-343 | after any history, in any half-open interval no longer than the window without a success for the user, all but 2 * max - 2 recorded wrong passwords start a lockout of full length, whatever purges, releases and other users do |
| `PasswordAdmission.LockoutsAreEarned` | crates/broker-control/src/local_password_admission.rs:315-373 | a user for whom fewer than the allowed wrong passwords have been recorded, from the start or since a recorded success, is refused for a lockout neither at admission nor at a recheck, over every run |
| `PasswordAdmission.LockoutsAreEarnedInAWindow` | crates/broker-control/src/local_password_admission.rs:96-106 | in every ordered run from a new limiter, a user whose wrong passwords never come to the allowed number in less than one window is never refused for a lockout, however many they are |
| `PasswordAdmission.SuccessRestartsWindow` | crates/broker-control/src/local_password_admission.rs:344-373 | within one window after a success, all but max - 1 of the recorded wrong passwords start a lockout of full length |
| `PasswordAdmission.AdmissionMeans` | crates/broker-control/src/local_password_admission.rs:186-253 | in every reachable state exactly which of the answers (granted, capacity, rate limited with its delay, deadline, closed) an admission gets, from the live leases, the pending lockout and who has to be remembered |
| `PasswordAdmission.AnonymousAdmissionMeans` | crates/broker-control/src/local_password_admission.rs:186-206 | work that names nobody is granted exactly if it is in time, the limiter open and a slot free, and leaves the table alone |
| `PasswordAdmission.RetainedAreRemembered` | crates/broker-control/src/local_password_admission.rs:207-218 | the purge keeps exactly the users with a live lease, a pending lockout, or a last sighting at most window plus lockout ago |
| `PasswordAdmission.CloseIsFinal` | crates/broker-control/src/local_password_admission.rs:179-185 | once closed, every later run admits, rechecks and records nothing |
| `PasswordAdmission.DeadlineIsFinal` | crates/broker-control/src/local_password_admission.rs:186-200 | from its deadline on a call changes nothing |
| `PasswordAdmission.StepAllowance` | crates/broker-control/src/local_password_admission.rs:186-393 | every call pays for a wrong password it leaves without a lockout out of an allowance that never grows |
| `PasswordAdmission.LocalPasswordAdmission.constructor` | crates/broker-control/src/local_password_admission.rs:130-154 | a new limiter is empty, open and valid |
| `PasswordAdmission.LocalPasswordAdmission.Shut` | crates/broker-control/src/local_password_admission.rs:179-185 | closing is the Close transition and keeps the invariant |
| `PasswordAdmission.LocalPasswordAdmission.Admit` | crates/broker-control/src/local_password_admission.rs:186-253 | the mutable admission, in the source's order of checks, is the Admit transition on the old state and keeps the invariant |
| `PasswordAdmission.LocalPasswordAdmission.RecheckAttempt` | crates/broker-control/src/local_password_admission.rs:290-314 | the recheck is the Recheck transition and changes only the clock |
| `PasswordAdmission.LocalPasswordAdmission.RecordIncorrect` | crates/broker-control/src/local_password_admission.rs:315-343 | recording a wrong password is the Incorrect transition and keeps the invariant |
| `PasswordAdmission.LocalPasswordAdmission.CountFailure` | crates/broker-control/src/local_password_admission.rs:328-342 | the in-place update of one entry: window refresh, saturating count, lockout at the limit; other entries untouched |
| `PasswordAdmission.LocalPasswordAdmission.RecordSucceeded` | crates/broker-control/src/local_password_admission.rs:344-373 | recording a success is the Succeeded transition and keeps the invariant (what it clears is stated by `LockoutsAreEarned` and `SuccessRestartsWindow`) |
| `PasswordAdmission.LocalPasswordAdmission.Drop` | crates/broker-control/src/local_password_admission.rs:375-393 | dropping a lease is the Release transition and keeps the invariant |
| `MfaLimiter.GuardsAreExclusive` | crates/broker-control/src/local_auth.rs:139-257 | from a new limiter, after any calls with any clock reads: at most one live guard per subject, a subject is in flight exactly while it has one, an idle entry remembers a failure, and the table keeps its limit |
| `MfaLimiter.RunExclusive` | crates/broker-control/src/local_auth.rs:139-257 | the invariant behind it is kept by every run, whatever the reads |
| `MfaLimiter.StepExclusive` | crates/broker-control/src/local_auth.rs:139-257 | and by each critical section |
| `MfaLimiter.PurgeSpares` | crates/broker-control/src/local_auth.rs:155-161 | a purge removes neither an in-flight nor a blocked entry |
| `MfaLimiter.CancelExclusive` | crates/broker-control/src/local_auth.rs:239-257 | dropping a guard without success frees its subject and no other, forgets it exactly if it never failed, otherwise keeps its entry but for the flag, and keeps the invariant |
| `MfaLimiter.LockoutsAreEarned` | crates/broker-control/src/local_auth.rs:204-237 | a subject with fewer than the allowed failures recorded, from the start or since a success, is never refused for a lockout, whatever the clock reads |
| `MfaLimiter.AdmissionMeans` | crates/broker-control/src/local_auth.rs:145-192 | exactly which admissions are granted, busy, rate limited (and for how long) or refused for capacity, from the live guards, the lockouts and who has to be remembered |
| `MfaLimiter.RoomyMeans` | crates/broker-control/src/local_auth.rs:150-165 | after the purge a stranger finds no room exactly if the table was full of entries that have to be remembered |
| `MfaLimiter.RunTimed` | crates/broker-control/src/local_auth.rs:139-228 | what reads that lag by a bounded amount leave in the table: windows, lockouts and last sightings relative to the newest read and to each guard |
| `MfaGuessBound.GuessBound` | crates/broker-control/src/local_auth.rs:139-228 | after any history, among the failures of a subject read in any half-open interval no longer than min(window, lockout) between two successes, with one failure per guard, at most 2 * max - 2 are recorded (one if max is 1), whatever purges, cancellations and other subjects do, in whatever order the mutex is taken, if admissions lag by at most max(window, lockout) and one tick |
| `MfaGuessBound.BoundIsExact` | crates/broker-control/src/local_auth.rs:139-228 | no run exceeds that bound if and only if max is 1 or admissions lag by at most max(window, lockout) and one tick |
| `MfaGuessBound.LateReadsExceed` | crates/broker-control/src/local_auth.rs:139-192 | with any more lag, for every policy with max at least 2 and every table size, some run records a failure too many: a late admission moves the last sighting back and a purge forgets the count |
| `MfaGuessBound.CountBound` | crates/broker-control/src/local_auth.rs:204-228 | the same bound from any state the limiter can be in |
| `MfaGuessBound.BudgetStep` | crates/broker-control/src/local_auth.rs:139-257 | every call pays for the failure it records out of a budget that never grows |
| `MfaGuessBound.GuessBoundIsTight` | crates/broker-control/src/local_auth.rs:204-228 | for every policy with max at least 2 and more than one clock tick, some run with ordered reads attains the bound |
| `MfaPurge.PurgingIsUnobservable` | crates/broker-control/src/local_auth.rs:145-228 | over every run whose admissions lag harmlessly the purging limiter gives the same answers as one that never purges and is never full, once Capacity refusals count as requests not made |
| `MfaPurge.HarmlessIsExact` | crates/broker-control/src/local_auth.rs:145-228 | that holds if and only if admissions lag by at most window and one tick and, unless max is 1, by at most lockout and one tick |
| `MfaPurge.StepAlike` | crates/broker-control/src/local_auth.rs:145-257 | one call on the purged and the unpurged table gives the same answer and again tables that can only answer alike, or is refused for capacity |
| `MfaPurge.LockoutForgotten` | crates/broker-control/src/local_auth.rs:155-161 | with more lag than the window, a purged lockout is missed by a late admission |
| `MfaPurge.CountForgotten` | crates/broker-control/src/local_auth.rs:155-161 | with more lag than the lockout, a purged count is missed within its window |
| `MfaLimiter.LocalMfaAttemptLimiter.constructor` | crates/broker-control/src/local_auth.rs:133-138 | a new limiter is empty and valid |
| `MfaLimiter.LocalMfaAttemptLimiter.AdmitAt` | crates/broker-control/src/local_auth.rs:145-192 | the mutable admission is the Admit transition on the old state and keeps the invariant |
| `MfaLimiter.LocalMfaAttemptLimiter.FailureAt` | crates/broker-control/src/local_auth.rs:204-228 | recording a failure is the Failure transition and keeps the invariant |
| `MfaLimiter.LocalMfaAttemptLimiter.RecordSuccess` | crates/broker-control/src/local_auth.rs:229-237 | recording a success is the Success transition and keeps the invariant |
| `MfaLimiter.LocalMfaAttemptLimiter.Drop` | crates/broker-control/src/local_auth.rs:239-257 | dropping an unfinished guard is the Cancel transition and keeps the invariant |
| `StoragePolicy.Evaluate` | crates/broker-control/src/storage_policy.rs:60-127 | the evaluation meets an order-free contract: errors only for an unrenderable active rule or two contributing rules with different routes, no access exactly when nothing contributes or the Hub gate is shut, otherwise the common route and exactly the granted prefixes per operation |
| `StoragePolicy.DecisionsAreIsolated` | crates/broker-control/src/storage_admission.rs:166-214 | two decisions, whatever their callers, rules and operations, open a common object key only for the same scope, and for user memory only to the same issuer and subject, unless the digest collides |
| `StoragePolicy.Gather` | crates/broker-control/src/storage_policy.rs:74-119 | the loop over the matches finds an unrenderable rule, two conflicting routes, or the common route and everything opened per operation |
| `StoragePolicy.RuleOutcome` | crates/broker-control/src/storage_policy.rs:76-106 | one applying rule contributes nothing, cannot be rendered, or opens exactly its prefixes |
| `StoragePolicy.StorageRules` | crates/broker-control/src/resource_policy.rs:287-321 | the loop returns exactly the applying rules, each once and in order, with their index, the operations their capabilities reach and whether they open the Hub |
| `StoragePolicy.DecisionMeansGrants` | crates/broker-control/src/storage_policy.rs:60-127 | a key lies under a returned prefix for an operation if and only if one single applying rule allows the operation and covers the key, and the scope owns the key; no access with an open gate means no key qualifies |
| `StoragePolicy.OpensMeansCovers` | crates/broker-control/src/storage_policy.rs:89-103 | the prefixes one rule opens denote exactly the keys it covers inside the scope |
| `StoragePolicy.HitsMeanCover` | crates/broker-control/src/storage_policy.rs:93-103 | the same for one template against all roots |
| `StoragePolicy.DecisionIsConfined` | crates/broker-control/src/storage_policy.rs:89-103 | every returned prefix lies under a root of the requested scope |
| `StoragePolicy.RestrictedRulesStayInProjects` | crates/broker-control/src/resource_policy.rs:301-309 | a rule restricted to named projects authorizes nothing in user memory or the global Hub |
| `StoragePolicy.OrderIndependence` | crates/broker-control/src/storage_policy.rs:72-126 | two rule lists with the same rules, in any order and repetition, err together and otherwise give equal results |
| `StoragePolicy.RulePrefixes` | crates/broker-control/src/storage_policy.rs:89-103 | it fails exactly if some template cannot be rendered, and otherwise returns exactly the opened prefixes |
| `StoragePolicy.TemplatePrefixes` | crates/broker-control/src/storage_policy.rs:93-103 | one template adds exactly its hits, is skipped, or is refused |
| `Paths.IntersectMeans` | crates/broker-control/src/storage_policy.rs:175-190 | the intersection of two prefixes denotes exactly the keys under both, and is absent exactly if there are none |
| `Paths.SafePathShape` | crates/broker-control/src/storage_policy.rs:129-140 | a safe path is a left-to-right well-shaped text whose segments have at most 128 bytes |
| `Templates.RenderLoop` | crates/broker-control/src/storage_policy.rs:141-174 | the placeholder-by-placeholder loop computes Render |
| `Templates.RenderingIsSubstitution` | crates/broker-control/src/storage_policy.rs:141-174 | for every template that passed the probe: skipped only for a project placeholder without a project, invalid exactly for a used missing or unsafe value or a segment over 128 bytes, otherwise the one-pass simultaneous substitution |
| `Templates.FillMeans` | crates/broker-control/src/storage_policy.rs:157-173 | sequential replacement fails exactly on a used unusable value and otherwise equals one-pass substitution |
| `Templates.AdmissibleIsClean` | crates/broker-control/src/storage_policy.rs:37-50 | in a template that passed the probe every brace belongs to a placeholder |
| `Templates.ProbeMeans` | crates/broker-control/src/storage_policy.rs:37-50 | the probe is the one-pass substitution by its dummy word |
| `Templates.AdmissibleShape` | crates/broker-control/src/storage_policy.rs:37-50 | the probe's verdict on the shape carries over to every choice of safe values |
| `GrantMeaning.Authorize` | crates/broker-control/src/service/storage_admission.rs:168-191 | storage authorization end to end, said of the stored rules: a key is opened for an operation (each named, and at its place in the decision) if and only if one single stored rule is for the caller and the project, permits the operation and covers the key inside the scope; and exactly when the policy is invalid, routes conflict, or nothing is given |
| `GrantMeaning.EvaluationDecides` | crates/broker-control/src/storage_policy.rs:60-127 | every result the evaluation of the compiled rules can give answers as the stored rules say |
| `GrantMeaning.AuthorizesMeans` | crates/broker-control/src/storage_policy.rs:24-59 | a compiled rule authorizes exactly what the stored rule gives |
| `GrantMeaning.RuleMeans` | crates/broker-control/src/storage_policy.rs:30-56 | a compiled rule applies to the callers and projects, allows the operations (all if none is listed), opens the Hub and selects the route that the trimmed texts of the stored rule name |
| `GrantMeaning.HubRuleMeans` | crates/broker-control/src/resource_policy.rs:136-175 | a compiled Hub rule matches exactly the callers of the stored kind and principal, covers its projects, reaches its capabilities and keeps its route |
| `GrantMeaning.SelectorMeans` | crates/broker-control/src/resource_policy.rs:109-153 | exactly the seven kinds are known, in any ASCII case, and the selector matches exactly the callers the kind and the trimmed principal describe |
| `GrantMeaning.CompilesMeans` | crates/broker-control/src/resource_policy.rs:154-166 | exactly the well-formed rules compile: a known kind, some capability, canonical projects or the star, patterns that compile, and prefixes that are safe paths with nothing but placeholders in braces |
| `GrantMeaning.PrefixMeans` | crates/broker-control/src/storage_policy.rs:37-50 | a stored prefix covers the keys under its one-pass reading with the caller's values and is refused exactly if it cannot be read and does not merely lack a project |
| `GrantMeaning.ContributesMeans` | crates/broker-control/src/storage_policy.rs:76-106 | a compiled rule contributes exactly if the stored rule gives the caller some operation on some key |
| `GrantMeaning.Discover` | crates/broker-control/src/service/hub_access.rs:80-98 | the Hub end to end, said of the stored rules: refused exactly if a rule is malformed; the selections show exactly the projects some stored rule shows the caller; the route is the one all those rules agree on |
| `GrantPolicy.Compile` | crates/broker-control/src/storage_policy.rs:24-59 | compilation is all or nothing and keeps the rules in order, each as its compiled form (whose meaning `GrantMeaning` states), with admissible templates only |
| `GrantPolicy.CompileRule` | crates/broker-control/src/storage_policy.rs:30-56 | one rule compiles to its compiled form, exactly if all its patterns and templates are acceptable |
| `GrantPolicy.CompileHub` | crates/broker-control/src/resource_policy.rs:136-175 | the Hub part alone: all or nothing, in order |
| `GrantPolicy.LowerMeans` | crates/broker-control/src/resource_policy.rs:144-152 | lowering and comparing ignores the case of ASCII letters and nothing else |
| `GrantPolicy.TrimSlashesMeans` | crates/broker-control/src/storage_policy.rs:40-40 | slashes go at the two ends and nowhere else |
| `Text.TrimMeans` | crates/broker-control/src/resource_policy.rs:143-156 | trimming removes the whitespace at the two ends and nothing else |
| `StoragePolicy.PlaceholdersMean` | crates/broker-control/src/storage_policy.rs:146-162 | which field of the caller or the scope each placeholder, as written, stands for |
| `StorageScopes.HubRootsRead` | crates/broker-control/src/storage_admission.rs:166-172 | the roots of the global Hub as they read |
| `StorageScopes.ProjectRootsRead` | crates/broker-control/src/storage_admission.rs:173-184 | the roots of a project's Hub and of its other areas as they read |
| `StorageScopes.MemoryRootsRead` | crates/broker-control/src/storage_admission.rs:185-197 | the root of a user's memory as it reads |
| `StorageScopes.RootSplits` | crates/broker-control/src/storage_admission.rs:166-199 | the roots of a valid scope split into exactly their declared segments |
| `StorageScopes.SegmentsIdentify` | crates/broker-control/src/storage_admission.rs:166-199 | two roots that begin the same segment list belong to the same scope, and for user memory to the same namespace |
| `StorageScopes.ScopesAreIsolated` | crates/broker-control/src/storage_admission.rs:109-214 | two valid scopes that share any object key are the same scope, and for user memory of the same owner unless the digest collides |
| `Utf8.EncodedInjective` | crates/broker-control/src/storage_admission.rs:204-207 | different strings have different bytes |
| `Utf8.LessIsBelow` | crates/broker-now-wire/src/lib.rs:494-518 | strings compare as their UTF-8 bytes do: one is less exactly if its bytes are a proper prefix or smaller at the first difference |
| `Encodings.NamespaceInputInjective` | crates/broker-control/src/storage_admission.rs:201-214 | the digested streams of two owners are equal exactly if issuer and subject are |
| `Encodings.NamespaceSeparates` | crates/broker-control/src/storage_admission.rs:201-214 | two owners share a namespace only if the digest collides on their streams |
| `Encodings.NamespaceInputReads` | crates/broker-control/src/storage_admission.rs:201-207 | the stream part by part: the tag, then issuer and subject, each behind its eight-byte big-endian length |
| `Encodings.EndianReads` | crates/broker-control/src/storage_admission.rs:204-207 | a number that fits can be read off its bytes, and the two byte orders are mirror images |
| `Encodings.HexReads` | crates/broker-control/src/storage_admission.rs:208-213 | two lower-case digits a byte, the high half first |
| `Encodings.FramedInjective` | crates/broker-control/src/storage_admission.rs:201-214 | length framing of equally many parts is injective, with big- or little-endian lengths |
| `Encodings.HexInjective` | crates/broker-control/src/storage_admission.rs:209-213 | the hexadecimal rendering is injective |
| `Encodings.PushHex` | crates/broker-control/src/storage_admission.rs:208-213 | pushing two digits per byte yields the hexadecimal rendering |
| `Encodings.CacheInputInjective` | crates/broker-control/src/resource_policy.rs:471-491 | cache streams are equal exactly for the same issuer, subject and organization (absent counting as empty), and anonymous stays apart |
| `Encodings.CacheBodyReads` | crates/broker-control/src/resource_policy.rs:477-490 | behind the tag: a zero byte, or a one byte and issuer, subject and organization behind little-endian lengths |
| `HubDiscovery.Selectors` | crates/broker-control/src/resource_policy.rs:194-231 | the deduplicating loop returns distinct selections, exactly those of the caller's Hub rules |
| `HubDiscovery.CatalogRoutes` | crates/broker-control/src/resource_policy.rs:232-257 | the loop returns one route for each Hub rule of the caller, in order, and nothing else |
| `HubDiscovery.FindRoute` | crates/broker-control/src/hub_access.rs:182-203 | the search answers absent, one route or a conflict according to the covering routes |
| `HubDiscovery.DiscoveryAgreesWithRouting` | crates/broker-control/src/hub_access.rs:182-203 | for every caller, rule list and project: covered by the selections iff the route is not absent; found r iff some rule covers and all covering rules resolve to r; conflict iff two covering rules differ |
| `HubDiscovery.SelectionsCover` | crates/broker-control/src/resource_policy.rs:194-231 | the selections cover a project exactly if some Hub rule of the caller does |
| `HubDiscovery.RoutingMeans` | crates/broker-control/src/hub_access.rs:182-203 | what each of the three answers says about the covering rules |
| `LoginFlow.FlowsAreReturnedOnce` | crates/broker-control/src/service.rs:220-302 | under every interleaving of saves, consumes, failures, timeouts and cancellations: a returned flow was committed under the caller's key and binding, decodes, was unexpired at both clock reads, and no other consume returns it |
| `LoginFlow.RepliesDetermineTheChange` | crates/broker-control/src/service.rs:117-168 | every reply except the uncertain outcome determines whether its call has changed the table, and the call never changes it afterwards |
| `LoginFlow.TableChangesOnCommit` | crates/broker-control/src/service.rs:220-302 | the table changes exactly at a commit, each call commits at most once, and a commit adds the save's own row under a free key or takes the row the consume had locked |
| `LoginFlow.LogNamesTheChanges` | crates/broker-control/src/service.rs:220-302 | the committed calls are exactly those that changed the table |
| `LoginFlow.SavedFlowComesBack` | crates/broker-control/src/service.rs:220-302 | round trip: a flow saved and consumed without interference is returned unchanged and leaves the table as it was |
| `LoginFlow.SaveAlone` | crates/broker-control/src/service.rs:220-262 | for every state with the key unlocked: an undisturbed save is refused as invalid unless its flow is current and expires within ten minutes, refused if the key is taken, refused if it expired before the second clock read, and otherwise answers Saved and stores exactly its row; a refused one leaves the table unchanged |
| `LoginFlow.SavedFlowsAreCurrent` | crates/broker-control/src/service.rs:220-262 | under every interleaving, Saved is answered only for a flow unexpired and expiring within ten minutes at the first clock read and unexpired at the second, and every stored flow was current when it was saved |
| `LoginFlow.ConsumeAlone` | crates/broker-control/src/service.rs:264-302 | for every state with the key unlocked: an undisturbed consume is refused for an absent, foreign or undecodable row and leaves the table unchanged; otherwise it removes the row and returns the flow if it was unexpired at both clock reads, or reports expiry |
| `LoginFlow.AbortReleases` | crates/broker-control/src/service.rs:117-132 | in every reachable state rolling back an unfinished transaction leaves the table alone and releases exactly the locks of its call; a finished one stays as it is |
| `LoginFlow.RepliesAreFinal` | crates/broker-control/src/service.rs:220-302 | a reply is never taken back |
| `LoginFlow.RunSafe` | crates/broker-control/src/service.rs:220-302 | the invariant (row locks and the views they protect, stored rows were saved, taken rows are gone, no row taken twice, each call's stage) is kept by every run |
| `LoginFlow.NextSafe` | crates/broker-control/src/service.rs:220-302 | and by each step |
| `PasswordWorkers.WorkersAreBounded` | crates/broker-control/src/local_password.rs:251-283 | in every run at most the limit of derivations run at once |
| `PasswordWorkers.LeasesOutliveWorkers` | crates/broker-control/src/local_password.rs:172-283 | in every run a lease's strong count is the number of its handles in callers, futures and closures and at least one; a work that is not over keeps its lease, a running one with two handles, though its caller is gone; no handle outlives the allocation; no lease is released twice |
| `PasswordWorkers.GrantedLeases` | crates/broker-control/src/local_password_admission.rs:244-253 | a granted lease exists or has been released, in every later state |
| `PasswordWorkers.RunTracked` | crates/broker-control/src/local_password.rs:172-283 | the reference counting invariant is kept by every run |
| `PasswordWorkers.NextTracked` | crates/broker-control/src/local_password.rs:172-283 | and by each clone, move and drop of a handle |
| `PasswordWorkers.RunSound` | crates/broker-control/src/local_password.rs:59-92 | the accounting of permits, stages and handles per stage is kept by every run |
| `PasswordWorkers.NextSound` | crates/broker-control/src/local_password.rs:59-92 | and by each step of callers, workers and closer |
| `PasswordWorkers.CloseIsFinal` | crates/broker-control/src/local_password.rs:80-92 | once close has returned no worker is registered or running, and none ever is again |
| `WorkerProgress.UndisturbedWork` | crates/broker-control/src/local_password.rs:251-283 | in an open pool with a free permit, submitted work goes through permit, registration, running and deriving to its end; it then has returned its permit and its handles and nothing else has changed |
| `WorkerProgress.StartupCompletes` | crates/broker-control/src/local_password.rs:98-117 | the startup derivation leads to a ready pool with every permit free |
| `WorkerProgress.LosingTheCaller` | crates/broker-control/src/local_password.rs:251-283 | registered work outlives its caller with its permit; work not yet registered ends with it |
| `WorkerProgress.ClosedPoolRegistersNothing` | crates/broker-control/src/local_password.rs:68-92 | after closing has begun no step makes a work live |
| `WorkerProgress.CloseCanReturn` | crates/broker-control/src/local_password.rs:80-92 | from every state close can go through once the registered workers have exited |
| `AuthorizationRequest.AdmissionIsAFixedPoint` | crates/broker-control/src/oidc_authorization.rs:220-349 | the stored form of an admitted request revalidates, in either phase, exactly if its canonical request fits the parameter limit; five spare bytes always suffice |
| `AuthorizationRequest.CanonicalReadmits` | crates/broker-control/src/oidc_authorization.rs:312-349 | readmitting the canonical request reproduces the stored fields exactly, or is refused for its size only |
| `AuthorizationRequest.CanonicalGrowsByFive` | crates/broker-control/src/oidc_authorization.rs:390-405 | the canonical request is at most five bytes larger than the original |
| `AuthorizationRequest.FullRequestDoesNotRevalidate` | crates/broker-control/src/oidc_authorization.rs:182-349 | a family of requests that fill the limit and name no response mode is admitted and does not revalidate |
| `AuthorizationRequest.AdmissionMeans` | crates/broker-control/src/oidc_authorization.rs:220-295 | which requests are admitted, in terms of their parameters: size, client, redirect, state, nonce, prompts, challenge, no resource or exactly one acceptable one, and openid among the scope words |
| `AuthorizationRequest.AdmittedRecords` | crates/broker-control/src/oidc_authorization.rs:279-295 | what is stored, field by field: the resource exactly if it is the only one named, exactly the known scope words, once each and in order of first appearance, the response mode (fragment or form_post exactly if named, query otherwise), the format, the pending phase, and client, audience, redirect, state, nonce and challenge as given |
| `AuthorizationRequest.RefusalMeans` | crates/broker-control/src/oidc_authorization.rs:220-278 | the first requirement a request fails, said of its parameters, decides its error |
| `AuthorizationRequest.RevalidationMeans` | crates/broker-control/src/oidc_authorization.rs:312-349 | revalidation accepts exactly the forms that some request was admitted as, in the asked phase, whose canonical request fits the parameter limit |
| `AuthorizationRequest.AdmitLoop` | crates/broker-control/src/oidc_authorization.rs:220-295 | the checks in the source's order with its loops over resources and scopes compute Admit, including which error is reported |
| `AuthorizationRequest.Bound` | crates/broker-control/src/oidc_authorization.rs:182-219 | the running total exceeds the limit at some parameter exactly if the whole sum does |
| `AuthorizationRequest.ScopesMean` | crates/broker-control/src/oidc_authorization.rs:263-273 | the stored scopes are exactly the known space-separated words |
| `AuthorizationRequest.ScopesRoundTrip` | crates/broker-control/src/oidc_authorization.rs:263-277 | joined canonical scopes are read back unchanged |
| `AuthorizationRequest.PickMeans` | crates/broker-control/src/oidc_authorization.rs:244-258 | a resource is stored exactly if it is the one nonblank, acceptable parameter, and none exactly if all are blank |
| `Inventory.DecodeRows` | crates/broker-control/src/instance_read.rs:97-137 | the grouping loop returns the inventory whose rows these are, and refuses only rows of no well-formed inventory |
| `Inventory.Decode` | crates/broker-control/src/instance_read.rs:84-145 | decoding succeeds exactly for a fitting header, a canonical installation and rows of a well-formed inventory, and then returns that inventory with the owner and timestamps of the header |
| `Inventory.RowsRoundTrip` | crates/broker-control/src/instance_read.rs:97-136 | any result the loop's contract allows for the rows of an inventory is that inventory |
| `Inventory.FlattenInjective` | crates/broker-control/src/instance_read.rs:97-136 | different well-formed inventories have different rows |
| `Inventory.StoredRowsAreLawful` | crates/broker-control/src/instance_read.rs:97-136 | the rows of an inventory continue the open project at the next position or open a later one at position 1 |
| `Inventory.Close` | crates/broker-control/src/instance_read.rs:105-116 | finishing the open project yields exactly the rows read so far, or no inventory has these rows |
| `Inventory.Switch` | crates/broker-control/src/instance_read.rs:104-118 | a row of another project closes the open one and opens the next, or no inventory has these rows |
| `Inventory.NewProjectSound` | crates/broker-control/src/instance_registry.rs:90-109 | an accepted project is canonical and strictly sorted and holds exactly the given versions |
| `Inventory.NewProjectMeans` | crates/broker-control/src/instance_registry.rs:90-109 | exactly nonempty lists of different canonical versions of a canonical project are accepted |
| `Inventory.NewProjectKeeps` | crates/broker-control/src/instance_registry.rs:90-109 | versions already in strict order are accepted unchanged |
| `Inventory.NewInventoryKeeps` | crates/broker-control/src/instance_registry.rs:125-143 | a well-formed project list is accepted unchanged for every canonical installation and for no other |
| `Inventory.NewInventoryMeans` | crates/broker-control/src/instance_registry.rs:125-143 | exactly projects with different ids are accepted for a canonical installation, and then in ascending order of their ids |
| `Ulids.UlidMeans` | crates/broker-control/src/instance_registry.rs:63-69 | canonical ids are exactly the 26-digit base-32 texts of the nonzero 128-bit numbers |
| `Inventory.SortSorts` | crates/broker-control/src/instance_registry.rs:101-104 | sorting is a sorted rearrangement |
| `NowSnapshot.Ordered` | crates/broker-now-wire/src/lib.rs:494-518 | comparing neighbours and remembering ids accepts exactly rows that are valid, globally strictly sorted (time descending, unknown last, id ascending) and pairwise distinct |
| `NowSnapshot.PrecedesMeans` | crates/broker-now-wire/src/lib.rs:510-514 | the order said outright: later times first, unknown last, equal times by the bytes of the id |
| `NowSnapshot.SectionMeans` | crates/broker-now-wire/src/lib.rs:222-244 | the only consistent sections: a page of at most twenty items with its total and whether there are more, the empty corpus, and the failures |
| `NowSnapshot.TaskRowMeans` | crates/broker-now-wire/src/lib.rs:446-457 | what makes a task row valid and what it is ordered by, said of its fields |
| `NowSnapshot.SessionRowMeans` | crates/broker-now-wire/src/lib.rs:458-470 | the same for sessions |
| `NowSnapshot.MemoryRowMeans` | crates/broker-now-wire/src/lib.rs:471-478 | the same for memories |
| `NowSnapshot.KnowledgeRowMeans` | crates/broker-now-wire/src/lib.rs:479-489 | the same for knowledge, whose time may be unknown |
| `NowSnapshot.Validate` | crates/broker-now-wire/src/lib.rs:433-491 | validation accepts exactly snapshots whose header, sections and four orderings are valid |
| `NowSnapshot.MaskSections` | crates/broker-now-wire/src/lib.rs:350-367 | a permitted section is returned unchanged; a forbidden one says so and nothing else; project and time stay |
| `NowSnapshot.MaskingIsSafe` | crates/broker-now-wire/src/lib.rs:350-367 | masking returns permitted sections unchanged, keeps a valid snapshot valid, composes as conjunction of the flags, and does not depend on what removed sections held |
| `NowSnapshot.DecimalInverts` | crates/broker-now-wire/src/lib.rs:535-538 | decimal text and 128-bit integers correspond one to one |
| `NowSnapshot.MillisecondsMean` | crates/broker-now-wire/src/lib.rs:539-541 | times are exactly the texts of whole milliseconds in nanoseconds that fit 64 bits of milliseconds |
| `NowSnapshot.GeneratedMeans` | crates/broker-now-wire/src/lib.rs:435-439 | a snapshot's own time is any nanosecond of a millisecond that fits 64 bits |

## Left out

- GuessBound: counts one failure per guard, as both callers of the limiter do; a guard object would let its owner record several. The source puts no bound on how far an admission's clock read may lag behind reads used before it; the bound holds exactly for lags of at most max(window, lockout) and one tick (`BoundIsExact`). A failure is taken to be read after its guard was granted, as a clock that is monotonic across threads guarantees.
- PurgingIsUnobservable: for the second-factor limiter it assumes a bounded lag as well, and `HarmlessIsExact` says which.
- LeasesOutliveWorkers: the two handles of a work are dropped in one step when its future or closure is dropped; weak references do not occur.
- LockoutBoundsGuesses: the numeric bound assumes one result per lease; `LockoutHolds` does not.
- ScopesAreIsolated: owners of user memory are told apart unless the digest collides on their two streams; SHA-256 itself is a parameter.
- AdmissionIsAFixedPoint: client id syntax, resource and redirect URI parsing, challenge syntax and the OAuth SDK's machine are parameters; the machine is taken to accept the code response type only.
- Evaluate: the four prefix lists are sets, so their sorted listing is not modelled; glob and regular expression matching is a parameter.
- Compile: one pass over the rules instead of one for the Hub part and one for the storage part; both are all or nothing.
- FlowsAreReturnedOnce: rows, locks and commits are modelled as steps; SQL text, connection pooling and the schema are not, and the SQLite and MySQL stores are left out.
- CloseIsFinal: one closer; two concurrent calls of close are not modelled, nor is waiting as such (nothing is said about when a step happens).
- Decode: starts from the parsed parent record; JSON parsing and SQL are left out.
- Deadlines inside policy evaluation, compilation, authorization admission and routing: treated as not yet passed; passing one only replaces the result by a deadline error. The limiters model theirs.
- Clock arithmetic that overflows the platform's instant type, allocation failure and poisoned mutexes.
- The challenge of the password form (CAPTCHA), the password change wrapper, the lease's engine check and everything cryptographic: passwords, one-time codes, tokens, digests.
- Sessions, bearer verification, federated login, administration, the object storage service, inference routing and the HTTP surface: either I/O or case tables that would only add easy members.
- Listing the catalog routes of all projects at once: a loop over the single-project search that is modelled.
