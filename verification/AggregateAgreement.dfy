/** When the runner's document is accepted, for every registry and every behaviour of the children, and
    what the recorded exits mean. */
module AggregateAgreement {
  import opened AggregateEvidence
  import opened AggregateRunner
  import opened ExitPrecedence
  import opened Options

  // ---------------------------------------------------------------- what every pass keeps

  /** The aggregate goes on after this invocation. */
  predicate MayContinue(v: Invocation, admitted: bool) {
    v.exitCode == Some(0) || v.exitCode == Some(20) || (v.exitCode == Some(40) && admitted)
  }

  predicate FactKept(v: Invocation, k: nat, env: Env) {
    && v.toolDigest == env.toolDigest
    && (v.exitCode.Some? ==> Registered(v.exitCode.value))
    && (v.completed ==>
          v.exitCode == Some(ChildTerminal(env.child(k)).0) && (v.cleanupComplete <==> v.exitCode != Some(60)))
  }

  /** Completed invocations come first, and all of them but the last let the aggregate go on. */
  predicate CompletedFirst(all: seq<Invocation>, env: Env) {
    forall i, j | 0 <= i < j < |all| && all[j].completed :: all[i].completed && MayContinue(all[i], env.admitted(i))
  }

  predicate AllContinue(all: seq<Invocation>, env: Env) {
    forall i | 0 <= i < |all| :: all[i].completed && MayContinue(all[i], env.admitted(i))
  }

  ghost predicate ExitsAccountedFor(all: seq<Invocation>, s: Progress) {
    s.extras <= {50, 70} && forall code :: code in s.exits <==> Exited(all, code) || code in s.extras
  }

  /** An invocation was skipped when the aggregate deadline had passed. */
  predicate Overdue(all: seq<Invocation>, env: Env) {
    exists k | 0 <= k < |all| :: !all[k].completed && env.elapsedAgain(k) >= DEADLINE
  }

  /** A successful validation or coverage did not print the identity of its run. */
  predicate IdentityLost(all: seq<Invocation>, env: Env) {
    exists k | 0 <= k < |all| :: all[k].completed && IdentityMissing(all[k].registration, env.child(k))
  }

  ghost predicate ExtrasExplained(all: seq<Invocation>, s: Progress, env: Env) {
    (70 in s.extras <==> Overdue(all, env)) && (50 in s.extras <==> IdentityLost(all, env))
  }

  ghost predicate Kept(all: seq<Invocation>, s: Progress, env: Env) {
    && |all| == s.next
    && (forall i | 0 <= i < |all| :: FactKept(all[i], i, env))
    && ExitsAccountedFor(all, s) && ExtrasExplained(all, s, env)
    && CompletedFirst(all, env)
    && (!s.stopped ==> AllContinue(all, env))
  }

  lemma TerminalIsRegistered(p: ChildProcess)
    ensures Registered(ChildTerminal(p).0)
    ensures !ChildTerminal(p).1 ==> ChildTerminal(p).0 == 0 || ChildTerminal(p).0 == 20
    ensures p.cleanupFailed ==> ChildTerminal(p).0 == 60
  {
  }

  lemma OneMoreExited(all: seq<Invocation>, v: Invocation, code: int)
    ensures Exited(all + [v], code) <==> Exited(all, code) || (v.completed && v.exitCode == Some(code))
  {
    var more := all + [v];
    assert forall i | 0 <= i < |all| :: more[i] == all[i];
    assert more[|all|] == v;
  }

  lemma StepAccounts(all: seq<Invocation>, s: Progress, registered: Registration, env: Env)
    requires ExitsAccountedFor(all, s)
    ensures var (v, after) := Step(registered, s, env); ExitsAccountedFor(all + [v], after)
  {
    var (v, after) := Step(registered, s, env);
    forall code ensures code in after.exits <==> Exited(all + [v], code) || code in after.extras {
      OneMoreExited(all, v, code);
    }
  }

  lemma StepExplains(all: seq<Invocation>, s: Progress, registered: Registration, env: Env)
    requires |all| == s.next && ExtrasExplained(all, s, env)
    ensures var (v, after) := Step(registered, s, env); ExtrasExplained(all + [v], after, env)
  {
    var (v, after) := Step(registered, s, env);
    var more := all + [v];
    assert forall k | 0 <= k < |all| :: more[k] == all[k];
    assert more[|all|] == v;
    assert Overdue(more, env) <==> Overdue(all, env) || (!v.completed && env.elapsedAgain(|all|) >= DEADLINE);
    assert IdentityLost(more, env) <==>
           IdentityLost(all, env) || (v.completed && IdentityMissing(v.registration, env.child(|all|)));
  }

  lemma StepContinues(all: seq<Invocation>, s: Progress, registered: Registration, env: Env)
    requires |all| == s.next
    requires (!s.stopped ==> AllContinue(all, env)) && CompletedFirst(all, env)
    ensures var (v, after) := Step(registered, s, env);
            && after.next == |all| + 1 && CompletedFirst(all + [v], env)
            && (!after.stopped ==> AllContinue(all + [v], env))
            && FactKept(v, |all|, env)
  {
    TerminalIsRegistered(env.child(s.next));
  }

  lemma StepKeeps(all: seq<Invocation>, s: Progress, registered: Registration, env: Env)
    requires Kept(all, s, env)
    ensures var (v, after) := Step(registered, s, env); Kept(all + [v], after, env)
  {
    StepAccounts(all, s, registered, env);
    StepExplains(all, s, registered, env);
    StepContinues(all, s, registered, env);
  }

  lemma {:induction false} InvocationsKeep(all: seq<Invocation>, s: Progress, registered: seq<Registration>, env: Env)
    requires Kept(all, s, env)
    ensures var (invocations, after) := RunInvocations(registered, s, env); Kept(all + invocations, after, env)
  {
    if registered == [] {
      assert all + [] == all;
    } else {
      var front := registered[..|registered| - 1];
      var before := RunInvocations(front, s, env);
      InvocationsKeep(all, s, front, env);
      StepKeeps(all + before.0, before.1, registered[|registered| - 1], env);
      var v := Step(registered[|registered| - 1], before.1, env).0;
      assert all + before.0 + [v] == all + (before.0 + [v]);
    }
  }

  lemma {:induction false} ChildrenKeep(registered: seq<RegisteredChild>, env: Env)
    ensures var (children, s) := RunChildren(registered, env); Kept(AllInvocations(children), s, env)
  {
    if registered != [] {
      var front, last := registered[..|registered| - 1], registered[|registered| - 1];
      var before := RunChildren(front, env);
      ChildrenKeep(front, env);
      InvocationsKeep(AllInvocations(before.0), before.1, last.invocations, env);
      var children := RunChildren(registered, env).0;
      assert children[..|children| - 1] == before.0;
    }
  }

  lemma EarlierContinues(all: seq<Invocation>, env: Env, i: nat, j: nat)
    requires CompletedFirst(all, env) && i < j < |all| && all[j].completed
    ensures all[i].completed && MayContinue(all[i], env.admitted(i))
  {
  }

  /** Every invocation of a run, in registry order. */
  function Ordered(registry: Registry, env: Env): seq<Invocation> {
    AllInvocations(RunChildren(registry.children, env).0)
  }

  /** The completed invocations are a prefix of registry order, and every one but the last exited 0 or 20,
      or was an admitted incomplete collector. */
  lemma CompletedAreAPrefix(registry: Registry, env: Env, i: nat, j: nat)
    requires i < j < |Ordered(registry, env)| && Ordered(registry, env)[j].completed
    ensures var v := Ordered(registry, env)[i];
            && v.completed
            && (v.exitCode == Some(0) || v.exitCode == Some(20) || (v.exitCode == Some(40) && env.admitted(i)))
  {
    ChildrenKeep(registry.children, env);
    EarlierContinues(Ordered(registry, env), env, i, j);
  }

  // ---------------------------------------------------------------- the document follows the registry

  function AllRegistrations(children: seq<RegisteredChild>): seq<Registration> {
    if children == [] then []
    else AllRegistrations(children[..|children| - 1]) + children[|children| - 1].invocations
  }

  /** Invocation ids are unique, something is registered, and only the report command takes the run's
      identities. */
  ghost predicate WellFormed(registry: Registry) {
    var all := AllRegistrations(registry.children);
    && (forall i, j | 0 <= i < j < |all| :: all[i].id != all[j].id)
    && |all| > 0
    && (forall i | 0 <= i < |all| :: all[i].command == AssuranceReport ==> all[i].id == REPORT_ID)
  }

  /** The arguments are the registered ones or the run-specific substitution. */
  predicate ArgumentsRun(arguments: seq<string>, registered: Registration) {
    || arguments == registered.arguments
    || (&& registered.command == AssuranceReport && |arguments| == 4
        && arguments[0] == "--run" && arguments[2] == "--coverage-run")
  }

  predicate FollowsRegistration(v: Invocation, registered: Registration, env: Env) {
    && FactsFit(v, registered, env.revision, env.treeDigest)
    && v.registration == registered.(arguments := v.registration.arguments)
    && ArgumentsRun(v.registration.arguments, registered)
  }

  lemma ReferenceNamesTheInvocation(id: string)
    ensures EndsWith("all/children/" + id + ".json", "/children/" + id + ".json")
  {
    assert "all/children/" + id + ".json" == "all" + ("/children/" + id + ".json");
  }

  lemma StepFollows(registered: Registration, s: Progress, env: Env)
    ensures FollowsRegistration(Step(registered, s, env).0, registered, env)
  {
    ReferenceNamesTheInvocation(registered.id);
  }

  lemma {:induction false} InvocationsFollow(registered: seq<Registration>, s: Progress, env: Env, i: nat)
    requires i < |registered|
    ensures FollowsRegistration(RunInvocations(registered, s, env).0[i], registered[i], env)
  {
    var front := registered[..|registered| - 1];
    var before := RunInvocations(front, s, env);
    if i == |registered| - 1 {
      StepFollows(registered[i], before.1, env);
    } else {
      InvocationsFollow(front, s, env, i);
    }
  }

  /** Child c of a run is what its invocations make it, from some state of the runner. */
  lemma {:induction false} ChildIsRun(registered: seq<RegisteredChild>, env: Env, c: nat) returns (s: Progress)
    requires c < |registered|
    ensures var invocations := RunInvocations(registered[c].invocations, s, env).0;
            RunChildren(registered, env).0[c]
            == Child(registered[c].id, registered[c].ordinal, ChildSummary(invocations), invocations)
    ensures s == RunChildren(registered[..c], env).1
  {
    var front := registered[..|registered| - 1];
    if c == |registered| - 1 {
      s := RunChildren(front, env).1;
    } else {
      s := ChildIsRun(front, env, c);
      assert front[..c] == registered[..c];
    }
  }

  lemma ChildFollows(registry: Registry, env: Env, c: nat)
    requires c < |registry.children|
    ensures var child := RunChildren(registry.children, env).0[c];
            && ChildShapeFits(child, registry.children[c])
            && child.summary == ChildSummary(child.invocations)
            && forall i | 0 <= i < |child.invocations| ::
                 FollowsRegistration(child.invocations[i], registry.children[c].invocations[i], env)
  {
    var s := ChildIsRun(registry.children, env, c);
    forall i | 0 <= i < |registry.children[c].invocations|
      ensures FollowsRegistration(RunInvocations(registry.children[c].invocations, s, env).0[i],
                                  registry.children[c].invocations[i], env)
    {
      InvocationsFollow(registry.children[c].invocations, s, env, i);
    }
  }

  lemma {:induction false} IdsFollow(registered: seq<RegisteredChild>, env: Env)
    ensures var all, regs := AllInvocations(RunChildren(registered, env).0), AllRegistrations(registered);
            |all| == |regs| && forall i | 0 <= i < |all| :: all[i].registration.id == regs[i].id
  {
    if registered != [] {
      var front, last := registered[..|registered| - 1], registered[|registered| - 1];
      IdsFollow(front, env);
      var before := RunChildren(front, env);
      var children := RunChildren(registered, env).0;
      assert children[..|children| - 1] == before.0;
      var invocations := RunInvocations(last.invocations, before.1, env).0;
      forall i | 0 <= i < |invocations| ensures invocations[i].registration.id == last.invocations[i].id {
        InvocationsFollow(last.invocations, before.1, env, i);
      }
    }
  }

  // ---------------------------------------------------------------- when the validator accepts

  lemma {:induction false} RegisteredIsAmongAll(children: seq<RegisteredChild>, c: nat, i: nat)
    requires c < |children| && i < |children[c].invocations|
    ensures children[c].invocations[i] in AllRegistrations(children)
  {
    var last := |children| - 1;
    if c < last {
      RegisteredIsAmongAll(children[..last], c, i);
    }
  }

  lemma {:induction false} CleanChildByChild(children: seq<Child>)
    ensures AllClean(AllInvocations(children)) <==>
            forall c | 0 <= c < |children| :: AllClean(children[c].invocations)
  {
    if children != [] {
      var front, last := children[..|children| - 1], children[|children| - 1];
      CleanChildByChild(front);
      CleanConcat(AllInvocations(front), last.invocations);
      assert forall c | 0 <= c < |front| :: front[c] == children[c];
    }
  }

  lemma CleanConcat(a: seq<Invocation>, b: seq<Invocation>)
    ensures AllClean(a + b) <==> AllClean(a) && AllClean(b)
  {
    assert forall i | 0 <= i < |a| :: (a + b)[i] == a[i];
    assert forall i | 0 <= i < |b| :: (a + b)[|a| + i] == b[i];
  }

  /** The invocation has its registered arguments, or version-4 UUIDs in place of the two identities. */
  predicate IdentityFits(v: Invocation, registered: Registration) {
    var arguments := v.registration.arguments;
    arguments == registered.arguments || (|arguments| == 4 && IsUuid4(arguments[1]) && IsUuid4(arguments[3]))
  }

  predicate ChildIdentitiesFit(child: Child, registered: RegisteredChild) {
    forall i | 0 <= i < |child.invocations| ::
      i < |registered.invocations| && IdentityFits(child.invocations[i], registered.invocations[i])
  }

  predicate IdentitiesFit(registry: Registry, env: Env) {
    var children := RunChildren(registry.children, env).0;
    forall c | 0 <= c < |children| :: ChildIdentitiesFit(children[c], registry.children[c])
  }

  lemma ArgumentsFitIff(registered: Registration, v: Invocation, env: Env)
    requires FollowsRegistration(v, registered, env)
    requires registered.command == AssuranceReport ==> registered.id == REPORT_ID
    ensures InvocationFits(v, registered, env.revision, env.treeDigest) <==> IdentityFits(v, registered)
  {
  }

  lemma AllArgumentsFitIff(registry: Registry, env: Env)
    requires WellFormed(registry)
    ensures var children := RunChildren(registry.children, env).0;
            (forall c | 0 <= c < |children| ::
               ChildFits(children[c], registry.children[c], env.revision, env.treeDigest))
            <==> IdentitiesFit(registry, env)
  {
    var children := RunChildren(registry.children, env).0;
    forall c | 0 <= c < |children|
      ensures ChildFits(children[c], registry.children[c], env.revision, env.treeDigest)
              <==> ChildIdentitiesFit(children[c], registry.children[c])
    {
      ChildFollows(registry, env, c);
      forall i | 0 <= i < |children[c].invocations|
        ensures var v, registered := children[c].invocations[i], registry.children[c].invocations[i];
                InvocationFits(v, registered, env.revision, env.treeDigest) <==> IdentityFits(v, registered)
      {
        RegisteredIsAmongAll(registry.children, c, i);
        ArgumentsFitIff(registry.children[c].invocations[i], children[c].invocations[i], env);
      }
    }
  }

  lemma OneToolDigest(all: seq<Invocation>, digest: string)
    requires |all| > 0 && forall i | 0 <= i < |all| :: all[i].toolDigest == digest
    ensures |ToolDigests(all)| == 1
  {
    assert all[0].toolDigest in ToolDigests(all);
    assert ToolDigests(all) == {digest};
  }

  lemma ChildrenFitIff(registry: Registry, env: Env)
    requires WellFormed(registry)
    ensures ChildrenFit(registry, Document(registry, env)) <==> IdentitiesFit(registry, env)
  {
    AllArgumentsFitIff(registry, env);
    var all := Ordered(registry, env);
    IdsFollow(registry.children, env);
    ChildrenKeep(registry.children, env);
    OneToolDigest(all, env.toolDigest);
    assert Distinct(all);
  }

  lemma ExitIsRegistered(t: Terminal)
    ensures Registered(AggregateExit(t))
  {
  }

  lemma SchemaHolds(registry: Registry, env: Env)
    ensures SchemaFits(Document(registry, env))
  {
    ChildrenKeep(registry.children, env);
    ExitIsRegistered(Document(registry, env).terminal);
  }

  /** A child that failed to clean up shows as an exit 60, and only that does. */
  lemma DirtyIffExited60(registry: Registry, env: Env)
    ensures var children := RunChildren(registry.children, env).0;
            && (AllClean(Ordered(registry, env)) <==> !Exited(Ordered(registry, env), 60))
            && ((forall c | 0 <= c < |children| :: children[c].summary.cleanupComplete)
                <==> AllClean(Ordered(registry, env)))
  {
    var children := RunChildren(registry.children, env).0;
    var all := Ordered(registry, env);
    ChildrenKeep(registry.children, env);
    CleanChildByChild(children);
    forall c | 0 <= c < |children|
      ensures children[c].summary.cleanupComplete <==> AllClean(children[c].invocations)
    {
      ChildFollows(registry, env, c);
    }
    forall i | 0 <= i < |all| ensures FactKept(all[i], i, env) {}
  }

  /** The active-run file is gone, unless a child failed to clean up. */
  predicate CleanupFits(all: seq<Invocation>, env: Env) {
    env.activeRunLeft ==> Exited(all, 60)
  }

  /** Each exit the runner recorded on its own account is also some completed invocation's, or is
      already implied by a known gap. */
  predicate ExtrasFit(all: seq<Invocation>, gapPresent: bool, env: Env) {
    (Overdue(all, env) ==> Exited(all, 70)) && (IdentityLost(all, env) && !gapPresent ==> Exited(all, 50))
  }

  lemma CleanupFitsIff(registry: Registry, env: Env)
    ensures var (children, s) := RunChildren(registry.children, env);
            CleanupFits(Ordered(registry, env), env) <==>
            FinalCleanup(children, s.exits, env) == ExpectedCleanup(children, env.primaryTreeUnchanged)
  {
    ChildrenKeep(registry.children, env);
    DirtyIffExited60(registry, env);
  }

  lemma TerminalFitsIff(registry: Registry, env: Env)
    requires CleanupFits(Ordered(registry, env), env)
    ensures var (children, s) := RunChildren(registry.children, env);
            var gaps := |registry.gaps| > 0;
            ExtrasFit(Ordered(registry, env), gaps, env) <==>
            TerminalObservation(s.exits, env.primaryTreeUnchanged, gaps)
            == DerivedTerminal(children, FinalCleanup(children, s.exits, env), gaps)
  {
    ChildrenKeep(registry.children, env);
    DirtyIffExited60(registry, env);
  }

  lemma DerivationsFitIff(registry: Registry, env: Env)
    ensures DerivationsFit(registry, Document(registry, env)) <==>
            && CleanupFits(Ordered(registry, env), env)
            && ExtrasFit(Ordered(registry, env), |registry.gaps| > 0, env)
  {
    CleanupFitsIff(registry, env);
    if CleanupFits(Ordered(registry, env), env) { TerminalFitsIff(registry, env); }
  }

  /** The validator accepts the runner's document -- and then both derivations gave the same items,
      roll-up, terminal flags and exit -- exactly when the substituted identities are version-4 UUIDs, no
      active run is left behind a clean exit, and the deadline passed, or an identity was lost, only
      where an invocation's exit or a known gap says so too. */
  lemma AcceptedExactlyWhen(registry: Registry, env: Env)
    requires WellFormed(registry)
    ensures Accepted(registry, Document(registry, env)) <==>
            && IdentitiesFit(registry, env)
            && CleanupFits(Ordered(registry, env), env)
            && ExtrasFit(Ordered(registry, env), |registry.gaps| > 0, env)
  {
    SchemaHolds(registry, env);
    ChildrenFitIff(registry, env);
    DerivationsFitIff(registry, env);
  }

  /** Every identity the children print is a version-4 UUID. */
  ghost predicate PrintUuids(env: Env) {
    forall k :: && (env.child(k).runId.Some? ==> IsUuid4(env.child(k).runId.value))
                && (env.child(k).coverageRun.Some? ==> IsUuid4(env.child(k).coverageRun.value))
  }

  predicate KnownAreUuids(s: Progress) {
    (s.validationRun.Some? ==> IsUuid4(s.validationRun.value)) && (s.coverageRun.Some? ==> IsUuid4(s.coverageRun.value))
  }

  lemma StepKeepsUuids(registered: Registration, s: Progress, env: Env)
    requires PrintUuids(env) && KnownAreUuids(s)
    ensures KnownAreUuids(Step(registered, s, env).1) && IdentityFits(Step(registered, s, env).0, registered)
  {
    var p := env.child(s.next);
    assert p.runId.Some? ==> IsUuid4(p.runId.value);
    assert p.coverageRun.Some? ==> IsUuid4(p.coverageRun.value);
  }

  lemma {:induction false} InvocationsKeepUuids(registered: seq<Registration>, s: Progress, env: Env)
    requires PrintUuids(env) && KnownAreUuids(s)
    ensures KnownAreUuids(RunInvocations(registered, s, env).1)
  {
    if registered != [] {
      InvocationsKeepUuids(registered[..|registered| - 1], s, env);
      StepKeepsUuids(registered[|registered| - 1], RunInvocations(registered[..|registered| - 1], s, env).1, env);
    }
  }

  lemma {:induction false} InvocationHasUuids(registered: seq<Registration>, s: Progress, env: Env, i: nat)
    requires PrintUuids(env) && KnownAreUuids(s) && i < |registered|
    ensures IdentityFits(RunInvocations(registered, s, env).0[i], registered[i])
  {
    var front := registered[..|registered| - 1];
    if i == |registered| - 1 {
      InvocationsKeepUuids(front, s, env);
      StepKeepsUuids(registered[i], RunInvocations(front, s, env).1, env);
    } else {
      InvocationHasUuids(front, s, env, i);
    }
  }

  lemma {:induction false} ChildrenKeepUuids(registered: seq<RegisteredChild>, env: Env)
    requires PrintUuids(env)
    ensures KnownAreUuids(RunChildren(registered, env).1)
  {
    if registered != [] {
      var front := registered[..|registered| - 1];
      ChildrenKeepUuids(front, env);
      InvocationsKeepUuids(registered[|registered| - 1].invocations, RunChildren(front, env).1, env);
    }
  }

  lemma UuidsFit(registry: Registry, env: Env)
    requires PrintUuids(env)
    ensures IdentitiesFit(registry, env)
  {
    forall c | 0 <= c < |registry.children|
      ensures ChildIdentitiesFit(RunChildren(registry.children, env).0[c], registry.children[c])
    {
      var registered := registry.children[c];
      var s := ChildIsRun(registry.children, env, c);
      ChildrenKeepUuids(registry.children[..c], env);
      forall i | 0 <= i < |registered.invocations|
        ensures IdentityFits(RunInvocations(registered.invocations, s, env).0[i], registered.invocations[i])
      {
        InvocationHasUuids(registered.invocations, s, env, i);
      }
    }
  }

  /** With a known gap, a deadline noticed only after a child that itself exits 70, no active run left,
      and UUIDs for identities, every sequence of child outcomes gives accepted evidence. */
  lemma OrderlyRunsAreAccepted(registry: Registry, env: Env)
    requires WellFormed(registry) && |registry.gaps| > 0 && !env.activeRunLeft && PrintUuids(env)
    requires Overdue(Ordered(registry, env), env) ==> Exited(Ordered(registry, env), 70)
    ensures Accepted(registry, Document(registry, env))
  {
    UuidsFit(registry, env);
    AcceptedExactlyWhen(registry, env);
  }

  /** A deadline that passes between two children is never published: its 70 has no invocation. */
  lemma LateRunsAreRejected(registry: Registry, env: Env)
    requires WellFormed(registry) && Overdue(Ordered(registry, env), env)
    requires forall k :: ChildTerminal(env.child(k)).0 != 70
    ensures !Accepted(registry, Document(registry, env))
  {
    ChildrenKeep(registry.children, env);
    AcceptedExactlyWhen(registry, env);
  }

  // ---------------------------------------------------------------- the flag form of exit selection

  /** The exits with drift and gaps written as the exits they stand for. */
  function WithFlags(exits: seq<int>, primaryTreeUnchanged: bool, gapPresent: bool): seq<int> {
    exits + (if primaryTreeUnchanged then [] else [60]) + (if gapPresent then [50] else [])
  }

  lemma FlagsAreExits(exits: seq<int>, pristine: bool, gap: bool, code: int)
    ensures code in WithFlags(exits, pristine, gap) <==>
            code in exits || (code == 60 && !pristine) || (code == 50 && gap)
  {
  }

  /** The aggregate's exit, computed over terminal flags, is the command selector's choice among the
      recorded exits, drift counting as 60 and a known gap as 50. */
  lemma FlagFormIsSelection(exits: seq<int>, pristine: bool, gap: bool)
    requires forall c :: c in exits ==> Registered(c)
    ensures Select(WithFlags(exits, pristine, gap))
            == Selected(AggregateExit(TerminalObservation(exits, pristine, gap)))
  {
    var codes := WithFlags(exits, pristine, gap);
    var exit := AggregateExit(TerminalObservation(exits, pristine, gap));
    forall c ensures c in codes <==> c in exits || (c == 60 && !pristine) || (c == 50 && gap) {
      FlagsAreExits(exits, pristine, gap, c);
    }
    forall c | c in codes ensures Severity(exit) <= Severity(c) {
      assert Registered(c);
    }
    SelectIsMostSevere(codes, exit);
  }
}
