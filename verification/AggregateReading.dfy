/** What an aggregate says, read off what its children did and not off the derivations: how far a run gets,
    what each child's exit means, and what an accepted document's lists, outcomes, flags and exit stand for. */
module AggregateReading {
  import opened AggregateAgreement
  import opened AggregateEvidence
  import opened AggregateIdentities
  import opened AggregateRunner
  import opened AggregateValidator
  import opened ExitPrecedence
  import opened Options

  // ---------------------------------------------------------------- how far a run gets

  /** Nothing but the child's own exit decides: it was neither interrupted nor cut off. */
  predicate Undisturbed(p: ChildProcess) {
    !p.cleanupFailed && p.forwarded.None? && !p.timedOut && !p.setupFailed && !p.outputTruncated
  }

  /** The exit recorded for a child, and whether it stops the aggregate. */
  lemma ChildTerminalMeans(p: ChildProcess)
    ensures var (exit, stop) := ChildTerminal(p);
            var own := if Undisturbed(p) then p.code else None;
            && (stop <==> exit != 0 && exit != 20)
            && (exit == 0 <==> own == Some(0))
            && (exit == 20 <==> own == Some(20))
            && (exit == 21 <==> own == Some(21))
            && (exit == 40 <==> own == Some(40))
            && (exit == 50 <==> own == Some(50))
            && (exit == 60 <==> p.cleanupFailed || own == Some(60))
            && (exit == 130 <==> (!p.cleanupFailed && p.forwarded == Some(Sigint)) || own == Some(130))
            && (exit == 143 <==> (!p.cleanupFailed && p.forwarded == Some(Sigterm)) || own == Some(143))
            && (exit == 70 <==> (!p.cleanupFailed && p.forwarded.None? && p.timedOut) || own == Some(70))
            && exit in {0, 20, 21, 30, 40, 50, 60, 70, 130, 143}
  {
    if p.forwarded.Some? { assert p.forwarded.value.Sigint? || p.forwarded.value.Sigterm?; }
  }

  /** After this child the aggregate goes on: it succeeded and printed what it must, retained a known defect, or
      is an admitted incomplete collector. */
  predicate GoesOn(registered: Registration, p: ChildProcess, admitted: bool) {
    var exit := ChildTerminal(p).0;
    || exit == 20
    || (exit == 40 && admitted)
    || (exit == 0 && (registered.command == AssuranceValidate ==> p.runId.Some?)
        && (registered.id == "coverage-security-production-security" ==> p.coverageRun.Some?))
  }

  /** Two hours, in milliseconds. */
  predicate InTime(elapsed: int) {
    elapsed < 2 * 60 * 60 * 1000
  }

  /** One invocation keeps the aggregate going, or not. */
  lemma StepGoesOn(registered: Registration, s: Progress, env: Env)
    ensures var after := Step(registered, s, env).1;
            && after.next == s.next + 1
            && (!after.stopped <==>
                  && !s.stopped && InTime(env.elapsed(s.next))
                  && GoesOn(registered, env.child(s.next), env.admitted(s.next)))
  {
    ChildTerminalMeans(env.child(s.next));
  }

  /** One invocation's record. */
  lemma StepRecords(registered: Registration, s: Progress, env: Env)
    ensures var v, p := Step(registered, s, env).0, env.child(s.next);
            && (v.completed <==> !s.stopped && InTime(env.elapsed(s.next)))
            && Recorded(v, registered, p, env.artifact(s.next), env)
  {
  }

  /** The facts of the child when the invocation ran, and none when it did not. */
  predicate Recorded(v: Invocation, registered: Registration, p: ChildProcess, artifact: string, env: Env) {
    && v.registration.id == registered.id && v.registration.command == registered.command == v.toolIdentity
    && v.sourceRevision == env.revision && v.sourceTreeDigest == env.treeDigest && v.toolDigest == env.toolDigest
    && (v.completed ==>
          && v.exitCode == Some(ChildTerminal(p).0) && v.artifactDigest == Some(artifact)
          && v.artifactReference == Some("all/children/" + registered.id + ".json")
          && (v.cleanupComplete <==> !p.cleanupFailed && ChildTerminal(p).0 != 60) && v.notRunReason.None?)
    && (!v.completed ==>
          && v.exitCode.None? && v.artifactDigest.None? && v.artifactReference.None? && !v.cleanupComplete
          && v.notRunReason == Some(EarlierChildTerminated))
  }

  lemma {:induction false} RunningStill(registered: seq<Registration>, env: Env, k: nat)
    requires k <= |registered|
    ensures Before(registered, env, k).next == k
    ensures !Before(registered, env, k).stopped <==>
            forall j | 0 <= j < k :: InTime(env.elapsed(j)) && GoesOn(registered[j], env.child(j), env.admitted(j))
  {
    if k > 0 {
      RunningStill(registered, env, k - 1);
      OneMoreRun(registered, START, env, k - 1);
      StepGoesOn(registered[k - 1], Before(registered, env, k - 1), env);
    }
  }

  /** An invocation runs exactly when the two hours were not over at it or before it, and every child before it
      let the aggregate go on. */
  lemma RunsExactlyUntil(registry: Registry, env: Env, k: nat)
    requires k < |AllRegistrations(registry.children)|
    ensures |Ordered(registry, env)| == |AllRegistrations(registry.children)|
    ensures Ordered(registry, env)[k].completed <==>
            && (forall j | 0 <= j <= k :: InTime(env.elapsed(j)))
            && (forall j | 0 <= j < k ::
                  GoesOn(AllRegistrations(registry.children)[j], env.child(j), env.admitted(j)))
  {
    var all := AllRegistrations(registry.children);
    OneRow(registry.children, env);
    InvocationAt(all, env, k);
    RunningStill(all, env, k);
    StepRecords(all[k], Before(all, env, k), env);
  }

  /** What is recorded of an invocation: the facts of its child when it ran, and none when it did not. */
  lemma RecordedFacts(registry: Registry, env: Env, k: nat)
    requires k < |AllRegistrations(registry.children)|
    ensures |Ordered(registry, env)| == |AllRegistrations(registry.children)|
    ensures Recorded(Ordered(registry, env)[k], AllRegistrations(registry.children)[k], env.child(k), env.artifact(k),
                     env)
  {
    var all := AllRegistrations(registry.children);
    OneRow(registry.children, env);
    InvocationAt(all, env, k);
    RunningStill(all, env, k);
    StepRecords(all[k], Before(all, env, k), env);
  }

  // ---------------------------------------------------------------- what an outcome means

  predicate SomeRan(invocations: seq<Invocation>) {
    exists i | 0 <= i < |invocations| :: invocations[i].completed
  }

  predicate AllRan(invocations: seq<Invocation>) {
    forall i | 0 <= i < |invocations| :: invocations[i].completed
  }

  /** Some invocation ran and exited otherwise than by success, a known defect, or an incomplete collection. */
  predicate SomeFailed(invocations: seq<Invocation>) {
    exists i | 0 <= i < |invocations| ::
      invocations[i].completed && invocations[i].exitCode !in {Some(0), Some(20), Some(40)}
  }

  lemma {:induction false} CompletedCounts(invocations: seq<Invocation>)
    ensures |Completed(invocations)| <= |invocations|
    ensures |Completed(invocations)| == |invocations| <==> AllRan(invocations)
    ensures |Completed(invocations)| > 0 <==> SomeRan(invocations)
  {
    if invocations != [] {
      var last := |invocations| - 1;
      CompletedCounts(invocations[..last]);
      assert forall i | 0 <= i < last :: invocations[..last][i] == invocations[i];
    }
  }

  lemma FailedAmongCompleted(invocations: seq<Invocation>)
    ensures var completed := Completed(invocations);
            (exists i | 0 <= i < |completed| :: completed[i].exitCode !in {Some(0), Some(20), Some(40)})
            <==> SomeFailed(invocations)
  {
    var completed := Completed(invocations);
    if i :| 0 <= i < |completed| && completed[i].exitCode !in {Some(0), Some(20), Some(40)} {
      CompletedAre(invocations, completed[i]);
      assert completed[i] in completed;
      var j :| 0 <= j < |invocations| && invocations[j] == completed[i];
    }
    if j :| 0 <= j < |invocations| && invocations[j].completed
            && invocations[j].exitCode !in {Some(0), Some(20), Some(40)} {
      CompletedAre(invocations, invocations[j]);
      var i :| 0 <= i < |completed| && completed[i] == invocations[j];
    }
  }

  /** A child's outcome, as runner and validator derive it, in terms of its invocations. */
  lemma OutcomeMeans(invocations: seq<Invocation>)
    ensures var s := ChildSummary(invocations);
            var allRan, failed := AllRan(invocations), SomeFailed(invocations);
            && (s.completed <==> SomeRan(invocations)) && s.managed == s.completed
            && (s.outcome.None? <==> !s.completed)
            && s.notRunReason == (if s.completed then None else Some(EarlierChildTerminated))
            && (s.outcome == Some(AssertionFailed) <==> failed)
            && (s.outcome == Some(IncompleteOutcome) <==>
                  s.completed && !failed && (!allRan || Exited(invocations, 40)))
            && (s.outcome == Some(KnownProductDefect) <==>
                  s.completed && !failed && allRan && !Exited(invocations, 40) && Exited(invocations, 20))
            && (s.outcome == Some(Passed) <==>
                  && s.completed
                  && forall i | 0 <= i < |invocations| ::
                       invocations[i].completed && invocations[i].exitCode == Some(0))
            && (s.cleanupComplete <==>
                  forall i | 0 <= i < |invocations| && invocations[i].completed :: invocations[i].cleanupComplete)
  {
    CompletedCounts(invocations);
    FailedAmongCompleted(invocations);
  }

  // ---------------------------------------------------------------- what an item means

  /** The conclusion drawn from one invocation of a child. */
  predicate Concludes(childId: ChildId, v: Invocation, conclusion: Conclusion) {
    var survived := v.completed && v.exitCode == Some(21) && childId == FaultChild;
    match conclusion
    case Assured => v.completed && v.exitCode == Some(0)
    case Blocked => v.completed && v.exitCode == Some(20)
    case Survived => survived
    case Incomplete => !survived && !(v.completed && v.exitCode in {Some(0), Some(20)})
    case Unqualified => false
  }

  /** An item repeats what its invocation did. */
  lemma InvocationItemMeans(childId: ChildId, v: Invocation)
    ensures var item := InvocationItem(childId, v);
            && item.id == "invocation:" + v.registration.id && item.childId == childId && item.completed == v.completed
            && (forall c: Conclusion :: item.conclusion == c <==> Concludes(childId, v, c))
            && (item.observation.None? <==> !v.completed)
            && (item.observation == Some(ObservedPass) <==> item.conclusion == Assured)
            && (item.observation == Some(ProductDefectObserved) <==> item.conclusion == Blocked)
            && (item.observation == Some(FaultSurvived) <==> item.conclusion == Survived)
            && (item.observation == Some(EvidenceIncomplete) <==> v.completed && v.exitCode == Some(40))
            && (item.authority == KnownProductDefectCollector <==> item.conclusion == Blocked)
            && (item.authority == KnownProductDefectCollector || item.authority == Eligible)
            && item.notRunReason == (if v.completed then None else v.notRunReason)
  {
    forall c: Conclusion ensures InvocationItem(childId, v).conclusion == c <==> Concludes(childId, v, c) {
      match c
      case Assured => case Blocked => case Incomplete => case Survived => case Unqualified =>
    }
  }

  /** A known gap is an item that did not run, with the gap's own conclusion. */
  lemma GapItemMeans(gap: Gap)
    ensures var item := GapItem(gap);
            && item.id == gap.id && item.childId == ReportChild && item.conclusion == gap.conclusion
            && item.authority == gap.authority && !item.completed && item.observation.None?
            && (item.notRunReason == Some(AuthorityContractUnavailable) <==> gap.authority == AuthorityBlocked)
            && (item.notRunReason == Some(ObservationUnqualified) <==> gap.authority != AuthorityBlocked)
  {
  }

  lemma {:induction false} ItemOfInvocation(children: seq<Child>, c: nat, i: nat) returns (k: nat)
    requires c < |children| && i < |children[c].invocations|
    ensures k < |InvocationItems(children)|
    ensures InvocationItems(children)[k] == InvocationItem(children[c].id, children[c].invocations[i])
  {
    var last := |children| - 1;
    if c == last {
      k := |InvocationItems(children[..last])| + i;
    } else {
      k := ItemOfInvocation(children[..last], c, i);
    }
  }

  lemma {:induction false} InvocationOfItem(children: seq<Child>, k: nat) returns (c: nat, i: nat)
    requires k < |InvocationItems(children)|
    ensures c < |children| && i < |children[c].invocations|
    ensures InvocationItems(children)[k] == InvocationItem(children[c].id, children[c].invocations[i])
  {
    var last := |children| - 1;
    if k < |InvocationItems(children[..last])| {
      c, i := InvocationOfItem(children[..last], k);
    } else {
      c, i := last, k - |InvocationItems(children[..last])|;
    }
  }

  // ---------------------------------------------------------------- what the roll-up means

  /** The list a conclusion is filed in. */
  function ListOf(r: Rollup, conclusion: Conclusion): seq<string> {
    match conclusion
    case Assured => r.assured
    case Blocked => r.blocked
    case Incomplete => r.incomplete
    case Survived => r.survived
    case Unqualified => r.unqualified
  }

  /** The i-th invocation of child c is called so and concludes so. */
  predicate InvocationConcludes(e: Evidence, c: nat, i: nat, conclusion: Conclusion, id: string) {
    && c < |e.children| && i < |e.children[c].invocations|
    && id == "invocation:" + e.children[c].invocations[i].registration.id
    && Concludes(e.children[c].id, e.children[c].invocations[i], conclusion)
  }

  predicate GapConcludes(registry: Registry, g: nat, conclusion: Conclusion, id: string) {
    g < |registry.gaps| && registry.gaps[g].id == id && registry.gaps[g].conclusion == conclusion
  }

  lemma ListedExactlyWhenFiled(e: Evidence, conclusion: Conclusion, id: string)
    requires FiledByConclusion(e.items, e.rollup)
    ensures id in ListOf(e.rollup, conclusion) <==>
            exists k: nat :: k < |e.items| && IsFiled(e.items[k], conclusion, id)
  {
    var list := ListOf(e.rollup, conclusion);
    assert multiset(list)[id] == Count(e.items, conclusion, id) by {
      match conclusion
      case Assured => case Blocked => case Incomplete => case Survived => case Unqualified =>
    }
    if k: nat :| k < |e.items| && IsFiled(e.items[k], conclusion, id) {
      assert k in Places(e.items, conclusion, id);
    }
    if id in list {
      assert multiset(list)[id] > 0;
      assert Places(e.items, conclusion, id) != {};
      var k :| k in Places(e.items, conclusion, id);
    }
  }

  lemma ItemsOfDocument(registry: Registry, e: Evidence, conclusion: Conclusion, id: string)
    requires ItemsFit(registry, e)
    ensures (exists k: nat :: k < |e.items| && IsFiled(e.items[k], conclusion, id)) <==>
            || (exists c, i :: InvocationConcludes(e, c, i, conclusion, id))
            || (exists g :: GapConcludes(registry, g, conclusion, id))
  {
    var ran := InvocationItems(e.children);
    if k: nat :| k < |e.items| && IsFiled(e.items[k], conclusion, id) {
      if k < |ran| {
        var c, i := InvocationOfItem(e.children, k);
        InvocationItemMeans(e.children[c].id, e.children[c].invocations[i]);
        assert InvocationConcludes(e, c, i, conclusion, id);
      } else {
        assert e.items[k] == GapItem(registry.gaps[k - |ran|]);
        assert GapConcludes(registry, k - |ran|, conclusion, id);
      }
    }
    if c: nat, i: nat :| InvocationConcludes(e, c, i, conclusion, id) {
      InvocationItemMeans(e.children[c].id, e.children[c].invocations[i]);
      var k := ItemOfInvocation(e.children, c, i);
      assert e.items[k] == ran[k] && IsFiled(e.items[k], conclusion, id);
    }
    if g: nat :| GapConcludes(registry, g, conclusion, id) {
      var k := |ran| + g;
      assert e.items[k] == GapItem(registry.gaps[g]) && IsFiled(e.items[k], conclusion, id);
    }
  }

  /** Which list of an accepted document names what: exactly the invocations that concluded so, by their exits,
      and the known gaps with that conclusion. */
  lemma RollupTellsWhatRan(registry: Registry, e: Evidence, conclusion: Conclusion, id: string)
    requires Accepted(registry, e)
    ensures id in ListOf(e.rollup, conclusion) <==>
            || (exists c, i :: InvocationConcludes(e, c, i, conclusion, id))
            || (exists g :: GapConcludes(registry, g, conclusion, id))
  {
    RollupIsASortedPartition(registry, e, id);
    ListedExactlyWhenFiled(e, conclusion, id);
    ItemsOfDocument(registry, e, conclusion, id);
  }

  // ---------------------------------------------------------------- what flags, exit and cleanup mean

  /** An exit the document accounts for: some invocation's, or 60 for a drifted tree or an incomplete cleanup,
      or 50 for a known gap. */
  predicate Says(registry: Registry, e: Evidence, code: int) {
    var all := AllInvocations(e.children);
    || Exited(all, code)
    || (code == 60 && (!e.cleanup.primaryTreeUnchanged || !AllClean(all)))
    || (code == 50 && |registry.gaps| > 0)
  }

  /** The flags of an accepted document, one by one. */
  lemma FlagsMean(registry: Registry, e: Evidence)
    requires Accepted(registry, e)
    ensures var all, t := AllInvocations(e.children), e.terminal;
            && (t.cleanupOrPrimaryTreeDrift <==> Says(registry, e, 60))
            && (t.signal == Some(Sigint) <==> Exited(all, 130))
            && (t.signal == Some(Sigterm) <==> Exited(all, 143) && !Exited(all, 130))
            && (t.timedOut <==> Exited(all, 70))
            && (t.invalidEvidence <==> Says(registry, e, 50))
            && (t.coverageIncomplete <==> Exited(all, 40))
            && (t.infrastructureFailed <==> Exited(all, 30))
            && (t.productDefectObserved <==> Exited(all, 20))
            && (t.assertionFailedOrFaultSurvived <==> Exited(all, 21))
  {
    CleanChildren(e);
  }

  lemma CleanChildren(e: Evidence)
    requires forall c | 0 <= c < |e.children| :: e.children[c].summary == ChildSummary(e.children[c].invocations)
    ensures (exists c | 0 <= c < |e.children| :: !e.children[c].summary.cleanupComplete) <==>
            !AllClean(AllInvocations(e.children))
  {
    CleanChildByChild(e.children);
  }

  /** What the cleanup section of an accepted document says. */
  lemma CleanupMeans(registry: Registry, e: Evidence)
    requires Accepted(registry, e)
    ensures var all, c := AllInvocations(e.children), e.cleanup;
            && (c.recoveryRequired <==> Exited(all, 60))
            && c.activeChildStopped == c.childProcessGroupStopped == !c.recoveryRequired
            && (c.ownedResourcesRemovedOrExactlyRecovered <==> AllClean(all) && !c.recoveryRequired)
            && c.recoveryCommand.None?
  {
    CleanChildren(e);
  }

  /** The flags an exit stands for: the first that is set decides. */
  predicate Flagged(t: Terminal, code: int) {
    || (code == 60 && t.cleanupOrPrimaryTreeDrift)
    || (code == 130 && t.signal == Some(Sigint))
    || (code == 143 && t.signal == Some(Sigterm))
    || (code == 70 && t.timedOut) || (code == 50 && t.invalidEvidence) || (code == 40 && t.coverageIncomplete)
    || (code == 30 && t.infrastructureFailed) || (code == 20 && t.productDefectObserved)
    || (code == 21 && t.assertionFailedOrFaultSurvived)
  }

  lemma FirstFlag(t: Terminal)
    ensures AggregateExit(t) == 0 || Flagged(t, AggregateExit(t))
    ensures forall code :: Flagged(t, code) ==> Severity(AggregateExit(t)) <= Severity(code)
  {
  }

  /** The exit of an accepted document is the most severe of everything it accounts for. */
  lemma ExitIsMostSevere(registry: Registry, e: Evidence)
    requires Accepted(registry, e)
    ensures e.exitCode == 0 || Says(registry, e, e.exitCode)
    ensures forall code :: Says(registry, e, code) ==> Severity(e.exitCode) <= Severity(code)
  {
    FirstFlag(e.terminal);
    if e.exitCode != 0 { FlaggedIsSaid(registry, e, e.exitCode); }
    forall code | Says(registry, e, code) ensures Severity(e.exitCode) <= Severity(code) {
      SaidIsRegistered(registry, e, code);
      SaidIsFlagged(registry, e, code);
    }
  }

  lemma SaidIsRegistered(registry: Registry, e: Evidence, code: int)
    requires SchemaFits(e) && Says(registry, e, code)
    ensures code in {0, 20, 21, 30, 40, 50, 60, 70, 130, 143}
  {
    var all := AllInvocations(e.children);
    if Exited(all, code) {
      var i :| 0 <= i < |all| && all[i].completed && all[i].exitCode == Some(code);
      assert Registered(all[i].exitCode.value);
    }
  }

  lemma FlaggedIsSaid(registry: Registry, e: Evidence, code: int)
    requires Accepted(registry, e) && Flagged(e.terminal, code)
    ensures Says(registry, e, code)
  {
    FlagsMean(registry, e);
  }

  /** Every exit but success and a hidden second signal has its flag. */
  lemma SaidIsFlagged(registry: Registry, e: Evidence, code: int)
    requires Accepted(registry, e) && Says(registry, e, code) && code in {0, 20, 21, 30, 40, 50, 60, 70, 130, 143}
    ensures code == 0 || Flagged(e.terminal, code) || (code == 143 && Flagged(e.terminal, 130))
  {
    FlagsMean(registry, e);
  }

  /** The reason names the exit. */
  lemma ReasonNamesTheExit(registry: Registry, e: Evidence)
    requires Accepted(registry, e)
    ensures e.exitCode == 0 <==> e.terminalReason == AllRegisteredItemsAssured
    ensures e.exitCode == 20 <==> e.terminalReason == KnownProductDefectRetained
    ensures e.exitCode == 21 <==> e.terminalReason == AssertionOrFaultSurvival
    ensures e.exitCode == 30 <==> e.terminalReason == InfrastructureFailure
    ensures e.exitCode == 40 <==> e.terminalReason == CoverageIncomplete
    ensures e.exitCode == 50 <==> e.terminalReason == BlockedOrUnqualifiedItemsRetained
    ensures e.exitCode == 60 <==> e.terminalReason == CleanupOrPrimaryTreeDrift
    ensures e.exitCode == 70 <==> e.terminalReason == ChildTimeout
    ensures e.exitCode == 130 <==> e.terminalReason == InterruptedSigint
    ensures e.exitCode == 143 <==> e.terminalReason == InterruptedSigterm
  {
    assert Registered(e.exitCode);
  }

  // ---------------------------------------------------------------- what acceptance binds

  ghost predicate IsSuffix(suffix: string, text: string) {
    exists before: string :: before + suffix == text
  }

  lemma EndsWithMeans(text: string, suffix: string)
    ensures EndsWith(text, suffix) <==> IsSuffix(suffix, text)
  {
    if EndsWith(text, suffix) {
      assert text[..|text| - |suffix|] + suffix == text;
    }
  }

  /** What the validator demands of one invocation: the registered command with its registered arguments, or the
      report's with two run identities, bound to the baseline, with all facts of a run or none. */
  ghost predicate Bound(v: Invocation, registered: Registration, revision: string, treeDigest: string) {
    var r, arguments := v.registration, v.registration.arguments;
    && r.id == registered.id && r.command == registered.command
    && r.selector == registered.selector && r.profile == registered.profile
    && (|| arguments == registered.arguments
        || (&& r.id == "report-aggregate-run" && |arguments| == 4
            && arguments[0] == "--run" && arguments[2] == "--coverage-run"
            && IsUuid4(arguments[1]) && IsUuid4(arguments[3])))
    && v.sourceRevision == revision && v.sourceTreeDigest == treeDigest && v.toolIdentity == registered.command
    && v.completed == v.exitCode.Some? == v.artifactReference.Some? == v.artifactDigest.Some? == v.notRunReason.None?
    && (v.completed ==> IsSuffix("/children/" + registered.id + ".json", v.artifactReference.value))
    && (v.cleanupComplete ==> v.completed)
  }

  lemma BoundIff(v: Invocation, registered: Registration, revision: string, treeDigest: string)
    ensures InvocationFits(v, registered, revision, treeDigest) <==> Bound(v, registered, revision, treeDigest)
  {
    var r := v.registration;
    if v.artifactReference.Some? { EndsWithMeans(v.artifactReference.value, "/children/" + r.id + ".json"); }
    if r.id == registered.id && r.command == registered.command && r.selector == registered.selector
       && r.profile == registered.profile {
      assert r == registered.(arguments := r.arguments);
    }
  }

  /** The children of a document are accepted exactly when they are the registered ones in order, every
      invocation is bound, no id occurs twice, all name one tool digest, and every outcome is the derived one. */
  lemma ChildrenAcceptedIff(registry: Registry, e: Evidence)
    ensures ChildrenFit(registry, e) <==>
            var all := AllInvocations(e.children);
            && |e.children| == |registry.children| && |all| > 0
            && (forall c | 0 <= c < |e.children| ::
                  var child, registered := e.children[c], registry.children[c];
                  && child.id == registered.id && child.ordinal == registered.ordinal
                  && |child.invocations| == |registered.invocations|
                  && child.summary == ChildSummary(child.invocations)
                  && forall i | 0 <= i < |child.invocations| ::
                       Bound(child.invocations[i], registered.invocations[i], e.baselineRevision, e.baselineTreeDigest))
            && (forall i, j | 0 <= i < j < |all| :: all[i].registration.id != all[j].registration.id)
            && (forall j | 0 <= j < |all| :: all[j].toolDigest == all[0].toolDigest)
  {
    OneDigestIff(AllInvocations(e.children));
    forall v: Invocation, registered: Registration
      ensures InvocationFits(v, registered, e.baselineRevision, e.baselineTreeDigest)
              <==> Bound(v, registered, e.baselineRevision, e.baselineTreeDigest)
    {
      BoundIff(v, registered, e.baselineRevision, e.baselineTreeDigest);
    }
  }

  lemma OneDigestIff(all: seq<Invocation>)
    ensures |ToolDigests(all)| == 1 <==>
            |all| > 0 && forall j | 0 <= j < |all| :: all[j].toolDigest == all[0].toolDigest
  {
    var digests := ToolDigests(all);
    if |all| > 0 {
      assert all[0].toolDigest in digests;
      if |digests| == 1 {
        forall j | 0 <= j < |all| ensures all[j].toolDigest == all[0].toolDigest {
          assert all[j].toolDigest in digests;
          OnlyElement(digests, all[0].toolDigest, all[j].toolDigest);
        }
      }
      if forall j | 0 <= j < |all| :: all[j].toolDigest == all[0].toolDigest {
        OneToolDigest(all, all[0].toolDigest);
      }
    }
  }

  lemma OnlyElement(s: set<string>, a: string, b: string)
    requires |s| == 1 && a in s && b in s
    ensures a == b
  {
    assert |s - {a}| == 0;
    assert b !in s - {a};
  }

  /** The identities the validator takes for run identities, exactly. */
  lemma Uuid4Shape(s: string)
    ensures IsUuid4(s) <==>
            && |s| == 36 && s[8] == s[13] == s[18] == s[23] == '-' && s[14] == '4' && s[19] in {'8', '9', 'a', 'b'}
            && forall k | 0 <= k < 36 && k !in {8, 13, 18, 23} :: '0' <= s[k] <= '9' || 'a' <= s[k] <= 'f'
  {
    if |s| == 36 {
      assert s[19] in "89ab" <==> s[19] in {'8', '9', 'a', 'b'};
      if s[8] == s[13] == s[18] == s[23] == '-'
         && forall k | 0 <= k < 36 && k !in {8, 13, 18, 23} :: '0' <= s[k] <= '9' || 'a' <= s[k] <= 'f' {
        forall k | 0 <= k < 36 ensures if DashAt(k) then s[k] == '-' else HexDigit(s[k]) {}
      }
      if IsUuid4(s) {
        assert DashAt(8) && DashAt(13) && DashAt(18) && DashAt(23);
        forall k | 0 <= k < 36 && k !in {8, 13, 18, 23} ensures '0' <= s[k] <= '9' || 'a' <= s[k] <= 'f' {
          assert !DashAt(k);
        }
      }
    }
  }

  // ---------------------------------------------------------------- published documents

  lemma {:induction false} PositionOf(children: seq<Child>, c: nat, i: nat) returns (k: nat)
    requires c < |children| && i < |children[c].invocations|
    ensures k < |AllInvocations(children)| && AllInvocations(children)[k] == children[c].invocations[i]
  {
    var last := |children| - 1;
    if c == last {
      k := |AllInvocations(children[..last])| + i;
    } else {
      k := PositionOf(children[..last], c, i);
    }
  }

  lemma {:induction false} ChildAt(children: seq<Child>, k: nat) returns (c: nat, i: nat)
    requires k < |AllInvocations(children)|
    ensures c < |children| && i < |children[c].invocations| && AllInvocations(children)[k] == children[c].invocations[i]
  {
    var last := |children| - 1;
    if k < |AllInvocations(children[..last])| {
      c, i := ChildAt(children[..last], k);
    } else {
      c, i := last, k - |AllInvocations(children[..last])|;
    }
  }

  /** The k-th registered invocation is called so, is reached in time with every child before it going on, and
      its child exits with the code. */
  predicate ReachedAndExits(registry: Registry, env: Env, k: nat, id: string, code: int) {
    var all := AllRegistrations(registry.children);
    && k < |all| && id == "invocation:" + all[k].id
    && (forall j | 0 <= j <= k :: InTime(env.elapsed(j)))
    && (forall j | 0 <= j < k :: GoesOn(all[j], env.child(j), env.admitted(j)))
    && ChildTerminal(env.child(k)).0 == code
  }

  /** By position in the row or by child, the same invocations. */
  lemma ConcludedAtSomePosition(registry: Registry, env: Env, conclusion: Conclusion, id: string, code: int)
    requires (conclusion == Assured && code == 0) || (conclusion == Blocked && code == 20)
    ensures (exists c, i :: InvocationConcludes(Document(registry, env), c, i, conclusion, id)) <==>
            exists k :: ReachedAndExits(registry, env, k, id, code)
  {
    var e := Document(registry, env);
    if c: nat, i: nat :| InvocationConcludes(e, c, i, conclusion, id) {
      var k := PositionOf(e.children, c, i);
      OneRow(registry.children, env);
      RunsExactlyUntil(registry, env, k);
      RecordedFacts(registry, env, k);
      assert ReachedAndExits(registry, env, k, id, code);
    }
    if k: nat :| ReachedAndExits(registry, env, k, id, code) {
      RunsExactlyUntil(registry, env, k);
      RecordedFacts(registry, env, k);
      var c, i := ChildAt(e.children, k);
      assert InvocationConcludes(e, c, i, conclusion, id);
    }
  }

  /** From the children to the roll-up: a run that is published lists as assured exactly the invocations it
      reached whose children exited 0, as blocked exactly those whose children exited 20, and the known gaps of
      that conclusion. */
  lemma PublishedTellsWhatRan(registry: Registry, env: Env, id: string)
    requires Accepted(registry, Document(registry, env))
    ensures id in Document(registry, env).rollup.assured <==>
            || (exists k :: ReachedAndExits(registry, env, k, id, 0))
            || (exists g :: GapConcludes(registry, g, Assured, id))
    ensures id in Document(registry, env).rollup.blocked <==>
            || (exists k :: ReachedAndExits(registry, env, k, id, 20))
            || (exists g :: GapConcludes(registry, g, Blocked, id))
  {
    RollupTellsWhatRan(registry, Document(registry, env), Assured, id);
    RollupTellsWhatRan(registry, Document(registry, env), Blocked, id);
    ConcludedAtSomePosition(registry, env, Assured, id, 0);
    ConcludedAtSomePosition(registry, env, Blocked, id, 20);
  }
}
