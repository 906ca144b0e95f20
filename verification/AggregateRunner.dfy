/** The aggregate runner: an early-stopping pass over an arbitrary registry that builds the evidence
    document step by step, and when the independent validator accepts what it built. */
module AggregateRunner {
  import opened AggregateEvidence
  import opened AggregateValidator
  import opened Options

  /** What one managed child did; `runId` and `coverageRun` are the identities found in its output. */
  datatype ChildProcess = ChildProcess(code: Option<int>, forwarded: Option<Signal>, timedOut: bool,
                                       setupFailed: bool, cleanupFailed: bool, outputTruncated: bool,
                                       runId: Option<string>, coverageRun: Option<string>)

  /** The k-th invocation meets: two readings of the elapsed milliseconds, a child process, the digest of
      its artifact, and whether a known incomplete collector may continue. */
  datatype Env = Env(elapsed: nat -> int, elapsedAgain: nat -> int, child: nat -> ChildProcess,
                     artifact: nat -> string, admitted: nat -> bool,
                     revision: string, treeDigest: string, toolDigest: string,
                     primaryTreeUnchanged: bool, activeRunLeft: bool)

  const DEADLINE := 7_200_000

  const COVERAGE_ID := "coverage-security-production-security"

  /** One stable exit and stop decision from a child's outcome. */
  function ChildTerminal(p: ChildProcess): (int, bool) {
    if p.cleanupFailed then (60, true)
    else if p.forwarded == Some(Sigint) then (130, true)
    else if p.forwarded == Some(Sigterm) then (143, true)
    else if p.timedOut then (70, true)
    else if p.setupFailed || p.outputTruncated || p.code.None? then (30, true)
    else if p.code == Some(0) then (0, false)
    else if p.code == Some(20) then (20, false)
    else if p.code.value in {21, 30, 40, 50, 60, 70, 130, 143} then (p.code.value, true)
    else (30, true)
  }

  /** `extras`: the exits recorded that no completed invocation had. */
  datatype Progress = Progress(next: nat, stopped: bool, validationRun: Option<string>,
                               coverageRun: Option<string>, exits: seq<int>, extras: set<int>)

  const START := Progress(0, false, None, None, [], {})

  function Effective(registered: Registration, s: Progress): Registration {
    if registered.command == AssuranceReport && s.validationRun.Some? && s.coverageRun.Some?
    then registered.(arguments := ["--run", s.validationRun.value, "--coverage-run", s.coverageRun.value])
    else registered
  }

  function NotRun(registered: Registration, env: Env): Invocation {
    Invocation(registered, false, None, None, None, env.revision, env.treeDigest, registered.command,
               env.toolDigest, false, Some(EarlierChildTerminated))
  }

  function Ran(effective: Registration, exit: int, cleanupFailed: bool, k: nat, env: Env): Invocation {
    Invocation(effective, true, Some(exit), Some("all/children/" + effective.id + ".json"), Some(env.artifact(k)),
               env.revision, env.treeDigest, effective.command, env.toolDigest,
               !cleanupFailed && exit != 60, None)
  }

  predicate Skipped(s: Progress, env: Env) {
    s.stopped || env.elapsed(s.next) >= DEADLINE
  }

  /** The run identity a successful validation or coverage must have printed is missing. */
  predicate IdentityMissing(registered: Registration, p: ChildProcess) {
    && ChildTerminal(p).0 == 0
    && ((registered.command == AssuranceValidate && p.runId.None?)
        || (registered.id == COVERAGE_ID && p.coverageRun.None?))
  }

  predicate Continues(p: ChildProcess, admitted: bool) {
    !ChildTerminal(p).1 || (ChildTerminal(p).0 == 40 && admitted)
  }

  /** One registered invocation: what it leaves in the document, and what the runner remembers. */
  function Step(registered: Registration, s: Progress, env: Env): (Invocation, Progress) {
    if Skipped(s, env) then
      var late := env.elapsedAgain(s.next) >= DEADLINE;
      (NotRun(registered, env),
       s.(next := s.next + 1, stopped := true, exits := if late then s.exits + [70] else s.exits,
          extras := if late then s.extras + {70} else s.extras))
    else
      var p := env.child(s.next);
      var exit := ChildTerminal(p).0;
      var ran := s.exits + [exit];
      var validated := if registered.command == AssuranceValidate && exit == 0 && p.runId.None? then ran + [50]
                       else ran;
      var covered := if registered.id == COVERAGE_ID && exit == 0 && p.coverageRun.None? then validated + [50]
                     else validated;
      (Ran(Effective(registered, s), exit, p.cleanupFailed, s.next, env),
       Progress(s.next + 1, IdentityMissing(registered, p) || !Continues(p, env.admitted(s.next)),
                if registered.command == AssuranceValidate then p.runId else s.validationRun,
                if registered.id == COVERAGE_ID then p.coverageRun else s.coverageRun,
                covered,
                if IdentityMissing(registered, p) then s.extras + {50} else s.extras))
  }

  function RunInvocations(registered: seq<Registration>, s: Progress, env: Env): (r: (seq<Invocation>, Progress))
    ensures |r.0| == |registered|
  {
    if registered == [] then ([], s)
    else
      var before := RunInvocations(registered[..|registered| - 1], s, env);
      var (v, after) := Step(registered[|registered| - 1], before.1, env);
      (before.0 + [v], after)
  }

  function RunChildren(registered: seq<RegisteredChild>, env: Env): (r: (seq<Child>, Progress))
    ensures |r.0| == |registered|
  {
    if registered == [] then ([], START)
    else
      var last := registered[|registered| - 1];
      var before := RunChildren(registered[..|registered| - 1], env);
      var (invocations, after) := RunInvocations(last.invocations, before.1, env);
      (before.0 + [Child(last.id, last.ordinal, ChildSummary(invocations), invocations)], after)
  }

  /** Terminal flags from the recorded exits, the gaps and the final provenance. */
  function TerminalObservation(exits: seq<int>, primaryTreeUnchanged: bool, gapPresent: bool): Terminal {
    Terminal(!primaryTreeUnchanged || 60 in exits, SignalFrom(130 in exits, 143 in exits), 70 in exits,
             50 in exits || gapPresent, 40 in exits, 30 in exits, 20 in exits, 21 in exits)
  }

  function FinalCleanup(children: seq<Child>, exits: seq<int>, env: Env): Cleanup {
    Cleanup(env.primaryTreeUnchanged, 60 !in exits, 60 !in exits,
            !env.activeRunLeft && forall c | 0 <= c < |children| :: children[c].summary.cleanupComplete,
            60 in exits, None)
  }

  function Assemble(registry: Registry, children: seq<Child>, items: seq<Item>, rollup: Rollup, exits: seq<int>,
                    env: Env): Evidence
  {
    var terminal := TerminalObservation(exits, env.primaryTreeUnchanged, |registry.gaps| > 0);
    var exitCode := AggregateExit(terminal);
    Evidence(1, 1, registry.digest, env.revision, env.treeDigest, children, items, rollup, terminal,
             exitCode, ReasonFor(exitCode), OWNER_ONLY, true, FinalCleanup(children, exits, env), RETAINED_FIELDS)
  }

  /** The document of a run, its children and items derived the validator's way. */
  function Document(registry: Registry, env: Env): Evidence {
    var (children, s) := RunChildren(registry.children, env);
    var items := InvocationItems(children) + GapItems(registry.gaps);
    Assemble(registry, children, items, RollupOf(items), s.exits, env)
  }

  // ---------------------------------------------------------------- the runner

  predicate ExitsKnown(invocations: seq<Invocation>) {
    forall i | 0 <= i < |invocations| :: invocations[i].completed ==> invocations[i].exitCode.Some?
  }

  lemma {:induction false} CompletedAre(invocations: seq<Invocation>, v: Invocation)
    ensures v in Completed(invocations) <==> v in invocations && v.completed
    ensures |Completed(invocations)| <= |invocations|
  {
    if invocations != [] {
      var front := invocations[..|invocations| - 1];
      CompletedAre(front, v);
      assert invocations == front + [invocations[|invocations| - 1]];
    }
  }

  function ExitCodes(completed: seq<Invocation>): (codes: seq<int>)
    ensures |codes| == |completed|
    ensures forall i :: 0 <= i < |codes| ==>
                          codes[i] == if completed[i].exitCode.Some? then completed[i].exitCode.value else 30
  {
    seq(|completed|, i requires 0 <= i < |completed| =>
      if completed[i].exitCode.Some? then completed[i].exitCode.value else 30)
  }

  lemma CodeIffExited(invocations: seq<Invocation>, code: int)
    requires ExitsKnown(invocations)
    ensures code in ExitCodes(Completed(invocations)) <==> Exited(invocations, code)
  {
    var completed := Completed(invocations);
    if code in ExitCodes(completed) {
      var i :| 0 <= i < |completed| && ExitCodes(completed)[i] == code;
      CompletedAre(invocations, completed[i]);
      assert completed[i] in completed;
      var j :| 0 <= j < |invocations| && invocations[j] == completed[i];
      assert invocations[j].completed && invocations[j].exitCode == Some(code);
    }
    if Exited(invocations, code) {
      var j :| 0 <= j < |invocations| && invocations[j].completed && invocations[j].exitCode == Some(code);
      CompletedAre(invocations, invocations[j]);
      var i :| 0 <= i < |completed| && completed[i] == invocations[j];
      assert ExitCodes(completed)[i] == code;
    }
  }

  predicate AllCleanAmong(completed: seq<Invocation>) {
    forall i | 0 <= i < |completed| :: completed[i].cleanupComplete
  }

  lemma CleanAmongCompleted(invocations: seq<Invocation>)
    ensures AllCleanAmong(Completed(invocations)) <==> AllClean(invocations)
  {
    var completed := Completed(invocations);
    if AllCleanAmong(completed) {
      forall i | 0 <= i < |invocations| && invocations[i].completed ensures invocations[i].cleanupComplete {
        CompletedAre(invocations, invocations[i]);
        var j :| 0 <= j < |completed| && completed[j] == invocations[i];
      }
    }
    if AllClean(invocations) {
      forall i | 0 <= i < |completed| ensures completed[i].cleanupComplete {
        CompletedAre(invocations, completed[i]);
        assert completed[i] in completed;
      }
    }
  }

  lemma SomeOtherExit(invocations: seq<Invocation>)
    requires ExitsKnown(invocations)
    ensures var completed := Completed(invocations);
            (exists i | 0 <= i < |completed| :: completed[i].exitCode !in {Some(0), Some(20), Some(40)})
            <==> (exists code :: code in ExitCodes(completed) && code !in {0, 20, 40})
  {
    var completed := Completed(invocations);
    forall i | 0 <= i < |completed| ensures completed[i].exitCode.Some? {
      CompletedAre(invocations, completed[i]);
      assert completed[i] in completed;
    }
    if i :| 0 <= i < |completed| && completed[i].exitCode !in {Some(0), Some(20), Some(40)} {
      assert ExitCodes(completed)[i] in ExitCodes(completed);
    }
    if code :| code in ExitCodes(completed) && code !in {0, 20, 40} {
      var i :| 0 <= i < |completed| && ExitCodes(completed)[i] == code;
      assert completed[i].exitCode == Some(code);
    }
  }

  /** The runner's own account of one child agrees with the validator's. */
  method Summarize(invocations: seq<Invocation>) returns (summary: Summary)
    requires ExitsKnown(invocations)
    ensures summary == ChildSummary(invocations)
  {
    var completed := Completed(invocations);
    var notRun := |invocations| - |completed|;
    var childExitCodes := ExitCodes(completed);
    var knownDefect := 20 in childExitCodes;
    var incomplete := 40 in childExitCodes || notRun > 0;
    var failed := exists code | code in childExitCodes :: code !in {0, 20, 40};
    CodeIffExited(invocations, 20);
    CodeIffExited(invocations, 40);
    CleanAmongCompleted(invocations);
    SomeOtherExit(invocations);
    var untouched := notRun == |invocations|;
    summary := Summary(
      !untouched, !untouched,
      if untouched then None
      else if failed then Some(AssertionFailed)
      else if incomplete then Some(IncompleteOutcome)
      else if knownDefect then Some(KnownProductDefect)
      else Some(Passed),
      if untouched then Some(EarlierChildTerminated) else None,
      AllCleanAmong(completed));
  }

  /** One registered invocation: skipped once stopped or late, else run and recorded. `past` is what the
      runner's variables held before. */
  method RunInvocation(registered: Registration, childId: ChildId, past: Progress, env: Env)
    returns (invocation: Invocation, item: Item, now: Progress)
    ensures (invocation, now) == Step(registered, past, env)
    ensures item == InvocationItem(childId, invocation)
  {
    now := past.(next := past.next + 1);
    if past.stopped || env.elapsed(past.next) >= DEADLINE {
      if env.elapsedAgain(past.next) >= DEADLINE {
        now := now.(exits := now.exits + [70], extras := now.extras + {70});
      }
      now := now.(stopped := true);
      invocation := NotRun(registered, env);
      item := Item("invocation:" + registered.id, childId, Eligible, false, None, invocation.notRunReason, Incomplete);
      return;
    }
    var effective := Effective(registered, past);
    var p := env.child(past.next);
    var (exit, stop) := ChildTerminal(p);
    if exit == 40 && env.admitted(past.next) { stop := false; }
    now := now.(exits := now.exits + [exit]);
    if registered.command == AssuranceValidate {
      now := now.(validationRun := p.runId);
      if exit == 0 && p.runId.None? {
        now := now.(exits := now.exits + [50], extras := now.extras + {50}, stopped := true);
      }
    }
    if registered.id == COVERAGE_ID {
      now := now.(coverageRun := p.coverageRun);
      if exit == 0 && p.coverageRun.None? {
        now := now.(exits := now.exits + [50], extras := now.extras + {50}, stopped := true);
      }
    }
    invocation := Ran(effective, exit, p.cleanupFailed, past.next, env);
    item := Item(
      "invocation:" + registered.id, childId,
      if exit == 20 then KnownProductDefectCollector else Eligible, true,
      Some(if exit == 0 then ObservedPass
           else if exit == 20 then ProductDefectObserved
           else if exit == 40 then EvidenceIncomplete
           else if exit == 21 && childId == FaultChild then FaultSurvived
           else ObservedAssertionFailure),
      None,
      if exit == 0 then Assured
      else if exit == 20 then Blocked
      else if exit == 40 then Incomplete
      else if exit == 21 && childId == FaultChild then Survived
      else Incomplete);
    if stop { now := now.(stopped := true); }
  }

  /** One more invocation of a child. */
  lemma OneMoreRun(registered: seq<Registration>, past: Progress, env: Env, i: nat)
    requires i < |registered|
    ensures var before := RunInvocations(registered[..i], past, env);
            var (v, after) := Step(registered[i], before.1, env);
            RunInvocations(registered[..i + 1], past, env) == (before.0 + [v], after)
  {
    assert registered[..i + 1][..i] == registered[..i];
  }

  lemma OneMoreItem(childId: ChildId, invocations: seq<Invocation>, v: Invocation)
    ensures ChildItems(childId, invocations + [v]) == ChildItems(childId, invocations) + [InvocationItem(childId, v)]
  {
  }

  /** An invocation that ran has an exit. */
  lemma StepExitKnown(registered: Registration, past: Progress, env: Env)
    ensures var v := Step(registered, past, env).0; v.completed ==> v.exitCode.Some?
  {
  }

  /** The invocations of one child, in order, with their items. */
  method RunChild(registered: RegisteredChild, past: Progress, env: Env)
    returns (invocations: seq<Invocation>, items: seq<Item>, now: Progress)
    ensures (invocations, now) == RunInvocations(registered.invocations, past, env)
    ensures items == ChildItems(registered.id, invocations)
    ensures ExitsKnown(invocations)
  {
    invocations, items, now := [], [], past;
    for i := 0 to |registered.invocations|
      invariant (invocations, now) == RunInvocations(registered.invocations[..i], past, env)
      invariant items == ChildItems(registered.id, invocations)
      invariant ExitsKnown(invocations)
    {
      OneMoreRun(registered.invocations, past, env, i);
      StepExitKnown(registered.invocations[i], now, env);
      var invocation, item;
      invocation, item, now := RunInvocation(registered.invocations[i], registered.id, now, env);
      OneMoreItem(registered.id, invocations, invocation);
      invocations, items := invocations + [invocation], items + [item];
    }
    assert registered.invocations[..|registered.invocations|] == registered.invocations;
  }

  /** Runs every registered child in order, assembles the document, and publishes it exactly when the
      independent validator accepts it. */
  method RunAssuranceAggregate(registry: Registry, env: Env) returns (published: Option<Evidence>)
    ensures published == if Accepted(registry, Document(registry, env)) then Some(Document(registry, env)) else None
    ensures published.Some? ==> FiledByConclusion(published.value.items, published.value.rollup)
  {
    var children: seq<Child>, items: seq<Item>, progress := [], [], START;
    for c := 0 to |registry.children|
      invariant (children, progress) == RunChildren(registry.children[..c], env)
      invariant items == InvocationItems(children)
    {
      var registered := registry.children[c];
      assert registry.children[..c + 1][..c] == registry.children[..c];
      var invocations, childItems;
      invocations, childItems, progress := RunChild(registered, progress, env);
      var summary := Summarize(invocations);
      var child := Child(registered.id, registered.ordinal, summary, invocations);
      assert (children + [child])[..|children|] == children;
      children, items := children + [child], items + childItems;
    }
    assert registry.children[..|registry.children|] == registry.children;
    published := Publish(registry, children, items, progress.exits, env);
    if published.Some? { RollupFiles(published.value.items); }
  }

  /** Adds the known gaps, assembles the document, and publishes it only when it validates. */
  method Publish(registry: Registry, children: seq<Child>, childItems: seq<Item>, exits: seq<int>, env: Env)
    returns (published: Option<Evidence>)
    ensures var items := childItems + GapItems(registry.gaps);
            var e := Assemble(registry, children, items, RollupOf(items), exits, env);
            published == if Accepted(registry, e) then Some(e) else None
  {
    var items := childItems;
    for g := 0 to |registry.gaps|
      invariant items == childItems + GapItems(registry.gaps[..g])
    {
      items := items + [GapItem(registry.gaps[g])];
    }
    assert registry.gaps[..|registry.gaps|] == registry.gaps;
    var rollup := FileItems(items);
    var evidence := Assemble(registry, children, items, rollup, exits, env);
    var verdict := ValidateEvidence(registry, evidence);
    published := if verdict == Valid then Some(evidence) else None;
  }
}
