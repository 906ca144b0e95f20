/** The acceptance condition read off what the children print and when they run: a run over children is the
    run over their invocations in one row, which makes the identities substituted into the report those
    printed last before it, and shows that the deadline can pass between any two invocations. */
module AggregateIdentities {
  import opened AggregateAgreement
  import opened AggregateEvidence
  import opened AggregateRunner
  import opened Options

  // ---------------------------------------------------------------- one row of invocations

  lemma {:induction false} RunsConcatenate(a: seq<Registration>, b: seq<Registration>, s: Progress, env: Env)
    ensures var (first, between) := RunInvocations(a, s, env);
            var (second, after) := RunInvocations(b, between, env);
            RunInvocations(a + b, s, env) == (first + second, after)
  {
    if b == [] {
      assert a + b == a && RunInvocations(a, s, env).0 + [] == RunInvocations(a, s, env).0;
    } else {
      var front := b[..|b| - 1];
      RunsConcatenate(a, front, s, env);
      assert (a + b)[..|a + b| - 1] == a + front;
      var first := RunInvocations(a, s, env);
      var second := RunInvocations(front, first.1, env);
      var v := Step(b[|b| - 1], second.1, env).0;
      assert first.0 + second.0 + [v] == first.0 + (second.0 + [v]);
    }
  }

  /** Child by child or in one row, the same invocations. */
  lemma {:induction false} OneRow(registered: seq<RegisteredChild>, env: Env)
    ensures var (children, s) := RunChildren(registered, env);
            RunInvocations(AllRegistrations(registered), START, env) == (AllInvocations(children), s)
  {
    if registered != [] {
      var front, last := registered[..|registered| - 1], registered[|registered| - 1];
      OneRow(front, env);
      RunsConcatenate(AllRegistrations(front), last.invocations, START, env);
      var children := RunChildren(registered, env).0;
      assert children[..|children| - 1] == RunChildren(front, env).0;
    }
  }

  /** What the runner knows before position k. */
  function Before(registered: seq<Registration>, env: Env, k: nat): Progress
    requires k <= |registered|
  {
    RunInvocations(registered[..k], START, env).1
  }

  lemma {:induction false} InvocationAt(registered: seq<Registration>, env: Env, k: nat)
    requires k < |registered|
    ensures RunInvocations(registered, START, env).0[k] == Step(registered[k], Before(registered, env, k), env).0
  {
    var front := registered[..|registered| - 1];
    if k < |front| {
      InvocationAt(front, env, k);
      assert front[..k] == registered[..k];
    }
  }

  // ---------------------------------------------------------------- the identities printed

  /** The identity printed by the last validation. */
  function PrintedRun(registered: seq<Registration>, env: Env): Option<string> {
    if registered == [] then None
    else if registered[|registered| - 1].command == AssuranceValidate then env.child(|registered| - 1).runId
    else PrintedRun(registered[..|registered| - 1], env)
  }

  /** The identity printed by the last production-security coverage. */
  function PrintedCoverage(registered: seq<Registration>, env: Env): Option<string> {
    if registered == [] then None
    else if registered[|registered| - 1].id == COVERAGE_ID then env.child(|registered| - 1).coverageRun
    else PrintedCoverage(registered[..|registered| - 1], env)
  }

  predicate AllCompleted(invocations: seq<Invocation>) {
    forall i | 0 <= i < |invocations| :: invocations[i].completed
  }

  /** As long as everything ran, the runner knows exactly what was printed. */
  lemma {:induction false} KnownIsPrinted(registered: seq<Registration>, env: Env)
    ensures var (all, s) := RunInvocations(registered, START, env);
            && s.next == |registered|
            && (AllCompleted(all) ==>
                  s.validationRun == PrintedRun(registered, env) && s.coverageRun == PrintedCoverage(registered, env))
  {
    if registered != [] {
      var front, last := registered[..|registered| - 1], registered[|registered| - 1];
      KnownIsPrinted(front, env);
      var before := RunInvocations(front, START, env);
      var (v, after) := Step(last, before.1, env);
      var all := RunInvocations(registered, START, env).0;
      assert all == before.0 + [v];
      if AllCompleted(all) {
        assert forall i | 0 <= i < |before.0| :: before.0[i] == all[i];
        assert all[|before.0|] == v;
      }
    }
  }

  /** The registration as it runs, with the printed identities in the report's arguments. */
  function Substituted(registered: seq<Registration>, env: Env, k: nat): Registration
    requires k < |registered|
  {
    var run, coverage := PrintedRun(registered[..k], env), PrintedCoverage(registered[..k], env);
    if registered[k].command == AssuranceReport && run.Some? && coverage.Some?
    then registered[k].(arguments := ["--run", run.value, "--coverage-run", coverage.value])
    else registered[k]
  }

  /** An invocation that ran carries exactly the identities printed before it; one that did not carries none. */
  lemma ArgumentsArePrinted(registered: seq<Registration>, env: Env, k: nat)
    requires k < |registered|
    ensures var v := RunInvocations(registered, START, env).0[k];
            v.registration == if v.completed then Substituted(registered, env, k) else registered[k]
  {
    InvocationAt(registered, env, k);
    InvocationsKeep([], START, registered[..k], env);
    var (all, s) := RunInvocations(registered[..k], START, env);
    assert [] + all == all;
    KnownIsPrinted(registered[..k], env);
    if !s.stopped { assert AllCompleted(all); }
  }

  /** The report's substituted identities are version-4 UUIDs, or the substitution changes nothing. */
  predicate PrintedFits(registered: seq<Registration>, env: Env, k: nat)
    requires k < |registered|
  {
    var run, coverage := PrintedRun(registered[..k], env), PrintedCoverage(registered[..k], env);
    registered[k].command == AssuranceReport && run.Some? && coverage.Some? ==>
      Substituted(registered, env, k) == registered[k] || (IsUuid4(run.value) && IsUuid4(coverage.value))
  }

  lemma FitsIffPrinted(registered: seq<Registration>, env: Env, k: nat)
    requires k < |registered|
    ensures var v := RunInvocations(registered, START, env).0[k];
            IdentityFits(v, registered[k]) <==> (v.completed ==> PrintedFits(registered, env, k))
  {
    ArgumentsArePrinted(registered, env, k);
  }

  lemma {:induction false} FitsInOneRow(children: seq<Child>, registered: seq<RegisteredChild>)
    requires |children| == |registered|
    requires forall c | 0 <= c < |children| :: |children[c].invocations| == |registered[c].invocations|
    ensures |AllInvocations(children)| == |AllRegistrations(registered)|
    ensures (forall c | 0 <= c < |children| :: ChildIdentitiesFit(children[c], registered[c])) <==>
            forall k | 0 <= k < |AllInvocations(children)| ::
              IdentityFits(AllInvocations(children)[k], AllRegistrations(registered)[k])
  {
    if children != [] {
      var last := |children| - 1;
      FitsInOneRow(children[..last], registered[..last]);
      var a, b := AllInvocations(children[..last]), children[last].invocations;
      var x, y := AllRegistrations(registered[..last]), registered[last].invocations;
      FitsConcat(a, x, b, y);
      assert forall c | 0 <= c < last :: children[..last][c] == children[c] && registered[..last][c] == registered[c];
      assert ChildIdentitiesFit(children[last], registered[last]) <==>
             forall i | 0 <= i < |b| :: IdentityFits(b[i], y[i]);
    }
  }

  lemma FitsConcat(a: seq<Invocation>, x: seq<Registration>, b: seq<Invocation>, y: seq<Registration>)
    requires |a| == |x| && |b| == |y|
    ensures (forall k | 0 <= k < |a + b| :: IdentityFits((a + b)[k], (x + y)[k])) <==>
            && (forall k | 0 <= k < |a| :: IdentityFits(a[k], x[k]))
            && (forall k | 0 <= k < |b| :: IdentityFits(b[k], y[k]))
  {
    assert forall k | 0 <= k < |a| :: (a + b)[k] == a[k] && (x + y)[k] == x[k];
    assert forall k | 0 <= k < |b| :: (a + b)[|a| + k] == b[k] && (x + y)[|a| + k] == y[k];
  }

  /** The identities fit exactly when, at every report that runs, those printed last before it do. */
  lemma IdentitiesFitIff(registry: Registry, env: Env)
    ensures |Ordered(registry, env)| == |AllRegistrations(registry.children)|
    ensures IdentitiesFit(registry, env) <==>
            forall k | 0 <= k < |Ordered(registry, env)| && Ordered(registry, env)[k].completed ::
              PrintedFits(AllRegistrations(registry.children), env, k)
  {
    var children, regs := RunChildren(registry.children, env).0, AllRegistrations(registry.children);
    forall c | 0 <= c < |children| ensures |children[c].invocations| == |registry.children[c].invocations| {
      ChildFollows(registry, env, c);
    }
    FitsInOneRow(children, registry.children);
    OneRow(registry.children, env);
    var all := Ordered(registry, env);
    forall k | 0 <= k < |all|
      ensures IdentityFits(all[k], regs[k]) <==> (all[k].completed ==> PrintedFits(regs, env, k))
    {
      FitsIffPrinted(regs, env, k);
    }
  }

  // ---------------------------------------------------------------- the deadline between two invocations

  /** Every child succeeds and prints its identities; the deadline passes just before the n-th invocation. */
  function LateEnv(n: nat, identity: string): Env {
    Env(k => if k < n then 0 else DEADLINE, k => if k < n then 0 else DEADLINE,
        k => ChildProcess(Some(0), None, false, false, false, false, Some(identity), Some(identity)),
        k => "", k => false, "", "", "", true, false)
  }

  lemma {:induction false} OnTime(registered: seq<Registration>, n: nat, identity: string)
    requires |registered| <= n
    ensures var s := RunInvocations(registered, START, LateEnv(n, identity)).1; !s.stopped && s.next == |registered|
  {
    if registered != [] { OnTime(registered[..|registered| - 1], n, identity); }
  }

  lemma LateStep(registered: Registration, s: Progress, n: nat, identity: string)
    requires !s.stopped && s.next <= n
    ensures var v := Step(registered, s, LateEnv(n, identity)).0;
            if s.next < n then v.exitCode == Some(0) else !v.completed
  {
  }

  /** One position of that run. */
  lemma LateAt(registered: seq<Registration>, n: nat, identity: string, k: nat)
    requires k <= n && k < |registered|
    ensures var v := RunInvocations(registered, START, LateEnv(n, identity)).0[k];
            if k < n then v.exitCode == Some(0) else !v.completed
  {
    OnTime(registered[..k], n, identity);
    InvocationAt(registered, LateEnv(n, identity), k);
    LateStep(registered[k], Before(registered, LateEnv(n, identity), k), n, identity);
  }

  /** For every registry and every position in it there is a run whose deadline passes right there: all
      children before it succeed, nothing runs there, and the evidence is rejected. */
  lemma DeadlineCanPassAnywhere(registry: Registry, n: nat, identity: string)
    requires WellFormed(registry) && n < |AllRegistrations(registry.children)|
    ensures var env := LateEnv(n, identity);
            var all := Ordered(registry, env);
            && |all| == |AllRegistrations(registry.children)|
            && (forall k | 0 <= k < n :: all[k].exitCode == Some(0)) && !all[n].completed
            && Overdue(all, env) && !Accepted(registry, Document(registry, env))
  {
    var env := LateEnv(n, identity);
    OneRow(registry.children, env);
    forall k | 0 <= k < n ensures Ordered(registry, env)[k].exitCode == Some(0) {
      LateAt(AllRegistrations(registry.children), n, identity, k);
    }
    LateAt(AllRegistrations(registry.children), n, identity, n);
    NeverTimesOut(n, identity);
    assert env.elapsedAgain(n) >= DEADLINE;
    LateRunsAreRejected(registry, env);
  }

  lemma NeverTimesOut(n: nat, identity: string)
    ensures forall k :: ChildTerminal(LateEnv(n, identity).child(k)).0 != 70
  {
  }
}
