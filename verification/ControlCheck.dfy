/** One local control check: five stages, the check itself, and cleanup that takes precedence over
    whatever came before. Every call into the runtime may throw. */
module ControlCheck {
  import opened Options

  datatype Stage = Validation | Variant | Build | Startup | Fixture | Check | CleanupStage

  datatype Signal = Sigint | Sigterm

  datatype Status = Passed | Failed | TimedOut

  datatype Observation = Observed(status: Status, forwarded: Option<Signal>, signature: Option<string>) | Throws

  datatype Verdict = Detected | NotDetected | CheckInvalid | EnvironmentFailed | VerdictTimedOut

  datatype Primary = Primary(verdict: Verdict, stage: Stage, signature: Option<string>, signal: Option<Signal>)

  datatype Result = Result(primary: Primary, cleanupComplete: bool)

  datatype CleanupAnswer = CleanupPassed | CleanupFailed | CleanupThrows

  /** `interrupted(k)`: the k-th look at the pending signal. `cleanup(n)`: the n-th call of cleanup.
      `provenanceThrows(n)`: the n-th call of provenance. */
  datatype Runtime = Runtime(interrupted: nat -> Option<Signal>, observe: Stage -> Observation,
                             cleanup: nat -> CleanupAnswer, provenanceThrows: nat -> bool,
                             expectedSignature: string)

  datatype Call = Ran(stage: Stage) | CleanedUp | ReadProvenance

  /** The five stages before the check. */
  function StageAt(k: nat): Stage
    requires k < 5
  {
    match k
    case 0 => Validation
    case 1 => Variant
    case 2 => Build
    case 3 => Startup
    case _ => Fixture
  }

  function FailedVerdict(stage: Stage, status: Status): Verdict {
    if status == TimedOut then VerdictTimedOut
    else if stage == Validation || stage == Variant || stage == Build then CheckInvalid
    else EnvironmentFailed
  }

  /** Stage k runs to its end: no signal is pending before it, none is forwarded, and it passes. */
  predicate Completes(r: Runtime, k: nat)
    requires k < 5
  {
    && r.interrupted(k).None?
    && r.observe(StageAt(k)).Observed?
    && r.observe(StageAt(k)).forwarded.None? && r.observe(StageAt(k)).status == Passed
  }

  predicate AllComplete(r: Runtime, n: nat)
    requires n <= 5
  {
    forall k | 0 <= k < n :: Completes(r, k)
  }

  /** The first stage that does not complete, or 5. */
  function FirstIncomplete(r: Runtime, k: nat): (m: nat)
    requires k <= 5 && AllComplete(r, k)
    ensures k <= m <= 5 && AllComplete(r, m) && (m < 5 ==> !Completes(r, m))
    decreases 5 - k
  {
    if k < 5 && Completes(r, k) then FirstIncomplete(r, k + 1) else k
  }

  /** How many of the stages are called: each one before which everything completed and no signal is pending. */
  function StagesCalled(r: Runtime): (n: nat)
    ensures n <= 5
    ensures forall k | 0 <= k < 5 :: k < n <==> AllComplete(r, k) && r.interrupted(k).None?
  {
    var m := FirstIncomplete(r, 0);
    assert forall k | 0 <= k < m :: Completes(r, k);
    assert forall k | m < k < 5 :: !AllComplete(r, k);
    if m < 5 && r.interrupted(m).None? then m + 1 else m
  }

  /** What stage m, which did not complete and did not throw, makes of the run. */
  function StoppedAt(r: Runtime, m: nat): Primary
    requires m < 5 && (r.interrupted(m).None? ==> r.observe(StageAt(m)).Observed?)
  {
    var stage := StageAt(m);
    if r.interrupted(m).Some? then Primary(EnvironmentFailed, stage, None, r.interrupted(m))
    else if r.observe(stage).forwarded.Some? then Primary(EnvironmentFailed, stage, None, r.observe(stage).forwarded)
    else Primary(FailedVerdict(stage, r.observe(stage).status), stage, None, None)
  }

  lemma FirstIncompleteIs(r: Runtime, k: nat, m: nat)
    requires k <= m <= 5 && AllComplete(r, m) && (m < 5 ==> !Completes(r, m))
    ensures AllComplete(r, k) && FirstIncomplete(r, k) == m
    decreases m - k
  {
    if k < m { FirstIncompleteIs(r, k + 1, m); }
  }

  /** The control was detected: every stage completed, and the check failed in the expected way. */
  predicate DetectedBy(r: Runtime) {
    && AllComplete(r, 5) && r.interrupted(5).None?
    && r.observe(Check).Observed? && r.observe(Check).forwarded.None? && r.observe(Check).status == Failed
    && r.observe(Check).signature == Some(r.expectedSignature)
  }

  /** A stage that passed without being interrupted. */
  predicate PassesQuietly(r: Runtime, stage: Stage) {
    r.observe(stage).Observed? && r.observe(stage).forwarded.None? && r.observe(stage).status == Passed
  }

  /** Detection needs every stage but the check to pass, no signal anywhere, and the check to fail with exactly
      the expected signature. */
  lemma DetectionMeans(r: Runtime)
    ensures DetectedBy(r) <==>
            && (forall k | 0 <= k < 6 :: r.interrupted(k).None?)
            && (forall stage: Stage :: stage != Check && stage != CleanupStage ==> PassesQuietly(r, stage))
            && r.observe(Check) == Observed(Failed, None, Some(r.expectedSignature))
  {
    if DetectedBy(r) {
      forall stage: Stage | stage != Check && stage != CleanupStage ensures PassesQuietly(r, stage) {
        var k := match stage
          case Validation => 0 case Variant => 1 case Build => 2 case Startup => 3 case _ => 4;
        assert Completes(r, k) && StageAt(k) == stage;
      }
      forall k | 0 <= k < 5 ensures r.interrupted(k).None? { assert Completes(r, k); }
    } else if (forall k | 0 <= k < 6 :: r.interrupted(k).None?)
              && (forall stage: Stage :: stage != Check && stage != CleanupStage ==> PassesQuietly(r, stage)) {
      forall k | 0 <= k < 5 ensures Completes(r, k) { assert PassesQuietly(r, StageAt(k)); }
    }
  }

  /** What a stage that does not complete makes of the run: a signal is an environment failure, a timeout a
      timeout, and a failure invalidates the check up to the build and the environment after it. */
  lemma StoppedMeans(r: Runtime, m: nat)
    requires m < 5 && !Completes(r, m) && (r.interrupted(m).None? ==> r.observe(StageAt(m)).Observed?)
    ensures var p := StoppedAt(r, m);
            var pending := r.interrupted(m);
            var signal := if pending.Some? then pending else r.observe(StageAt(m)).forwarded;
            && p.stage == [Validation, Variant, Build, Startup, Fixture][m]
            && p.signature.None? && p.signal == signal
            && (signal.Some? ==> p.verdict == EnvironmentFailed)
            && (signal.None? ==>
                  && (p.verdict == VerdictTimedOut <==> r.observe(StageAt(m)).status == TimedOut)
                  && (p.verdict == CheckInvalid <==> r.observe(StageAt(m)).status == Failed && m < 3)
                  && (p.verdict == EnvironmentFailed <==> r.observe(StageAt(m)).status == Failed && m >= 3))
  {
    if m == 0 { } else if m == 1 { } else if m == 2 { } else if m == 3 { } else { assert m == 4; }
  }

  /** What the check makes of the run, once it is reached and does not throw. */
  function CheckedResult(r: Runtime): Primary
    requires r.interrupted(5).None? ==> r.observe(Check).Observed?
  {
    if r.interrupted(5).Some? then Primary(EnvironmentFailed, Check, None, r.interrupted(5))
    else
      var o := r.observe(Check);
      if o.forwarded.Some? then Primary(EnvironmentFailed, Check, None, o.forwarded)
      else
        match o.status
        case TimedOut => Primary(VerdictTimedOut, Check, None, None)
        case Passed => Primary(NotDetected, Check, None, None)
        case Failed =>
          if o.signature == Some(r.expectedSignature) then Primary(Detected, Check, o.signature, None)
          else Primary(CheckInvalid, Check, None, None)
  }

  /** Each verdict of the check, exactly. */
  lemma CheckedMeans(r: Runtime)
    requires r.interrupted(5).None? ==> r.observe(Check).Observed?
    ensures var p, quiet := CheckedResult(r), r.interrupted(5).None? && r.observe(Check).forwarded.None?;
            && p.stage == Check
            && (p.verdict == EnvironmentFailed <==> !quiet)
            && (p.verdict == VerdictTimedOut <==> quiet && r.observe(Check).status == TimedOut)
            && (p.verdict == NotDetected <==> quiet && r.observe(Check).status == Passed)
            && (p.verdict == Detected <==>
                  && quiet && r.observe(Check).status == Failed
                  && r.observe(Check).signature == Some(r.expectedSignature))
            && (p.verdict == CheckInvalid <==>
                  && quiet && r.observe(Check).status == Failed
                  && r.observe(Check).signature != Some(r.expectedSignature))
            && p.signature == (if p.verdict == Detected then Some(r.expectedSignature) else None)
            && p.signal == if r.interrupted(5).Some? then r.interrupted(5) else r.observe(Check).forwarded
  {
  }

  /** The first finalization throws: its last call of provenance does. */
  predicate FinalizeThrows(r: Runtime) {
    if r.cleanup(0) == CleanupPassed then r.provenanceThrows(0) && r.provenanceThrows(1) else r.provenanceThrows(0)
  }

  /** The run reaches stage k, or the check when k is 5, and that call throws. */
  predicate ThrowsAt(r: Runtime, k: nat)
    requires k <= 5
  {
    AllComplete(r, k) && r.interrupted(k).None? && r.observe(if k < 5 then StageAt(k) else Check).Throws?
  }

  predicate ThrowsBeforeCleanup(r: Runtime) {
    exists k | 0 <= k <= 5 :: ThrowsAt(r, k)
  }

  /** Where a stage does not complete without throwing, nothing throws. */
  lemma StopsQuietly(r: Runtime, m: nat)
    requires m < 5 && AllComplete(r, m) && !Completes(r, m) && !ThrowsAt(r, m)
    ensures !ThrowsBeforeCleanup(r)
  {
    forall k | 0 <= k <= 5 ensures !ThrowsAt(r, k) {
      if k < m { assert Completes(r, k); }
      if k > m { assert !AllComplete(r, k); }
    }
  }

  lemma CompletesQuietly(r: Runtime)
    requires AllComplete(r, 5) && !ThrowsAt(r, 5)
    ensures !ThrowsBeforeCleanup(r)
  {
    forall k | 0 <= k <= 5 ensures !ThrowsAt(r, k) {
      if k < 5 { assert Completes(r, k); }
    }
  }

  /** The stages called first, in their order. */
  function Stages(n: nat): (calls: seq<Call>)
    requires n <= 5
    ensures calls == [Ran(Validation), Ran(Variant), Ran(Build), Ran(Startup), Ran(Fixture)][..n]
  {
    seq(n, k requires 0 <= k < n => Ran(StageAt(k)))
  }

  /** The calls of one finalization: cleanup, then provenance, once more after a cleanup that passed and a
      provenance that threw. */
  function FinalCalls(cleanup: CleanupAnswer, firstThrows: bool): (calls: seq<Call>)
    ensures |calls| == (if cleanup == CleanupPassed && firstThrows then 3 else 2) && calls[0] == CleanedUp
    ensures forall i :: 0 < i < |calls| ==> calls[i] == ReadProvenance
  {
    if cleanup == CleanupPassed && firstThrows then [CleanedUp, ReadProvenance, ReadProvenance]
    else [CleanedUp, ReadProvenance]
  }

  class ControlRun {
    var calls: seq<Call>
    var cleanups: nat
    var provenances: nat

    constructor ()
      ensures calls == [] && cleanups == 0 && provenances == 0
    {
      calls, cleanups, provenances := [], 0, 0;
    }

    method Provenance(r: Runtime) returns (threw: bool)
      modifies this
      ensures calls == old(calls) + [ReadProvenance] && provenances == old(provenances) + 1 && cleanups == old(cleanups)
      ensures threw == r.provenanceThrows(old(provenances))
    {
      calls := calls + [ReadProvenance];
      threw := r.provenanceThrows(provenances);
      provenances := provenances + 1;
    }

    /** Cleans up, then reads the provenance. A failed or throwing cleanup, or a throwing provenance after a
        passed one, replaces the primary result; the last provenance call may still throw (`None`). */
    method Finalize(r: Runtime, primary: Primary) returns (result: Option<Result>)
      modifies this
      ensures var passed, p := r.cleanup(old(cleanups)) == CleanupPassed, old(provenances);
              && cleanups == old(cleanups) + 1
              && calls == old(calls) + FinalCalls(r.cleanup(old(cleanups)), r.provenanceThrows(p))
              && provenances == p + (if passed && r.provenanceThrows(p) then 2 else 1)
              && result == if passed && !r.provenanceThrows(p) then Some(Result(primary, true))
                           else if r.provenanceThrows(if passed then p + 1 else p) then None
                           else Some(Result(Primary(EnvironmentFailed, CleanupStage, None, None), false))
    {
      calls := calls + [CleanedUp];
      var answer := r.cleanup(cleanups);
      cleanups := cleanups + 1;
      if answer == CleanupPassed {
        var threw := Provenance(r);
        if !threw { return Some(Result(primary, true)); }
      }
      var threw := Provenance(r);
      if threw { return None; }
      return Some(Result(Primary(EnvironmentFailed, CleanupStage, None, None), false));
    }

    /** Runs the stages until one does not complete. `n` counts the stages that ran. */
    method RunStages(r: Runtime) returns (stop: Option<Primary>, threw: bool, n: nat)
      modifies `calls
      ensures n <= 5 && calls == old(calls) + Stages(n)
      ensures stop.None? && !threw <==> AllComplete(r, 5)
      ensures stop.None? && !threw ==> n == 5
      ensures stop.Some? ==> !threw && stop.value.verdict != Detected && !ThrowsBeforeCleanup(r)
                             && FirstIncomplete(r, 0) < 5 && !ThrowsAt(r, FirstIncomplete(r, 0))
                             && stop.value == StoppedAt(r, FirstIncomplete(r, 0))
      ensures n == StagesCalled(r)
      ensures threw ==> n > 0 && ThrowsAt(r, n - 1)
    {
      n := 0;
      while n < 5
        invariant n <= 5 && calls == old(calls) + Stages(n) && AllComplete(r, n)
      {
        var stage := StageAt(n);
        if r.interrupted(n).Some? {
          StopsQuietly(r, n);
          FirstIncompleteIs(r, 0, n);
          return Some(Primary(EnvironmentFailed, stage, None, r.interrupted(n))), false, n;
        }
        calls := calls + [Ran(stage)];
        assert Stages(n + 1) == Stages(n) + [Ran(stage)];
        n := n + 1;
        var o := r.observe(stage);
        if o.Throws? {
          FirstIncompleteIs(r, 0, n - 1);
          return None, true, n;
        }
        if o.forwarded.Some? || o.status != Passed {
          StopsQuietly(r, n - 1);
          FirstIncompleteIs(r, 0, n - 1);
        }
        if o.forwarded.Some? { return Some(Primary(EnvironmentFailed, stage, None, o.forwarded)), false, n; }
        if o.status != Passed { return Some(Primary(FailedVerdict(stage, o.status), stage, None, None)), false, n; }
      }
      FirstIncompleteIs(r, 0, 5);
      return None, false, n;
    }

    /** The check itself, once every stage completed. */
    method RunCheck(r: Runtime) returns (primary: Primary, threw: bool, ran: bool)
      requires AllComplete(r, 5)
      modifies `calls
      ensures calls == old(calls) + (if ran then [Ran(Check)] else [])
      ensures ran <==> r.interrupted(5).None?
      ensures (threw <==> ThrowsBeforeCleanup(r)) && (threw ==> !DetectedBy(r))
      ensures !threw ==> (r.interrupted(5).None? ==> r.observe(Check).Observed?) && primary == CheckedResult(r)
      ensures !threw ==> (primary.verdict == Detected <==> DetectedBy(r))
    {
      primary := Primary(EnvironmentFailed, Check, None, None);
      if !ThrowsAt(r, 5) { CompletesQuietly(r); }
      if r.interrupted(5).Some? { return primary.(signal := r.interrupted(5)), false, false; }
      calls := calls + [Ran(Check)];
      var o := r.observe(Check);
      if o.Throws? { return primary, true, true; }
      if o.forwarded.Some? { return primary.(signal := o.forwarded), false, true; }
      primary := Primary(
        if o.status == TimedOut then VerdictTimedOut
        else if o.status != Failed then NotDetected
        else if o.signature == Some(r.expectedSignature) then Detected
        else CheckInvalid,
        Check, None, None);
      if primary.verdict == Detected { primary := primary.(signature := o.signature); }
      return primary, false, true;
    }

    /** The stages and the check. A throw is reported as a failure of the first stage, wherever it
        happened: the primary result still is what it was first set to. */
    method RunPrimary(r: Runtime) returns (primary: Primary, threw: bool, n: nat, checked: bool)
      modifies `calls
      ensures n == StagesCalled(r) && (checked <==> AllComplete(r, 5) && r.interrupted(5).None?)
      ensures calls == old(calls) + Stages(n) + (if checked then [Ran(Check)] else [])
      ensures threw <==> ThrowsBeforeCleanup(r)
      ensures threw ==> primary == Primary(EnvironmentFailed, Validation, None, None)
      ensures primary.verdict == Detected <==> DetectedBy(r)
      ensures !threw ==> var m := FirstIncomplete(r, 0);
                         if m < 5 then !ThrowsAt(r, m) && primary == StoppedAt(r, m)
                         else (r.interrupted(5).None? ==> r.observe(Check).Observed?) && primary == CheckedResult(r)
    {
      checked := false;
      var stop;
      stop, threw, n := RunStages(r);
      if threw { return Primary(EnvironmentFailed, Validation, None, None), threw, n, checked; }
      if stop.Some? { return stop.value, threw, n, checked; }
      primary, threw, checked := RunCheck(r);
      if threw { primary := Primary(EnvironmentFailed, Validation, None, None); }
    }

    /** How many provenance calls a finalization that throws has made. */
    static function ThrownProvenances(r: Runtime): nat {
      if r.cleanup(0) == CleanupPassed then 2 else 1
    }

    /** The result of the second of two finalizations, whatever was found before: an environment failure,
        or none at all when its last provenance call throws too. Its stage is that of the primary result. */
    static function SecondResult(r: Runtime): Option<Result> {
      var p := ThrownProvenances(r);
      var m := FirstIncomplete(r, 0);
      if r.cleanup(1) == CleanupPassed && !r.provenanceThrows(p)
      then Some(Result(Primary(EnvironmentFailed, if m < 5 then StageAt(m) else Check, None, None), true))
      else if r.provenanceThrows(if r.cleanup(1) == CleanupPassed then p + 1 else p) then None
      else Some(Result(Primary(EnvironmentFailed, CleanupStage, None, None), false))
    }

    /** One control check. It reports a detection exactly when the control was detected and both cleanup
        and provenance succeeded. Cleanup runs once and last, except when nothing threw until the first
        finalization did: then it runs a second time, and an environment failure is reported. */
    method ExecuteControlSensitivityCheck(r: Runtime) returns (result: Option<Result>, n: nat, checked: bool)
      requires calls == [] && cleanups == 0 && provenances == 0
      modifies this
      ensures n == StagesCalled(r) && (checked <==> AllComplete(r, 5) && r.interrupted(5).None?)
      ensures var once := Stages(n) + (if checked then [Ran(Check)] else [])
                          + FinalCalls(r.cleanup(0), r.provenanceThrows(0));
              if FinalizeThrows(r) && !ThrowsBeforeCleanup(r)
              then cleanups == 2 && calls == once + FinalCalls(r.cleanup(1), r.provenanceThrows(ThrownProvenances(r)))
              else cleanups == 1 && calls == once && (result.None? <==> FinalizeThrows(r))
      ensures result.Some? && result.value.primary.verdict == Detected <==>
              DetectedBy(r) && r.cleanup(0) == CleanupPassed && !r.provenanceThrows(0)
      ensures r.cleanup(0) == CleanupPassed && !r.provenanceThrows(0) ==>
                && result.Some? && result.value.cleanupComplete
                && (ThrowsBeforeCleanup(r) ==>
                      result.value.primary == Primary(EnvironmentFailed, Validation, None, None))
                && (FirstIncomplete(r, 0) < 5 && !ThrowsBeforeCleanup(r) ==>
                      && !ThrowsAt(r, FirstIncomplete(r, 0))
                      && result.value.primary == StoppedAt(r, FirstIncomplete(r, 0)))
                && (FirstIncomplete(r, 0) == 5 && !ThrowsBeforeCleanup(r) ==>
                      && (r.interrupted(5).None? ==> r.observe(Check).Observed?)
                      && result.value.primary == CheckedResult(r))
      ensures cleanups == 2 ==> result == SecondResult(r)
      ensures cleanups == 1 && !(r.cleanup(0) == CleanupPassed && !r.provenanceThrows(0)) && result.Some? ==>
                result.value == Result(Primary(EnvironmentFailed, CleanupStage, None, None), false)
    {
      var primary, threw;
      primary, threw, n, checked := RunPrimary(r);
      assert [] + Stages(n) == Stages(n);
      result := Finalize(r, primary);
      if result.None? && !threw {
        result := Finalize(r, Primary(EnvironmentFailed, primary.stage, None, None));
      }
    }
  }
}
