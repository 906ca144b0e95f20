/** What the poison flag and the traffic fence guarantee: at every instant of a reset, in the result it
    reports, and over whole lives of a run with restarts, crashes and recoveries. */
module ResetSafety {
  import opened Options
  import opened ResetProtocol

  /** A database that was mutated and not verified since is poisoned on disk and out of reach. */
  predicate Fenced(w: World) {
    w.dirty ==> w.committed == Some(Poisoned) && w.blocked
  }

  predicate Serving(w: World) {
    w.portaUp && !w.blocked
  }

  // ---------------------------------------------------------------- every instant

  lemma ForwardIsFenced(w: World, k: nat)
    requires !w.dirty && k < STEPS
    ensures Fenced(WorldAt(w, k)) && Fenced(WorldAt(w, k + 1)) && Fenced(Effect(Nth(k), WorldAt(w, k)))
  {
    StepByStep(w, k);
  }

  lemma RepairIsFenced(w: World, k: nat, fault: Fault, env: Env)
    requires !w.dirty && k < STEPS
    ensures var stopped := Stopped(w, Failed(k, fault));
            forall i :: 0 <= i < |Repair(stopped, Nth(k), env).0| ==> Fenced(Repair(stopped, Nth(k), env).0[i])
  {
    StepByStep(w, k);
  }

  /** At every instant of a reset, whatever fails and wherever a crash cuts it off. */
  lemma ResetIsFencedThroughout(w: World, env: Env)
    requires !w.dirty
    ensures forall i :: 0 <= i < |ResetInstants(w, env)| ==> Fenced(ResetInstants(w, env)[i])
  {
    var stop := StopOf(env);
    forall i | 0 <= i < |ForwardInstants(w, stop)| ensures Fenced(ForwardInstants(w, stop)[i]) {
      if i < STEPS { ForwardIsFenced(w, i); }
      if stop.Failed? { ForwardIsFenced(w, stop.at); }
    }
    if stop.Failed? { RepairIsFenced(w, stop.at, stop.fault, env); }
  }

  // ---------------------------------------------------------------- truthful results

  /** Every step has its place. */
  lemma PlaceOf(step: Step) returns (k: nat)
    ensures k < STEPS && Nth(k) == step
  {
    k := match step
      case Quiesce => 0 case StopPorta => 1 case PersistPoison => 2 case FlushPoison => 3
      case DbRecreate => 4 case Migrate => 5 case Bootstrap => 6 case SeedFixtures => 7
      case Redis => 8 case Mailhog => 9 case RestartClients => 10 case RestartPorta => 11
      case DigestCountChecks => 12 case PublicHealth => 13 case VerifyTrafficBlocked => 14
      case ClearPoison => 15 case FlushReady => 16 case ResumeTraffic => 17;
  }

  /** Exit 0 is reported exactly when every step succeeded and the identity matched, and then the run is
      committed ready, verified, and serving. */
  lemma SuccessIsTruthful(w: World, env: Env)
    ensures ResetExit(w, env) == 0 <==>
            (forall step: Step :: env.step(step).Succeeds?) && env.observed == env.expected
    ensures ResetExit(w, env) == 0 ==>
              ResetFinal(w, env) == World(Some(Ready), None, false, true, false)
  {
    if (forall step: Step :: env.step(step).Succeeds?) && env.observed == env.expected {
      StopIsUnique(env, StopOf(env), Finished);
    }
    if StopOf(env).Finished? {
      forall step: Step ensures env.step(step).Succeeds? {
        var k := PlaceOf(step);
        assert env.step(Nth(k)).Succeeds?;
      }
    }
  }

  // ---------------------------------------------------------------- calls and answers

  /** The step a reset called last. */
  ghost function LastCall(env: Env): Step {
    CallsOf(env)[|CallsOf(env)| - 1]
  }

  /** A reset calls the eighteen steps in their fixed order and stops at the first that fails, or at an
      identity that does not match. */
  lemma CallsFollowTheOrder(env: Env)
    ensures CallsOf(env) != []
    ensures CallsOf(env) <= [Quiesce, StopPorta, PersistPoison, FlushPoison, DbRecreate, Migrate, Bootstrap,
                             SeedFixtures, Redis, Mailhog, RestartClients, RestartPorta, DigestCountChecks,
                             PublicHealth, VerifyTrafficBlocked, ClearPoison, FlushReady, ResumeTraffic]
    ensures forall i :: 0 <= i < |CallsOf(env)| - 1 ==> env.step(CallsOf(env)[i]).Succeeds?
    ensures DigestCountChecks in CallsOf(env) && LastCall(env) != DigestCountChecks ==> env.observed == env.expected
    ensures env.step(LastCall(env)).Succeeds? ==>
              || (LastCall(env) == DigestCountChecks && env.observed != env.expected)
              || (LastCall(env) == ResumeTraffic && env.observed == env.expected)
  {
    assert Nth(OBSERVATION) == DigestCountChecks;
  }

  /** Which repair of a failed reset goes through, by the step that failed. */
  ghost predicate RepairGoesThrough(env: Env) {
    if LastCall(env) in {Quiesce, StopPorta, PersistPoison, FlushPoison} then env.restore.Succeeds?
    else && (LastCall(env) == ResumeTraffic ==> env.requiesce.Succeeds?)
         && env.repersist.Succeeds? && env.reflush.Succeeds?
  }

  /** The exit of every reset: 0 or 30 when the last step went well, else that of the failure's kind -- except
      that a poison flag that could not be written, and a repair that does not go through, answer 60. */
  lemma ExitFollowsTheLastCall(w: World, env: Env)
    ensures var fault, exit := env.step(LastCall(env)), ResetExit(w, env);
            && (fault.Succeeds? ==> exit == if env.observed == env.expected then 0 else 30)
            && (!fault.Succeeds? && !RepairGoesThrough(env) ==> exit == 60)
            && (!fault.Succeeds? && RepairGoesThrough(env) ==>
                  && (exit == 130 <==> fault.kind == Sigint)
                  && (exit == 143 <==> fault.kind == Sigterm)
                  && (exit == 70 <==> fault.kind == Cancellation || fault.kind == Timeout)
                  && (exit == 60 <==> fault.kind == UnknownKind
                                      || (fault.kind == Failure && LastCall(env) in {PersistPoison, FlushPoison}))
                  && exit in {30, 60, 70, 130, 143})
  {
    CallsFollowTheOrder(env);
  }

  /** The prerequisite a failing step is reported as. */
  lemma PrerequisitesOfSteps(step: Step)
    ensures PrerequisiteFor(step) == Some(Migration) <==> step == Migrate
    ensures PrerequisiteFor(step) == Some(Seed) <==> step == SeedFixtures
    ensures PrerequisiteFor(step) == Some(RedisReset) <==> step == Redis
    ensures PrerequisiteFor(step) == Some(MailhogReset) <==> step == Mailhog
    ensures PrerequisiteFor(step) == Some(Health) <==> step == PublicHealth
    ensures PrerequisiteFor(step) != Some(Dns) && PrerequisiteFor(step) != Some(FixtureVerification)
  {
  }

  /** The step was called and went well. */
  ghost predicate WentThrough(env: Env, step: Step) {
    step in CallsOf(env) && env.step(step).Succeeds?
  }

  /** A report holds what the steps that went well brought back, and nothing of those that did not. */
  lemma ReportFollowsTheCalls(initial: Report, env: Env)
    ensures var r := ReportOf(initial, env);
            && r.runId == initial.runId && r.revision == initial.revision
            && r.observed == (if WentThrough(env, DigestCountChecks) then Some(env.observed) else initial.observed)
            && r.redisKeysRemoved
               == (if WentThrough(env, Redis) then env.redisRemoved else initial.redisKeysRemoved)
            && r.mailMessagesRemoved
               == (if WentThrough(env, Mailhog) then env.mailRemoved else initial.mailMessagesRemoved)
            && r.identifiers == initial.identifiers + if WentThrough(env, DbRecreate) then env.identifiers else []
  {
    DoneWentThrough(env, 4, DbRecreate);
    DoneWentThrough(env, 8, Redis);
    DoneWentThrough(env, 9, Mailhog);
    DoneWentThrough(env, OBSERVATION, DigestCountChecks);
  }

  lemma DoneWentThrough(env: Env, k: nat, step: Step)
    requires k < STEPS && Nth(k) == step && k <= OBSERVATION
    ensures Done(StopOf(env), k) <==> WentThrough(env, step)
  {
    if step in CallsOf(env) {
      var i :| 0 <= i < |CallsOf(env)| && CallsOf(env)[i] == step;
      OnePlace(i, k);
    }
    if k < |CallsOf(env)| { assert CallsOf(env)[k] == step; }
  }

  lemma OnePlace(i: nat, j: nat)
    requires i < STEPS && j < STEPS && Nth(i) == Nth(j)
    ensures i == j
  {
  }

  /** The database is only touched while the run is poisoned on disk, blocked, and its Porta is down; the public
      verification and what follows it see Porta up, traffic still blocked and the database verified. */
  lemma StepsFindTheStack(w: World, env: Env, i: nat)
    requires i < |CallsOf(env)| && CallsOf(env)[i] !in {Quiesce, StopPorta, PersistPoison, FlushPoison}
    ensures 4 <= i <= |ResetInstants(w, env)|
    ensures var found := ResetInstants(w, env)[i - 1];
            && found.blocked
            && (CallsOf(env)[i] in {DbRecreate, Migrate, Bootstrap, SeedFixtures, Redis, Mailhog} ==>
                  found.committed == Some(Poisoned) && found.pending.None? && !found.portaUp)
            && (CallsOf(env)[i] in {PublicHealth, VerifyTrafficBlocked, ClearPoison, FlushReady, ResumeTraffic} ==>
                  found.portaUp && !found.dirty)
            && (CallsOf(env)[i] == ResumeTraffic ==> found.committed == Some(Ready))
  {
    assert ResetInstants(w, env)[i - 1] == WorldAt(w, i);
  }

  /** The reset got as far as the first durable mutation. */
  ghost predicate ReachedMutation(env: Env) {
    StopOf(env).Failed? ==> StopOf(env).at >= 4
  }

  predicate PoisonedAndBlocked(w: World) {
    w.committed == Some(Poisoned) && w.blocked
  }

  /** Any other answer than 0 and 60 after the first mutation leaves the run poisoned and blocked,
      the early answer for a wrong identity included. */
  lemma FailureAfterMutationIsFenced(w: World, env: Env)
    requires ReachedMutation(env) && ResetExit(w, env) != 0 && ResetExit(w, env) != 60
    ensures PoisonedAndBlocked(ResetFinal(w, env))
  {
    var stop := StopOf(env);
    if stop.Failed? { StepByStep(w, stop.at); }
  }

  /** The state file may already say ready when the step that failed is the last flush, or later. */
  predicate MayBeReady(k: nat, fault: Fault) {
    k == 17 || (k == 16 && fault.FailsAfter?)
  }

  /** Exactly when a failed reset ends poisoned and blocked, exit 60 included. */
  lemma FencedExactlyWhen(w: World, env: Env)
    requires ReachedMutation(env) && StopOf(env).Failed?
    ensures PoisonedAndBlocked(ResetFinal(w, env)) <==>
            MayBeReady(StopOf(env).at, StopOf(env).fault) ==>
              && (StopOf(env).at == 17 ==> env.requiesce.Succeeds?)
              && env.repersist.Succeeds? && !env.reflush.FailsBefore?
  {
    var stop := StopOf(env);
    StepByStep(w, stop.at);
  }

  /** Why 60 is left out: a flush that takes effect but reports failure, followed by a repair that
      fails, leaves a run that answers 60 committed ready. */
  lemma SixtyMayLeaveReady(w: World, identity: Identity)
    ensures exists env: Env :: env.expected == identity && ResetExit(w, env) == 60
                               && ResetFinal(w, env).committed == Some(Ready)
  {
    var late := FailsAfter(Timeout);
    var env := Env(s => if s == FlushReady then late else Succeeds, identity, identity,
                   Succeeds, Succeeds, FailsBefore(Failure), Succeeds, 0, 0, []);
    assert WentWell(env, 16);
    StopIsUnique(env, StopOf(env), Failed(16, late));
    StepByStep(w, 16);
  }

  /** Before the first mutation nothing in the database changes, and a repair that goes through
      reopens traffic. */
  lemma FailureBeforeMutationIsHarmless(w: World, env: Env)
    requires !w.dirty && StopOf(env).Failed? && StopOf(env).at < 4
    ensures forall i :: 0 <= i < |ResetInstants(w, env)| ==> !ResetInstants(w, env)[i].dirty
    ensures env.restore.Succeeds? ==> !ResetFinal(w, env).blocked
  {
    StepByStep(w, StopOf(env).at);
  }

  /** Up to the last flush, and through the repair of an earlier step, ready is never committed. */
  lemma EarlyStopNeverCommitsReady(w: World, k: nat, fault: Fault, env: Env)
    requires w.committed != Some(Ready) && (k < 16 || (k == 16 && fault.FailsBefore?))
    ensures var stop := Failed(k, fault);
            && (forall i :: 0 <= i < |ForwardInstants(w, stop)| ==>
                  ForwardInstants(w, stop)[i].committed != Some(Ready))
            && (forall i :: 0 <= i < |Repair(Stopped(w, stop), Nth(k), env).0| ==>
                  Repair(Stopped(w, stop), Nth(k), env).0[i].committed != Some(Ready))
  {
    StepByStep(w, k);
  }

  /** No reset commits ready except at its last flush, after sixteen good steps and a matching identity. */
  lemma ReadyNeedsVerification(w: World, env: Env, i: nat)
    requires w.committed != Some(Ready) && i < |ResetInstants(w, env)|
    requires ResetInstants(w, env)[i].committed == Some(Ready)
    ensures WentWell(env, 16) && !env.step(FlushReady).FailsBefore?
  {
    var stop := StopOf(env);
    assert Nth(16) == FlushReady;
    match stop
    case Finished =>
    case Mismatched =>
    case Failed(k, fault) =>
      if k < 16 || (k == 16 && fault.FailsBefore?) { EarlyStopNeverCommitsReady(w, k, fault, env); }
  }
}
