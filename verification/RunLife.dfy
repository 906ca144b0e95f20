/** The operations a controller performs on one run -- reset, Porta restart, narrow preparation and
    recovery by a replacement process -- and what holds over every sequence of them, crashes included. */
module RunLife {
  import opened LeaseRecords
  import opened Options
  import opened ResetProtocol
  import opened ResetSafety

  /** Fates of one bounded Porta restart; `expired`: its deadline ran out although every step went well. */
  datatype RestartEnv = RestartEnv(quiesce: Fault, stopPorta: Fault, restartPorta: Fault, verify: Fault,
                                   verifyBlocked: Fault, resume: Fault, expired: bool,
                                   restartAgain: Fault, verifyAgain: Fault, resumeAgain: Fault)

  datatype Persisted = Malformed | Incomplete | Missing | ReadThrows | Record(record: LeaseRecord)

  datatype TransferAnswer = Transferred | Mismatch | TransferThrows

  /** Everything a recovery may meet: `probesThrow` when a presence or Compose probe rejects. */
  datatype RecoverEnv = RecoverEnv(lookupValid: bool, persisted: Persisted,
                                   probesThrow: bool, owner: Presence, compose: Presence, hasReset: bool,
                                   transfer: TransferAnswer, composeAgain: Presence, composeStart: Fault,
                                   composeStop: Fault, release: Fault, quarantine: Fault, reset: Env)

  /** What an answer names for manual recovery: nothing, the quarantined lease, or the record's resources. */
  datatype Named = Nothing | QuarantinedLease | Resources

  /** `Rejected`: the returned promise rejects, because the read or the takeover itself threw. */
  datatype RecoveryResult = Answered(exit: int, owned: bool, named: Named) | Rejected

  // ---------------------------------------------------------------- recovery, as a specification

  /** The dead owner and the absent stack were both proved, and the run is poisoned. */
  predicate Recreates(env: RecoverEnv, w: World) {
    && env.lookupValid && env.persisted.Record? && !env.probesThrow
    && env.owner == Absent && env.compose == Absent
    && env.hasReset && w.committed == Some(Poisoned)
  }

  predicate TakesOver(env: RecoverEnv, w: World) {
    Recreates(env, w) && env.transfer == Transferred
  }

  predicate Rebuilds(env: RecoverEnv, w: World) {
    TakesOver(env, w) && env.composeAgain == Absent && env.composeStart.Succeeds?
  }

  /** Owner and stack were proved gone, the run is not poisoned, and stop and release went through. */
  predicate StopsCleanly(env: RecoverEnv, w: World) {
    && env.lookupValid && env.persisted.Record? && !env.probesThrow
    && env.owner == Absent && env.compose == Absent
    && (env.hasReset ==> w.committed == Some(Ready))
    && env.composeStop.Succeeds? && env.release.Succeeds?
  }

  /** A rebuilt run answers with its reset; without a rebuild only a clean stop answers 0. */
  ghost function RecoveryExit(env: RecoverEnv, w: World): int {
    if Rebuilds(env, w) then ResetExit(Fresh(w), env.reset)
    else if StopsCleanly(env, w) then 0 else 60
  }

  /** A lease that cannot be used is moved aside. */
  predicate Quarantines(env: RecoverEnv) {
    env.lookupValid && (env.persisted.Malformed? || env.persisted.Incomplete?)
  }

  /** A failing answer names the record it stopped at, or the lease it moved aside. */
  function NamedBy(env: RecoverEnv, exit: int): Named {
    if exit == 0 then Nothing
    else if env.lookupValid && env.persisted.Record? then Resources
    else if Quarantines(env) && env.quarantine.Succeeds? then QuarantinedLease
    else Nothing
  }

  /** A new process starts with no staged transition. */
  function Reread(w: World): World {
    w.(pending := None)
  }

  /** A stack created from nothing: serving, and with a new database. */
  function Fresh(w: World): World {
    w.(pending := None, blocked := false, portaUp := true, dirty := false)
  }

  /** What a takeover adds, once the run was found poisoned. */
  ghost function RebuildInstants(w: World, env: RecoverEnv): seq<World> {
    if env.transfer != Transferred || env.composeAgain != Absent then []
    else [Happens(env.composeStart, w, Fresh(w))]
         + if env.composeStart.Succeeds? then ResetInstants(Fresh(w), env.reset) else []
  }

  ghost function RecoveryAdds(w: World, env: RecoverEnv): seq<World> {
    if Recreates(env, w) then RebuildInstants(w, env) else []
  }

  ghost function RecoverInstants(w: World, env: RecoverEnv): seq<World> {
    [Reread(w)] + RecoveryAdds(Reread(w), env)
  }

  lemma AddedAfter(past: seq<World>, w: World, now: World, added: seq<World>)
    ensures past + [now] + added == past + ([now] + added)
    ensures LastOf(now, added) == LastOf(w, [now] + added)
  {
  }

  /** The calls of a Porta restart, and of its repair. */
  datatype RestartCall = QuiesceTraffic | StopPortaAlone | StartPorta | VerifyHealth | VerifyBlocked | ResumePublic

  class RunController {
    const stack: Stack
    /** The calls the restarts have made, in order. */
    ghost var calls: seq<RestartCall>
    /** Whether the capability is still registered, and whether the reset bundle was supplied. */
    var registered: bool
    const hasReset: bool
    /** The lease of this run was moved to quarantine. */
    var quarantined: bool

    constructor (stack: Stack, hasReset: bool)
      ensures this.stack == stack && this.hasReset == hasReset && registered && !quarantined && calls == []
    {
      this.stack, this.hasReset, registered, quarantined, calls := stack, hasReset, true, false, [];
    }

    /** One full reset of the stack; only its exit is looked at here. */
    method ResetStack(record: LeaseRecord, env: Env) returns (exit: int)
      modifies stack
      ensures exit == ResetExit(old(stack.world), env)
      ensures stack.instants == old(stack.instants) + ResetInstants(old(stack.world), env)
      ensures stack.world == LastOf(old(stack.world), ResetInstants(old(stack.world), env))
    {
      var outcome := stack.ExecuteReset(record, env);
      exit := outcome.exit;
    }

    /** What the controller did to the stack is one complete operation of a run's life. */
    ghost predicate Performed(op: Op, before: World, past: seq<World>)
      reads this, stack
    {
      && OpLegal(before, op)
      && stack.instants == past + OpInstants(before, op)
      && stack.world == EpisodeEnd(before, Complete(op))
    }

    /** Refuses anything but a run committed ready. */
    method ResetOwned(record: LeaseRecord, env: Env) returns (exit: int)
      modifies stack
      ensures !registered || !hasReset ==> exit == 30
      ensures registered && hasReset && old(stack.world).committed != Some(Ready) ==> exit == 60
      ensures registered && hasReset && old(stack.world).committed == Some(Ready) ==>
                exit == ResetExit(old(stack.world), env)
                && stack.instants == old(stack.instants) + ResetInstants(old(stack.world), env)
                && stack.world == ResetFinal(old(stack.world), env)
      ensures !(registered && hasReset && old(stack.world).committed == Some(Ready)) ==>
                stack.world == old(stack.world) && stack.instants == old(stack.instants)
      ensures Performed(if registered && hasReset then ResetOp(env) else PrepareOp,
                        old(stack.world), old(stack.instants))
    {
      if !registered || !hasReset { return 30; }
      if stack.world.committed != Some(Ready) { return 60; }
      exit := ResetStack(record, env);
    }

    /** Clears the transient prerequisites in order; touches neither poison nor traffic. */
    method PrepareOwned(redis: Fault, mailhog: Fault) returns (exit: int, prerequisite: Option<Prerequisite>)
      ensures exit == 0 <==> registered && redis.Succeeds? && mailhog.Succeeds?
      ensures exit != 0 ==> exit == 30
      ensures prerequisite == if !registered || exit == 0 then None
                              else if !redis.Succeeds? then Some(RedisReset) else Some(MailhogReset)
      ensures Performed(PrepareOp, stack.world, stack.instants)
    {
      if !registered { return 30, None; }
      if !redis.Succeeds? { return 30, Some(RedisReset); }
      if !mailhog.Succeeds? { return 30, Some(MailhogReset); }
      return 0, None;
    }

    /** A stop answers what the cleanup of the run answered, and drops the capability only when it was clean.
        It touches neither the poison flag nor the fence. */
    method StopOwned(cleaned: bool) returns (exit: int)
      modifies `registered
      ensures exit == if old(registered) && cleaned then 0 else 60
      ensures registered == (old(registered) && !cleaned)
      ensures Performed(StopOp, stack.world, stack.instants)
    {
      if !registered { return 60; }
      if cleaned {
        registered := false;
        return 0;
      }
      return 60;
    }

    method Do(fault: Fault, after: World)
      modifies stack`world, stack`instants
      ensures stack.world == Happens(fault, old(stack.world), after)
      ensures stack.instants == old(stack.instants) + [stack.world]
    {
      stack.world := Happens(fault, stack.world, after);
      stack.instants := stack.instants + [stack.world];
    }

    /** One call of a restart, which may fail before or after its effect. */
    method Call(ghost call: RestartCall, fault: Fault, after: World)
      modifies `calls, stack`world, stack`instants
      ensures stack.world == Happens(fault, old(stack.world), after)
      ensures stack.instants == old(stack.instants) + [stack.world] && calls == old(calls) + [call]
    {
      calls := calls + [call];
      Do(fault, after);
    }

    /** Blocks traffic and replaces the Porta process; the flags say how far that came. */
    method ReplacePorta(env: RestartEnv) returns (failed: Option<Kind>, trafficBlocked: bool, portaStopped: bool)
      modifies `calls, stack`world, stack`instants
      ensures KeepsDurableState(old(stack.world), stack.world)
      ensures AppendedKeepDurableState(old(stack.world), old(stack.instants), stack.instants)
      ensures stack.world == LastOf(old(stack.world), stack.instants[|old(stack.instants)|..])
      ensures failed.None? <==> env.quiesce.Succeeds? && env.stopPorta.Succeeds? && env.restartPorta.Succeeds?
      ensures failed.None? ==> StepsCalled(env) > 3 && stack.world.portaUp && stack.world.blocked
      ensures failed.Some? ==> StepsCalled(env) <= 3 && failed == FirstFailure(env)
      ensures calls == old(calls) + RestartCalls(env)[..if failed.None? then 3 else StepsCalled(env)]
      ensures trafficBlocked <==> env.quiesce.Succeeds?
      ensures portaStopped <==> env.quiesce.Succeeds? && env.stopPorta.Succeeds? && !env.restartPorta.Succeeds?
      ensures !env.quiesce.Succeeds? ==>
                stack.world == old(stack.world).(blocked := old(stack.world).blocked || env.quiesce.FailsAfter?)
      ensures env.quiesce.Succeeds? && !env.stopPorta.Succeeds? ==>
                stack.world.portaUp == (old(stack.world).portaUp && !env.stopPorta.FailsAfter?)
    {
      trafficBlocked, portaStopped := false, false;
      Call(QuiesceTraffic, env.quiesce, stack.world.(blocked := true));
      if !env.quiesce.Succeeds? { return Some(env.quiesce.kind), trafficBlocked, portaStopped; }
      trafficBlocked := true;
      Call(StopPortaAlone, env.stopPorta, stack.world.(portaUp := false));
      if !env.stopPorta.Succeeds? { return Some(env.stopPorta.kind), trafficBlocked, portaStopped; }
      portaStopped := true;
      Call(StartPorta, env.restartPorta, stack.world.(portaUp := true));
      if !env.restartPorta.Succeeds? { return Some(env.restartPorta.kind), trafficBlocked, portaStopped; }
      portaStopped := false;
      return None, trafficBlocked, portaStopped;
    }

    /** Verifies the new Porta behind the block, and only then reopens traffic. */
    method VerifyAndResume(env: RestartEnv) returns (failed: Option<Kind>, trafficBlocked: bool)
      requires StepsCalled(env) > 3 && stack.world.portaUp && stack.world.blocked
      modifies `calls, stack`world, stack`instants
      ensures KeepsDurableState(old(stack.world), stack.world)
      ensures AppendedKeepDurableState(old(stack.world), old(stack.instants), stack.instants)
      ensures stack.world == LastOf(old(stack.world), stack.instants[|old(stack.instants)|..])
      ensures failed == FirstFailure(env) && stack.world.portaUp
      ensures trafficBlocked <==> !(env.verify.Succeeds? && env.verifyBlocked.Succeeds? && env.resume.Succeeds?)
      ensures !trafficBlocked ==> !stack.world.blocked
      ensures calls == old(calls) + RestartCalls(env)[3..]
    {
      trafficBlocked := true;
      Call(VerifyHealth, env.verify, stack.world);
      if !env.verify.Succeeds? { return Some(env.verify.kind), trafficBlocked; }
      Call(VerifyBlocked, env.verifyBlocked, stack.world);
      if !env.verifyBlocked.Succeeds? { return Some(env.verifyBlocked.kind), trafficBlocked; }
      Call(ResumePublic, env.resume, stack.world.(blocked := false));
      if !env.resume.Succeeds? { return Some(env.resume.kind), trafficBlocked; }
      trafficBlocked := false;
      return if env.expired then Some(Timeout) else None, trafficBlocked;
    }

    /** The bounded part of a restart: the kind of the first failure, and how far the flags had come. */
    method TryRestart(env: RestartEnv) returns (failed: Option<Kind>, trafficBlocked: bool, portaStopped: bool)
      modifies `calls, stack`world, stack`instants
      ensures KeepsDurableState(old(stack.world), stack.world)
      ensures AppendedKeepDurableState(old(stack.world), old(stack.instants), stack.instants)
      ensures stack.world == LastOf(old(stack.world), stack.instants[|old(stack.instants)|..])
      ensures failed == FirstFailure(env)
      ensures calls == old(calls) + RestartCalls(env)
      ensures failed.None? ==> Serving(stack.world)
      ensures trafficBlocked <==> env.quiesce.Succeeds? && !RestartWentWell(env)
      ensures portaStopped <==> env.quiesce.Succeeds? && env.stopPorta.Succeeds? && !env.restartPorta.Succeeds?
      ensures env.quiesce.Succeeds? && env.stopPorta.Succeeds? && env.restartPorta.Succeeds? ==> stack.world.portaUp
      ensures RestartWentWell(env) ==> Serving(stack.world)
      ensures !env.quiesce.Succeeds? ==>
                stack.world == old(stack.world).(blocked := old(stack.world).blocked || env.quiesce.FailsAfter?)
      ensures env.quiesce.Succeeds? && !env.stopPorta.Succeeds? ==>
                stack.world.portaUp == (old(stack.world).portaUp && !env.stopPorta.FailsAfter?)
    {
      failed, trafficBlocked, portaStopped := ReplacePorta(env);
      if failed.Some? { return; }
      ghost var tried, middle := stack.instants, stack.world;
      failed, trafficBlocked := VerifyAndResume(env);
      GrowsAgain(old(stack.world), old(stack.instants), tried, middle, stack.instants);
    }

    /** Restarts Porta alone on a ready run. The durable state and the database are never touched. On a
        serving run any answer but 60 leaves it serving, exactly unless quiescing took effect while
        reporting failure; and 60 is answered exactly when the failure has no kind or the repair failed. */
    method RestartOwnedPorta(record: LeaseRecord, env: RestartEnv) returns (exit: int)
      modifies `calls, stack`world, stack`instants
      ensures !registered || !hasReset ==> exit == 30
      ensures registered && hasReset && old(stack.world).committed != Some(Ready) ==> exit == 60
      ensures !(registered && hasReset && old(stack.world).committed == Some(Ready)) ==>
                stack.world == old(stack.world) && stack.instants == old(stack.instants) && calls == old(calls)
      ensures AppendedKeepDurableState(old(stack.world), old(stack.instants), stack.instants)
      ensures stack.world == LastOf(old(stack.world), stack.instants[|old(stack.instants)|..])
      ensures registered && hasReset && old(stack.world).committed == Some(Ready) ==>
                && RestartAnswers(exit, old(stack.world), stack.world, env)
                && calls == old(calls) + RestartCalls(env) + RepairCalls(env, old(stack.world).portaUp)
      ensures Performed(if registered && hasReset then RestartOp(stack.instants[|old(stack.instants)|..])
                        else PrepareOp, old(stack.world), old(stack.instants))
    {
      if !registered || !hasReset { return 30; }
      if stack.world.committed != Some(Ready) { return 60; }
      exit := RestartReady(env);
      RestartIsOperation(old(stack.world), old(stack.instants), stack.instants);
    }

    /** The attempt and, when it fails, the repair. */
    method RestartReady(env: RestartEnv) returns (exit: int)
      modifies `calls, stack`world, stack`instants
      ensures AppendedKeepDurableState(old(stack.world), old(stack.instants), stack.instants)
      ensures stack.world == LastOf(old(stack.world), stack.instants[|old(stack.instants)|..])
      ensures RestartAnswers(exit, old(stack.world), stack.world, env)
      ensures calls == old(calls) + RestartCalls(env) + RepairCalls(env, old(stack.world).portaUp)
    {
      var failed, trafficBlocked, portaStopped := TryRestart(env);
      if failed.None? { return 0; }
      ghost var tried, middle := stack.instants, stack.world;
      var ok := RepairRestart(env, trafficBlocked, portaStopped);
      GrowsAgain(old(stack.world), old(stack.instants), tried, middle, stack.instants);
      return if ok then InterruptionExit(failed.value) else 60;
    }

    /** Brings Porta and traffic back as far as the flags ask for it. */
    method RepairRestart(env: RestartEnv, trafficBlocked: bool, portaStopped: bool) returns (ok: bool)
      modifies `calls, stack`world, stack`instants
      ensures KeepsDurableState(old(stack.world), stack.world)
      ensures AppendedKeepDurableState(old(stack.world), old(stack.instants), stack.instants)
      ensures stack.world == LastOf(old(stack.world), stack.instants[|old(stack.instants)|..])
      ensures ok <==> && (portaStopped ==> env.restartAgain.Succeeds?)
                      && (trafficBlocked ==> && env.verifyAgain.Succeeds? && (old(stack.world).portaUp || portaStopped)
                                             && env.resumeAgain.Succeeds?)
      ensures ok ==> stack.world.portaUp == (old(stack.world).portaUp || portaStopped)
                     && stack.world.blocked == (old(stack.world).blocked && !trafficBlocked)
      ensures !trafficBlocked && !portaStopped ==> stack.world == old(stack.world)
      ensures calls == old(calls) + RepairSteps(env, trafficBlocked, portaStopped, old(stack.world).portaUp)
    {
      if portaStopped {
        Call(StartPorta, env.restartAgain, stack.world.(portaUp := true));
        if !env.restartAgain.Succeeds? { return false; }
      }
      if trafficBlocked {
        // the verification runs inside Porta's container
        calls := calls + [VerifyHealth];
        if !env.verifyAgain.Succeeds? || !stack.world.portaUp { return false; }
        Call(ResumePublic, env.resumeAgain, stack.world.(blocked := false));
        if !env.resumeAgain.Succeeds? { return false; }
      }
      LastAdded(old(stack.instants), stack.instants, old(stack.world));
      return true;
    }

    /** Reclaims a persisted run. Only a poisoned run whose owner and stack are both proved gone is
        taken over, and only a takeover that finds the stack still absent rebuilds it. */
    method Recover(env: RecoverEnv) returns (r: RecoveryResult)
      modifies stack, `quarantined
      ensures stack.instants == old(stack.instants) + RecoverInstants(old(stack.world), env)
      ensures stack.world == LastOf(old(stack.world), RecoverInstants(old(stack.world), env))
      ensures var w := Reread(old(stack.world));
              && (r == Rejected <==> (env.lookupValid && env.persisted.ReadThrows?)
                                     || (Recreates(env, w) && env.transfer == TransferThrows))
              && (r.Answered? ==> (r.owned <==> TakesOver(env, w)) && r.named == NamedBy(env, r.exit)
                                  && r.exit == RecoveryExit(env, w))
      ensures quarantined <==> old(quarantined) || (Quarantines(env) && !env.quarantine.FailsBefore?)
      ensures Performed(RecoverOp(env), old(stack.world), old(stack.instants))
    {
      stack.world := Reread(stack.world);
      stack.instants := stack.instants + [stack.world];
      ghost var now := stack.world;
      r := AnswerRecovery(env);
      AddedAfter(old(stack.instants), old(stack.world), now, RecoveryAdds(now, env));
    }

    /** Everything after the durable state was read again. */
    method AnswerRecovery(env: RecoverEnv) returns (r: RecoveryResult)
      modifies stack, `quarantined
      ensures stack.instants == old(stack.instants) + RecoveryAdds(old(stack.world), env)
      ensures stack.world == LastOf(old(stack.world), RecoveryAdds(old(stack.world), env))
      ensures r == Rejected <==> (env.lookupValid && env.persisted.ReadThrows?)
                                 || (Recreates(env, old(stack.world)) && env.transfer == TransferThrows)
      ensures r.Answered? ==> && (r.owned <==> TakesOver(env, old(stack.world))) && r.named == NamedBy(env, r.exit)
                              && r.exit == RecoveryExit(env, old(stack.world))
      ensures quarantined <==> old(quarantined) || (Quarantines(env) && !env.quarantine.FailsBefore?)
    {
      if !env.lookupValid { return Answered(60, false, Nothing); }
      if env.persisted.ReadThrows? { return Rejected; }
      if env.persisted.Malformed? || env.persisted.Incomplete? {
        r := QuarantineUnusable(env);
        return;
      }
      if env.persisted.Missing? { return Answered(60, false, Nothing); }
      r := RecoverRecord(env);
    }

    /** Owner and stack must both be proved gone; a poisoned run is then rebuilt, any other one stopped. */
    method RecoverRecord(env: RecoverEnv) returns (r: RecoveryResult)
      requires env.lookupValid && env.persisted.Record?
      modifies stack
      ensures if Recreates(env, old(stack.world))
              then && stack.instants == old(stack.instants) + RebuildInstants(old(stack.world), env)
                   && stack.world == LastOf(old(stack.world), RebuildInstants(old(stack.world), env))
              else stack.instants == old(stack.instants) && stack.world == old(stack.world)
      ensures r == Rejected <==> Recreates(env, old(stack.world)) && env.transfer == TransferThrows
      ensures r.Answered? ==> (r.owned <==> TakesOver(env, old(stack.world)))
      ensures r.Answered? ==> r.named == if r.exit == 0 then Nothing else Resources
      ensures r.Answered? ==> r.exit == RecoveryExit(env, old(stack.world))
    {
      if env.probesThrow { return Answered(60, false, Resources); }
      if env.owner != Absent || env.compose != Absent { return Answered(60, false, Resources); }
      if env.hasReset && stack.world.committed == Some(Poisoned) {
        r := RecreatePoisonedRun(env);
        return;
      }
      var ok := StopRecovered(env);
      return if ok then Answered(0, false, Nothing) else Answered(60, false, Resources);
    }

    /** Moves an unusable lease aside and names it; a failing quarantine names nothing. */
    method QuarantineUnusable(env: RecoverEnv) returns (r: RecoveryResult)
      modifies `quarantined
      ensures quarantined <==> old(quarantined) || !env.quarantine.FailsBefore?
      ensures r == Answered(60, false, if env.quarantine.Succeeds? then QuarantinedLease else Nothing)
    {
      if !env.quarantine.FailsBefore? { quarantined := true; }
      return Answered(60, false, if env.quarantine.Succeeds? then QuarantinedLease else Nothing);
    }

    /** A run that is not poisoned is only stopped and released, and not when its state is unreadable. */
    method StopRecovered(env: RecoverEnv) returns (ok: bool)
      requires !(env.hasReset && stack.world.committed == Some(Poisoned))
      ensures ok <==> (env.hasReset ==> stack.world.committed == Some(Ready))
                      && env.composeStop.Succeeds? && env.release.Succeeds?
    {
      if env.hasReset {
        match stack.world.committed
        case None => return false;
        case Some(Poisoned) => assert false;
        case Some(Ready) =>
      }
      return env.composeStop.Succeeds? && env.release.Succeeds?;
    }

    method RecreatePoisonedRun(env: RecoverEnv) returns (r: RecoveryResult)
      requires Recreates(env, stack.world)
      modifies stack
      ensures stack.instants == old(stack.instants) + RebuildInstants(old(stack.world), env)
      ensures stack.world == LastOf(old(stack.world), RebuildInstants(old(stack.world), env))
      ensures r == Rejected <==> env.transfer == TransferThrows
      ensures r.Answered? ==> (r.owned <==> env.transfer == Transferred)
      ensures r.Answered? ==>
                r.exit == if Rebuilds(env, old(stack.world)) then ResetExit(Fresh(old(stack.world)), env.reset) else 60
      ensures r.Answered? ==> r.named == if r.exit == 0 then Nothing else Resources
    {
      if env.transfer == TransferThrows { return Rejected; }
      if env.transfer == Mismatch { return Answered(60, false, Resources); }
      if env.composeAgain != Absent { return Answered(60, true, Resources); }
      var exit := StartAndReset(env.persisted.record, env);
      return Answered(exit, true, if exit == 0 then Nothing else Resources);
    }

    /** Creates the stack from nothing and, when that succeeds, resets it completely. */
    method StartAndReset(record: LeaseRecord, env: RecoverEnv) returns (exit: int)
      modifies stack
      ensures var first := Happens(env.composeStart, old(stack.world), Fresh(old(stack.world)));
              if env.composeStart.Succeeds?
              then && stack.instants
                      == old(stack.instants) + ([first] + ResetInstants(Fresh(old(stack.world)), env.reset))
                   && stack.world == LastOf(first, ResetInstants(Fresh(old(stack.world)), env.reset))
                   && exit == ResetExit(Fresh(old(stack.world)), env.reset)
              else stack.instants == old(stack.instants) + [first] && stack.world == first && exit == 60
    {
      Do(env.composeStart, Fresh(stack.world));
      if !env.composeStart.Succeeds? { return 60; }
      exit := ResetStack(record, env.reset);
    }
  }

  // ---------------------------------------------------------------- what a recovery comes to

  /** Both probes proved absence for a lease that could be read. */
  predicate ProvedGone(env: RecoverEnv) {
    env.lookupValid && env.persisted.Record? && !env.probesThrow && env.owner == Absent && env.compose == Absent
  }

  /** Exactly when a recovery hands out a capability, and exactly when it answers 0: a poisoned run was rebuilt
      with every step of its reset, or a ready one -- or one without a reset bundle -- stopped and released. */
  lemma RecoveryMeans(env: RecoverEnv, w: World)
    ensures TakesOver(env, w) <==>
            ProvedGone(env) && env.hasReset && w.committed == Some(Poisoned) && env.transfer == Transferred
    ensures RecoveryExit(env, w) == 0 <==>
            && ProvedGone(env)
            && if env.hasReset && w.committed == Some(Poisoned)
               then && env.transfer == Transferred && env.composeAgain == Absent && env.composeStart.Succeeds?
                    && (forall step: Step :: env.reset.step(step).Succeeds?)
                    && env.reset.observed == env.reset.expected
               else && (!env.hasReset || w.committed == Some(Ready))
                    && env.composeStop.Succeeds? && env.release.Succeeds?
    ensures !TakesOver(env, w) && RecoveryExit(env, w) != 0 ==> RecoveryExit(env, w) == 60
  {
    if Rebuilds(env, w) { SuccessIsTruthful(Fresh(w), env.reset); }
  }

  /** A recovery that answers 0 after a takeover leaves a verified, ready and serving run; the stack it creates
      serves at once, on a database of its own, while the run still is poisoned; and one that stops before
      creating the stack again leaves the run as it found it. */
  lemma RecoveryLeaves(env: RecoverEnv, w: World)
    ensures TakesOver(env, Reread(w)) && RecoveryExit(env, Reread(w)) == 0 ==>
              LastOf(w, RecoverInstants(w, env)) == World(Some(Ready), None, false, true, false)
    ensures Rebuilds(env, Reread(w)) ==>
              && |RecoverInstants(w, env)| > 1 && RecoverInstants(w, env)[0] == w.(pending := None)
              && RecoverInstants(w, env)[1] == World(Some(Poisoned), None, false, true, false)
    ensures !(ProvedGone(env) && env.transfer == Transferred && env.composeAgain == Absent) ==>
              LastOf(w, RecoverInstants(w, env)) == w.(pending := None)
  {
    if Rebuilds(env, Reread(w)) { SuccessIsTruthful(Fresh(Reread(w)), env.reset); }
    if TakesOver(env, Reread(w)) && RecoveryExit(env, Reread(w)) == 0 {
      assert LastOf(w, RecoverInstants(w, env)) == ResetFinal(Fresh(Reread(w)), env.reset);
    }
  }

  /** What an answer names. */
  lemma NamedMeans(env: RecoverEnv, exit: int)
    ensures NamedBy(env, exit) == Resources <==> exit != 0 && env.lookupValid && env.persisted.Record?
    ensures NamedBy(env, exit) == QuarantinedLease <==>
            && exit != 0 && env.lookupValid && (env.persisted.Malformed? || env.persisted.Incomplete?)
            && env.quarantine.Succeeds?
  {
  }

  // ---------------------------------------------------------------- restart vocabulary

  predicate RestartWentWell(env: RestartEnv) {
    && env.quiesce.Succeeds? && env.stopPorta.Succeeds? && env.restartPorta.Succeeds?
    && env.verify.Succeeds? && env.verifyBlocked.Succeeds? && env.resume.Succeeds?
  }

  function FirstFailure(env: RestartEnv): Option<Kind> {
    if !env.quiesce.Succeeds? then Some(env.quiesce.kind)
    else if !env.stopPorta.Succeeds? then Some(env.stopPorta.kind)
    else if !env.restartPorta.Succeeds? then Some(env.restartPorta.kind)
    else if !env.verify.Succeeds? then Some(env.verify.kind)
    else if !env.verifyBlocked.Succeeds? then Some(env.verifyBlocked.kind)
    else if !env.resume.Succeeds? then Some(env.resume.kind)
    else if env.expired then Some(Timeout)
    else None
  }

  /** The fates of a restart's steps, in order. */
  function FatesOf(env: RestartEnv): seq<Fault> {
    [env.quiesce, env.stopPorta, env.restartPorta, env.verify, env.verifyBlocked, env.resume]
  }

  /** How many of the steps are called: the first that fails is the last. */
  function StepsCalled(env: RestartEnv): (n: nat)
    ensures 0 < n <= 6
    ensures forall i :: 0 <= i < n - 1 ==> FatesOf(env)[i].Succeeds?
    ensures n < 6 ==> !FatesOf(env)[n - 1].Succeeds?
  {
    if !env.quiesce.Succeeds? then 1 else if !env.stopPorta.Succeeds? then 2
    else if !env.restartPorta.Succeeds? then 3 else if !env.verify.Succeeds? then 4
    else if !env.verifyBlocked.Succeeds? then 5 else 6
  }

  /** The calls of a restart: traffic is reopened last, after Porta came back healthy behind the block. */
  function RestartCalls(env: RestartEnv): (calls: seq<RestartCall>)
    ensures |calls| == StepsCalled(env)
    ensures calls <= [QuiesceTraffic, StopPortaAlone, StartPorta, VerifyHealth, VerifyBlocked, ResumePublic]
  {
    [QuiesceTraffic, StopPortaAlone, StartPorta, VerifyHealth, VerifyBlocked, ResumePublic][..StepsCalled(env)]
  }

  /** The calls of a repair: Porta is started when it was stopped, and traffic is reopened only after a
      verification that passed. */
  function RepairSteps(env: RestartEnv, trafficBlocked: bool, portaStopped: bool, portaUp: bool)
    : (calls: seq<RestartCall>)
    ensures StartPorta in calls <==> portaStopped
    ensures VerifyHealth in calls <==> trafficBlocked && (portaStopped ==> env.restartAgain.Succeeds?)
    ensures ResumePublic in calls <==> VerifyHealth in calls && env.verifyAgain.Succeeds? && (portaUp || portaStopped)
    ensures calls <= [StartPorta, VerifyHealth, ResumePublic] || calls <= [VerifyHealth, ResumePublic]
  {
    if portaStopped && !env.restartAgain.Succeeds? then [StartPorta]
    else
      (if portaStopped then [StartPorta] else [])
      + if !trafficBlocked then []
        else if env.verifyAgain.Succeeds? && (portaUp || portaStopped) then [VerifyHealth, ResumePublic]
        else [VerifyHealth]
  }

  /** The repair of a restart that failed, by what its flags say then. */
  function RepairCalls(env: RestartEnv, portaUp: bool): seq<RestartCall> {
    if FirstFailure(env).None? then []
    else
      RepairSteps(env, env.quiesce.Succeeds? && !RestartWentWell(env),
                  env.quiesce.Succeeds? && env.stopPorta.Succeeds? && !env.restartPorta.Succeeds?,
                  env.stopPorta.Succeeds? || (portaUp && !env.stopPorta.FailsAfter?))
  }

  /** The failure is that of the first step that fails; when none does, only the deadline can have failed. */
  lemma FirstFailureIsFirst(env: RestartEnv)
    ensures FirstFailure(env).None? <==>
            && env.quiesce.Succeeds? && env.stopPorta.Succeeds? && env.restartPorta.Succeeds?
            && env.verify.Succeeds? && env.verifyBlocked.Succeeds? && env.resume.Succeeds? && !env.expired
    ensures forall i :: 0 <= i < 6 && !FatesOf(env)[i].Succeeds?
                        && (forall j :: 0 <= j < i ==> FatesOf(env)[j].Succeeds?)
              ==> FirstFailure(env) == Some(FatesOf(env)[i].kind)
    ensures (forall i :: 0 <= i < 6 ==> FatesOf(env)[i].Succeeds?) && env.expired ==> FirstFailure(env) == Some(Timeout)
  {
    var fates := FatesOf(env);
    assert fates[0] == env.quiesce && fates[1] == env.stopPorta && fates[2] == env.restartPorta;
    assert fates[3] == env.verify && fates[4] == env.verifyBlocked && fates[5] == env.resume;
  }

  /** The flag for blocked traffic is set only after the quiesce reports success, so this effect escapes. */
  predicate FailsSilently(env: RestartEnv) {
    env.quiesce.FailsAfter?
  }

  /** Traffic was blocked and the repair does not reopen it: Porta could not be brought back, or was stopped
      without the flag saying so, or it could not be verified, or resuming failed. */
  predicate RepairFails(env: RestartEnv) {
    && env.quiesce.Succeeds? && FirstFailure(env).Some? && !RestartWentWell(env)
    && (|| (env.stopPorta.Succeeds? && !env.restartPorta.Succeeds? && !env.restartAgain.Succeeds?)
        || env.stopPorta.FailsAfter? || !env.verifyAgain.Succeeds? || !env.resumeAgain.Succeeds?)
  }

  /** The answer of a restart of a ready run whose Porta is up. */
  function RestartExit(env: RestartEnv): (exit: int)
    ensures exit == 0 <==> FirstFailure(env).None?
    ensures exit == 60 <==> FirstFailure(env) == Some(UnknownKind) || RepairFails(env)
  {
    if FirstFailure(env).None? then 0
    else if RepairFails(env) then 60
    else InterruptionExit(FirstFailure(env).value)
  }

  /** What the answer of a restart of a ready run says about the run. */
  ghost predicate RestartAnswers(exit: int, before: World, after: World, env: RestartEnv) {
    && (exit == 0 <==> FirstFailure(env).None?)
    && (exit == 0 ==> Serving(after))
    && (exit != 0 && exit != 60 ==> exit == InterruptionExit(FirstFailure(env).value))
    && (exit != 60 && Serving(before) ==> (Serving(after) <==> !FailsSilently(env)))
    && (before.portaUp ==> exit == RestartExit(env))
    && (FailsSilently(env) ==> !Serving(after))
  }

  /** Every quiesce that fails after taking effect is answered by its kind alone, without a repair -- by 30
      for an ordinary failure -- although the run no longer serves. */
  lemma QuietQuiesceIsMissed(w: World, env: RestartEnv)
    requires Serving(w) && FailsSilently(env)
    ensures !Serving(Happens(env.quiesce, w, w.(blocked := true)))
    ensures RestartExit(env) == InterruptionExit(env.quiesce.kind)
    ensures env.quiesce.kind == Failure ==> RestartExit(env) == 30
  {
  }

  predicate KeepsDurableState(before: World, after: World) {
    after.committed == before.committed && after.pending == before.pending && after.dirty == before.dirty
  }

  ghost predicate AppendedKeepDurableState(before: World, old_: seq<World>, new_: seq<World>) {
    && |old_| <= |new_| && new_[..|old_|] == old_
    && forall i :: |old_| <= i < |new_| ==> KeepsDurableState(before, new_[i])
  }

  /** What was appended is a restart's instants, and what came last is where the stack stands. */
  lemma RestartIsOperation(before: World, past: seq<World>, now: seq<World>)
    requires AppendedKeepDurableState(before, past, now)
    ensures now == past + now[|past|..]
    ensures forall i :: 0 <= i < |now[|past|..]| ==> KeepsDurableState(before, now[|past|..][i])
  {
  }

  lemma LastAdded(past: seq<World>, now: seq<World>, before: World)
    requires past <= now
    ensures LastOf(before, now[|past|..]) == if |now| == |past| then before else now[|now| - 1]
  {
  }

  lemma GrowsAgain(before: World, past: seq<World>, tried: seq<World>, middle: World, now: seq<World>)
    requires AppendedKeepDurableState(before, past, tried) && middle == LastOf(before, tried[|past|..])
    requires KeepsDurableState(before, middle) && AppendedKeepDurableState(middle, tried, now)
    ensures AppendedKeepDurableState(before, past, now)
    ensures LastOf(middle, now[|tried|..]) == LastOf(before, now[|past|..])
  {
    LastAdded(past, tried, before);
    LastAdded(tried, now, middle);
    LastAdded(past, now, before);
    assert now[..|past|] == tried[..|past|];
  }

  // ---------------------------------------------------------------- whole lives

  /** One operation on a run. A restart is any sequence of instants that keeps the durable state. */
  datatype Op = ResetOp(env: Env) | RestartOp(instants: seq<World>) | PrepareOp | StopOp
              | RecoverOp(recovery: RecoverEnv)

  /** An operation that runs to its end, or is cut off by a crash after some of its instants. */
  datatype Episode = Complete(op: Op) | CutOff(op: Op, after: nat)

  ghost predicate OpLegal(w: World, op: Op) {
    op.RestartOp? ==> forall i :: 0 <= i < |op.instants| ==> KeepsDurableState(w, op.instants[i])
  }

  ghost function OpInstants(w: World, op: Op): seq<World> {
    match op
    case ResetOp(env) => if w.committed == Some(Ready) then ResetInstants(w, env) else []
    case RestartOp(instants) => if w.committed == Some(Ready) then instants else []
    case PrepareOp => []
    case StopOp => []
    case RecoverOp(recovery) => RecoverInstants(w, recovery)
  }

  ghost function EpisodeInstants(w: World, e: Episode): seq<World> {
    var all := OpInstants(w, e.op);
    if e.Complete? || e.after >= |all| then all else all[..e.after]
  }

  ghost function EpisodeEnd(w: World, e: Episode): World {
    var last := LastOf(w, EpisodeInstants(w, e));
    if e.CutOff? then Reread(last) else last
  }

  ghost predicate LifeLegal(w: World, life: seq<Episode>)
    decreases |life|
  {
    life == [] || (OpLegal(w, life[0].op) && LifeLegal(EpisodeEnd(w, life[0]), life[1..]))
  }

  ghost function LifeInstants(w: World, life: seq<Episode>): seq<World>
    decreases |life|
  {
    if life == [] then [w]
    else [w] + EpisodeInstants(w, life[0]) + LifeInstants(EpisodeEnd(w, life[0]), life[1..])
  }

  lemma OpIsFenced(w: World, op: Op)
    requires Fenced(w) && OpLegal(w, op)
    ensures forall i :: 0 <= i < |OpInstants(w, op)| ==> Fenced(OpInstants(w, op)[i])
  {
    match op
    case ResetOp(env) => if w.committed == Some(Ready) { ResetIsFencedThroughout(w, env); }
    case RecoverOp(recovery) => ResetIsFencedThroughout(Fresh(w), recovery.reset);
    case _ =>
  }

  /** So after any operation of the controller the stack still is fenced, at its end and at every instant
      the operation added. */
  lemma PerformedKeepsFence(before: World, op: Op)
    requires Fenced(before) && OpLegal(before, op)
    ensures Fenced(EpisodeEnd(before, Complete(op)))
    ensures forall i :: 0 <= i < |OpInstants(before, op)| ==> Fenced(OpInstants(before, op)[i])
  {
    OpIsFenced(before, op);
  }

  /** Over every life of a run -- any resets, restarts, preparations, stops and recoveries, any of them
      cut off by a crash -- a mutated, unverified database is poisoned on disk and out of reach. */
  lemma {:induction false} LifeIsFenced(w: World, life: seq<Episode>)
    requires Fenced(w) && LifeLegal(w, life)
    ensures forall i :: 0 <= i < |LifeInstants(w, life)| ==> Fenced(LifeInstants(w, life)[i])
    decreases |life|
  {
    if life != [] {
      OpIsFenced(w, life[0].op);
      LifeIsFenced(EpisodeEnd(w, life[0]), life[1..]);
    }
  }

  /** A recovery that proved the owner dead and the stack absent, won the transfer, found the stack
      absent again, rebuilt it and verified the result. */
  ghost predicate ProvenRecovery(w: World, op: Op) {
    op.RecoverOp? && Rebuilds(op.recovery, w)
    && WentWell(op.recovery.reset, 16) && !op.recovery.reset.step(FlushReady).FailsBefore?
  }

  ghost predicate NoProvenRecovery(w: World, life: seq<Episode>)
    decreases |life|
  {
    life == [] || (!ProvenRecovery(w, life[0].op) && NoProvenRecovery(EpisodeEnd(w, life[0]), life[1..]))
  }

  lemma OpKeepsNotReady(w: World, op: Op)
    requires w.committed != Some(Ready) && OpLegal(w, op) && !ProvenRecovery(w, op)
    ensures forall i :: 0 <= i < |OpInstants(w, op)| ==> OpInstants(w, op)[i].committed != Some(Ready)
  {
    if op.RecoverOp? && Rebuilds(op.recovery, w) {
      var rest := ResetInstants(Fresh(w), op.recovery.reset);
      forall i | 0 <= i < |rest| ensures rest[i].committed != Some(Ready) {
        if rest[i].committed == Some(Ready) { ReadyNeedsVerification(Fresh(w), op.recovery.reset, i); }
      }
    }
  }

  /** Once a run is not committed ready, nothing but a proven recovery ever makes it ready again. */
  lemma {:induction false} OnlyProvenRecoveryMakesReady(w: World, life: seq<Episode>)
    requires w.committed != Some(Ready) && LifeLegal(w, life) && NoProvenRecovery(w, life)
    ensures forall i :: 0 <= i < |LifeInstants(w, life)| ==> LifeInstants(w, life)[i].committed != Some(Ready)
    decreases |life|
  {
    if life != [] {
      OpKeepsNotReady(w, life[0].op);
      OnlyProvenRecoveryMakesReady(EpisodeEnd(w, life[0]), life[1..]);
    }
  }
}
