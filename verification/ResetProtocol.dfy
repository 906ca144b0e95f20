/** The ordered reset of one owned stack, fenced by a durable poison flag and by traffic admission.
    Every adapter step may succeed, fail without effect, or report failure after taking effect; a
    crash leaves the stack at one of the recorded instants. */
module ResetProtocol {
  import opened LeaseRecords
  import opened Options

  datatype Prerequisite = Dns | Health | Migration | Seed | FixtureVerification | RedisReset | MailhogReset

  /** The discriminator a failed step carries. */
  datatype Kind = Failure | Sigint | Sigterm | Cancellation | Timeout | UnknownKind

  datatype Fault = Succeeds | FailsBefore(kind: Kind) | FailsAfter(kind: Kind)

  datatype Step =
    | Quiesce | StopPorta | PersistPoison | FlushPoison
    | DbRecreate | Migrate | Bootstrap | SeedFixtures | Redis | Mailhog | RestartClients | RestartPorta
    | DigestCountChecks | PublicHealth | VerifyTrafficBlocked
    | ClearPoison | FlushReady | ResumeTraffic

  const STEPS: nat := 18

  /** The fixed order of a reset. */
  function Nth(k: nat): Step {
    match k
    case 0 => Quiesce
    case 1 => StopPorta
    case 2 => PersistPoison
    case 3 => FlushPoison
    case 4 => DbRecreate
    case 5 => Migrate
    case 6 => Bootstrap
    case 7 => SeedFixtures
    case 8 => Redis
    case 9 => Mailhog
    case 10 => RestartClients
    case 11 => RestartPorta
    case 12 => DigestCountChecks
    case 13 => PublicHealth
    case 14 => VerifyTrafficBlocked
    case 15 => ClearPoison
    case 16 => FlushReady
    case _ => ResumeTraffic
  }

  /** Steps at or after the first durable mutation. */
  predicate PostMutation(step: Step) {
    !(step.Quiesce? || step.StopPorta? || step.PersistPoison? || step.FlushPoison?)
  }

  datatype Durable = Ready | Poisoned

  /** Migration and fixture identity of a database, observed or expected. */
  datatype Identity = Identity(revision: string, migrationDigest: string, fixtureDigest: string,
                               counts: map<string, int>)

  /** `committed` is what the state file says (nothing when unreadable), `pending` the transition staged
      in process memory. `dirty`: the database was mutated and its identity not verified since. */
  datatype World = World(committed: Option<Durable>, pending: Option<Durable>, blocked: bool,
                         portaUp: bool, dirty: bool)

  /** One adversary for a whole reset: the fate of each step and of each repair action. */
  datatype Env = Env(step: Step -> Fault, observed: Identity, expected: Identity,
                     restore: Fault, requiesce: Fault, repersist: Fault, reflush: Fault,
                     redisRemoved: nat, mailRemoved: nat, identifiers: seq<string>)

  datatype Outcome = Outcome(exit: int, primaryExit: int, prerequisite: Option<Prerequisite>,
                             recoveryIdentifiers: seq<string>)

  datatype Report = Report(runId: string, revision: string, observed: Option<Identity>,
                           redisKeysRemoved: nat, mailMessagesRemoved: nat, identifiers: seq<string>)

  // ---------------------------------------------------------------- effects

  function Flushed(w: World): World {
    if w.pending.None? then w else w.(committed := w.pending, pending := None)
  }

  function Effect(step: Step, w: World): World {
    match step
    case Quiesce => w.(blocked := true)
    case StopPorta => w.(portaUp := false)
    case PersistPoison => w.(pending := Some(Poisoned))
    case FlushPoison => Flushed(w)
    case DbRecreate => w.(dirty := true)
    case Migrate => w.(dirty := true)
    case Bootstrap => w.(dirty := true)
    case SeedFixtures => w.(dirty := true)
    case RestartPorta => w.(portaUp := true)
    case ClearPoison => w.(pending := Some(Ready))
    case FlushReady => Flushed(w)
    case ResumeTraffic => w.(blocked := false)
    case _ => w
  }

  function Happens(fault: Fault, before: World, after: World): World {
    if fault.FailsBefore? then before else after
  }

  predicate SameCounts(observed: map<string, int>, expected: map<string, int>) {
    observed.Keys == expected.Keys && forall name | name in expected :: observed[name] == expected[name]
  }

  /** The verification prerequisite an observation violates, when any. */
  function VerificationMismatch(observed: Identity, expected: Identity): (r: Option<Prerequisite>)
    ensures r.None? <==> observed == expected
    ensures r == Some(Migration) <==>
            (observed.revision, observed.migrationDigest) != (expected.revision, expected.migrationDigest)
    ensures r == Some(FixtureVerification) <==>
            && (observed.revision, observed.migrationDigest) == (expected.revision, expected.migrationDigest)
            && (observed.fixtureDigest, observed.counts) != (expected.fixtureDigest, expected.counts)
  {
    if observed.revision != expected.revision || observed.migrationDigest != expected.migrationDigest
    then Some(Migration)
    else if observed.fixtureDigest != expected.fixtureDigest || !SameCounts(observed.counts, expected.counts)
    then Some(FixtureVerification)
    else
      assert observed.counts == expected.counts;
      None
  }

  // ---------------------------------------------------------------- outcomes

  function PrerequisiteFor(step: Step): Option<Prerequisite> {
    match step
    case Migrate => Some(Migration)
    case SeedFixtures => Some(Seed)
    case Redis => Some(RedisReset)
    case Mailhog => Some(MailhogReset)
    case PublicHealth => Some(Health)
    case _ => None
  }

  function InterruptionExit(kind: Kind): int {
    match kind
    case Sigint => 130
    case Sigterm => 143
    case Cancellation => 70
    case Timeout => 70
    case UnknownKind => 60
    case Failure => 30
  }

  function ResetFailureExit(kind: Kind, step: Step): int {
    if (step.PersistPoison? || step.FlushPoison?) && kind == Failure then 60 else InterruptionExit(kind)
  }

  /** Identifiers that are safe to show: the run, the project, then every container and every volume. */
  function SafeIds(record: LeaseRecord): (ids: seq<string>)
    ensures |ids| == 2 + |record.containerIds| + |record.volumeNames|
    ensures "run:" + record.runId in ids && "compose:" + record.composeProject in ids
    ensures forall i :: 0 <= i < |record.containerIds| ==> ids[2 + i] == "container:" + record.containerIds[i]
    ensures forall i :: 0 <= i < |record.volumeNames| ==>
              ids[2 + |record.containerIds| + i] == "volume:" + record.volumeNames[i]
  {
    ["run:" + record.runId, "compose:" + record.composeProject]
    + seq(|record.containerIds|, i requires 0 <= i < |record.containerIds| => "container:" + record.containerIds[i])
    + seq(|record.volumeNames|, i requires 0 <= i < |record.volumeNames| => "volume:" + record.volumeNames[i])
  }

  // ---------------------------------------------------------------- the reset as a specification

  /** Where the forward sequence stops: at its end, at a failing step, or at a wrong identity. */
  datatype Stop = Finished | Mismatched | Failed(at: nat, fault: Fault)

  const OBSERVATION: nat := 12

  /** The first k steps succeed, and the identity read by the observation is the expected one. */
  ghost predicate WentWell(env: Env, k: nat) {
    && k <= STEPS
    && (forall i :: 0 <= i < k ==> env.step(Nth(i)).Succeeds?)
    && (k > OBSERVATION ==> env.observed == env.expected)
  }

  ghost predicate IsStop(env: Env, stop: Stop) {
    match stop
    case Finished => WentWell(env, STEPS)
    case Mismatched =>
      WentWell(env, OBSERVATION) && env.step(DigestCountChecks).Succeeds? && env.observed != env.expected
    case Failed(k, fault) => k < STEPS && WentWell(env, k) && fault == env.step(Nth(k)) && !fault.Succeeds?
  }

  lemma {:induction false} StopExists(env: Env, k: nat) returns (stop: Stop)
    requires WentWell(env, k)
    ensures IsStop(env, stop)
    decreases STEPS - k
  {
    if k == STEPS {
      stop := Finished;
    } else if !env.step(Nth(k)).Succeeds? {
      stop := Failed(k, env.step(Nth(k)));
    } else if k == OBSERVATION && env.observed != env.expected {
      stop := Mismatched;
    } else {
      stop := StopExists(env, k + 1);
    }
  }

  lemma StopIsUnique(env: Env, a: Stop, b: Stop)
    requires IsStop(env, a) && IsStop(env, b)
    ensures a == b
  {
    assert Nth(OBSERVATION) == DigestCountChecks;
  }

  ghost function StopOf(env: Env): (stop: Stop)
    ensures IsStop(env, stop)
  {
    assert exists stop :: IsStop(env, stop) by {
      var stop := StopExists(env, 0);
    }
    var stop :| IsStop(env, stop);
    stop
  }

  /** The stack after the first k steps went well, field by field. */
  function WorldAt(w: World, k: nat): World {
    World(
      if k >= 17 then Some(Ready) else if k >= 4 then Some(Poisoned) else w.committed,
      if k >= 17 then None else if k == 16 then Some(Ready) else if k >= 4 then None
      else if k == 3 then Some(Poisoned) else w.pending,
      if k >= 18 then false else if k >= 1 then true else w.blocked,
      if k >= 12 then true else if k >= 2 then false else w.portaUp,
      if k >= 13 then false else if k >= 5 then true else w.dirty)
  }

  /** The field-by-field reading is what the steps do one after the other; a matching observation
      verifies the database. */
  lemma StepByStep(w: World, k: nat)
    requires k < STEPS
    ensures WorldAt(w, k + 1) == if k == OBSERVATION then WorldAt(w, k).(dirty := false)
                                 else Effect(Nth(k), WorldAt(w, k))
  {
    if k == 0 { } else if k == 1 { } else if k == 2 { } else if k == 3 { } else if k == 4 { }
    else if k == 5 { } else if k == 6 { } else if k == 7 { } else if k == 8 { } else if k == 9 { }
    else if k == 10 { } else if k == 11 { } else if k == 12 { } else if k == 13 { } else if k == 14 { }
    else if k == 15 { } else if k == 16 { } else { assert k == 17; }
  }

  function Trail(w: World, k: nat): seq<World> {
    seq(k, i requires 0 <= i < k => WorldAt(w, i + 1))
  }

  /** The stack when the forward sequence has stopped. */
  function Stopped(w: World, stop: Stop): World
    requires stop.Failed? ==> stop.at < STEPS
  {
    match stop
    case Finished => WorldAt(w, STEPS)
    case Mismatched => WorldAt(w, 12)
    case Failed(k, fault) => Happens(fault, WorldAt(w, k), Effect(Nth(k), WorldAt(w, k)))
  }

  function ForwardInstants(w: World, stop: Stop): seq<World>
    requires stop.Failed? ==> stop.at < STEPS
  {
    match stop
    case Finished => Trail(w, STEPS)
    case Mismatched => Trail(w, 12) + [Stopped(w, stop)]
    case Failed(k, _) => Trail(w, k) + [Stopped(w, stop)]
  }

  /** The repair after a failing step, as the instants it adds and whether it went through. */
  function Repair(w: World, step: Step, env: Env): (r: (seq<World>, bool))
  {
    if !PostMutation(step) then
      ([Happens(env.restore, w, w.(blocked := false))], env.restore.Succeeds?)
    else if step == ResumeTraffic then
      var w1 := Happens(env.requiesce, w, w.(blocked := true));
      if !env.requiesce.Succeeds? then ([w1], false)
      else var rest := Repoison(w1, env); ([w1] + rest.0, rest.1)
    else Repoison(w, env)
  }

  function Repoison(w: World, env: Env): (seq<World>, bool) {
    var w1 := Happens(env.repersist, w, w.(pending := Some(Poisoned)));
    if !env.repersist.Succeeds? then ([w1], false)
    else ([w1, Happens(env.reflush, w1, Flushed(w1))], env.reflush.Succeeds?)
  }

  ghost function ResetInstants(w: World, env: Env): seq<World> {
    var stop := StopOf(env);
    ForwardInstants(w, stop)
    + if stop.Failed? then Repair(Stopped(w, stop), Nth(stop.at), env).0 else []
  }

  ghost function ResetExit(w: World, env: Env): int {
    match StopOf(env)
    case Finished => 0
    case Mismatched => 30
    case Failed(k, fault) =>
      if Repair(Stopped(w, Failed(k, fault)), Nth(k), env).1 then ResetFailureExit(fault.kind, Nth(k)) else 60
  }

  function LastOf(w: World, instants: seq<World>): World {
    if instants == [] then w else instants[|instants| - 1]
  }

  ghost function ResetFinal(w: World, env: Env): World {
    LastOf(w, ResetInstants(w, env))
  }

  /** The first k steps. */
  function First(k: nat): (steps: seq<Step>)
    ensures |steps| == k
  {
    seq(k, i requires 0 <= i < k => Nth(i))
  }

  /** The steps a reset calls: up to the one it stops at. */
  ghost function CallsOf(env: Env): seq<Step> {
    match StopOf(env)
    case Finished => First(STEPS)
    case Mismatched => First(OBSERVATION + 1)
    case Failed(k, _) => First(k + 1)
  }

  // ---------------------------------------------------------------- the reset as the controller runs it

  /** The step at position k was reached and went well. */
  predicate Done(stop: Stop, k: nat) {
    match stop
    case Finished => true
    case Mismatched => k <= OBSERVATION
    case Failed(at, _) => k < at
  }

  /** What a reset has reported when it stops: exactly what the steps that went well brought back. */
  ghost function ReportOf(initial: Report, env: Env): Report {
    var stop := StopOf(env);
    Report(initial.runId, initial.revision,
           if Done(stop, OBSERVATION) then Some(env.observed) else initial.observed,
           if Done(stop, 8) then env.redisRemoved else initial.redisKeysRemoved,
           if Done(stop, 9) then env.mailRemoved else initial.mailMessagesRemoved,
           initial.identifiers + if Done(stop, 4) then env.identifiers else [])
  }

  datatype StepResult = StepOk | StepFailed(step: Step, kind: Kind) {
    predicate IsFailure() { StepFailed? }
    function PropagateFailure(): StepResult requires StepFailed? { this }
  }

  class Stack {
    var world: World
    var currentStep: Step
    var report: Report
    /** The steps the latest reset has called, in order. */
    ghost var calls: seq<Step>
    /** Every intermediate state of the stack, in order. */
    ghost var instants: seq<World>

    constructor (world: World)
      ensures this.world == world && instants == []
    {
      this.world, currentStep, instants, calls := world, Quiesce, [], [];
      report := Report("", "", None, 0, 0, []);
    }

    /** k steps of a reset that began in w have gone well. */
    ghost predicate Progress(base: seq<World>, w: World, env: Env, k: nat)
      reads this
    {
      && k <= STEPS && world == WorldAt(w, k) && instants == base + Trail(w, k) && calls == First(k)
      && WentWell(env, k)
    }

    /** The step at the position went well although the sequence stopped somewhere. */
    static ghost predicate Passed(env: Env, k: nat) {
      StopOf(env).Failed? && StopOf(env).at > k
    }

    ghost predicate Halted(base: seq<World>, w: World, env: Env, r: StepResult)
      reads this
    {
      var stop := StopOf(env);
      && r.StepFailed? && stop.Failed? && r == StepFailed(Nth(stop.at), stop.fault.kind) && currentStep == Nth(stop.at)
      && world == Stopped(w, stop) && instants == base + ForwardInstants(w, stop) && calls == CallsOf(env)
    }

    method RunStep(env: Env, ghost base: seq<World>, ghost w: World, ghost k: nat) returns (r: StepResult)
      requires Progress(base, w, env, k) && k < STEPS && Nth(k) == currentStep && k != 12
      modifies `world, `instants, `calls
      ensures r.StepOk? ==> Progress(base, w, env, k + 1)
      ensures r.StepFailed? ==> Halted(base, w, env, r) && StopOf(env).at == k
    {
      StepByStep(w, k);
      assert First(k + 1) == First(k) + [currentStep];
      calls := calls + [currentStep];
      var fault := env.step(currentStep);
      world := Happens(fault, world, Effect(currentStep, world));
      instants := instants + [world];
      if fault.Succeeds? {
        assert base + Trail(w, k + 1) == base + Trail(w, k) + [WorldAt(w, k + 1)];
        return StepOk;
      }
      StopIsUnique(env, StopOf(env), Failed(k, fault));
      assert base + ForwardInstants(w, Failed(k, fault)) == base + Trail(w, k) + [world];
      return StepFailed(currentStep, fault.kind);
    }

    /** Block traffic and stop Porta. */
    method HaltPorta(env: Env, ghost base: seq<World>, ghost w: World) returns (r: StepResult)
      requires Progress(base, w, env, 0)
      modifies `world, `instants, `calls, `currentStep
      ensures r.StepOk? ==> Progress(base, w, env, 2)
      ensures r.StepFailed? ==> Halted(base, w, env, r) && StopOf(env).at < 2
    {
      currentStep := Quiesce;
      :- RunStep(env, base, w, 0);
      currentStep := StopPorta;
      :- RunStep(env, base, w, 1);
      r := StepOk;
    }

    /** Quiesce, stop and poison: nothing durable is mutated yet. */
    method Fence(env: Env, ghost base: seq<World>, ghost w: World) returns (r: StepResult)
      requires Progress(base, w, env, 0)
      modifies `world, `instants, `calls, `currentStep
      ensures r.StepOk? ==> Progress(base, w, env, 4)
      ensures r.StepFailed? ==> Halted(base, w, env, r) && StopOf(env).at < 4
    {
      r := HaltPorta(env, base, w);
      if r.StepFailed? { return; }
      currentStep := PersistPoison;
      :- RunStep(env, base, w, 2);
      currentStep := FlushPoison;
      :- RunStep(env, base, w, 3);
      r := StepOk;
    }

    /** Recreate the database, remembering what was created, and migrate it. */
    method RecreateDatabase(env: Env, ghost base: seq<World>, ghost w: World) returns (r: StepResult)
      requires Progress(base, w, env, 4)
      modifies this
      ensures report == old(report).(identifiers :=
                old(report).identifiers + if r.StepOk? || Passed(env, 4) then env.identifiers else [])
      ensures r.StepOk? ==> Progress(base, w, env, 6)
      ensures r.StepFailed? ==> Halted(base, w, env, r) && StopOf(env).at < 6
    {
      currentStep := DbRecreate;
      :- RunStep(env, base, w, 4);
      report := report.(identifiers := report.identifiers + env.identifiers);
      currentStep := Migrate;
      :- RunStep(env, base, w, 5);
      r := StepOk;
    }

    /** Bootstrap and seed the database. */
    method FillDatabase(env: Env, ghost base: seq<World>, ghost w: World) returns (r: StepResult)
      requires Progress(base, w, env, 6)
      modifies `world, `instants, `calls, `currentStep
      ensures r.StepOk? ==> Progress(base, w, env, 8)
      ensures r.StepFailed? ==> Halted(base, w, env, r) && 6 <= StopOf(env).at < 8
    {
      currentStep := Bootstrap;
      :- RunStep(env, base, w, 6);
      currentStep := SeedFixtures;
      :- RunStep(env, base, w, 7);
      r := StepOk;
    }

    /** Recreate, migrate, bootstrap and seed the database. */
    method RebuildDatabase(env: Env, ghost base: seq<World>, ghost w: World) returns (r: StepResult)
      requires Progress(base, w, env, 4)
      modifies this
      ensures report == old(report).(identifiers :=
                old(report).identifiers + if r.StepOk? || Passed(env, 4) then env.identifiers else [])
      ensures r.StepOk? ==> Progress(base, w, env, 8)
      ensures r.StepFailed? ==> Halted(base, w, env, r) && StopOf(env).at < 8
    {
      r := RecreateDatabase(env, base, w);
      if r.StepFailed? { return; }
      r := FillDatabase(env, base, w);
    }

    /** Empty the transient stores. */
    method EmptyStores(env: Env, ghost base: seq<World>, ghost w: World) returns (r: StepResult)
      requires Progress(base, w, env, 8)
      modifies this
      ensures report == old(report).(
                redisKeysRemoved :=
                  if r.StepOk? || Passed(env, 8) then env.redisRemoved else old(report).redisKeysRemoved,
                mailMessagesRemoved :=
                  if r.StepOk? || Passed(env, 9) then env.mailRemoved else old(report).mailMessagesRemoved)
      ensures r.StepOk? ==> Progress(base, w, env, 10)
      ensures r.StepFailed? ==> Halted(base, w, env, r) && StopOf(env).at < 10
    {
      currentStep := Redis;
      :- RunStep(env, base, w, 8);
      report := report.(redisKeysRemoved := env.redisRemoved);
      currentStep := Mailhog;
      :- RunStep(env, base, w, 9);
      report := report.(mailMessagesRemoved := env.mailRemoved);
      r := StepOk;
    }

    /** Bring the processes back. */
    method RestartProcesses(env: Env, ghost base: seq<World>, ghost w: World) returns (r: StepResult)
      requires Progress(base, w, env, 10)
      modifies this
      ensures report == old(report)
      ensures r.StepOk? ==> Progress(base, w, env, 12)
      ensures r.StepFailed? ==> Halted(base, w, env, r) && StopOf(env).at < 12
    {
      currentStep := RestartClients;
      :- RunStep(env, base, w, 10);
      currentStep := RestartPorta;
      :- RunStep(env, base, w, 11);
      r := StepOk;
    }

    /** Reads the identity of the rebuilt database and compares it with the independent expectation. */
    method Observe(env: Env, ghost base: seq<World>, ghost w: World)
      returns (r: StepResult, mismatch: Option<Prerequisite>)
      requires Progress(base, w, env, 12)
      modifies this
      ensures report == old(report).(observed :=
                if r.StepOk? then Some(env.observed) else old(report).observed)
      ensures r.StepFailed? ==> Halted(base, w, env, r) && StopOf(env).at == OBSERVATION
      ensures r.StepOk? ==> mismatch == VerificationMismatch(env.observed, env.expected)
      ensures r.StepOk? && mismatch.None? ==> Progress(base, w, env, 13)
      ensures r.StepOk? && mismatch.Some? ==>
                StopOf(env) == Mismatched && world == Stopped(w, Mismatched)
                && instants == base + ForwardInstants(w, Mismatched) && calls == CallsOf(env)
    {
      currentStep := DigestCountChecks;
      mismatch := None;
      var fault := env.step(currentStep);
      assert Nth(OBSERVATION) == DigestCountChecks;
      assert First(OBSERVATION + 1) == First(OBSERVATION) + [currentStep];
      calls := calls + [currentStep];
      if !fault.Succeeds? {
        instants := instants + [world];
        StopIsUnique(env, StopOf(env), Failed(OBSERVATION, fault));
        assert base + ForwardInstants(w, Failed(OBSERVATION, fault)) == base + Trail(w, 12) + [world];
        r := StepFailed(currentStep, fault.kind);
        return;
      }
      report := report.(observed := Some(env.observed));
      r := StepOk;
      mismatch := VerificationMismatch(env.observed, env.expected);
      if mismatch.Some? {
        instants := instants + [world];
        StopIsUnique(env, StopOf(env), Mismatched);
        assert base + ForwardInstants(w, Mismatched) == base + Trail(w, 12) + [world];
        return;
      }
      world := world.(dirty := false);
      instants := instants + [world];
      assert base + Trail(w, 13) == base + Trail(w, 12) + [WorldAt(w, 13)];
    }

    /** Public health, and no traffic admitted meanwhile. */
    method VerifyPublic(env: Env, ghost base: seq<World>, ghost w: World) returns (r: StepResult)
      requires Progress(base, w, env, 13)
      modifies `world, `instants, `calls, `currentStep
      ensures r.StepOk? ==> Progress(base, w, env, 15)
      ensures r.StepFailed? ==> Halted(base, w, env, r) && StopOf(env).at > OBSERVATION
    {
      currentStep := PublicHealth;
      :- RunStep(env, base, w, 13);
      currentStep := VerifyTrafficBlocked;
      :- RunStep(env, base, w, 14);
      r := StepOk;
    }

    /** Clear the poison durably, and only then reopen traffic. */
    method Reopen(env: Env, ghost base: seq<World>, ghost w: World) returns (r: StepResult)
      requires Progress(base, w, env, 15)
      modifies `world, `instants, `calls, `currentStep
      ensures r.StepOk? ==> Progress(base, w, env, STEPS)
      ensures r.StepFailed? ==> Halted(base, w, env, r) && StopOf(env).at > OBSERVATION
    {
      currentStep := ClearPoison;
      :- RunStep(env, base, w, 15);
      currentStep := FlushReady;
      :- RunStep(env, base, w, 16);
      currentStep := ResumeTraffic;
      :- RunStep(env, base, w, 17);
      r := StepOk;
    }

    /** The eighteen steps in order, up to the first that fails or the identity that does not match. */
    method Forward(env: Env, ghost base: seq<World>, ghost w: World)
      returns (r: StepResult, mismatch: Option<Prerequisite>)
      requires Progress(base, w, env, 0) && report.observed.None?
      modifies this
      ensures r.StepOk? && mismatch.None? ==> Progress(base, w, env, STEPS)
      ensures r.StepOk? && mismatch.Some? ==>
                && StopOf(env) == Mismatched && mismatch == VerificationMismatch(env.observed, env.expected)
                && world == Stopped(w, Mismatched) && instants == base + ForwardInstants(w, Mismatched)
                && calls == CallsOf(env)
      ensures r.StepFailed? ==> Halted(base, w, env, r)
      ensures report == ReportOf(old(report), env)
    {
      mismatch := None;
      r := Fence(env, base, w);
      if r.StepFailed? { return; }
      r := RebuildDatabase(env, base, w);
      if r.StepFailed? { return; }
      r := EmptyStores(env, base, w);
      if r.StepFailed? { return; }
      r := RestartProcesses(env, base, w);
      if r.StepFailed? { return; }
      r, mismatch := Observe(env, base, w);
      if r.StepFailed? || mismatch.Some? { return; }
      r := VerifyPublic(env, base, w);
      if r.StepFailed? { return; }
      r := Reopen(env, base, w);
      if r.StepOk? { StopIsUnique(env, StopOf(env), Finished); }
    }

    /** Restores the fences after a failing step; false when a fence could not be restored. */
    method RestorePoisonAfterFailure(env: Env, step: Step) returns (ok: bool)
      modifies `world, `instants
      ensures if PostMutation(step)
              then var repair := Repair(old(world), step, env);
                   ok == repair.1 && instants == old(instants) + repair.0 && world == LastOf(old(world), repair.0)
              else ok && instants == old(instants) && world == old(world)
    {
      if !PostMutation(step) { return true; }
      if step == ResumeTraffic {
        world := Happens(env.requiesce, world, world.(blocked := true));
        instants := instants + [world];
        if !env.requiesce.Succeeds? { return false; }
      }
      world := Happens(env.repersist, world, world.(pending := Some(Poisoned)));
      instants := instants + [world];
      if !env.repersist.Succeeds? { return false; }
      world := Happens(env.reflush, world, Flushed(world));
      instants := instants + [world];
      return env.reflush.Succeeds?;
    }

    /** The fixed reset sequence with its repair, and what it reports. */
    method ExecuteReset(record: LeaseRecord, env: Env) returns (outcome: Outcome)
      modifies this
      ensures outcome.exit == ResetExit(old(world), env)
      ensures instants == old(instants) + ResetInstants(old(world), env)
      ensures world == ResetFinal(old(world), env)
      ensures calls == CallsOf(env)
      ensures outcome.prerequisite ==
              match StopOf(env)
              case Finished => None
              case Mismatched => VerificationMismatch(env.observed, env.expected)
              case Failed(k, _) => PrerequisiteFor(Nth(k))
      ensures report == ReportOf(Report(record.runId, env.expected.revision, None, 0, 0, []), env)
      ensures StopOf(env).Finished? ==> report.observed == Some(env.expected)
      ensures outcome.primaryExit == outcome.exit
      ensures outcome.recoveryIdentifiers ==
              if StopOf(env).Failed? && !Repair(Stopped(old(world), StopOf(env)), Nth(StopOf(env).at), env).1
              then SafeIds(record) else []
    {
      ghost var base, w := instants, world;
      calls := [];
      report := Report(record.runId, env.expected.revision, None, 0, 0, []);
      assert base + Trail(w, 0) == base;
      var r, mismatch := Forward(env, base, w);
      if r.StepOk? {
        if mismatch.Some? {
          return Outcome(30, 30, mismatch, []);
        }
        StopIsUnique(env, StopOf(env), Finished);
        return Outcome(0, 0, None, []);
      }
      outcome := Recovered(record, env, r, base, w);
    }

    /** The catch block of the reset. */
    method Recovered(record: LeaseRecord, env: Env, r: StepResult, ghost base: seq<World>, ghost w: World)
      returns (outcome: Outcome)
      requires r.StepFailed? && Halted(base, w, env, r)
      modifies `world, `instants
      ensures outcome.exit == ResetExit(w, env)
      ensures instants == base + ResetInstants(w, env)
      ensures world == ResetFinal(w, env)
      ensures outcome.prerequisite == PrerequisiteFor(Nth(StopOf(env).at))
      ensures outcome.primaryExit == outcome.exit
      ensures outcome.recoveryIdentifiers ==
              if Repair(Stopped(w, StopOf(env)), Nth(StopOf(env).at), env).1 then [] else SafeIds(record)
    {
      ghost var stop := StopOf(env);
      ghost var repair := Repair(world, currentStep, env);
      assert base + ResetInstants(w, env) == base + ForwardInstants(w, stop) + repair.0;
      if !PostMutation(currentStep) {
        world := Happens(env.restore, world, world.(blocked := false));
        instants := instants + [world];
        if !env.restore.Succeeds? {
          return Outcome(60, 60, PrerequisiteFor(currentStep), SafeIds(record));
        }
      }
      var ok := RestorePoisonAfterFailure(env, currentStep);
      if !ok { return Outcome(60, 60, PrerequisiteFor(currentStep), SafeIds(record)); }
      var exit := ResetFailureExit(r.kind, currentStep);
      return Outcome(exit, exit, PrerequisiteFor(currentStep), []);
    }
  }
}
