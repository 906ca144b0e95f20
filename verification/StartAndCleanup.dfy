/** Starting one owned run, aborting a start that fails, and the identity-fenced cleanup that both the
    abort and a later stop rely on. The lease cell and the worktree claim are the store's durable state
    for this run and worktree; Docker and the store answer as the adversary pleases. */
module StartAndCleanup {
  import opened LeaseRecords
  import opened Options
  import opened ResetProtocol

  datatype Inspection = Inspection(presence: Presence, identity: Option<LeaseRecord>) | InspectThrows

  /** A read returns what is stored, a sentinel for unusable state, or rejects. */
  datatype ReadFault = Faithful | AnswersSentinel | ReadThrows

  datatype ReleaseFault = Completes | RefusesToRelease | LosesLeaseOnly | LosesLeaseAndClaim

  /** `between`, `beforeStop`: what other processes do to the lease after it was read, and again after it
      was finalized. */
  datatype CleanupEnv = CleanupEnv(read: ReadFault, inspection: Inspection,
                                   between: Option<LeaseRecord> -> Option<LeaseRecord>, finalize: Fault,
                                   beforeStop: Option<LeaseRecord> -> Option<LeaseRecord>,
                                   composeStop: Fault, release: ReleaseFault)

  /** A stale cleanup meets: the owner probe (none: it throws), Docker, what other processes do to the
      lease before each of its two updates, and the cleanup that follows the takeover. */
  datatype StaleEnv = StaleEnv(lookupValid: bool, read: ReadFault, owner: Option<Presence>, inspection: Inspection,
                               beforeFinalize: Option<LeaseRecord> -> Option<LeaseRecord>, finalize: Fault,
                               beforeTransfer: Option<LeaseRecord> -> Option<LeaseRecord>, me: ProcessIdentity,
                               transfer: Fault, cleanup: CleanupEnv)

  datatype Occupancy = AllFree | SomeOccupied | OccupancyThrows

  datatype AcquireAnswer = Acquires | WorktreeTaken | BlockTaken | AcquireThrows(claimLeft: bool)

  datatype Consumer = ComposeConfig | Nginx | SeedData | SpaClient | BffClient | Playwright | HealthCheck | Evidence

  /** The calls of a start on the block it acquired, up to where it is owned or begins to abort. */
  datatype StartCall = Configures(consumer: Consumer) | Checks(prerequisite: Prerequisite) | StartsStack
                     | InspectsStack | FinalizesLease | ReadsLease | PersistsReady | FlushesReady

  const CONSUMERS: seq<Consumer> :=
    [ComposeConfig, Nginx, SeedData, SpaClient, BffClient, Playwright, HealthCheck, Evidence]

  /** The four prerequisites that follow the name-resolution check and the start of the stack. */
  const CHECKS: seq<Prerequisite> := [Health, Migration, Seed, FixtureVerification]

  /** `aborted(k)`: the startup deadline has aborted at the k-th check. `hosts(p)`: the client processes
      that register themselves in the lease while prerequisite p runs. */
  datatype StartEnv = StartEnv(
    intent: string, me: ProcessIdentity, ownedPaths: seq<string>,
    occupied: nat -> Occupancy, acquire: nat -> AcquireAnswer, releaseIntent: Fault,
    consumer: Consumer -> Fault, aborted: nat -> bool, composeStart: Fault, inspection: Inspection,
    finalize: Fault, prerequisite: Prerequisite -> Fault, hosts: Prerequisite -> seq<HostProcess>,
    finalRead: ReadFault, hasReset: bool, persistReady: Fault, flushReady: Fault,
    abortRead: ReadFault, cleanup: CleanupEnv)

  /** `Rejected`: the promise rejects, and the caller maps the error to an interruption exit. */
  datatype StartResult = Owned(record: LeaseRecord)
                       | NotOwned(exit: int, prerequisite: Option<Prerequisite>)
                       | Rejected

  // ---------------------------------------------------------------- identity-fenced cleanup

  /** The record a cleanup of `record` acts on, given the persisted lease and Docker's answer. */
  function CleanupRecord(cell: Option<LeaseRecord>, record: LeaseRecord, env: CleanupEnv): Option<LeaseRecord> {
    if env.read != Faithful || cell.None? || !ControllerSameRecord(cell.value, record) then None
    else if env.inspection.InspectThrows? || env.inspection.presence == PresenceUnreadable then None
    else if env.inspection.presence == Absent then cell
    else if env.inspection.identity.None? then None
    else
      var identity := env.inspection.identity.value;
      if !ControllerSameAuthority(identity, cell.value) then None
      else if ControllerSameRecord(identity, cell.value) then cell
      else if !ControllerCanAdvance(cell.value, identity) || !env.finalize.Succeeds? then None
      else FinalizeResources(env.between(cell), cell.value, identity).1
  }

  /** Docker reports resources the persisted lease does not record yet. */
  predicate Discovers(cell: Option<LeaseRecord>, env: CleanupEnv) {
    && cell.Some? && env.inspection.Inspection? && env.inspection.presence == Present
    && env.inspection.identity.Some? && !ControllerSameRecord(env.inspection.identity.value, cell.value)
  }

  /** Whatever the store and Docker answer, a cleanup acts only on a record with the authority of the
      persisted lease; every list already recorded is unchanged; and when the stack is present its
      resources are those Docker reported. */
  lemma CleanupIsFenced(cell: Option<LeaseRecord>, record: LeaseRecord, env: CleanupEnv)
    requires CleanupRecord(cell, record, env).Some?
    ensures var p, c := cell.value, CleanupRecord(cell, record, env).value;
            && cell.Some? && ControllerSameRecord(p, record)
            && StoreSameAuthority(p, c) && StoreCanAdvance(p, c)
            && (p.hostProcesses != [] ==> c.hostProcesses == p.hostProcesses)
            && (env.inspection.presence == Present ==>
                  env.inspection.identity.Some? && ControllerSameRecord(env.inspection.identity.value, c))
  {
    var p, c := cell.value, CleanupRecord(cell, record, env).value;
    if c != p && p.hostProcesses != [] {
      PrefixWithSameElements(p.hostProcesses, c.hostProcesses);
    }
  }

  /** Exactly when a cleanup acts, and on what: the persisted record when Docker sees no stack or reports that
      record, and otherwise what Docker reports, when that may still be recorded. */
  lemma CleanupActsExactlyWhen(cell: Option<LeaseRecord>, record: LeaseRecord, env: CleanupEnv)
    ensures var seen := if env.inspection.Inspection? then env.inspection.identity else None;
            && (CleanupRecord(cell, record, env).Some? <==>
                  && env.read == Faithful && cell.Some? && ControllerSameRecord(cell.value, record)
                  && env.inspection.Inspection?
                  && (|| env.inspection.presence == Absent
                      || (&& env.inspection.presence == Present && seen.Some?
                          && (|| ControllerSameRecord(seen.value, cell.value)
                              || (&& ControllerCanAdvance(cell.value, seen.value) && Advances(cell.value, seen.value)
                                  && env.finalize.Succeeds? && env.between(cell) == cell)))))
            && (CleanupRecord(cell, record, env).Some? ==>
                  CleanupRecord(cell, record, env) == if Discovers(cell, env) then seen else cell)
  {
    if cell.Some? && env.inspection.Inspection? && env.inspection.identity.Some? {
      SameRecordGap(env.inspection.identity.value, cell.value);
    }
  }

  /** The lease that is in place when a cleanup that acts stops the stack. */
  function CellAtStop(cell: Option<LeaseRecord>, record: LeaseRecord, env: CleanupEnv): Option<LeaseRecord> {
    env.beforeStop(if Discovers(cell, env) then CleanupRecord(cell, record, env) else env.between(cell))
  }

  /** The cleanup acts, its stop and release go through, and the lease still is the record they are called
      with. */
  predicate CleanupSucceeds(cell: Option<LeaseRecord>, record: LeaseRecord, env: CleanupEnv) {
    var target := CleanupRecord(cell, record, env);
    && target.Some? && env.composeStop.Succeeds? && env.release == Completes
    && CellAtStop(cell, record, env) == target
  }

  /** Left alone by other processes, with a stack that is absent or exactly as recorded, a cleanup whose calls
      go through succeeds. */
  lemma QuietCleanupSucceeds(record: LeaseRecord, env: CleanupEnv)
    requires env.read == Faithful && env.composeStop.Succeeds? && env.release == Completes
    requires env.between(Some(record)) == Some(record) && env.beforeStop(Some(record)) == Some(record)
    requires env.inspection == Inspection(Present, Some(record)) || env.inspection == Inspection(Absent, None)
    ensures CleanupSucceeds(Some(record), record, env)
  {
  }

  function ReleasedCell(cell: Option<LeaseRecord>, record: LeaseRecord, fault: ReleaseFault): Option<LeaseRecord> {
    if fault.RefusesToRelease? || cell != Some(record) then cell else None
  }

  // ---------------------------------------------------------------- block selection

  /** How the search for a block ends; `claimed`: this start's worktree claim is in place. */
  datatype Selection =
    | OutOfRange(claimed: bool) | ProbeRejects(claimed: bool) | AcquireRejects(claimed: bool)
    | WorktreeRefused(claimed: bool) | Exhausted(claimed: bool) | Acquired(attempt: nat)

  /** What offering one block comes to. */
  datatype Attempt = PastRange | ProbeThrew | EndpointTaken | Refused | Taken | AcquireThrew(claimLeft: bool) | Leased

  function AttemptAt(request: StartRequest, env: StartEnv, k: nat): Attempt {
    if !InRange(request, k) then PastRange
    else match env.occupied(k)
      case OccupancyThrows => ProbeThrew
      case SomeOccupied => EndpointTaken
      case AllFree =>
        match env.acquire(k)
        case Acquires => Leased
        case WorktreeTaken => Refused
        case BlockTaken => Taken
        case AcquireThrows(left) => AcquireThrew(left)
  }

  function SelectFrom(request: StartRequest, env: StartEnv, k: nat, claimed: bool): (r: Selection)
    requires ValidRequest(request)
    ensures r.Acquired? ==> InRange(request, r.attempt)
    decreases request.collisionRetries + 1 - k
  {
    if k > request.collisionRetries then Exhausted(claimed)
    else match AttemptAt(request, env, k)
      case PastRange => OutOfRange(claimed)
      case ProbeThrew => ProbeRejects(claimed)
      case EndpointTaken => SelectFrom(request, env, k + 1, claimed)
      case Leased => Acquired(k)
      case Refused => WorktreeRefused(claimed)
      case Taken => SelectFrom(request, env, k + 1, true)
      case AcquireThrew(left) => AcquireRejects(claimed || left)
  }

  /** A search that ends by an error, or by a refusal, keeps the claim an earlier attempt placed. */
  predicate LeavesClaim(end: Selection) {
    (end.OutOfRange? || end.ProbeRejects? || end.AcquireRejects? || end.WorktreeRefused?) && end.claimed
  }

  function NewRecord(request: StartRequest, env: StartEnv, manifest: Manifest): LeaseRecord {
    LeaseRecord(request.runId, env.intent, env.me, manifest.worktreePath, manifest.composeProject,
                [], [], [], [], env.ownedPaths, manifest.certificatePath, manifest)
  }

  /** The record of the attempt that acquires its block. */
  function RecordOffered(request: StartRequest, env: StartEnv): LeaseRecord
    requires ValidRequest(request) && SelectFrom(request, env, 0, false).Acquired?
  {
    NewRecord(request, env, CreateEndpointManifest(request, SelectFrom(request, env, 0, false).attempt).value)
  }

  /** A new record is this start's, on the block it acquired, and has discovered nothing yet. */
  lemma OfferedRecordIsNew(request: StartRequest, env: StartEnv)
    requires ValidRequest(request) && SelectFrom(request, env, 0, false).Acquired?
    ensures var r := RecordOffered(request, env);
            && r.runId == r.manifest.runId == request.runId && r.worktreePath == r.manifest.worktreePath
            && r.worktreePath == request.worktreePath && r.composeProject == r.manifest.composeProject
            && r.startupIntentId == env.intent && r.ownerProcess == env.me && r.ownedPaths == env.ownedPaths
            && r.certificatePath == r.manifest.certificatePath
            && r.manifest.ports.porta == request.candidateBasePort + 10 * SelectFrom(request, env, 0, false).attempt
            && r.containerIds == [] && r.networkIds == [] && r.hostProcesses == [] && r.volumeNames == []
  {
  }

  /** The attempt finds nothing free for this start, and another one follows. */
  predicate Retried(request: StartRequest, env: StartEnv, k: nat) {
    && InRange(request, k)
    && (env.occupied(k) == SomeOccupied || (env.occupied(k) == AllFree && env.acquire(k) == BlockTaken))
  }

  /** A block is acquired at exactly the first attempt that is not retried, when it is free and granted. */
  lemma {:induction false} AcquiredIsTheFirstFree(request: StartRequest, env: StartEnv, from: nat, claimed: bool,
                                                  k: nat)
    requires ValidRequest(request) && from <= k
    ensures SelectFrom(request, env, from, claimed) == Acquired(k) <==>
            && k <= request.collisionRetries && InRange(request, k)
            && env.occupied(k) == AllFree && env.acquire(k) == Acquires
            && forall j | from <= j < k :: Retried(request, env, j)
    ensures SelectFrom(request, env, from, claimed).Exhausted? <==>
            forall j | from <= j <= request.collisionRetries :: Retried(request, env, j)
    decreases request.collisionRetries + 1 - from
  {
    if from <= request.collisionRetries && Retried(request, env, from) {
      var next := claimed || env.occupied(from) == AllFree;
      if from < k {
        AcquiredIsTheFirstFree(request, env, from + 1, next, k);
      } else {
        AcquiredIsTheFirstFree(request, env, from + 1, next, k + 1);
        AcquiredLater(request, env, from + 1, next);
      }
    }
  }

  lemma {:induction false} AcquiredLater(request: StartRequest, env: StartEnv, from: nat, claimed: bool)
    requires ValidRequest(request)
    ensures var end := SelectFrom(request, env, from, claimed); end.Acquired? ==> end.attempt >= from
    decreases request.collisionRetries + 1 - from
  {
    if from <= request.collisionRetries && Retried(request, env, from) {
      AcquiredLater(request, env, from + 1, claimed || env.occupied(from) == AllFree);
    }
  }

  predicate RoleTaken(hosts: seq<HostProcess>, role: Role) {
    exists i | 0 <= i < |hosts| :: hosts[i].role == role
  }

  /** The registered hosts after some arrive one by one: each role registers at most once. */
  function WithHosts(hosts: seq<HostProcess>, arriving: seq<HostProcess>): seq<HostProcess>
    decreases |arriving|
  {
    if arriving == [] then hosts
    else WithHosts(if RoleTaken(hosts, arriving[0].role) then hosts else hosts + [arriving[0]], arriving[1..])
  }

  /** Hosts are only appended, and no role ever registers twice. */
  ghost predicate HostsGrow(before: seq<HostProcess>, after: seq<HostProcess>) {
    before <= after && (RolesDistinct(before) ==> RolesDistinct(after))
  }

  /** Registration only appends, and each role that arrives ends up registered. */
  lemma {:induction false} HostsOnlyGrow(hosts: seq<HostProcess>, arriving: seq<HostProcess>)
    ensures HostsGrow(hosts, WithHosts(hosts, arriving))
    ensures forall i | 0 <= i < |arriving| :: RoleTaken(WithHosts(hosts, arriving), arriving[i].role)
    decreases |arriving|
  {
    if arriving != [] {
      var next := if RoleTaken(hosts, arriving[0].role) then hosts else hosts + [arriving[0]];
      var all := WithHosts(hosts, arriving);
      HostsOnlyGrow(next, arriving[1..]);
      assert RoleTaken(next, arriving[0].role) by {
        if next != hosts { assert next[|hosts|].role == arriving[0].role; }
      }
      StillTaken(next, all, arriving[0].role);
      forall i | 0 <= i < |arriving| ensures RoleTaken(all, arriving[i].role) {
        if i > 0 { assert arriving[1..][i - 1] == arriving[i]; }
      }
    }
  }

  lemma StillTaken(before: seq<HostProcess>, after: seq<HostProcess>, role: Role)
    requires before <= after && RoleTaken(before, role)
    ensures RoleTaken(after, role)
  {
    var i :| 0 <= i < |before| && before[i].role == role;
    assert after[i] == before[i];
  }

  predicate CheckPasses(env: StartEnv, i: nat)
    requires i < |CHECKS|
  {
    env.prerequisite(CHECKS[i]).Succeeds? && !env.aborted(i + 2)
  }

  // ---------------------------------------------------------------- bringing a leased run up

  /** The consumers configured so far, in their fixed order, each of them without failure. */
  predicate Configured(env: StartEnv, applied: seq<Consumer>) {
    applied <= CONSUMERS && forall c :: c in applied ==> env.consumer(c).Succeeds?
  }

  function ConsumerCalls(n: nat): (calls: seq<StartCall>)
    requires n <= |CONSUMERS|
    ensures |calls| == n
  {
    seq(n, i requires 0 <= i < n => Configures(CONSUMERS[i]))
  }

  function CheckCalls(n: nat): (calls: seq<StartCall>)
    requires n <= |CHECKS|
    ensures |calls| == n
  {
    seq(n, i requires 0 <= i < n => Checks(CHECKS[i]))
  }

  const STACK_CALLS := [Checks(Dns), StartsStack, InspectsStack, FinalizesLease]

  function CommitCalls(hasReset: bool): seq<StartCall> {
    [ReadsLease] + if hasReset then [PersistsReady, FlushesReady] else []
  }

  /** Everything a start calls when nothing fails. */
  function StartCalls(hasReset: bool): seq<StartCall> {
    ConsumerCalls(|CONSUMERS|) + STACK_CALLS + (CheckCalls(|CHECKS|) + CommitCalls(hasReset))
  }

  /** The consumers are configured before the stack is started, which is recorded before it is checked, and the
      ready state is committed last, after the lease was read again. */
  lemma StartCallsInOrder(hasReset: bool)
    ensures StartCalls(hasReset)
            == [Configures(ComposeConfig), Configures(Nginx), Configures(SeedData), Configures(SpaClient),
                Configures(BffClient), Configures(Playwright), Configures(HealthCheck), Configures(Evidence),
                Checks(Dns), StartsStack, InspectsStack, FinalizesLease,
                Checks(Health), Checks(Migration), Checks(Seed), Checks(FixtureVerification), ReadsLease]
               + if hasReset then [PersistsReady, FlushesReady] else []
  {
    assert ConsumerCalls(8) == [Configures(ComposeConfig), Configures(Nginx), Configures(SeedData),
                                Configures(SpaClient), Configures(BffClient), Configures(Playwright),
                                Configures(HealthCheck), Configures(Evidence)];
    assert CheckCalls(4) == [Checks(Health), Checks(Migration), Checks(Seed), Checks(FixtureVerification)];
  }

  lemma PrefixOfSum<T>(a: seq<T>, b: seq<T>, c: seq<T>, k: nat)
    requires k <= |b|
    ensures a + b[..k] <= a + b + c
    ensures k == |b| ==> a + b[..k] == a + b
  {
    assert b == b[..k] + b[k..];
    assert a + b + c == a + b[..k] + (b[k..] + c);
  }

  /** Eight consumers are all there are. */
  lemma EveryConsumer(env: StartEnv)
    requires Configured(env, CONSUMERS)
    ensures forall c: Consumer :: env.consumer(c).Succeeds?
  {
    forall c: Consumer ensures env.consumer(c).Succeeds? {
      assert CONSUMERS[0] == ComposeConfig && CONSUMERS[1] == Nginx && CONSUMERS[2] == SeedData;
      assert CONSUMERS[3] == SpaClient && CONSUMERS[4] == BffClient && CONSUMERS[5] == Playwright;
      assert CONSUMERS[6] == HealthCheck && CONSUMERS[7] == Evidence;
      assert c in CONSUMERS by {
        match c
        case ComposeConfig => case Nginx => case SeedData => case SpaClient =>
        case BffClient => case Playwright => case HealthCheck => case Evidence =>
      }
    }
  }

  /** How many prerequisites begin, from the i-th on: the first that does not pass is the last. */
  function ChecksBegun(env: StartEnv, i: nat): (n: nat)
    requires i <= |CHECKS|
    ensures n <= |CHECKS| && (i < |CHECKS| ==> i < n)
    ensures forall j :: i <= j < n - 1 ==> CheckPasses(env, j)
    decreases |CHECKS| - i
  {
    if i == |CHECKS| then i else if CheckPasses(env, i) then ChecksBegun(env, i + 1) else i + 1
  }

  ghost predicate ChecksPass(env: StartEnv) {
    forall i :: 0 <= i < |CHECKS| ==> CheckPasses(env, i)
  }

  /** The host processes registered once n prerequisites have begun. */
  function HostsAfter(hosts: seq<HostProcess>, env: StartEnv, n: nat): seq<HostProcess>
    requires n <= |CHECKS|
  {
    if n == 0 then hosts else WithHosts(HostsAfter(hosts, env, n - 1), env.hosts(CHECKS[n - 1]))
  }

  lemma {:induction false} HostsAfterGrow(hosts: seq<HostProcess>, env: StartEnv, n: nat)
    requires n <= |CHECKS|
    ensures HostsGrow(hosts, HostsAfter(hosts, env, n))
  {
    if n > 0 {
      HostsAfterGrow(hosts, env, n - 1);
      HostsOnlyGrow(HostsAfter(hosts, env, n - 1), env.hosts(CHECKS[n - 1]));
    }
  }

  /** Every client process that presents itself during a start's prerequisites ends up registered. */
  lemma {:induction false} EveryHostRegisters(hosts: seq<HostProcess>, env: StartEnv, n: nat, i: nat, k: nat)
    requires i < n <= |CHECKS| && k < |env.hosts(CHECKS[i])|
    ensures RoleTaken(HostsAfter(hosts, env, n), env.hosts(CHECKS[i])[k].role)
  {
    HostsOnlyGrow(HostsAfter(hosts, env, n - 1), env.hosts(CHECKS[n - 1]));
    if i < n - 1 {
      EveryHostRegisters(hosts, env, n - 1, i, k);
      StillTaken(HostsAfter(hosts, env, n - 1), HostsAfter(hosts, env, n), env.hosts(CHECKS[i])[k].role);
    }
  }

  ghost predicate ConsumersConfigured(env: StartEnv) {
    (forall c: Consumer :: env.consumer(c).Succeeds?) && !env.aborted(0)
  }

  /** The stack runs, and Docker says what it consists of. */
  ghost predicate StackRuns(env: StartEnv) {
    && ConsumersConfigured(env) && env.prerequisite(Dns).Succeeds? && env.composeStart.Succeeds? && !env.aborted(1)
    && env.inspection.Inspection? && env.inspection.presence == Present && env.inspection.identity.Some?
  }

  ghost predicate StackRecorded(record: LeaseRecord, env: StartEnv) {
    StackRuns(env) && Advances(record, env.inspection.identity.value) && env.finalize.Succeeds?
  }

  predicate ReadyCommitted(env: StartEnv) {
    env.finalRead == Faithful && (env.hasReset ==> env.persistReady.Succeeds? && env.flushReady.Succeeds?)
  }

  /** Everything a start asks for goes well, and Docker reports an advance of the leased record. */
  ghost predicate ComesUp(record: LeaseRecord, env: StartEnv) {
    && (forall c: Consumer :: env.consumer(c).Succeeds?) && env.prerequisite(Dns).Succeeds?
    && env.composeStart.Succeeds?
    && env.inspection.Inspection? && env.inspection.presence == Present && env.inspection.identity.Some?
    && Advances(record, env.inspection.identity.value) && env.finalize.Succeeds?
    && env.prerequisite(Health).Succeeds? && env.prerequisite(Migration).Succeeds?
    && env.prerequisite(Seed).Succeeds? && env.prerequisite(FixtureVerification).Succeeds?
    && (forall k | 0 <= k < 6 :: !env.aborted(k))
    && env.finalRead == Faithful
    && (env.hasReset ==> env.persistReady.Succeeds? && env.flushReady.Succeeds?)
  }

  lemma ComesUpMeans(record: LeaseRecord, env: StartEnv)
    ensures ComesUp(record, env) <==> StackRecorded(record, env) && ChecksPass(env) && ReadyCommitted(env)
  {
    assert CHECKS[0] == Health && CHECKS[1] == Migration && CHECKS[2] == Seed && CHECKS[3] == FixtureVerification;
    if ChecksPass(env) {
      assert CheckPasses(env, 0) && CheckPasses(env, 1) && CheckPasses(env, 2) && CheckPasses(env, 3);
    }
  }

  /** The prerequisite a start that fails names: the first that fails, when everything before it went well. */
  ghost function FailedPrerequisite(record: LeaseRecord, env: StartEnv): Option<Prerequisite> {
    if ConsumersConfigured(env) && !env.prerequisite(Dns).Succeeds? then Some(Dns)
    else if StackRecorded(record, env) && !ChecksPass(env) then FailedCheck(env)
    else None
  }

  function FailedCheck(env: StartEnv): Option<Prerequisite> {
    var last := CHECKS[ChecksBegun(env, 0) - 1];
    if env.prerequisite(last).Succeeds? then None else Some(last)
  }

  /** What the name stands for. */
  lemma FailedPrerequisiteMeans(record: LeaseRecord, env: StartEnv)
    ensures var named, recorded := FailedPrerequisite(record, env), StackRecorded(record, env);
            var health := env.prerequisite(Health).Succeeds? && !env.aborted(2);
            var migration := env.prerequisite(Migration).Succeeds? && !env.aborted(3);
            var seeded := env.prerequisite(Seed).Succeeds? && !env.aborted(4);
            && (named == Some(Dns) <==> ConsumersConfigured(env) && !env.prerequisite(Dns).Succeeds?)
            && (named == Some(Health) <==> recorded && !env.prerequisite(Health).Succeeds?)
            && (named == Some(Migration) <==> recorded && health && !env.prerequisite(Migration).Succeeds?)
            && (named == Some(Seed) <==> recorded && health && migration && !env.prerequisite(Seed).Succeeds?)
            && (named == Some(FixtureVerification) <==>
                  recorded && health && migration && seeded && !env.prerequisite(FixtureVerification).Succeeds?)
            && named != Some(RedisReset) && named != Some(MailhogReset)
  {
    ChecksInOrder(env);
  }

  /** The prerequisites one by one. */
  lemma ChecksInOrder(env: StartEnv)
    ensures CHECKS == [Health, Migration, Seed, FixtureVerification]
    ensures ChecksPass(env) <==>
            CheckPasses(env, 0) && CheckPasses(env, 1) && CheckPasses(env, 2) && CheckPasses(env, 3)
    ensures ChecksBegun(env, 0) == if !CheckPasses(env, 0) then 1 else if !CheckPasses(env, 1) then 2
                                   else if !CheckPasses(env, 2) then 3 else 4
  {
    assert ChecksBegun(env, 3) == 4;
    assert ChecksBegun(env, 2) == if !CheckPasses(env, 2) then 3 else 4;
    assert ChecksBegun(env, 1) == if !CheckPasses(env, 1) then 2 else ChecksBegun(env, 2);
  }

  /** The lease a start that fails finds, and the record it holds itself. */
  ghost function LeaseAtAbort(record: LeaseRecord, env: StartEnv): LeaseRecord {
    if !StackRuns(env) || !Advances(record, env.inspection.identity.value) || env.finalize.FailsBefore? then record
    else
      var identity := env.inspection.identity.value;
      if !env.finalize.Succeeds? then identity
      else identity.(hostProcesses := HostsAfter(identity.hostProcesses, env, ChecksBegun(env, 0)))
  }

  ghost function RecordAtAbort(record: LeaseRecord, env: StartEnv): LeaseRecord {
    if !StackRecorded(record, env) then record
    else if ChecksPass(env) && env.finalRead == Faithful then LeaseAtAbort(record, env)
    else env.inspection.identity.value
  }

  /** The record the cleanup of a failed start is called with: the persisted one when it can be read. */
  function AbortRecord(cell: Option<LeaseRecord>, record: LeaseRecord, env: StartEnv): LeaseRecord {
    if env.abortRead == Faithful && cell.Some? && ControllerSameAuthority(record, cell.value) then cell.value
    else record
  }

  /** The failed start is cleaned up completely. */
  ghost predicate AbortCleans(record: LeaseRecord, env: StartEnv) {
    var cell := Some(LeaseAtAbort(record, env));
    CleanupSucceeds(cell, AbortRecord(cell, RecordAtAbort(record, env), env), env.cleanup)
  }

  /** Resources and host processes are no part of what the controller compares. */
  lemma LeaseAtAbortKeepsAuthority(record: LeaseRecord, env: StartEnv)
    ensures ControllerSameAuthority(RecordAtAbort(record, env), LeaseAtAbort(record, env))
    ensures Advances(record, LeaseAtAbort(record, env))
  {
    if StackRuns(env) && Advances(record, env.inspection.identity.value) {
      var identity := env.inspection.identity.value;
      AuthorityGap(record, identity);
      HostsAfterGrow(identity.hostProcesses, env, ChecksBegun(env, 0));
      AdvanceMeans(record, identity);
      AdvanceMeans(record, LeaseAtAbort(record, env));
    } else {
      AdvanceMeans(record, record);
    }
  }

  /** The record a stale cleanup may adopt: the persisted one, or what Docker reports when that is more. */
  function StaleRecord(cell: Option<LeaseRecord>, persisted: LeaseRecord, env: StaleEnv): Option<LeaseRecord> {
    if env.inspection.InspectThrows? || env.inspection.presence == PresenceUnreadable then None
    else if env.inspection.presence == Absent then Some(persisted)
    else if env.inspection.identity.None? then None
    else if ControllerSameRecord(env.inspection.identity.value, persisted) then Some(persisted)
    else if !ControllerCanAdvance(persisted, env.inspection.identity.value) || !env.finalize.Succeeds? then None
    else FinalizeResources(env.beforeFinalize(cell), persisted, env.inspection.identity.value).1
  }

  /** Exactly when there is one, and what it is. */
  lemma StaleRecordExactlyWhen(cell: Option<LeaseRecord>, persisted: LeaseRecord, env: StaleEnv)
    ensures var seen := if env.inspection.Inspection? then env.inspection.identity else None;
            && (StaleRecord(cell, persisted, env).Some? <==>
                  && env.inspection.Inspection?
                  && (|| env.inspection.presence == Absent
                      || (&& env.inspection.presence == Present && seen.Some?
                          && (|| ControllerSameRecord(seen.value, persisted)
                              || (&& ControllerCanAdvance(persisted, seen.value) && Advances(persisted, seen.value)
                                  && env.finalize.Succeeds? && env.beforeFinalize(cell) == Some(persisted))))))
            && (StaleRecord(cell, persisted, env).Some? ==>
                  StaleRecord(cell, persisted, env).value
                  == if env.inspection.presence == Absent || ControllerSameRecord(seen.value, persisted) then persisted
                     else seen.value)
  {
    if env.inspection.Inspection? && env.inspection.identity.Some? {
      SameRecordGap(env.inspection.identity.value, persisted);
    }
  }

  lemma AdoptedAdvances(persisted: LeaseRecord, recoverable: LeaseRecord, me: ProcessIdentity)
    requires Advances(persisted, recoverable)
    ensures AdvancesUpToOwner(persisted, recoverable.(ownerProcess := me))
  {
    assert Authority(persisted.(ownerProcess := me)) == Authority(persisted).(ownerProcess := me);
    assert Authority(recoverable.(ownerProcess := me)) == Authority(recoverable).(ownerProcess := me);
  }

  /** The search for a block neither rejects nor forgets a claim it placed. */
  predicate CleanSearch(request: StartRequest, env: StartEnv)
    requires ValidRequest(request)
  {
    var end := SelectFrom(request, env, 0, false);
    !LeavesClaim(end) && !end.ProbeRejects? && !end.AcquireRejects?
  }

  class StartController {
    /** The run's lease.json and the intent recorded in the worktree's claim. */
    var cell: Option<LeaseRecord>
    var claim: Option<string>
    var committed: Option<Durable>
    /** Consumers configured, prerequisites passed, and the records destructive calls were made with. */
    var applied: seq<Consumer>
    var passed: seq<Prerequisite>
    var stops: seq<LeaseRecord>
    var releases: seq<LeaseRecord>
    /** The calls of the start, in order. */
    ghost var calls: seq<StartCall>

    constructor (cell: Option<LeaseRecord>, claim: Option<string>, committed: Option<Durable>)
      ensures this.cell == cell && this.claim == claim && this.committed == committed
      ensures applied == [] && passed == [] && stops == [] && releases == [] && calls == []
    {
      this.cell, this.claim, this.committed := cell, claim, committed;
      applied, passed, stops, releases, calls := [], [], [], [], [];
    }

    predicate NothingRemains(intent: string)
      reads this
    {
      claim != Some(intent) && (cell.Some? ==> cell.value.startupIntentId != intent)
    }

    /** One cleanup attempt: `compose.stop` and `release` are called with the fenced record or not at
        all, in that order, and the attempt succeeds only when both did. */
    method CleanupOwnedRecord(record: LeaseRecord, env: CleanupEnv) returns (ok: bool)
      modifies `cell, `claim, `stops, `releases
      ensures var target := CleanupRecord(old(cell), record, env);
              && stops == old(stops) + (if target.Some? then [target.value] else [])
              && releases == old(releases) + (if target.Some? && env.composeStop.Succeeds? then [target.value] else [])
      ensures ok <==> CleanupSucceeds(old(cell), record, env)
      ensures ok ==> cell == None && claim == None
      ensures var target, found := CleanupRecord(old(cell), record, env), CellAtStop(old(cell), record, env);
              target.Some? ==>
                && cell == (if env.composeStop.Succeeds? then ReleasedCell(found, target.value, env.release) else found)
                && claim == if env.composeStop.Succeeds? && found == target
                               && env.release in {Completes, LosesLeaseAndClaim} then None else old(claim)
      ensures CleanupRecord(old(cell), record, env).None? ==>
                && claim == old(claim)
                && (|| cell == old(cell) || cell == env.between(old(cell))
                    || (&& Discovers(old(cell), env)
                        && cell == FinalizeResources(env.between(old(cell)), old(cell).value,
                                                     env.inspection.identity.value).0))
    {
      if env.read != Faithful || cell.None? { return false; }
      var persisted := cell.value;
      if !ControllerSameRecord(persisted, record) { return false; }
      var cleanupRecord := persisted;
      if env.inspection.InspectThrows? || env.inspection.presence == PresenceUnreadable { return false; }
      cell := env.between(cell);
      if env.inspection.presence == Present {
        if env.inspection.identity.None? { return false; }
        var identity := env.inspection.identity.value;
        if !ControllerSameAuthority(identity, persisted) { return false; }
        if !ControllerSameRecord(identity, persisted) {
          if !ControllerCanAdvance(persisted, identity) { return false; }
          var finalized := FinalizeResources(cell, persisted, identity);
          cell := if env.finalize.FailsBefore? then cell else finalized.0;
          if !env.finalize.Succeeds? || finalized.1.None? { return false; }
          cleanupRecord := finalized.1.value;
        }
      }
      cell := env.beforeStop(cell);
      stops := stops + [cleanupRecord];
      if !env.composeStop.Succeeds? { return false; }
      releases := releases + [cleanupRecord];
      ok := cell == Some(cleanupRecord) && env.release == Completes;
      if cell == Some(cleanupRecord) && (env.release == Completes || env.release == LosesLeaseAndClaim) {
        claim := None;
      }
      cell := ReleasedCell(cell, cleanupRecord, env.release);
    }

    /** A stop of a registered run: the capability is dropped exactly when the cleanup succeeded. */
    method StopOwned(expected: Option<LeaseRecord>, env: CleanupEnv) returns (exit: int, dropped: bool)
      modifies `cell, `claim, `stops, `releases
      ensures exit == if expected.Some? && CleanupSucceeds(old(cell), expected.value, env) then 0 else 60
      ensures (exit == 0 <==> dropped) && (dropped ==> expected.Some? && cell == None && claim == None)
      ensures expected.None? ==> cell == old(cell) && claim == old(claim)
      ensures var target := if expected.Some? then CleanupRecord(old(cell), expected.value, env) else None;
              stops == old(stops) + (if target.Some? then [target.value] else [])
    {
      if expected.None? { return 60, false; }
      var ok := CleanupOwnedRecord(expected.value, env);
      return if ok then 0 else 60, ok;
    }

    /** The record a stale cleanup may adopt: the persisted one, advanced by what Docker reports. */
    method DiscoverStale(persisted: LeaseRecord, env: StaleEnv) returns (recoverable: Option<LeaseRecord>)
      modifies `cell
      ensures recoverable == StaleRecord(old(cell), persisted, env)
      ensures recoverable.Some? && old(cell) == Some(persisted) ==> cell == recoverable
      ensures recoverable.Some? ==> Advances(persisted, recoverable.value)
      ensures recoverable.Some? && env.inspection.presence == Present ==>
                && env.inspection.identity.Some?
                && ControllerSameRecord(env.inspection.identity.value, recoverable.value)
    {
      if env.inspection.InspectThrows? || env.inspection.presence == PresenceUnreadable { return None; }
      recoverable := Some(persisted);
      if env.inspection.presence == Present {
        if env.inspection.identity.None? { return None; }
        var identity := env.inspection.identity.value;
        if !ControllerSameRecord(identity, persisted) {
          if !ControllerCanAdvance(persisted, identity) { return None; }
          cell := env.beforeFinalize(cell);
          var finalized := FinalizeResources(cell, persisted, identity);
          cell := if env.finalize.FailsBefore? then cell else finalized.0;
          if !env.finalize.Succeeds? { return None; }
          recoverable := finalized.1;
        }
      }
    }

    /** Removes a stale stack only after the owner is proven dead and the ownership is won: destructive calls
        are made with nothing but the adopted record, fenced once more by the cleanup. */
    method CleanupStale(env: StaleEnv) returns (exit: Option<int>, adopted: Option<LeaseRecord>)
      modifies `cell, `claim, `stops, `releases
      ensures exit.None? <==> env.lookupValid && env.read == ReadThrows
      ensures adopted.Some? <==>
              && env.lookupValid && env.read == Faithful && old(cell).Some? && env.owner == Some(Absent)
              && StaleRecord(old(cell), old(cell).value, env).Some?
              && env.beforeTransfer(StaleRecord(old(cell), old(cell).value, env))
                 == StaleRecord(old(cell), old(cell).value, env)
              && env.transfer.Succeeds?
      ensures adopted.Some? ==>
                adopted.value == StaleRecord(old(cell), old(cell).value, env).value.(ownerProcess := env.me)
      ensures exit.Some? ==>
                exit.value == if adopted.Some? && CleanupSucceeds(adopted, adopted.value, env.cleanup) then 0 else 60
      ensures exit == Some(0) ==> adopted.Some? && cell == None && claim == None
      ensures var reached := env.lookupValid && env.read == Faithful && old(cell).Some? && env.owner == Some(Absent);
              && (!reached ==> cell == old(cell))
              && (reached && adopted.None? && StaleRecord(old(cell), old(cell).value, env).Some? ==>
                    var recoverable := StaleRecord(old(cell), old(cell).value, env);
                    cell == if env.beforeTransfer(recoverable) == recoverable && env.transfer.FailsAfter?
                            then Some(recoverable.value.(ownerProcess := env.me)) else env.beforeTransfer(recoverable))
      ensures adopted.None? ==> stops == old(stops) && releases == old(releases) && claim == old(claim)
      ensures adopted.Some? ==>
                && env.owner == Some(Absent) && env.transfer.Succeeds?
                && old(cell).Some? && AdvancesUpToOwner(old(cell).value, adopted.value)
                && adopted.value.ownerProcess == env.me
                && stops == old(stops) + (if CleanupRecord(adopted, adopted.value, env.cleanup).Some?
                                          then [CleanupRecord(adopted, adopted.value, env.cleanup).value] else [])
    {
      adopted := None;
      if !env.lookupValid { return Some(60), adopted; }
      if env.read == ReadThrows { return None, adopted; }
      if env.read != Faithful || cell.None? { return Some(60), adopted; }
      var persisted := cell.value;
      if env.owner != Some(Absent) { return Some(60), adopted; }
      var recoverable := DiscoverStale(persisted, env);
      if recoverable.None? { return Some(60), adopted; }
      cell := env.beforeTransfer(cell);
      var won := cell == recoverable;
      var transferred := recoverable.value.(ownerProcess := env.me);
      if won && !env.transfer.FailsBefore? { cell := Some(transferred); }
      if !won || !env.transfer.Succeeds? { return Some(60), adopted; }
      adopted := Some(transferred);
      AdoptedAdvances(persisted, recoverable.value, env.me);
      var code, _ := StopOwned(adopted, env.cleanup);
      exit := Some(code);
    }

    /** Cleans a failed start; when cleaning fails too, that takes precedence. A lease that has come under another
        authority meanwhile is left alone. */
    method AbortAcquiredStart(record: LeaseRecord, prerequisite: Option<Prerequisite>, env: StartEnv)
      returns (r: StartResult)
      modifies `cell, `claim, `stops, `releases
      ensures r == Rejected <==> env.abortRead == ReadThrows
      ensures old(cell).Some? && !ControllerSameAuthority(record, old(cell).value) ==>
                && stops == old(stops) && releases == old(releases) && claim == old(claim)
                && (r.Rejected? || r == NotOwned(60, prerequisite))
      ensures r.NotOwned? || r.Rejected?
      ensures r.NotOwned? ==> r.prerequisite == prerequisite
      ensures r.NotOwned? ==>
                r.exit == if CleanupSucceeds(old(cell), AbortRecord(old(cell), record, env), env.cleanup) then 30
                          else 60
      ensures r.NotOwned? && r.exit == 30 ==> cell == None && claim == None
      ensures r.Rejected? ==> cell == old(cell) && claim == old(claim)
    {
      if env.abortRead == ReadThrows { return Rejected; }
      var cleanupRecord := AbortRecord(cell, record, env);
      var ok := CleanupOwnedRecord(cleanupRecord, env.cleanup);
      return NotOwned(if ok then 30 else 60, prerequisite);
    }

    /** Client processes append themselves to the durable lease while a prerequisite runs; one whose role
        is already registered, or that finds no lease, is refused. */
    method RegisterHosts(hosts: seq<HostProcess>)
      modifies `cell
      ensures cell == if old(cell).None? then None
                      else Some(old(cell).value.(hostProcesses := WithHosts(old(cell).value.hostProcesses, hosts)))
    {
      for i := 0 to |hosts|
        invariant cell.Some? <==> old(cell).Some?
        invariant cell.Some? ==> cell.value == old(cell).value.(hostProcesses := cell.value.hostProcesses)
        invariant cell.Some? ==> WithHosts(old(cell).value.hostProcesses, hosts)
                                 == WithHosts(cell.value.hostProcesses, hosts[i..])
      {
        assert hosts[i..][1..] == hosts[i + 1..];
        if cell.Some? && !RoleTaken(cell.value.hostProcesses, hosts[i].role) {
          cell := Some(cell.value.(hostProcesses := cell.value.hostProcesses + [hosts[i]]));
        }
      }
    }

    /** Configures one consumer from the manifest. */
    method Configure(consumer: Consumer, env: StartEnv) returns (ok: bool)
      requires Configured(env, applied) && |applied| < |CONSUMERS| && CONSUMERS[|applied|] == consumer
      requires calls == ConsumerCalls(|applied|)
      modifies `applied, `calls
      ensures ok == env.consumer(consumer).Succeeds? && Configured(env, applied)
      ensures |applied| == |old(applied)| + (if ok then 1 else 0) && calls == ConsumerCalls(|old(applied)| + 1)
    {
      calls := calls + [Configures(consumer)];
      assert calls == ConsumerCalls(|applied| + 1);
      if !env.consumer(consumer).Succeeds? { return false; }
      applied := applied + [consumer];
      return true;
    }

    /** The consumers of the stack itself. */
    method ConfigureStack(env: StartEnv) returns (ok: bool)
      requires Configured(env, applied) && |applied| == 0 && calls == ConsumerCalls(0)
      modifies `applied, `calls
      ensures if ok then |applied| == 4 else |applied| < 4 && !env.consumer(CONSUMERS[|applied|]).Succeeds?
      ensures Configured(env, applied) && calls == ConsumerCalls(if ok then |applied| else |applied| + 1)
    {
      ok := Configure(ComposeConfig, env);
      if !ok { return; }
      ok := Configure(Nginx, env);
      if !ok { return; }
      ok := Configure(SeedData, env);
      if !ok { return; }
      ok := Configure(SpaClient, env);
    }

    /** The consumers around it. */
    method ConfigureClients(env: StartEnv) returns (ok: bool)
      requires Configured(env, applied) && |applied| == 4 && calls == ConsumerCalls(4)
      modifies `applied, `calls
      ensures if ok then |applied| == 8 else |applied| < 8 && !env.consumer(CONSUMERS[|applied|]).Succeeds?
      ensures Configured(env, applied) && calls == ConsumerCalls(if ok then |applied| else |applied| + 1)
    {
      ok := Configure(BffClient, env);
      if !ok { return; }
      ok := Configure(Playwright, env);
      if !ok { return; }
      ok := Configure(HealthCheck, env);
      if !ok { return; }
      ok := Configure(Evidence, env);
    }

    /** The eight consumers in order, up to the first that fails. */
    method ApplyConsumers(env: StartEnv) returns (ok: bool)
      requires applied == [] && calls == []
      modifies `applied, `calls
      ensures ok <==> forall c: Consumer :: env.consumer(c).Succeeds?
      ensures ok ==> applied == CONSUMERS
      ensures Configured(env, applied)
      ensures !ok ==> |applied| < |CONSUMERS| && !env.consumer(CONSUMERS[|applied|]).Succeeds?
      ensures calls == ConsumerCalls(if ok then |CONSUMERS| else |applied| + 1)
    {
      ok := ConfigureStack(env);
      if !ok { return; }
      ok := ConfigureClients(env);
      if !ok { return; }
      EveryConsumer(env);
    }

    /** The four fatal prerequisites in order, each followed by a check of the startup deadline. */
    method RunPrerequisites(env: StartEnv) returns (ok: bool, failed: Option<Prerequisite>)
      requires cell.Some?
      modifies `cell, `passed, `calls
      ensures ok <==> ChecksPass(env)
      ensures calls == old(calls) + CheckCalls(ChecksBegun(env, 0))
      ensures ok ==> passed == old(passed) + CHECKS
      ensures failed == if ok then None else FailedCheck(env)
      ensures cell == Some(old(cell).value.(hostProcesses :=
                HostsAfter(old(cell).value.hostProcesses, env, ChecksBegun(env, 0))))
    {
      for i := 0 to |CHECKS|
        invariant passed == old(passed) + CHECKS[..i]
        invariant forall j :: 0 <= j < i ==> CheckPasses(env, j)
        invariant ChecksBegun(env, 0) == ChecksBegun(env, i)
        invariant cell == Some(old(cell).value.(hostProcesses := HostsAfter(old(cell).value.hostProcesses, env, i)))
        invariant calls == old(calls) + CheckCalls(i)
      {
        calls := calls + [Checks(CHECKS[i])];
        assert CheckCalls(i + 1) == CheckCalls(i) + [Checks(CHECKS[i])];
        RegisterHosts(env.hosts(CHECKS[i]));
        if !env.prerequisite(CHECKS[i]).Succeeds? {
          assert !CheckPasses(env, i);
          return false, Some(CHECKS[i]);
        }
        passed := passed + [CHECKS[i]];
        assert CHECKS[..i + 1] == CHECKS[..i] + [CHECKS[i]];
        if env.aborted(i + 2) {
          assert !CheckPasses(env, i);
          return false, None;
        }
      }
      assert CHECKS[..|CHECKS|] == CHECKS;
      return true, None;
    }

    /** However far the consumers came, what was called is where the stack calls go on from. */
    lemma ConsumersFirst(called: seq<StartCall>)
      requires exists n: nat :: n <= |CONSUMERS| && called == ConsumerCalls(n)
      ensures called <= ConsumerCalls(|CONSUMERS|) + STACK_CALLS
      ensures called == ConsumerCalls(|CONSUMERS|) ==> forall k: nat :: k <= 4 ==>
                called + STACK_CALLS[..k] <= ConsumerCalls(|CONSUMERS|) + STACK_CALLS
    {
      forall k: nat | k <= 4 ensures
        ConsumerCalls(|CONSUMERS|) + STACK_CALLS[..k] <= ConsumerCalls(|CONSUMERS|) + STACK_CALLS
      {
        PrefixOfSum(ConsumerCalls(|CONSUMERS|), STACK_CALLS, [], k);
      }
    }

    /** From the consumers to the record of what was started. */
    method StartStack(record: LeaseRecord, env: StartEnv)
      returns (ok: bool, active: LeaseRecord, failed: Option<Prerequisite>)
      requires cell == Some(record) && applied == [] && passed == [] && calls == []
      modifies `cell, `applied, `passed, `calls
      ensures ok <==> StackRecorded(record, env)
      ensures calls <= ConsumerCalls(|CONSUMERS|) + STACK_CALLS
      ensures ok ==> calls == ConsumerCalls(|CONSUMERS|) + STACK_CALLS
      ensures ok ==> cell == Some(active) && active == env.inspection.identity.value
                     && applied == CONSUMERS && passed == [Dns]
      ensures !ok ==> active == record && failed == FailedPrerequisite(record, env)
                      && cell == Some(LeaseAtAbort(record, env))
    {
      active, failed := record, None;
      ok := ApplyConsumers(env);
      ConsumersFirst(calls);
      if !ok || env.aborted(0) { return false, active, failed; }
      calls := calls + [Checks(Dns)];
      if !env.prerequisite(Dns).Succeeds? { return false, record, Some(Dns); }
      passed := passed + [Dns];
      calls := calls + [StartsStack];
      if !env.composeStart.Succeeds? || env.aborted(1) { return false, active, failed; }
      calls := calls + [InspectsStack];
      if env.inspection.InspectThrows? { return false, active, failed; }
      if env.inspection.presence != Present || env.inspection.identity.None? { return false, active, failed; }
      calls := calls + [FinalizesLease];
      var finalized := FinalizeResources(cell, active, env.inspection.identity.value);
      cell := if env.finalize.FailsBefore? then cell else finalized.0;
      if !env.finalize.Succeeds? || finalized.1.None? { return false, active, failed; }
      return true, finalized.1.value, failed;
    }

    lemma ChecksThenCommit(past: seq<StartCall>, env: StartEnv)
      ensures past + CheckCalls(ChecksBegun(env, 0)) <= past + (CheckCalls(|CHECKS|) + CommitCalls(env.hasReset))
      ensures ChecksPass(env) ==> ChecksBegun(env, 0) == |CHECKS|
    {
      ChecksInOrder(env);
      var n := ChecksBegun(env, 0);
      assert CheckCalls(|CHECKS|)[..n] == CheckCalls(n);
      PrefixOfSum(past, CheckCalls(|CHECKS|), CommitCalls(env.hasReset), n);
      assert past + CheckCalls(|CHECKS|) + CommitCalls(env.hasReset)
             == past + (CheckCalls(|CHECKS|) + CommitCalls(env.hasReset));
    }

    /** From the prerequisites to the committed ready state. */
    method CheckAndCommit(record: LeaseRecord, env: StartEnv)
      returns (ok: bool, active: LeaseRecord, failed: Option<Prerequisite>)
      requires cell == Some(record)
      modifies `cell, `passed, `committed, `calls
      ensures ok <==> ChecksPass(env) && ReadyCommitted(env)
      ensures calls <= old(calls) + (CheckCalls(|CHECKS|) + CommitCalls(env.hasReset))
      ensures ok ==> calls == old(calls) + (CheckCalls(|CHECKS|) + CommitCalls(env.hasReset))
      ensures cell == Some(record.(hostProcesses := HostsAfter(record.hostProcesses, env, ChecksBegun(env, 0))))
      ensures active == if ChecksPass(env) && env.finalRead == Faithful then cell.value else record
      ensures ok ==> passed == old(passed) + CHECKS && (env.hasReset ==> committed == Some(Ready))
      ensures failed == if ChecksPass(env) then None else FailedCheck(env)
    {
      active := record;
      ok, failed := RunPrerequisites(env);
      ChecksThenCommit(old(calls), env);
      if !ok { return; }
      calls := calls + [ReadsLease];
      if env.finalRead != Faithful || cell.None? || !ControllerSameAuthority(active, cell.value) {
        return false, active, None;
      }
      active := cell.value;
      if env.hasReset {
        calls := calls + [PersistsReady];
        if !env.persistReady.Succeeds? { return false, active, None; }
        calls := calls + [FlushesReady];
        if !env.flushReady.FailsBefore? { committed := Some(Ready); }
        if !env.flushReady.Succeeds? { return false, active, None; }
      }
      return true, active, None;
    }

    /** Brings the leased run up. It is owned exactly when everything went well; otherwise it is cleaned up and
        answers 30, or 60 when that fails, or -- when the abort cannot even read the lease -- rejects. */
    method StartAcquiredRecord(record: LeaseRecord, env: StartEnv) returns (r: StartResult)
      requires cell == Some(record) && applied == [] && passed == [] && calls == []
      modifies this
      ensures r.Owned? <==> ComesUp(record, env)
      ensures calls <= StartCalls(env.hasReset) && (r.Owned? ==> calls == StartCalls(env.hasReset))
      ensures r.Rejected? <==> !ComesUp(record, env) && env.abortRead == ReadThrows
      ensures r.Owned? ==> && cell == Some(r.record) && claim == old(claim)
                           && applied == [ComposeConfig, Nginx, SeedData, SpaClient, BffClient, Playwright, HealthCheck,
                                          Evidence]
                           && passed == [Dns, Health, Migration, Seed, FixtureVerification]
                           && (env.hasReset ==> committed == Some(Ready))
                           && r.record == env.inspection.identity.value.(hostProcesses :=
                                HostsAfter(env.inspection.identity.value.hostProcesses, env, |CHECKS|))
                           && Advances(record, r.record)
      ensures r.NotOwned? ==> r.prerequisite == FailedPrerequisite(record, env)
      ensures r.NotOwned? ==> r.exit == if AbortCleans(record, env) then 30 else 60
      ensures r.NotOwned? && r.exit == 30 ==> cell == None && claim == None
      ensures r.Rejected? ==> cell == Some(LeaseAtAbort(record, env)) && claim == old(claim)
                              && cell.value.startupIntentId == record.startupIntentId
    {
      ComesUpMeans(record, env);
      LeaseAtAbortKeepsAuthority(record, env);
      AdvanceMeans(record, LeaseAtAbort(record, env));
      var ok, activeRecord, failed := StartStack(record, env);
      if ok { ok, activeRecord, failed := CheckAndCommit(activeRecord, env); }
      if !ok {
        r := AbortAcquiredStart(activeRecord, failed, env);
        return;
      }
      ChecksInOrder(env);
      return Owned(activeRecord);
    }

    /** Offers one block: the claim stays behind when only the block was taken. */
    method OfferBlock(request: StartRequest, env: StartEnv, attempt: nat)
      returns (a: Attempt, record: Option<LeaseRecord>)
      requires ValidRequest(request)
      modifies `cell, `claim
      ensures a == AttemptAt(request, env, attempt)
      ensures claim == if a == Taken || a == Leased || a == AcquireThrew(true) then Some(env.intent) else old(claim)
      ensures cell == if a == Leased then record else old(cell)
      ensures a == Leased ==>
                CreateEndpointManifest(request, attempt).Some?
                && record == Some(NewRecord(request, env, CreateEndpointManifest(request, attempt).value))
    {
      record := None;
      var manifest := CreateEndpointManifest(request, attempt);
      if manifest.None? { return PastRange, record; }
      match env.occupied(attempt)
      case OccupancyThrows => return ProbeThrew, record;
      case SomeOccupied => return EndpointTaken, record;
      case AllFree =>
        match env.acquire(attempt)
        case WorktreeTaken => return Refused, record;
        case BlockTaken =>
          claim := Some(env.intent);
          return Taken, record;
        case AcquireThrows(left) =>
          if left { claim := Some(env.intent); }
          return AcquireThrew(left), record;
        case Acquires =>
          record := Some(NewRecord(request, env, manifest.value));
          claim := Some(env.intent);
          cell := record;
          return Leased, record;
    }

    /** Offers block after block until one is leased or the search ends; a retry follows only an
        occupied endpoint or an occupied block. */
    method SelectBlock(request: StartRequest, env: StartEnv) returns (end: Selection, record: Option<LeaseRecord>)
      requires ValidRequest(request) && NothingRemains(env.intent)
      modifies `cell, `claim
      ensures end == SelectFrom(request, env, 0, false)
      ensures claim == if end.Acquired? || end.claimed then Some(env.intent) else old(claim)
      ensures cell == if end.Acquired? then record else old(cell)
      ensures end.Acquired? ==>
                CreateEndpointManifest(request, end.attempt).Some?
                && record == Some(NewRecord(request, env, CreateEndpointManifest(request, end.attempt).value))
    {
      record := None;
      var unleased := false;
      for attempt := 0 to request.collisionRetries + 1
        invariant SelectFrom(request, env, 0, false) == SelectFrom(request, env, attempt, unleased)
        invariant claim == if unleased then Some(env.intent) else old(claim)
        invariant cell == old(cell)
      {
        var a;
        a, record := OfferBlock(request, env, attempt);
        match a
        case EndpointTaken =>
        case Taken => unleased := true;
        case PastRange => return OutOfRange(unleased), record;
        case ProbeThrew => return ProbeRejects(unleased), record;
        case Refused => return WorktreeRefused(unleased), record;
        case AcquireThrew(left) => return AcquireRejects(unleased || left), record;
        case Leased => return Acquired(attempt), record;
      }
      return Exhausted(unleased), record;
    }

    /** A search that acquired nothing: only one that ran out of attempts gives its claim back. */
    method AnswerSearch(end: Selection, env: StartEnv) returns (r: StartResult)
      requires !end.Acquired? && (claim == Some(env.intent) <==> end.claimed)
      requires cell.Some? ==> cell.value.startupIntentId != env.intent
      modifies `claim
      ensures r == match end
                   case Exhausted(claimed) => NotOwned(if claimed && !env.releaseIntent.Succeeds? then 60 else 30, None)
                   case OutOfRange(_) => NotOwned(30, None)
                   case WorktreeRefused(_) => NotOwned(30, None)
                   case ProbeRejects(_) => Rejected
                   case AcquireRejects(_) => Rejected
      ensures claim == if end == Exhausted(true) && !env.releaseIntent.FailsBefore? then None else old(claim)
      ensures !(r.NotOwned? && r.exit == 60) ==> (NothingRemains(env.intent) <==> !LeavesClaim(end))
    {
      match end
      case ProbeRejects(_) => return Rejected;
      case AcquireRejects(_) => return Rejected;
      case OutOfRange(_) => return NotOwned(30, None);
      case WorktreeRefused(_) => return NotOwned(30, None);
      case Exhausted(unleased) =>
        if unleased {
          if !env.releaseIntent.FailsBefore? { claim := None; }
          if !env.releaseIntent.Succeeds? { return NotOwned(60, None); }
        }
        return NotOwned(30, None);
    }

    /** A start whose lease and claim are in place: it is owned, or cleans both up, or rejects and keeps both. */
    method StartOnBlock(record: LeaseRecord, env: StartEnv) returns (r: StartResult)
      requires cell == Some(record) && claim == Some(env.intent) && record.startupIntentId == env.intent
      requires applied == [] && passed == [] && calls == []
      modifies this
      ensures r.Owned? <==> ComesUp(record, env)
      ensures r.Owned? ==> OwnedCompletely(record, r.record, env)
      ensures calls <= StartCalls(env.hasReset) && (r.Owned? ==> calls == StartCalls(env.hasReset))
      ensures r.Rejected? <==> !ComesUp(record, env) && env.abortRead == ReadThrows
      ensures r.NotOwned? ==>
                r == NotOwned(if AbortCleans(record, env) then 30 else 60, FailedPrerequisite(record, env))
      ensures r.NotOwned? && r.exit == 30 ==> NothingRemains(env.intent)
      ensures r.Rejected? ==> !NothingRemains(env.intent)
    {
      r := StartAcquiredRecord(record, env);
    }

    /** Lease, claim, calls and durable state of an owned run. */
    ghost predicate OwnedCompletely(offered: LeaseRecord, record: LeaseRecord, env: StartEnv)
      reads this
    {
      && cell == Some(record) && claim == Some(env.intent) && Advances(offered, record)
      && applied == [ComposeConfig, Nginx, SeedData, SpaClient, BffClient, Playwright, HealthCheck, Evidence]
      && passed == [Dns, Health, Migration, Seed, FixtureVerification]
      && (env.hasReset ==> committed == Some(Ready))
    }

    /** Validates, selects a block and starts the stack. A run is owned exactly when a block is acquired and
        the stack comes up on it. Without one, an answer other than 60 leaves neither lease nor claim,
        exactly unless the search for a block ended by an error or refusal after placing the claim, or the
        abort of an acquired start could not read the lease. */
    method StartWithinDeadline(request: StartRequest, env: StartEnv) returns (r: StartResult)
      requires applied == [] && passed == [] && calls == [] && NothingRemains(env.intent)
      modifies this
      ensures calls <= StartCalls(env.hasReset) && (r.Owned? ==> calls == StartCalls(env.hasReset))
      ensures r.Owned? <==> ValidRequest(request) && SelectFrom(request, env, 0, false).Acquired?
                            && ComesUp(RecordOffered(request, env), env)
      ensures r.Owned? ==> OwnedCompletely(RecordOffered(request, env), r.record, env)
      ensures !ValidRequest(request) ==> r == NotOwned(30, None) && NothingRemains(env.intent)
      ensures ValidRequest(request) ==>
                match SelectFrom(request, env, 0, false)
                case Acquired(_) =>
                  var offered := RecordOffered(request, env);
                  && (r.Rejected? <==> !ComesUp(offered, env) && env.abortRead == ReadThrows)
                  && (r.NotOwned? ==> r == NotOwned(if AbortCleans(offered, env) then 30 else 60,
                                                    FailedPrerequisite(offered, env)))
                case Exhausted(claimed) =>
                  r == NotOwned(if claimed && !env.releaseIntent.Succeeds? then 60 else 30, None)
                case OutOfRange(_) => r == NotOwned(30, None)
                case WorktreeRefused(_) => r == NotOwned(30, None)
                case ProbeRejects(_) => r == Rejected
                case AcquireRejects(_) => r == Rejected
      ensures ValidRequest(request) && !r.Owned? && !(r.NotOwned? && r.exit == 60) ==>
                var end := SelectFrom(request, env, 0, false);
                if end.Acquired? then NothingRemains(env.intent) <==> env.abortRead != ReadThrows
                else NothingRemains(env.intent) <==> !LeavesClaim(end)
      ensures ValidRequest(request) && CleanSearch(request, env) && env.abortRead != ReadThrows && !r.Owned? ==>
                r.NotOwned? && (r.exit == 60 || NothingRemains(env.intent))
    {
      if !ValidRequest(request) { return NotOwned(30, None); }
      var end, record := SelectBlock(request, env);
      if end.Acquired? {
        r := StartOnBlock(record.value, env);
      } else {
        r := AnswerSearch(end, env);
      }
    }
  }

  // ---------------------------------------------------------------- when a start leaves nothing behind

  /** Blocks within range, adapters that answer, and a store that keeps granting a claim once placed. */
  ghost predicate WellBehaved(request: StartRequest, env: StartEnv) {
    && ValidRequest(request)
    && request.candidateBasePort + 10 * request.collisionRetries <= 65530
    && (forall k :: env.occupied(k) != OccupancyThrows && !env.acquire(k).AcquireThrows?)
    && (forall j, k :: j < k && env.acquire(j) == BlockTaken ==> env.acquire(k) != WorktreeTaken)
    && env.abortRead != ReadThrows
  }

  predicate PlacedBefore(env: StartEnv, k: nat) {
    exists j | 0 <= j < k :: env.acquire(j) == BlockTaken
  }

  lemma {:induction false} WellBehavedLeavesNoClaim(request: StartRequest, env: StartEnv, k: nat, claimed: bool)
    requires WellBehaved(request, env) && k <= request.collisionRetries + 1
    requires claimed ==> PlacedBefore(env, k)
    ensures var end := SelectFrom(request, env, k, claimed);
            !LeavesClaim(end) && !end.ProbeRejects? && !end.AcquireRejects?
    decreases request.collisionRetries + 1 - k
  {
    if k <= request.collisionRetries {
      assert env.occupied(k) != OccupancyThrows;
      if env.occupied(k) == SomeOccupied {
        WellBehavedLeavesNoClaim(request, env, k + 1, claimed);
      } else if env.acquire(k) == BlockTaken {
        assert PlacedBefore(env, k + 1);
        WellBehavedLeavesNoClaim(request, env, k + 1, true);
      }
    }
  }

  /** So a well-behaved start that does not end owned answers, and leaves nothing or exits 60. */
  lemma WellBehavedSearchIsClean(request: StartRequest, env: StartEnv)
    requires WellBehaved(request, env)
    ensures CleanSearch(request, env) && env.abortRead != ReadThrows
  {
    WellBehavedLeavesNoClaim(request, env, 0, false);
  }

  /** A retry past the end of the port range forgets the claim the first attempt placed. */
  lemma LastBlockRetryLeavesClaim(request: StartRequest, env: StartEnv)
    requires ValidRequest(request) && request.candidateBasePort > 65520 && request.collisionRetries >= 1
    requires env.occupied(0) == AllFree && env.acquire(0) == BlockTaken
    ensures SelectFrom(request, env, 0, false) == OutOfRange(true)
    ensures LeavesClaim(SelectFrom(request, env, 0, false))
  {
    assert SelectFrom(request, env, 1, true) == OutOfRange(true);
  }
}
