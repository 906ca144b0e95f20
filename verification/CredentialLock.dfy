/** The two-layer lock around the credential file: an in-process reservation over a kernel record lock.

    The kernel lock follows the fcntl() page of the System Interfaces volume of POSIX.1-2017: a process
    may take again a lock it already has, and it loses the lock as soon as it closes any descriptor of
    the file. Processes, their tasks, and crashes interleave freely between two awaits. */
module CredentialLock {
  import opened Options

  type Process = nat
  type TaskId = nat

  /** Where one call of the lock stands. */
  datatype Place = Reserving | Opening | Locking | Operating | Unlocking | Closing | Unreserving

  datatype Task = Task(process: Process, path: string, place: Place)

  /** `guarded`: tasks honour the in-process reservation; the program always does. */
  datatype System = System(guarded: bool, tasks: map<TaskId, Task>, reserved: set<(Process, string)>,
                           kernel: map<string, Process>)

  datatype Event =
    | Enter(task: TaskId, process: Process, path: string)
    | Reserve(task: TaskId)
    | GiveUp(task: TaskId)
    | Open(task: TaskId)
    | OpenFails(task: TaskId)
    | Lock(task: TaskId)
    | LockFails(task: TaskId)
    | Leave(task: TaskId)
    | Unlock(task: TaskId)
    | UnlockFails(task: TaskId)
    | Close(task: TaskId)
    | CloseFails(task: TaskId)
    | Unreserve(task: TaskId)
    | Crash(process: Process)

  predicate At(s: System, t: TaskId, place: Place) {
    t in s.tasks && s.tasks[t].place == place
  }

  /** A conflicting lock is one another process has. */
  predicate LockFree(s: System, path: string, process: Process) {
    path !in s.kernel || s.kernel[path] == process
  }

  predicate Enabled(s: System, e: Event) {
    match e
    case Enter(t, _, _) => t !in s.tasks
    case Reserve(t) =>
      At(s, t, Reserving) && (s.guarded ==> (s.tasks[t].process, s.tasks[t].path) !in s.reserved)
    case GiveUp(t) => At(s, t, Reserving)
    case Open(t) => At(s, t, Opening)
    case OpenFails(t) => At(s, t, Opening)
    case Lock(t) => At(s, t, Locking) && LockFree(s, s.tasks[t].path, s.tasks[t].process)
    case LockFails(t) => At(s, t, Locking)
    case Leave(t) => At(s, t, Operating)
    case Unlock(t) => At(s, t, Unlocking)
    case UnlockFails(t) => At(s, t, Unlocking)
    case Close(t) => At(s, t, Closing)
    case CloseFails(t) => At(s, t, Closing)
    case Unreserve(t) => At(s, t, Unreserving)
    case Crash(_) => true
  }

  function MoveTo(s: System, t: TaskId, place: Place): System
    requires t in s.tasks
  {
    s.(tasks := s.tasks[t := s.tasks[t].(place := place)])
  }

  /** The kernel drops the process's lock on the path, if it has one. */
  function Dropped(kernel: map<string, Process>, path: string, process: Process): map<string, Process> {
    if path in kernel && kernel[path] == process then kernel - {path} else kernel
  }

  function Apply(s: System, e: Event): System
    requires Enabled(s, e)
  {
    match e
    case Enter(t, process, path) => s.(tasks := s.tasks[t := Task(process, path, Reserving)])
    case Reserve(t) => MoveTo(s, t, Opening).(reserved := s.reserved + {(s.tasks[t].process, s.tasks[t].path)})
    case GiveUp(t) => s.(tasks := s.tasks - {t})
    case Open(t) => MoveTo(s, t, Locking)
    case OpenFails(t) => MoveTo(s, t, Unreserving)
    case Lock(t) => MoveTo(s, t, Operating).(kernel := s.kernel[s.tasks[t].path := s.tasks[t].process])
    case LockFails(t) => MoveTo(s, t, Closing)
    case Leave(t) => MoveTo(s, t, Unlocking)
    case Unlock(t) =>
      MoveTo(s, t, Closing).(kernel := Dropped(s.kernel, s.tasks[t].path, s.tasks[t].process))
    case UnlockFails(t) => MoveTo(s, t, Closing)
    case Close(t) =>
      MoveTo(s, t, Unreserving).(kernel := Dropped(s.kernel, s.tasks[t].path, s.tasks[t].process))
    case CloseFails(t) => MoveTo(s, t, Unreserving)
    case Unreserve(t) =>
      s.(tasks := s.tasks - {t}, reserved := s.reserved - {(s.tasks[t].process, s.tasks[t].path)})
    case Crash(p) =>
      s.(tasks := (map t | t in s.tasks && s.tasks[t].process != p :: s.tasks[t]),
         reserved := (set r | r in s.reserved && r.0 != p),
         kernel := (map path | path in s.kernel && s.kernel[path] != p :: s.kernel[path]))
  }

  /** The state a sequence of events leads to, when each is enabled where it happens. */
  datatype Reached = Reaches(state: System) | Stuck

  function Run(s: System, es: seq<Event>): Reached
    decreases |es|
  {
    if es == [] then Reaches(s)
    else
      var before := Run(s, es[..|es| - 1]);
      if before.Reaches? && Enabled(before.state, es[|es| - 1]) then Reaches(Apply(before.state, es[|es| - 1]))
      else Stuck
  }

  predicate Initial(s: System) {
    s == System(true, map[], {}, map[])
  }

  // ---------------------------------------------------------------- exclusion

  predicate HasFileOpen(place: Place) {
    place == Locking || place == Operating || place == Unlocking || place == Closing
  }

  predicate Reserved(task: Task) {
    task.place != Reserving
  }

  ghost predicate HoldersAreReserved(s: System) {
    forall t :: t in s.tasks && Reserved(s.tasks[t]) ==> (s.tasks[t].process, s.tasks[t].path) in s.reserved
  }

  ghost predicate OneHolder(s: System) {
    forall t, u | t in s.tasks && u in s.tasks && Reserved(s.tasks[t]) && Reserved(s.tasks[u])
                  && s.tasks[t].process == s.tasks[u].process && s.tasks[t].path == s.tasks[u].path :: t == u
  }

  predicate HeldBy(s: System, r: (Process, string), t: TaskId) {
    t in s.tasks && Reserved(s.tasks[t]) && s.tasks[t].process == r.0 && s.tasks[t].path == r.1
  }

  ghost predicate ReservationsAreHeld(s: System) {
    forall r :: r in s.reserved ==> exists t :: HeldBy(s, r, t)
  }

  ghost predicate OperatingHasKernelLock(s: System) {
    forall t :: t in s.tasks && (s.tasks[t].place == Operating || s.tasks[t].place == Unlocking) ==>
      s.tasks[t].path in s.kernel && s.kernel[s.tasks[t].path] == s.tasks[t].process
  }

  ghost predicate Inv(s: System) {
    s.guarded && HoldersAreReserved(s) && OneHolder(s) && ReservationsAreHeld(s) && OperatingHasKernelLock(s)
  }

  lemma HoldersStayReserved(s: System, e: Event)
    requires Inv(s) && Enabled(s, e)
    ensures HoldersAreReserved(Apply(s, e)) && OneHolder(Apply(s, e))
  {
    var after := Apply(s, e);
    forall t | t in after.tasks && Reserved(after.tasks[t])
      ensures (after.tasks[t].process, after.tasks[t].path) in after.reserved
    {
      HolderComesFrom(s, e, t);
      ReservationStays(s, e, t);
    }
    forall t, u | t in after.tasks && u in after.tasks && Reserved(after.tasks[t]) && Reserved(after.tasks[u])
                  && after.tasks[t].process == after.tasks[u].process && after.tasks[t].path == after.tasks[u].path
      ensures t == u
    {
      HolderComesFrom(s, e, t);
      HolderComesFrom(s, e, u);
    }
  }

  /** A call gets past the reservation only by reserving. */
  lemma HolderComesFrom(s: System, e: Event, t: TaskId)
    requires Enabled(s, e) && t in Apply(s, e).tasks && Reserved(Apply(s, e).tasks[t])
    ensures t in s.tasks
    ensures Apply(s, e).tasks[t].process == s.tasks[t].process && Apply(s, e).tasks[t].path == s.tasks[t].path
    ensures || Reserved(s.tasks[t])
            || (e == Reserve(t) && (s.guarded ==> (s.tasks[t].process, s.tasks[t].path) !in s.reserved))
  {
  }

  /** And its reservation is removed only by its own last step. */
  lemma ReservationStays(s: System, e: Event, t: TaskId)
    requires HoldersAreReserved(s) && OneHolder(s) && Enabled(s, e)
    requires t in s.tasks && t in Apply(s, e).tasks && (Reserved(s.tasks[t]) || e == Reserve(t))
    ensures (s.tasks[t].process, s.tasks[t].path) in Apply(s, e).reserved
  {
  }

  lemma ReservationsStayHeld(s: System, e: Event)
    requires Inv(s) && Enabled(s, e)
    ensures ReservationsAreHeld(Apply(s, e))
  {
    var after := Apply(s, e);
    forall r | r in after.reserved ensures exists t :: HeldBy(after, r, t) {
      if r in s.reserved {
        var t :| HeldBy(s, r, t);
        assert HeldBy(after, r, t);
      } else {
        assert HeldBy(after, r, e.task);
      }
    }
  }

  lemma KernelLockStays(s: System, e: Event)
    requires Inv(s) && Enabled(s, e)
    ensures OperatingHasKernelLock(Apply(s, e))
  {
  }

  lemma {:induction false} RunKeepsInv(s: System, es: seq<Event>)
    requires Inv(s) && Run(s, es).Reaches?
    ensures Inv(Run(s, es).state)
    decreases |es|
  {
    if es != [] {
      var before := Run(s, es[..|es| - 1]);
      RunKeepsInv(s, es[..|es| - 1]);
      HoldersStayReserved(before.state, es[|es| - 1]);
      ReservationsStayHeld(before.state, es[|es| - 1]);
      KernelLockStays(before.state, es[|es| - 1]);
    }
  }

  /** Over every interleaving of processes, tasks and crashes: at most one task is inside its operation
      for a path, its process has the kernel lock, and no other task of that process has the lock file
      open -- so nothing the process closes can take the lock away. */
  lemma MutualExclusion(s: System, es: seq<Event>, t: TaskId)
    requires Initial(s) && Run(s, es).Reaches?
    requires At(Run(s, es).state, t, Operating)
    ensures var now := Run(s, es).state;
            var me := now.tasks[t];
            && me.path in now.kernel && now.kernel[me.path] == me.process
            && (forall u :: At(now, u, Operating) && now.tasks[u].path == me.path ==> u == t)
            && (forall u | u in now.tasks && u != t && now.tasks[u].process == me.process
                           && now.tasks[u].path == me.path :: !HasFileOpen(now.tasks[u].place))
  {
    RunKeepsInv(s, es);
  }

  /** No reservation outlives the calls that placed it: each one is some live task's. */
  lemma ReservationsNeverLeak(s: System, es: seq<Event>, p: Process, path: string)
    requires Initial(s) && Run(s, es).Reaches?
    requires (p, path) in Run(s, es).state.reserved
    ensures exists t :: HeldBy(Run(s, es).state, (p, path), t)
  {
    RunKeepsInv(s, es);
  }

  lemma OneMore(s: System, es: seq<Event>, e: Event)
    requires Run(s, es).Reaches? && Enabled(Run(s, es).state, e)
    ensures Run(s, es + [e]) == Reaches(Apply(Run(s, es).state, e))
  {
    assert (es + [e])[..|es|] == es;
  }

  /** Four steps that take the lock when tasks skip the reservation check. */
  lemma EntersUnguarded(s: System, es: seq<Event>, t: TaskId, p: Process, path: string) returns (longer: seq<Event>)
    requires Run(s, es).Reaches?
    requires var now := Run(s, es).state; !now.guarded && t !in now.tasks && LockFree(now, path, p)
    ensures Run(s, longer).Reaches?
    ensures var now, then_ := Run(s, es).state, Run(s, longer).state;
            && !then_.guarded && then_.tasks == now.tasks[t := Task(p, path, Operating)]
            && then_.kernel == now.kernel[path := p]
  {
    longer := es;
    OneMore(s, longer, Enter(t, p, path));
    longer := longer + [Enter(t, p, path)];
    OneMore(s, longer, Reserve(t));
    longer := longer + [Reserve(t)];
    OneMore(s, longer, Open(t));
    longer := longer + [Open(t)];
    OneMore(s, longer, Lock(t));
    longer := longer + [Lock(t)];
  }

  /** Five steps of a task that opens the file, is cancelled, and closes its descriptor. */
  lemma OpensAndCloses(s: System, es: seq<Event>, t: TaskId, p: Process, path: string) returns (longer: seq<Event>)
    requires Run(s, es).Reaches?
    requires var now := Run(s, es).state; !now.guarded && t !in now.tasks
    ensures Run(s, longer).Reaches?
    ensures var now, then_ := Run(s, es).state, Run(s, longer).state;
            && !then_.guarded && then_.tasks == now.tasks[t := Task(p, path, Unreserving)]
            && then_.kernel == Dropped(now.kernel, path, p)
  {
    longer := es;
    OneMore(s, longer, Enter(t, p, path));
    longer := longer + [Enter(t, p, path)];
    OneMore(s, longer, Reserve(t));
    longer := longer + [Reserve(t)];
    OneMore(s, longer, Open(t));
    longer := longer + [Open(t)];
    OneMore(s, longer, LockFails(t));
    longer := longer + [LockFails(t)];
    OneMore(s, longer, Close(t));
    longer := longer + [Close(t)];
  }

  /** Without the reservation the kernel lock alone does not exclude: a second task of the process that
      gives up closes its descriptor, which drops the lock the first is operating under, and a task of
      another process walks in. */
  lemma KernelLockAloneDoesNotExclude(path: string) returns (es: seq<Event>, t: TaskId, u: TaskId)
    ensures var r := Run(System(false, map[], {}, map[]), es);
            && r.Reaches? && t != u && At(r.state, t, Operating) && At(r.state, u, Operating)
            && r.state.tasks[t].path == path && r.state.tasks[u].path == path
  {
    var s := System(false, map[], {}, map[]);
    t, u := 1, 3;
    es := EntersUnguarded(s, [], t, 10, path);
    es := OpensAndCloses(s, es, 2, 10, path);
    es := EntersUnguarded(s, es, u, 20, path);
  }

  // ---------------------------------------------------------------- one call of the lock

  type Duration = d: real | d >= 0.0 witness 0.0

  /** How the body of the call ended. */
  datatype Body = Done | OperationThrew | Cancelled | TimedOut | OpenThrew | LockThrew

  datatype Cleanup = Clean | UnlockThrew | CloseThrew

  datatype CloseFault = ClosesWell | ClosesAndThrows | KeepsOpenAndThrows

  /** The places where a call suspends and the rest of the system runs. */
  datatype Moment = Waiting(k: nat) | BeforeOpen | AfterOpen | DuringOperation | BeforeClose | AfterClose

  /** The adversary of one call. `others`: the steps the rest of the system takes at a suspension;
      `delay(k)`: how long the k-th wait oversleeps; `aborted(k)`, `lockError(k)`: what the k-th look at
      the signal, and the attempt to lock after k waits, find. */
  datatype Env = Env(others: Moment -> seq<Event>, delay: nat -> Duration, aborted: nat -> bool,
                     abortedWaiting: nat -> bool, openFails: bool, lockError: nat -> bool,
                     operationFails: bool, unlockFails: bool, close: CloseFault)

  const RETRY_DELAY := 10.0

  /** The number of waits of ten milliseconds that fit before a deadline, rounded up. */
  function MaxWaits(timeout: real): (n: nat)
    ensures timeout <= RETRY_DELAY * n as real
    ensures n > 0 ==> RETRY_DELAY * (n - 1) as real < timeout
  {
    if timeout <= 0.0 then 0 else
      var n := (timeout / RETRY_DELAY).Floor;
      if n as real * RETRY_DELAY == timeout then n else n + 1
  }

  predicate IsOf(e: Event, t: TaskId) {
    !e.Crash? && e.task == t
  }

  /** The steps of one task, in order. */
  function StepsOf(log: seq<Event>, t: TaskId): seq<Event>
    decreases |log|
  {
    if log == [] then []
    else StepsOf(log[..|log| - 1], t) + (if IsOf(log[|log| - 1], t) then [log[|log| - 1]] else [])
  }

  lemma StepsOfOneMore(log: seq<Event>, e: Event, t: TaskId)
    ensures StepsOf(log + [e], t) == StepsOf(log, t) + (if IsOf(e, t) then [e] else [])
  {
    assert (log + [e])[..|log|] == log;
  }

  /** Exactly the steps a call takes, by how far it came and how its body and cleanup ended. */
  datatype Report = Report(body: Body, cleanup: Cleanup, reserved: bool, fileOpened: bool, acquired: bool)

  function Script(t: TaskId, me: Process, path: string, r: Report, env: Env): seq<Event> {
    if !r.reserved then [Enter(t, me, path)] + [GiveUp(t)]
    else WithFileSteps([Enter(t, me, path)] + [Reserve(t)], t, r, env) + [Unreserve(t)]
  }

  function WithFileSteps(past: seq<Event>, t: TaskId, r: Report, env: Env): seq<Event> {
    if !r.fileOpened then past + [OpenFails(t)]
    else WithLockSteps(past + [Open(t)], t, r.acquired, env) + [CloseStep(t, env)]
  }

  function WithLockSteps(past: seq<Event>, t: TaskId, acquired: bool, env: Env): seq<Event> {
    if acquired then past + [Lock(t)] + [Leave(t)] + [UnlockStep(t, env)] else past + [LockFails(t)]
  }

  function UnlockStep(t: TaskId, env: Env): Event {
    if env.unlockFails then UnlockFails(t) else Unlock(t)
  }

  function CloseStep(t: TaskId, env: Env): Event {
    if env.close == KeepsOpenAndThrows then CloseFails(t) else Close(t)
  }

  /** None of the first `waits` waits was cancelled, nor did any of the first `looks` looks find the signal
      aborted. */
  predicate Undisturbed(env: Env, waits: nat, looks: nat) {
    (forall k | 0 <= k < waits :: !env.abortedWaiting(k)) && (forall k | 0 <= k < looks :: !env.aborted(k))
  }

  /** The signal was found aborted at the very look, or during the very wait, the loop had come to. The loop
      that takes the kernel lock has one look more behind it. */
  predicate CancelledAt(env: Env, waits: nat, locking: bool) {
    var looks := if locking then waits + 1 else waits;
    || (Undisturbed(env, waits, looks) && env.aborted(looks))
    || (waits > 0 && Undisturbed(env, waits - 1, looks) && env.abortedWaiting(waits - 1))
  }

  lemma OneMoreLook(env: Env, waits: nat, looks: nat)
    requires Undisturbed(env, waits, looks) && !env.aborted(looks)
    ensures Undisturbed(env, waits, looks + 1)
  {
  }

  lemma OneMoreWait(env: Env, waits: nat, looks: nat)
    requires Undisturbed(env, waits, looks) && !env.abortedWaiting(waits)
    ensures Undisturbed(env, waits + 1, looks)
  {
  }

  /** As long as the deadline has not passed, another wait fits the bound. */
  lemma AnotherWaitFits(timeout: real, waits: nat)
    requires RETRY_DELAY * waits as real < timeout
    ensures waits < MaxWaits(timeout)
  {
  }

  /** At some instant since `from`, the path was reserved in this process, or another process had its lock. */
  ghost predicate Contended(start: System, log: seq<Event>, from: nat, me: Process, path: string, locking: bool) {
    exists k | from <= k <= |log| ::
      Run(start, log[..k]).Reaches? && Busy(Run(start, log[..k]).state, me, path, locking)
  }

  predicate Busy(s: System, me: Process, path: string, locking: bool) {
    if locking then !LockFree(s, path, me) else (me, path) in s.reserved
  }

  lemma ContentionStays(start: System, log: seq<Event>, longer: seq<Event>, from: nat, me: Process, path: string,
                        locking: bool)
    requires Contended(start, log, from, me, path, locking) && log <= longer
    ensures Contended(start, longer, from, me, path, locking)
  {
    var k :| from <= k <= |log| && Run(start, log[..k]).Reaches?
             && Busy(Run(start, log[..k]).state, me, path, locking);
    assert longer[..k] == log[..k];
  }

  class LockedProcess {
    const me: Process
    ghost const start: System
    /** All processes, their tasks and the kernel's lock table, as they stand now. */
    var system: System
    var now: real
    /** Every step taken since the start, by this process and the others. */
    ghost var log: seq<Event>

    constructor (me: Process, system: System, now: real)
      ensures Valid() && this.me == me && this.system == system && this.now == now && start == system && log == []
    {
      this.me, this.start, this.system, this.now, this.log := me, system, system, now, [];
    }

    ghost predicate Valid()
      reads this
    {
      Run(start, log) == Reaches(system)
    }

    /** One synchronous step. */
    method Take(e: Event)
      requires Valid() && Enabled(system, e)
      modifies `system, `log
      ensures Valid() && system == Apply(old(system), e) && log == old(log) + [e] && old(log) <= log
      ensures forall t :: StepsOf(log, t) == StepsOf(old(log), t) + (if IsOf(e, t) then [e] else [])
    {
      OneMore(start, log, e);
      forall t ensures StepsOf(log + [e], t) == StepsOf(log, t) + (if IsOf(e, t) then [e] else []) {
        StepsOfOneMore(log, e, t);
      }
      system := Apply(system, e);
      log := log + [e];
    }

    /** The task stands at `place`, and `steps` are the steps it has taken itself. */
    ghost predicate Stands(t: TaskId, path: string, place: Place, steps: seq<Event>)
      reads this
    {
      && Valid() && system.guarded && t in system.tasks && system.tasks[t] == Task(me, path, place)
      && StepsOf(log, t) == steps
    }

    /** A synchronous step of the task itself. */
    method Advance(t: TaskId, path: string, place: Place, e: Event)
      requires Stands(t, path, place, StepsOf(log, t)) && IsOf(e, t) && Enabled(system, e)
      requires t in Apply(system, e).tasks
      modifies `system, `log
      ensures old(t in Apply(system, e).tasks)
      ensures Stands(t, path, old(Apply(system, e).tasks[t].place), old(StepsOf(log, t)) + [e])
      ensures old(log) <= log
    {
      Take(e);
    }

    /** The last step of the task. */
    method Depart(t: TaskId, path: string, place: Place, e: Event)
      requires Stands(t, path, place, StepsOf(log, t)) && IsOf(e, t) && Enabled(system, e)
      requires t !in Apply(system, e).tasks
      modifies `system, `log
      ensures Valid() && t !in system.tasks && StepsOf(log, t) == old(StepsOf(log, t)) + [e] && old(log) <= log
    {
      Take(e);
    }

    method Arrive(t: TaskId, path: string)
      requires Valid() && system.guarded && t !in system.tasks && StepsOf(log, t) == []
      modifies `system, `log
      ensures Stands(t, path, Reserving, [Enter(t, me, path)]) && old(log) <= log
      ensures system.reserved == old(system).reserved
    {
      Take(Enter(t, me, path));
    }

    /** At a suspension the others take whatever steps they can; this task stands still. */
    method Suspend(t: TaskId, path: string, place: Place, others: seq<Event>)
      requires Stands(t, path, place, StepsOf(log, t))
      modifies `system, `log
      ensures Stands(t, path, place, old(StepsOf(log, t))) && old(log) <= log
    {
      for i := 0 to |others|
        invariant Stands(t, path, place, old(StepsOf(log, t))) && old(log) <= log
      {
        if !IsOf(others[i], t) && others[i] != Crash(me) && Enabled(system, others[i]) { Take(others[i]); }
      }
    }

    /** Waits at least ten milliseconds, or is cancelled while waiting. */
    method WaitForRetry(t: TaskId, path: string, place: Place, k: nat, env: Env) returns (cancelled: bool)
      requires Stands(t, path, place, StepsOf(log, t))
      modifies this
      ensures Stands(t, path, place, old(StepsOf(log, t))) && old(log) <= log
      ensures cancelled == env.abortedWaiting(k)
      ensures now >= old(now) && (!cancelled ==> now >= old(now) + RETRY_DELAY)
    {
      Suspend(t, path, place, env.others(Waiting(k)));
      now := now + env.delay(k);
      if env.abortedWaiting(k) { return true; }
      now := now + RETRY_DELAY;
      return false;
    }

    /** One more wait before the deadline, which still fits the bound. */
    method WaitOnce(t: TaskId, path: string, place: Place, waits: nat, started: real, timeout: real, env: Env)
      returns (cancelled: bool)
      requires Stands(t, path, place, StepsOf(log, t)) && Waited(started, waits) && now < started + timeout
      modifies this
      ensures Stands(t, path, place, old(StepsOf(log, t))) && old(log) <= log
      ensures cancelled == env.abortedWaiting(waits) && (!cancelled ==> Waited(started, waits + 1))
      ensures waits + 1 <= MaxWaits(timeout)
    {
      AnotherWaitFits(timeout, waits);
      cancelled := WaitForRetry(t, path, place, waits, env);
    }

    ghost predicate Waited(started: real, waits: nat)
      reads this
    {
      now >= started + RETRY_DELAY * waits as real
    }

    /** Each failure of a waiting loop has its cause where the loop had come to: a cancellation right there, a
        timeout after contention and without any cancellation, a lock error likewise. */
    ghost predicate FailureIsDue(failure: Body, locking: bool, waits: nat, started: real, timeout: real, env: Env)
      reads this
    {
      var looks := if locking then waits + 2 else waits + 1;
      match failure
      case Cancelled => CancelledAt(env, waits, locking)
      case TimedOut => Undisturbed(env, waits, looks) && now >= started + timeout
      case LockThrew => locking && Undisturbed(env, waits, looks) && env.lockError(waits)
      case _ => false
    }

    /** Reserves the path inside this process before its file is opened. */
    method ReservePath(t: TaskId, path: string, started: real, timeout: real, env: Env)
      returns (failure: Option<Body>, waits: nat)
      requires Stands(t, path, Reserving, StepsOf(log, t)) && started == now
      modifies this
      ensures waits <= MaxWaits(timeout) && old(log) <= log
      ensures failure.None? ==> Waited(started, waits) && Undisturbed(env, waits, waits + 1)
                                && Stands(t, path, Opening, old(StepsOf(log, t)) + [Reserve(t)])
      ensures failure.Some? ==> Stands(t, path, Reserving, old(StepsOf(log, t)))
                                && FailureIsDue(failure.value, false, waits, started, timeout, env)
      ensures failure == Some(TimedOut) ==> (me, path) in system.reserved
      ensures !env.aborted(0) && (me, path) !in old(system).reserved ==> failure.None? && waits == 0
    {
      waits := 0;
      while true
        invariant Stands(t, path, Reserving, old(StepsOf(log, t))) && old(log) <= log
        invariant Undisturbed(env, waits, waits)
        invariant waits == 0 ==> system == old(system)
        invariant waits > 0 ==> (me, path) in old(system).reserved
        invariant Waited(started, waits)
        invariant waits <= MaxWaits(timeout)
        decreases MaxWaits(timeout) - waits
      {
        if env.aborted(waits) { return Some(Cancelled), waits; }
        OneMoreLook(env, waits, waits);
        if (me, path) !in system.reserved {
          Advance(t, path, Reserving, Reserve(t));
          return None, waits;
        }
        if now >= started + timeout { return Some(TimedOut), waits; }
        var cancelled := WaitOnce(t, path, Reserving, waits, started, timeout, env);
        waits := waits + 1;
        if cancelled { return Some(Cancelled), waits; }
        OneMoreWait(env, waits - 1, waits);
      }
    }

    /** Takes the kernel lock, retrying while another process has it. */
    method TakeKernelLock(t: TaskId, path: string, started: real, timeout: real, waited: nat, env: Env)
      returns (failure: Option<Body>, waits: nat)
      requires Stands(t, path, Locking, StepsOf(log, t)) && Undisturbed(env, waited, waited + 1)
      requires Waited(started, waited) && waited <= MaxWaits(timeout)
      modifies this
      ensures waits <= MaxWaits(timeout) && old(log) <= log
      ensures failure.None? ==> Stands(t, path, Operating, old(StepsOf(log, t)) + [Lock(t)])
                                && Undisturbed(env, waits, waits + 2) && !env.lockError(waits)
      ensures failure.Some? ==> Stands(t, path, Locking, old(StepsOf(log, t)))
                                && FailureIsDue(failure.value, true, waits, started, timeout, env)
      ensures failure == Some(TimedOut) ==> !LockFree(system, path, me) && !env.lockError(waits)
      ensures !env.aborted(waited + 1) && !env.lockError(waited) && LockFree(old(system), path, me) ==>
                failure.None? && waits == waited
    {
      waits := waited;
      while true
        invariant Stands(t, path, Locking, old(StepsOf(log, t))) && old(log) <= log
        invariant Undisturbed(env, waits, waits + 1)
        invariant waits >= waited && (waits == waited ==> system == old(system))
        invariant waits > waited ==> !LockFree(old(system), path, me)
        invariant Waited(started, waits)
        invariant waits <= MaxWaits(timeout)
        decreases MaxWaits(timeout) - waits
      {
        if env.aborted(waits + 1) { return Some(Cancelled), waits; }
        OneMoreLook(env, waits, waits + 1);
        if env.lockError(waits) { return Some(LockThrew), waits; }
        if LockFree(system, path, me) {
          Advance(t, path, Locking, Lock(t));
          return None, waits;
        }
        if now >= started + timeout { return Some(TimedOut), waits; }
        var cancelled := WaitOnce(t, path, Locking, waits, started, timeout, env);
        waits := waits + 1;
        if cancelled { return Some(Cancelled), waits; }
        OneMoreWait(env, waits - 1, waits + 1);
      }
    }

    /** Runs the operation and releases the kernel lock, whether or not the operation threw. */
    method Operate(t: TaskId, path: string, env: Env)
      requires Stands(t, path, Operating, StepsOf(log, t))
      modifies this
      ensures now == old(now) && old(log) <= log
      ensures Stands(t, path, Closing, old(StepsOf(log, t)) + [Leave(t)] + [UnlockStep(t, env)])
    {
      Suspend(t, path, Operating, env.others(DuringOperation));
      Advance(t, path, Operating, Leave(t));
      Advance(t, path, Unlocking, UnlockStep(t, env));
    }

    /** Closes the descriptor; the reservation goes afterwards, even when closing throws. */
    method CloseFile(t: TaskId, path: string, env: Env)
      requires Stands(t, path, Closing, StepsOf(log, t))
      modifies this
      ensures now == old(now) && old(log) <= log
      ensures Stands(t, path, Unreserving, old(StepsOf(log, t)) + [CloseStep(t, env)])
    {
      Suspend(t, path, Closing, env.others(BeforeClose));
      Advance(t, path, Closing, CloseStep(t, env));
      Suspend(t, path, Unreserving, env.others(AfterClose));
    }

    /** What the process sees now, it has seen. */
    lemma SeenNow(from: nat, path: string, locking: bool)
      requires Valid() && from <= |log|
      requires Busy(system, me, path, locking)
      ensures Contended(start, log, from, me, path, locking)
      ensures forall longer :: log <= longer ==> Contended(start, longer, from, me, path, locking)
    {
      assert log[..|log|] == log;
      forall longer | log <= longer ensures Contended(start, longer, from, me, path, locking) {
        ContentionStays(start, log, longer, from, me, path, locking);
      }
    }

    /** Locks, runs the operation or does not, and unlocks. */
    method LockAndOperate(t: TaskId, path: string, started: real, timeout: real, waited: nat, env: Env)
      returns (body: Body, waits: nat)
      requires Stands(t, path, Locking, StepsOf(log, t)) && Undisturbed(env, waited, waited + 1)
      requires Waited(started, waited) && waited <= MaxWaits(timeout)
      modifies this
      ensures waits <= MaxWaits(timeout) && old(log) <= log
      ensures var acquired := body == Done || body == OperationThrew;
              && Stands(t, path, Closing, WithLockSteps(old(StepsOf(log, t)), t, acquired, env))
              && (if acquired then && (body == OperationThrew <==> env.operationFails)
                                   && Undisturbed(env, waits, waits + 2) && !env.lockError(waits)
                  else FailureIsDue(body, true, waits, started, timeout, env))
      ensures body == TimedOut ==> Contended(start, log, |old(log)|, me, path, true)
    {
      var failure;
      failure, waits := TakeKernelLock(t, path, started, timeout, waited, env);
      if failure.Some? {
        body := failure.value;
        if body == TimedOut { SeenNow(|old(log)|, path, true); }
        Advance(t, path, Locking, LockFails(t));
      } else {
        body := if env.operationFails then OperationThrew else Done;
        Operate(t, path, env);
      }
    }

    /** Opens the file, runs the operation under the kernel lock, and closes the file. */
    method UseFile(t: TaskId, path: string, started: real, timeout: real, waited: nat, env: Env)
      returns (r: Report, waits: nat)
      requires Stands(t, path, Opening, StepsOf(log, t)) && Undisturbed(env, waited, waited + 1)
      requires Waited(started, waited) && waited <= MaxWaits(timeout)
      modifies this
      ensures r.reserved && waits <= MaxWaits(timeout) && old(log) <= log
      ensures Stands(t, path, Unreserving, WithFileSteps(old(StepsOf(log, t)), t, r, env))
      ensures Explained(r, waits, started, timeout, env)
      ensures r.body == TimedOut ==> Contended(start, log, |old(log)|, me, path, true)
    {
      Suspend(t, path, Opening, env.others(BeforeOpen));
      if env.openFails {
        Advance(t, path, Opening, OpenFails(t));
        return Report(OpenThrew, Clean, true, false, false), waited;
      }
      Advance(t, path, Opening, Open(t));
      Suspend(t, path, Locking, env.others(AfterOpen));
      var body;
      ghost var before := |log|;
      body, waits := LockAndOperate(t, path, started, timeout, waited, env);
      ghost var locked := log;
      var acquired := body == Done || body == OperationThrew;
      var cleanup := if acquired && env.unlockFails then UnlockThrew else Clean;
      CloseFile(t, path, env);
      if env.close != ClosesWell { cleanup := CloseThrew; }
      if body == TimedOut {
        ContentionStays(start, locked, log, before, me, path, true);
        assert |old(log)| <= before;
      }
      return Report(body, cleanup, true, true, acquired), waits;
    }

    /** Every failure has its cause: the operation ran exactly when the lock was taken, an error while
        closing hides one while unlocking, and either hides how the body ended. */
    ghost predicate Explained(r: Report, waits: nat, started: real, timeout: real, env: Env)
      reads this
    {
      && (r.acquired <==> r.body == Done || r.body == OperationThrew)
      && (r.acquired ==> (r.body == OperationThrew <==> env.operationFails))
      && (!r.reserved ==> !r.fileOpened && !r.acquired)
      && (r.reserved ==> (r.body == OpenThrew <==> env.openFails) && (r.fileOpened <==> !env.openFails))
      && (r.acquired ==> Undisturbed(env, waits, waits + 2) && !env.lockError(waits))
      && (r.reserved && env.openFails ==> Undisturbed(env, waits, waits + 1))
      && (!r.acquired && !(r.reserved && env.openFails) ==>
            FailureIsDue(r.body, r.reserved, waits, started, timeout, env))
      && r.cleanup == (if r.fileOpened && env.close != ClosesWell then CloseThrew
                       else if r.acquired && env.unlockFails then UnlockThrew else Clean)
    }

    /** One bounded call of the lock. Its own steps are exactly the script of its outcome, so the
        reservation is removed last, and exactly when this call placed it; both waiting loops together
        wait a bounded number of times. */
    method WithCredentialLock(t: TaskId, path: string, timeout: real, env: Env) returns (r: Report, waits: nat)
      requires Valid() && system.guarded && t !in system.tasks && StepsOf(log, t) == []
      modifies this
      ensures Valid() && t !in system.tasks && waits <= MaxWaits(timeout)
      ensures StepsOf(log, t) == Script(t, me, path, r, env)
      ensures Explained(r, waits, old(now), timeout, env)
      ensures r.body == TimedOut ==> Contended(start, log, |old(log)|, me, path, r.reserved)
      ensures env.aborted(0) ==> r == Report(Cancelled, Clean, false, false, false) && waits == 0
      ensures !env.aborted(0) && (me, path) !in old(system).reserved ==> r.reserved
    {
      var started := now;
      Arrive(t, path);
      var failure;
      failure, waits := ReservePath(t, path, started, timeout, env);
      if failure.Some? {
        if failure == Some(TimedOut) { SeenNow(|old(log)|, path, false); }
        Depart(t, path, Reserving, GiveUp(t));
        return Report(failure.value, Clean, false, false, false), waits;
      }
      ghost var before := |log|;
      r, waits := UseFile(t, path, started, timeout, waits, env);
      ghost var used := log;
      Depart(t, path, Unreserving, Unreserve(t));
      if r.body == TimedOut {
        ContentionStays(start, used, log, before, me, path, true);
        assert |old(log)| <= before;
      }
    }
  }
}
