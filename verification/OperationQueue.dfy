/** One queue of operations per capability: each operation is chained behind the one submitted before it
    on the same capability, whether that one fulfils or rejects. Capabilities run independently. */
module OperationQueue {
  import opened Options

  type Capability = nat

  datatype Kind = ResetOperation | RestartOperation | PrepareOperation | StopOperation

  /** `Admitted`: running, and found its record registered; `Refused`: found none, and touches nothing. */
  datatype Status = Waiting | Admitted | Refused | Settled(fulfilled: bool)

  datatype Operation = Operation(capability: Capability, kind: Kind, predecessor: Option<nat>, status: Status)

  /** `tails`: the last operation chained on each capability. `issued`: capabilities ever handed out,
      each a fresh object. `touched`: which operations reached an adapter, in order. */
  datatype State = State(operations: seq<Operation>, tails: map<Capability, nat>,
                         issued: set<Capability>, registered: set<Capability>, touched: seq<nat>)

  datatype Event =
    | Issue(capability: Capability)
    | Submit(capability: Capability, kind: Kind)
    | Begin(operation: nat)
    | Touch(operation: nat)
    | Settle(operation: nat, fulfilled: bool, cleaned: bool)
    | ForgetTail(operation: nat)

  predicate Stands(s: State, i: nat, status: Status) {
    i < |s.operations| && s.operations[i].status == status
  }

  predicate IsSettled(s: State, i: nat) {
    i < |s.operations| && s.operations[i].status.Settled?
  }

  predicate Running(s: State, i: nat) {
    i < |s.operations| && (s.operations[i].status == Admitted || s.operations[i].status == Refused)
  }

  predicate Enabled(s: State, e: Event) {
    match e
    case Issue(c) => c !in s.issued
    case Submit(_, _) => true
    case Begin(i) =>
      Stands(s, i, Waiting)
      && (s.operations[i].predecessor.Some? ==> IsSettled(s, s.operations[i].predecessor.value))
    case Touch(i) => Stands(s, i, Admitted)
    case Settle(i, _, _) => Running(s, i)
    case ForgetTail(i) =>
      IsSettled(s, i) && s.operations[i].capability in s.tails && s.tails[s.operations[i].capability] == i
  }

  function SetStatus(s: State, i: nat, status: Status): State
    requires i < |s.operations|
  {
    s.(operations := s.operations[i := s.operations[i].(status := status)])
  }

  /** A stop that cleaned up forgets the capability's record. */
  predicate Unregisters(s: State, i: nat, fulfilled: bool, cleaned: bool) {
    Stands(s, i, Admitted) && s.operations[i].kind == StopOperation && fulfilled && cleaned
  }

  function Apply(s: State, e: Event): State
    requires Enabled(s, e)
  {
    match e
    case Issue(c) => s.(issued := s.issued + {c}, registered := s.registered + {c})
    case Submit(c, kind) =>
      s.(operations := s.operations + [Operation(c, kind, if c in s.tails then Some(s.tails[c]) else None, Waiting)],
         tails := s.tails[c := |s.operations|])
    case Begin(i) => SetStatus(s, i, if s.operations[i].capability in s.registered then Admitted else Refused)
    case Touch(i) => s.(touched := s.touched + [i])
    case Settle(i, fulfilled, cleaned) =>
      SetStatus(s, i, Settled(fulfilled)).(registered :=
        if Unregisters(s, i, fulfilled, cleaned) then s.registered - {s.operations[i].capability} else s.registered)
    case ForgetTail(i) => s.(tails := s.tails - {s.operations[i].capability})
  }

  /** The state after a sequence of events, when each is enabled where it happens. */
  function Run(s: State, es: seq<Event>): Option<State>
    decreases |es|
  {
    if es == [] then Some(s)
    else
      var before := Run(s, es[..|es| - 1]);
      if before.Some? && Enabled(before.value, es[|es| - 1]) then Some(Apply(before.value, es[|es| - 1])) else None
  }

  predicate Initial(s: State) {
    s == State([], map[], {}, {}, [])
  }

  predicate Same(s: State, i: nat, j: nat)
    requires i < |s.operations| && j < |s.operations|
  {
    s.operations[i].capability == s.operations[j].capability
  }

  /** An operation that has begun has every earlier one on its capability behind it. */
  ghost predicate InOrder(s: State) {
    forall i, j | 0 <= i < j < |s.operations| && Same(s, i, j) && s.operations[j].status != Waiting ::
      s.operations[i].status.Settled?
  }

  /** An operation waits for an earlier one on its own capability. */
  ghost predicate PointsBack(s: State) {
    forall j | 0 <= j < |s.operations| && s.operations[j].predecessor.Some? ::
      s.operations[j].predecessor.value < j && Same(s, s.operations[j].predecessor.value, j)
  }

  /** No unsettled operation of its capability lies between an operation and what it waits for. */
  ghost predicate Covers(s: State) {
    forall i, j | 0 <= i < j < |s.operations| && Same(s, i, j) && !s.operations[i].status.Settled? ::
      s.operations[j].predecessor.Some? && i <= s.operations[j].predecessor.value
  }

  /** The tail of a capability is its last operation; without a tail every operation has settled. */
  ghost predicate TailIsLast(s: State) {
    && (forall c | c in s.tails :: s.tails[c] < |s.operations| && s.operations[s.tails[c]].capability == c)
    && (forall i | 0 <= i < |s.operations| && !s.operations[i].status.Settled? ::
          s.operations[i].capability in s.tails && i <= s.tails[s.operations[i].capability])
  }

  predicate RecordsAreIssued(s: State) {
    && s.registered <= s.issued
    && forall i | 0 <= i < |s.operations| && s.operations[i].status == Admitted ::
         s.operations[i].capability in s.issued
  }

  predicate TouchesAreKnown(s: State) {
    forall k | 0 <= k < |s.touched| :: s.touched[k] < |s.operations|
  }

  ghost predicate Inv(s: State) {
    InOrder(s) && PointsBack(s) && Covers(s) && TailIsLast(s)
    && TouchesAreKnown(s) && RecordsAreIssued(s)
  }

  /** An operation begins only once everything before it on its capability has settled. */
  lemma BeginWaits(s: State, i: nat)
    requires InOrder(s) && PointsBack(s) && Covers(s) && Enabled(s, Begin(i))
    ensures forall k | 0 <= k < i && Same(s, k, i) :: s.operations[k].status.Settled?
  {
    if s.operations[i].predecessor.Some? {
      assert s.operations[s.operations[i].predecessor.value].status != Waiting;
    }
  }

  lemma BeginKeepsOrder(s: State, i: nat)
    requires InOrder(s) && Enabled(s, Begin(i))
    requires forall k | 0 <= k < i && Same(s, k, i) :: s.operations[k].status.Settled?
    ensures InOrder(Apply(s, Begin(i)))
  {
  }

  lemma OthersKeepOrder(s: State, e: Event)
    requires InOrder(s) && Enabled(s, e) && !e.Begin?
    ensures InOrder(Apply(s, e))
  {
  }

  lemma StepPointsBack(s: State, e: Event)
    requires PointsBack(s) && TailIsLast(s) && Enabled(s, e)
    ensures PointsBack(Apply(s, e))
  {
  }

  lemma StepCovers(s: State, e: Event)
    requires Covers(s) && TailIsLast(s) && Enabled(s, e)
    ensures Covers(Apply(s, e))
  {
    if e.Submit? { SubmitCovers(s, e); } else { OthersCover(s, e); }
  }

  lemma SubmitCovers(s: State, e: Event)
    requires Covers(s) && TailIsLast(s) && e.Submit?
    ensures Covers(Apply(s, e))
  {
    var after := Apply(s, e);
    assert forall i | 0 <= i < |s.operations| :: after.operations[i] == s.operations[i];
  }

  /** Other events only change the status of one operation, never back to unsettled. */
  lemma OthersCover(s: State, e: Event)
    requires Covers(s) && Enabled(s, e) && !e.Submit?
    ensures Covers(Apply(s, e))
  {
    var after := Apply(s, e);
    forall i | 0 <= i < |s.operations|
      ensures after.operations[i] == s.operations[i].(status := after.operations[i].status)
      ensures !after.operations[i].status.Settled? ==> !s.operations[i].status.Settled?
    {
    }
  }

  /** When the tail has settled, so has everything before it. */
  lemma SettledTailIsAll(s: State, i: nat)
    requires InOrder(s) && TailIsLast(s) && Enabled(s, ForgetTail(i))
    ensures TailIsLast(Apply(s, ForgetTail(i)))
  {
  }

  lemma StepKeepsTail(s: State, e: Event)
    requires TailIsLast(s) && Enabled(s, e) && !e.ForgetTail?
    ensures TailIsLast(Apply(s, e))
  {
  }

  lemma StepKeepsInv(s: State, e: Event)
    requires Inv(s) && Enabled(s, e)
    ensures Inv(Apply(s, e))
  {
    if e.Begin? {
      BeginWaits(s, e.operation);
      BeginKeepsOrder(s, e.operation);
    } else {
      OthersKeepOrder(s, e);
    }
    StepPointsBack(s, e);
    StepCovers(s, e);
    if e.ForgetTail? { SettledTailIsAll(s, e.operation); } else { StepKeepsTail(s, e); }
    StepKnowsTouches(s, e);
    StepIssues(s, e);
  }

  lemma StepKnowsTouches(s: State, e: Event)
    requires TouchesAreKnown(s) && Enabled(s, e)
    ensures TouchesAreKnown(Apply(s, e))
  {
  }

  lemma StepIssues(s: State, e: Event)
    requires RecordsAreIssued(s) && Enabled(s, e)
    ensures RecordsAreIssued(Apply(s, e))
  {
  }

  lemma {:induction false} RunKeepsInv(s: State, es: seq<Event>)
    requires Inv(s) && Run(s, es).Some?
    ensures Inv(Run(s, es).value)
    decreases |es|
  {
    if es != [] {
      RunKeepsInv(s, es[..|es| - 1]);
      StepKeepsInv(Run(s, es[..|es| - 1]).value, es[|es| - 1]);
    }
  }

  /** Operations on one capability never overlap, and begin in the order they were submitted, even when
      earlier ones reject. */
  lemma OperationsNeverOverlap(s: State, es: seq<Event>, i: nat, j: nat)
    requires Initial(s) && Run(s, es).Some?
    requires var now := Run(s, es).value;
             i < j < |now.operations| && Same(now, i, j) && now.operations[j].status != Waiting
    ensures Run(s, es).value.operations[i].status.Settled?
  {
    RunKeepsInv(s, es);
  }

  // ---------------------------------------------------------------- after a successful stop

  /** The capability is gone, and nothing on it runs with its record. */
  ghost predicate Gone(s: State, c: Capability) {
    && c in s.issued && c !in s.registered
    && forall i | 0 <= i < |s.operations| && s.operations[i].capability == c :: s.operations[i].status != Admitted
  }

  lemma StopLeavesNothingAdmitted(s: State, i: nat, fulfilled: bool, cleaned: bool)
    requires Inv(s) && Unregisters(s, i, fulfilled, cleaned)
    ensures Gone(Apply(s, Settle(i, fulfilled, cleaned)), s.operations[i].capability)
  {
  }

  /** How many adapter calls the operations of a capability have made. */
  function TouchesOf(s: State, c: Capability): nat {
    |set k | 0 <= k < |s.touched| && s.touched[k] < |s.operations| && s.operations[s.touched[k]].capability == c|
  }

  lemma GoneStaysGone(s: State, e: Event, c: Capability)
    requires Gone(s, c) && TouchesAreKnown(s) && Enabled(s, e)
    ensures Gone(Apply(s, e), c) && TouchesAreKnown(Apply(s, e))
    ensures TouchesOf(Apply(s, e), c) == TouchesOf(s, c)
  {
    var after := Apply(s, e);
    var had := set k | 0 <= k < |s.touched| && s.touched[k] < |s.operations|
                       && s.operations[s.touched[k]].capability == c;
    var has := set k | 0 <= k < |after.touched| && after.touched[k] < |after.operations|
                       && after.operations[after.touched[k]].capability == c;
    assert had == has;
  }

  lemma {:induction false} GoneForever(s: State, es: seq<Event>, c: Capability)
    requires Gone(s, c) && TouchesAreKnown(s) && Run(s, es).Some?
    ensures Gone(Run(s, es).value, c) && TouchesAreKnown(Run(s, es).value)
    ensures TouchesOf(Run(s, es).value, c) == TouchesOf(s, c)
    decreases |es|
  {
    if es != [] {
      GoneForever(s, es[..|es| - 1], c);
      GoneStaysGone(Run(s, es[..|es| - 1]).value, es[|es| - 1], c);
    }
  }

  /** Once a stop has succeeded on a capability, no operation queued or submitted later on it reaches any
      adapter, however long the run goes on. */
  lemma NothingIsTouchedAfterStop(s: State, es: seq<Event>, i: nat, later: seq<Event>)
    requires Initial(s) && Run(s, es).Some? && Unregisters(Run(s, es).value, i, true, true)
    requires Run(Apply(Run(s, es).value, Settle(i, true, true)), later).Some?
    ensures var c := Run(s, es).value.operations[i].capability;
            var stopped := Apply(Run(s, es).value, Settle(i, true, true));
            var now := Run(stopped, later).value;
            TouchesOf(now, c) == TouchesOf(stopped, c) && c !in now.registered
  {
    var c := Run(s, es).value.operations[i].capability;
    RunKeepsInv(s, es);
    StopLeavesNothingAdmitted(Run(s, es).value, i, true, true);
    GoneForever(Apply(Run(s, es).value, Settle(i, true, true)), later, c);
  }

  // ---------------------------------------------------------------- which operations run

  predicate IssuedIn(es: seq<Event>, c: Capability) {
    exists k | 0 <= k < |es| :: es[k] == Issue(c)
  }

  /** The k-th event is the end of a stop on the capability that found its record and cleaned up. */
  ghost predicate StopsAt(s: State, es: seq<Event>, k: nat, c: Capability) {
    && k < |es| && es[k].Settle? && es[k].fulfilled && es[k].cleaned && Run(s, es[..k]).Some?
    && Stands(Run(s, es[..k]).value, es[k].operation, Admitted)
    && Run(s, es[..k]).value.operations[es[k].operation].kind == StopOperation
    && Run(s, es[..k]).value.operations[es[k].operation].capability == c
  }

  ghost predicate StoppedIn(s: State, es: seq<Event>, c: Capability) {
    exists k :: StopsAt(s, es, k, c)
  }

  lemma StoppedInOneMore(s: State, es: seq<Event>, c: Capability)
    requires es != []
    ensures StoppedIn(s, es, c) <==> StoppedIn(s, es[..|es| - 1], c) || StopsAt(s, es, |es| - 1, c)
  {
    var front := es[..|es| - 1];
    forall k: nat | k < |front| ensures StopsAt(s, es, k, c) <==> StopsAt(s, front, k, c) {
      assert es[..k] == front[..k] && es[k] == front[k];
    }
    if k: nat :| StopsAt(s, es, k, c) { assert k < |front| ==> StopsAt(s, front, k, c); }
    if k: nat :| StopsAt(s, front, k, c) { assert StopsAt(s, es, k, c); }
  }

  lemma IssuedInOneMore(es: seq<Event>, c: Capability)
    requires es != []
    ensures IssuedIn(es, c) <==> IssuedIn(es[..|es| - 1], c) || es[|es| - 1] == Issue(c)
  {
    var front := es[..|es| - 1];
    assert forall k | 0 <= k < |front| :: front[k] == es[k];
  }

  /** A capability is registered exactly from its issue to the first stop on it that cleaned up. */
  lemma {:induction false} RegisteredExactlyWhen(s: State, es: seq<Event>, c: Capability)
    requires Initial(s) && Run(s, es).Some?
    ensures c in Run(s, es).value.issued <==> IssuedIn(es, c)
    ensures StoppedIn(s, es, c) ==> IssuedIn(es, c)
    ensures c in Run(s, es).value.registered <==> IssuedIn(es, c) && !StoppedIn(s, es, c)
    decreases |es|
  {
    if es != [] {
      var front := es[..|es| - 1];
      RegisteredExactlyWhen(s, front, c);
      RunKeepsInv(s, front);
      StoppedInOneMore(s, es, c);
      IssuedInOneMore(es, c);
      RegistersOneMore(Run(s, front).value, es[|es| - 1], c);
    }
  }

  /** What one event does to a registration. */
  lemma RegistersOneMore(s: State, e: Event, c: Capability)
    requires RecordsAreIssued(s) && Enabled(s, e)
    ensures c in Apply(s, e).issued <==> c in s.issued || e == Issue(c)
    ensures var stops := e.Settle? && e.fulfilled && e.cleaned && Stands(s, e.operation, Admitted)
                         && s.operations[e.operation].kind == StopOperation
                         && s.operations[e.operation].capability == c;
            && (c in Apply(s, e).registered <==> (c in s.registered || e == Issue(c)) && !stops)
            && (stops ==> c in s.issued)
    ensures e == Issue(c) ==> c !in s.issued
  {
  }

  /** An operation that begins runs with its record exactly when its capability was issued and no stop on it has
      cleaned up; otherwise it is refused. */
  lemma AdmittedExactlyWhen(s: State, es: seq<Event>, i: nat)
    requires Initial(s) && Run(s, es).Some? && Enabled(Run(s, es).value, Begin(i))
    ensures var before, after := Run(s, es).value, Apply(Run(s, es).value, Begin(i));
            var c := before.operations[i].capability;
            && (after.operations[i].status == Admitted <==> IssuedIn(es, c) && !StoppedIn(s, es, c))
            && (after.operations[i].status == Refused <==> !(IssuedIn(es, c) && !StoppedIn(s, es, c)))
            && forall j | 0 <= j < |before.operations| && j != i :: after.operations[j] == before.operations[j]
  {
    RegisteredExactlyWhen(s, es, Run(s, es).value.operations[i].capability);
  }

  lemma OneMoreEvent(s: State, es: seq<Event>, e: Event)
    requires Run(s, es).Some? && Enabled(Run(s, es).value, e)
    ensures Run(s, es + [e]) == Some(Apply(Run(s, es).value, e))
  {
    assert (es + [e])[..|es|] == es;
  }

  /** No operation waits forever: once those before it on its capability have run and settled, however they
      settle, it can begin. */
  lemma {:induction false} WaitingCanBegin(s: State, i: nat) returns (more: seq<Event>)
    requires PointsBack(s) && Stands(s, i, Waiting)
    ensures Run(s, more).Some? && |Run(s, more).value.operations| == |s.operations|
    ensures forall j | i <= j < |s.operations| :: Run(s, more).value.operations[j] == s.operations[j]
    ensures Enabled(Run(s, more).value, Begin(i))
    decreases i
  {
    more := [];
    if s.operations[i].predecessor.Some? {
      var p := s.operations[i].predecessor.value;
      if s.operations[p].status == Waiting {
        more := WaitingCanBegin(s, p);
        OneMoreEvent(s, more, Begin(p));
        more := more + [Begin(p)];
      }
      if !IsSettled(Run(s, more).value, p) {
        OneMoreEvent(s, more, Settle(p, false, false));
        more := more + [Settle(p, false, false)];
      }
    }
  }

  // ---------------------------------------------------------------- the controller's queues

  class Controller {
    var operations: seq<Operation>
    var operationQueues: map<Capability, nat>
    ghost var issued: set<Capability>
    var ownedRecords: set<Capability>
    var touched: seq<nat>

    constructor ()
      ensures Initial(View())
    {
      operations, operationQueues, issued, ownedRecords, touched := [], map[], {}, {}, [];
    }

    ghost function View(): State
      reads this
    {
      State(operations, operationQueues, issued, ownedRecords, touched)
    }

    /** Hands out a fresh capability for a leased run. */
    method CreateOwnedRun(ownedRun: Capability)
      requires ownedRun !in issued
      modifies `issued, `ownedRecords
      ensures View() == Apply(old(View()), Issue(ownedRun))
      ensures ownedRecords == old(ownedRecords) + {ownedRun}
    {
      issued := issued + {ownedRun};
      ownedRecords := ownedRecords + {ownedRun};
    }

    /** Chains an operation behind the capability's current tail and becomes the tail. */
    method Serialize(capability: Capability, kind: Kind) returns (current: nat)
      modifies `operations, `operationQueues
      ensures View() == Apply(old(View()), Submit(capability, kind))
      ensures current == |old(operations)| && operationQueues == old(operationQueues)[capability := current]
      ensures operations == old(operations) + [Operation(capability, kind,
                if capability in old(operationQueues) then Some(old(operationQueues)[capability]) else None, Waiting)]
    {
      var predecessor := None;
      if capability in operationQueues { predecessor := Some(operationQueues[capability]); }
      current := |operations|;
      operations := operations + [Operation(capability, kind, predecessor, Waiting)];
      operationQueues := operationQueues[capability := current];
    }

    /** The operation starts and looks up its record first. */
    method Start(i: nat)
      requires Enabled(View(), Begin(i))
      modifies `operations
      ensures View() == Apply(old(View()), Begin(i))
      ensures operations[i].status == if operations[i].capability in ownedRecords then Admitted else Refused
    {
      var admitted := operations[i].capability in ownedRecords;
      operations := operations[i := operations[i].(status := if admitted then Admitted else Refused)];
    }

    /** The operation ends; a stop that cleaned up deletes the record. */
    method Finish(i: nat, fulfilled: bool, cleaned: bool)
      requires Running(View(), i)
      modifies `operations, `ownedRecords
      ensures View() == Apply(old(View()), Settle(i, fulfilled, cleaned))
      ensures operations[i].status == Settled(fulfilled)
      ensures ownedRecords == old(ownedRecords)
                - if old(operations[i].status) == Admitted && operations[i].kind == StopOperation
                     && fulfilled && cleaned
                  then {operations[i].capability} else {}
    {
      var operation := operations[i];
      if operation.status == Admitted && operation.kind == StopOperation && fulfilled && cleaned {
        ownedRecords := ownedRecords - {operation.capability};
      }
      operations := operations[i := operation.(status := Settled(fulfilled))];
    }

    /** Drops the queue entry when the settled operation is still the tail. */
    method DropTail(i: nat)
      requires IsSettled(View(), i)
      modifies `operationQueues
      ensures View() == if Enabled(old(View()), ForgetTail(i)) then Apply(old(View()), ForgetTail(i)) else old(View())
    {
      var capability := operations[i].capability;
      if capability in operationQueues && operationQueues[capability] == i {
        operationQueues := operationQueues - {capability};
      }
    }
  }
}
