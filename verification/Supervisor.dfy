/** The supervisor: requests arrive on a socket and signals at any time; accepted actions run one at a time
    in arrival order; a stop waits for them all. */
module Supervisor {
  import opened Options

  datatype Status = Queued | Running | Settled(fulfilled: bool)

  /** One link of the promise chain: an accepted action, or the one stop of the controller. */
  datatype Link = Link(isStop: bool, predecessor: Option<nat>, status: Status)

  /** `tail`: what the next accepted action waits for. `stopOperation`: the link of the stop. */
  datatype State = State(links: seq<Link>, tail: Option<nat>, stopping: bool, stopOperation: Option<nat>)

  datatype Event =
    | Malformed
    | Action
    | StopRequest
    | Signal
    | Begin(link: nat)
    | Settle(link: nat, fulfilled: bool)

  predicate IsSettled(s: State, i: nat) {
    i < |s.links| && s.links[i].status.Settled?
  }

  predicate Enabled(s: State, e: Event) {
    match e
    case Begin(i) =>
      && i < |s.links| && s.links[i].status == Queued
      && (s.links[i].predecessor.Some? ==> IsSettled(s, s.links[i].predecessor.value))
    case Settle(i, _) => i < |s.links| && s.links[i].status == Running
    case _ => true
  }

  /** Chains the stop once; a later stop request finds it chained. */
  function ChainStop(s: State): State {
    if s.stopOperation.Some? then s.(stopping := true)
    else s.(links := s.links + [Link(true, s.tail, Queued)], stopOperation := Some(|s.links|), stopping := true)
  }

  function Apply(s: State, e: Event): State
    requires Enabled(s, e)
  {
    match e
    case Malformed => s
    case Action =>
      if s.stopping then s
      else s.(links := s.links + [Link(false, s.tail, Queued)], tail := Some(|s.links|))
    case StopRequest =>
      var chained := ChainStop(s);
      chained.(tail := chained.stopOperation)
    case Signal => if s.stopping then s else ChainStop(s)
    case Begin(i) => s.(links := s.links[i := s.links[i].(status := Running)])
    case Settle(i, fulfilled) => s.(links := s.links[i := s.links[i].(status := Settled(fulfilled))])
  }

  /** The state after a sequence of events, when each is enabled where it happens. */
  function Run(s: State, es: seq<Event>): Option<State>
    decreases |es|
  {
    if es == [] then Some(s)
    else
      var before := Run(s, es[..|es| - 1]);
      if before.Some? && Enabled(before.value, es[|es| - 1]) then Some(Apply(before.value, es[|es| - 1])) else None
  }

  const IDLE := State([], None, false, None)

  // ---------------------------------------------------------------- one at a time, in order, drained

  /** The link before the i-th of a chain. */
  function Before(i: nat): Option<nat> {
    if i == 0 then None else Some(i - 1)
  }

  /** Every link waits for the one before it. */
  ghost predicate OneChain(s: State) {
    forall i | 0 <= i < |s.links| :: s.links[i].predecessor == Before(i)
  }

  ghost predicate InOrder(s: State) {
    forall i, j | 0 <= i < j < |s.links| && s.links[j].status != Queued :: s.links[i].status.Settled?
  }

  /** Until a stop is chained, new links go behind the last one. */
  predicate TailIsEnd(s: State) {
    (s.stopping <==> s.stopOperation.Some?) && (!s.stopping ==> s.tail == Before(|s.links|))
  }

  /** The stop, once chained, is the last link, and the only stop. */
  ghost predicate StopIsLast(s: State) {
    && (s.stopOperation.Some? ==> s.stopOperation.value == |s.links| - 1)
    && (forall i | 0 <= i < |s.links| :: s.links[i].isStop <==> s.stopOperation == Some(i))
  }

  ghost predicate Inv(s: State) {
    OneChain(s) && InOrder(s) && TailIsEnd(s) && StopIsLast(s)
  }

  /** A link added to the chain, if any, waits for the last one. */
  lemma StepKeepsChain(s: State, e: Event)
    requires OneChain(s) && TailIsEnd(s) && Enabled(s, e)
    ensures OneChain(Apply(s, e)) && TailIsEnd(Apply(s, e))
  {
    var after := Apply(s, e);
    forall i | 0 <= i < |after.links|
      ensures after.links[i].predecessor == Before(i)
    {
      if i < |s.links| {
        assert after.links[i].predecessor == s.links[i].predecessor;
      } else {
        assert after.links[i].predecessor == s.tail;
      }
    }
  }

  lemma RequestKeepsStopLast(s: State, e: Event)
    requires TailIsEnd(s) && StopIsLast(s) && Enabled(s, e) && !e.Begin? && !e.Settle?
    ensures StopIsLast(Apply(s, e))
  {
  }

  lemma ProgressKeepsStopLast(s: State, e: Event)
    requires StopIsLast(s) && Enabled(s, e) && (e.Begin? || e.Settle?)
    ensures StopIsLast(Apply(s, e))
  {
    var after := Apply(s, e);
    assert |after.links| == |s.links|;
    assert forall i | 0 <= i < |s.links| :: after.links[i].isStop == s.links[i].isStop;
  }

  lemma StepKeepsOrder(s: State, e: Event)
    requires OneChain(s) && InOrder(s) && Enabled(s, e)
    ensures InOrder(Apply(s, e))
  {
    if e.Begin? && e.link > 0 {
      assert s.links[e.link - 1].status != Queued;
    }
  }

  lemma StepKeepsInv(s: State, e: Event)
    requires Inv(s) && Enabled(s, e)
    ensures Inv(Apply(s, e))
  {
    StepKeepsChain(s, e);
    StepKeepsOrder(s, e);
    if e.Begin? || e.Settle? { ProgressKeepsStopLast(s, e); } else { RequestKeepsStopLast(s, e); }
  }

  lemma {:induction false} RunKeepsInv(s: State, es: seq<Event>)
    requires Inv(s) && Run(s, es).Some?
    ensures Inv(Run(s, es).value)
    decreases |es|
  {
    if es != [] {
      RunKeepsInv(s, es[..|es| - 1]);
      StepKeepsInv(Run(s, es[..|es| - 1]).value, es[|es| - 1]);
    }
  }

  /** Accepted actions run one at a time in arrival order, the stop after all of them: whatever has begun
      has everything accepted before it settled. */
  lemma OneAtATimeInOrder(es: seq<Event>, i: nat, j: nat)
    requires Run(IDLE, es).Some?
    requires var s := Run(IDLE, es).value; i < j < |s.links| && s.links[j].status != Queued
    ensures Run(IDLE, es).value.links[i].status.Settled?
  {
    RunKeepsInv(IDLE, es);
  }

  /** The controller is stopped at most once, and only after every accepted action has settled. */
  lemma StopsOnceAfterDraining(es: seq<Event>, i: nat)
    requires Run(IDLE, es).Some?
    requires var s := Run(IDLE, es).value; i < |s.links| && s.links[i].isStop && s.links[i].status != Queued
    ensures var s := Run(IDLE, es).value;
            forall j | 0 <= j < |s.links| && j != i :: !s.links[j].isStop && s.links[j].status.Settled?
  {
    RunKeepsInv(IDLE, es);
  }

  function Accepted(s: State): nat {
    |set i | 0 <= i < |s.links| && !s.links[i].isStop|
  }

  lemma SameAccepted(a: State, b: State)
    requires |a.links| <= |b.links|
    requires forall i | 0 <= i < |a.links| :: a.links[i].isStop == b.links[i].isStop
    requires forall i | |a.links| <= i < |b.links| :: b.links[i].isStop
    ensures Accepted(a) == Accepted(b)
  {
    assert (set i | 0 <= i < |a.links| && !a.links[i].isStop) == (set i | 0 <= i < |b.links| && !b.links[i].isStop);
  }

  lemma StepAcceptsNothing(s: State, e: Event)
    requires s.stopping && Enabled(s, e)
    ensures Apply(s, e).stopping && Accepted(Apply(s, e)) == Accepted(s)
  {
    SameAccepted(s, Apply(s, e));
  }

  /** Once a stop request or a signal is accepted, no further action is. */
  lemma {:induction false} NothingAcceptedOnceStopping(s: State, es: seq<Event>)
    requires s.stopping && Run(s, es).Some?
    ensures Run(s, es).value.stopping && Accepted(Run(s, es).value) == Accepted(s)
    decreases |es|
  {
    if es != [] {
      NothingAcceptedOnceStopping(s, es[..|es| - 1]);
      StepAcceptsNothing(Run(s, es[..|es| - 1]).value, es[|es| - 1]);
    }
  }

  /** Until then every action is: it goes to the end of the chain. */
  lemma ActionsAreAccepted(es: seq<Event>)
    requires Run(IDLE, es).Some? && !Run(IDLE, es).value.stopping
    ensures var s := Run(IDLE, es).value;
            var after := Apply(s, Action);
            && after.links == s.links + [Link(false, Before(|s.links|), Queued)]
            && after.tail == Some(|s.links|) && !after.stopping
            && Accepted(after) == Accepted(s) + 1
  {
    RunKeepsInv(IDLE, es);
    OneMoreAccepted(Run(IDLE, es).value, Apply(Run(IDLE, es).value, Action));
  }

  lemma OneMoreAccepted(a: State, b: State)
    requires |b.links| == |a.links| + 1 && b.links[..|a.links|] == a.links && !b.links[|a.links|].isStop
    ensures Accepted(b) == Accepted(a) + 1
  {
    var had := set i | 0 <= i < |a.links| && !a.links[i].isStop;
    var has := set i | 0 <= i < |b.links| && !b.links[i].isStop;
    forall i | 0 <= i < |a.links| ensures i in has <==> i in had { assert b.links[..|a.links|][i] == b.links[i]; }
    assert |a.links| in has && |a.links| !in had;
    assert has == had + {|a.links|};
  }

  /** A stop request is answered by the one stop, which goes behind everything accepted, whoever chained it. */
  lemma StopRequestsWaitForTheStop(es: seq<Event>)
    requires Run(IDLE, es).Some?
    ensures var s, after := Run(IDLE, es).value, Apply(Run(IDLE, es).value, StopRequest);
            && after.stopping && after.tail.Some? && after.tail == after.stopOperation
            && after.tail.value == |after.links| - 1 && after.links[after.tail.value].isStop
            && after.links == s.links + if s.stopping then [] else [Link(true, Before(|s.links|), Queued)]
  {
    RunKeepsInv(IDLE, es);
    RequestKeepsStopLast(Run(IDLE, es).value, StopRequest);
  }

  /** A signal chains the same stop, once. */
  lemma SignalsChainTheStop(es: seq<Event>)
    requires Run(IDLE, es).Some?
    ensures var s, after := Run(IDLE, es).value, Apply(Run(IDLE, es).value, Signal);
            && after.stopping && after.stopOperation == Some(|after.links| - 1)
            && after.links == s.links + if s.stopping then [] else [Link(true, Before(|s.links|), Queued)]
  {
    RunKeepsInv(IDLE, es);
    RequestKeepsStopLast(Run(IDLE, es).value, Signal);
  }

  // ---------------------------------------------------------------- what still starts after a stop

  predicate QueuedAction(s: State, i: nat) {
    i < |s.links| && !s.links[i].isStop && s.links[i].status == Queued
  }

  /** After `more` further events, link i is an action and begins. */
  predicate StartsAfter(s: State, more: seq<Event>, i: nat) {
    && Run(s, more).Some? && i < |Run(s, more).value.links| && !Run(s, more).value.links[i].isStop
    && Enabled(Run(s, more).value, Begin(i))
  }

  lemma OneMore(s: State, es: seq<Event>, e: Event)
    requires Run(s, es).Some? && Enabled(Run(s, es).value, e)
    ensures Run(s, es + [e]) == Some(Apply(Run(s, es).value, e))
  {
    assert (es + [e])[..|es|] == es;
  }

  /** While stopping, a queued action was queued before: nothing is added but the stop. */
  lemma {:induction false} QueuedWasQueued(s: State, es: seq<Event>, i: nat)
    requires s.stopping && Run(s, es).Some? && QueuedAction(Run(s, es).value, i)
    ensures QueuedAction(s, i)
    decreases |es|
  {
    if es != [] {
      var front := es[..|es| - 1];
      NothingAcceptedOnceStopping(s, front);
      assert QueuedAction(Run(s, front).value, i);
      QueuedWasQueued(s, front, i);
    }
  }

  /** The first queued link: everything before it has begun. */
  lemma {:induction false} FirstQueued(s: State, i: nat) returns (j: nat)
    requires i < |s.links| && s.links[i].status == Queued
    ensures j <= i && s.links[j].status == Queued
    ensures forall k | 0 <= k < j :: s.links[k].status != Queued
  {
    if k :| 0 <= k < i && s.links[k].status == Queued {
      j := FirstQueued(s, k);
    } else {
      j := i;
    }
  }

  /** The first queued link begins once the link it waits for, if running, settles. */
  lemma FirstQueuedCanBegin(s: State, j: nat) returns (more: seq<Event>)
    requires j < |s.links| && s.links[j].status == Queued && s.links[j].predecessor == Before(j)
    requires j > 0 ==> s.links[j - 1].status != Queued
    ensures Run(s, more).Some? && |Run(s, more).value.links| == |s.links|
    ensures Run(s, more).value.links[j] == s.links[j] && Enabled(Run(s, more).value, Begin(j))
  {
    more := [];
    if j > 0 && s.links[j - 1].status == Running {
      OneMore(s, [], Settle(j - 1, true));
      more := [] + [Settle(j - 1, true)];
    }
  }

  /** Every chained link, the stop included, begins once those before it have run and settled. */
  lemma {:induction false} QueuedCanBegin(s: State, i: nat) returns (more: seq<Event>)
    requires OneChain(s) && i < |s.links| && s.links[i].status == Queued
    ensures Run(s, more).Some? && |Run(s, more).value.links| == |s.links|
    ensures forall j | i <= j < |s.links| :: Run(s, more).value.links[j] == s.links[j]
    ensures Enabled(Run(s, more).value, Begin(i))
    decreases i
  {
    more := [];
    if i > 0 {
      if s.links[i - 1].status == Queued {
        more := QueuedCanBegin(s, i - 1);
        OneMore(s, more, Begin(i - 1));
        more := more + [Begin(i - 1)];
      }
      if !IsSettled(Run(s, more).value, i - 1) {
        OneMore(s, more, Settle(i - 1, false));
        more := more + [Settle(i - 1, false)];
      }
    }
  }

  /** The stop is the last link, so the first queued link at or before a queued action is an action. */
  lemma FirstQueuedIsAction(s: State, i: nat, j: nat)
    requires StopIsLast(s) && QueuedAction(s, i) && j <= i
    ensures !s.links[j].isStop
  {
  }

  /** Exactly when an action still starts after a stop was accepted: when one that was accepted before is
      queued. Draining runs the queue, it does not cancel it. */
  lemma ActionsStillStartExactlyWhenQueued(es: seq<Event>)
    requires Run(IDLE, es).Some? && Run(IDLE, es).value.stopping
    ensures var s := Run(IDLE, es).value;
            (exists more, i :: StartsAfter(s, more, i)) <==> (exists i :: QueuedAction(s, i))
  {
    var s := Run(IDLE, es).value;
    RunKeepsInv(IDLE, es);
    if more, i :| StartsAfter(s, more, i) {
      QueuedWasQueued(s, more, i);
    }
    if i :| QueuedAction(s, i) {
      var j := FirstQueued(s, i);
      FirstQueuedIsAction(s, i, j);
      var more := FirstQueuedCanBegin(s, j);
      assert StartsAfter(s, more, j);
    }
  }

  /** The shortest such run: an action, then a stop request, then the action begins. */
  lemma QueuedActionsStillStart() returns (es: seq<Event>)
    ensures Run(IDLE, es).Some? && Run(IDLE, es).value.stopping
    ensures StartsAfter(Run(IDLE, es).value, [], 0)
  {
    OneMore(IDLE, [], Action);
    OneMore(IDLE, [] + [Action], StopRequest);
    es := [] + [Action] + [StopRequest];
  }

  // ---------------------------------------------------------------- the handlers

  class SupervisorProcess {
    var links: seq<Link>
    var operationQueue: Option<nat>
    var stopping: bool
    var stopOperation: Option<nat>
    /** A project command that a stop aborts. */
    var activeProject: Option<nat>
    var aborted: set<nat>

    constructor ()
      ensures View() == IDLE && activeProject == None && aborted == {}
    {
      links, operationQueue, stopping, stopOperation, activeProject, aborted := [], None, false, None, None, {};
    }

    function View(): State
      reads this
    {
      State(links, operationQueue, stopping, stopOperation)
    }

    method AbortActiveProject()
      modifies `aborted
      ensures aborted == old(aborted) + (if activeProject.Some? then {activeProject.value} else {})
    {
      if activeProject.Some? { aborted := aborted + {activeProject.value}; }
    }

    /** Chains `controller.stop` behind the queue, unless it is already chained. */
    method EnsureStop()
      requires stopping
      modifies `links, `stopOperation
      ensures View() == ChainStop(old(View()))
    {
      if stopOperation.None? {
        stopOperation := Some(|links|);
        links := links + [Link(true, operationQueue, Queued)];
      }
    }

    /** A request read to its end: `None` is malformed. The answer says which link it waits for. */
    method ScheduleControl(stop: Option<bool>) returns (link: Option<nat>)
      modifies this
      ensures View() == Apply(old(View()), if stop.None? then Malformed else if stop.value then StopRequest else Action)
      ensures link.None? <==> stop.None? || (!stop.value && old(stopping))
      ensures link.Some? ==> link == operationQueue
      ensures stop == Some(true) && activeProject.Some? ==> activeProject.value in aborted
      ensures stop == Some(true) ==> link.Some? && link == stopOperation && stopping
      ensures stop == Some(true) && old(Inv(View())) ==> link.value < |links| && links[link.value].isStop
      ensures stop == Some(false) && !old(stopping) ==>
                link == Some(|old(links)|) && links == old(links) + [Link(false, old(operationQueue), Queued)]
      ensures link.None? ==> links == old(links) && operationQueue == old(operationQueue)
      ensures activeProject == old(activeProject)
      ensures aborted == old(aborted)
                         + if stop == Some(true) && activeProject.Some? then {activeProject.value} else {}
    {
      if stop.None? { return None; }
      if !stop.value && stopping { return None; }
      if stop.value {
        stopping := true;
        AbortActiveProject();
        EnsureStop();
        operationQueue := stopOperation;
        return operationQueue;
      }
      links := links + [Link(false, operationQueue, Queued)];
      operationQueue := Some(|links| - 1);
      return operationQueue;
    }

    method StopFromSignal()
      modifies this
      ensures View() == Apply(old(View()), Signal)
      ensures !old(stopping) && activeProject.Some? ==> activeProject.value in aborted
      ensures stopping && (old(stopping) ==> links == old(links)) && activeProject == old(activeProject)
      ensures aborted == old(aborted)
                         + if !old(stopping) && activeProject.Some? then {activeProject.value} else {}
      ensures !old(stopping) && old(stopOperation).None? ==>
                links == old(links) + [Link(true, old(operationQueue), Queued)] && stopOperation == Some(|old(links)|)
    {
      if stopping { return; }
      stopping := true;
      AbortActiveProject();
      EnsureStop();
    }

    /** A link's turn has come; a project command becomes the active one. */
    method BeginLink(i: nat, project: bool)
      requires Enabled(View(), Begin(i))
      modifies `links, `activeProject
      ensures View() == Apply(old(View()), Begin(i))
      ensures activeProject == if project && !links[i].isStop then Some(i) else old(activeProject)
    {
      links := links[i := links[i].(status := Running)];
      if project && !links[i].isStop { activeProject := Some(i); }
    }

    method SettleLink(i: nat, fulfilled: bool)
      requires Enabled(View(), Settle(i, fulfilled))
      modifies `links, `activeProject
      ensures View() == Apply(old(View()), Settle(i, fulfilled))
      ensures activeProject == if old(activeProject) == Some(i) then None else old(activeProject)
    {
      links := links[i := links[i].(status := Settled(fulfilled))];
      if activeProject == Some(i) { activeProject := None; }
    }
  }
}
