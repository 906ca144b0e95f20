/** Ownership transfer of one lease directory, system call by system call, by any number of racing
    recoverers that may crash anywhere. The takeover claim is published by an atomic link; a dead
    claimant's claim is read and removed in one step. The other writers of lease.json (resource
    discovery, client bootstrap, release) do their read-compare-replace while no takeover is between
    its own comparison and its replacement. */
module Takeover {
  import opened LeaseRecords
  import opened Options

  /** File content: a reader may in principle meet a partly written file. */
  datatype File = NoFile | Partial | Whole(record: LeaseRecord)

  datatype Holder = Holder(proc: ProcessIdentity, attempt: nat)

  /** `Linking(retried)`: the candidate exists and is about to be linked for the first or second time. */
  datatype Phase = Linking(retried: bool) | Held | Compared | Writing | Written | Replaced | Refused
                 | Finished(won: bool)

  datatype Attempt = Attempt(proc: ProcessIdentity, expected: LeaseRecord, phase: Phase)

  /** `retired` collects, as history, every owner that a completed replacement displaced. */
  datatype State = State(lease: File, temps: map<nat, File>, claim: Option<Holder>,
                         alive: set<ProcessIdentity>, born: set<ProcessIdentity>,
                         attempts: map<nat, Attempt>, retired: set<ProcessIdentity>)

  datatype Event =
    | Birth(proc: ProcessIdentity)
    | Crash(proc: ProcessIdentity)
    | Start(a: nat, proc: ProcessIdentity, expected: LeaseRecord)
    | Link(a: nat)
    | RefuseLive(a: nat)
    | ClearDead(a: nat)
    | FailToLink(a: nat)
    | Compare(a: nat)
    | BeginWrite(a: nat)
    | EndWrite(a: nat)
    | Replace(a: nat)
    | Fail(a: nat)
    | Unlink(a: nat)
    // the other writers of lease.json
    | Discover(expected: LeaseRecord, discovered: LeaseRecord)
    | Register(expected: LeaseRecord, host: HostProcess)
    | Release(record: LeaseRecord)

  predicate In(s: State, a: nat, phase: Phase) {
    a in s.attempts && s.attempts[a].proc in s.alive && s.attempts[a].phase == phase
  }

  predicate Linkable(s: State, a: nat) {
    a in s.attempts && s.attempts[a].proc in s.alive && s.attempts[a].phase.Linking?
  }

  /** Between the comparison and the replacement. */
  predicate Midway(phase: Phase) {
    phase.Compared? || phase.Writing? || phase.Written?
  }

  predicate HoldsClaim(phase: Phase) {
    phase.Held? || Midway(phase) || phase.Replaced? || phase.Refused?
  }

  predicate Quiet(s: State) {
    forall a | a in s.attempts :: s.attempts[a].proc in s.alive ==> !Midway(s.attempts[a].phase)
  }

  predicate Enabled(s: State, e: Event) {
    match e
    case Birth(proc) => proc !in s.born
    case Crash(proc) => proc in s.alive
    // a recoverer starts only after it saw the recorded owner gone
    case Start(a, proc, expected) =>
      a !in s.attempts && proc in s.alive && expected.ownerProcess in s.born - s.alive
    case Link(a) => Linkable(s, a) && s.claim == None
    case RefuseLive(a) => Linkable(s, a) && s.claim.Some? && s.claim.value.proc in s.alive
    case ClearDead(a) => Linkable(s, a) && s.claim.Some? && s.claim.value.proc !in s.alive
    case FailToLink(a) => Linkable(s, a)
    case Compare(a) => In(s, a, Held)
    case BeginWrite(a) => In(s, a, Compared)
    case EndWrite(a) => In(s, a, Writing)
    case Replace(a) => In(s, a, Written) && a in s.temps
    case Fail(a) => a in s.attempts && s.attempts[a].proc in s.alive
                    && (s.attempts[a].phase.Held? || Midway(s.attempts[a].phase))
    case Unlink(a) => In(s, a, Replaced) || In(s, a, Refused)
    case Discover(expected, discovered) =>
      Quiet(s) && s.lease == Whole(expected) && Advances(expected, discovered)
      && discovered.hostProcesses == expected.hostProcesses
    case Register(expected, host) =>
      Quiet(s) && s.lease == Whole(expected)
      && forall i | 0 <= i < |expected.hostProcesses| :: expected.hostProcesses[i].role != host.role
    case Release(record) => Quiet(s) && s.lease == Whole(record)
  }

  function Move(s: State, a: nat, phase: Phase): State
    requires a in s.attempts
  {
    s.(attempts := s.attempts[a := s.attempts[a].(phase := phase)])
  }

  function Apply(s: State, e: Event): State
    requires Enabled(s, e)
  {
    match e
    case Birth(proc) => s.(alive := s.alive + {proc}, born := s.born + {proc})
    case Crash(proc) => s.(alive := s.alive - {proc})
    case Start(a, proc, expected) => s.(attempts := s.attempts[a := Attempt(proc, expected, Linking(false))])
    // the new holder also sweeps abandoned temporaries
    case Link(a) => Move(s, a, Held).(claim := Some(Holder(s.attempts[a].proc, a)), temps := map[])
    case RefuseLive(a) => Move(s, a, Finished(false))
    case ClearDead(a) =>
      Move(s, a, if s.attempts[a].phase.retried then Finished(false) else Linking(true)).(claim := None)
    case FailToLink(a) => Move(s, a, Finished(false))
    case Compare(a) => Move(s, a, if s.lease == Whole(s.attempts[a].expected) then Compared else Refused)
    case BeginWrite(a) => Move(s, a, Writing).(temps := s.temps[a := Partial])
    case EndWrite(a) =>
      Move(s, a, Written).(temps :=
        s.temps[a := Whole(s.attempts[a].expected.(ownerProcess := s.attempts[a].proc))])
    case Replace(a) =>
      Move(s, a, Replaced).(lease := s.temps[a], temps := s.temps - {a},
                            retired := s.retired + {s.attempts[a].expected.ownerProcess})
    case Fail(a) => Move(s, a, Refused)
    case Unlink(a) => Move(s, a, Finished(s.attempts[a].phase.Replaced?)).(claim := None)
    case Discover(expected, discovered) => s.(lease := Whole(discovered))
    case Register(expected, host) =>
      s.(lease := Whole(expected.(hostProcesses := expected.hostProcesses + [host])))
    case Release(record) => s.(lease := NoFile)
  }

  predicate Initial(s: State) {
    && s.alive <= s.born && s.temps == map[] && s.claim == None && s.attempts == map[] && s.retired == {}
    && (s.lease.NoFile? || (s.lease.Whole? && s.lease.record.ownerProcess in s.born))
  }

  predicate Legal(s: State, es: seq<Event>)
    decreases |es|
  {
    es == [] || (Enabled(s, es[0]) && Legal(Apply(s, es[0]), es[1..]))
  }

  function After(s: State, es: seq<Event>): State
    requires Legal(s, es)
    decreases |es|
  {
    if es == [] then s else After(Apply(s, es[0]), es[1..])
  }

  // ---------------------------------------------------------------- the invariant

  predicate Won(s: State, a: nat) {
    a in s.attempts && (s.attempts[a].phase.Replaced? || s.attempts[a].phase == Finished(true))
  }

  /** Every live attempt inside the critical section is the one the claim names. */
  ghost predicate ClaimsAreExclusive(s: State) {
    forall a :: a in s.attempts && s.attempts[a].proc in s.alive && HoldsClaim(s.attempts[a].phase) ==>
      s.claim == Some(Holder(s.attempts[a].proc, a))
  }

  /** What was compared stays true, and what was written is the old record with the new owner. */
  predicate HoldsComparison(s: State, a: nat)
    requires a in s.attempts
  {
    && s.lease == Whole(s.attempts[a].expected)
    && (s.attempts[a].phase.Written? ==>
          a in s.temps && s.temps[a] == Whole(s.attempts[a].expected.(ownerProcess := s.attempts[a].proc)))
  }

  ghost predicate ComparisonsHold(s: State) {
    forall a :: a in s.attempts && s.attempts[a].proc in s.alive && Midway(s.attempts[a].phase) ==>
      HoldsComparison(s, a)
  }

  predicate SoundAttempt(s: State, a: nat)
    requires a in s.attempts
  {
    && s.attempts[a].expected.ownerProcess in s.born - s.alive
    && s.attempts[a].proc in s.born
    && (Won(s, a) ==> s.attempts[a].expected.ownerProcess in s.retired)
  }

  ghost predicate AttemptsAreSound(s: State) {
    forall a :: a in s.attempts ==> SoundAttempt(s, a)
  }

  ghost predicate OwnersNeverReturn(s: State) {
    && s.alive <= s.born && s.retired <= s.born - s.alive
    && s.lease != Partial
    && (s.lease.Whole? ==> s.lease.record.ownerProcess in s.born - s.retired)
  }

  /** No two attempts ever displaced the same owner. */
  ghost predicate WinnersAreUnique(s: State) {
    forall a, b | Won(s, a) && Won(s, b) ::
      s.attempts[a].expected.ownerProcess == s.attempts[b].expected.ownerProcess ==> a == b
  }

  ghost predicate Inv(s: State) {
    && ClaimsAreExclusive(s) && ComparisonsHold(s) && AttemptsAreSound(s)
    && OwnersNeverReturn(s) && WinnersAreUnique(s)
  }

  lemma StepKeepsClaims(s: State, e: Event)
    requires ClaimsAreExclusive(s) && AttemptsAreSound(s) && Enabled(s, e)
    ensures ClaimsAreExclusive(Apply(s, e))
  {
    forall a | a in Apply(s, e).attempts && Apply(s, e).attempts[a].proc in Apply(s, e).alive
               && HoldsClaim(Apply(s, e).attempts[a].phase)
      ensures Apply(s, e).claim == Some(Holder(Apply(s, e).attempts[a].proc, a))
    {
      AttemptStep(s, e, a);
      LivesStep(s, e);
      assert SoundAttempt(s, a);
      ClaimStep(s, e, a);
    }
  }

  /** An attempt gets a claim by linking, and only the claim of a dead holder or the attempt's own is removed. */
  lemma ClaimStep(s: State, e: Event, a: nat)
    requires Enabled(s, e) && a in s.attempts && a in Apply(s, e).attempts
    requires HoldsClaim(Apply(s, e).attempts[a].phase) && s.attempts[a].proc in s.alive
    requires ClaimsAreExclusive(s)
    ensures Apply(s, e).claim == Some(Holder(s.attempts[a].proc, a))
  {
  }

  lemma StepKeepsComparisons(s: State, e: Event)
    requires ClaimsAreExclusive(s) && ComparisonsHold(s) && AttemptsAreSound(s) && Enabled(s, e)
    ensures ComparisonsHold(Apply(s, e))
  {
    forall a | a in Apply(s, e).attempts && Apply(s, e).attempts[a].proc in Apply(s, e).alive
               && Midway(Apply(s, e).attempts[a].phase)
      ensures HoldsComparison(Apply(s, e), a)
    {
      AttemptStep(s, e, a);
      LivesStep(s, e);
      ComparisonStays(s, e, a);
    }
  }

  /** An attempt gets between comparison and replacement by comparing, and moves only by its own steps. */
  lemma MidwayStep(s: State, e: Event, a: nat)
    requires Enabled(s, e) && a in s.attempts && a in Apply(s, e).attempts && Midway(Apply(s, e).attempts[a].phase)
    ensures || (e == Compare(a) && s.lease == Whole(s.attempts[a].expected))
            || (e == EndWrite(a) && s.attempts[a].phase.Writing?)
            || (e == BeginWrite(a) && s.attempts[a].phase.Compared?)
            || Apply(s, e).attempts[a] == s.attempts[a]
  {
  }

  /** Another attempt's replacement, a link, or one of the other writers is not possible meanwhile. */
  lemma ComparisonStays(s: State, e: Event, a: nat)
    requires ClaimsAreExclusive(s) && ComparisonsHold(s) && Enabled(s, e)
    requires a in s.attempts && a in Apply(s, e).attempts && s.attempts[a].proc in s.alive
    requires Midway(Apply(s, e).attempts[a].phase)
    ensures HoldsComparison(Apply(s, e), a)
  {
    MidwayStep(s, e, a);
    if Midway(s.attempts[a].phase) { assert HoldsComparison(s, a); }
  }

  lemma StepKeepsAttempts(s: State, e: Event)
    requires AttemptsAreSound(s) && s.alive <= s.born && Enabled(s, e)
    ensures AttemptsAreSound(Apply(s, e))
  {
    forall a | a in Apply(s, e).attempts ensures SoundAttempt(Apply(s, e), a) {
      StepKeepsAttempt(s, e, a);
    }
  }

  lemma StepKeepsAttempt(s: State, e: Event, a: nat)
    requires AttemptsAreSound(s) && s.alive <= s.born && Enabled(s, e) && a in Apply(s, e).attempts
    ensures SoundAttempt(Apply(s, e), a)
  {
    AttemptStep(s, e, a);
    LivesStep(s, e);
    if a in s.attempts { assert SoundAttempt(s, a); }
  }

  /** An attempt keeps its process and its expectation; it wins only by replacing. */
  lemma AttemptStep(s: State, e: Event, a: nat)
    requires Enabled(s, e) && a in Apply(s, e).attempts
    ensures a in s.attempts ==>
              && Apply(s, e).attempts[a].proc == s.attempts[a].proc
              && Apply(s, e).attempts[a].expected == s.attempts[a].expected
              && (Won(Apply(s, e), a) ==> Won(s, a) || e == Replace(a))
    ensures a !in s.attempts ==> e.Start? && Apply(s, e).attempts[a] == Attempt(e.proc, e.expected, Linking(false))
  {
  }

  /** Only the unborn are born, and what is retired stays so. */
  lemma LivesStep(s: State, e: Event)
    requires Enabled(s, e)
    ensures s.born <= Apply(s, e).born && s.retired <= Apply(s, e).retired
    ensures forall p :: p in Apply(s, e).alive && p !in s.alive ==> p !in s.born
    ensures e.Replace? ==> s.attempts[e.a].expected.ownerProcess in Apply(s, e).retired
  {
  }

  /** A replacement retires the owner it displaces, who is dead, and installs a live one. */
  lemma StepKeepsOwners(s: State, e: Event)
    requires ComparisonsHold(s) && AttemptsAreSound(s) && OwnersNeverReturn(s) && Enabled(s, e)
    ensures OwnersNeverReturn(Apply(s, e))
  {
    OwnerComesFrom(s, e);
    RetiredComeFrom(s, e);
    LivesStep(s, e);
    if e.Replace? { assert HoldsComparison(s, e.a) && SoundAttempt(s, e.a); }
  }

  lemma OwnerComesFrom(s: State, e: Event)
    requires ComparisonsHold(s) && s.lease != Partial && Enabled(s, e)
    ensures Apply(s, e).lease != Partial
    ensures Apply(s, e).lease.Whole? ==>
              && s.lease.Whole?
              && Apply(s, e).lease.record.ownerProcess
                 == if e.Replace? then s.attempts[e.a].proc else s.lease.record.ownerProcess
  {
    match e
    case Replace(a) => assert HoldsComparison(s, a);
    case Discover(expected, discovered) =>
      assert Authority(expected).ownerProcess == Authority(discovered).ownerProcess;
    case _ =>
  }

  lemma RetiredComeFrom(s: State, e: Event)
    requires Enabled(s, e) && s.alive <= s.born
    ensures Apply(s, e).alive <= Apply(s, e).born
    ensures Apply(s, e).retired
            == s.retired + if e.Replace? then {s.attempts[e.a].expected.ownerProcess} else {}
  {
  }

  /** A new winner displaces the recorded owner, whom no earlier winner can have displaced. */
  lemma StepKeepsWinners(s: State, e: Event)
    requires Inv(s) && Enabled(s, e)
    ensures WinnersAreUnique(Apply(s, e))
  {
    var after := Apply(s, e);
    forall a, b | Won(after, a) && Won(after, b)
                  && after.attempts[a].expected.ownerProcess == after.attempts[b].expected.ownerProcess
      ensures a == b
    {
      WinnersComeFromReplacing(s, e, a);
      WinnersComeFromReplacing(s, e, b);
    }
  }

  lemma WinnersComeFromReplacing(s: State, e: Event, a: nat)
    requires ComparisonsHold(s) && AttemptsAreSound(s) && OwnersNeverReturn(s) && Enabled(s, e) && Won(Apply(s, e), a)
    ensures a in s.attempts && Apply(s, e).attempts[a].expected == s.attempts[a].expected
    ensures if Won(s, a) then s.attempts[a].expected.ownerProcess in s.retired
            else e == Replace(a) && s.attempts[a].expected.ownerProcess !in s.retired
  {
    AttemptStep(s, e, a);
    if a in s.attempts { assert SoundAttempt(s, a); }
  }

  lemma StepKeepsInv(s: State, e: Event)
    requires Inv(s) && Enabled(s, e)
    ensures Inv(Apply(s, e))
  {
    StepKeepsClaims(s, e);
    StepKeepsComparisons(s, e);
    StepKeepsAttempts(s, e);
    StepKeepsOwners(s, e);
    StepKeepsWinners(s, e);
  }

  lemma {:induction false} RunKeepsInv(s: State, es: seq<Event>)
    requires Inv(s) && Legal(s, es)
    ensures Inv(After(s, es))
    decreases |es|
  {
    if es != [] {
      StepKeepsInv(s, es[0]);
      RunKeepsInv(Apply(s, es[0]), es[1..]);
    }
  }

  /** Of any number of recoverers racing with the same expected lease, at most one replaces it,
      whatever crashes; and lease.json is never seen partly written. */
  lemma AtMostOneTransfer(s: State, es: seq<Event>, a: nat, b: nat)
    requires Initial(s) && Legal(s, es)
    requires Won(After(s, es), a) && Won(After(s, es), b)
    requires After(s, es).attempts[a].expected == After(s, es).attempts[b].expected
    ensures a == b
  {
    RunKeepsInv(s, es);
  }

  lemma LeaseIsAlwaysWhole(s: State, es: seq<Event>)
    requires Initial(s) && Legal(s, es)
    ensures After(s, es).lease != Partial
  {
    RunKeepsInv(s, es);
  }

  // ---------------------------------------------------------------- refinement of the atomic transfer

  /** At the level of lease.json a takeover is a single compare-and-replace of the owner: every step
      leaves the file alone or does one of the four atomic updates on a complete record. */
  lemma EveryChangeIsAtomic(s: State, e: Event)
    requires Inv(s) && Enabled(s, e)
    ensures match e
            case Replace(a) =>
              && s.lease == Whole(s.attempts[a].expected)
              && Apply(s, e).lease == Whole(s.lease.record.(ownerProcess := s.attempts[a].proc))
            case Discover(expected, discovered) => s.lease == Whole(expected) && Apply(s, e).lease == Whole(discovered)
            case Register(expected, host) =>
              && s.lease == Whole(expected)
              && Apply(s, e).lease == Whole(expected.(hostProcesses := expected.hostProcesses + [host]))
            case Release(record) => s.lease == Whole(record) && Apply(s, e).lease == NoFile
            case _ => Apply(s, e).lease == s.lease
  {
    if e.Replace? { assert HoldsComparison(s, e.a); }
  }

  lemma OneMore(s: State, es: seq<Event>, e: Event)
    requires Legal(s, es) && Enabled(After(s, es), e)
    ensures Legal(s, es + [e]) && After(s, es + [e]) == Apply(After(s, es), e)
    decreases |es|
  {
    if es == [] {
      assert [e][1..] == [];
    } else {
      OneMore(Apply(s, es[0]), es[1..], e);
      assert (es + [e])[1..] == es[1..] + [e];
    }
  }

  /** The three cases of an attempt to link: it takes a free claim, a live claimant refuses it without any change,
      and a dead one's claim is cleared -- for one more try, and no third. */
  lemma LinkingMeets(s: State, a: nat)
    requires Linkable(s, a)
    ensures Enabled(s, Link(a)) <==> s.claim.None?
    ensures Enabled(s, RefuseLive(a)) <==> s.claim.Some? && s.claim.value.proc in s.alive
    ensures Enabled(s, ClearDead(a)) <==> s.claim.Some? && s.claim.value.proc !in s.alive
    ensures Enabled(s, RefuseLive(a)) ==>
              Apply(s, RefuseLive(a)) == s.(attempts := s.attempts[a := s.attempts[a].(phase := Finished(false))])
    ensures Enabled(s, ClearDead(a)) ==>
              && Apply(s, ClearDead(a)).claim.None? && Apply(s, ClearDead(a)).lease == s.lease
              && (s.attempts[a].phase == Linking(false) <==> Linkable(Apply(s, ClearDead(a)), a))
              && (s.attempts[a].phase == Linking(false) ==>
                    Apply(s, ClearDead(a)).attempts[a].phase == Linking(true))
              && (s.attempts[a].phase == Linking(true) ==>
                    Apply(s, ClearDead(a)).attempts[a].phase == Finished(false))
  {
  }

  /** A takeover that fails before its replacement leaves the lease alone and gives the claim back. */
  lemma FailedTakeoverGivesUp(s: State, a: nat)
    requires a in s.attempts && s.attempts[a].proc in s.alive
    requires s.attempts[a].phase.Held? || Midway(s.attempts[a].phase)
    ensures Legal(s, [Fail(a), Unlink(a)])
    ensures var after := After(s, [Fail(a), Unlink(a)]);
            && after.lease == s.lease && after.claim.None?
            && a in after.attempts && after.attempts[a].phase == Finished(false)
  {
    var failed := Apply(s, Fail(a));
    assert [Fail(a), Unlink(a)][1..] == [Unlink(a)] && [Unlink(a)][1..] == [];
    assert Legal(failed, [Unlink(a)]) && After(failed, [Unlink(a)]) == Apply(failed, Unlink(a));
  }

  /** The first half of an undisturbed takeover: up to the comparison. */
  lemma LoneRecovererCompares(s: State, a: nat, me: ProcessIdentity) returns (es: seq<Event>)
    requires s.lease.Whole? && s.claim.None? && a !in s.attempts && me in s.alive
    requires s.lease.record.ownerProcess in s.born - s.alive
    ensures Legal(s, es)
    ensures After(s, es) == s.(attempts := s.attempts[a := Attempt(me, s.lease.record, Compared)],
                               claim := Some(Holder(me, a)), temps := map[])
  {
    es := [];
    OneMore(s, es, Start(a, me, s.lease.record));
    es := es + [Start(a, me, s.lease.record)];
    OneMore(s, es, Link(a));
    es := es + [Link(a)];
    OneMore(s, es, Compare(a));
    es := es + [Compare(a)];
    assert s.attempts[a := Attempt(me, s.lease.record, Linking(false))][a := Attempt(me, s.lease.record, Held)]
           == s.attempts[a := Attempt(me, s.lease.record, Held)];
  }

  /** The second half: from the comparison to the end. */
  lemma ComparedIsReplaced(s: State, es: seq<Event>, a: nat) returns (longer: seq<Event>)
    requires Legal(s, es) && In(After(s, es), a, Compared)
    ensures Legal(s, longer) && Won(After(s, longer), a) && After(s, longer).claim.None?
    ensures var attempt := After(s, es).attempts[a];
            After(s, longer).lease == Whole(attempt.expected.(ownerProcess := attempt.proc))
  {
    longer := es;
    OneMore(s, longer, BeginWrite(a));
    longer := longer + [BeginWrite(a)];
    OneMore(s, longer, EndWrite(a));
    longer := longer + [EndWrite(a)];
    OneMore(s, longer, Replace(a));
    longer := longer + [Replace(a)];
    OneMore(s, longer, Unlink(a));
    longer := longer + [Unlink(a)];
  }

  /** A recoverer that meets a dead owner and nobody else takes the lease over: it wins, and the file names it. */
  lemma LoneRecovererWins(s: State, a: nat, me: ProcessIdentity) returns (es: seq<Event>)
    requires s.lease.Whole? && s.claim.None? && a !in s.attempts && me in s.alive
    requires s.lease.record.ownerProcess in s.born - s.alive
    ensures Legal(s, es) && Won(After(s, es), a)
    ensures After(s, es).lease == Whole(s.lease.record.(ownerProcess := me)) && After(s, es).claim.None?
  {
    es := LoneRecovererCompares(s, a, me);
    es := ComparedIsReplaced(s, es, a);
  }

  lemma StepAdvances(s: State, e: Event)
    requires Inv(s) && Enabled(s, e) && Apply(s, e).lease.Whole?
    ensures s.lease.Whole? && AdvancesUpToOwner(s.lease.record, Apply(s, e).lease.record)
    ensures RolesDistinct(s.lease.record.hostProcesses) ==> RolesDistinct(Apply(s, e).lease.record.hostProcesses)
  {
    EveryChangeIsAtomic(s, e);
    if e.Discover? { assert Authority(e.expected).ownerProcess == Authority(e.discovered).ownerProcess; }
  }

  /** Along any run the lease only advances: authority other than the owner is fixed, each resource
      list is set at most once, and host processes are only appended, each role at most once. */
  lemma {:induction false} LeaseOnlyAdvances(s: State, es: seq<Event>)
    requires Inv(s) && Legal(s, es) && After(s, es).lease.Whole?
    ensures s.lease.Whole? && AdvancesUpToOwner(s.lease.record, After(s, es).lease.record)
    ensures RolesDistinct(s.lease.record.hostProcesses) ==> RolesDistinct(After(s, es).lease.record.hostProcesses)
    decreases |es|
  {
    if es != [] {
      StepKeepsInv(s, es[0]);
      var next := Apply(s, es[0]);
      LeaseOnlyAdvances(next, es[1..]);
      StepAdvances(s, es[0]);
      AdvanceIsTransitive(s.lease.record, next.lease.record, After(s, es).lease.record);
    }
  }

  /** Were discovery allowed between a takeover's comparison and its replacement, the replacement
      would take the recorded containers back. */
  lemma InterleavedDiscoveryIsLost(s: State, a: nat, discovered: LeaseRecord)
    requires Inv(s) && In(s, a, Written)
    requires Advances(s.attempts[a].expected, discovered)
    requires s.attempts[a].expected.containerIds == [] && discovered.containerIds != []
    ensures var between := s.(lease := Whole(discovered));
            && Enabled(between, Replace(a))
            && Apply(between, Replace(a)).lease.Whole?
            && !AdvancesUpToOwner(discovered, Apply(between, Replace(a)).lease.record)
  {
    var between := s.(lease := Whole(discovered));
    assert between.temps[a] == Whole(s.attempts[a].expected.(ownerProcess := s.attempts[a].proc));
  }
}
