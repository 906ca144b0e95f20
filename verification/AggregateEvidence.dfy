/** The aggregate's evidence document and its independent validator: everything except the invocation
    facts is derived again from the registry and those facts, and compared. The registry is arbitrary. */
module AggregateEvidence {
  import opened ExitPrecedence
  import opened Options
  import opened SortedText

  // ---------------------------------------------------------------- registry

  datatype Command = AssuranceValidate | AssuranceTest | AssuranceHarness | AssuranceCoverage
                   | AssuranceFault | AssuranceCompat | AssuranceReport

  datatype ChildId = ValidateChild | TestChild | OperationalHarness | ProductionSecurityHarness
                   | CoverageChild | FaultChild | CompatChild | ReportChild

  datatype Profile = Operational | ProductionSecurity

  datatype Registration = Registration(id: string, command: Command, selector: Option<string>,
                                       profile: Option<Profile>, arguments: seq<string>)

  datatype RegisteredChild = RegisteredChild(id: ChildId, ordinal: nat, invocations: seq<Registration>)

  datatype Authority = Eligible | KnownProductDefectCollector | AuthorityBlocked | StaleOrNoGoEvidence

  datatype Conclusion = Assured | Blocked | Incomplete | Survived | Unqualified

  datatype Gap = Gap(id: string, authority: Authority, conclusion: Conclusion)

  datatype Registry = Registry(children: seq<RegisteredChild>, gaps: seq<Gap>, digest: string)

  // ---------------------------------------------------------------- document

  datatype Invocation = Invocation(
    registration: Registration, completed: bool, exitCode: Option<int>,
    artifactReference: Option<string>, artifactDigest: Option<string>,
    sourceRevision: string, sourceTreeDigest: string, toolIdentity: Command, toolDigest: string,
    cleanupComplete: bool, notRunReason: Option<Reason>)

  datatype Outcome = Passed | KnownProductDefect | AssertionFailed | IncompleteOutcome

  datatype Reason = EarlierChildTerminated | AuthorityContractUnavailable | ObservationUnqualified
                  | OtherReason(text: string)

  datatype Summary = Summary(completed: bool, managed: bool, outcome: Option<Outcome>,
                             notRunReason: Option<Reason>, cleanupComplete: bool)

  datatype Child = Child(id: ChildId, ordinal: nat, summary: Summary, invocations: seq<Invocation>)

  datatype Observation = ObservedPass | ProductDefectObserved | EvidenceIncomplete | FaultSurvived
                       | ObservedAssertionFailure

  datatype Item = Item(id: string, childId: ChildId, authority: Authority, completed: bool,
                       observation: Option<Observation>, notRunReason: Option<Reason>, conclusion: Conclusion)

  datatype Rollup = Rollup(assured: seq<string>, blocked: seq<string>, incomplete: seq<string>,
                           survived: seq<string>, unqualified: seq<string>)

  datatype Signal = Sigint | Sigterm

  datatype Terminal = Terminal(
    cleanupOrPrimaryTreeDrift: bool, signal: Option<Signal>, timedOut: bool, invalidEvidence: bool,
    coverageIncomplete: bool, infrastructureFailed: bool, productDefectObserved: bool,
    assertionFailedOrFaultSurvived: bool)

  datatype Cleanup = Cleanup(primaryTreeUnchanged: bool, activeChildStopped: bool,
                             childProcessGroupStopped: bool, ownedResourcesRemovedOrExactlyRecovered: bool,
                             recoveryRequired: bool, recoveryCommand: Option<string>)

  datatype TerminalReason =
    | AllRegisteredItemsAssured | KnownProductDefectRetained | AssertionOrFaultSurvival | InfrastructureFailure
    | CoverageIncomplete | BlockedOrUnqualifiedItemsRetained | CleanupOrPrimaryTreeDrift | ChildTimeout
    | InterruptedSigint | InterruptedSigterm | InvalidExit

  datatype Field =
    | SchemaVersion | RegistryVersion | RegistryDigest | BaselineRevision | BaselineTreeDigest | Children | Items
    | RollupField | TerminalField | ExitCode | TerminalReasonField | ArtifactMode | AtomicWrite | CleanupField
    | RetainedFieldNames

  datatype Evidence = Evidence(
    schemaVersion: int, registryVersion: int, registryDigest: string,
    baselineRevision: string, baselineTreeDigest: string,
    children: seq<Child>, items: seq<Item>, rollup: Rollup, terminal: Terminal,
    exitCode: int, terminalReason: TerminalReason, artifactMode: int, atomicWrite: bool,
    cleanup: Cleanup, retainedFieldNames: seq<Field>)

  const RETAINED_FIELDS: seq<Field> :=
    [SchemaVersion, RegistryVersion, RegistryDigest, BaselineRevision, BaselineTreeDigest, Children, Items,
     RollupField, TerminalField, ExitCode, TerminalReasonField, ArtifactMode, AtomicWrite, CleanupField,
     RetainedFieldNames]

  const OWNER_ONLY := 384

  // ---------------------------------------------------------------- derivations

  /** The documented aggregate precedence over the terminal flags. */
  function AggregateExit(t: Terminal): int {
    if t.cleanupOrPrimaryTreeDrift then 60
    else if t.signal == Some(Sigint) then 130
    else if t.signal == Some(Sigterm) then 143
    else if t.timedOut then 70
    else if t.invalidEvidence then 50
    else if t.coverageIncomplete then 40
    else if t.infrastructureFailed then 30
    else if t.productDefectObserved then 20
    else if t.assertionFailedOrFaultSurvived then 21
    else 0
  }

  function ReasonFor(exit: int): TerminalReason {
    match exit
    case 0 => AllRegisteredItemsAssured
    case 20 => KnownProductDefectRetained
    case 21 => AssertionOrFaultSurvival
    case 30 => InfrastructureFailure
    case 40 => CoverageIncomplete
    case 50 => BlockedOrUnqualifiedItemsRetained
    case 60 => CleanupOrPrimaryTreeDrift
    case 70 => ChildTimeout
    case 130 => InterruptedSigint
    case 143 => InterruptedSigterm
    case _ => InvalidExit
  }

  function AllInvocations(children: seq<Child>): seq<Invocation> {
    if children == [] then []
    else AllInvocations(children[..|children| - 1]) + children[|children| - 1].invocations
  }

  function Completed(invocations: seq<Invocation>): seq<Invocation> {
    if invocations == [] then []
    else
      var last := invocations[|invocations| - 1];
      Completed(invocations[..|invocations| - 1]) + (if last.completed then [last] else [])
  }

  /** Some completed invocation exited with the code. */
  predicate Exited(invocations: seq<Invocation>, code: int) {
    exists i | 0 <= i < |invocations| :: invocations[i].completed && invocations[i].exitCode == Some(code)
  }

  predicate AllClean(invocations: seq<Invocation>) {
    forall i | 0 <= i < |invocations| :: invocations[i].completed ==> invocations[i].cleanupComplete
  }

  function InvocationItem(childId: ChildId, v: Invocation): Item {
    var id := "invocation:" + v.registration.id;
    if !v.completed then Item(id, childId, Eligible, false, None, v.notRunReason, Incomplete)
    else
      var exit := v.exitCode;
      var survived := exit == Some(21) && childId == FaultChild;
      Item(id, childId, if exit == Some(20) then KnownProductDefectCollector else Eligible, true,
           Some(if exit == Some(0) then ObservedPass
                else if exit == Some(20) then ProductDefectObserved
                else if exit == Some(40) then EvidenceIncomplete
                else if survived then FaultSurvived else ObservedAssertionFailure),
           None,
           if exit == Some(0) then Assured
           else if exit == Some(20) then Blocked
           else if exit == Some(40) then Incomplete
           else if survived then Survived else Incomplete)
  }

  function ChildItems(childId: ChildId, invocations: seq<Invocation>): seq<Item> {
    seq(|invocations|, i requires 0 <= i < |invocations| => InvocationItem(childId, invocations[i]))
  }

  function InvocationItems(children: seq<Child>): seq<Item> {
    if children == [] then []
    else
      var last := children[|children| - 1];
      InvocationItems(children[..|children| - 1]) + ChildItems(last.id, last.invocations)
  }

  function GapItem(gap: Gap): Item {
    Item(gap.id, ReportChild, gap.authority, false, None,
         Some(if gap.authority == AuthorityBlocked then AuthorityContractUnavailable else ObservationUnqualified),
         gap.conclusion)
  }

  function GapItems(gaps: seq<Gap>): seq<Item> {
    seq(|gaps|, i requires 0 <= i < |gaps| => GapItem(gaps[i]))
  }

  /** A child's outcome from its invocations. */
  function ChildSummary(invocations: seq<Invocation>): Summary {
    var completed := Completed(invocations);
    var entirelyNotRun := |completed| == 0;
    var failed := exists i | 0 <= i < |completed| :: completed[i].exitCode !in {Some(0), Some(20), Some(40)};
    Summary(
      !entirelyNotRun, !entirelyNotRun,
      if entirelyNotRun then None
      else if failed then Some(AssertionFailed)
      else if Exited(invocations, 40) || |completed| < |invocations| then Some(IncompleteOutcome)
      else if Exited(invocations, 20) then Some(KnownProductDefect)
      else Some(Passed),
      if entirelyNotRun then Some(EarlierChildTerminated) else None,
      AllClean(invocations))
  }

  /** The ids with one conclusion, in item order. */
  function IdsWith(items: seq<Item>, conclusion: Conclusion): seq<string> {
    if items == [] then []
    else
      var last := items[|items| - 1];
      IdsWith(items[..|items| - 1], conclusion) + (if last.conclusion == conclusion then [last.id] else [])
  }

  function RollupOf(items: seq<Item>): Rollup {
    Rollup(Sort(IdsWith(items, Assured)), Sort(IdsWith(items, Blocked)), Sort(IdsWith(items, Incomplete)),
           Sort(IdsWith(items, Survived)), Sort(IdsWith(items, Unqualified)))
  }

  /** Files every id under its item's conclusion, one by one, and sorts each list. */
  method FileItems(items: seq<Item>) returns (r: Rollup)
    ensures r == RollupOf(items)
  {
    var result := Rollup([], [], [], [], []);
    for i := 0 to |items|
      invariant result == Filed(items[..i])
    {
      assert items[..i + 1][..i] == items[..i];
      var id := items[i].id;
      match items[i].conclusion
      case Assured => result := result.(assured := result.assured + [id]);
      case Blocked => result := result.(blocked := result.blocked + [id]);
      case Incomplete => result := result.(incomplete := result.incomplete + [id]);
      case Survived => result := result.(survived := result.survived + [id]);
      case Unqualified => result := result.(unqualified := result.unqualified + [id]);
    }
    assert items[..|items|] == items;
    r := Rollup(Sort(result.assured), Sort(result.blocked), Sort(result.incomplete), Sort(result.survived),
                Sort(result.unqualified));
  }

  /** The lists before they are sorted. */
  function Filed(items: seq<Item>): Rollup {
    Rollup(IdsWith(items, Assured), IdsWith(items, Blocked), IdsWith(items, Incomplete), IdsWith(items, Survived),
           IdsWith(items, Unqualified))
  }

  function ExpectedCleanup(children: seq<Child>, primaryTreeUnchanged: bool): Cleanup {
    var all := AllInvocations(children);
    var recovery := Exited(all, 60);
    var dirty := exists c | 0 <= c < |children| :: !children[c].summary.cleanupComplete;
    Cleanup(primaryTreeUnchanged, !recovery, !recovery, !dirty && !recovery, recovery, None)
  }

  function SignalFrom(interrupted: bool, terminated: bool): Option<Signal> {
    if interrupted then Some(Sigint) else if terminated then Some(Sigterm) else None
  }

  function DerivedTerminal(children: seq<Child>, cleanup: Cleanup, gapPresent: bool): Terminal {
    var all := AllInvocations(children);
    Terminal(
      !cleanup.primaryTreeUnchanged || !AllClean(all) || Exited(all, 60)
      || !cleanup.ownedResourcesRemovedOrExactlyRecovered,
      SignalFrom(Exited(all, 130), Exited(all, 143)),
      Exited(all, 70), Exited(all, 50) || gapPresent, Exited(all, 40), Exited(all, 30), Exited(all, 20),
      Exited(all, 21))
  }

  // ---------------------------------------------------------------- acceptance

  predicate HexDigit(c: char) {
    '0' <= c <= '9' || 'a' <= c <= 'f'
  }

  predicate DashAt(k: int) {
    k == 8 || k == 13 || k == 18 || k == 23
  }

  /** A lower-case version-4 UUID. */
  predicate IsUuid4(s: string) {
    && |s| == 36
    && (forall k | 0 <= k < 36 :: if DashAt(k) then s[k] == '-' else HexDigit(s[k]))
    && s[14] == '4'
    && s[19] in "89ab"
  }

  predicate EndsWith(s: string, suffix: string) {
    |suffix| <= |s| && s[|s| - |suffix|..] == suffix
  }

  const REPORT_ID := "report-aggregate-run"

  /** The one run-specific substitution the report invocation may carry. */
  predicate ArgumentsFit(observed: seq<string>, registered: Registration) {
    || observed == registered.arguments
    || (&& registered.id == REPORT_ID && |observed| == 4
        && observed[0] == "--run" && IsUuid4(observed[1])
        && observed[2] == "--coverage-run" && IsUuid4(observed[3]))
  }

  predicate RegistrationFits(observed: Registration, registered: Registration) {
    observed == registered.(arguments := observed.arguments) && ArgumentsFit(observed.arguments, registered)
  }

  /** The facts of one invocation are bound to the baseline, and complete or absent together. */
  predicate FactsFit(v: Invocation, registered: Registration, revision: string, treeDigest: string) {
    && v.sourceRevision == revision && v.sourceTreeDigest == treeDigest && v.toolIdentity == registered.command
    && (v.completed ==>
          && v.exitCode.Some? && v.artifactReference.Some? && v.artifactDigest.Some? && v.notRunReason.None?
          && EndsWith(v.artifactReference.value, "/children/" + v.registration.id + ".json"))
    && (!v.completed ==>
          && v.exitCode.None? && v.artifactReference.None? && v.artifactDigest.None?
          && !v.cleanupComplete && v.notRunReason.Some?)
  }

  predicate InvocationFits(v: Invocation, registered: Registration, revision: string, treeDigest: string) {
    RegistrationFits(v.registration, registered) && FactsFit(v, registered, revision, treeDigest)
  }

  predicate ChildShapeFits(child: Child, registered: RegisteredChild) {
    child.id == registered.id && child.ordinal == registered.ordinal
    && |child.invocations| == |registered.invocations|
  }

  predicate ChildFits(child: Child, registered: RegisteredChild, revision: string, treeDigest: string) {
    && ChildShapeFits(child, registered)
    && (forall i | 0 <= i < |child.invocations| ::
          InvocationFits(child.invocations[i], registered.invocations[i], revision, treeDigest))
    && child.summary == ChildSummary(child.invocations)
  }

  predicate Distinct(invocations: seq<Invocation>) {
    forall i, j | 0 <= i < j < |invocations| :: invocations[i].registration.id != invocations[j].registration.id
  }

  function ToolDigests(invocations: seq<Invocation>): set<string> {
    set i | 0 <= i < |invocations| :: invocations[i].toolDigest
  }

  predicate ExitsRegistered(invocations: seq<Invocation>) {
    forall i | 0 <= i < |invocations| :: invocations[i].exitCode.Some? ==> Registered(invocations[i].exitCode.value)
  }

  /** The closed literals of the schema; the string patterns are not part of this model. */
  predicate SchemaFits(e: Evidence) {
    && e.schemaVersion == 1 && e.registryVersion == 1 && Registered(e.exitCode)
    && ExitsRegistered(AllInvocations(e.children)) && e.artifactMode == OWNER_ONLY && e.atomicWrite
  }

  predicate ChildrenFit(registry: Registry, e: Evidence) {
    && |e.children| == |registry.children|
    && (forall c | 0 <= c < |e.children| ::
          ChildFits(e.children[c], registry.children[c], e.baselineRevision, e.baselineTreeDigest))
    && Distinct(AllInvocations(e.children))
    && |ToolDigests(AllInvocations(e.children))| == 1
  }

  predicate ItemsFit(registry: Registry, e: Evidence) {
    e.items == InvocationItems(e.children) + GapItems(registry.gaps)
  }

  predicate RollupSectionFits(e: Evidence) {
    e.rollup == RollupOf(e.items)
  }

  predicate CleanupSectionFits(e: Evidence) {
    e.cleanup == ExpectedCleanup(e.children, e.cleanup.primaryTreeUnchanged)
  }

  predicate TerminalSectionFits(registry: Registry, e: Evidence) {
    && e.terminal == DerivedTerminal(e.children, e.cleanup, |registry.gaps| > 0)
    && e.exitCode == AggregateExit(e.terminal) && e.terminalReason == ReasonFor(e.exitCode)
  }

  predicate DerivationsFit(registry: Registry, e: Evidence) {
    && ItemsFit(registry, e) && RollupSectionFits(e) && CleanupSectionFits(e) && TerminalSectionFits(registry, e)
    && e.retainedFieldNames == RETAINED_FIELDS
  }

  predicate Accepted(registry: Registry, e: Evidence) {
    SchemaFits(e) && e.registryDigest == registry.digest && ChildrenFit(registry, e) && DerivationsFit(registry, e)
  }

  datatype Verdict =
    | Valid | SchemaInvalid | RegistryInvalid | ChildrenInvalid | InvocationsInvalid | InvocationFactsInvalid
    | ChildOutcomeInvalid | ItemsInvalid | RollupInvalid | CleanupInvalid | TerminalInvalid | StorageInvalid
}
