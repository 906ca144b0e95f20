/** The shared lease directory: port-block directories, worktree claims and quarantine tombstones,
    changed by any number of processes through atomic directory operations.

    `Fs` is the file system the processes share. A block directory may be the target of a rename
    only when it is absent or empty (the rename() page of the System Interfaces volume of
    POSIX.1-2017). Reading a claim and removing it is one step, and so is each
    read-compare-replace of lease.json. */
module LeaseStore {
  import opened LeaseRecords

  datatype LeaseFile = Missing | Unreadable | Lease(record: LeaseRecord)

  /** One `owner-<run>` directory. `intent` remembers which start created it; it is not on disk. */
  datatype OwnerDir = OwnerDir(file: LeaseFile, intent: string)

  datatype Claim = Claim(runId: string, startupIntentId: string, worktreePath: string, owner: ProcessIdentity)

  datatype Fs = Fs(blocks: map<nat, map<string, OwnerDir>>, tombstones: set<nat>, claims: map<string, Claim>)

  // ---------------------------------------------------------------- directory operations

  function ClaimOf(record: LeaseRecord): Claim {
    Claim(record.runId, record.startupIntentId, record.worktreePath, record.ownerProcess)
  }

  predicate PairedWith(claim: Claim, record: LeaseRecord) {
    && claim.runId == record.runId
    && claim.startupIntentId == record.startupIntentId
    && claim.worktreePath == record.worktreePath
  }

  /** Every block holding an owner directory of the run. */
  function OwnerPorts(fs: Fs, run: string): set<nat> {
    set port | port in fs.blocks && run in fs.blocks[port]
  }

  predicate BlockFree(fs: Fs, port: nat) {
    port !in fs.blocks || (fs.blocks[port] == map[] && port !in fs.tombstones)
  }

  function PublishLease(fs: Fs, record: LeaseRecord): Fs {
    fs.(blocks := fs.blocks[record.manifest.ports.porta :=
          map[record.runId := OwnerDir(Lease(record), record.startupIntentId)]])
  }

  function WriteFile(fs: Fs, port: nat, run: string, file: LeaseFile): Fs
    requires port in fs.blocks && run in fs.blocks[port]
  {
    fs.(blocks := fs.blocks[port := fs.blocks[port][run := fs.blocks[port][run].(file := file)]])
  }

  function RemoveOwner(fs: Fs, port: nat, run: string): Fs
    requires port in fs.blocks
  {
    fs.(blocks := fs.blocks[port := fs.blocks[port] - {run}])
  }

  function RemoveBlock(fs: Fs, port: nat): Fs {
    fs.(blocks := fs.blocks - {port})
  }

  function RemoveClaim(fs: Fs, worktree: string): Fs {
    fs.(claims := fs.claims - {worktree})
  }

  // ---------------------------------------------------------------- processes

  /** A start selects a block, and never tries another one after it has acquired one. */
  datatype StarterPhase = Selecting | Claimed | Holding(port: nat) | Ended

  datatype Starter = Starter(proc: ProcessIdentity, runId: string, worktreePath: string, phase: StarterPhase)

  /** How far a release has come after it compared the complete record. */
  datatype ReleasePhase = LeaseUnlinked | OwnerRemoved | BlockRemoved

  datatype Release = Release(proc: ProcessIdentity, record: LeaseRecord, port: nat, phase: ReleasePhase)

  datatype State = State(fs: Fs, alive: set<ProcessIdentity>, born: set<ProcessIdentity>,
                         starters: map<string, Starter>, releases: map<nat, Release>)

  datatype Event =
    | Birth(proc: ProcessIdentity)
    | Crash(proc: ProcessIdentity)
    // one start
    | Begin(intent: string, proc: ProcessIdentity, runId: string, worktreePath: string)
    | TakeClaim(intent: string)
    | KeepClaim(intent: string)
    | ReclaimDead(intent: string)
    | RefuseClaim(intent: string)
    | TakeBlock(intent: string, record: LeaseRecord)
    | BlockOccupied(intent: string, port: nat)
    | ReleaseIntent(intent: string)
    | Abandon(intent: string)
    // updates of one lease file
    | Transfer(expected: LeaseRecord, port: nat, newOwner: ProcessIdentity)
    | Finalize(expected: LeaseRecord, port: nat, discovered: LeaseRecord)
    | Corrupt(port: nat, runId: string)
    // one release
    | UnlinkLease(op: nat, proc: ProcessIdentity, record: LeaseRecord, port: nat)
    | RmOwner(op: nat)
    | RmBlock(op: nat)
    | DropClaim(op: nat)
    | FailRelease(op: nat)
    // quarantine
    | MoveAside(port: nat, runId: string)
    | WriteTombstone(port: nat)

  predicate StarterIn(s: State, intent: string, phase: StarterPhase) {
    intent in s.starters && s.starters[intent].proc in s.alive && s.starters[intent].phase == phase
  }

  predicate ReleaseIn(s: State, op: nat, phase: ReleasePhase) {
    op in s.releases && s.releases[op].proc in s.alive && s.releases[op].phase == phase
  }

  /** The record one start offers to the store: its own identity on some candidate block. */
  predicate OfferedBy(record: LeaseRecord, intent: string, starter: Starter) {
    && record.startupIntentId == intent
    && record.runId == starter.runId
    && record.worktreePath == starter.worktreePath
    && record.ownerProcess == starter.proc
    && record.manifest.ports == PortsFrom(record.manifest.ports.porta)
  }

  predicate LeaseAt(fs: Fs, port: nat, record: LeaseRecord) {
    port in fs.blocks && record.runId in fs.blocks[port] && fs.blocks[port][record.runId].file == Lease(record)
  }

  predicate Enabled(s: State, e: Event) {
    match e
    case Birth(proc) => proc !in s.born
    case Crash(proc) => proc in s.alive
    case Begin(intent, proc, run, worktree) => intent !in s.starters && proc in s.alive
    case TakeClaim(intent) =>
      StarterIn(s, intent, Selecting) && s.starters[intent].worktreePath !in s.fs.claims
    case KeepClaim(intent) =>
      && StarterIn(s, intent, Selecting)
      && var me := s.starters[intent];
      && me.worktreePath in s.fs.claims
      && s.fs.claims[me.worktreePath].runId == me.runId
      && s.fs.claims[me.worktreePath].startupIntentId == intent
      && s.fs.claims[me.worktreePath].owner in s.alive
    case ReclaimDead(intent) =>
      && StarterIn(s, intent, Selecting)
      && var w := s.starters[intent].worktreePath;
      && w in s.fs.claims
      && s.fs.claims[w].owner !in s.alive
      && OwnerPorts(s.fs, s.fs.claims[w].runId) == {}
    case RefuseClaim(intent) =>
      StarterIn(s, intent, Selecting) && s.starters[intent].worktreePath in s.fs.claims
    case TakeBlock(intent, record) =>
      && StarterIn(s, intent, Claimed)
      && OfferedBy(record, intent, s.starters[intent])
      && BlockFree(s.fs, record.manifest.ports.porta)
    case BlockOccupied(intent, port) => StarterIn(s, intent, Claimed) && !BlockFree(s.fs, port)
    case ReleaseIntent(intent) =>
      && StarterIn(s, intent, Selecting)
      && var me := s.starters[intent];
      && OwnerPorts(s.fs, me.runId) == {}
      && me.worktreePath in s.fs.claims
      && s.fs.claims[me.worktreePath].runId == me.runId
      && s.fs.claims[me.worktreePath].startupIntentId == intent
    case Abandon(intent) => StarterIn(s, intent, Selecting) || StarterIn(s, intent, Claimed)
    case Transfer(expected, port, newOwner) => LeaseAt(s.fs, port, expected) && newOwner in s.alive
    case Finalize(expected, port, discovered) => LeaseAt(s.fs, port, expected) && Advances(expected, discovered)
    case Corrupt(port, run) =>
      port in s.fs.blocks && run in s.fs.blocks[port] && s.fs.blocks[port][run].file.Lease?
    case UnlinkLease(op, proc, record, port) =>
      && op !in s.releases && proc in s.alive
      && OwnerPorts(s.fs, record.runId) == {port}
      && LeaseAt(s.fs, port, record)
    case RmOwner(op) =>
      && ReleaseIn(s, op, LeaseUnlinked)
      && var r := s.releases[op];
      && r.port in s.fs.blocks && r.record.runId in s.fs.blocks[r.port]
      && s.fs.blocks[r.port][r.record.runId].file == Missing
    case RmBlock(op) =>
      && ReleaseIn(s, op, OwnerRemoved)
      && s.releases[op].port in s.fs.blocks && BlockFree(s.fs, s.releases[op].port)
    case DropClaim(op) =>
      && ReleaseIn(s, op, BlockRemoved)
      && var r := s.releases[op].record;
      && r.worktreePath in s.fs.claims && PairedWith(s.fs.claims[r.worktreePath], r)
    case FailRelease(op) => op in s.releases
    case MoveAside(port, run) => port in s.fs.blocks && run in s.fs.blocks[port]
    case WriteTombstone(port) => port in s.fs.blocks && port !in s.fs.tombstones
  }

  function SetPhase(s: State, intent: string, phase: StarterPhase): State
    requires intent in s.starters
  {
    s.(starters := s.starters[intent := s.starters[intent].(phase := phase)])
  }

  function Apply(s: State, e: Event): State
    requires Enabled(s, e)
  {
    match e
    case Birth(proc) => s.(alive := s.alive + {proc}, born := s.born + {proc})
    case Crash(proc) => s.(alive := s.alive - {proc})
    case Begin(intent, proc, run, worktree) =>
      s.(starters := s.starters[intent := Starter(proc, run, worktree, Selecting)])
    case TakeClaim(intent) =>
      var me := s.starters[intent];
      SetPhase(s, intent, Claimed).(fs := s.fs.(claims :=
        s.fs.claims[me.worktreePath := Claim(me.runId, intent, me.worktreePath, me.proc)]))
    case KeepClaim(intent) => SetPhase(s, intent, Claimed)
    case ReclaimDead(intent) => s.(fs := RemoveClaim(s.fs, s.starters[intent].worktreePath))
    case RefuseClaim(intent) => SetPhase(s, intent, Ended)
    case TakeBlock(intent, record) =>
      SetPhase(s, intent, Holding(record.manifest.ports.porta)).(fs := PublishLease(s.fs, record))
    case BlockOccupied(intent, port) => SetPhase(s, intent, Selecting)
    case ReleaseIntent(intent) =>
      SetPhase(s, intent, Ended).(fs := RemoveClaim(s.fs, s.starters[intent].worktreePath))
    case Abandon(intent) => SetPhase(s, intent, Ended)
    case Transfer(expected, port, newOwner) =>
      s.(fs := WriteFile(s.fs, port, expected.runId, Lease(expected.(ownerProcess := newOwner))))
    case Finalize(expected, port, discovered) =>
      s.(fs := WriteFile(s.fs, port, expected.runId, Lease(discovered)))
    case Corrupt(port, run) => s.(fs := WriteFile(s.fs, port, run, Unreadable))
    case UnlinkLease(op, proc, record, port) =>
      s.(fs := WriteFile(s.fs, port, record.runId, Missing),
         releases := s.releases[op := Release(proc, record, port, LeaseUnlinked)])
    case RmOwner(op) =>
      var r := s.releases[op];
      s.(fs := RemoveOwner(s.fs, r.port, r.record.runId),
         releases := s.releases[op := r.(phase := OwnerRemoved)])
    case RmBlock(op) =>
      s.(fs := RemoveBlock(s.fs, s.releases[op].port),
         releases := s.releases[op := s.releases[op].(phase := BlockRemoved)])
    case DropClaim(op) =>
      s.(fs := RemoveClaim(s.fs, s.releases[op].record.worktreePath), releases := s.releases - {op})
    case FailRelease(op) => s.(releases := s.releases - {op})
    case MoveAside(port, run) => s.(fs := RemoveOwner(s.fs, port, run))
    case WriteTombstone(port) => s.(fs := s.fs.(tombstones := s.fs.tombstones + {port}))
  }

  predicate Initial(s: State) {
    s.fs == Fs(map[], {}, map[]) && s.alive <= s.born && s.starters == map[] && s.releases == map[]
  }

  /** A run: every event is enabled where it happens. */
  predicate Legal(s: State, es: seq<Event>)
    decreases |es|
  {
    es == [] || (Enabled(s, es[0]) && Legal(Apply(s, es[0]), es[1..]))
  }

  function After(s: State, es: seq<Event>): State
    requires Legal(s, es)
    decreases |es|
  {
    if es == [] then s else After(Apply(s, es[0]), es[1..])
  }

  // ---------------------------------------------------------------- what holds in every run

  ghost predicate OneLeasePerBlock(fs: Fs) {
    forall port, a, b :: LeaseAt(fs, port, a) && LeaseAt(fs, port, b) ==> a == b
  }

  ghost predicate OneLeasePerWorktree(fs: Fs) {
    forall p, q, a, b :: LeaseAt(fs, p, a) && LeaseAt(fs, q, b) && a.worktreePath == b.worktreePath ==>
      p == q && a == b
  }

  ghost predicate EveryLeaseIsClaimed(fs: Fs) {
    forall port, r :: LeaseAt(fs, port, r) ==>
      r.worktreePath in fs.claims && PairedWith(fs.claims[r.worktreePath], r)
  }

  ghost predicate BlocksHoldOneOwner(s: State) {
    forall port, a, b :: port in s.fs.blocks && a in s.fs.blocks[port] && b in s.fs.blocks[port] ==> a == b
  }

  /** An owner directory was put where it is by the start that remembers holding that block. */
  ghost predicate OwnersHaveStarters(s: State) {
    forall port, run :: port in s.fs.blocks && run in s.fs.blocks[port] ==>
      var i := s.fs.blocks[port][run].intent;
      i in s.starters && s.starters[i].phase == Holding(port) && s.starters[i].runId == run
  }

  ghost predicate LeasesMatchTheirDirectory(s: State) {
    forall port, r :: LeaseAt(s.fs, port, r) ==>
      && r.manifest.ports == PortsFrom(port)
      && r.startupIntentId == s.fs.blocks[port][r.runId].intent
  }

  ghost predicate ClaimsHaveStarters(s: State) {
    forall w :: w in s.fs.claims ==>
      var c := s.fs.claims[w];
      && c.worktreePath == w && c.startupIntentId in s.starters
      && s.starters[c.startupIntentId].proc == c.owner
      && s.starters[c.startupIntentId].worktreePath == w
  }

  /** A live start that is about to take a block still has its claim. */
  ghost predicate ClaimsOutlastStarters(s: State) {
    forall i :: StarterIn(s, i, Claimed) ==>
      var me := s.starters[i];
      me.worktreePath in s.fs.claims
      && s.fs.claims[me.worktreePath] == Claim(me.runId, i, me.worktreePath, me.proc)
  }

  /** A release past its comparison belongs to a start that holds a block, and past the removal of
      the owner directory no directory of that start is left. */
  ghost predicate ReleasesAreLate(s: State) {
    forall op :: op in s.releases ==>
      var r := s.releases[op];
      var i := r.record.startupIntentId;
      && i in s.starters && s.starters[i].phase == Holding(r.port) && s.starters[i].runId == r.record.runId
      && (r.phase != LeaseUnlinked ==>
            !(r.port in s.fs.blocks && r.record.runId in s.fs.blocks[r.port]
              && s.fs.blocks[r.port][r.record.runId].intent == i))
  }

  ghost predicate Inv(s: State) {
    && s.alive <= s.born
    && (forall i :: i in s.starters ==> s.starters[i].proc in s.born)
    && BlocksHoldOneOwner(s)
    && OwnersHaveStarters(s)
    && LeasesMatchTheirDirectory(s)
    && EveryLeaseIsClaimed(s.fs)
    && ClaimsHaveStarters(s)
    && ClaimsOutlastStarters(s)
    && ReleasesAreLate(s)
  }

  predicate OwnerAt(fs: Fs, port: nat, run: string) {
    port in fs.blocks && run in fs.blocks[port]
  }

  /** The events that change a block directory: writing a lease file, taking things away, or taking a block. */
  predicate WritesFile(e: Event) {
    e.Transfer? || e.Finalize? || e.Corrupt? || e.UnlinkLease?
  }

  predicate TakesAway(e: Event) {
    e.RmOwner? || e.RmBlock? || e.MoveAside?
  }

  lemma BlocksStay(s: State, e: Event)
    requires Enabled(s, e) && !WritesFile(e) && !TakesAway(e) && !e.TakeBlock?
    ensures Apply(s, e).fs.blocks == s.fs.blocks
  {
  }

  lemma WritingMovesNothing(s: State, e: Event, port: nat, run: string)
    requires Enabled(s, e) && WritesFile(e) && OwnerAt(Apply(s, e).fs, port, run)
    ensures OwnerAt(s.fs, port, run) && Apply(s, e).fs.blocks[port][run].intent == s.fs.blocks[port][run].intent
  {
  }

  lemma TakingAwayAddsNothing(s: State, e: Event, port: nat, run: string)
    requires Enabled(s, e) && TakesAway(e) && OwnerAt(Apply(s, e).fs, port, run)
    ensures OwnerAt(s.fs, port, run) && Apply(s, e).fs.blocks[port][run] == s.fs.blocks[port][run]
  {
  }

  /** Owner directories never move; a new one appears only when a start takes a free block. */
  lemma OwnersComeFromStarts(s: State, e: Event, port: nat, run: string)
    requires Enabled(s, e) && OwnerAt(Apply(s, e).fs, port, run)
    ensures if OwnerAt(s.fs, port, run)
            then Apply(s, e).fs.blocks[port][run].intent == s.fs.blocks[port][run].intent
            else e.TakeBlock? && port == e.record.manifest.ports.porta && run == e.record.runId
                 && Apply(s, e).fs.blocks[port] == map[run := OwnerDir(Lease(e.record), e.intent)]
                 && BlockFree(s.fs, port)
  {
    if WritesFile(e) {
      WritingMovesNothing(s, e, port, run);
    } else if TakesAway(e) {
      TakingAwayAddsNothing(s, e, port, run);
    } else if !e.TakeBlock? {
      BlocksStay(s, e);
    }
  }

  /** Once a start holds a block it never selects again. */
  lemma HoldersStay(s: State, e: Event, i: string)
    requires Enabled(s, e) && i in s.starters && s.starters[i].phase.Holding?
    ensures i in Apply(s, e).starters && Apply(s, e).starters[i] == s.starters[i]
  {
  }

  lemma OwnersStayUnique(s: State, e: Event)
    requires BlocksHoldOneOwner(s) && OwnersHaveStarters(s) && Enabled(s, e)
    ensures BlocksHoldOneOwner(Apply(s, e)) && OwnersHaveStarters(Apply(s, e))
  {
    var t := Apply(s, e);
    forall port, a | OwnerAt(t.fs, port, a)
      ensures var i := t.fs.blocks[port][a].intent;
              i in t.starters && t.starters[i].phase == Holding(port) && t.starters[i].runId == a
      ensures forall b :: OwnerAt(t.fs, port, b) ==> a == b
    {
      OwnersComeFromStarts(s, e, port, a);
      if OwnerAt(s.fs, port, a) { HoldersStay(s, e, s.fs.blocks[port][a].intent); }
      forall b | OwnerAt(t.fs, port, b) ensures a == b {
        OwnersComeFromStarts(s, e, port, b);
      }
    }
  }

  /** The only ways a lease file gets its content. */
  lemma LeasesComeFrom(s: State, e: Event, port: nat, r: LeaseRecord)
    requires Enabled(s, e) && LeaseAt(Apply(s, e).fs, port, r) && !LeaseAt(s.fs, port, r)
    ensures
      || (e.TakeBlock? && e.record == r && port == r.manifest.ports.porta && r.startupIntentId == e.intent)
      || (e.Transfer? && e.port == port && LeaseAt(s.fs, port, e.expected)
          && r == e.expected.(ownerProcess := e.newOwner))
      || (e.Finalize? && e.port == port && LeaseAt(s.fs, port, e.expected)
          && r == e.discovered && StoreSameAuthority(e.expected, r))
  {
    if TakesAway(e) {
      TakingAwayAddsNothing(s, e, port, r.runId);
    } else if !WritesFile(e) && !e.TakeBlock? {
      BlocksStay(s, e);
    } else if WritesFile(e) {
      FileComesFrom(s, e, port, r);
    }
  }

  lemma FileComesFrom(s: State, e: Event, port: nat, r: LeaseRecord)
    requires Enabled(s, e) && WritesFile(e) && LeaseAt(Apply(s, e).fs, port, r) && !LeaseAt(s.fs, port, r)
    ensures e.Transfer? || e.Finalize?
    ensures e.port == port && LeaseAt(s.fs, port, e.expected)
    ensures if e.Transfer? then r == e.expected.(ownerProcess := e.newOwner)
            else r == e.discovered && StoreSameAuthority(e.expected, r)
  {
  }

  lemma SameAuthorityMeans(a: LeaseRecord, b: LeaseRecord)
    requires StoreSameAuthority(a, b)
    ensures a.runId == b.runId && a.startupIntentId == b.startupIntentId
    ensures a.worktreePath == b.worktreePath && a.ownerProcess == b.ownerProcess && a.manifest == b.manifest
  {
    assert a.manifest == Authority(a).manifest == Authority(b).manifest == b.manifest;
    assert a.runId == Authority(a).runId == Authority(b).runId == b.runId;
  }

  lemma LeasesStayInPlace(s: State, e: Event)
    requires LeasesMatchTheirDirectory(s) && Enabled(s, e)
    ensures LeasesMatchTheirDirectory(Apply(s, e))
  {
    var t := Apply(s, e);
    forall port, r | LeaseAt(t.fs, port, r)
      ensures r.manifest.ports == PortsFrom(port)
      ensures r.startupIntentId == t.fs.blocks[port][r.runId].intent
    {
      OwnersComeFromStarts(s, e, port, r.runId);
      if !LeaseAt(s.fs, port, r) {
        LeasesComeFrom(s, e, port, r);
        if e.Finalize? { SameAuthorityMeans(e.expected, r); }
      }
    }
  }

  /** The only ways a claim goes away. */
  lemma ClaimsGoBy(s: State, e: Event, w: string)
    requires Enabled(s, e) && w in s.fs.claims
    ensures
      || (w in Apply(s, e).fs.claims && Apply(s, e).fs.claims[w] == s.fs.claims[w])
      || (e.ReclaimDead? && s.starters[e.intent].worktreePath == w
          && s.fs.claims[w].owner !in s.alive && OwnerPorts(s.fs, s.fs.claims[w].runId) == {})
      || (e.ReleaseIntent? && s.starters[e.intent].phase == Selecting && s.fs.claims[w].startupIntentId == e.intent
          && OwnerPorts(s.fs, s.fs.claims[w].runId) == {})
      || (e.DropClaim? && s.releases[e.op].phase == BlockRemoved && PairedWith(s.fs.claims[w], s.releases[e.op].record))
  {
  }

  /** A claim goes away only when no lease relies on it. */
  lemma ClaimSurvives(s: State, e: Event, port: nat, r: LeaseRecord)
    requires EveryLeaseIsClaimed(s.fs) && LeasesMatchTheirDirectory(s) && OwnersHaveStarters(s) && ReleasesAreLate(s)
    requires Enabled(s, e) && LeaseAt(s.fs, port, r) && OwnerAt(Apply(s, e).fs, port, r.runId)
    ensures r.worktreePath in Apply(s, e).fs.claims && PairedWith(Apply(s, e).fs.claims[r.worktreePath], r)
  {
    assert port in OwnerPorts(s.fs, r.runId);
    ClaimsGoBy(s, e, r.worktreePath);
    if e.DropClaim? { OwnersComeFromStarts(s, e, port, r.runId); }
  }

  lemma ClaimsStayPaired(s: State, e: Event)
    requires Inv(s) && Enabled(s, e)
    ensures EveryLeaseIsClaimed(Apply(s, e).fs)
  {
    var t := Apply(s, e);
    forall port, r | LeaseAt(t.fs, port, r)
      ensures r.worktreePath in t.fs.claims && PairedWith(t.fs.claims[r.worktreePath], r)
    {
      if LeaseAt(s.fs, port, r) {
        ClaimSurvives(s, e, port, r);
      } else {
        LeasesComeFrom(s, e, port, r);
        if e.TakeBlock? {
          StarterHasClaim(s, e.intent);
        } else {
          ClaimSurvives(s, e, port, e.expected);
          if e.Finalize? { SameAuthorityMeans(e.expected, r); }
        }
      }
    }
  }

  lemma StarterHasClaim(s: State, i: string)
    requires ClaimsOutlastStarters(s) && StarterIn(s, i, Claimed)
    ensures var me := s.starters[i];
            && me.worktreePath in s.fs.claims
            && s.fs.claims[me.worktreePath] == Claim(me.runId, i, me.worktreePath, me.proc)
  {
  }

  /** A start is for ever who began it; only its phase changes, and a start that has just claimed took or
      kept its claim. */
  lemma StartersStay(s: State, e: Event, i: string)
    requires Enabled(s, e) && i in Apply(s, e).starters
    ensures if i in s.starters
            then && Apply(s, e).starters[i] == s.starters[i].(phase := Apply(s, e).starters[i].phase)
                 && (Apply(s, e).starters[i].phase == Claimed ==>
                       s.starters[i].phase == Claimed || e == TakeClaim(i) || e == KeepClaim(i))
            else e.Begin? && Apply(s, e).starters[i].phase == Selecting
  {
  }

  lemma StartersAreKept(s: State, e: Event, i: string)
    requires Enabled(s, e) && i in s.starters
    ensures i in Apply(s, e).starters
  {
  }

  /** Where a claim in place comes from: it was there, or its start just took it. */
  lemma ClaimComesFrom(s: State, e: Event, w: string)
    requires Enabled(s, e) && w in Apply(s, e).fs.claims
    ensures || (w in s.fs.claims && Apply(s, e).fs.claims[w] == s.fs.claims[w])
            || (e.TakeClaim? && e.intent in s.starters && s.starters[e.intent].worktreePath == w
                && Apply(s, e).fs.claims[w]
                   == Claim(s.starters[e.intent].runId, e.intent, w, s.starters[e.intent].proc))
  {
  }

  lemma ClaimsKeepStarters(s: State, e: Event)
    requires ClaimsHaveStarters(s) && Enabled(s, e)
    ensures ClaimsHaveStarters(Apply(s, e))
  {
    var t := Apply(s, e);
    forall w | w in t.fs.claims
      ensures var c := t.fs.claims[w];
              && c.worktreePath == w && c.startupIntentId in t.starters
              && t.starters[c.startupIntentId].proc == c.owner
              && t.starters[c.startupIntentId].worktreePath == w
    {
      ClaimComesFrom(s, e, w);
      var i := t.fs.claims[w].startupIntentId;
      StartersAreKept(s, e, i);
      StartersStay(s, e, i);
    }
  }

  /** Only the unborn are born. */
  lemma LivesComeFrom(s: State, e: Event, proc: ProcessIdentity)
    requires Enabled(s, e) && proc in Apply(s, e).alive
    ensures proc in s.alive || proc !in s.born
  {
  }

  /** What a claiming start found keeps it alive: no other start, dead start or release may remove it. */
  lemma ClaimStaysOwned(s: State, e: Event, i: string)
    requires ClaimsHaveStarters(s) && ClaimsOutlastStarters(s) && ReleasesAreLate(s) && Enabled(s, e)
    requires StarterIn(s, i, Claimed)
    ensures var me := s.starters[i];
            && me.worktreePath in Apply(s, e).fs.claims
            && Apply(s, e).fs.claims[me.worktreePath] == Claim(me.runId, i, me.worktreePath, me.proc)
  {
    StarterHasClaim(s, i);
    var w := s.starters[i].worktreePath;
    ClaimsGoBy(s, e, w);
  }

  lemma ClaimsStayOwned(s: State, e: Event)
    requires ClaimsHaveStarters(s) && ClaimsOutlastStarters(s) && ReleasesAreLate(s) && Enabled(s, e)
    requires s.alive <= s.born && forall i :: i in s.starters ==> s.starters[i].proc in s.born
    ensures ClaimsOutlastStarters(Apply(s, e))
  {
    var t := Apply(s, e);
    forall i | StarterIn(t, i, Claimed)
      ensures var me := t.starters[i];
              && me.worktreePath in t.fs.claims
              && t.fs.claims[me.worktreePath] == Claim(me.runId, i, me.worktreePath, me.proc)
    {
      StartersStay(s, e, i);
      LivesComeFrom(s, e, t.starters[i].proc);
      if s.starters[i].phase == Claimed {
        ClaimStaysOwned(s, e, i);
      } else if e.KeepClaim? {
        assert s.fs.claims[s.starters[i].worktreePath].startupIntentId == i;
      }
    }
  }

  lemma ReleasesStayLate(s: State, e: Event)
    requires ReleasesAreLate(s) && OwnersHaveStarters(s) && LeasesMatchTheirDirectory(s) && Enabled(s, e)
    ensures ReleasesAreLate(Apply(s, e))
  {
    var t := Apply(s, e);
    forall op | op in t.releases
      ensures var r := t.releases[op];
              var i := r.record.startupIntentId;
              && i in t.starters && t.starters[i].phase == Holding(r.port) && t.starters[i].runId == r.record.runId
              && (r.phase != LeaseUnlinked ==>
                    !(OwnerAt(t.fs, r.port, r.record.runId) && t.fs.blocks[r.port][r.record.runId].intent == i))
    {
      ReleaseStaysLate(s, e, op);
    }
  }

  lemma ReleaseStaysLate(s: State, e: Event, op: nat)
    requires ReleasesAreLate(s) && OwnersHaveStarters(s) && LeasesMatchTheirDirectory(s)
    requires Enabled(s, e) && op in Apply(s, e).releases
    ensures var t := Apply(s, e);
            var r := t.releases[op];
            var i := r.record.startupIntentId;
            && i in t.starters && t.starters[i].phase == Holding(r.port) && t.starters[i].runId == r.record.runId
            && (r.phase != LeaseUnlinked ==>
                  !(OwnerAt(t.fs, r.port, r.record.runId) && t.fs.blocks[r.port][r.record.runId].intent == i))
  {
    var t := Apply(s, e);
    var r := t.releases[op];
    if op in s.releases {
      assert s.releases[op].record == r.record && s.releases[op].port == r.port;
      HoldersStay(s, e, r.record.startupIntentId);
      if OwnerAt(t.fs, r.port, r.record.runId) {
        OwnersComeFromStarts(s, e, r.port, r.record.runId);
      }
    } else {
      assert e.UnlinkLease? && LeaseAt(s.fs, e.port, e.record);
      HoldersStay(s, e, r.record.startupIntentId);
    }
  }

  lemma StepKeepsInv(s: State, e: Event)
    requires Inv(s) && Enabled(s, e)
    ensures Inv(Apply(s, e))
  {
    OwnersStayUnique(s, e);
    LeasesStayInPlace(s, e);
    ClaimsStayPaired(s, e);
    ClaimsKeepStarters(s, e);
    ClaimsStayOwned(s, e);
    ReleasesStayLate(s, e);
  }

  lemma {:induction false} RunKeepsInv(s: State, es: seq<Event>)
    requires Inv(s) && Legal(s, es)
    ensures Inv(After(s, es))
    decreases |es|
  {
    if es != [] {
      StepKeepsInv(s, es[0]);
      RunKeepsInv(Apply(s, es[0]), es[1..]);
    }
  }

  /** In every reachable state of any number of starts, retries, releases, transfers, crashes and
      stale-claim reclaims: one lease per block, one per worktree, and every lease claimed. */
  lemma LeasesAreExclusive(s: State, es: seq<Event>)
    requires Initial(s) && Legal(s, es)
    ensures OneLeasePerBlock(After(s, es).fs)
    ensures OneLeasePerWorktree(After(s, es).fs)
    ensures EveryLeaseIsClaimed(After(s, es).fs)
  {
    assert Inv(s);
    RunKeepsInv(s, es);
  }

  /** Leases whose base ports are multiples of ten never share a port, whoever holds them. */
  lemma LeasesShareNoPort(s: State, es: seq<Event>, p: nat, a: LeaseRecord, q: nat, b: LeaseRecord)
    requires Initial(s) && Legal(s, es)
    requires LeaseAt(After(s, es).fs, p, a) && LeaseAt(After(s, es).fs, q, b) && a != b
    requires p % 10 == 0 && q % 10 == 0
    ensures PortSet(a.manifest.ports) !! PortSet(b.manifest.ports)
  {
    assert Inv(s);
    RunKeepsInv(s, es);
    assert p != q;
    TensAreTenApart(p / 10, q / 10);
    BlocksShareAPortIffClose(p, q);
  }

  // ---------------------------------------------------------------- why the claim check is one step

  function SampleRecord(intent: string, proc: ProcessIdentity, base: nat): LeaseRecord {
    LeaseRecord("run-" + intent, intent, proc, "w", "project", [], [], [], [], [], "cert",
                Manifest("run-" + intent, "scenario", "project", "w", "env", PortsFrom(base),
                         Urls("", "", "", "", "", "", ""), "cert"))
  }

  const DEAD := ProcessIdentity(1, "d")
  const FAST := ProcessIdentity(2, "p")
  const SLOW := ProcessIdentity(3, "q")

  /** A dead start's claim on worktree "w", and two live starts that want the worktree. */
  function Contended(claims: map<string, Claim>, blocks: map<nat, map<string, OwnerDir>>,
                     fast: StarterPhase, slow: StarterPhase): State
  {
    State(Fs(blocks, {}, claims), {FAST, SLOW}, {DEAD, FAST, SLOW},
          map["x" := Starter(DEAD, "run-x", "w", Claimed), "p" := Starter(FAST, "run-p", "w", fast),
              "q" := Starter(SLOW, "run-q", "w", slow)], map[])
  }

  const DEAD_CLAIM := map["w" := Claim("run-x", "x", "w", DEAD)]
  const FAST_CLAIM := map["w" := Claim("run-p", "p", "w", FAST)]

  function HeldBy(intent: string, proc: ProcessIdentity, base: nat): map<string, OwnerDir> {
    map["run-" + intent := OwnerDir(Lease(SampleRecord(intent, proc, base)), intent)]
  }

  lemma {:induction false} RunsJoin(s: State, a: seq<Event>, b: seq<Event>)
    requires Legal(s, a) && Legal(After(s, a), b)
    ensures Legal(s, a + b) && After(s, a + b) == After(After(s, a), b)
    decreases |a|
  {
    if a == [] {
      assert a + b == b;
    } else {
      RunsJoin(Apply(s, a[0]), a[1..], b);
      assert (a + b)[1..] == a[1..] + b;
    }
  }

  lemma DeadClaimIsReached() returns (start: State, es: seq<Event>)
    ensures Initial(start) && Legal(start, es)
    ensures After(start, es) == Contended(DEAD_CLAIM, map[], Selecting, Selecting)
  {
    start := State(Fs(map[], {}, map[]), {DEAD, FAST, SLOW}, {DEAD, FAST, SLOW}, map[], map[]);
    var first := [Begin("x", DEAD, "run-x", "w"), TakeClaim("x"), Crash(DEAD)];
    var s1 := Apply(start, first[0]);
    var s2 := Apply(s1, first[1]);
    var s3 := Apply(s2, first[2]);
    RunOf([start, s1, s2, s3], first);
    var second := OthersBegin(s3);
    RunsJoin(start, first, second);
    es := first + second;
  }

  lemma OthersBegin(s: State) returns (es: seq<Event>)
    requires s == State(Fs(map[], {}, DEAD_CLAIM), {FAST, SLOW}, {DEAD, FAST, SLOW},
                        map["x" := Starter(DEAD, "run-x", "w", Claimed)], map[])
    ensures Legal(s, es) && After(s, es) == Contended(DEAD_CLAIM, map[], Selecting, Selecting)
  {
    es := [Begin("p", FAST, "run-p", "w"), Begin("q", SLOW, "run-q", "w")];
    var s1 := Apply(s, es[0]);
    RunOf([s, s1, Apply(s1, es[1])], es);
  }

  lemma FastStartReclaims() returns (es: seq<Event>)
    ensures var s := Contended(DEAD_CLAIM, map[], Selecting, Selecting);
            Legal(s, es) && After(s, es) == Contended(FAST_CLAIM, map[], Claimed, Selecting)
  {
    var s := Contended(DEAD_CLAIM, map[], Selecting, Selecting);
    es := [ReclaimDead("p"), TakeClaim("p")];
    assert OwnerPorts(s.fs, "run-x") == {};
    var s1 := Apply(s, es[0]);
    RunOf([s, s1, Apply(s1, es[1])], es);
  }

  lemma FastStartTakesTheLease() returns (es: seq<Event>)
    ensures var s := Contended(DEAD_CLAIM, map[], Selecting, Selecting);
            && Legal(s, es)
            && After(s, es) == Contended(FAST_CLAIM, map[30000 := HeldBy("p", FAST, 30000)], Holding(30000), Selecting)
  {
    var first := FastStartReclaims();
    var s := Contended(FAST_CLAIM, map[], Claimed, Selecting);
    var second := [TakeBlock("p", SampleRecord("p", FAST, 30000))];
    RunOf([s, Apply(s, second[0])], second);
    RunsJoin(Contended(DEAD_CLAIM, map[], Selecting, Selecting), first, second);
    es := first + second;
  }

  lemma SlowStartTakesASecondLease()
    ensures var s := Contended(map[], map[30000 := HeldBy("p", FAST, 30000)], Holding(30000), Selecting);
            var es := [TakeClaim("q"), TakeBlock("q", SampleRecord("q", SLOW, 30010))];
            && Legal(s, es)
            && LeaseAt(After(s, es).fs, 30000, SampleRecord("p", FAST, 30000))
            && LeaseAt(After(s, es).fs, 30010, SampleRecord("q", SLOW, 30010))
  {
    var s := Contended(map[], map[30000 := HeldBy("p", FAST, 30000)], Holding(30000), Selecting);
    var es := [TakeClaim("q"), TakeBlock("q", SampleRecord("q", SLOW, 30010))];
    var s1 := Apply(s, es[0]);
    RunOf([s, s1, Apply(s1, es[1])], es);
  }

  /** When a start decides to remove a dead start's claim and removes it only later, by path, it can
      remove the claim a faster start has placed meanwhile, and one worktree ends up with two leases. */
  lemma SplitReclaimBreaksExclusion()
    returns (start: State, es: seq<Event>, fast: seq<Event>, torn: State, slow: seq<Event>)
    ensures Initial(start) && Legal(start, es)
    ensures Enabled(After(start, es), ReclaimDead("q"))
    ensures Legal(After(start, es), fast)
    ensures torn == After(After(start, es), fast).(fs := RemoveClaim(After(After(start, es), fast).fs, "w"))
    ensures Legal(torn, slow) && !OneLeasePerWorktree(After(torn, slow).fs)
  {
    start, es := DeadClaimIsReached();
    assert OwnerPorts(After(start, es).fs, "run-x") == {};
    fast := FastStartTakesTheLease();
    torn := Contended(map[], map[30000 := HeldBy("p", FAST, 30000)], Holding(30000), Selecting);
    SlowStartTakesASecondLease();
    slow := [TakeClaim("q"), TakeBlock("q", SampleRecord("q", SLOW, 30010))];
  }

  /** A chain of states, each obtained from the one before, is a run. */
  lemma {:induction false} RunOf(states: seq<State>, es: seq<Event>)
    requires |states| == |es| + 1
    requires forall i :: 0 <= i < |es| ==> Enabled(states[i], es[i]) && states[i + 1] == Apply(states[i], es[i])
    ensures Legal(states[0], es) && After(states[0], es) == states[|es|]
    decreases |es|
  {
    if es != [] {
      assert states[1] == Apply(states[0], es[0]);
      forall i | 0 <= i < |es[1..]|
        ensures Enabled(states[1..][i], es[1..][i]) && states[1..][i + 1] == Apply(states[1..][i], es[1..][i])
      {
        assert Enabled(states[i + 1], es[i + 1]) && states[i + 1 + 1] == Apply(states[i + 1], es[i + 1]);
      }
      RunOf(states[1..], es[1..]);
    }
  }
}
