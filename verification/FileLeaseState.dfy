/** The file-backed lease store as one process drives it. Each method leaves exactly the directories a
    specification function says; `LeaseAdapterRuns` proves that each such call is a run of `LeaseStore`. */
module FileLeaseState {
  import opened LeaseRecords
  import opened LeaseStore
  import opened Options

  datatype Acquisition = Acquired | WorktreeOccupied | BlockIsOccupied

  datatype ReadResult = Found(record: LeaseRecord) | NotFound | Malformed | Incomplete

  datatype Lookup = Lookup(runId: string, worktreePath: string)

  type Probe = ProcessIdentity -> Presence

  // ---------------------------------------------------------------- what is where

  /** The run's owner directory in the block, if there is one. */
  function DirAt(fs: Fs, port: nat, run: string): Option<OwnerDir> {
    if OwnerAt(fs, port, run) then Some(fs.blocks[port][run]) else None
  }

  function ClaimAt(fs: Fs, worktree: string): Option<Claim> {
    if worktree in fs.claims then Some(fs.claims[worktree]) else None
  }

  /** The lease file of the run's directory in the block holds the record. */
  predicate LeaseFileIs(fs: Fs, port: nat, run: string, record: LeaseRecord) {
    OwnerAt(fs, port, run) && fs.blocks[port][run].file == Lease(record)
  }

  /** Every other run's directories, and all tombstones and claims, are what they were. */
  ghost predicate OnlyRunChanges(before: Fs, after: Fs, run: string) {
    && (forall port, other :: other != run ==> DirAt(after, port, other) == DirAt(before, port, other))
    && after.blocks.Keys == before.blocks.Keys && after.tombstones == before.tombstones && after.claims == before.claims
  }

  /** The run still has the one directory it had, of the same start, and its lease file holds the record. */
  ghost predicate HoldsInstead(before: Fs, after: Fs, old_: LeaseRecord, new_: LeaseRecord) {
    forall port | Matches(before, port, old_) ::
      && DirAt(after, port, old_.runId) == Some(OwnerDir(Lease(new_), before.blocks[port][old_.runId].intent))
      && forall other :: other != port ==> DirAt(after, other, old_.runId).None?
  }

  // ---------------------------------------------------------------- specification functions

  /** The claim in place belongs to this very start, whose process is alive. */
  predicate OwnClaim(fs: Fs, record: LeaseRecord, probe: Probe) {
    && record.worktreePath in fs.claims
    && PairedWith(fs.claims[record.worktreePath], record)
    && probe(fs.claims[record.worktreePath].owner) == Present
  }

  /** The claim in place belongs to a dead start that left no owner directory. */
  predicate StaleClaim(fs: Fs, record: LeaseRecord, probe: Probe) {
    && record.worktreePath in fs.claims
    && probe(fs.claims[record.worktreePath].owner) == Absent
    && OwnerPorts(fs, fs.claims[record.worktreePath].runId) == {}
  }

  lemma DeadStartIsBare(fs: Fs, run: string)
    ensures OwnerPorts(fs, run) == {} <==> forall port :: DirAt(fs, port, run).None?
  {
    if OwnerPorts(fs, run) == {} {
      forall port: nat ensures DirAt(fs, port, run).None? { assert port !in OwnerPorts(fs, run); }
    }
    if forall port :: DirAt(fs, port, run).None? {
      forall port: nat ensures port !in OwnerPorts(fs, run) { assert DirAt(fs, port, run).None?; }
    }
  }

  predicate ClaimGranted(fs: Fs, record: LeaseRecord, probe: Probe) {
    record.worktreePath !in fs.claims || OwnClaim(fs, record, probe) || StaleClaim(fs, record, probe)
  }

  /** The claims after one attempt to claim the record's worktree. */
  function ClaimsAfter(fs: Fs, record: LeaseRecord, probe: Probe): map<string, Claim> {
    if !ClaimGranted(fs, record, probe) || OwnClaim(fs, record, probe) then fs.claims
    else fs.claims[record.worktreePath := ClaimOf(record)]
  }

  /** The directories after an acquisition: the claim when it is granted, and the block when it is free. */
  function AcquiredFs(fs: Fs, record: LeaseRecord, probe: Probe): Fs {
    var claimed := fs.(claims := ClaimsAfter(fs, record, probe));
    if ClaimGranted(fs, record, probe) && BlockFree(fs, record.manifest.ports.porta)
    then PublishLease(claimed, record) else claimed
  }

  /** What an acquisition leaves: the worktree's claim is the record's start's when it was granted, the block's
      one directory holds the record when the block had no owner and no tombstone, and nothing else changes. */
  lemma AcquisitionMeans(fs: Fs, record: LeaseRecord, probe: Probe)
    ensures var after, block := AcquiredFs(fs, record, probe), record.manifest.ports.porta;
            var free := block !in fs.blocks
                        || ((forall run :: DirAt(fs, block, run).None?) && block !in fs.tombstones);
            && after.tombstones == fs.tombstones
            && (forall w :: w != record.worktreePath ==> ClaimAt(after, w) == ClaimAt(fs, w))
            && (!ClaimGranted(fs, record, probe) ==> after == fs)
            && (ClaimGranted(fs, record, probe) ==>
                  && ClaimAt(after, record.worktreePath).Some?
                  && PairedWith(ClaimAt(after, record.worktreePath).value, record)
                  && (|| OwnClaim(fs, record, probe)
                      || ClaimAt(after, record.worktreePath).value.owner == record.ownerProcess)
                  && forall port, run :: DirAt(after, port, run)
                       == if free && port == block && run == record.runId
                          then Some(OwnerDir(Lease(record), record.startupIntentId)) else DirAt(fs, port, run))
  {
    var block := record.manifest.ports.porta;
    if block in fs.blocks {
      if forall run :: DirAt(fs, block, run).None? {
        assert forall run :: run !in fs.blocks[block] by {
          forall run ensures run !in fs.blocks[block] { assert DirAt(fs, block, run).None?; }
        }
      }
    }
  }

  predicate IntentReleasable(fs: Fs, record: LeaseRecord) {
    && OwnerPorts(fs, record.runId) == {}
    && record.worktreePath in fs.claims && PairedWith(fs.claims[record.worktreePath], record)
  }

  /** The run owns one directory, and it holds exactly this record. */
  predicate Matches(fs: Fs, port: nat, record: LeaseRecord) {
    OwnerPorts(fs, record.runId) == {port} && LeaseAt(fs, port, record)
  }

  /** Where the run's one matching lease is, if it is. */
  ghost function PortOf(fs: Fs, record: LeaseRecord): (r: Option<nat>)
    ensures r.Some? ==> Matches(fs, r.value, record)
    ensures r.None? ==> forall port :: !Matches(fs, port, record)
  {
    if port :| Matches(fs, port, record) then Some(port) else None
  }

  lemma PortOfIs(fs: Fs, port: nat, record: LeaseRecord)
    requires Matches(fs, port, record)
    ensures PortOf(fs, record) == Some(port)
  {
    assert port in OwnerPorts(fs, record.runId);
  }

  /** Where the matching lease must be when the run owns a directory on this port. */
  lemma OnlyPort(fs: Fs, port: nat, record: LeaseRecord)
    requires port in OwnerPorts(fs, record.runId) && !Matches(fs, port, record)
    ensures PortOf(fs, record).None?
  {
  }

  /** The directories after the one matching lease is rewritten, or unchanged. */
  ghost function RewrittenFs(fs: Fs, expected: LeaseRecord, replacement: LeaseRecord): Fs {
    match PortOf(fs, expected)
    case None => fs
    case Some(port) => WriteFile(fs, port, expected.runId, Lease(replacement))
  }

  /** A rewrite leaves the replacement in the one lease file that held the expected record, and everything
      else alone; without such a file it leaves everything alone. */
  lemma RewriteMeans(fs: Fs, expected: LeaseRecord, replacement: LeaseRecord)
    ensures var after := RewrittenFs(fs, expected, replacement);
            && HoldsInstead(fs, after, expected, replacement)
            && OnlyRunChanges(fs, after, expected.runId)
            && ((forall port :: !Matches(fs, port, expected)) ==> after == fs)
  {
    forall port: nat | Matches(fs, port, expected) ensures PortOf(fs, expected) == Some(port) {
      PortOfIs(fs, port, expected);
    }
    forall port: nat, other: nat | Matches(fs, port, expected) && other != port
      ensures DirAt(RewrittenFs(fs, expected, replacement), other, expected.runId).None?
    {
      assert other !in OwnerPorts(fs, expected.runId);
    }
  }

  /** What a replaced record no longer is: on disk. */
  lemma ReplacedIsGone(before: Fs, after: Fs, expected: LeaseRecord, replacement: LeaseRecord)
    requires HoldsInstead(before, after, expected, replacement) && replacement.runId == expected.runId
    requires exists port :: Matches(before, port, expected)
    ensures exists port :: Matches(before, port, expected) && Matches(after, port, replacement)
    ensures replacement != expected ==> forall port :: !LeaseAt(after, port, expected)
  {
    var port: nat :| Matches(before, port, expected);
    assert DirAt(after, port, expected.runId).Some?;
    forall other: nat ensures other in OwnerPorts(after, expected.runId) <==> other == port {
      assert other in OwnerPorts(after, expected.runId) <==> OwnerAt(after, other, expected.runId);
      if other != port { assert DirAt(after, other, expected.runId).None?; }
    }
    assert OwnerPorts(after, expected.runId) == {port};
    forall other: nat | LeaseAt(after, other, expected) ensures replacement == expected {
      assert other in OwnerPorts(after, expected.runId);
    }
  }

  /** The directories after a release, which stops where it meets a block that is not empty or a claim
      that is not the record's. */
  ghost function ReleasedFs(fs: Fs, record: LeaseRecord): Fs {
    match PortOf(fs, record)
    case None => fs
    case Some(port) =>
      var emptied := RemoveOwner(fs, port, record.runId);
      if !BlockFree(emptied, port) then emptied
      else if record.worktreePath !in fs.claims || !PairedWith(fs.claims[record.worktreePath], record)
      then RemoveBlock(emptied, port)
      else RemoveClaim(RemoveBlock(emptied, port), record.worktreePath)
  }

  /** What a release must find to complete. */
  predicate Releasable(fs: Fs, port: nat, record: LeaseRecord) {
    && Matches(fs, port, record)
    && fs.blocks[port].Keys == {record.runId} && port !in fs.tombstones
    && record.worktreePath in fs.claims && PairedWith(fs.claims[record.worktreePath], record)
  }

  lemma BlockEmpties(fs: Fs, port: nat, run: string)
    requires port in fs.blocks && run in fs.blocks[port]
    ensures BlockFree(RemoveOwner(fs, port, run), port) <==> fs.blocks[port].Keys == {run} && port !in fs.tombstones
  {
    var left := fs.blocks[port] - {run};
    assert left.Keys == fs.blocks[port].Keys - {run};
    assert left == map[] <==> left.Keys == {};
    assert fs.blocks[port].Keys == {run} <==> fs.blocks[port].Keys - {run} == {};
  }

  lemma UnlinkedThenRemoved(fs: Fs, port: nat, run: string)
    requires port in fs.blocks && run in fs.blocks[port]
    ensures var unlinked := WriteFile(fs, port, run, Missing);
            RemoveOwner(unlinked, port, run) == RemoveOwner(fs, port, run)
  {
    var owners := fs.blocks[port];
    assert owners[run := owners[run].(file := Missing)] - {run} == owners - {run};
  }

  lemma NoOwnerLeft(fs: Fs, port: nat, run: string)
    requires OwnerPorts(fs, run) == {port}
    ensures OwnerPorts(RemoveOwner(fs, port, run), run) == {}
    ensures OwnerPorts(RemoveBlock(RemoveOwner(fs, port, run), port), run) == {}
  {
    assert forall p :: p in fs.blocks && run in fs.blocks[p] ==> p in OwnerPorts(fs, run);
  }

  /** The block is gone with what was in it, and so is the worktree's claim; nothing else is. */
  ghost predicate Released(before: Fs, after: Fs, port: nat, record: LeaseRecord) {
    && port !in after.blocks && after.tombstones == before.tombstones
    && (forall p :: p != port ==> (p in after.blocks <==> p in before.blocks))
    && (forall p, run :: DirAt(after, p, run) == if p == port then None else DirAt(before, p, run))
    && forall w :: ClaimAt(after, w) == if w == record.worktreePath then None else ClaimAt(before, w)
  }

  /** Where a release got past its comparison, the run's directory is gone and every other one is untouched. */
  lemma ReleasedDirs(fs: Fs, record: LeaseRecord, port: nat)
    requires Matches(fs, port, record) && PortOf(fs, record) == Some(port)
    ensures ReleasedFs(fs, record).tombstones == fs.tombstones
    ensures OwnerPorts(ReleasedFs(fs, record), record.runId) == {}
    ensures forall p, run :: DirAt(ReleasedFs(fs, record), p, run)
              == if run == record.runId then None else DirAt(fs, p, run)
  {
    var after := ReleasedFs(fs, record);
    NoOwnerLeft(fs, port, record.runId);
    forall p: nat, run: string
      ensures DirAt(after, p, run) == if run == record.runId then None else DirAt(fs, p, run)
    {
      if run == record.runId {
        assert p !in OwnerPorts(after, run);
      } else if p == port && port !in after.blocks {
        assert BlockFree(RemoveOwner(fs, port, record.runId), port);
        BlockEmpties(fs, port, record.runId);
        assert run !in fs.blocks[port].Keys;
      } else if p == port {
        assert after.blocks[p] == fs.blocks[p] - {record.runId};
      }
    }
  }

  /** A release that finds everything in place leaves the block and the claim gone, and nothing else changed. */
  lemma CompleteRelease(fs: Fs, record: LeaseRecord, port: nat)
    requires Releasable(fs, port, record)
    ensures PortOf(fs, record) == Some(port) && Released(fs, ReleasedFs(fs, record), port, record)
  {
    PortOfIs(fs, port, record);
    BlockEmpties(fs, port, record.runId);
    assert RemoveOwner(fs, port, record.runId).blocks - {port} == fs.blocks - {port};
  }

  /** A release that completes leaves neither lease, block nor claim; one that does not keeps the claim, and
      changes nothing unless the complete record matched. */
  lemma ReleaseMeans(fs: Fs, record: LeaseRecord)
    ensures forall port | Releasable(fs, port, record) :: Released(fs, ReleasedFs(fs, record), port, record)
    ensures PortOf(fs, record).Some? ==>
              && ReleasedFs(fs, record).tombstones == fs.tombstones
              && forall port, run :: DirAt(ReleasedFs(fs, record), port, run)
                   == if run == record.runId then None else DirAt(fs, port, run)
    ensures (forall port :: !Releasable(fs, port, record)) ==> ReleasedFs(fs, record).claims == fs.claims
    ensures PortOf(fs, record).None? ==> ReleasedFs(fs, record) == fs
    ensures PortOf(fs, record).Some? ==> OwnerPorts(ReleasedFs(fs, record), record.runId) == {}
  {
    if PortOf(fs, record).Some? {
      var port := PortOf(fs, record).value;
      BlockEmpties(fs, port, record.runId);
      ReleasedDirs(fs, record, port);
      if !Releasable(fs, port, record) { assert ReleasedFs(fs, record).claims == fs.claims; }
    }
    forall port: nat | Releasable(fs, port, record) ensures Released(fs, ReleasedFs(fs, record), port, record) {
      CompleteRelease(fs, record, port);
    }
  }

  /** The directories after some of the run's owner directories were moved aside and their blocks marked. */
  function QuarantinedFs(fs: Fs, run: string, ports: set<nat>): Fs {
    fs.(blocks := WithoutOwner(fs.blocks, run, ports), tombstones := fs.tombstones + ports)
  }

  lemma QuarantineMeans(fs: Fs, run: string, ports: set<nat>)
    ensures var after := QuarantinedFs(fs, run, ports);
            && after.claims == fs.claims
            && (forall p :: p in after.tombstones <==> p in fs.tombstones || p in ports)
            && (forall p, other :: DirAt(after, p, other)
                  == if other == run && p in ports then None else DirAt(fs, p, other))
  {
    var after := QuarantinedFs(fs, run, ports);
    forall p: nat, other: string
      ensures DirAt(after, p, other) == if other == run && p in ports then None else DirAt(fs, p, other)
    {
      if p in fs.blocks {
        assert after.blocks[p] == if p in ports then fs.blocks[p] - {run} else fs.blocks[p];
      }
    }
  }

  class FileLeaseStateAdapter {
    var blocks: map<nat, map<string, OwnerDir>>
    var tombstones: set<nat>
    var claims: map<string, Claim>

    function View(): Fs
      reads this
    {
      Fs(blocks, tombstones, claims)
    }

    constructor ()
      ensures View() == Fs(map[], {}, map[])
    {
      blocks, tombstones, claims := map[], {}, map[];
    }

    method Read(lookup: Lookup) returns (r: ReadResult)
      ensures r == NotFound <==> OwnerPorts(View(), lookup.runId) == {}
      ensures forall port, record |
                && OwnerPorts(View(), lookup.runId) == {port} && LeaseFileIs(View(), port, lookup.runId, record)
                && record.runId == lookup.runId && record.worktreePath == lookup.worktreePath :: r == Found(record)
      ensures r.Found? ==> exists port ::
                Matches(View(), port, r.record)
                && r.record.runId == lookup.runId && r.record.worktreePath == lookup.worktreePath
      ensures r == Malformed <==> exists port ::
                OwnerPorts(View(), lookup.runId) == {port} && blocks[port][lookup.runId].file == Unreadable
    {
      var ports := OwnerPorts(View(), lookup.runId);
      if ports == {} { return NotFound; }
      var port :| port in ports;
      if ports != {port} {
        assert forall p :: ports == {p} ==> p == port;
        return Incomplete;
      }
      assert forall p :: ports == {p} ==> p == port;
      match blocks[port][lookup.runId].file
      case Missing => return Incomplete;
      case Unreadable => return Malformed;
      case Lease(record) =>
        if record.runId != lookup.runId || record.worktreePath != lookup.worktreePath { return Incomplete; }
        assert Matches(View(), port, record);
        return Found(record);
    }

    method AcquireWorktreeClaim(record: LeaseRecord, probe: Probe) returns (granted: bool)
      modifies `claims
      ensures granted <==> ClaimGranted(old(View()), record, probe)
      ensures granted <==>
              var existing := ClaimAt(old(View()), record.worktreePath);
              || existing.None?
              || (&& existing.value.runId == record.runId && existing.value.worktreePath == record.worktreePath
                  && existing.value.startupIntentId == record.startupIntentId
                  && probe(existing.value.owner) == Present)
              || (&& probe(existing.value.owner) == Absent
                  && forall port :: DirAt(old(View()), port, existing.value.runId).None?)
      ensures claims == ClaimsAfter(old(View()), record, probe)
      decreases record.worktreePath in claims
    {
      var w := record.worktreePath;
      if w in claims { DeadStartIsBare(View(), claims[w].runId); }
      if w !in claims {
        claims := claims[w := ClaimOf(record)];
        return true;
      }
      var existing := claims[w];
      if PairedWith(existing, record) && probe(existing.owner) == Present {
        return true;
      }
      if probe(existing.owner) == Absent && OwnerPorts(View(), existing.runId) == {} {
        claims := RemoveClaim(View(), w).claims;
        granted := AcquireWorktreeClaim(record, probe);
        return;
      }
      return false;
    }

    /** Either the complete block and worktree are owned, or nothing new but possibly the claim. */
    method TryAcquire(record: LeaseRecord, probe: Probe) returns (r: Acquisition)
      modifies this
      ensures View() == AcquiredFs(old(View()), record, probe)
      ensures r == WorktreeOccupied <==> !ClaimGranted(old(View()), record, probe)
      ensures r == BlockIsOccupied <==>
              ClaimGranted(old(View()), record, probe) && !BlockFree(old(View()), record.manifest.ports.porta)
      ensures r == WorktreeOccupied ==> View() == old(View())
      ensures r != WorktreeOccupied ==> record.worktreePath in claims && PairedWith(claims[record.worktreePath], record)
      ensures r == Acquired ==> LeaseAt(View(), record.manifest.ports.porta, record)
    {
      var granted := AcquireWorktreeClaim(record, probe);
      if !granted { return WorktreeOccupied; }
      if !BlockFree(View(), record.manifest.ports.porta) { return BlockIsOccupied; }
      blocks := PublishLease(View(), record).blocks;
      return Acquired;
    }

    /** Drops the exact startup claim, and only while the run owns no directory. */
    method ReleaseIntent(record: LeaseRecord) returns (ok: bool)
      modifies `claims
      ensures ok <==> IntentReleasable(old(View()), record)
      ensures ok <==>
              && (forall port :: DirAt(old(View()), port, record.runId).None?)
              && ClaimAt(old(View()), record.worktreePath).Some?
              && PairedWith(old(claims)[record.worktreePath], record)
      ensures forall w :: ClaimAt(View(), w)
                == if ok && w == record.worktreePath then None else ClaimAt(old(View()), w)
      ensures View() == if ok then RemoveClaim(old(View()), record.worktreePath) else old(View())
    {
      DeadStartIsBare(View(), record.runId);
      if OwnerPorts(View(), record.runId) != {} { return false; }
      if record.worktreePath !in claims || !PairedWith(claims[record.worktreePath], record) { return false; }
      claims := RemoveClaim(View(), record.worktreePath).claims;
      return true;
    }

    /** Rewrites the one lease file that equals the expected record, or finds none. */
    method Rewrite(expected: LeaseRecord, replacement: LeaseRecord) returns (ok: bool)
      modifies `blocks
      ensures ok <==> exists port :: Matches(old(View()), port, expected)
      ensures View() == RewrittenFs(old(View()), expected, replacement)
      ensures HoldsInstead(old(View()), View(), expected, replacement)
      ensures OnlyRunChanges(old(View()), View(), expected.runId)
      ensures !ok ==> View() == old(View())
    {
      RewriteMeans(View(), expected, replacement);
      var ports := OwnerPorts(View(), expected.runId);
      if ports == {} { return false; }
      var port :| port in ports;
      if ports != {port} || !LeaseAt(View(), port, expected) {
        OnlyPort(View(), port, expected);
        return false;
      }
      PortOfIs(View(), port, expected);
      blocks := WriteFile(View(), port, expected.runId, Lease(replacement)).blocks;
      return true;
    }

    /** Replaces the owner and nothing else, exactly when the complete prior record is unique and equal. */
    method TransferOwner(expected: LeaseRecord, newOwner: ProcessIdentity) returns (r: Option<LeaseRecord>)
      modifies `blocks
      ensures r.Some? <==> exists port :: Matches(old(View()), port, expected)
      ensures r.Some? ==> && r.value == expected.(ownerProcess := newOwner)
                          && exists port :: Matches(old(View()), port, expected) && Matches(View(), port, r.value)
      ensures r.Some? && newOwner != expected.ownerProcess ==> forall port :: !LeaseAt(View(), port, expected)
      ensures OnlyRunChanges(old(View()), View(), expected.runId)
      ensures HoldsInstead(old(View()), View(), expected, expected.(ownerProcess := newOwner))
      ensures r.None? ==> View() == old(View())
      ensures View() == RewrittenFs(old(View()), expected, expected.(ownerProcess := newOwner))
    {
      var ok := Rewrite(expected, expected.(ownerProcess := newOwner));
      if ok { ReplacedIsGone(old(View()), View(), expected, expected.(ownerProcess := newOwner)); }
      return if ok then Some(expected.(ownerProcess := newOwner)) else None;
    }

    /** Fills discovered resources, exactly when the complete prior record is unique and equal. */
    method FinalizeDiscovered(expected: LeaseRecord, discovered: LeaseRecord) returns (r: Option<LeaseRecord>)
      modifies `blocks
      ensures r.Some? <==> Advances(expected, discovered) && exists port :: Matches(old(View()), port, expected)
      ensures r.Some? ==> && r.value == discovered
                          && exists port :: Matches(old(View()), port, expected) && Matches(View(), port, discovered)
      ensures r.Some? && discovered != expected ==> forall port :: !LeaseAt(View(), port, expected)
      ensures OnlyRunChanges(old(View()), View(), expected.runId)
      ensures r.Some? ==> HoldsInstead(old(View()), View(), expected, discovered)
      ensures r.None? ==> View() == old(View())
      ensures View() == if Advances(expected, discovered) then RewrittenFs(old(View()), expected, discovered)
                        else old(View())
    {
      if |OwnerPorts(View(), expected.runId)| != 1 || !Advances(expected, discovered) {
        if port: nat :| Matches(View(), port, expected) { assert OwnerPorts(View(), expected.runId) == {port}; }
        RewriteMeans(View(), expected, discovered);
        return None;
      }
      var ok := Rewrite(expected, discovered);
      AdvanceMeans(expected, discovered);
      if ok { ReplacedIsGone(old(View()), View(), expected, discovered); }
      return if ok then Some(discovered) else None;
    }

    /** Removes lease, owner directory, block directory and claim, in that order. It completes exactly
        when everything matches; a refusal by identity changes nothing, and no failure drops the claim. */
    method Release(record: LeaseRecord) returns (ok: bool)
      modifies this
      ensures View() == ReleasedFs(old(View()), record)
      ensures ok <==> exists port :: Releasable(old(View()), port, record)
      ensures !ok ==> claims == old(claims)
      ensures ok ==> OwnerPorts(View(), record.runId) == {} && record.worktreePath !in claims
    {
      ReleaseMeans(View(), record);
      var ports := OwnerPorts(View(), record.runId);
      if ports == {} { return false; }
      var port :| port in ports;
      if ports != {port} || !LeaseAt(View(), port, record) {
        OnlyPort(View(), port, record);
        return false;
      }
      PortOfIs(View(), port, record);
      BlockEmpties(View(), port, record.runId);
      UnlinkedThenRemoved(View(), port, record.runId);
      blocks := WriteFile(View(), port, record.runId, Missing).blocks;
      blocks := RemoveOwner(View(), port, record.runId).blocks;
      assert View() == RemoveOwner(old(View()), port, record.runId);
      if !BlockFree(View(), port) { return false; }
      blocks := RemoveBlock(View(), port).blocks;
      if record.worktreePath !in claims || !PairedWith(claims[record.worktreePath], record) { return false; }
      claims := RemoveClaim(View(), record.worktreePath).claims;
      assert Releasable(old(View()), port, record);
      return true;
    }

    /** Moves one owner directory aside and marks its block, unless the block is already marked. */
    method QuarantineBlock(port: nat, run: string) returns (ok: bool)
      requires port in blocks && run in blocks[port]
      modifies `blocks, `tombstones
      ensures ok <==> port !in old(tombstones)
      ensures tombstones == old(tombstones) + {port}
      ensures blocks == old(blocks)[port := old(blocks)[port] - {run}]
    {
      blocks := RemoveOwner(View(), port, run).blocks;
      ok := port !in tombstones;
      if !ok { return; }
      tombstones := tombstones + {port};
    }

    /** Moves every owner directory of the run aside and marks its block; nothing else changes. It stops at
        a block that is already marked, after moving that block's directory too. */
    method Quarantine(lookup: Lookup) returns (ok: bool, ghost done: set<nat>, ghost stuck: nat)
      modifies `blocks, `tombstones
      ensures ok <==> OwnerPorts(old(View()), lookup.runId) !! old(tombstones)
      ensures done <= OwnerPorts(old(View()), lookup.runId) && done !! old(tombstones)
      ensures ok ==> done == OwnerPorts(old(View()), lookup.runId)
                     && View() == QuarantinedFs(old(View()), lookup.runId, done)
                     && OwnerPorts(View(), lookup.runId) == {}
      ensures !ok ==> && stuck in OwnerPorts(old(View()), lookup.runId) - done && stuck in old(tombstones)
                      && stuck in QuarantinedFs(old(View()), lookup.runId, done).blocks
                      && View() == RemoveOwner(QuarantinedFs(old(View()), lookup.runId, done), stuck, lookup.runId)
    {
      ghost var all := OwnerPorts(View(), lookup.runId);
      var pending := OwnerPorts(View(), lookup.runId);
      done, stuck := {}, 0;
      while pending != {}
        invariant pending <= all && done == all - pending
        invariant View() == QuarantinedFs(old(View()), lookup.runId, done)
        invariant done !! old(tombstones)
        decreases pending
      {
        var port :| port in pending;
        OneMoreBlock(old(blocks), lookup.runId, done, port);
        var marked := QuarantineBlock(port, lookup.runId);
        if !marked { return false, done, port; }
        pending := pending - {port};
        done := done + {port};
      }
      ok := true;
    }
  }

  /** The blocks after the run's owner directory was moved out of some of them. */
  function WithoutOwner(blocks: map<nat, map<string, OwnerDir>>, run: string, ports: set<nat>)
    : map<nat, map<string, OwnerDir>>
  {
    map p | p in blocks :: if p in ports then blocks[p] - {run} else blocks[p]
  }

  lemma OneMoreBlock(blocks: map<nat, map<string, OwnerDir>>, run: string, ports: set<nat>, port: nat)
    requires port in blocks && run in blocks[port] && port !in ports
    ensures var w := WithoutOwner(blocks, run, ports);
            port in w && run in w[port] && WithoutOwner(blocks, run, ports + {port}) == w[port := w[port] - {run}]
  {
  }
}
