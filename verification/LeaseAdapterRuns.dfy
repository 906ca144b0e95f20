/** Every call of the lease store's adapter is a run of the shared directory's transition system, so what
    holds over all runs -- exclusivity above all -- holds for the directories the adapter leaves. */
module LeaseAdapterRuns {
  import opened FileLeaseState
  import opened LeaseRecords
  import opened LeaseStore
  import opened Options

  /** Probes do not lie: a present process is alive, an absent one is not. */
  ghost predicate Truthful(s: State, probe: Probe) {
    forall p :: (probe(p) == Present ==> p in s.alive) && (probe(p) == Absent ==> p !in s.alive)
  }

  /** A live start that has no block yet offers the record. */
  predicate Starting(s: State, record: LeaseRecord) {
    && StarterIn(s, record.startupIntentId, Selecting)
    && OfferedBy(record, record.startupIntentId, s.starters[record.startupIntentId])
  }

  /** One event is a run. */
  lemma OneStep(s: State, e: Event)
    requires Enabled(s, e)
    ensures Legal(s, [e]) && After(s, [e]) == Apply(s, e)
  {
    assert [e][1..] == [];
  }

  lemma OneMoreStep(s: State, es: seq<Event>, e: Event)
    requires Legal(s, es) && Enabled(After(s, es), e)
    ensures Legal(s, es + [e]) && After(s, es + [e]) == Apply(After(s, es), e)
  {
    OneStep(After(s, es), e);
    RunsJoin(s, es, [e]);
  }

  // ---------------------------------------------------------------- acquisition

  /** The claim attempt: taken when absent, kept when this start's own, taken over from a dead start, or
      refused. */
  lemma ClaimIsARun(s: State, record: LeaseRecord, probe: Probe) returns (es: seq<Event>)
    requires Starting(s, record) && Truthful(s, probe)
    ensures Legal(s, es) && After(s, es).fs == s.fs.(claims := ClaimsAfter(s.fs, record, probe))
    ensures ClaimGranted(s.fs, record, probe) ==>
              StarterIn(After(s, es), record.startupIntentId, Claimed)
              && OfferedBy(record, record.startupIntentId, After(s, es).starters[record.startupIntentId])
  {
    var intent, w := record.startupIntentId, record.worktreePath;
    if w !in s.fs.claims {
      es := [TakeClaim(intent)];
      OneStep(s, es[0]);
    } else if OwnClaim(s.fs, record, probe) {
      es := [KeepClaim(intent)];
      OneStep(s, es[0]);
    } else if StaleClaim(s.fs, record, probe) {
      OneStep(s, ReclaimDead(intent));
      OneMoreStep(s, [ReclaimDead(intent)], TakeClaim(intent));
      es := [ReclaimDead(intent)] + [TakeClaim(intent)];
      assert (s.fs.claims - {w})[w := ClaimOf(record)] == s.fs.claims[w := ClaimOf(record)];
    } else {
      es := [RefuseClaim(intent)];
      OneStep(s, es[0]);
    }
  }

  /** An acquisition is a run of one start: its claim attempt, then its rename onto the block, or nothing. */
  lemma AcquisitionIsARun(s: State, record: LeaseRecord, probe: Probe) returns (es: seq<Event>)
    requires Starting(s, record) && Truthful(s, probe)
    ensures Legal(s, es) && After(s, es).fs == AcquiredFs(s.fs, record, probe)
    ensures ClaimGranted(s.fs, record, probe) && !BlockFree(s.fs, record.manifest.ports.porta) ==>
              Starting(After(s, es), record)
  {
    es := ClaimIsARun(s, record, probe);
    if ClaimGranted(s.fs, record, probe) {
      var e := if BlockFree(s.fs, record.manifest.ports.porta) then TakeBlock(record.startupIntentId, record)
               else BlockOccupied(record.startupIntentId, record.manifest.ports.porta);
      OneMoreStep(s, es, e);
      es := es + [e];
    }
  }

  /** Giving up a claim that never became a lease. */
  lemma IntentReleaseIsARun(s: State, record: LeaseRecord) returns (es: seq<Event>)
    requires Starting(s, record)
    ensures Legal(s, es)
    ensures After(s, es).fs == if IntentReleasable(s.fs, record) then RemoveClaim(s.fs, record.worktreePath) else s.fs
  {
    es := [];
    if IntentReleasable(s.fs, record) {
      es := [ReleaseIntent(record.startupIntentId)];
      OneStep(s, es[0]);
    }
  }

  // ---------------------------------------------------------------- rewriting the lease

  /** A transfer is one event when the lease matches, and none otherwise. */
  lemma TransferIsARun(s: State, expected: LeaseRecord, newOwner: ProcessIdentity) returns (es: seq<Event>)
    requires newOwner in s.alive
    ensures Legal(s, es)
    ensures After(s, es).fs == RewrittenFs(s.fs, expected, expected.(ownerProcess := newOwner))
    ensures forall port | Matches(s.fs, port, expected) :: es == [Transfer(expected, port, newOwner)]
    ensures (forall port :: !Matches(s.fs, port, expected)) ==> es == []
  {
    es := [];
    forall port: nat | Matches(s.fs, port, expected) ensures PortOf(s.fs, expected) == Some(port) {
      PortOfIs(s.fs, port, expected);
    }
    if PortOf(s.fs, expected).Some? {
      es := [Transfer(expected, PortOf(s.fs, expected).value, newOwner)];
      OneStep(s, es[0]);
    }
  }

  lemma DiscoveryIsARun(s: State, expected: LeaseRecord, discovered: LeaseRecord) returns (es: seq<Event>)
    ensures Legal(s, es)
    ensures After(s, es).fs
            == if Advances(expected, discovered) then RewrittenFs(s.fs, expected, discovered) else s.fs
    ensures forall port | Matches(s.fs, port, expected) ::
              es == if Advances(expected, discovered) then [Finalize(expected, port, discovered)] else []
    ensures (forall port :: !Matches(s.fs, port, expected)) ==> es == []
  {
    es := [];
    forall port: nat | Matches(s.fs, port, expected) ensures PortOf(s.fs, expected) == Some(port) {
      PortOfIs(s.fs, port, expected);
    }
    if Advances(expected, discovered) && PortOf(s.fs, expected).Some? {
      es := [Finalize(expected, PortOf(s.fs, expected).value, discovered)];
      OneStep(s, es[0]);
    }
  }

  // ---------------------------------------------------------------- release

  /** Unlinking the lease and removing its directory. */
  lemma UnlinkIsARun(s: State, record: LeaseRecord, op: nat, proc: ProcessIdentity, port: nat) returns (es: seq<Event>)
    requires op !in s.releases && proc in s.alive && Matches(s.fs, port, record)
    ensures Legal(s, es) && After(s, es).fs == RemoveOwner(s.fs, port, record.runId)
    ensures ReleaseIn(After(s, es), op, OwnerRemoved)
    ensures After(s, es).releases[op].record == record && After(s, es).releases[op].port == port
  {
    var unlink := UnlinkLease(op, proc, record, port);
    OneStep(s, unlink);
    OneMoreStep(s, [unlink], RmOwner(op));
    UnlinkedThenRemoved(s.fs, port, record.runId);
    es := [unlink] + [RmOwner(op)];
  }

  /** A release, as far as it gets, is a run of one release. */
  lemma ReleaseIsARun(s: State, record: LeaseRecord, op: nat, proc: ProcessIdentity) returns (es: seq<Event>)
    requires op !in s.releases && proc in s.alive
    ensures Legal(s, es) && After(s, es).fs == ReleasedFs(s.fs, record)
  {
    es := [];
    if PortOf(s.fs, record).Some? {
      var port := PortOf(s.fs, record).value;
      es := UnlinkIsARun(s, record, op, proc, port);
      if BlockFree(After(s, es).fs, port) {
        OneMoreStep(s, es, RmBlock(op));
        es := es + [RmBlock(op)];
        if record.worktreePath in s.fs.claims && PairedWith(s.fs.claims[record.worktreePath], record) {
          OneMoreStep(s, es, DropClaim(op));
          es := es + [DropClaim(op)];
        }
      }
    }
  }

  // ---------------------------------------------------------------- quarantine

  lemma {:induction false} MovingIsARun(s: State, run: string, ports: set<nat>) returns (es: seq<Event>)
    requires ports <= OwnerPorts(s.fs, run) && ports !! s.fs.tombstones
    ensures Legal(s, es) && After(s, es).fs == QuarantinedFs(s.fs, run, ports)
    decreases ports
  {
    if ports == {} {
      es := [];
      assert WithoutOwner(s.fs.blocks, run, {}) == s.fs.blocks;
    } else {
      var port :| port in ports;
      es := MovingIsARun(s, run, ports - {port});
      OneMoreBlock(s.fs.blocks, run, ports - {port}, port);
      var last := MovingOneIsARun(After(s, es), port, run);
      RunsJoin(s, es, last);
      es := es + last;
      assert ports - {port} + {port} == ports;
    }
  }

  lemma MovingOneIsARun(s: State, port: nat, run: string) returns (es: seq<Event>)
    requires port in s.fs.blocks && run in s.fs.blocks[port] && port !in s.fs.tombstones
    ensures Legal(s, es)
    ensures After(s, es).fs == s.fs.(blocks := s.fs.blocks[port := s.fs.blocks[port] - {run}],
                                     tombstones := s.fs.tombstones + {port})
  {
    OneStep(s, MoveAside(port, run));
    OneMoreStep(s, [MoveAside(port, run)], WriteTombstone(port));
    es := [MoveAside(port, run)] + [WriteTombstone(port)];
  }

  /** A quarantine moves directories one by one, and stops after moving the one of a block already marked. */
  lemma QuarantineIsARun(s: State, run: string, done: set<nat>, ok: bool, stuck: nat) returns (es: seq<Event>)
    requires done <= OwnerPorts(s.fs, run) && done !! s.fs.tombstones
    requires !ok ==> stuck in OwnerPorts(s.fs, run) - done
    ensures Legal(s, es)
    ensures After(s, es).fs == if ok then QuarantinedFs(s.fs, run, done)
                               else RemoveOwner(QuarantinedFs(s.fs, run, done), stuck, run)
  {
    es := MovingIsARun(s, run, done);
    if !ok {
      OneMoreStep(s, es, MoveAside(stuck, run));
      es := es + [MoveAside(stuck, run)];
    }
  }

  // ---------------------------------------------------------------- exclusivity reaches the adapter

  /** Whatever the processes did before, the directories an acquisition leaves hold one lease per block and
      one per worktree, every one claimed. */
  lemma AcquisitionKeepsExclusion(start: State, es: seq<Event>, record: LeaseRecord, probe: Probe)
    requires Initial(start) && Legal(start, es)
    requires Starting(After(start, es), record) && Truthful(After(start, es), probe)
    ensures var fs := AcquiredFs(After(start, es).fs, record, probe);
            OneLeasePerBlock(fs) && OneLeasePerWorktree(fs) && EveryLeaseIsClaimed(fs)
  {
    var more := AcquisitionIsARun(After(start, es), record, probe);
    CallsKeepExclusion(start, es, more);
  }

  /** The same for any call that is a run. */
  lemma CallsKeepExclusion(start: State, es: seq<Event>, call: seq<Event>)
    requires Initial(start) && Legal(start, es) && Legal(After(start, es), call)
    ensures var fs := After(After(start, es), call).fs;
            OneLeasePerBlock(fs) && OneLeasePerWorktree(fs) && EveryLeaseIsClaimed(fs)
  {
    RunsJoin(start, es, call);
    LeasesAreExclusive(start, es + call);
  }
}
