/** The persisted ownership record, the endpoint block it reserves, and the two families of
    comparisons made on it: the store's (complete, field by field) and the controller's (coarser). */
module LeaseRecords {
  import opened Options

  /** A probe distinguishes absence from an unsafe failure to look. */
  datatype Presence = Present | Absent | PresenceUnreadable

  datatype ProcessIdentity = ProcessIdentity(pid: nat, startedAt: string)

  datatype Role = Spa | Bff

  datatype HostProcess = HostProcess(role: Role, identity: ProcessIdentity)

  datatype Ports = Ports(porta: nat, app: nat, bff: nat, postgres: nat, redis: nat, mailhog: nat)

  datatype Urls = Urls(porta: string, app: string, attacker: string, bff: string,
                       postgres: string, redis: string, mailhog: string)

  datatype Manifest = Manifest(runId: string, scenarioId: string, composeProject: string,
                               worktreePath: string, environmentName: string,
                               ports: Ports, urls: Urls, certificatePath: string)

  datatype LeaseRecord = LeaseRecord(
    runId: string, startupIntentId: string, ownerProcess: ProcessIdentity, worktreePath: string,
    composeProject: string, containerIds: seq<string>, networkIds: seq<string>,
    hostProcesses: seq<HostProcess>, volumeNames: seq<string>, ownedPaths: seq<string>,
    certificatePath: string, manifest: Manifest)

  // ---------------------------------------------------------------- the store's comparisons

  /** The record with every discovered-resource field emptied: what authorizes a change. */
  function Authority(r: LeaseRecord): LeaseRecord {
    r.(containerIds := [], networkIds := [], hostProcesses := [], volumeNames := [])
  }

  /** Every non-resource field agrees. */
  predicate StoreSameAuthority(left: LeaseRecord, right: LeaseRecord) {
    Authority(left) == Authority(right)
  }

  predicate UnchangedOrEmpty<T(==)>(left: seq<T>, right: seq<T>) {
    left == [] || left == right
  }

  /** Empty lists may be filled; host processes may only grow at the end. */
  predicate StoreCanAdvance(expected: LeaseRecord, discovered: LeaseRecord) {
    && UnchangedOrEmpty(expected.containerIds, discovered.containerIds)
    && UnchangedOrEmpty(expected.networkIds, discovered.networkIds)
    && expected.hostProcesses <= discovered.hostProcesses
    && UnchangedOrEmpty(expected.volumeNames, discovered.volumeNames)
  }

  // ---------------------------------------------------------------- the controller's comparisons

  /** The controller compares the six listener addresses and not the cross-site browser origin. */
  predicate ControllerSameManifest(left: Manifest, right: Manifest) {
    && left.runId == right.runId
    && left.scenarioId == right.scenarioId
    && left.composeProject == right.composeProject
    && left.worktreePath == right.worktreePath
    && left.environmentName == right.environmentName
    && left.certificatePath == right.certificatePath
    && left.ports == right.ports
    && left.urls.porta == right.urls.porta
    && left.urls.app == right.urls.app
    && left.urls.bff == right.urls.bff
    && left.urls.postgres == right.urls.postgres
    && left.urls.redis == right.urls.redis
    && left.urls.mailhog == right.urls.mailhog
  }

  /** Authority without the startup intent. */
  predicate ControllerSameAuthority(left: LeaseRecord, right: LeaseRecord) {
    && left.runId == right.runId
    && left.ownerProcess == right.ownerProcess
    && left.worktreePath == right.worktreePath
    && left.composeProject == right.composeProject
    && left.ownedPaths == right.ownedPaths
    && left.certificatePath == right.certificatePath
    && ControllerSameManifest(left.manifest, right.manifest)
  }

  /** Host identities are compared as sorted lists, that is, as multisets. */
  predicate SameHostProcesses(left: seq<HostProcess>, right: seq<HostProcess>) {
    multiset(left) == multiset(right)
  }

  predicate ControllerSameRecord(left: LeaseRecord, right: LeaseRecord) {
    && ControllerSameAuthority(left, right)
    && left.startupIntentId == right.startupIntentId
    && left.containerIds == right.containerIds
    && left.networkIds == right.networkIds
    && SameHostProcesses(left.hostProcesses, right.hostProcesses)
    && left.volumeNames == right.volumeNames
  }

  predicate ControllerCanAdvance(expected: LeaseRecord, discovered: LeaseRecord) {
    && ControllerSameAuthority(expected, discovered)
    && UnchangedOrEmpty(expected.containerIds, discovered.containerIds)
    && UnchangedOrEmpty(expected.networkIds, discovered.networkIds)
    && (expected.hostProcesses == [] || SameHostProcesses(expected.hostProcesses, discovered.hostProcesses))
    && UnchangedOrEmpty(expected.volumeNames, discovered.volumeNames)
  }

  /** Exactly what the controller's authority check leaves out of the store's. */
  lemma AuthorityGap(left: LeaseRecord, right: LeaseRecord)
    ensures StoreSameAuthority(left, right) <==>
            && ControllerSameAuthority(left, right)
            && left.startupIntentId == right.startupIntentId
            && left.manifest.urls.attacker == right.manifest.urls.attacker
  {
    if ControllerSameAuthority(left, right) && left.startupIntentId == right.startupIntentId
       && left.manifest.urls.attacker == right.manifest.urls.attacker {
      assert left.manifest.urls == right.manifest.urls;
      assert left.manifest == right.manifest;
    }
  }

  /** A record that passes the controller's check but must be refused by the store. */
  lemma IntentEscapesTheControllerCheck(r: LeaseRecord)
    ensures exists other :: ControllerCanAdvance(r, other) && !StoreSameAuthority(r, other)
  {
    var other := r.(startupIntentId := r.startupIntentId + "x");
    assert |other.startupIntentId| == |r.startupIntentId| + 1;
    assert Authority(r).startupIntentId != Authority(other).startupIntentId;
    assert ControllerCanAdvance(r, other);
  }

  /** The controller takes two records for the same when they differ in nothing but the attacker URL and the
      order of host processes. */
  lemma SameRecordGap(left: LeaseRecord, right: LeaseRecord)
    ensures ControllerSameRecord(left, right) <==>
            && right == left.(hostProcesses := right.hostProcesses,
                              manifest := left.manifest.(urls :=
                                left.manifest.urls.(attacker := right.manifest.urls.attacker)))
            && multiset(left.hostProcesses) == multiset(right.hostProcesses)
  {
    if ControllerSameRecord(left, right) {
      assert right.manifest.urls == left.manifest.urls.(attacker := right.manifest.urls.attacker);
      assert right.manifest
             == left.manifest.(urls := left.manifest.urls.(attacker := right.manifest.urls.attacker));
    }
  }

  /** The store lets a lease advance exactly when nothing changes but lists that were empty, and the end of
      the host processes. */
  lemma AdvanceMeans(before: LeaseRecord, after: LeaseRecord)
    ensures Advances(before, after) <==>
            && after == before.(containerIds := after.containerIds, networkIds := after.networkIds,
                                hostProcesses := after.hostProcesses, volumeNames := after.volumeNames)
            && (before.containerIds != [] ==> after.containerIds == before.containerIds)
            && (before.networkIds != [] ==> after.networkIds == before.networkIds)
            && (before.volumeNames != [] ==> after.volumeNames == before.volumeNames)
            && before.hostProcesses <= after.hostProcesses
  {
    if Advances(before, after) {
      assert after == Authority(after).(containerIds := after.containerIds, networkIds := after.networkIds,
                                        hostProcesses := after.hostProcesses, volumeNames := after.volumeNames);
    }
  }

  /** A discovery the controller sends on is one the store accepts, exactly when intent and attacker URL agree
      and the host processes were recorded in the same order, or not at all. */
  lemma AdvanceGap(expected: LeaseRecord, discovered: LeaseRecord)
    requires ControllerCanAdvance(expected, discovered)
    ensures Advances(expected, discovered) <==>
            && expected.startupIntentId == discovered.startupIntentId
            && expected.manifest.urls.attacker == discovered.manifest.urls.attacker
            && (expected.hostProcesses == [] || expected.hostProcesses == discovered.hostProcesses)
  {
    AuthorityGap(expected, discovered);
    if expected.hostProcesses != [] && expected.hostProcesses <= discovered.hostProcesses {
      PrefixWithSameElements(expected.hostProcesses, discovered.hostProcesses);
    }
  }

  lemma PrefixWithSameElements<T>(a: seq<T>, b: seq<T>)
    requires a <= b && multiset(a) == multiset(b)
    ensures a == b
  {
    assert |multiset(a)| == |a| && |multiset(b)| == |b|;
  }

  // ---------------------------------------------------------------- the store's two updates

  /** finalizeResources on one lease cell: the cell afterwards, and the record or a mismatch. The cell
      neither appears nor disappears and only advances; an answer is always the record now persisted, and is
      given exactly when the expected record was persisted and may advance to the discovered one. */
  function FinalizeResources(cell: Option<LeaseRecord>, expected: LeaseRecord, discovered: LeaseRecord)
    : (r: (Option<LeaseRecord>, Option<LeaseRecord>))
    ensures cell.Some? <==> r.0.Some?
    ensures cell.Some? ==> Advances(cell.value, r.0.value)
    ensures r.1.Some? <==> cell == Some(expected) && Advances(expected, discovered)
    ensures if r.1.Some? then r.1 == r.0 == Some(discovered) else r.0 == cell
  {
    if cell == Some(expected) && StoreSameAuthority(expected, discovered) && StoreCanAdvance(expected, discovered)
    then (Some(discovered), Some(discovered))
    else (cell, None)
  }

  /** A lease only advances: authority fixed, each list set at most once, hosts only appended. */
  predicate Advances(before: LeaseRecord, after: LeaseRecord) {
    StoreSameAuthority(before, after) && StoreCanAdvance(before, after)
  }

  /** Two finalizations prepared against the same record never both take effect: the second finds the
      first one's record, so whatever the first discovered is not lost. */
  lemma FinalizationsAreNotLost(cell: Option<LeaseRecord>, expected: LeaseRecord, a: LeaseRecord, b: LeaseRecord)
    requires FinalizeResources(cell, expected, a).1.Some? && a != expected
    ensures var first := FinalizeResources(cell, expected, a);
            && FinalizeResources(first.0, expected, b) == (Some(a), None)
            && (forall next :: FinalizeResources(first.0, a, next).1.Some? ==> Advances(a, next))
  {
  }

  predicate RolesDistinct(hosts: seq<HostProcess>) {
    forall i, j :: 0 <= i < j < |hosts| ==> hosts[i].role != hosts[j].role
  }

  /** The relation across a change of owner as well. */
  predicate AdvancesUpToOwner(before: LeaseRecord, after: LeaseRecord) {
    Advances(before.(ownerProcess := after.ownerProcess), after)
  }

  lemma AdvanceIsTransitive(a: LeaseRecord, b: LeaseRecord, c: LeaseRecord)
    requires AdvancesUpToOwner(a, b) && AdvancesUpToOwner(b, c)
    ensures AdvancesUpToOwner(a, c)
  {
    var o := c.ownerProcess;
    assert Authority(a.(ownerProcess := b.ownerProcess)).(ownerProcess := o) == Authority(a.(ownerProcess := o));
    assert Authority(b).(ownerProcess := o) == Authority(b.(ownerProcess := o));
  }

  // ---------------------------------------------------------------- endpoint blocks

  /** `wellNamed` stands for the identifier and path syntax checks. */
  datatype StartRequest = StartRequest(runId: string, scenarioId: string, worktreePath: string,
                                       environmentName: string, candidateBasePort: int,
                                       collisionRetries: int, wellNamed: bool)

  predicate ValidRequest(request: StartRequest) {
    && request.wellNamed
    && 1024 <= request.candidateBasePort <= 65530
    && 0 <= request.collisionRetries <= 32
  }

  function Decimal(n: nat): string {
    if n < 10 then ["0123456789"[n]] else Decimal(n / 10) + ["0123456789"[n % 10]]
  }

  /** What a row of decimal digits stands for. */
  function Parsed(s: string): int {
    if s == "" then 0 else Parsed(s[..|s| - 1]) * 10 + (s[|s| - 1] as int - '0' as int)
  }

  lemma {:induction false} DecimalParses(n: nat)
    ensures Parsed(Decimal(n)) == n && Decimal(n) != ""
  {
    if n >= 10 {
      DecimalParses(n / 10);
      assert Decimal(n)[..|Decimal(n)| - 1] == Decimal(n / 10);
    } else {
      assert Decimal(n)[..0] == "";
    }
  }

  function WithoutDashes(s: string): string {
    if s == "" then "" else (if s[0] == '-' then "" else [s[0]]) + WithoutDashes(s[1..])
  }

  /** Dashes are dropped wherever they are, a text without any is kept, and nothing changes place. */
  lemma {:induction false} DashesDropInPlace(a: string, b: string)
    ensures WithoutDashes(a + "-" + b) == WithoutDashes(a + b) == WithoutDashes(a) + WithoutDashes(b)
    ensures '-' !in a ==> WithoutDashes(a) == a
  {
    assert a + "-" + b == a + ("-" + b);
    assert ("-" + b)[1..] == b;
    DropsApart(a, "-" + b);
    DropsApart(a, b);
    if '-' !in a { KeepsTheRest(a); }
  }

  lemma DropsFirst(c: char, s: string)
    ensures WithoutDashes([c] + s) == (if c == '-' then "" else [c]) + WithoutDashes(s)
  {
    assert ([c] + s)[1..] == s;
  }

  lemma {:induction false} KeepsTheRest(a: string)
    requires '-' !in a
    ensures WithoutDashes(a) == a
  {
    if a != "" {
      KeepsTheRest(a[1..]);
      assert a == [a[0]] + a[1..];
    }
  }

  lemma {:induction false} DropsApart(a: string, b: string)
    ensures WithoutDashes(a + b) == WithoutDashes(a) + WithoutDashes(b)
  {
    if a == "" {
      assert a + b == b;
    } else {
      DropsApart(a[1..], b);
      assert a + b == [a[0]] + (a[1..] + b) && a == [a[0]] + a[1..];
      DropsFirst(a[0], a[1..] + b);
      DropsFirst(a[0], a[1..]);
    }
  }

  function PortsFrom(base: nat): Ports {
    Ports(base, base + 1, base + 2, base + 3, base + 4, base + 5)
  }

  function PortSet(p: Ports): set<nat> {
    {p.porta, p.app, p.bff, p.postgres, p.redis, p.mailhog}
  }

  /** The attempt's block starts inside the port range. */
  predicate InRange(request: StartRequest, attempt: nat) {
    request.candidateBasePort + attempt * 10 <= 65530
  }

  /** One immutable endpoint block, or nothing when the attempt runs past the port range. */
  function CreateEndpointManifest(request: StartRequest, attempt: nat): (m: Option<Manifest>)
    requires ValidRequest(request)
    ensures m.Some? <==> InRange(request, attempt)
    ensures m.Some? ==> m.value.ports == PortsFrom(request.candidateBasePort + attempt * 10)
    ensures m.Some? ==> m.value.runId == request.runId && m.value.worktreePath == request.worktreePath
  {
    var base := request.candidateBasePort + attempt * 10;
    if base > 65530 then None
    else
      var p := PortsFrom(base);
      Some(Manifest(
        request.runId, request.scenarioId, "porta-" + WithoutDashes(request.runId),
        request.worktreePath, request.environmentName, p,
        Urls("https://porta-harness.ci.portaidentity.com" + ":" + Decimal(p.porta),
             "https://app-harness.ci.portaidentity.com" + ":" + Decimal(p.app),
             "https://127.0.0.1" + ":" + Decimal(p.app),
             "http://app-harness.ci.portaidentity.com" + ":" + Decimal(p.bff),
             "tcp://127.0.0.1" + ":" + Decimal(p.postgres),
             "redis://127.0.0.1" + ":" + Decimal(p.redis),
             "http://127.0.0.1" + ":" + Decimal(p.mailhog)),
        request.worktreePath + "/test-harness/.assurance-runtime/" + request.runId + "/certs/server.crt"))
  }

  /** The text begins with the origin and goes on with the port in decimal. */
  predicate Listens(url: string, origin: string, port: nat) {
    origin + ":" <= url && |url| > |origin| + 1 && Parsed(url[|origin| + 1..]) == port
  }

  lemma DecimalListens(origin: string, port: nat)
    ensures Listens(origin + ":" + Decimal(port), origin, port)
  {
    DecimalParses(port);
    var url := origin + ":" + Decimal(port);
    assert url[|origin| + 1..] == Decimal(port);
    assert url[..|origin| + 1] == origin + ":";
  }

  /** Every listener of a manifest is one of the six consecutive ports of its block, under the origin its
      clients expect; the attacker's origin is the application's port on the loopback address. */
  lemma EndpointsNameTheirPorts(request: StartRequest, attempt: nat)
    requires ValidRequest(request) && InRange(request, attempt)
    ensures var m, base := CreateEndpointManifest(request, attempt).value, request.candidateBasePort + 10 * attempt;
            && m.ports.porta == base && m.ports.app == base + 1 && m.ports.bff == base + 2
            && m.ports.postgres == base + 3 && m.ports.redis == base + 4 && m.ports.mailhog == base + 5
            && Listens(m.urls.porta, "https://porta-harness.ci.portaidentity.com", m.ports.porta)
            && Listens(m.urls.app, "https://app-harness.ci.portaidentity.com", m.ports.app)
            && Listens(m.urls.attacker, "https://127.0.0.1", m.ports.app)
            && Listens(m.urls.bff, "http://app-harness.ci.portaidentity.com", m.ports.bff)
            && Listens(m.urls.postgres, "tcp://127.0.0.1", m.ports.postgres)
            && Listens(m.urls.redis, "redis://127.0.0.1", m.ports.redis)
            && Listens(m.urls.mailhog, "http://127.0.0.1", m.ports.mailhog)
  {
    var p := CreateEndpointManifest(request, attempt).value.ports;
    DecimalListens("https://porta-harness.ci.portaidentity.com", p.porta);
    DecimalListens("https://app-harness.ci.portaidentity.com", p.app);
    DecimalListens("https://127.0.0.1", p.app);
    DecimalListens("http://app-harness.ci.portaidentity.com", p.bff);
    DecimalListens("tcp://127.0.0.1", p.postgres);
    DecimalListens("redis://127.0.0.1", p.redis);
    DecimalListens("http://127.0.0.1", p.mailhog);
  }

  /** A retry changes the endpoints and nothing else: run, paths, project and certificate are the request's. */
  lemma RetriesChangeOnlyEndpoints(request: StartRequest, j: nat, k: nat)
    requires ValidRequest(request) && InRange(request, j) && InRange(request, k)
    ensures var a, b := CreateEndpointManifest(request, j).value, CreateEndpointManifest(request, k).value;
            && b == a.(ports := b.ports, urls := b.urls)
            && a.runId == request.runId && a.scenarioId == request.scenarioId
            && a.worktreePath == request.worktreePath && a.environmentName == request.environmentName
  {
  }

  lemma BlockPorts(base: nat)
    ensures forall p :: p in PortSet(PortsFrom(base)) <==> base <= p <= base + 5
    ensures |PortSet(PortsFrom(base))| == 6
  {
    var s := {base, base + 1, base + 2, base + 3, base + 4};
    assert |s| == 5;
    assert PortSet(PortsFrom(base)) == s + {base + 5};
  }

  /** Two blocks share a port exactly when their base ports are fewer than six apart. */
  lemma BlocksShareAPortIffClose(a: nat, b: nat)
    ensures PortSet(PortsFrom(a)) !! PortSet(PortsFrom(b)) <==> a - b <= -6 || 6 <= a - b
  {
    BlockPorts(a);
    BlockPorts(b);
    var p := if a <= b then b else a;
    assert p in PortSet(PortsFrom(a)) && p in PortSet(PortsFrom(b)) <==> -6 < a - b < 6;
  }

  /** Every block offered by a valid request lies in the unprivileged range, and all blocks whose
      base ports are distinct multiples of ten are disjoint. */
  lemma BlocksAreDisjointAndInRange(r1: StartRequest, n1: nat, m1: Manifest, r2: StartRequest, n2: nat, m2: Manifest)
    requires ValidRequest(r1) && CreateEndpointManifest(r1, n1) == Some(m1)
    requires ValidRequest(r2) && CreateEndpointManifest(r2, n2) == Some(m2)
    ensures forall p :: p in PortSet(m1.ports) ==> 1024 <= p <= 65535
    ensures |PortSet(m1.ports)| == 6
    ensures r1.candidateBasePort % 10 == 0 && r2.candidateBasePort % 10 == 0 && m1.ports != m2.ports ==>
              PortSet(m1.ports) !! PortSet(m2.ports)
  {
    var b1, b2 := r1.candidateBasePort + n1 * 10, r2.candidateBasePort + n2 * 10;
    assert m1.ports == PortsFrom(b1) && b1 <= 65530;
    assert m2.ports == PortsFrom(b2);
    BlockPorts(b1);
    BlocksShareAPortIffClose(b1, b2);
    if r1.candidateBasePort % 10 == 0 && r2.candidateBasePort % 10 == 0 {
      TensAreTenApart(r1.candidateBasePort / 10 + n1, r2.candidateBasePort / 10 + n2);
      assert b1 == (r1.candidateBasePort / 10 + n1) * 10 && b2 == (r2.candidateBasePort / 10 + n2) * 10;
    }
  }

  lemma TensAreTenApart(a: int, b: int)
    ensures a == b || a * 10 - b * 10 <= -10 || 10 <= a * 10 - b * 10
  {
  }
}
