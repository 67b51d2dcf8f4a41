/**
 * Planning of a MongoDB replica set (catalog/mongodb/mongodbcatalog.go):
 * request validation, zone assignment, the per-replica configuration
 * bundles (sys.conf, mongod.conf with the WiredTiger cache size derived
 * from the memory budget, and one shared keyfile), the init task's
 * environment, and turning on authentication in mongod.conf.
 *
 * The keyfile content comes from a random source that is not part of this
 * model: it is passed in as a `Result`, whose failure aborts the plan.
 */
module MongoDBCatalog {

  import opened Wrappers
  import opened Common
  import opened GoStrings
  import Catalog

  const DefaultVersion := "3.4"
  const ContainerImage := ContainerNamePrefix + "mongodb:" + DefaultVersion

  const EnvReplicaSetName := "REPLICA_SET_NAME"
  const DefaultPort: int64 := 27017

  const KeyfileName := "keyfile"
  /** Octal 0400: readable by the owner only. */
  const KeyfileMode: nat := 256

  const MongoDBConfFileName := "mongod.conf"
  const MongoDBConfHead := "\n# mongod.conf\n\n# for documentation of all options, see:\n#   http://docs.mongodb.org/manual/reference/configuration-options/\n"
  const MongoDBConfStorage := "\n# Where and how to store data.\nstorage:\n  dbPath: /data/db\n  journal:\n    enabled: true\n  engine: wiredTiger\n"
  /** The commented-out security section that `EnableMongoDBAuth` replaces. */
  const SecurityMarker := "#security:"
  const MongoDBConfEnd := "\n#sharding:\n\n#processManagement:\n\n" + SecurityMarker
                          + "\n\n#operationProfiling:\n\n## Enterprise-Only Options:\n\n#auditLog:\n\n#snmp:\n"
  const MongoDBAuthStr := "authorization: enabled"

  /** `%v` rendering of the float `q * 0.25`; float formatting is not part of this model. */
  const FormatQuarterGB: nat -> string

  /** The path of the keyfile inside the container. */
  function KeyfilePath(): string { FilepathJoin(DefaultConfigPath, KeyfileName) }

  function CacheSection(quarterGB: nat): string
  {
    "\n  wiredTiger:\n    engineConfig:\n      cacheSizeGB: " + FormatQuarterGB(quarterGB) + "\n"
  }

  function NetworkSection(port: int64): string
  {
    "\n# network interfaces, bind 0.0.0.0\nnet:\n  port: " + FormatInt(port as int) + "\n"
  }

  function ReplSection(replSetName: string): string
  {
    "\nreplication:\n  replSetName: " + replSetName + "\n"
  }

  function SecuritySection(keyfilePath: string): (r: string)
    ensures Contains(r, MongoDBAuthStr)
  {
    var r := "\nsecurity:\n  keyFile: " + keyfilePath + "\n  " + MongoDBAuthStr + "\n";
    ContainsMiddle("\nsecurity:\n  keyFile: " + keyfilePath + "\n  ", MongoDBAuthStr, "\n");
    r
  }

  // ---- requests ----

  /** The fields of `manage.CatalogMongoDBOptions` that the planner reads. */
  datatype MongoDBOptions = MongoDBOptions(replicas: int64, volume: Option<ServiceVolume>, journalVolume: Option<ServiceVolume>)

  /** `manage.CatalogCreateMongoDBRequest`. */
  datatype CatalogCreateMongoDBRequest = CatalogCreateMongoDBRequest(
    service: ServiceCommonRequest, resource: Resources, options: MongoDBOptions)

  /** `ValidateRequest`: MongoDB needs a separate journal volume. */
  function ValidateRequest(req: CatalogCreateMongoDBRequest): (r: Outcome<string>)
    ensures r.Fail? <==> req.options.journalVolume.None?
  {
    if req.options.journalVolume.None? then Fail("mongodb should have separate volume for journal") else Pass
  }

  // ---- zone assignment ----

  /** The zone of replica `i`: round robin over the zone list. */
  function AssignZone(azs: seq<string>, i: nat): (z: string)
    requires |azs| > 0
    ensures z in azs
  {
    azs[i % |azs|]
  }

  /** The zones of replicas 0 .. n-1. */
  function RoundRobin(azs: seq<string>, n: nat): (r: seq<string>)
    requires |azs| > 0
    ensures |r| == n
    ensures forall i :: 0 <= i < n ==> r[i] == AssignZone(azs, i)
  {
    seq(n, i requires 0 <= i < n => AssignZone(azs, i))
  }

  predicate Distinct(azs: seq<string>)
  {
    forall i, j :: 0 <= i < j < |azs| ==> azs[i] != azs[j]
  }

  /** How many entries of `zs` are `z`. */
  function Count(zs: seq<string>, z: string): nat
  {
    if |zs| == 0 then 0 else Count(zs[..|zs| - 1], z) + (if zs[|zs| - 1] == z then 1 else 0)
  }

  lemma {:induction false} MulAtLeast(x: int, k: int)
    requires x >= 1 && k > 0
    ensures x * k >= k
  {
    if x > 1 {
      MulAtLeast(x - 1, k);
      assert x * k == (x - 1) * k + k;
    }
  }

  lemma DivModUnique(a: int, k: int, q: int, r: int)
    requires k > 0 && 0 <= r < k && a == q * k + r
    ensures a / k == q && a % k == r
  {
    var q', r' := a / k, a % k;
    assert a == q' * k + r';
    if q > q' {
      assert (q - q') * k == q * k - q' * k;
      MulAtLeast(q - q', k);
    } else if q < q' {
      assert (q' - q) * k == q' * k - q * k;
      MulAtLeast(q' - q, k);
    }
  }

  /** Moving from `n` to `n + 1` replicas: where the quotient and remainder by `k` go. */
  lemma DivModStep(n: nat, k: nat)
    requires k > 0
    ensures n % k == k - 1 ==> (n + 1) / k == n / k + 1 && (n + 1) % k == 0
    ensures n % k != k - 1 ==> (n + 1) / k == n / k && (n + 1) % k == n % k + 1
  {
    if n % k == k - 1 {
      DivModUnique(n + 1, k, n / k + 1, 0);
    } else {
      DivModUnique(n + 1, k, n / k, n % k + 1);
    }
  }

  /** Replica `m` adds one to the count of its own zone and to no other. */
  lemma CountOneMore(azs: seq<string>, m: nat, j: nat)
    requires |azs| > 0 && Distinct(azs) && j < |azs|
    ensures Count(RoundRobin(azs, m + 1), azs[j]) == Count(RoundRobin(azs, m), azs[j]) + (if m % |azs| == j then 1 else 0)
  {
    var rr := RoundRobin(azs, m + 1);
    assert rr[..m] == RoundRobin(azs, m);
    assert rr[m] == azs[m % |azs|];
  }

  /** How many of the indices 0 .. n-1 fall on position `j` modulo `k`. */
  function Hits(n: nat, k: nat, j: nat): nat
    requires k > 0
  {
    if n == 0 then 0 else Hits(n - 1, k, j) + (if (n - 1) % k == j then 1 else 0)
  }

  /** Zone `azs[j]` of a zone list without repeats gets one replica per index that falls on `j`. */
  lemma {:induction false} CountIsHits(azs: seq<string>, n: nat, j: nat)
    requires |azs| > 0 && Distinct(azs) && j < |azs|
    ensures Count(RoundRobin(azs, n), azs[j]) == Hits(n, |azs|, j)
  {
    if n > 0 {
      CountIsHits(azs, n - 1, j);
      CountOneMore(azs, n - 1, j);
    }
  }

  /** After `q` full rounds of `k` and `r` more indices, position `j` was hit `q` times, plus one when `j < r`. */
  lemma {:induction false} HitsQR(q: nat, r: nat, k: nat, j: nat)
    requires j < k && r < k
    ensures Hits(q * k + r, k, j) == q + (if j < r then 1 else 0)
    decreases q, r
  {
    if r > 0 {
      HitsQR(q, r - 1, k, j);
      ModOfRound(q, r - 1, k);
    } else if q > 0 {
      HitsQR(q - 1, k - 1, k, j);
      assert (q - 1) * k + k - 1 + 1 == q * k;
      ModOfRound(q - 1, k - 1, k);
    }
  }

  lemma ModOfRound(q: nat, r: nat, k: nat)
    requires r < k
    ensures (q * k + r) % k == r
  {
    DivModUnique(q * k + r, k, q, r);
  }

  /**
   * With a zone list without repeats, zone `azs[j]` gets `n / k` of the first
   * `n` replicas, plus one more when `j < n % k` (k zones).
   */
  lemma RoundRobinCount(azs: seq<string>, n: nat, j: nat)
    requires |azs| > 0 && Distinct(azs) && j < |azs|
    ensures Count(RoundRobin(azs, n), azs[j]) == n / |azs| + (if j < n % |azs| then 1 else 0)
  {
    var k := |azs|;
    var q, r := n / k, n % k;
    DivModParts(n, k);
    assert n == q * k + r;
    CountIsHits(azs, n, j);
    HitsQR(q, r, k, j);
  }

  lemma DivModParts(n: nat, k: nat)
    requires k > 0
    ensures n == (n / k) * k + n % k && 0 <= n / k && 0 <= n % k < k
  {
  }

  /** With a zone list without repeats, any two zones get replica counts that differ by at most one. */
  lemma ZonesBalanced(azs: seq<string>, n: nat, z1: string, z2: string)
    requires |azs| > 0 && Distinct(azs) && z1 in azs && z2 in azs
    ensures Count(RoundRobin(azs, n), z1) <= Count(RoundRobin(azs, n), z2) + 1
  {
    var j1 :| 0 <= j1 < |azs| && azs[j1] == z1;
    var j2 :| 0 <= j2 < |azs| && azs[j2] == z2;
    RoundRobinCount(azs, n, j1);
    RoundRobinCount(azs, n, j2);
  }

  /** A zone outside the list gets no replica. */
  lemma {:induction false} UnlistedZoneUnused(azs: seq<string>, n: nat, z: string)
    requires |azs| > 0 && z !in azs
    ensures Count(RoundRobin(azs, n), z) == 0
  {
    if n > 0 {
      UnlistedZoneUnused(azs, n - 1, z);
      assert RoundRobin(azs, n)[..n - 1] == RoundRobin(azs, n - 1);
    }
  }

  /** With no more replicas than zones (and no repeated zone), no zone is used twice. */
  lemma FewReplicasDistinctZones(azs: seq<string>, n: nat)
    requires |azs| > 0 && Distinct(azs) && n <= |azs|
    ensures Distinct(RoundRobin(azs, n))
  {
    var rr := RoundRobin(azs, n);
    forall i | 0 <= i < n ensures rr[i] == azs[i] {
      DivModUnique(i, |azs|, 0, i);
    }
  }

  // ---- WiredTiger cache size ----

  const DefaultCacheSizeMB := 256

  /**
   * Clamp a cache size in MB to the 256 MB floor and round it down to a whole
   * number of 256 MB units (quarter GB): the count of units.
   */
  function QuantiseCacheMB(mb: int): (q: nat)
    ensures q >= 1
    ensures mb >= DefaultCacheSizeMB ==> q * DefaultCacheSizeMB <= mb < (q + 1) * DefaultCacheSizeMB
    ensures mb < DefaultCacheSizeMB ==> q == 1
  {
    var clamped := if mb < DefaultCacheSizeMB then DefaultCacheSizeMB else mb;
    clamped / DefaultCacheSizeMB
  }

  /** The cache size for a memory limit, in quarter GB: max(maxMemMB/2 - 1024, 256) MB rounded down. */
  function CacheQuarterGB(maxMemMB: int64): (q: nat)
    ensures q >= 1
  {
    QuantiseCacheMB(GoDiv(maxMemMB as int, 2) - 1024)
  }

  /** The cache setting of mongod.conf: none without a memory limit, else the quarter-GB count. */
  function CacheSetting(maxMemMB: int64): (c: Option<nat>)
    ensures c.None? <==> maxMemMB == DefaultMaxMemoryMB
    ensures c.Some? ==> c.value == CacheQuarterGB(maxMemMB) && c.value >= 1
  {
    if maxMemMB == DefaultMaxMemoryMB then None else Some(CacheQuarterGB(maxMemMB))
  }

  /** A larger memory limit never gives a smaller cache. */
  lemma CacheMonotonic(m1: int64, m2: int64)
    requires m1 <= m2
    ensures CacheQuarterGB(m1) <= CacheQuarterGB(m2)
  {
    var a, b := GoDiv(m1 as int, 2) - 1024, GoDiv(m2 as int, 2) - 1024;
    assert a <= b;
    var ca := if a < DefaultCacheSizeMB then DefaultCacheSizeMB else a;
    var cb := if b < DefaultCacheSizeMB then DefaultCacheSizeMB else b;
    DivMonotonic(ca, cb, DefaultCacheSizeMB);
  }

  lemma DivMonotonic(a: nat, b: nat, k: nat)
    requires a <= b && k > 0
    ensures a / k <= b / k
  {
    if a / k > b / k {
      assert (a / k - b / k) * k == a / k * k - b / k * k;
      MulAtLeast(a / k - b / k, k);
    }
  }

  /** The cache stays at the 256 MB floor exactly for limits below 3072 MB. */
  lemma CacheFloor(maxMemMB: int64)
    ensures CacheQuarterGB(maxMemMB) == 1 <==> maxMemMB < 3072
  {
  }

  /** Above the floor, the cache is (maxMemMB/2 - 1024) MB rounded down to 256 MB. */
  lemma CacheAboveFloor(maxMemMB: int64)
    requires maxMemMB >= 2560
    ensures CacheQuarterGB(maxMemMB) == (maxMemMB as int / 2 - 1024) / 256
  {
  }

  /** Quantising an already quantised size gives back the same count. */
  lemma QuantiseIdempotent(mb: int)
    ensures QuantiseCacheMB(QuantiseCacheMB(mb) * DefaultCacheSizeMB) == QuantiseCacheMB(mb)
  {
    var q := QuantiseCacheMB(mb);
    DivModUnique(q * DefaultCacheSizeMB, DefaultCacheSizeMB, q, 0);
  }

  /** A 4096 MB limit gives 4096/2 - 1024 = 1024 MB, already aligned: 4 quarter GB. */
  lemma CacheExample4096()
    ensures CacheQuarterGB(4096) == 4
  {
  }

  // ---- configuration files ----

  /** The text of mongod.conf for a cache setting, a port and a replica set name. */
  function MongodConfContent(cache: Option<nat>, port: int64, replSetName: string): (c: string)
    ensures OccursAt(c, MongoDBConfHead + MongoDBConfStorage, 0)
    ensures OccursAt(c, MongoDBConfEnd, |c| - |MongoDBConfEnd|)
  {
    if cache.None? then
      Framed(MongoDBConfHead + MongoDBConfStorage, NetworkSection(port), ReplSection(replSetName), MongoDBConfEnd);
      MongoDBConfHead + MongoDBConfStorage + NetworkSection(port) + ReplSection(replSetName) + MongoDBConfEnd
    else
      FramedWithCache(MongoDBConfHead + MongoDBConfStorage, CacheSection(cache.value), NetworkSection(port),
                      ReplSection(replSetName), MongoDBConfEnd);
      MongoDBConfHead + MongoDBConfStorage + CacheSection(cache.value) + NetworkSection(port) + ReplSection(replSetName) + MongoDBConfEnd
  }

  /** mongod.conf without a cache section starts with its head and ends with its end. */
  lemma Framed(head: string, net: string, repl: string, end: string)
    ensures OccursAt(head + net + repl + end, head, 0)
    ensures OccursAt(head + net + repl + end, end, |head + net + repl + end| - |end|)
  {
    assert (head + net + repl + end)[..|head|] == head;
  }

  /** mongod.conf with a cache section starts with its head and ends with its end. */
  lemma FramedWithCache(head: string, cache: string, net: string, repl: string, end: string)
    ensures OccursAt(head + cache + net + repl + end, head, 0)
    ensures OccursAt(head + cache + net + repl + end, end, |head + cache + net + repl + end| - |end|)
  {
    assert (head + cache + net + repl + end)[..|head|] == head;
  }

  lemma InsertAt(h: string, c: string, a: string, b: string, e: string)
    ensures h + c + a + b + e == (h + a + b + e)[..|h|] + c + (h + a + b + e)[|h|..]
  {
    assert (h + a + b + e)[..|h|] == h;
    assert (h + a + b + e)[|h|..] == a + b + e;
  }

  /**
   * The mongod.conf with a cache limit is the one without, with the cache
   * section inserted right after the storage section.
   */
  lemma CacheSectionInserted(q: nat, port: int64, replSetName: string)
    ensures var cut := |MongoDBConfHead + MongoDBConfStorage|;
      var plain := MongodConfContent(None, port, replSetName);
      MongodConfContent(Some(q), port, replSetName) == plain[..cut] + CacheSection(q) + plain[cut..]
  {
    InsertAt(MongoDBConfHead + MongoDBConfStorage, CacheSection(q), NetworkSection(port), ReplSection(replSetName), MongoDBConfEnd);
  }

  /** The mongod.conf file of every replica. */
  function MongodConfFile(port: int64, replSetName: string, maxMemMB: int64): (f: ReplicaConfigFile)
    ensures f.fileName == MongoDBConfFileName && f.fileMode == DefaultConfigFileMode
    ensures f.content == MongodConfContent(CacheSetting(maxMemMB), port, replSetName)
  {
    ReplicaConfigFile(MongoDBConfFileName, DefaultConfigFileMode, MongodConfContent(CacheSetting(maxMemMB), port, replSetName))
  }

  /**
   * Every generated mongod.conf keeps the commented-out security section, so
   * `EnableMongoDBAuth` turns authentication on in it.
   */
  lemma GeneratedConfEnablesAuth(port: int64, replSetName: string, maxMemMB: int64)
    ensures IsMongoDBConfFile(MongodConfFile(port, replSetName, maxMemMB).fileName)
    ensures Contains(MongodConfFile(port, replSetName, maxMemMB).content, SecurityMarker)
    ensures IsAuthEnabled(EnableMongoDBAuth(MongodConfFile(port, replSetName, maxMemMB).content))
  {
    var content := MongodConfContent(CacheSetting(maxMemMB), port, replSetName);
    ContainsMiddle("\n#sharding:\n\n#processManagement:\n\n", SecurityMarker,
      "\n\n#operationProfiling:\n\n## Enterprise-Only Options:\n\n#auditLog:\n\n#snmp:\n");
    ContainsWithin(content, MongoDBConfEnd, |content| - |MongoDBConfEnd|, SecurityMarker);
  }

  /** The keyfile shared by every replica: owner read-only. */
  function KeyfileConfig(keyfileContent: string): (f: ReplicaConfigFile)
    ensures f.fileName == KeyfileName && f.fileMode == KeyfileMode && f.content == keyfileContent
    ensures !IsMongoDBConfFile(f.fileName)
  {
    ReplicaConfigFile(KeyfileName, KeyfileMode, keyfileContent)
  }

  /** `IsMongoDBConfFile`: recognises mongod.conf by name, and so never the keyfile. */
  function IsMongoDBConfFile(filename: string): (r: bool)
    ensures r <==> filename == MongoDBConfFileName
    ensures r ==> filename != KeyfileName
  {
    filename == MongoDBConfFileName
  }

  /** Replica `i` of a plan: positional member name, round-robin zone, and its three files. */
  function ReplicaConfigOf(i: int64, platform: string, azs: seq<string>, cluster: string, service: string,
                           replSetName: string, port: int64, maxMemMB: int64, keyfileContent: string): ReplicaConfig
    requires i >= 0 && |azs| > 0
  {
    ReplicaEntry(i, platform, azs, cluster, service, MongodConfFile(port, replSetName, maxMemMB), KeyfileConfig(keyfileContent))
  }

  /** Replica `i` with the given mongod.conf and keyfile entries, which every replica shares. */
  function ReplicaEntry(i: int64, platform: string, azs: seq<string>, cluster: string, service: string,
                        mongoCfg: ReplicaConfigFile, keyfileCfg: ReplicaConfigFile): ReplicaConfig
    requires i >= 0 && |azs| > 0
  {
    ReplicaConfig(AssignZone(azs, i as nat), GenServiceMemberName(service, i),
                  [Catalog.CreateSysConfigFile(platform, MemberDNSName(service, GenDefaultDomainName(cluster), i)),
                   mongoCfg, keyfileCfg])
  }

  /** A plan of `replicas` replicas: entry `i` is replica `i`. */
  predicate IsReplicaPlan(cfgs: seq<ReplicaConfig>, replicas: int64, platform: string, azs: seq<string>, cluster: string,
                          service: string, replSetName: string, port: int64, maxMemMB: int64, keyfileContent: string)
  {
    |cfgs| == replicas as int && (|cfgs| == 0 || |azs| > 0) &&
    forall i :: 0 <= i < |cfgs| ==>
      cfgs[i] == ReplicaConfigOf(i as int64, platform, azs, cluster, service, replSetName, port, maxMemMB, keyfileContent)
  }

  /**
   * `GenReplicaConfigs`: one entry per replica, filled in index order. A
   * failure of the random source aborts the plan before anything else is
   * looked at. Past that point Go panics on a negative count and, when there
   * are replicas, on an empty zone list: callers must avoid both. The
   * mongod.conf text does not depend on the replica, so it is built once,
   * before the loop, where Go rebuilds the same text in every iteration.
   */
  method GenReplicaConfigs(platform: string, azs: seq<string>, cluster: string, service: string,
                           replicas: int64, replSetName: string, port: int64, maxMemMB: int64,
                           keyfileContent: Result<string, string>)
    returns (r: Result<seq<ReplicaConfig>, string>)
    requires keyfileContent.Success? ==> replicas >= 0 && (replicas > 0 ==> |azs| > 0)
    ensures keyfileContent.Failure? ==> r == Failure(keyfileContent.error)
    ensures keyfileContent.Success? ==> (r.Success? &&
      IsReplicaPlan(r.value, replicas, platform, azs, cluster, service, replSetName, port, maxMemMB, keyfileContent.value))
  {
    if keyfileContent.Failure? {
      return Failure(keyfileContent.error);
    }
    var keyfileCfg := ReplicaConfigFile(KeyfileName, KeyfileMode, keyfileContent.value);
    var content := GenMongodConfContent(port, replSetName, maxMemMB);
    var mongoCfg := ReplicaConfigFile(MongoDBConfFileName, DefaultConfigFileMode, content);
    var replicaCfgs := FillReplicaConfigs(platform, azs, cluster, service, replicas, mongoCfg, keyfileCfg);
    return Success(replicaCfgs);
  }

  /**
   * The loop of `GenReplicaConfigs`: entry `i` is replica `i`, with the
   * shared mongod.conf and keyfile entries.
   */
  method FillReplicaConfigs(platform: string, azs: seq<string>, cluster: string, service: string, replicas: int64,
                            mongoCfg: ReplicaConfigFile, keyfileCfg: ReplicaConfigFile)
    returns (cfgs: seq<ReplicaConfig>)
    requires replicas >= 0 && (replicas > 0 ==> |azs| > 0)
    ensures |cfgs| == replicas as int
    ensures forall i :: 0 <= i < |cfgs| ==> cfgs[i] == ReplicaEntry(i as int64, platform, azs, cluster, service, mongoCfg, keyfileCfg)
  {
    var domain := GenDefaultDomainName(cluster);
    var replicaCfgs := new ReplicaConfig[replicas as int];
    var i := 0;
    while i < replicas as int
      invariant 0 <= i <= replicaCfgs.Length
      invariant forall j :: 0 <= j < i ==>
        replicaCfgs[j] == ReplicaEntry(j as int64, platform, azs, cluster, service, mongoCfg, keyfileCfg)
    {
      var replicaCfg := GenReplicaConfig(platform, azs, cluster, domain, service, i as int64, mongoCfg, keyfileCfg);
      replicaCfgs[i] := replicaCfg;
      i := i + 1;
    }
    return replicaCfgs[..];
  }

  /** One iteration of the loop: the entry of replica `i`, with the shared file entries given. */
  method GenReplicaConfig(platform: string, azs: seq<string>, ghost cluster: string, domain: string, service: string,
                          i: int64, mongoCfg: ReplicaConfigFile, keyfileCfg: ReplicaConfigFile)
    returns (replicaCfg: ReplicaConfig)
    requires i >= 0 && |azs| > 0
    requires domain == GenDefaultDomainName(cluster)
    ensures replicaCfg == ReplicaEntry(i, platform, azs, cluster, service, mongoCfg, keyfileCfg)
  {
    var member := GenServiceMemberName(service, i);
    var memberHost := GenDNSName(member, domain);
    var sysCfg := Catalog.CreateSysConfigFile(platform, memberHost);

    var index := i as int % |azs|;
    var configs := [sysCfg, mongoCfg, keyfileCfg];
    replicaCfg := ReplicaConfig(azs[index], member, configs);
  }

  /**
   * The mongod.conf text of one replica: without a memory limit no cache
   * section, otherwise `max(maxMemMB/2 - 1024, 256)` MB rounded down to
   * quarter GB.
   */
  method GenMongodConfContent(port: int64, replSetName: string, maxMemMB: int64) returns (content: string)
    ensures content == MongodConfContent(CacheSetting(maxMemMB), port, replSetName)
  {
    var netcontent := NetworkSection(port);
    var replcontent := ReplSection(replSetName);
    if maxMemMB == DefaultMaxMemoryMB {
      content := MongoDBConfHead + MongoDBConfStorage + netcontent + replcontent + MongoDBConfEnd;
      assert content == MongodConfContent(None, port, replSetName);
    } else {
      var cacheSizeMB := GoDiv(maxMemMB as int, 2) - 1024;
      if cacheSizeMB < DefaultCacheSizeMB {
        cacheSizeMB := DefaultCacheSizeMB;
      }
      var cacheQuarterGB := cacheSizeMB / DefaultCacheSizeMB;
      var cacheContent := CacheSection(cacheQuarterGB);
      content := MongoDBConfHead + MongoDBConfStorage + cacheContent + netcontent + replcontent + MongoDBConfEnd;
      assert cacheQuarterGB == CacheQuarterGB(maxMemMB);
      assert content == MongodConfContent(Some(cacheQuarterGB), port, replSetName);
    }
  }

  /** Every replica of a plan carries the same keyfile, named `keyfile`, owner read-only. */
  lemma PlanSharesKeyfile(cfgs: seq<ReplicaConfig>, replicas: int64, platform: string, azs: seq<string>, cluster: string,
                          service: string, replSetName: string, port: int64, maxMemMB: int64, keyfileContent: string)
    requires IsReplicaPlan(cfgs, replicas, platform, azs, cluster, service, replSetName, port, maxMemMB, keyfileContent)
    ensures forall i :: 0 <= i < |cfgs| ==> (|cfgs[i].configs| == 3 &&
      cfgs[i].configs[2] == ReplicaConfigFile(KeyfileName, KeyfileMode, keyfileContent))
    ensures forall i, j :: 0 <= i < |cfgs| && 0 <= j < |cfgs| ==> cfgs[i].configs[2] == cfgs[j].configs[2]
  {
    forall i | 0 <= i < |cfgs|
      ensures |cfgs[i].configs| == 3 && cfgs[i].configs[2] == ReplicaConfigFile(KeyfileName, KeyfileMode, keyfileContent)
    {
      assert cfgs[i] == ReplicaConfigOf(i as int64, platform, azs, cluster, service, replSetName, port, maxMemMB, keyfileContent);
    }
  }

  /** The zones of a plan are the round-robin zones of its replicas. */
  lemma PlanZones(cfgs: seq<ReplicaConfig>, replicas: int64, platform: string, azs: seq<string>, cluster: string,
                  service: string, replSetName: string, port: int64, maxMemMB: int64, keyfileContent: string)
    requires |azs| > 0
    requires IsReplicaPlan(cfgs, replicas, platform, azs, cluster, service, replSetName, port, maxMemMB, keyfileContent)
    ensures seq(|cfgs|, i requires 0 <= i < |cfgs| => cfgs[i].zone) == RoundRobin(azs, |cfgs|)
  {
    forall i | 0 <= i < |cfgs| ensures cfgs[i].zone == RoundRobin(azs, |cfgs|)[i] {
      assert cfgs[i] == ReplicaConfigOf(i as int64, platform, azs, cluster, service, replSetName, port, maxMemMB, keyfileContent);
    }
  }

  // ---- request ----

  /**
   * `GenDefaultCreateServiceRequest`: the creation request of a replica set
   * whose replica set name is the service name, on port 27017.
   */
  method GenDefaultCreateServiceRequest(platform: string, region: string, azs: seq<string>, cluster: string,
                                        service: string, opts: MongoDBOptions, res: Resources,
                                        keyfileContent: Result<string, string>)
    returns (r: Result<CreateServiceRequest, string>)
    requires keyfileContent.Success? ==> opts.replicas >= 0 && (opts.replicas > 0 ==> |azs| > 0)
    ensures keyfileContent.Failure? ==> r == Failure(keyfileContent.error)
    ensures keyfileContent.Success? ==> r.Success?
    ensures r.Success? ==>
      r.value.service == ServiceCommonRequest(region, cluster, service, "") &&
      r.value.resource == res &&
      r.value.containerImage == ContainerImage &&
      r.value.replicas == opts.replicas &&
      r.value.volume == opts.volume &&
      r.value.containerPath == DefaultContainerMountPath &&
      r.value.portMappings == [PortMapping(DefaultPort, DefaultPort, false)] &&
      r.value.registerDNS &&
      IsReplicaPlan(r.value.replicaConfigs, opts.replicas, platform, azs, cluster, service, service,
                    DefaultPort, res.maxMemMB, keyfileContent.value) &&
      r.value.journalVolume == opts.journalVolume &&
      r.value.journalContainerPath == (if opts.journalVolume.Some? then DefaultJournalVolumeContainerMountPath else "") &&
      r.value.envkvs == []
  {
    var replSetName := service;
    var replicaCfgs := GenReplicaConfigs(platform, azs, cluster, service, opts.replicas, replSetName,
                                         DefaultPort, res.maxMemMB, keyfileContent);
    if replicaCfgs.Failure? {
      return Failure(replicaCfgs.error);
    }

    var portmapping := PortMapping(DefaultPort, DefaultPort, false);
    var req := CreateServiceRequest(
      ServiceCommonRequest(region, cluster, service, ""),
      res, ContainerImage, opts.replicas, opts.volume, DefaultContainerMountPath,
      [portmapping], true, replicaCfgs.value, None, "", []);
    if opts.journalVolume.Some? {
      req := req.(journalVolume := opts.journalVolume,
                  journalContainerPath := DefaultJournalVolumeContainerMountPath);
    }
    return Success(req);
  }

  // ---- init task ----

  /**
   * The DNS names of the members after member 0 that `GenInitTaskEnvKVPairs`
   * lists: members 1 .. replicas-1, and member 1 alone when `replicas` is below 2.
   */
  function PeerDNSNames(service: string, domain: string, replicas: int64): (r: seq<string>)
    ensures |r| == if replicas < 2 then 1 else replicas as int - 1
    ensures forall i :: 0 <= i < |r| ==> r[i] == MemberDNSName(service, domain, (i + 1) as int64)
  {
    var n := if replicas < 2 then 1 else replicas as int - 1;
    seq(n, i requires 0 <= i < n => MemberDNSName(service, domain, (i + 1) as int64))
  }

  /** The ten pairs of the init task's environment that do not depend on the replica count. */
  function InitTaskBaseEnv(region: string, cluster: string, service: string, replSetName: string,
                           manageurl: string, admin: string, adminPass: string): seq<EnvKeyValuePair>
  {
    [EnvKeyValuePair(EnvRegion, region),
     EnvKeyValuePair(EnvCluster, cluster),
     EnvKeyValuePair(EnvServiceName, service),
     EnvKeyValuePair(EnvReplicaSetName, replSetName),
     EnvKeyValuePair(EnvServiceType, Catalog.CatalogServiceMongoDB),
     EnvKeyValuePair(EnvManageServerUrl, manageurl),
     EnvKeyValuePair(EnvOp, CatalogSetServiceInitOp),
     EnvKeyValuePair(EnvServiceMaster, MemberDNSName(service, GenDefaultDomainName(cluster), 0)),
     EnvKeyValuePair(EnvAdmin, admin),
     EnvKeyValuePair(EnvAdminPassword, adminPass)]
  }

  /**
   * `GenInitTaskEnvKVPairs`: the ten base pairs, with member 0 as the master;
   * for more than one replica also SERVICE_MEMBERS, the other members' DNS
   * names joined by the separator.
   */
  method GenInitTaskEnvKVPairs(region: string, cluster: string, service: string, replSetName: string,
                               replicas: int64, manageurl: string, admin: string, adminPass: string)
    returns (envkvs: seq<EnvKeyValuePair>)
    ensures |envkvs| == if replicas == 1 then 10 else 11
    ensures envkvs[..10] == InitTaskBaseEnv(region, cluster, service, replSetName, manageurl, admin, adminPass)
    ensures replicas != 1 ==> (envkvs[10] ==
      EnvKeyValuePair(EnvServiceMembers, Join(EnvValueSeparator, PeerDNSNames(service, GenDefaultDomainName(cluster), replicas))))
  {
    var domain := GenDefaultDomainName(cluster);
    var masterDNS := GenDNSName(GenServiceMemberName(service, 0), domain);
    envkvs := [EnvKeyValuePair(EnvRegion, region),
               EnvKeyValuePair(EnvCluster, cluster),
               EnvKeyValuePair(EnvServiceName, service),
               EnvKeyValuePair(EnvReplicaSetName, replSetName),
               EnvKeyValuePair(EnvServiceType, Catalog.CatalogServiceMongoDB),
               EnvKeyValuePair(EnvManageServerUrl, manageurl),
               EnvKeyValuePair(EnvOp, CatalogSetServiceInitOp),
               EnvKeyValuePair(EnvServiceMaster, masterDNS),
               EnvKeyValuePair(EnvAdmin, admin),
               EnvKeyValuePair(EnvAdminPassword, adminPass)];
    if replicas == 1 {
      return;
    }

    var slaves := GenDNSName(GenServiceMemberName(service, 1), domain);
    var i: int64 := 2;
    assert PeerDNSNames(service, domain, 2) == [slaves];
    while i < replicas
      invariant 2 <= i && (replicas >= 2 ==> i <= replicas) && (replicas < 2 ==> i == 2)
      invariant slaves == Join(EnvValueSeparator, PeerDNSNames(service, domain, i))
    {
      PeerStep(service, domain, i);
      JoinAppend(EnvValueSeparator, PeerDNSNames(service, domain, i), MemberDNSName(service, domain, i));
      slaves := slaves + EnvValueSeparator + GenDNSName(GenServiceMemberName(service, i), domain);
      i := i + 1;
    }
    if replicas < 2 {
      PeersOfFewReplicas(service, domain, i, replicas);
    }
    envkvs := envkvs + [EnvKeyValuePair(EnvServiceMembers, slaves)];
  }

  /** Up to two replicas, the peer list is just member 1. */
  lemma PeersOfFewReplicas(service: string, domain: string, a: int64, b: int64)
    requires a <= 2 && b <= 2
    ensures PeerDNSNames(service, domain, a) == PeerDNSNames(service, domain, b) == [MemberDNSName(service, domain, 1)]
  {
  }

  lemma PeerStep(service: string, domain: string, i: int64)
    requires 2 <= i < 0x7fff_ffff_ffff_ffff
    ensures PeerDNSNames(service, domain, i + 1) == PeerDNSNames(service, domain, i) + [MemberDNSName(service, domain, i)]
  {
  }

  /**
   * The init task reads SERVICE_MEMBERS back by splitting on the separator:
   * with a one-character separator that no DNS name holds, it gets exactly
   * the members after member 0, in index order.
   */
  lemma PeersReadBack(service: string, domain: string, replicas: int64, c: char)
    requires EnvValueSeparator == [c]
    requires forall i :: 0 <= i < |PeerDNSNames(service, domain, replicas)| ==> c !in PeerDNSNames(service, domain, replicas)[i]
    ensures Split(Join(EnvValueSeparator, PeerDNSNames(service, domain, replicas)), c) == PeerDNSNames(service, domain, replicas)
  {
    SplitJoin(c, PeerDNSNames(service, domain, replicas));
  }

  // ---- authentication ----

  /** `IsAuthEnabled`: the config text turns authorization on. */
  function IsAuthEnabled(content: string): (r: bool)
    ensures r <==> Contains(content, MongoDBAuthStr)
  {
    Index(content, MongoDBAuthStr) != -1
  }

  /**
   * `EnableMongoDBAuth`: replace the first commented-out security section by
   * one that names the keyfile and turns authorization on.
   */
  function EnableMongoDBAuth(content: string): (r: string)
    ensures !Contains(content, SecurityMarker) ==> r == content
    ensures Contains(content, SecurityMarker) ==>
      exists k :: OccursAt(content, SecurityMarker, k) && (forall j :: 0 <= j < k ==> !OccursAt(content, SecurityMarker, j)) &&
        r == content[..k] + SecuritySection(KeyfilePath()) + content[k + |SecurityMarker|..]
    ensures Contains(content, SecurityMarker) ==> IsAuthEnabled(r)
  {
    ReplaceFirstSpec(content, SecurityMarker, SecuritySection(KeyfilePath()));
    ReplacedSectionEnablesAuth(content);
    ReplaceFirst(content, SecurityMarker, SecuritySection(KeyfilePath()))
  }

  lemma ReplacedSectionEnablesAuth(content: string)
    ensures Contains(content, SecurityMarker) ==>
      Contains(ReplaceFirst(content, SecurityMarker, SecuritySection(KeyfilePath())), MongoDBAuthStr)
  {
    if Contains(content, SecurityMarker) {
      var k := Index(content, SecurityMarker);
      ContainsInContext(content[..k], SecuritySection(KeyfilePath()), content[k + |SecurityMarker|..], MongoDBAuthStr);
    }
  }
}
