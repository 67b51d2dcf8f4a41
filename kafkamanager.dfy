/**
 * The Kafka Manager catalog service (catalog/kafkamanager/kafkamanagercatalog.go):
 * one stateless container that keeps its data in ZooKeeper, so the request
 * carries the ZooKeeper member list, the JVM heap options and the web login.
 */
module KafkaManagerCatalog {

  import opened Wrappers
  import opened Common
  import opened GoStrings
  import Catalog

  const DefaultVersion := "1.3.3"
  const ContainerImage := ContainerNamePrefix + "kafka-manager:" + DefaultVersion
  const ListenPort: int64 := 9000
  /** Default Java heap of Kafka Manager, in MB. */
  const DefaultHeapMB: int64 := 4096

  const EnvZkHosts := "ZK_HOSTS"
  const EnvJavaOpts := "JAVA_OPTS"
  const EnvKmUsername := "KM_USERNAME"
  const EnvKmPassword := "KM_PASSWORD"

  const ZkServerSep := ","

  /** The ZooKeeper catalog's client port (defined outside this module; no value assumed). */
  const ZkClientPort: int64

  datatype KafkaManagerOptions = KafkaManagerOptions(heapSizeMB: int64, user: string, password: string)

  /** The `dnsname:port` entry of one ZooKeeper member, as `%s:%d` renders it. */
  function ZkServerEntry(dnsname: string): (e: string)
    ensures |e| > |dnsname| && e[..|dnsname|] == dnsname && e[|dnsname|] == ':'
    ensures e[|dnsname| + 1..] == FormatInt(ZkClientPort as int)
  {
    dnsname + ":" + FormatInt(ZkClientPort as int)
  }

  /**
   * One step of the ZooKeeper loop: adding the separator when the list is not
   * empty, then the entry, gives the join of one more entry.
   */
  lemma ZkServerStep(entries: seq<string>, n: nat, servers: string, entry: string)
    requires n < |entries| && entries[n] == entry
    requires servers == Join(ZkServerSep, entries[..n]) && (n > 0 ==> servers != "")
    ensures (if |servers| != 0 then servers + ZkServerSep else servers) + entry == Join(ZkServerSep, entries[..n + 1])
  {
    TakeOneMore(entries, n);
    JoinAppend(ZkServerSep, entries[..n], entry);
  }

  /**
   * `genZkServerList`: the `dnsname:ClientPort` entry of every ZooKeeper
   * member, in index order, separated by "," with no leading separator; the
   * same text as `Catalog.GenServiceMemberHostsWithPort` gives for that port.
   */
  method GenZkServerList(zkattr: ServiceAttr) returns (zkServers: string)
    ensures zkServers == Join(ZkServerSep, Catalog.MemberHostPorts(zkattr, ZkClientPort))
    ensures zkattr.replicas <= 0 <==> zkServers == ""
  {
    zkServers := "";
    ghost var entries := Catalog.MemberHostPorts(zkattr, ZkClientPort);
    var i: int64 := 0;
    while i < zkattr.replicas
      invariant 0 <= i as int <= |entries|
      invariant zkServers == Join(ZkServerSep, entries[..i as int])
      invariant i > 0 ==> zkServers != ""
    {
      var member := GenServiceMemberName(zkattr.serviceName, i);
      var dnsname := GenDNSName(member, zkattr.domainName);
      ZkServerStep(entries, i as int, zkServers, ZkServerEntry(dnsname));
      if |zkServers| != 0 {
        zkServers := zkServers + ZkServerSep;
      }
      zkServers := zkServers + ZkServerEntry(dnsname);
      i := i + 1;
    }
    assert entries[..i as int] == entries;
  }

  /** The reserved memory of the request: the caller's, raised to the heap size when below it. */
  function ReserveMemMB(res: Resources, heapSizeMB: int64): (m: int64)
    ensures m >= res.reserveMemMB && m >= heapSizeMB
    ensures m == res.reserveMemMB || m == heapSizeMB
  {
    if res.reserveMemMB < heapSizeMB then heapSizeMB else res.reserveMemMB
  }

  /** The JVM heap flag `<flag><heap>M`. */
  function HeapFlag(flag: string, heapSizeMB: int64): string
  {
    flag + FormatInt(heapSizeMB as int) + "M"
  }

  /** `JAVA_OPTS`: the same heap size as both the initial and the maximum heap. */
  function JavaOpts(heapSizeMB: int64): string
  {
    HeapFlag("-Xms", heapSizeMB) + " " + HeapFlag("-Xmx", heapSizeMB)
  }

  /** Split on spaces, JAVA_OPTS is exactly the two heap flags, with the same size. */
  lemma JavaOptsFields(heapSizeMB: int64)
    ensures Split(JavaOpts(heapSizeMB), ' ') == [HeapFlag("-Xms", heapSizeMB), HeapFlag("-Xmx", heapSizeMB)]
  {
    var a, b := HeapFlag("-Xms", heapSizeMB), HeapFlag("-Xmx", heapSizeMB);
    assert Join(" ", [a, b]) == JavaOpts(heapSizeMB) by {
      assert [a, b][..1] == [a];
    }
    NoSpaceInHeapFlag("-Xms", heapSizeMB);
    NoSpaceInHeapFlag("-Xmx", heapSizeMB);
    SplitJoin(' ', [a, b]);
  }

  lemma NoSpaceInHeapFlag(flag: string, heapSizeMB: int64)
    requires ' ' !in flag
    ensures ' ' !in HeapFlag(flag, heapSizeMB)
  {
    var digits := FormatInt(heapSizeMB as int);
    FormatIntChars(heapSizeMB as int);
    forall k | 0 <= k < |digits| ensures digits[k] != ' ' {
      if k > 0 || heapSizeMB >= 0 {
        assert '0' <= digits[k] <= '9';
      }
    }
    Catalog.NoCharInConcat(' ', flag, digits);
    Catalog.NoCharInConcat(' ', flag + digits, "M");
  }

  /** The six environment pairs of the container, in their fixed order. */
  function KafkaManagerEnv(cluster: string, service: string, zkServers: string,
                           opts: KafkaManagerOptions): seq<EnvKeyValuePair>
  {
    [EnvKeyValuePair(EnvCluster, cluster),
     EnvKeyValuePair(EnvServiceName, service),
     EnvKeyValuePair(EnvZkHosts, zkServers),
     EnvKeyValuePair(EnvJavaOpts, JavaOpts(opts.heapSizeMB)),
     EnvKeyValuePair(EnvKmUsername, opts.user),
     EnvKeyValuePair(EnvKmPassword, opts.password)]
  }

  /**
   * `GenDefaultCreateServiceRequest`: one stateless replica listening on 9000,
   * the caller's CPU and memory limits with the reservation raised to the
   * heap, and the six environment pairs; no volume, no DNS registration and
   * no per-replica configs.
   */
  method GenDefaultCreateServiceRequest(platform: string, region: string, cluster: string, service: string,
                                        opts: KafkaManagerOptions, res: Resources, zkattr: ServiceAttr)
    returns (req: CreateServiceRequest)
    ensures req.service == ServiceCommonRequest(region, cluster, service, ServiceTypeStateless)
    ensures req.resource.maxCpuUnits == res.maxCpuUnits && req.resource.reserveCpuUnits == res.reserveCpuUnits
    ensures req.resource.maxMemMB == res.maxMemMB
    ensures req.resource.reserveMemMB == ReserveMemMB(res, opts.heapSizeMB)
    ensures req.containerImage == ContainerImage && req.replicas == 1
    ensures req.portMappings == [PortMapping(ListenPort, ListenPort, true)]
    ensures req.volume.None? && req.containerPath == "" && !req.registerDNS && req.replicaConfigs == []
    ensures req.journalVolume.None? && req.journalContainerPath == ""
    ensures |req.envkvs| == 6
    ensures req.envkvs == KafkaManagerEnv(cluster, service, Join(ZkServerSep, Catalog.MemberHostPorts(zkattr, ZkClientPort)), opts)
  {
    var zkServers := GenZkServerList(zkattr);
    var envkvs := KafkaManagerEnv(cluster, service, zkServers, opts);
    var portMappings := [PortMapping(ListenPort, ListenPort, true)];
    var reserveMemMB := res.reserveMemMB;
    if res.reserveMemMB < opts.heapSizeMB {
      reserveMemMB := opts.heapSizeMB;
    }
    req := CreateServiceRequest(
      ServiceCommonRequest(region, cluster, service, ServiceTypeStateless),
      Resources(res.maxCpuUnits, res.reserveCpuUnits, res.maxMemMB, reserveMemMB),
      ContainerImage, 1, None, "", portMappings, false, [], None, "", envkvs);
  }
}
