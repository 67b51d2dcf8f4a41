/**
 * Records and names the catalog planner shares with the rest of the
 * platform: Go's int64, the resource and request records of the `common`
 * and `manage` packages, and the names the planner takes from packages
 * outside this model.
 *
 * Names whose definitions live outside this model (`utils.GenServiceMemberName`,
 * `dns.GenDNSName`, `dns.GenDefaultDomainName`, `filepath.Join` and the
 * constants of the `common` and `manage` packages) are declared as constants
 * without a value: the model assumes nothing about them beyond their type.
 */
module Common {

  import opened Wrappers

  newtype int64 = x: int | -0x8000_0000_0000_0000 <= x < 0x8000_0000_0000_0000

  const TwoTo64: int := 0x1_0000_0000_0000_0000

  /** Two's-complement wrap-around of an int64 operation whose exact result is `x`. */
  function Wrap64(x: int): (r: int64)
    ensures (r as int - x) % TwoTo64 == 0
    ensures -0x8000_0000_0000_0000 <= x < 0x8000_0000_0000_0000 ==> r as int == x
  {
    var m := x % TwoTo64;
    if m < 0x8000_0000_0000_0000 then m as int64 else (m - TwoTo64) as int64
  }

  /** Go's integer division, which truncates toward zero (Dafny's `/` is Euclidean). */
  function GoDiv(a: int, b: int): (q: int)
    requires b > 0
    ensures a >= 0 ==> 0 <= a - q * b < b
    ensures a < 0 ==> -b < a - q * b <= 0
  {
    if a >= 0 then a / b else -((-a) / b)
  }

  // ---- names from packages outside this model (no value assumed) ----

  /** `utils.GenServiceMemberName`: the positional member name of replica `index`. */
  const GenServiceMemberName: (string, int64) -> string
  /** `dns.GenDNSName`: the DNS name of a member within a domain. */
  const GenDNSName: (string, string) -> string
  /** `dns.GenDefaultDomainName`: the default DNS domain of a cluster. */
  const GenDefaultDomainName: string -> string
  /** `filepath.Join` of two path elements. */
  const FilepathJoin: (string, string) -> string

  const DefaultMaxMemoryMB: int64
  const DefaultConfigFileMode: nat
  const DefaultConfigPath: string
  const DefaultContainerMountPath: string
  const DefaultJournalVolumeContainerMountPath: string
  const ContainerNamePrefix: string
  const ServiceTypeStateless: string

  const EnvRegion: string
  const EnvCluster: string
  const EnvServiceName: string
  const EnvServiceType: string
  const EnvManageServerUrl: string
  const EnvOp: string
  const EnvServiceMaster: string
  const EnvAdmin: string
  const EnvAdminPassword: string
  const EnvServiceMembers: string
  const EnvValueSeparator: string

  /** `manage.CatalogSetServiceInitOp`. */
  const CatalogSetServiceInitOp: string

  /** The DNS name of replica `index` of `service` within `domain`. */
  function MemberDNSName(service: string, domain: string, index: int64): string
  {
    GenDNSName(GenServiceMemberName(service, index), domain)
  }

  /** The DNS names of members 0 .. n-1, in index order (none when n <= 0). */
  function MemberDNSNames(service: string, domain: string, n: int64): (r: seq<string>)
    ensures |r| == if n < 0 then 0 else n as int
    ensures forall i :: 0 <= i < |r| ==> r[i] == MemberDNSName(service, domain, i as int64)
  {
    if n <= 0 then [] else MemberDNSNames(service, domain, n - 1) + [MemberDNSName(service, domain, n - 1)]
  }

  // ---- records ----

  /** `common.Resources`. */
  datatype Resources = Resources(maxCpuUnits: int64, reserveCpuUnits: int64, maxMemMB: int64, reserveMemMB: int64)

  /** `common.PortMapping`. */
  datatype PortMapping = PortMapping(containerPort: int64, hostPort: int64, isServicePort: bool)

  /** `common.EnvKeyValuePair`. */
  datatype EnvKeyValuePair = EnvKeyValuePair(name: string, value: string)

  /** The fields of `common.ServiceAttr` that the planner reads. */
  datatype ServiceAttr = ServiceAttr(serviceName: string, replicas: int64, domainName: string)

  /** `common.ServiceVolume`, carried through unchanged. */
  type ServiceVolume(==)

  /** `manage.ReplicaConfigFile`: one file of a replica's configuration bundle. */
  datatype ReplicaConfigFile = ReplicaConfigFile(fileName: string, fileMode: nat, content: string)

  /** `manage.ReplicaConfig`: where one replica runs, its name and its files. */
  datatype ReplicaConfig = ReplicaConfig(zone: string, memberName: string, configs: seq<ReplicaConfigFile>)

  /** `manage.ServiceCommonRequest`. */
  datatype ServiceCommonRequest = ServiceCommonRequest(region: string, cluster: string, serviceName: string, serviceType: string)

  /**
   * `manage.CreateServiceRequest`; a pointer field the planner leaves nil is `None`,
   * a string or list it leaves unset is empty.
   */
  datatype CreateServiceRequest = CreateServiceRequest(
    service: ServiceCommonRequest,
    resource: Resources,
    containerImage: string,
    replicas: int64,
    volume: Option<ServiceVolume>,
    containerPath: string,
    portMappings: seq<PortMapping>,
    registerDNS: bool,
    replicaConfigs: seq<ReplicaConfig>,
    journalVolume: Option<ServiceVolume>,
    journalContainerPath: string,
    envkvs: seq<EnvKeyValuePair>)
}
