# Firecamp catalog replica planner, in Dafny

This project models the catalog layer of Firecamp that plans a service's
replicas before anything is started: for a MongoDB replica set it checks the
request, assigns each replica a zone round-robin, gives it its positional
member name and DNS name, and builds its three configuration files (`sys.conf`,
`mongod.conf` with a WiredTiger cache size derived from the memory limit, and
one keyfile shared by all members); it builds the init task's environment and
turns authentication on in a `mongod.conf`. The shared catalog helpers build
the comma-joined member host lists, the `sys.conf` and JMX files, rename the
JMX user and convert MB to bytes. For Kafka Manager it builds the single
stateless replica's request, with the ZooKeeper `host:port` list, the JVM heap
options and the memory reservation raised to the heap.

Modules:

- `Wrappers` (wrappers.dfy): `Option`, `Result`, `Outcome`.
- `GoStrings` (gostrings.dfy): the Go standard library pieces the planner uses:
  `strings.Index`, `strings.Replace(s, old, new, 1)`, joining with a separator,
  `%d` rendering of integers; `Split` is the inverse of a join, used to state
  that the generated lists read back.
- `Common` (common.dfy): Go's `int64`, truncating division, two's-complement
  wrap-around, the `common`/`manage` records, and the names taken from
  packages outside the model (declared without a value).
- `Catalog` (catalog.dfy): catalog/utils.go.
- `MongoDBCatalog` (mongodb.dfy): catalog/mongodb/mongodbcatalog.go.
- `KafkaManagerCatalog` (kafkamanager.dfy): catalog/kafkamanager/kafkamanagercatalog.go.

The loops of the source are methods with `while` loops proved against
specification functions: `GenReplicaConfigs` fills a preallocated array index
by index, the host-list builders and the init task's peer list grow a string.
The operations that call those loops (both `GenDefaultCreateServiceRequest`s,
`GenMongodConfContent` and the loop-body method `GenReplicaConfig`) are
methods too; the other straight-line record building, text building and
predicates are functions.

## Model

| member | source | states |
|---|---|---|
| `Common.Wrap64` | catalog/utils.go:107-109 | the int64 result is congruent to the exact product modulo 2^64 and equals it when it fits |
| `Common.GoDiv` | catalog/mongodb/mongodbcatalog.go:150 | Go's `/` truncates toward zero: the remainder `a - q*b` lies in `[0, b)` for `a >= 0` and in `(-b, 0]` for `a < 0`; for a negative `maxMemMB` the cache clamps to one unit (`CacheFloor`), so the truncation never shows in `mongod.conf` |
| `Common.MemberDNSNames` | catalog/utils.go:33-36 | `n` names for `n > 0` (none otherwise); entry `i` is the DNS name of member `i` in the domain |
| `GoStrings.Index` | catalog/mongodb/mongodbcatalog.go:187-190 | `-1` exactly when the pattern does not occur; otherwise the first position where it occurs |
| `GoStrings.ReplaceFirstSpec` | catalog/utils.go:102-104 | replace-once leaves text without the pattern unchanged and otherwise swaps exactly its first occurrence |
| `GoStrings.FormatIntChars` | catalog/utils.go:53 | `%d` text starts with `-` exactly for negatives and is otherwise decimal digits |
| `Catalog.CreateSysConfigFile` | catalog/utils.go:19-26 | the file is `SYS_FILE_NAME` with the default config mode; its content is stated line by line by `Catalog.SysConfigLines` |
| `Catalog.SysConfigLines` | catalog/utils.go:113-116 | read line by line the file is an empty line, `PLATFORM=<platform>`, `SERVICE_MEMBER=<member>`, and nothing after the last newline |
| `Catalog.GenServiceMemberHosts` | catalog/utils.go:31-44 | the result is the join by "," of the member DNS names 0..replicas-1 in index order, after dropping leading empty names (the `len(hosts) == 0` test); `""` for no replicas; the plain join when member 0's name is not empty |
| `Catalog.MemberHostPorts` | catalog/utils.go:50-53 | `replicas` entries, entry `i` is member `i`'s DNS name in `attr.DomainName`, `:`, and the port |
| `Catalog.GenServiceMemberHostsWithPort` | catalog/utils.go:47-59 | the result is the join by "," of the `dnsname:port` entries in index order; `""` for no replicas |
| `Catalog.HostPortsSplit` | catalog/utils.go:47-59 | when no DNS name holds a comma, the host list splits back on "," into exactly its entries |
| `Catalog.CreateJmxPasswdConfFileContent` | catalog/utils.go:78-80 | the text is the user, one space, the password and a final newline, at those positions |
| `Catalog.CreateJmxAccessConfFileContent` | catalog/utils.go:97-99 | the text is the user, one space, the permission and a final newline, at those positions |
| `Catalog.IsJmxPasswdConfFile` | catalog/utils.go:73-75 | true exactly on the password file's name, so never on the access file's name when the two differ |
| `Catalog.IsJmxAccessConfFile` | catalog/utils.go:92-94 | true exactly on the access file's name, so never on the password file's name when the two differ |
| `Catalog.JmxPasswdFields` | catalog/utils.go:77-80 | the password file is the one line `user passwd`, whose two space-separated fields are the user and the password |
| `Catalog.JmxAccessFields` | catalog/utils.go:96-99 | the access file is the one line `user permission`, whose fields are the user and the permission |
| `Catalog.CreateJmxRemotePasswdConfFile` | catalog/utils.go:64-70 | named `JmxRemotePasswdConfFileName`, mode `JmxConfFileMode`, the password content, and recognised by `IsJmxPasswdConfFile` |
| `Catalog.CreateJmxRemoteAccessConfFile` | catalog/utils.go:83-89 | named `JmxRemoteAccessConfFileName`, mode `JmxConfFileMode`, the access content, and recognised by `IsJmxAccessConfFile` |
| `Catalog.JmxFilesRecognised` | catalog/utils.go:72-94 | with distinct file names each predicate holds on its own file and not on the other |
| `Catalog.ReplaceJmxUserInAccessConfFile` | catalog/utils.go:102-104 | only the first occurrence of the old user is replaced; content without it is unchanged |
| `Catalog.ReplaceJmxUserRoundTrip` | catalog/utils.go:97-104 | renaming the user of `CreateJmxAccessConfFileContent(old, perm)` gives `CreateJmxAccessConfFileContent(new, perm)` |
| `Catalog.ReplaceJmxUserBack` | catalog/utils.go:97-104 | renaming the user and renaming it back restores the access file |
| `Catalog.MBToBytes` | catalog/utils.go:107-109 | `mb * 1048576` when it fits in int64, congruent to it modulo 2^64 always |
| `MongoDBCatalog.ValidateRequest` | catalog/mongodb/mongodbcatalog.go:41-47 | an error exactly when the request has no journal volume |
| `MongoDBCatalog.SecuritySection` | catalog/mongodb/mongodbcatalog.go:279-283 | the security section contains `authorization: enabled` |
| `MongoDBCatalog.AssignZone` | catalog/mongodb/mongodbcatalog.go:139-165 | replica `i`'s zone is `azs[i % len(azs)]`, a zone of the list |
| `MongoDBCatalog.RoundRobin` | catalog/mongodb/mongodbcatalog.go:132-139 | the zones of replicas 0..n-1, one per replica, in index order |
| `MongoDBCatalog.RoundRobinCount` | catalog/mongodb/mongodbcatalog.go:117-139 | with k distinct zones, zone `j` gets `n / k` of `n` replicas plus one when `j < n % k` |
| `MongoDBCatalog.ZonesBalanced` | catalog/mongodb/mongodbcatalog.go:117-139 | any two listed zones' replica counts differ by at most one |
| `MongoDBCatalog.UnlistedZoneUnused` | catalog/mongodb/mongodbcatalog.go:139-165 | a zone not in the list gets no replica |
| `MongoDBCatalog.FewReplicasDistinctZones` | catalog/mongodb/mongodbcatalog.go:117-139 | with no more replicas than distinct zones, no zone is used twice |
| `MongoDBCatalog.QuantiseCacheMB` | catalog/mongodb/mongodbcatalog.go:149-155 | the cache is clamped to 256 MB and rounded down to whole 256 MB units: at least one unit, and the largest count of units not above the size |
| `MongoDBCatalog.CacheQuarterGB` | catalog/mongodb/mongodbcatalog.go:150-155 | the unit count of `maxMemMB/2 - 1024` (Go division) is at least 1 |
| `MongoDBCatalog.CacheSetting` | catalog/mongodb/mongodbcatalog.go:143-157 | no cache section exactly when `maxMemMB == DefaultMaxMemoryMB`, otherwise the quarter-GB count |
| `MongoDBCatalog.CacheMonotonic` | catalog/mongodb/mongodbcatalog.go:150-155 | a larger memory limit never gives a smaller cache |
| `MongoDBCatalog.CacheFloor` | catalog/mongodb/mongodbcatalog.go:150-153 | the cache stays at the 256 MB floor exactly for limits below 3072 MB |
| `MongoDBCatalog.CacheAboveFloor` | catalog/mongodb/mongodbcatalog.go:150-155 | from 2560 MB on, the count is `(maxMemMB/2 - 1024) / 256` |
| `MongoDBCatalog.QuantiseIdempotent` | catalog/mongodb/mongodbcatalog.go:154-155 | re-quantising `q * 256` MB gives `q` back |
| `MongoDBCatalog.CacheExample4096` | catalog/mongodb/mongodbcatalog.go:147-155 | a 4096 MB limit gives 1 GB, four quarter-GB units |
| `MongoDBCatalog.MongodConfContent` | catalog/mongodb/mongodbcatalog.go:142-158 | every `mongod.conf` text starts with the head and storage sections and ends with the fixed tail that holds the commented-out `#security:` section |
| `MongoDBCatalog.CacheSectionInserted` | catalog/mongodb/mongodbcatalog.go:142-158 | the limited `mongod.conf` is the unlimited one with the cache section inserted after the storage section |
| `MongoDBCatalog.MongodConfFile` | catalog/mongodb/mongodbcatalog.go:159-163 | `mongod.conf` with the default config mode and the content for the cache setting, port and replica set name |
| `MongoDBCatalog.GeneratedConfEnablesAuth` | catalog/mongodb/mongodbcatalog.go:182-197 | every generated `mongod.conf` is recognised as the config file, keeps `#security:`, and has authentication on after `EnableMongoDBAuth` |
| `MongoDBCatalog.IsMongoDBConfFile` | catalog/mongodb/mongodbcatalog.go:182-184 | true exactly on `mongod.conf`, so never on the keyfile |
| `MongoDBCatalog.KeyfileConfig` | catalog/mongodb/mongodbcatalog.go:127 | the keyfile is named `keyfile`, mode 0400, holds the generated content, and is not taken for the config file |
| `MongoDBCatalog.GenReplicaConfigs` | catalog/mongodb/mongodbcatalog.go:119-169 | a keyfile failure is returned as is; otherwise exactly `replicas` entries, entry `i` with member name `i`, zone `azs[i % len(azs)]`, and files `[sys.conf of member i, mongod.conf, keyfile]` |
| `MongoDBCatalog.GenMongodConfContent` | catalog/mongodb/mongodbcatalog.go:140-158 | the mongod.conf text is the one for `CacheSetting(maxMemMB)`: no cache section without a memory limit, else the quarter-GB count of the clamped half-minus-1 GB |
| `MongoDBCatalog.FillReplicaConfigs` | catalog/mongodb/mongodbcatalog.go:130-168 | the loop fills exactly `replicas` entries, entry `i` being replica `i` with the shared mongod.conf and keyfile entries |
| `MongoDBCatalog.GenReplicaConfig` | catalog/mongodb/mongodbcatalog.go:133-166 | one loop iteration builds replica `i`'s entry: member name `i`, zone `azs[i % len(azs)]`, files `[sys.conf of member i, the shared mongod.conf, the shared keyfile]` |
| `MongoDBCatalog.PlanSharesKeyfile` | catalog/mongodb/mongodbcatalog.go:127-164 | every replica's third file is the same keyfile, `keyfile`, mode 0400 |
| `MongoDBCatalog.PlanZones` | catalog/mongodb/mongodbcatalog.go:139-165 | the zones of a plan are the round-robin zones of its replicas |
| `MongoDBCatalog.GenDefaultCreateServiceRequest` | catalog/mongodb/mongodbcatalog.go:50-87 | a plan failure is returned; otherwise the request carries the caller's resources and volume, the replica plan with the service name as replica set name, port 27017 to 27017, DNS registration, and the journal volume and path only when a journal volume is given |
| `MongoDBCatalog.PeerDNSNames` | catalog/mongodb/mongodbcatalog.go:224-227 | the DNS names of members 1..replicas-1 in index order (member 1 alone below two replicas) |
| `MongoDBCatalog.GenInitTaskEnvKVPairs` | catalog/mongodb/mongodbcatalog.go:200-231 | the ten fixed pairs with member 0 as master; 10 pairs for one replica, otherwise an eleventh `SERVICE_MEMBERS` joining the peers with the separator |
| `MongoDBCatalog.PeersOfFewReplicas` | catalog/mongodb/mongodbcatalog.go:224-227 | with at most two replicas the peer list is member 1 alone |
| `MongoDBCatalog.PeersReadBack` | catalog/mongodb/mongodbcatalog.go:224-229 | with a one-character separator no name holds, `SERVICE_MEMBERS` splits back into exactly the peers |
| `MongoDBCatalog.IsAuthEnabled` | catalog/mongodb/mongodbcatalog.go:187-190 | true exactly when `authorization: enabled` occurs in the text |
| `MongoDBCatalog.EnableMongoDBAuth` | catalog/mongodb/mongodbcatalog.go:193-197 | text without `#security:` is unchanged; otherwise only its first occurrence becomes the security section naming the keyfile, and authentication is then on |
| `KafkaManagerCatalog.ZkServerEntry` | catalog/kafkamanager/kafkamanagercatalog.go:94 | an entry is the DNS name, then `:`, then exactly the `%d` text of the client port |
| `KafkaManagerCatalog.GenZkServerList` | catalog/kafkamanager/kafkamanagercatalog.go:86-97 | the join by "," of the members' `dnsname:ClientPort` entries in index order, `""` exactly when there are no replicas |
| `KafkaManagerCatalog.ReserveMemMB` | catalog/kafkamanager/kafkamanagercatalog.go:56-59 | the reservation is the larger of the caller's reservation and the heap size |
| `KafkaManagerCatalog.JavaOptsFields` | catalog/kafkamanager/kafkamanagercatalog.go:45 | `JAVA_OPTS` is exactly the two flags `-Xms{H}M` and `-Xmx{H}M` with the same heap size |
| `KafkaManagerCatalog.GenDefaultCreateServiceRequest` | catalog/kafkamanager/kafkamanagercatalog.go:35-83 | one stateless replica of the Kafka Manager image, port 9000 to 9000 as service port, the caller's CPU and memory limits with the reservation raised to the heap, and the six pairs CLUSTER, SERVICE_NAME, ZK_HOSTS, JAVA_OPTS, KM_USERNAME, KM_PASSWORD in that order |

## Left out

- `genKeyfileContent` (catalog/mongodb/mongodbcatalog.go:171-179) reads 200 random bytes and base64-encodes them; the model takes its outcome as a `Result` parameter of `GenReplicaConfigs`.
- `GenDefaultInitTaskRequest` (catalog/mongodb/mongodbcatalog.go:89-115) only wraps the environment of `GenInitTaskEnvKVPairs` in task and log records of packages outside the model.
- The float `cacheSizeGB` (`q * 0.25`) and its `%v` text: the model keeps the integer quarter-GB count `q`; its text is an uninterpreted function `FormatQuarterGB`.
- `fmt.Sprintf` templates are modelled as concatenation of their pieces; the YAML of `mongod.conf` is not parsed.
- `utils.GenServiceMemberName`, `dns.GenDNSName`, `dns.GenDefaultDomainName`, `filepath.Join`, the constants of the `common` and `manage` packages, the JMX file names and mode, and ZooKeeper's client port are declared without a value; nothing about them is assumed except where a lemma states it in its `requires`.
- The keyfile is one shared object in Go; the model states that every replica carries an equal keyfile value, not pointer identity.
- `MongoDBCatalog.GenReplicaConfigs`: a keyfile failure is returned for every input, as Go checks it first; only when the keyfile content was drawn does it require a non-negative replica count and, when there are replicas, a non-empty zone list, because past that point Go panics (`make` with a negative length, `i % 0`).
- `MongoDBCatalog.GenDefaultCreateServiceRequest`: the same requirement on `opts.Replicas` and the zone list, under the same condition, since it passes them to `GenReplicaConfigs`.
- `MongoDBCatalog.GenReplicaConfigs` builds the `mongod.conf` text once, before the loop; Go rebuilds the same text in every iteration from the same inputs, so the plan is the same.
- `MongoDBCatalog.ZonesBalanced`: stated for zone lists without repeats; with a repeated zone name the counts of the repeated name add up.
- `Catalog.HostPortsSplit`: stated when no DNS name holds a comma; DNS names are not visible to the model.
- `MongoDBCatalog.PeersReadBack`: stated for a one-character separator that no DNS name holds; the separator's value is not visible to the model.
- `Catalog.JmxFilesRecognised`: stated when the two JMX file names differ; their values are not visible to the model.
- The default Kafka Manager heap (4096 MB) is declared as a constant; as in the source file, no planner function uses it.
