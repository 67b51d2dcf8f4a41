/**
 * Helpers shared by every catalog service (catalog/utils.go): the sys.conf
 * file, the comma-joined member host lists, the JMX password and access
 * files, and the MB-to-bytes conversion.
 */
module Catalog {

  import opened Common
  import opened GoStrings

  const HostSep := ","

  // Names defined in the catalog package outside utils.go (no value assumed).
  const SysFileName: string
  const JmxRemotePasswdConfFileName: string
  const JmxRemoteAccessConfFileName: string
  const JmxConfFileMode: nat
  const CatalogServiceMongoDB: string

  /** `CreateSysConfigFile`: the platform/identity file of one member. */
  function CreateSysConfigFile(platform: string, memberDNSName: string): (f: ReplicaConfigFile)
    ensures f.fileName == SysFileName && f.fileMode == DefaultConfigFileMode
  {
    ReplicaConfigFile(SysFileName, DefaultConfigFileMode,
                      "\n" + ("PLATFORM=" + platform) + "\n" + ("SERVICE_MEMBER=" + memberDNSName) + "\n")
  }

  /**
   * Read line by line, sys.conf holds an empty line, then `PLATFORM=<platform>`,
   * then `SERVICE_MEMBER=<member>`, then the empty text after the final newline.
   */
  lemma SysConfigLines(platform: string, memberDNSName: string)
    requires '\n' !in platform && '\n' !in memberDNSName
    ensures Split(CreateSysConfigFile(platform, memberDNSName).content, '\n')
         == ["", "PLATFORM=" + platform, "SERVICE_MEMBER=" + memberDNSName, ""]
  {
    var lines := ["", "PLATFORM=" + platform, "SERVICE_MEMBER=" + memberDNSName, ""];
    SysContentIsJoin("PLATFORM=" + platform, "SERVICE_MEMBER=" + memberDNSName);
    NoCharInConcat('\n', "PLATFORM=", platform);
    NoCharInConcat('\n', "SERVICE_MEMBER=", memberDNSName);
    SplitJoin('\n', lines);
  }

  /** The sys.conf text is its lines joined by newlines. */
  lemma SysContentIsJoin(a: string, b: string)
    ensures Join("\n", ["", a, b, ""]) == "\n" + a + "\n" + b + "\n"
  {
    assert ["", a] == [""] + [a] && ["", a, b] == ["", a] + [b] && ["", a, b, ""] == ["", a, b] + [""];
    JoinAppend("\n", [""], a);
    JoinAppend("\n", ["", a], b);
    JoinAppend("\n", ["", a, b], "");
  }

  lemma NoCharInConcat(c: char, x: string, y: string)
    requires c !in x && c !in y
    ensures c !in x + y
  {
  }

  /** Appending one host to a list built so far, as `GenServiceMemberHosts` does. */
  function AppendHost(hosts: string, dnsname: string): string
  {
    if |hosts| == 0 then dnsname else hosts + HostSep + dnsname
  }

  /** `xs` without its leading empty strings. */
  function DropLeadingEmpty(xs: seq<string>): (r: seq<string>)
    ensures r == [] || r[0] != ""
    ensures |r| <= |xs| && r == xs[|xs| - |r|..]
  {
    if |xs| == 0 then [] else if xs[0] == "" then DropLeadingEmpty(xs[1..]) else xs
  }

  lemma FirstNonEmptyKept(xs: seq<string>)
    requires |xs| > 0 && xs[0] != ""
    ensures DropLeadingEmpty(xs) == xs
  {
  }

  lemma {:induction false} DropLeadingEmptyAppend(xs: seq<string>, x: string)
    ensures DropLeadingEmpty(xs + [x])
         == if DropLeadingEmpty(xs) == [] then (if x == "" then [] else [x]) else DropLeadingEmpty(xs) + [x]
  {
    if |xs| > 0 {
      assert (xs + [x])[1..] == xs[1..] + [x];
      DropLeadingEmptyAppend(xs[1..], x);
    }
  }

  /** A joined list whose first element is not empty is not empty. */
  lemma {:induction false} JoinNonEmpty(sep: string, xs: seq<string>)
    requires |xs| > 0 && xs[0] != ""
    ensures Join(sep, xs) != ""
    decreases |xs|
  {
    if |xs| > 1 {
      JoinNonEmpty(sep, xs[..|xs| - 1]);
    }
  }

  /** One step of the host-list loop keeps the list equal to the join of the names seen so far. */
  lemma AppendHostStep(seen: seq<string>, hosts: string, dnsname: string)
    requires hosts == Join(HostSep, DropLeadingEmpty(seen))
    ensures AppendHost(hosts, dnsname) == Join(HostSep, DropLeadingEmpty(seen + [dnsname]))
  {
    DropLeadingEmptyAppend(seen, dnsname);
    var kept := DropLeadingEmpty(seen);
    if kept != [] {
      JoinNonEmpty(HostSep, kept);
      JoinAppend(HostSep, kept, dnsname);
    }
  }

  /** When member 0 has a non-empty DNS name, the host list is the plain join of all names. */
  lemma MemberHostsPlainJoin(service: string, domain: string, replicas: int64, hosts: string)
    requires hosts == Join(HostSep, DropLeadingEmpty(MemberDNSNames(service, domain, replicas)))
    ensures replicas > 0 && MemberDNSName(service, domain, 0) != "" ==>
      hosts == Join(HostSep, MemberDNSNames(service, domain, replicas))
  {
    var names := MemberDNSNames(service, domain, replicas);
    if replicas > 0 && MemberDNSName(service, domain, 0) != "" {
      assert names[0] == MemberDNSName(service, domain, 0);
      FirstNonEmptyKept(names);
    }
  }

  /**
   * `GenServiceMemberHosts`: the DNS names of members 0 .. replicas-1, joined
   * by ",". The loop adds no separator while the list is still empty, so DNS
   * names that come out empty before the first non-empty one leave no trace.
   */
  method GenServiceMemberHosts(cluster: string, service: string, replicas: int64) returns (hosts: string)
    ensures hosts == Join(HostSep, DropLeadingEmpty(MemberDNSNames(service, GenDefaultDomainName(cluster), replicas)))
    ensures replicas <= 0 ==> hosts == ""
    ensures replicas > 0 && MemberDNSName(service, GenDefaultDomainName(cluster), 0) != "" ==>
      hosts == Join(HostSep, MemberDNSNames(service, GenDefaultDomainName(cluster), replicas))
  {
    hosts := "";
    var domain := GenDefaultDomainName(cluster);
    ghost var names := MemberDNSNames(service, domain, replicas);
    var i: int64 := 0;
    while i < replicas
      invariant 0 <= i as int <= |names|
      invariant hosts == Join(HostSep, DropLeadingEmpty(names[..i as int]))
    {
      var member := GenServiceMemberName(service, i);
      var dnsname := GenDNSName(member, domain);
      assert names[i as int] == dnsname;
      TakeOneMore(names, i as int);
      AppendHostStep(names[..i as int], hosts, dnsname);
      if |hosts| == 0 {
        hosts := dnsname;
      } else {
        hosts := hosts + HostSep + dnsname;
      }
      i := i + 1;
    }
    assert names[..i as int] == names;
    MemberHostsPlainJoin(service, domain, replicas, hosts);
  }

  /** The `dnsname:port` entry of every member of `attr`, in index order. */
  function MemberHostPorts(attr: ServiceAttr, port: int64): (r: seq<string>)
    ensures |r| == if attr.replicas < 0 then 0 else attr.replicas as int
    ensures forall i :: 0 <= i < |r| ==>
      r[i] == MemberDNSName(attr.serviceName, attr.domainName, i as int64) + ":" + FormatInt(port as int)
  {
    var names := MemberDNSNames(attr.serviceName, attr.domainName, attr.replicas);
    seq(|names|, i requires 0 <= i < |names| => names[i] + ":" + FormatInt(port as int))
  }

  /** One step of the `host:port` loop: the list grows by one entry, with a separator unless it was empty. */
  lemma HostPortStep(entries: seq<string>, n: nat, hosts: string, entry: string)
    requires n < |entries| && entries[n] == entry
    requires hosts == Join(HostSep, entries[..n]) && (n > 0 ==> hosts != "")
    ensures (if |hosts| == 0 then entry else hosts + ("," + entry)) == Join(HostSep, entries[..n + 1])
  {
    TakeOneMore(entries, n);
    JoinAppend(HostSep, entries[..n], entry);
  }

  /** `GenServiceMemberHostsWithPort`: the `dnsname:port` entries of all members, joined by ",". */
  method GenServiceMemberHostsWithPort(attr: ServiceAttr, port: int64) returns (hosts: string)
    ensures hosts == Join(HostSep, MemberHostPorts(attr, port))
    ensures attr.replicas <= 0 ==> hosts == ""
  {
    hosts := "";
    ghost var entries := MemberHostPorts(attr, port);
    var i: int64 := 0;
    while i < attr.replicas
      invariant 0 <= i as int <= |entries|
      invariant hosts == Join(HostSep, entries[..i as int])
      invariant i > 0 ==> hosts != ""
    {
      var member := GenServiceMemberName(attr.serviceName, i);
      var dnsname := GenDNSName(member, attr.domainName);
      HostPortStep(entries, i as int, hosts, dnsname + ":" + FormatInt(port as int));
      if |hosts| == 0 {
        hosts := dnsname + ":" + FormatInt(port as int);
      } else {
        hosts := hosts + ("," + (dnsname + ":" + FormatInt(port as int)));
      }
      i := i + 1;
    }
    assert entries[..i as int] == entries;
  }

  /**
   * A host list splits back on "," into its entries, when no DNS name holds a
   * comma (a port rendered by `%d` never does).
   */
  lemma HostPortsSplit(attr: ServiceAttr, port: int64)
    requires attr.replicas > 0
    requires forall i: int64 :: 0 <= i < attr.replicas ==> ',' !in MemberDNSName(attr.serviceName, attr.domainName, i)
    ensures Split(Join(HostSep, MemberHostPorts(attr, port)), ',') == MemberHostPorts(attr, port)
  {
    var entries := MemberHostPorts(attr, port);
    var p := FormatInt(port as int);
    FormatIntChars(port as int);
    assert ',' !in p;
    forall i | 0 <= i < |entries| ensures ',' !in entries[i] {
      var d := MemberDNSName(attr.serviceName, attr.domainName, i as int64);
      assert ',' !in d;
      assert entries[i] == d + ":" + p;
      forall k | 0 <= k < |entries[i]| ensures entries[i][k] != ',' {
        if k < |d| {
          assert entries[i][k] == d[k];
        } else if k > |d| {
          assert entries[i][k] == p[k - |d| - 1];
        }
      }
    }
    SplitJoin(',', entries);
  }

  /** `CreateJmxPasswdConfFileContent`: one line `user passwd`. */
  function CreateJmxPasswdConfFileContent(jmxUser: string, jmxPasswd: string): (c: string)
    ensures |c| == |jmxUser| + |jmxPasswd| + 2
    ensures c[..|jmxUser|] == jmxUser && c[|jmxUser|] == ' '
    ensures c[|jmxUser| + 1..|c| - 1] == jmxPasswd && c[|c| - 1] == '\n'
  {
    jmxUser + " " + jmxPasswd + "\n"
  }

  /** `CreateJmxAccessConfFileContent`: one line `user accessPermission`. */
  function CreateJmxAccessConfFileContent(jmxUser: string, accessPerm: string): (c: string)
    ensures |c| == |jmxUser| + |accessPerm| + 2
    ensures c[..|jmxUser|] == jmxUser && c[|jmxUser|] == ' '
    ensures c[|jmxUser| + 1..|c| - 1] == accessPerm && c[|c| - 1] == '\n'
  {
    jmxUser + " " + accessPerm + "\n"
  }

  /**
   * A JMX line `a b\n` reads back as the single line `a b` (then the empty text
   * after the newline), whose fields are `a` and `b` when neither holds a
   * space or a newline.
   */
  lemma JmxLineFields(a: string, b: string)
    requires ' ' !in a && ' ' !in b && '\n' !in a && '\n' !in b
    ensures Split(a + " " + b + "\n", '\n') == [a + " " + b, ""]
    ensures Split(a + " " + b, ' ') == [a, b]
  {
    assert Join("\n", [a + " " + b, ""]) == a + " " + b + "\n";
    assert '\n' !in a + " " + b;
    SplitJoin('\n', [a + " " + b, ""]);
    assert Join(" ", [a, b]) == a + " " + b;
    SplitJoin(' ', [a, b]);
  }

  /** The password file holds the user and the password as the two fields of one line. */
  lemma JmxPasswdFields(jmxUser: string, jmxPasswd: string)
    requires ' ' !in jmxUser && ' ' !in jmxPasswd && '\n' !in jmxUser && '\n' !in jmxPasswd
    ensures Split(CreateJmxPasswdConfFileContent(jmxUser, jmxPasswd), '\n') == [jmxUser + " " + jmxPasswd, ""]
    ensures Split(jmxUser + " " + jmxPasswd, ' ') == [jmxUser, jmxPasswd]
  {
    JmxLineFields(jmxUser, jmxPasswd);
  }

  /** The access file holds the user and the permission as the two fields of one line. */
  lemma JmxAccessFields(jmxUser: string, accessPerm: string)
    requires ' ' !in jmxUser && ' ' !in accessPerm && '\n' !in jmxUser && '\n' !in accessPerm
    ensures Split(CreateJmxAccessConfFileContent(jmxUser, accessPerm), '\n') == [jmxUser + " " + accessPerm, ""]
    ensures Split(jmxUser + " " + accessPerm, ' ') == [jmxUser, accessPerm]
  {
    JmxLineFields(jmxUser, accessPerm);
  }

  /** `CreateJmxRemotePasswdConfFile`. */
  function CreateJmxRemotePasswdConfFile(jmxUser: string, jmxPasswd: string): (f: ReplicaConfigFile)
    ensures f.fileName == JmxRemotePasswdConfFileName && f.fileMode == JmxConfFileMode
    ensures f.content == CreateJmxPasswdConfFileContent(jmxUser, jmxPasswd)
    ensures IsJmxPasswdConfFile(f.fileName)
  {
    ReplicaConfigFile(JmxRemotePasswdConfFileName, JmxConfFileMode, CreateJmxPasswdConfFileContent(jmxUser, jmxPasswd))
  }

  /** `CreateJmxRemoteAccessConfFile`. */
  function CreateJmxRemoteAccessConfFile(jmxUser: string, accessPerm: string): (f: ReplicaConfigFile)
    ensures f.fileName == JmxRemoteAccessConfFileName && f.fileMode == JmxConfFileMode
    ensures f.content == CreateJmxAccessConfFileContent(jmxUser, accessPerm)
    ensures IsJmxAccessConfFile(f.fileName)
  {
    ReplicaConfigFile(JmxRemoteAccessConfFileName, JmxConfFileMode, CreateJmxAccessConfFileContent(jmxUser, accessPerm))
  }

  /** `IsJmxPasswdConfFile`: recognises the password file by name, and so never the access file when the names differ. */
  function IsJmxPasswdConfFile(filename: string): (r: bool)
    ensures r <==> filename == JmxRemotePasswdConfFileName
    ensures r && JmxRemotePasswdConfFileName != JmxRemoteAccessConfFileName ==> filename != JmxRemoteAccessConfFileName
  {
    filename == JmxRemotePasswdConfFileName
  }

  /** `IsJmxAccessConfFile`: recognises the access file by name, and so never the password file when the names differ. */
  function IsJmxAccessConfFile(filename: string): (r: bool)
    ensures r <==> filename == JmxRemoteAccessConfFileName
    ensures r && JmxRemotePasswdConfFileName != JmxRemoteAccessConfFileName ==> filename != JmxRemotePasswdConfFileName
  {
    filename == JmxRemoteAccessConfFileName
  }

  /** When the two JMX file names differ, each predicate recognises its own file and not the other. */
  lemma JmxFilesRecognised(u: string, x: string)
    requires JmxRemotePasswdConfFileName != JmxRemoteAccessConfFileName
    ensures IsJmxPasswdConfFile(CreateJmxRemotePasswdConfFile(u, x).fileName)
    ensures !IsJmxAccessConfFile(CreateJmxRemotePasswdConfFile(u, x).fileName)
    ensures IsJmxAccessConfFile(CreateJmxRemoteAccessConfFile(u, x).fileName)
    ensures !IsJmxPasswdConfFile(CreateJmxRemoteAccessConfFile(u, x).fileName)
  {
  }

  /** `ReplaceJmxUserInAccessConfFile`: the first occurrence of the old user becomes the new user. */
  function ReplaceJmxUserInAccessConfFile(content: string, newUser: string, oldUser: string): (r: string)
    ensures !Contains(content, oldUser) ==> r == content
    ensures Contains(content, oldUser) ==>
      exists k :: OccursAt(content, oldUser, k) && (forall j :: 0 <= j < k ==> !OccursAt(content, oldUser, j)) &&
        r == content[..k] + newUser + content[k + |oldUser|..]
  {
    ReplaceFirstSpec(content, oldUser, newUser);
    ReplaceFirst(content, oldUser, newUser)
  }

  /** Renaming the user of an access file gives the access file of the new user, same permission. */
  lemma ReplaceJmxUserRoundTrip(oldUser: string, newUser: string, accessPerm: string)
    ensures ReplaceJmxUserInAccessConfFile(CreateJmxAccessConfFileContent(oldUser, accessPerm), newUser, oldUser)
         == CreateJmxAccessConfFileContent(newUser, accessPerm)
  {
    var c := CreateJmxAccessConfFileContent(oldUser, accessPerm);
    assert OccursAt(c, oldUser, 0);
    assert Index(c, oldUser) == 0;
    assert c[|oldUser|..] == " " + accessPerm + "\n";
  }

  /** Renaming the user and then renaming it back restores the access file. */
  lemma ReplaceJmxUserBack(oldUser: string, newUser: string, accessPerm: string)
    ensures ReplaceJmxUserInAccessConfFile(
              ReplaceJmxUserInAccessConfFile(CreateJmxAccessConfFileContent(oldUser, accessPerm), newUser, oldUser),
              oldUser, newUser)
         == CreateJmxAccessConfFileContent(oldUser, accessPerm)
  {
    ReplaceJmxUserRoundTrip(oldUser, newUser, accessPerm);
    ReplaceJmxUserRoundTrip(newUser, oldUser, accessPerm);
  }

  /** `MBToBytes`: `mb * 1024 * 1024` in int64 arithmetic, which wraps around on overflow. */
  function MBToBytes(mb: int64): (r: int64)
    ensures -0x800_0000_0000 <= mb < 0x800_0000_0000 ==> r as int == mb as int * 1048576
    ensures (r as int - mb as int * 1048576) % TwoTo64 == 0
  {
    Wrap64(mb as int * 1024 * 1024)
  }
}
