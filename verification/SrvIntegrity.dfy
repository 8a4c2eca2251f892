/** Every SRV target names a host that has an address record, and the resolver reads back
    the host and port that the generator wrote. */
module SrvIntegrity {
  import opened Answers
  import opened Chains
  import opened Generator
  import opened GeneratorSpec
  import opened HostPort
  import opened MesosState
  import opened Sequences
  import opened TaskRecords
  import opened Text

  /** Lookups give text, the leader has an address, and eligible tasks have the addresses
      that their SRV records point at; all host names are plain. */
  ghost predicate AddressesKnown(cfg: Config, sj: State) { NamesPlain(cfg, sj) && AddressesPresent(cfg, sj) }

  /** One of the tasks that get records, under one of its names. */
  ghost predicate NamedTask(cfg: Config, sj: State, f: Framework, t: Task, n: string) {
    var slaveIPs := SlaveAddresses(cfg, sj.slaves);
    f in sj.frameworks && t in f.tasks && Eligible(slaveIPs, t) && n in TaskNames(cfg, t)
  }

  ghost predicate NamesPlain(cfg: Config, sj: State) {
    && (forall h :: cfg.env.hostToIP4(h).Some? ==> cfg.env.hostToIP4(h).value != "")
    && PlainHost(cfg.domain) && (forall f :: f in sj.frameworks ==> PlainHost(Fragment(cfg, f.name)))
    && forall f, t, n :: NamedTask(cfg, sj, f, t, n) ==> PlainHost(Canonical(cfg, f, t, n))
  }

  ghost predicate AddressesPresent(cfg: Config, sj: State) {
    var slaveIPs := SlaveAddresses(cfg, sj.slaves);
    && (LeaderAddress(sj.leader).Some? ==> LeaderAddress(sj.leader).value.1 != "")
    && forall f, t, n :: NamedTask(cfg, sj, f, t, n) ==> TaskAddressesPresent(cfg, Located(slaveIPs, t))
  }

  ghost predicate TaskAddressesPresent(cfg: Config, t: Task) {
    && (TaskPorts(t) != [] ==> t.slaveIP != "")
    && (PublishedPorts(t) != [] ==> IPOf(t, cfg.ipSources, cfg.env.parseIP) != "")
  }

  ghost predicate TaskAddressesKnown(cfg: Config, f: Framework, t: Task, taskName: string) {
    PlainHost(Canonical(cfg, f, t, taskName)) && TaskAddressesPresent(cfg, t)
  }

  lemma PlainConcat(a: string, b: string)
    requires PlainHost(a) && PlainHost(b)
    ensures PlainHost(a + b)
  {
  }

  lemma PlainTail(domain: string)
    requires PlainHost(domain)
    ensures PlainHost(Tail(domain))
  {
  }

  // ----- where the ports of the other SRV records come from

  /** The port of a framework that resolves, of a slave that resolves, or of the leader. */
  ghost predicate PublishedPort(cfg: Config, sj: State, port: string) {
    || (exists f :: f in sj.frameworks && FrameworkPort(cfg, f, port))
    || (exists s :: s in sj.slaves && cfg.env.hostToIP4(s.host).Some? && port == s.port)
    || (LeaderAddress(sj.leader).Some? && port == LeaderAddress(sj.leader).value.2)
  }

  predicate FrameworkPort(cfg: Config, f: Framework, port: string) {
    cfg.env.hostToIP4(FrameworkHostPort(f).0).Some? && port != "" && port == FrameworkHostPort(f).1
  }

  ghost predicate PublishedPortsPlain(cfg: Config, sj: State) {
    forall port :: PublishedPort(cfg, sj, port) ==> PlainPort(port)
  }

  lemma FrameworkHost(cfg: Config, f: Framework) returns (host: string)
    requires PlainHost(cfg.domain) && PlainHost(Fragment(cfg, f.name))
    ensures host == Fragment(cfg, f.name) + Tail(cfg.domain) && PlainHost(host)
  {
    host := Fragment(cfg, f.name) + Tail(cfg.domain);
    PlainTail(cfg.domain);
    PlainConcat(Fragment(cfg, f.name), Tail(cfg.domain));
  }

  lemma FixedHost(name: string, domain: string) returns (host: string)
    requires PlainHost(domain) && PlainHost(name)
    ensures host == name + Tail(domain) && PlainHost(host)
  {
    host := name + Tail(domain);
    PlainTail(domain);
    PlainConcat(name, Tail(domain));
  }

  lemma {:induction false} FrameworkTargets(cfg: Config, f: Framework, e: RR) returns (host: string, ip: string)
    requires forall h :: cfg.env.hostToIP4(h).Some? ==> cfg.env.hostToIP4(h).value != ""
    requires PlainHost(cfg.domain) && PlainHost(Fragment(cfg, f.name))
    requires e in FrameworkList(cfg, f) && e.kind == SRV
    ensures PlainHost(host) && ip != "" && RR(A, host, ip) in FrameworkList(cfg, f)
    ensures e.host == host + ":" + FrameworkHostPort(f).1 && FrameworkHostPort(f).1 != ""
    ensures cfg.env.hostToIP4(FrameworkHostPort(f).0).Some?
  {
    host := FrameworkHost(cfg, f);
    ip := cfg.env.hostToIP4(FrameworkHostPort(f).0).value;
    assert FrameworkList(cfg, f)[0] == RR(A, host, ip);
  }

  lemma {:induction false} SlaveTargets(cfg: Config, s: Slave, e: RR) returns (host: string, ip: string)
    requires forall h :: cfg.env.hostToIP4(h).Some? ==> cfg.env.hostToIP4(h).value != ""
    requires PlainHost(cfg.domain) && e in SlaveList(cfg, s) && e.kind == SRV
    ensures PlainHost(host) && ip != "" && RR(A, host, ip) in SlaveList(cfg, s)
    ensures e.host == host + ":" + s.port && cfg.env.hostToIP4(s.host).Some?
  {
    host := FixedHost("slave", cfg.domain);
    ip := cfg.env.hostToIP4(s.host).value;
    assert SlaveList(cfg, s)[0] == RR(A, host, ip);
  }

  lemma {:induction false} LeaderTargets(domain: string, ip: string, port: string, e: RR) returns (host: string)
    requires PlainHost(domain) && ip != "" && e in LeaderEvents(domain, ip, port) && e.kind == SRV
    ensures PlainHost(host) && RR(A, host, ip) in LeaderEvents(domain, ip, port) && e.host == host + ":" + port
  {
    host := FixedHost("leader", domain);
    assert LeaderEvents(domain, ip, port)[0] == RR(A, host, ip);
  }

  // ----- tasks

  lemma SlaveTargetHost(cfg: Config, f: Framework, t: Task, taskName: string, port: string) returns (host: string)
    requires PlainHost(cfg.domain) && PlainHost(Canonical(cfg, f, t, taskName))
    ensures PlainHost(host) && SlaveTarget(cfg, f, t, taskName, port) == host + ":" + port
    ensures RR(A, host, t.slaveIP) == AddressRecord(cfg, t, Canonical(cfg, f, t, taskName), true)
  {
    var canonical := Canonical(cfg, f, t, taskName);
    host := canonical + ".slave" + Tail(cfg.domain);
    PlainTail(cfg.domain);
    PlainConcat(canonical, ".slave");
    PlainConcat(canonical + ".slave", Tail(cfg.domain));
  }

  lemma {:induction false} HostPortTargets(
    cfg: Config, f: Framework, t: Task, taskName: string, e: RR) returns (host: string, n: int)
    requires PlainHost(cfg.domain) && TaskAddressesKnown(cfg, f, t, taskName) && HostPortRule(cfg, f, t, taskName, e)
    ensures PlainHost(host) && e.host == host + ":" + Itoa(n)
    ensures t.slaveIP != "" && RR(A, host, t.slaveIP) == AddressRecord(cfg, t, Canonical(cfg, f, t, taskName), true)
  {
    var port :| port in TaskPorts(t) && PortRule(cfg, f, t, taskName, port, e);
    n := PortIsDecimal(t, port);
    host := SlaveTargetHost(cfg, f, t, taskName, port);
  }

  lemma {:induction false} DiscoveryTargets(
    cfg: Config, f: Framework, t: Task, taskName: string, e: RR) returns (host: string, n: int)
    requires PlainHost(cfg.domain) && TaskAddressesKnown(cfg, f, t, taskName) && DiscoveryRule(cfg, f, t, taskName, e)
    ensures PlainHost(host) && e.host == host + ":" + Itoa(n)
    ensures var ip := IPOf(t, cfg.ipSources, cfg.env.parseIP);
            ip != "" && RR(A, host, ip) == AddressRecord(cfg, t, Canonical(cfg, f, t, taskName), false)
  {
    var canonical := Canonical(cfg, f, t, taskName);
    var p :| p in PublishedPorts(t) && PublishedRule(cfg, f, t, taskName, p, e);
    assert e.host == TaskTarget(cfg, f, t, taskName, p);
    n := p.number;
    host := canonical + Tail(cfg.domain);
    PlainTail(cfg.domain);
    PlainConcat(canonical, Tail(cfg.domain));
  }

  lemma CanonicalAddress(cfg: Config, f: Framework, t: Task, taskName: string, onSlave: bool)
    ensures TaskRule(cfg, f, t, taskName, AddressRecord(cfg, t, Canonical(cfg, f, t, taskName), onSlave))
  {
  }

  /** A task's SRV records point at its own address records. */
  lemma {:induction false} TaskTargets(
    cfg: Config, f: Framework, t: Task, taskName: string, e: RR) returns (host: string, n: int, ip: string)
    requires PlainHost(cfg.domain) && TaskAddressesKnown(cfg, f, t, taskName)
    requires TaskRule(cfg, f, t, taskName, e) && e.kind == SRV
    ensures PlainHost(host) && e.host == host + ":" + Itoa(n)
    ensures ip != "" && TaskRule(cfg, f, t, taskName, RR(A, host, ip))
  {
    if HostPortRule(cfg, f, t, taskName, e) {
      host, n := HostPortTargets(cfg, f, t, taskName, e);
      ip := t.slaveIP;
      CanonicalAddress(cfg, f, t, taskName, true);
    } else {
      assert !AddressRule(cfg, f, t, taskName, e);
      host, n := DiscoveryTargets(cfg, f, t, taskName, e);
      ip := IPOf(t, cfg.ipSources, cfg.env.parseIP);
      CanonicalAddress(cfg, f, t, taskName, false);
    }
  }

  /** The ports of a task are decimal numbers. */
  lemma {:induction false} PortIsDecimal(t: Task, port: string) returns (n: int)
    requires port in TaskPorts(t)
    ensures port == Itoa(n)
  {
    var parts := RangeList(t.portRanges).value;
    FlatMapMember(parts, PartPorts(RangeParser()), port);
    var part :| part in parts && port in PartPorts(RangeParser())(part);
    n := ExpandedIsDecimal(ParseRange(part).value, port);
  }

  lemma {:induction false} ExpandedIsDecimal(r: Range, port: string) returns (n: int)
    requires port in Expand(r)
    ensures port == Itoa(n)
    decreases r.hi - r.lo
  {
    if port in Expand(r.(hi := r.hi - 1)) {
      n := ExpandedIsDecimal(r.(hi := r.hi - 1), port);
    } else {
      n := r.hi;
    }
  }

  // ----- the final records

  lemma {:induction false} MasterPhaseGrows(
    records: set<RR>, domain: string, masters: seq<string>, leader: string, e: RR)
    requires e in MasterPhase(records, domain, masters, leader) && e.kind == SRV
    ensures records <= MasterPhase(records, domain, masters, leader)
    ensures e in records ||
            (LeaderAddress(leader).Some? && var l := LeaderAddress(leader).value;
              e in LeaderEvents(domain, l.1, l.2) &&
                AddEvents({}, LeaderEvents(domain, l.1, l.2)) <= MasterPhase(records, domain, masters, leader))
  {
    if LeaderAddress(leader).Some? {
      var l := LeaderAddress(leader).value;
      NumberAllGrows(records, domain, masters, l.0, l.1, l.2);
    }
  }

  lemma {:induction false} NumberAllGrows(
    records: set<RR>, domain: string, masters: seq<string>, leaderAddress: string, ip: string, port: string)
    ensures var all := NumberAll(records, domain, masters, leaderAddress, ip, port);
            && AddEvents(records, LeaderEvents(domain, ip, port)) <= all
            && forall e :: e in all && e.kind == SRV ==> e in AddEvents(records, LeaderEvents(domain, ip, port))
  {
    NumberMastersGrows(Numbering(AddEvents(records, LeaderEvents(domain, ip, port)), 0, false), domain, leaderAddress,
      masters);
  }

  lemma {:induction false} NumberMastersGrows(m: Numbering, domain: string, leaderAddress: string, masters: seq<string>)
    ensures m.records <= NumberMasters(m, domain, leaderAddress, masters).records
    ensures forall e :: e in NumberMasters(m, domain, leaderAddress, masters).records && e.kind == SRV ==>
            e in m.records
  {
    if masters == [] {
    } else {
      NumberMastersGrows(m, domain, leaderAddress, masters[..|masters| - 1]);
    }
  }

  /** The records of each phase are among the final ones. */
  lemma {:induction false} PhasesIncluded(cfg: Config, sj: State)
    ensures AddEvents({}, FlatMap(sj.frameworks, FrameworkEvents(cfg))) <= FinalRecords(cfg, sj)
    ensures AddEvents({}, FlatMap(sj.slaves, SlaveEvents(cfg))) <= FinalRecords(cfg, sj)
    ensures BaseRecords(cfg, sj) <= FinalRecords(cfg, sj)
  {
    var frameworks := AddEvents({}, FlatMap(sj.frameworks, FrameworkEvents(cfg)));
    var slaves := AddEvents(frameworks, FlatMap(sj.slaves, SlaveEvents(cfg)));
    if LeaderAddress(sj.leader).Some? {
      var l := LeaderAddress(sj.leader).value;
      NumberAllGrows(slaves, cfg.domain, cfg.masters, l.0, l.1, l.2);
    }
    assert slaves <= BaseRecords(cfg, sj);
  }

  lemma {:induction false} ListedIsFinal<T>(cfg: Config, sj: State, s: seq<T>, g: T -> seq<RR>, x: T, e: RR)
    requires AddEvents({}, FlatMap(s, g)) <= FinalRecords(cfg, sj)
    requires x in s && e in g(x) && e.host != ""
    ensures e in FinalRecords(cfg, sj)
  {
    FlatMapMember(s, g, e);
    assert e in AddEvents({}, FlatMap(s, g));
  }

  lemma {:induction false} BaseTargets(cfg: Config, sj: State, e: RR) returns (host: string, port: string, ip: string)
    requires AddressesKnown(cfg, sj) && e in BaseRecords(cfg, sj) && e.kind == SRV
    ensures PlainHost(host) && e.host == host + ":" + port && RR(A, host, ip) in FinalRecords(cfg, sj)
    ensures PublishedPort(cfg, sj, port)
  {
    PhasesIncluded(cfg, sj);
    var fevents, sevents := FlatMap(sj.frameworks, FrameworkEvents(cfg)), FlatMap(sj.slaves, SlaveEvents(cfg));
    var slaves := AddEvents(AddEvents({}, fevents), sevents);
    MasterPhaseGrows(slaves, cfg.domain, cfg.masters, sj.leader, e);
    if e in fevents {
      FlatMapMember(sj.frameworks, FrameworkEvents(cfg), e);
      var f :| f in sj.frameworks && e in FrameworkEvents(cfg)(f);
      host, ip := FrameworkTargets(cfg, f, e);
      port := FrameworkHostPort(f).1;
      ListedIsFinal(cfg, sj, sj.frameworks, FrameworkEvents(cfg), f, RR(A, host, ip));
    } else if e in sevents {
      FlatMapMember(sj.slaves, SlaveEvents(cfg), e);
      var s :| s in sj.slaves && e in SlaveEvents(cfg)(s);
      host, ip := SlaveTargets(cfg, s, e);
      port := s.port;
      ListedIsFinal(cfg, sj, sj.slaves, SlaveEvents(cfg), s, RR(A, host, ip));
    } else {
      var l := LeaderAddress(sj.leader).value;
      host := LeaderTargets(cfg.domain, l.1, l.2, e);
      port, ip := l.2, l.1;
      assert RR(A, host, ip) in AddEvents({}, LeaderEvents(cfg.domain, l.1, l.2));
    }
  }

  /** The target is written as a plain host that has an address record, and a port. */
  ghost predicate PointsAt(records: set<RR>, target: string, host: string, port: string) {
    PlainHost(host) && target == host + ":" + port && exists ip :: RR(A, host, ip) in records
  }

  /** Referential integrity of the whole zone: every SRV target is a plain host with an
      address, and a port that is a number or one of the published ones; the resolver reads
      host and port back exactly when the port is plain. */
  lemma {:induction false} SrvTargetsResolve(cfg: Config, sj: State, e: RR) returns (host: string, port: string)
    requires AddressesKnown(cfg, sj) && e in FinalRecords(cfg, sj) && e.kind == SRV
    ensures PointsAt(FinalRecords(cfg, sj), e.host, host, port)
    ensures PublishedPort(cfg, sj, port) || exists n :: port == Itoa(n)
    ensures ReadsBack(e.host, host, Atoi(port)) <==> PlainPort(port)
  {
    if e in BaseRecords(cfg, sj) {
      var ip;
      host, port, ip := BaseTargets(cfg, sj, e);
    } else {
      var n, ip;
      host, n, ip := TaskTargetInZone(cfg, sj, e);
      port := Itoa(n);
    }
    ReadsBackExactlyWhen(host, port);
  }

  /** The resolver recovers the host and the port number of a target, and the host has an
      address. */
  ghost predicate Recovered(records: set<RR>, target: string) {
    exists host, port :: PointsAt(records, target, host, port) && ReadsBack(target, host, Atoi(port))
  }

  /** Every SRV target of the zone is read back as it was written if and only if the ports
      published for frameworks, slaves and the leader are plain. */
  lemma {:induction false} ZoneReadsBackExactlyWhen(cfg: Config, sj: State)
    requires AddressesKnown(cfg, sj)
    ensures (forall e :: e in FinalRecords(cfg, sj) && e.kind == SRV ==> Recovered(FinalRecords(cfg, sj), e.host)) <==>
            PublishedPortsPlain(cfg, sj)
  {
    if PublishedPortsPlain(cfg, sj) {
      forall e | e in FinalRecords(cfg, sj) && e.kind == SRV ensures Recovered(FinalRecords(cfg, sj), e.host) {
        PlainTargetRecovered(cfg, sj, e);
      }
    }
    if forall e :: e in FinalRecords(cfg, sj) && e.kind == SRV ==> Recovered(FinalRecords(cfg, sj), e.host) {
      forall port | PublishedPort(cfg, sj, port) ensures PlainPort(port) {
        RecoveredPortPlain(cfg, sj, port);
      }
    }
  }

  lemma {:induction false} PlainTargetRecovered(cfg: Config, sj: State, e: RR)
    requires AddressesKnown(cfg, sj) && PublishedPortsPlain(cfg, sj) && e in FinalRecords(cfg, sj) && e.kind == SRV
    ensures Recovered(FinalRecords(cfg, sj), e.host)
  {
    var host, port := SrvTargetsResolve(cfg, sj, e);
    if n :| port == Itoa(n) { NumberIsPlain(n); }
  }

  lemma {:induction false} RecoveredPortPlain(cfg: Config, sj: State, port: string)
    requires AddressesKnown(cfg, sj) && PublishedPort(cfg, sj, port)
    requires forall e :: e in FinalRecords(cfg, sj) && e.kind == SRV ==> Recovered(FinalRecords(cfg, sj), e.host)
    ensures PlainPort(port)
  {
    var e, host := PublishedIsWritten(cfg, sj, port);
    RecoveredMeansPlain(FinalRecords(cfg, sj), host, port);
  }

  lemma {:induction false} RecoveredMeansPlain(records: set<RR>, host: string, port: string)
    requires PlainHost(host) && Recovered(records, host + ":" + port)
    ensures PlainPort(port)
  {
    var host', port' :| PointsAt(records, host + ":" + port, host', port') &&
      ReadsBack(host + ":" + port, host', Atoi(port'));
    ReadBack(host, port);
    assert FormatSRV("", host + ":" + port).Some?;
  }

  /** Every published port is written into some SRV record. */
  lemma {:induction false} PublishedIsWritten(cfg: Config, sj: State, port: string) returns (e: RR, host: string)
    requires AddressesKnown(cfg, sj) && PublishedPort(cfg, sj, port)
    ensures e in FinalRecords(cfg, sj) && e.kind == SRV && PlainHost(host) && e.host == host + ":" + port
  {
    if f :| f in sj.frameworks && FrameworkPort(cfg, f, port) {
      host := FrameworkHost(cfg, f);
      e := FrameworkPortWritten(cfg, sj, f, host);
    } else if s :| s in sj.slaves && cfg.env.hostToIP4(s.host).Some? && port == s.port {
      host := FixedHost("slave", cfg.domain);
      e := SlavePortWritten(cfg, sj, s, host);
    } else {
      host := FixedHost("leader", cfg.domain);
      e := RR(SRV, "_leader._tcp" + Tail(cfg.domain), host + ":" + port);
      LeaderIsFinal(cfg, sj, e);
    }
  }

  lemma {:induction false} FrameworkPortWritten(cfg: Config, sj: State, f: Framework, host: string) returns (e: RR)
    requires f in sj.frameworks && cfg.env.hostToIP4(FrameworkHostPort(f).0).Some? && FrameworkHostPort(f).1 != ""
    requires PlainHost(host) && host == Fragment(cfg, f.name) + Tail(cfg.domain)
    ensures e in FinalRecords(cfg, sj) && e.kind == SRV && e.host == host + ":" + FrameworkHostPort(f).1
  {
    ReadBack(host, FrameworkHostPort(f).1);
    e := RR(SRV, "_framework._tcp." + host, host + ":" + FrameworkHostPort(f).1);
    assert FrameworkList(cfg, f)[1] == e;
    PhasesIncluded(cfg, sj);
    ListedIsFinal(cfg, sj, sj.frameworks, FrameworkEvents(cfg), f, e);
  }

  lemma {:induction false} SlavePortWritten(cfg: Config, sj: State, s: Slave, host: string) returns (e: RR)
    requires s in sj.slaves && cfg.env.hostToIP4(s.host).Some? && PlainHost(host) && host == "slave" + Tail(cfg.domain)
    ensures e in FinalRecords(cfg, sj) && e.kind == SRV && e.host == host + ":" + s.port
  {
    ReadBack(host, s.port);
    e := RR(SRV, "_slave._tcp" + Tail(cfg.domain), host + ":" + s.port);
    assert SlaveList(cfg, s)[1] == e;
    PhasesIncluded(cfg, sj);
    ListedIsFinal(cfg, sj, sj.slaves, SlaveEvents(cfg), s, e);
  }

  lemma {:induction false} LeaderIsFinal(cfg: Config, sj: State, e: RR)
    requires LeaderAddress(sj.leader).Some? && e.host != ""
    requires var l := LeaderAddress(sj.leader).value;
             e == RR(SRV, "_leader._tcp" + Tail(cfg.domain), "leader" + Tail(cfg.domain) + ":" + l.2)
    ensures e in FinalRecords(cfg, sj)
  {
    var l := LeaderAddress(sj.leader).value;
    var before := AddEvents(AddEvents({}, FlatMap(sj.frameworks, FrameworkEvents(cfg))),
      FlatMap(sj.slaves, SlaveEvents(cfg)));
    NumberAllGrows(before, cfg.domain, cfg.masters, l.0, l.1, l.2);
    assert LeaderEvents(cfg.domain, l.1, l.2)[2] == e;
    AddedIfListed(before, LeaderEvents(cfg.domain, l.1, l.2), e);
    PhasesIncluded(cfg, sj);
  }

  lemma {:induction false} TaskTargetAddress(cfg: Config, sj: State, e: RR) returns (host: string, n: int, ip: string)
    requires AddressesKnown(cfg, sj) && e.kind == SRV
    requires FromTasks(cfg, SlaveAddresses(cfg, sj.slaves), sj.frameworks, e)
    ensures PlainHost(host) && e.host == host + ":" + Itoa(n)
    ensures ip != "" && FromTasks(cfg, SlaveAddresses(cfg, sj.slaves), sj.frameworks, RR(A, host, ip))
  {
    var slaveIPs := SlaveAddresses(cfg, sj.slaves);
    var f, t, name :|
      && f in sj.frameworks && t in f.tasks && Eligible(slaveIPs, t) && name in TaskNames(cfg, t)
      && TaskRule(cfg, f, Located(slaveIPs, t), name, e);
    assert NamedTask(cfg, sj, f, t, name);
    assert Canonical(cfg, f, Located(slaveIPs, t), name) == Canonical(cfg, f, t, name);
    host, n, ip := TaskTargets(cfg, f, Located(slaveIPs, t), name, e);
  }

  /** Both readers of the resolver get the host back, and formatSRV the port modulo 2^16. */
  ghost predicate ReadsBack(target: string, host: string, port: int) {
    && TargetHost(target) == host
    && forall question :: FormatSRV(question, target) == Some(SrvAnswer(question, host, port % 0x1_0000))
  }

  /** The target of a task's SRV record: its host has an address, and the resolver reads
      back the host and the port number that were written. */
  lemma {:induction false} TaskTargetReadBack(cfg: Config, sj: State, e: RR) returns (host: string, n: int, ip: string)
    requires AddressesKnown(cfg, sj) && e.kind == SRV
    requires e in TaskPhase(cfg, SlaveAddresses(cfg, sj.slaves), sj.frameworks)
    ensures e.host == host + ":" + Itoa(n) && RR(A, host, ip) in FinalRecords(cfg, sj)
    ensures ReadsBack(e.host, host, n)
  {
    host, n, ip := TaskTargetInZone(cfg, sj, e);
    NumberReadBack(host, n);
  }

  lemma {:induction false} TaskTargetInZone(cfg: Config, sj: State, e: RR) returns (host: string, n: int, ip: string)
    requires AddressesKnown(cfg, sj) && e.kind == SRV
    requires e in TaskPhase(cfg, SlaveAddresses(cfg, sj.slaves), sj.frameworks)
    ensures e.host == host + ":" + Itoa(n) && PlainHost(host) && RR(A, host, ip) in FinalRecords(cfg, sj)
  {
    var slaveIPs, fs := SlaveAddresses(cfg, sj.slaves), sj.frameworks;
    TaskPhaseMeaning(cfg, slaveIPs, fs, e);
    host, n, ip := TaskTargetAddress(cfg, sj, e);
    TaskPhaseMeaning(cfg, slaveIPs, fs, RR(A, host, ip));
    AddedIfListed(BaseRecords(cfg, sj), TaskPhase(cfg, slaveIPs, fs), RR(A, host, ip));
  }

  lemma AddedIfListed(records: set<RR>, events: seq<RR>, e: RR)
    requires e in events && e.host != ""
    ensures e in AddEvents(records, events)
  {
  }

  /** A plain host is read back with its port exactly when the port is plain. */
  lemma {:induction false} ReadsBackExactlyWhen(host: string, port: string)
    requires PlainHost(host)
    ensures ReadsBack(host + ":" + port, host, Atoi(port)) <==> PlainPort(port)
  {
    ReadBack(host, port);
    if !PlainPort(port) { assert FormatSRV("", host + ":" + port) == None; }
  }

  lemma {:induction false} NumberIsPlain(n: int)
    ensures PlainPort(Itoa(n))
  {
    forall c | c in {':', '[', ']'} ensures c !in Itoa(n) {
      ItoaAvoids(n, c);
    }
  }

  lemma {:induction false} NumberReadBack(host: string, n: int)
    requires PlainHost(host)
    ensures ReadsBack(host + ":" + Itoa(n), host, n)
  {
    NumberIsPlain(n);
    ReadsBackExactlyWhen(host, Itoa(n));
    AtoiItoa(n);
  }

  // ----- answers from the generated maps

  lemma {:induction false} HostsArePairs(As: Rrs, SRVs: Rrs, name: string, h: string)
    ensures h in Hosts(As, name) <==> RR(A, name, h) in Pairs(A, As) + Pairs(SRV, SRVs)
    ensures h in Hosts(SRVs, name) <==> RR(SRV, name, h) in Pairs(A, As) + Pairs(SRV, SRVs)
  {
    assert RR(A, name, h) !in Pairs(SRV, SRVs) && RR(SRV, name, h) !in Pairs(A, As);
  }

  /** A target is answered with the host and port written into it, and its host has an
      address, which goes into the extra records if all addresses of the host parse. */
  ghost predicate WellAnswered(target: string, question: string, answers: seq<Answer>, extra: seq<Answer>,
                               As: Rrs, parse: string -> Option<string>) {
    exists host, port ::
      && target == host + ":" + port && SrvAnswer(question, host, Atoi(port) % 0x1_0000) in answers
      && Hosts(As, host) != {}
      && ((forall a :: a in Hosts(As, host) ==> parse(a).Some?) ==> NamedIn(host, extra))
  }

  /** An A record whose address is the parse of one that its name has. */
  ghost predicate CarriesAddress(x: Answer, As: Rrs, parse: string -> Option<string>) {
    x.name in As && exists h :: h in As[x.name] && parse(h).Some? && x == AddressAnswer(x.name, parse(h).value)
  }

  lemma {:induction false} TargetParts(cfg: Config, sj: State, As: Rrs, SRVs: Rrs, name: string, target: string)
    returns (host: string, port: string)
    requires AddressesKnown(cfg, sj) && PublishedPortsPlain(cfg, sj)
    requires Pairs(A, As) + Pairs(SRV, SRVs) == FinalRecords(cfg, sj) && target in Hosts(SRVs, name)
    ensures target == host + ":" + port && ReadsBack(target, host, Atoi(port)) && Hosts(As, host) != {}
  {
    HostsArePairs(As, SRVs, name, target);
    PlainTargetRecovered(cfg, sj, RR(SRV, name, target));
    host, port :| PointsAt(FinalRecords(cfg, sj), target, host, port) && ReadsBack(target, host, Atoi(port));
    var ip :| RR(A, host, ip) in FinalRecords(cfg, sj);
    HostsArePairs(As, SRVs, host, ip);
  }

  lemma {:induction false} PartsAnswered(
    target: string, host: string, port: string, question: string, answers: seq<Answer>, extra: seq<Answer>,
    As: Rrs, parse: string -> Option<string>)
    requires target == host + ":" + port && ReadsBack(target, host, Atoi(port)) && Hosts(As, host) != {}
    requires forall x :: FormatSRV(question, target) == Some(x) ==> x in answers
    requires FormatSRV(question, target).Some? && Addressable(As, TargetHost(target), parse) ==>
             NamedIn(TargetHost(target), extra)
    ensures WellAnswered(target, question, answers, extra, As, parse)
  {
    assert FormatSRV(question, target) == Some(SrvAnswer(question, host, Atoi(port) % 0x1_0000));
  }

  /** An SRV query on the maps that InsertState makes: every target is answered, with an
      address for its host. */
  method AnswerFromZone(
    cfg: Config, sj: State, now: nat, rg: RecordGenerator, parse: string -> Option<string>, question: string,
    name: string)
    returns (answers: seq<Answer>, extra: seq<Answer>, errs: bool)
    requires PortsReadable(SlaveAddresses(cfg, sj.slaves), sj) && AddressesKnown(cfg, sj) &&
             PublishedPortsPlain(cfg, sj)
    modifies rg
    ensures rg.Records() == FinalRecords(cfg, sj)
    ensures forall target :: target in Hosts(rg.SRVs, name) ==>
            WellAnswered(target, question, answers, extra, rg.As, parse)
    ensures forall x :: x in extra ==> CarriesAddress(x, rg.As, parse)
  {
    rg.InsertState(cfg, sj, now);
    var resolver := new Resolver(rg.As, rg.SRVs, parse);
    answers, extra, errs := resolver.HandleSRV(question, name);
    assert forall x :: x in extra ==> IsExtra(rg.As, rg.SRVs, parse, x, name);
    forall target | target in Hosts(rg.SRVs, name)
      ensures WellAnswered(target, question, answers, extra, rg.As, parse)
    {
      var host, port := TargetParts(cfg, sj, rg.As, rg.SRVs, name, target);
      PartsAnswered(target, host, port, question, answers, extra, rg.As, parse);
    }
  }
}
