/** The records of frameworks, slaves and tasks (records/generator.go) spelled out from the
    fields of the state. */
module PublishedNames {
  import opened Chains
  import opened GeneratorSpec
  import opened HostPort
  import opened Labels
  import opened MesosState
  import opened Sequences
  import opened TaskRecords
  import opened Text

  // ----- the domain fragment of a name

  /** Part by part: the label of each part, and a dot between those that are not empty. */
  lemma {:induction false} FragmentRead(cfg: Config, a: string, b: string)
    requires '.' !in a
    ensures Fragment(cfg, a) == cfg.env.spec(a)
    ensures var first, rest := cfg.env.spec(a), Fragment(cfg, b);
            Fragments(Split(b, '.'), cfg.env.spec) != [] && first != "" ==>
              Fragment(cfg, a + "." + b) == first + "." + rest
    ensures cfg.env.spec(a) == "" ==> Fragment(cfg, a + "." + b) == Fragment(cfg, b)
    ensures Fragments(Split(b, '.'), cfg.env.spec) == [] ==> Fragment(cfg, a + "." + b) == cfg.env.spec(a)
  {
    var f, parts := cfg.env.spec, Split(b, '.');
    SplitPlain(a, '.');
    FragmentsOne(a, f);
    assert a + "." + b == a + ['.'] + b;
    SplitFirst(a, b, '.');
    FragmentsAppend([a], parts, f);
    var labels := Fragments(parts, f);
    if f(a) != "" {
      assert ([f(a)] + labels)[1..] == labels;
    } else {
      assert [] + labels == labels;
    }
  }

  // ----- frameworks and slaves

  /** The scheduler's host and port, or the host of the framework without one. */
  ghost predicate SchedulerAt(f: Framework, host: string, port: string) {
    f.pid == Some((host, port)) || (f.pid == None && host == f.hostname && port == "")
  }

  /** `framework.domain.` with the address, and `_framework._tcp.framework.domain.` with the
      port if there is one. */
  lemma {:induction false} FrameworkRecordsRead(cfg: Config, f: Framework, e: RR)
    ensures e in FrameworkList(cfg, f) <==>
            exists host, port, ip ::
              && SchedulerAt(f, host, port) && cfg.env.hostToIP4(host) == Some(ip)
              && FrameworkRecordOf(Fragment(cfg, f.name) + "." + cfg.domain + ".", ip, port, e)
  {
    var hp := FrameworkHostPort(f);
    forall host, port ensures SchedulerAt(f, host, port) <==> hp == (host, port) {
      SchedulerRead(f, host, port);
    }
    if cfg.env.hostToIP4(hp.0).Some? {
      FrameworkListRead(cfg, f, cfg.env.hostToIP4(hp.0).value, e);
      assert SchedulerAt(f, hp.0, hp.1);
    }
  }

  lemma SchedulerRead(f: Framework, host: string, port: string)
    ensures SchedulerAt(f, host, port) <==> FrameworkHostPort(f) == (host, port)
  {
  }

  lemma {:induction false} FrameworkListRead(cfg: Config, f: Framework, ip: string, e: RR)
    requires cfg.env.hostToIP4(FrameworkHostPort(f).0) == Some(ip)
    ensures e in FrameworkList(cfg, f) <==>
            FrameworkRecordOf(Fragment(cfg, f.name) + "." + cfg.domain + ".", ip, FrameworkHostPort(f).1, e)
  {
    TailRead(Fragment(cfg, f.name), cfg.domain);
  }

  ghost predicate FrameworkRecordOf(a: string, ip: string, port: string, e: RR) {
    e == RR(A, a, ip) || (port != "" && e == RR(SRV, "_framework._tcp." + a, JoinHostPort(a, port)))
  }

  /** `slave.domain.` with the address of a slave that resolves, and `_slave._tcp.domain.` with
      its port. */
  lemma {:induction false} SlaveRecordsRead(cfg: Config, s: Slave, e: RR)
    ensures e in SlaveList(cfg, s) <==>
            cfg.env.hostToIP4(s.host).Some? &&
            (e == RR(A, "slave." + cfg.domain + ".", cfg.env.hostToIP4(s.host).value) ||
             e == RR(SRV, "_slave._tcp." + cfg.domain + ".", JoinHostPort("slave." + cfg.domain + ".", s.port)))
  {
    assert "slave" + Tail(cfg.domain) == "slave." + cfg.domain + ".";
    assert "_slave._tcp" + Tail(cfg.domain) == "_slave._tcp." + cfg.domain + ".";
  }

  /** The slave that the map of addresses goes by: the last one with the identifier. */
  ghost predicate LastWithId(slaves: seq<Slave>, id: string, i: int) {
    0 <= i < |slaves| && slaves[i].id == id && forall j :: i < j < |slaves| ==> slaves[j].id != id
  }

  /** Its address is where its host resolves to, and otherwise the mangled host name. */
  lemma {:induction false} SlaveAddressesRead(cfg: Config, slaves: seq<Slave>, id: string)
    ensures id in SlaveAddresses(cfg, slaves) <==> exists s :: s in slaves && s.id == id
    ensures forall i :: LastWithId(slaves, id, i) ==>
              id in SlaveAddresses(cfg, slaves) &&
              SlaveAddresses(cfg, slaves)[id] == match cfg.env.hostToIP4(slaves[i].host)
                                                 case Some(ip) => ip
                                                 case None => Fragment(cfg, slaves[i].host)
  {
    if slaves == [] {
    } else {
      var init, last := slaves[..|slaves| - 1], slaves[|slaves| - 1];
      assert slaves == init + [last];
      SlaveAddressesRead(cfg, init, id);
      forall i | LastWithId(slaves, id, i) && i < |init| ensures LastWithId(init, id, i) {
        assert slaves[|init|].id != id;
      }
    }
  }

  // ----- tasks

  /** The part of a slave identifier behind its last dash. */
  ghost predicate IdTail(slaveID: string, tail: string) {
    '-' !in tail && (slaveID == tail || exists front :: slaveID == front + "-" + tail)
  }

  lemma {:induction false} SplitLast(s: string, sep: char, tail: string)
    requires sep !in tail
    requires s == tail || exists front :: s == front + [sep] + tail
    ensures var parts := Split(s, sep); parts[|parts| - 1] == tail
  {
    if s == tail {
      SplitPlain(s, sep);
    } else {
      var front :| s == front + [sep] + tail;
      SplitBehind(front, tail, sep);
    }
  }

  lemma {:induction false} SplitBehind(front: string, tail: string, sep: char)
    requires sep !in tail
    ensures var parts := Split(front + [sep] + tail, sep); |parts| >= 2 && parts[|parts| - 1] == tail
  {
    var s := front + [sep] + tail;
    if front == "" {
      assert s[1..] == tail;
      SplitPlain(tail, sep);
    } else {
      SplitBehind(front[1..], tail, sep);
      assert s[1..] == front[1..] + [sep] + tail;
    }
  }

  /** The names of a task: the discovery name as it is and as a label, else the task's name
      as a label. */
  ghost predicate TaskCalled(cfg: Config, t: Task, n: string) {
    if t.discoveryName != "" then n == t.discoveryName || n == cfg.env.spec(t.discoveryName)
    else n == cfg.env.spec(t.name)
  }

  lemma TaskCalledRead(cfg: Config, t: Task, n: string)
    ensures n in TaskNames(cfg, t) <==> TaskCalled(cfg, t, n)
  {
  }

  /** `task-hash-slave.framework`. */
  ghost predicate CanonicalName(cfg: Config, f: Framework, t: Task, n: string, canonical: string) {
    exists tail :: IdTail(t.slaveID, tail) &&
      canonical == n + "-" + cfg.env.hash(t.id) + "-" + cfg.env.lower(tail) + "." + Fragment(cfg, f.name)
  }

  lemma {:induction false} CanonicalRead(cfg: Config, f: Framework, t: Task, n: string, canonical: string)
    ensures CanonicalName(cfg, f, t, n, canonical) <==> canonical == Canonical(cfg, f, t, n)
  {
    var parts := Split(t.slaveID, '-');
    var last := parts[|parts| - 1];
    LastPart(t.slaveID, '-');
    assert IdTail(t.slaveID, last);
    forall tail | IdTail(t.slaveID, tail) ensures tail == last {
      assert "-" == ['-'];
      SplitLast(t.slaveID, '-', tail);
    }
  }

  lemma {:induction false} LastPart(s: string, sep: char)
    ensures var parts := Split(s, sep);
            var tail := parts[|parts| - 1];
            sep !in tail && (s == tail || exists front :: s == front + [sep] + tail)
  {
    SplitPlain(s, sep);
    if sep in s {
      var front, tail := LastSeparator(s, sep);
      SplitBehind(front, tail, sep);
    }
  }

  lemma {:induction false} LastSeparator(s: string, sep: char) returns (front: string, tail: string)
    requires sep in s
    ensures s == front + [sep] + tail && sep !in tail
  {
    var n := |s| - 1;
    assert s == s[..n] + [s[n]];
    if s[n] == sep {
      front, tail := s[..n], "";
    } else {
      front, tail := LastSeparator(s[..n], sep);
      tail := tail + [s[n]];
    }
  }

  /** The address records: the task's own address under its name and its canonical name, the
      slave's under the same with `.slave`. */
  ghost predicate TaskAddressOf(n: string, framework: string, canonical: string, domain: string, ip: string,
    slaveIP: string, e: RR) {
    || e == RR(A, n + "." + framework + "." + domain + ".", ip)
    || e == RR(A, canonical + "." + domain + ".", ip)
    || e == RR(A, n + "." + framework + ".slave." + domain + ".", slaveIP)
    || e == RR(A, canonical + ".slave." + domain + ".", slaveIP)
  }

  lemma {:induction false} AddressesRead(cfg: Config, f: Framework, t: Task, n: string, e: RR)
    ensures AddressRule(cfg, f, t, n, e) <==>
            TaskAddressOf(n, Fragment(cfg, f.name), Canonical(cfg, f, t, n), cfg.domain,
                          IPOf(t, cfg.ipSources, cfg.env.parseIP), t.slaveIP, e)
  {
    var arec, canonical := n + "." + Fragment(cfg, f.name), Canonical(cfg, f, t, n);
    AddressMember(cfg, f, t, n, e);
    AddressesAre(cfg, f, t, n);
    TailRead(arec, cfg.domain);
    TailRead(canonical, cfg.domain);
  }

  lemma TailRead(base: string, domain: string)
    ensures base + Tail(domain) == base + "." + domain + "."
    ensures base + ".slave" + Tail(domain) == base + ".slave." + domain + "."
  {
  }

  /** The protocols of a port: the label of the one given, and without one tcp and udp. */
  ghost predicate ProtocolOf(cfg: Config, protocol: string, proto: string) {
    if cfg.env.spec(protocol) != "" then proto == cfg.env.spec(protocol) else proto == "tcp" || proto == "udp"
  }

  lemma ProtocolRead(cfg: Config, protocol: string, proto: string)
    ensures proto in Protocols(protocol, cfg.env.spec) <==> ProtocolOf(cfg, protocol, proto)
  {
  }

  /** For a host port: `_task._proto.framework[.slave].domain.`, without `.slave` only for tasks
      without discovery information, pointing at the canonical name on the slave. */
  ghost predicate HostPortOf(
    n: string, framework: string, canonical: string, domain: string, proto: string, sub: string, port: string, e: RR)
  {
    e == RR(SRV, "_" + n + "._" + proto + "." + framework + sub + "." + domain + ".",
            canonical + ".slave." + domain + ".:" + port)
  }

  ghost predicate SubdomainOf(t: Task, sub: string) { sub == ".slave" || (sub == "" && t.discoveryName == "") }

  lemma {:induction false} HostPortsRead(cfg: Config, f: Framework, t: Task, n: string, e: RR)
    ensures HostPortRule(cfg, f, t, n, e) <==>
            exists port, proto, sub ::
              && port in TaskPorts(t) && ProtocolOf(cfg, "", proto) && SubdomainOf(t, sub)
              && HostPortOf(n, Fragment(cfg, f.name), Canonical(cfg, f, t, n), cfg.domain, proto, sub, port, e)
  {
    if HostPortRule(cfg, f, t, n, e) {
      var port, proto, s := HostPortPick(cfg, f, t, n, e);
      HostPortMatch(cfg, f, t, n, proto, s, port, e);
      SubdomainRead(t, s);
    }
    if port, proto, sub :|
      && port in TaskPorts(t) && ProtocolOf(cfg, "", proto) && SubdomainOf(t, sub)
      && HostPortOf(n, Fragment(cfg, f.name), Canonical(cfg, f, t, n), cfg.domain, proto, sub, port, e)
    {
      var s := SubdomainBehind(t, sub);
      HostPortMatch(cfg, f, t, n, proto, s, port, e);
      HostPortGive(cfg, f, t, n, e, port, proto, s);
    }
  }

  lemma SubdomainRead(t: Task, s: string)
    requires s in Subdomains(t)
    ensures SubdomainOf(t, Sub(s))
  {
  }

  lemma SubdomainBehind(t: Task, sub: string) returns (s: string)
    requires SubdomainOf(t, sub)
    ensures s in Subdomains(t) && sub == Sub(s)
  {
    s := if sub == "" then "" else "slave";
  }

  lemma {:induction false} HostPortPick(cfg: Config, f: Framework, t: Task, n: string, e: RR)
    returns (port: string, proto: string, s: string)
    requires HostPortRule(cfg, f, t, n, e)
    ensures port in TaskPorts(t) && ProtocolOf(cfg, "", proto) && s in Subdomains(t)
    ensures e == RR(SRV, SrvName(cfg, f, n, proto, s), SlaveTarget(cfg, f, t, n, port))
  {
    port :| port in TaskPorts(t) && PortRule(cfg, f, t, n, port, e);
    proto, s :| proto in Protocols("", cfg.env.spec) && s in Subdomains(t) &&
      e == RR(SRV, SrvName(cfg, f, n, proto, s), SlaveTarget(cfg, f, t, n, port));
    ProtocolRead(cfg, "", proto);
  }

  lemma {:induction false} HostPortGive(
    cfg: Config, f: Framework, t: Task, n: string, e: RR, port: string, proto: string, s: string)
    requires port in TaskPorts(t) && ProtocolOf(cfg, "", proto) && s in Subdomains(t)
    requires e == RR(SRV, SrvName(cfg, f, n, proto, s), SlaveTarget(cfg, f, t, n, port))
    ensures HostPortRule(cfg, f, t, n, e)
  {
    ProtocolRead(cfg, "", proto);
    assert PortRule(cfg, f, t, n, port, e);
  }

  lemma {:induction false} HostPortMatch(
    cfg: Config, f: Framework, t: Task, n: string, proto: string, s: string, port: string, e: RR)
    ensures e == RR(SRV, SrvName(cfg, f, n, proto, s), SlaveTarget(cfg, f, t, n, port)) <==>
            HostPortOf(n, Fragment(cfg, f.name), Canonical(cfg, f, t, n), cfg.domain, proto, Sub(s), port, e)
  {
    HostPortNames(cfg, f, t, n, proto, s, port);
  }

  lemma {:induction false} HostPortNames(
    cfg: Config, f: Framework, t: Task, n: string, proto: string, s: string, port: string)
    ensures SrvName(cfg, f, n, proto, s) ==
            "_" + n + "._" + proto + "." + Fragment(cfg, f.name) + Sub(s) + "." + cfg.domain + "."
    ensures SlaveTarget(cfg, f, t, n, port) == Canonical(cfg, f, t, n) + ".slave." + cfg.domain + ".:" + port
  {
    var framework := Fragment(cfg, f.name);
    assert "_" + n + ("._" + proto + "." + framework) == "_" + n + "._" + proto + "." + framework;
    TailRead("_" + n + "._" + proto + "." + framework + Sub(s), cfg.domain);
    TailRead(Canonical(cfg, f, t, n), cfg.domain);
    assert Canonical(cfg, f, t, n) + ".slave." + cfg.domain + "." + ":" + port ==
           Canonical(cfg, f, t, n) + ".slave." + cfg.domain + ".:" + port;
  }

  /** For a discovery port: `[_port.]_task._proto.framework.domain.`, pointing at the canonical
      name with the port's number. */
  ghost predicate DiscoveryPortOf(
    n: string, framework: string, canonical: string, domain: string, proto: string, prefix: string, number: int, e: RR)
  {
    e == RR(SRV, prefix + "_" + n + "._" + proto + "." + framework + "." + domain + ".",
            canonical + "." + domain + ".:" + Itoa(number))
  }

  ghost predicate PrefixOf(cfg: Config, portName: string, prefix: string) {
    prefix == "" || (cfg.env.spec(portName) != "" && prefix == "_" + cfg.env.spec(portName) + ".")
  }

  lemma {:induction false} DiscoveryPortsRead(cfg: Config, f: Framework, t: Task, n: string, e: RR)
    ensures DiscoveryRule(cfg, f, t, n, e) <==>
            t.discoveryName != "" &&
            exists p, proto, prefix ::
              && p in t.discoveryPorts && ProtocolOf(cfg, p.protocol, proto) && PrefixOf(cfg, p.name, prefix)
              && DiscoveryPortOf(n, Fragment(cfg, f.name), Canonical(cfg, f, t, n), cfg.domain, proto, prefix,
                p.number, e)
  {
    if DiscoveryRule(cfg, f, t, n, e) {
      var p, proto, prefix := DiscoveryPick(cfg, f, t, n, e);
      DiscoveryMatch(cfg, f, t, n, proto, prefix, p, e);
    }
    if t.discoveryName != "" {
      if p, proto, prefix :|
        && p in t.discoveryPorts && ProtocolOf(cfg, p.protocol, proto) && PrefixOf(cfg, p.name, prefix)
        && DiscoveryPortOf(n, Fragment(cfg, f.name), Canonical(cfg, f, t, n), cfg.domain, proto, prefix, p.number, e)
      {
        DiscoveryMatch(cfg, f, t, n, proto, prefix, p, e);
        DiscoveryGive(cfg, f, t, n, e, p, proto, prefix);
      }
    }
  }

  lemma {:induction false} DiscoveryPick(cfg: Config, f: Framework, t: Task, n: string, e: RR)
    returns (p: DiscoveryPort, proto: string, prefix: string)
    requires DiscoveryRule(cfg, f, t, n, e)
    ensures t.discoveryName != "" && p in t.discoveryPorts
    ensures ProtocolOf(cfg, p.protocol, proto) && PrefixOf(cfg, p.name, prefix)
    ensures e == RR(SRV, prefix + SrvName(cfg, f, n, proto, ""), TaskTarget(cfg, f, t, n, p))
  {
    p :| p in PublishedPorts(t) && PublishedRule(cfg, f, t, n, p, e);
    proto, prefix :| proto in Protocols(p.protocol, cfg.env.spec) && prefix in NamePrefixes(p.name, cfg.env.spec) &&
      e == RR(SRV, prefix + SrvName(cfg, f, n, proto, ""), TaskTarget(cfg, f, t, n, p));
    ProtocolRead(cfg, p.protocol, proto);
    PrefixRead(cfg, p.name, prefix);
  }

  lemma PrefixRead(cfg: Config, portName: string, prefix: string)
    ensures prefix in NamePrefixes(portName, cfg.env.spec) <==> PrefixOf(cfg, portName, prefix)
  {
  }

  lemma {:induction false} DiscoveryGive(
    cfg: Config, f: Framework, t: Task, n: string, e: RR, p: DiscoveryPort, proto: string, prefix: string)
    requires t.discoveryName != "" && p in t.discoveryPorts
    requires ProtocolOf(cfg, p.protocol, proto) && PrefixOf(cfg, p.name, prefix)
    requires e == RR(SRV, prefix + SrvName(cfg, f, n, proto, ""), TaskTarget(cfg, f, t, n, p))
    ensures DiscoveryRule(cfg, f, t, n, e)
  {
    ProtocolRead(cfg, p.protocol, proto);
    PrefixRead(cfg, p.name, prefix);
    assert p in PublishedPorts(t);
    assert PublishedRule(cfg, f, t, n, p, e);
  }

  lemma {:induction false} DiscoveryMatch(
    cfg: Config, f: Framework, t: Task, n: string, proto: string, prefix: string, p: DiscoveryPort, e: RR)
    ensures e == RR(SRV, prefix + SrvName(cfg, f, n, proto, ""), TaskTarget(cfg, f, t, n, p)) <==>
            DiscoveryPortOf(n, Fragment(cfg, f.name), Canonical(cfg, f, t, n), cfg.domain, proto, prefix, p.number, e)
  {
    DiscoveryNames(cfg, f, t, n, proto, prefix, p);
  }

  lemma {:induction false} DiscoveryNames(
    cfg: Config, f: Framework, t: Task, n: string, proto: string, prefix: string, p: DiscoveryPort)
    ensures prefix + SrvName(cfg, f, n, proto, "") ==
            prefix + "_" + n + "._" + proto + "." + Fragment(cfg, f.name) + "." + cfg.domain + "."
    ensures TaskTarget(cfg, f, t, n, p) == Canonical(cfg, f, t, n) + "." + cfg.domain + ".:" + Itoa(p.number)
  {
    var rest := "_" + n + "._" + proto + "." + Fragment(cfg, f.name);
    HostPortNames(cfg, f, t, n, proto, "", "");
    assert rest + Sub("") == rest;
    assert prefix + (rest + "." + cfg.domain + ".") == prefix + rest + "." + cfg.domain + ".";
    assert prefix + rest == prefix + "_" + n + "._" + proto + "." + Fragment(cfg, f.name);
    TailRead(Canonical(cfg, f, t, n), cfg.domain);
    assert Canonical(cfg, f, t, n) + "." + cfg.domain + "." + ":" + Itoa(p.number) ==
           Canonical(cfg, f, t, n) + "." + cfg.domain + ".:" + Itoa(p.number);
  }

  // ----- which tasks

  /** A task of the state that runs, on a slave of the state. */
  ghost predicate RunningTask(sj: State, f: Framework, t: Task) {
    && f in sj.frameworks && t in f.tasks && t.state == "TASK_RUNNING"
    && exists s :: s in sj.slaves && s.id == t.slaveID
  }

  ghost predicate SlaveAt(cfg: Config, sj: State, id: string, slaveIP: string) {
    exists i :: LastWithId(sj.slaves, id, i) &&
      slaveIP == match cfg.env.hostToIP4(sj.slaves[i].host)
                 case Some(ip) => ip
                 case None => Fragment(cfg, sj.slaves[i].host)
  }

  /** What a task publishes under one of its names. */
  ghost predicate Publishes(cfg: Config, f: Framework, t: Task, n: string, canonical: string, e: RR) {
    var framework := Fragment(cfg, f.name);
    || TaskAddressOf(n, framework, canonical, cfg.domain, IPOf(t, cfg.ipSources, cfg.env.parseIP), t.slaveIP, e)
    || (exists port, proto, sub ::
          && port in TaskPorts(t) && ProtocolOf(cfg, "", proto) && SubdomainOf(t, sub)
          && HostPortOf(n, framework, canonical, cfg.domain, proto, sub, port, e))
    || (t.discoveryName != "" && exists p, proto, prefix ::
          && p in t.discoveryPorts && ProtocolOf(cfg, p.protocol, proto) && PrefixOf(cfg, p.name, prefix)
          && DiscoveryPortOf(n, framework, canonical, cfg.domain, proto, prefix, p.number, e))
  }

  lemma {:induction false} PublishesRead(cfg: Config, f: Framework, t: Task, n: string, e: RR)
    ensures TaskRule(cfg, f, t, n, e) <==> Publishes(cfg, f, t, n, Canonical(cfg, f, t, n), e)
  {
    AddressesRead(cfg, f, t, n, e);
    HostPortsRead(cfg, f, t, n, e);
    DiscoveryPortsRead(cfg, f, t, n, e);
  }

  lemma {:induction false} LastExists(slaves: seq<Slave>, id: string) returns (i: int)
    requires exists s :: s in slaves && s.id == id
    ensures LastWithId(slaves, id, i)
  {
    var init, last := slaves[..|slaves| - 1], slaves[|slaves| - 1];
    assert slaves == init + [last];
    if last.id == id {
      i := |slaves| - 1;
    } else {
      i := LastExists(init, id);
    }
  }

  /** The running tasks on known slaves, with the slave's address. */
  lemma {:induction false} EligibleRead(cfg: Config, sj: State, f: Framework, t: Task)
    requires f in sj.frameworks && t in f.tasks
    ensures Eligible(SlaveAddresses(cfg, sj.slaves), t) <==> RunningTask(sj, f, t)
    ensures RunningTask(sj, f, t) ==>
              forall ip :: SlaveAt(cfg, sj, t.slaveID, ip) <==> ip == SlaveAddresses(cfg, sj.slaves)[t.slaveID]
  {
    SlaveAddressesRead(cfg, sj.slaves, t.slaveID);
    if RunningTask(sj, f, t) {
      var i := LastExists(sj.slaves, t.slaveID);
    }
  }

  /** One running task under one of its names gives the record. */
  ghost predicate Given(cfg: Config, sj: State, f: Framework, t: Task, n: string, slaveIP: string, canonical: string,
    e: RR) {
    && RunningTask(sj, f, t) && SlaveAt(cfg, sj, t.slaveID, slaveIP) && TaskCalled(cfg, t, n)
    && CanonicalName(cfg, f, t, n, canonical) && Publishes(cfg, f, t.(slaveIP := slaveIP), n, canonical, e)
  }

  /** The task phase gives exactly the records of the running tasks on known slaves. */
  lemma {:induction false} TaskPhaseRead(cfg: Config, sj: State, e: RR)
    ensures e in TaskPhase(cfg, SlaveAddresses(cfg, sj.slaves), sj.frameworks) <==>
            exists f, t, n, slaveIP, canonical :: Given(cfg, sj, f, t, n, slaveIP, canonical, e)
  {
    var slaveIPs := SlaveAddresses(cfg, sj.slaves);
    TaskPhaseMeaning(cfg, slaveIPs, sj.frameworks, e);
    if FromTasks(cfg, slaveIPs, sj.frameworks, e) {
      var f, t, n :|
        && f in sj.frameworks && t in f.tasks && Eligible(slaveIPs, t) && n in TaskNames(cfg, t)
        && TaskRule(cfg, f, Located(slaveIPs, t), n, e);
      GivenBy(cfg, sj, f, t, n, e);
    }
    if f, t, n, slaveIP, canonical :| Given(cfg, sj, f, t, n, slaveIP, canonical, e) {
      GivenIsFromTasks(cfg, sj, f, t, n, slaveIP, canonical, e);
    }
  }

  lemma {:induction false} GivenBy(cfg: Config, sj: State, f: Framework, t: Task, n: string, e: RR)
    requires f in sj.frameworks && t in f.tasks && Eligible(SlaveAddresses(cfg, sj.slaves), t) && n in TaskNames(cfg, t)
    requires TaskRule(cfg, f, Located(SlaveAddresses(cfg, sj.slaves), t), n, e)
    ensures Given(cfg, sj, f, t, n, SlaveAddresses(cfg, sj.slaves)[t.slaveID], Canonical(cfg, f, t, n), e)
  {
    var located := Located(SlaveAddresses(cfg, sj.slaves), t);
    EligibleRead(cfg, sj, f, t);
    TaskCalledRead(cfg, t, n);
    CanonicalRead(cfg, f, t, n, Canonical(cfg, f, t, n));
    assert Canonical(cfg, f, located, n) == Canonical(cfg, f, t, n);
    PublishesRead(cfg, f, located, n, e);
  }

  lemma {:induction false} GivenIsFromTasks(
    cfg: Config, sj: State, f: Framework, t: Task, n: string, slaveIP: string, canonical: string, e: RR)
    requires Given(cfg, sj, f, t, n, slaveIP, canonical, e)
    ensures FromTasks(cfg, SlaveAddresses(cfg, sj.slaves), sj.frameworks, e)
  {
    EligibleRead(cfg, sj, f, t);
    var located := Located(SlaveAddresses(cfg, sj.slaves), t);
    TaskCalledRead(cfg, t, n);
    CanonicalRead(cfg, f, t, n, canonical);
    assert Canonical(cfg, f, located, n) == Canonical(cfg, f, t, n);
    PublishesRead(cfg, f, located, n, e);
  }

  /** Every record that comes with the task phase is of a running task on a known slave. */
  lemma {:induction false} OnlyRunningTasks(cfg: Config, sj: State, e: RR) returns (f: Framework, t: Task, s: Slave)
    requires e in FinalRecords(cfg, sj) && e !in BaseRecords(cfg, sj)
    ensures f in sj.frameworks && t in f.tasks && t.state == "TASK_RUNNING" && s in sj.slaves && s.id == t.slaveID
  {
    TaskPhaseRead(cfg, sj, e);
    var n, slaveIP, canonical;
    f, t, n, slaveIP, canonical :| Given(cfg, sj, f, t, n, slaveIP, canonical, e);
    s :| s in sj.slaves && s.id == t.slaveID;
  }

  /** Conversely every running task on a known slave gets its addresses. */
  lemma {:induction false} EveryRunningTask(
    cfg: Config, sj: State, f: Framework, t: Task, n: string, slaveIP: string, canonical: string, e: RR)
    requires RunningTask(sj, f, t) && SlaveAt(cfg, sj, t.slaveID, slaveIP) && TaskCalled(cfg, t, n)
    requires CanonicalName(cfg, f, t, n, canonical) && e.host != ""
    requires TaskAddressOf(n, Fragment(cfg, f.name), canonical, cfg.domain,
                           IPOf(t.(slaveIP := slaveIP), cfg.ipSources, cfg.env.parseIP), slaveIP, e)
    ensures e in FinalRecords(cfg, sj)
  {
    assert Given(cfg, sj, f, t, n, slaveIP, canonical, e);
    TaskPhaseRead(cfg, sj, e);
  }

  // ----- the enumeration

  function EntryName(): EnumTask -> seq<(string, string)> { (t: EnumTask) => [(t.name, t.id)] }

  function RunningName(slaveIPs: map<string, string>): Task -> seq<(string, string)> {
    (t: Task) => if t.state == "TASK_RUNNING" && t.slaveID in slaveIPs then [(t.name, t.id)] else []
  }

  /** A framework's entry lists its running tasks on known slaves, by name and identifier and
      in order. */
  lemma {:induction false} EnumeratedTasks(
    cfg: Config, slaveIPs: map<string, string>, f: Framework, records: set<RR>, tasks: seq<Task>)
    ensures FlatMap(EnumTasks(cfg, slaveIPs, f, records, tasks), EntryName()) == FlatMap(tasks, RunningName(slaveIPs))
  {
    if tasks == [] {
    } else {
      var init, last := tasks[..|tasks| - 1], tasks[|tasks| - 1];
      EnumeratedTasks(cfg, slaveIPs, f, records, init);
      var before := AddEvents(records, FlatMap(init, TaskEvents(cfg, slaveIPs, f)));
      var entry := EnumEntry(cfg, slaveIPs, f, before, last);
      FlatMapAppend(EnumTasks(cfg, slaveIPs, f, records, init), entry, EntryName());
      if Eligible(slaveIPs, last) { FlatMapOne(entry[0], EntryName()); }
      assert FlatMap(entry, EntryName()) == RunningName(slaveIPs)(last);
    }
  }

  lemma {:induction false} EnumeratedLength(
    cfg: Config, slaveIPs: map<string, string>, records: set<RR>, fs: seq<Framework>)
    ensures |EnumFrameworks(cfg, slaveIPs, records, fs)| == |fs|
  {
    if fs == [] {
    } else {
      EnumeratedLength(cfg, slaveIPs, records, fs[..|fs| - 1]);
    }
  }

  /** One entry for each framework, with its name. */
  lemma {:induction false} EnumeratedFrameworks(
    cfg: Config, slaveIPs: map<string, string>, records: set<RR>, fs: seq<Framework>, i: nat)
    requires i < |fs|
    ensures var e := EnumFrameworks(cfg, slaveIPs, records, fs);
            && |e| == |fs| && e[i].name == fs[i].name
            && FlatMap(e[i].tasks, EntryName()) == FlatMap(fs[i].tasks, RunningName(slaveIPs))
  {
    var init, last := fs[..|fs| - 1], fs[|fs| - 1];
    EnumeratedLength(cfg, slaveIPs, records, init);
    if i < |init| {
      EnumeratedFrameworks(cfg, slaveIPs, records, init, i);
    } else {
      EnumeratedTasks(cfg, slaveIPs, last, AddEvents(records, TaskPhase(cfg, slaveIPs, init)), last.tasks);
    }
  }
}
