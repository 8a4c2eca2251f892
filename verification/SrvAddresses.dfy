/** When every SRV target of the zone has an address: exactly when the addresses that the
    targets are named after are known. */
module SrvAddresses {
  import opened Chains
  import opened GeneratorSpec
  import opened HostPort
  import opened MesosState
  import opened SrvIntegrity
  import opened TaskRecords
  import opened Text
  import opened Zone

  /** The target is a plain host with an address record, and a port. */
  ghost predicate Resolved(records: set<RR>, target: string) {
    exists host, port :: PointsAt(records, target, host, port)
  }

  ghost predicate AllResolved(cfg: Config, sj: State) {
    forall e :: e in FinalRecords(cfg, sj) && e.kind == SRV ==> Resolved(FinalRecords(cfg, sj), e.host)
  }

  /** The name holds no address but this one. */
  ghost predicate Sole(cfg: Config, sj: State, name: string, ip: string) {
    forall x :: RR(A, name, x) in FinalRecords(cfg, sj) ==> x == ip
  }

  /** The names that SRV records of the leader and of tasks point at are theirs alone, as
      the canonical names of tasks with different identifiers are. */
  ghost predicate NamesUnshared(cfg: Config, sj: State) {
    && (LeaderAddress(sj.leader).Some? ==> Sole(cfg, sj, "leader" + Tail(cfg.domain), LeaderAddress(sj.leader).value.1))
    && forall f, t, n :: NamedTask(cfg, sj, f, t, n) ==> TaskUnshared(cfg, sj, f, t, n)
  }

  ghost predicate TaskUnshared(cfg: Config, sj: State, f: Framework, t: Task, n: string)
    requires NamedTask(cfg, sj, f, t, n)
  {
    var located := Located(SlaveAddresses(cfg, sj.slaves), t);
    forall onSlave :: Unshared(cfg, sj, AddressRecord(cfg, located, Canonical(cfg, f, t, n), onSlave))
  }

  ghost predicate Unshared(cfg: Config, sj: State, e: RR) { Sole(cfg, sj, e.name, e.host) }

  /** A host with an address is found from its target. */
  lemma {:induction false} ResolvedHost(cfg: Config, sj: State, host: string, port: string, ip: string)
    requires PlainHost(host) && Resolved(FinalRecords(cfg, sj), host + ":" + port) && Sole(cfg, sj, host, ip)
    ensures ip != ""
  {
    var host', port' :| PointsAt(FinalRecords(cfg, sj), host + ":" + port, host', port');
    ReadBack(host, port);
    ReadBack(host', port');
    var x :| RR(A, host', x) in FinalRecords(cfg, sj);
    ZoneMeaning(cfg, sj, RR(A, host', x));
  }

  lemma {:induction false} LeaderNeeded(cfg: Config, sj: State)
    requires NamesPlain(cfg, sj) && NamesUnshared(cfg, sj) && AllResolved(cfg, sj) && LeaderAddress(sj.leader).Some?
    ensures LeaderAddress(sj.leader).value.1 != ""
  {
    var l := LeaderAddress(sj.leader).value;
    var host := FixedHost("leader", cfg.domain);
    var e := RR(SRV, "_leader._tcp" + Tail(cfg.domain), host + ":" + l.2);
    LeaderIsFinal(cfg, sj, e);
    ResolvedHost(cfg, sj, host, l.2, l.1);
  }

  /** A record that a rule of an eligible task gives is in the zone. */
  lemma {:induction false} TaskRecordFinal(cfg: Config, sj: State, f: Framework, t: Task, n: string, e: RR)
    requires NamedTask(cfg, sj, f, t, n) && e.host != ""
    requires TaskRule(cfg, f, Located(SlaveAddresses(cfg, sj.slaves), t), n, e)
    ensures e in FinalRecords(cfg, sj)
  {
    var slaveIPs := SlaveAddresses(cfg, sj.slaves);
    assert FromTasks(cfg, slaveIPs, sj.frameworks, e);
    TaskPhaseMeaning(cfg, slaveIPs, sj.frameworks, e);
    AddedIfListed(BaseRecords(cfg, sj), TaskPhase(cfg, slaveIPs, sj.frameworks), e);
  }

  /** Every host port of a task is written into an SRV record. */
  lemma {:induction false} HostPortWritten(cfg: Config, f: Framework, t: Task, n: string, port: string) returns (e: RR)
    requires port in TaskPorts(t)
    ensures e.kind == SRV && e.host == SlaveTarget(cfg, f, t, n, port) && HostPortRule(cfg, f, t, n, e)
  {
    var protocols, subdomains := Protocols("", cfg.env.spec), Subdomains(t);
    var name := SrvName(cfg, f, n, protocols[0], subdomains[0]);
    e := RR(SRV, name, SlaveTarget(cfg, f, t, n, port));
    assert protocols[0] in protocols && subdomains[0] in subdomains;
    assert PortRule(cfg, f, t, n, port, e);
  }

  /** So is every discovery port. */
  lemma {:induction false} DiscoveryPortWritten(
    cfg: Config, f: Framework, t: Task, n: string, p: DiscoveryPort) returns (e: RR)
    requires p in PublishedPorts(t)
    ensures e.kind == SRV && e.host == TaskTarget(cfg, f, t, n, p) && DiscoveryRule(cfg, f, t, n, e)
  {
    var protocols := Protocols(p.protocol, cfg.env.spec);
    e := RR(SRV, "" + SrvName(cfg, f, n, protocols[0], ""), TaskTarget(cfg, f, t, n, p));
    assert protocols[0] in protocols && "" in NamePrefixes(p.name, cfg.env.spec);
    assert PublishedRule(cfg, f, t, n, p, e);
  }

  lemma {:induction false} SlaveAddressNeeded(cfg: Config, sj: State, f: Framework, t: Task, n: string)
    requires NamesPlain(cfg, sj) && AllResolved(cfg, sj) && NamedTask(cfg, sj, f, t, n) &&
             TaskUnshared(cfg, sj, f, t, n)
    requires TaskPorts(t) != []
    ensures Located(SlaveAddresses(cfg, sj.slaves), t).slaveIP != ""
  {
    var located, port := Located(SlaveAddresses(cfg, sj.slaves), t), TaskPorts(t)[0];
    assert Canonical(cfg, f, located, n) == Canonical(cfg, f, t, n);
    var host := SlaveTargetHost(cfg, f, located, n, port);
    var e := HostPortWritten(cfg, f, located, n, port);
    TaskRecordFinal(cfg, sj, f, t, n, e);
    assert Unshared(cfg, sj, AddressRecord(cfg, located, Canonical(cfg, f, t, n), true));
    ResolvedHost(cfg, sj, host, port, located.slaveIP);
  }

  lemma {:induction false} TaskAddressNeeded(cfg: Config, sj: State, f: Framework, t: Task, n: string)
    requires NamesPlain(cfg, sj) && AllResolved(cfg, sj) && NamedTask(cfg, sj, f, t, n) &&
             TaskUnshared(cfg, sj, f, t, n)
    requires PublishedPorts(t) != []
    ensures IPOf(Located(SlaveAddresses(cfg, sj.slaves), t), cfg.ipSources, cfg.env.parseIP) != ""
  {
    var located, p := Located(SlaveAddresses(cfg, sj.slaves), t), PublishedPorts(t)[0];
    var canonical := Canonical(cfg, f, t, n);
    assert Canonical(cfg, f, located, n) == canonical;
    var host := FixedHost(canonical, cfg.domain);
    var e := DiscoveryPortWritten(cfg, f, located, n, p);
    TaskRecordFinal(cfg, sj, f, t, n, e);
    assert Unshared(cfg, sj, AddressRecord(cfg, located, canonical, false));
    ResolvedHost(cfg, sj, host, Itoa(p.number), IPOf(located, cfg.ipSources, cfg.env.parseIP));
  }

  /** With plain names that nobody shares, every SRV target of the zone has an address if
      and only if the leader has one, every task with ports has its slave's, and every task
      with discovery ports its own. */
  lemma {:induction false} ResolvedExactlyWhen(cfg: Config, sj: State)
    requires NamesPlain(cfg, sj) && NamesUnshared(cfg, sj)
    ensures AllResolved(cfg, sj) <==> AddressesPresent(cfg, sj)
  {
    if AddressesPresent(cfg, sj) {
      forall e | e in FinalRecords(cfg, sj) && e.kind == SRV ensures Resolved(FinalRecords(cfg, sj), e.host) {
        var host, port := SrvTargetsResolve(cfg, sj, e);
      }
    }
    if AllResolved(cfg, sj) {
      if LeaderAddress(sj.leader).Some? { LeaderNeeded(cfg, sj); }
      forall f, t, n | NamedTask(cfg, sj, f, t, n)
        ensures TaskAddressesPresent(cfg, Located(SlaveAddresses(cfg, sj.slaves), t))
      {
        TaskNeeded(cfg, sj, f, t, n);
      }
    }
  }

  lemma {:induction false} TaskNeeded(cfg: Config, sj: State, f: Framework, t: Task, n: string)
    requires NamesPlain(cfg, sj) && NamesUnshared(cfg, sj) && AllResolved(cfg, sj) && NamedTask(cfg, sj, f, t, n)
    ensures TaskAddressesPresent(cfg, Located(SlaveAddresses(cfg, sj.slaves), t))
  {
    assert TaskUnshared(cfg, sj, f, t, n);
    if TaskPorts(t) != [] { SlaveAddressNeeded(cfg, sj, f, t, n); }
    if PublishedPorts(t) != [] { TaskAddressNeeded(cfg, sj, f, t, n); }
  }
}
