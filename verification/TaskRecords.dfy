/** The records of the task phase, rule by rule (docs/docs/naming.md), and their
    enumeration. */
module TaskRecords {
  import opened Chains
  import opened GeneratorSpec
  import opened MesosState
  import opened Sequences
  import opened Text

  // ----- the declarative rules

  /** `_task._proto.framework[.slave].domain.` for every host port, protocol and subdomain,
      pointing at the task's name on its slave. */
  ghost predicate HostPortRule(cfg: Config, f: Framework, t: Task, taskName: string, e: RR) {
    exists port :: port in TaskPorts(t) && PortRule(cfg, f, t, taskName, port, e)
  }

  ghost predicate PortRule(cfg: Config, f: Framework, t: Task, taskName: string, port: string, e: RR) {
    exists proto, sub :: proto in Protocols("", cfg.env.spec) && sub in Subdomains(t) &&
      e == RR(SRV, SrvName(cfg, f, taskName, proto, sub), SlaveTarget(cfg, f, t, taskName, port))
  }

  /** `[_portname.]_task._proto.framework.domain.` for every discovery port, pointing at the
      task's own name. */
  ghost predicate DiscoveryRule(cfg: Config, f: Framework, t: Task, taskName: string, e: RR) {
    exists p :: p in PublishedPorts(t) && PublishedRule(cfg, f, t, taskName, p, e)
  }

  ghost predicate PublishedRule(cfg: Config, f: Framework, t: Task, taskName: string, p: DiscoveryPort, e: RR) {
    exists proto, prefix :: proto in Protocols(p.protocol, cfg.env.spec) &&
      prefix in NamePrefixes(p.name, cfg.env.spec) &&
      e == RR(SRV, prefix + SrvName(cfg, f, taskName, proto, ""), TaskTarget(cfg, f, t, taskName, p))
  }

  /** The four address records: the task's name and its canonical name, each plain for the
      task's address and under `.slave` for the slave's. */
  ghost predicate AddressRule(cfg: Config, f: Framework, t: Task, taskName: string, e: RR) {
    exists base, onSlave ::
      && base in {taskName + "." + Fragment(cfg, f.name), Canonical(cfg, f, t, taskName)}
      && e == AddressRecord(cfg, t, base, onSlave)
  }

  function AddressRecord(cfg: Config, t: Task, base: string, onSlave: bool): RR {
    if onSlave then RR(A, base + ".slave" + Tail(cfg.domain), t.slaveIP)
    else RR(A, base + Tail(cfg.domain), IPOf(t, cfg.ipSources, cfg.env.parseIP))
  }

  function SrvName(cfg: Config, f: Framework, taskName: string, proto: string, sub: string): string {
    ServiceName("_" + taskName, proto, Fragment(cfg, f.name), sub, Tail(cfg.domain))
  }

  function SlaveTarget(cfg: Config, f: Framework, t: Task, taskName: string, port: string): string {
    Canonical(cfg, f, t, taskName) + ".slave" + Tail(cfg.domain) + ":" + port
  }

  function TaskTarget(cfg: Config, f: Framework, t: Task, taskName: string, p: DiscoveryPort): string {
    Canonical(cfg, f, t, taskName) + Tail(cfg.domain) + ":" + Itoa(p.number)
  }

  ghost predicate TaskRule(cfg: Config, f: Framework, t: Task, taskName: string, e: RR) {
    AddressRule(cfg, f, t, taskName, e) || HostPortRule(cfg, f, t, taskName, e) || DiscoveryRule(cfg, f, t, taskName, e)
  }

  /** Some eligible task of some framework, under one of its names, gives the record. */
  ghost predicate FromTasks(cfg: Config, slaveIPs: map<string, string>, fs: seq<Framework>, e: RR) {
    exists f, t, taskName ::
      && f in fs && t in f.tasks && Eligible(slaveIPs, t) && taskName in TaskNames(cfg, t)
      && TaskRule(cfg, f, Located(slaveIPs, t), taskName, e)
  }

  // ----- the chains of a task emit exactly the SRV rules

  /** The names a list of protocols and subdomains makes out of one name. */
  function CrossNames(name: string, framework: string, protocols: seq<string>, subdomains: seq<string>): seq<string> {
    FlatMap(subdomains, SubdomainSuffix(FlatMap(protocols, ProtocolSuffix([name], framework))))
  }

  lemma {:induction false} CrossNameSound(
    name: string, framework: string, protocols: seq<string>, subdomains: seq<string>, r: string)
    returns (p: string, s: string)
    requires r in CrossNames(name, framework, protocols, subdomains)
    ensures p in protocols && s in subdomains && r == name + ("._" + p + "." + framework) + Sub(s)
  {
    var protoNames := FlatMap(protocols, ProtocolSuffix([name], framework));
    SubdomainMember(protoNames, subdomains, r);
    var y;
    s, y :| s in subdomains && y in protoNames && r == y + Sub(s);
    ProtocolMember(name, framework, protocols, y);
    p :| p in protocols && y == name + ("._" + p + "." + framework);
  }

  lemma {:induction false} CrossNameComplete(
    name: string, framework: string, protocols: seq<string>, subdomains: seq<string>, p: string, s: string)
    requires p in protocols && s in subdomains
    ensures name + ("._" + p + "." + framework) + Sub(s) in CrossNames(name, framework, protocols, subdomains)
  {
    var protoNames := FlatMap(protocols, ProtocolSuffix([name], framework));
    var y := name + ("._" + p + "." + framework);
    ProtocolMember(name, framework, protocols, y);
    SubdomainMember(protoNames, subdomains, y + Sub(s));
  }

  lemma {:induction false} SubdomainChainEmits(
    name: string, protocol: string, framework: string, subdomains: seq<string>, tail: string, target: string,
    spec: string -> string, e: RR)
    requires subdomains != []
    ensures e in EmitsInPlace(WithProtocol(protocol, framework, WithSubdomains(subdomains, AsSRV(target, tail))),
            [name], spec) <==>
            exists p, s :: p in Protocols(protocol, spec) && s in subdomains &&
              e == RR(SRV, ServiceName(name, p, framework, s, tail), target)
  {
    var protocols := Protocols(protocol, spec);
    var names := CrossNames(name, framework, protocols, subdomains);
    SubdomainChainIs(name, protocol, framework, subdomains, tail, target, spec);
    SrvMember(names, target, tail, e);
    if e in FlatMap(names, SrvFor(target, tail)) {
      var r :| r in names && e == RR(SRV, r + tail, target);
      var p, s := CrossNameSound(name, framework, protocols, subdomains, r);
      assert e == RR(SRV, ServiceName(name, p, framework, s, tail), target);
    }
    if p, s :| p in protocols && s in subdomains && e == RR(SRV, ServiceName(name, p, framework, s, tail), target) {
      CrossNameComplete(name, framework, protocols, subdomains, p, s);
    }
  }

  lemma SubdomainChainIs(
    name: string, protocol: string, framework: string, subdomains: seq<string>, tail: string, target: string,
    spec: string -> string)
    requires subdomains != []
    ensures EmitsInPlace(WithProtocol(protocol, framework, WithSubdomains(subdomains, AsSRV(target, tail))), [name],
            spec) ==
            FlatMap(CrossNames(name, framework, Protocols(protocol, spec), subdomains), SrvFor(target, tail))
  {
    var names := CrossNames(name, framework, Protocols(protocol, spec), subdomains);
    assert EmitsInPlace(AsSRV(target, tail), names, spec) == FlatMap(names, SrvFor(target, tail));
  }

  lemma {:induction false} PrefixedMember(
    name: string, framework: string, protocols: seq<string>, prefix: string, tail: string, target: string, e: RR)
    ensures e in FlatMap(Map(FlatMap(protocols, ProtocolSuffix([name], framework)), Prefixed(prefix)),
            SrvFor(target, tail)) <==>
            exists p :: p in protocols && e == RR(SRV, prefix + ServiceName(name, p, framework, "", tail), target)
  {
    var names := FlatMap(protocols, ProtocolSuffix([name], framework));
    SrvMember(Map(names, Prefixed(prefix)), target, tail, e);
    if e in FlatMap(Map(names, Prefixed(prefix)), SrvFor(target, tail)) {
      var y :| y in Map(names, Prefixed(prefix)) && e == RR(SRV, y + tail, target);
      MapMember(names, Prefixed(prefix), y);
      var r :| r in names && y == Prefixed(prefix)(r);
      ProtocolMember(name, framework, protocols, r);
      PrefixAssoc(prefix, r, tail);
    }
    if p :| p in protocols && e == RR(SRV, prefix + ServiceName(name, p, framework, "", tail), target) {
      var r := name + ("._" + p + "." + framework);
      ProtocolMember(name, framework, protocols, r);
      MapMember(names, Prefixed(prefix), prefix + r);
      PrefixAssoc(prefix, r, tail);
    }
  }

  lemma PrefixAssoc(prefix: string, name: string, tail: string)
    ensures prefix + name + tail == prefix + (name + Sub("") + tail)
  {
  }

  lemma {:induction false} NamedChainIs(
    names: seq<string>, portName: string, tail: string, target: string, spec: string -> string)
    ensures EmitsInPlace(WithNamedPort(portName, AsSRV(target, tail)), names, spec) ==
            FlatMap(Map(names, Prefixed("")), SrvFor(target, tail)) +
            if spec(portName) == "" then []
            else FlatMap(Map(names, Prefixed("_" + spec(portName) + ".")), SrvFor(target, tail))
  {
    var last := AsSRV(target, tail);
    forall i | 0 <= i < |names| ensures Map(names, Prefixed(""))[i] == names[i] {
      assert "" + names[i] == names[i];
    }
    assert names == Map(names, Prefixed(""));
    assert EmitsInPlace(last, names, spec) == FlatMap(names, SrvFor(target, tail));
    assert Leaves(last, names, spec) == names;
  }

  lemma {:induction false} NamedChainEmits(
    name: string, protocol: string, framework: string, portName: string, tail: string, target: string,
    spec: string -> string, e: RR)
    ensures e in EmitsInPlace(WithProtocol(protocol, framework, WithNamedPort(portName, AsSRV(target, tail))), [name],
            spec) <==>
            exists p, prefix :: p in Protocols(protocol, spec) && prefix in NamePrefixes(portName, spec) &&
              e == RR(SRV, prefix + ServiceName(name, p, framework, "", tail), target)
  {
    var protocols := Protocols(protocol, spec);
    var names := FlatMap(protocols, ProtocolSuffix([name], framework));
    NamedChainIs(names, portName, tail, target, spec);
    PrefixedMember(name, framework, protocols, "", tail, target, e);
    PrefixedMember(name, framework, protocols, "_" + spec(portName) + ".", tail, target, e);
    assert "" in NamePrefixes(portName, spec);
  }

  /** The chains that tasks use are in an order that makes the shared slice harmless. */
  lemma TaskChainsRefine(
    cfg: Config, f: Framework, t: Task, taskName: string, port: string, p: DiscoveryPort, rs: seq<string>)
    ensures EmitsInPlace(PortChain(cfg, f, t, taskName, port), rs, cfg.env.spec) ==
            Emits(PortChain(cfg, f, t, taskName, port), rs, cfg.env.spec)
    ensures EmitsInPlace(DiscoveryChain(cfg, f, t, taskName, p), rs, cfg.env.spec) ==
            Emits(DiscoveryChain(cfg, f, t, taskName, p), rs, cfg.env.spec)
  {
    InPlaceRefinesPure(PortChain(cfg, f, t, taskName, port), rs, cfg.env.spec);
    InPlaceRefinesPure(DiscoveryChain(cfg, f, t, taskName, p), rs, cfg.env.spec);
  }

  // ----- the task phase

  lemma AddressesAre(cfg: Config, f: Framework, t: Task, taskName: string)
    ensures var arec, canonical := taskName + "." + Fragment(cfg, f.name), Canonical(cfg, f, t, taskName);
            TaskAddressEvents(cfg, f, t, taskName) ==
            [AddressRecord(cfg, t, arec, false), AddressRecord(cfg, t, canonical, false),
             AddressRecord(cfg, t, arec, true), AddressRecord(cfg, t, canonical, true)]
  {
  }

  lemma {:induction false} AddressMember(cfg: Config, f: Framework, t: Task, taskName: string, e: RR)
    ensures e in TaskAddressEvents(cfg, f, t, taskName) <==> AddressRule(cfg, f, t, taskName, e)
  {
    AddressesAre(cfg, f, t, taskName);
    FourRecords(cfg, t, taskName + "." + Fragment(cfg, f.name), Canonical(cfg, f, t, taskName), e);
  }

  lemma FourRecords(cfg: Config, t: Task, a: string, b: string, e: RR)
    ensures e in [AddressRecord(cfg, t, a, false), AddressRecord(cfg, t, b, false),
                  AddressRecord(cfg, t, a, true), AddressRecord(cfg, t, b, true)] <==>
            exists base, onSlave :: base in {a, b} && e == AddressRecord(cfg, t, base, onSlave)
  {
  }

  lemma {:induction false} PortMember(cfg: Config, f: Framework, t: Task, taskName: string, e: RR)
    ensures e in FlatMap(TaskPorts(t), ChainEvents(PortChains(cfg, f, t, taskName), taskName, cfg.env.spec)) <==>
            HostPortRule(cfg, f, t, taskName, e)
  {
    var g := ChainEvents(PortChains(cfg, f, t, taskName), taskName, cfg.env.spec);
    FlatMapMember(TaskPorts(t), g, e);
    forall port ensures e in g(port) <==> PortRule(cfg, f, t, taskName, port, e) {
      PortChainMember(cfg, f, t, taskName, port, e);
    }
  }

  lemma {:induction false} PortChainMember(cfg: Config, f: Framework, t: Task, taskName: string, port: string, e: RR)
    ensures e in EmitsInPlace(PortChain(cfg, f, t, taskName, port), ["_" + taskName], cfg.env.spec) <==>
            PortRule(cfg, f, t, taskName, port, e)
  {
    var name, framework, tail, target :=
      "_" + taskName, Fragment(cfg, f.name), Tail(cfg.domain), SlaveTarget(cfg, f, t, taskName, port);
    var subdomains, protocols := Subdomains(t), Protocols("", cfg.env.spec);
    PortChainIs(cfg, f, t, taskName, port);
    SubdomainChainEmits(name, "", framework, subdomains, tail, target, cfg.env.spec, e);
    if p, s :| p in protocols && s in subdomains && e == RR(SRV, ServiceName(name, p, framework, s, tail), target) {
      assert SrvName(cfg, f, taskName, p, s) == ServiceName(name, p, framework, s, tail);
    }
    if PortRule(cfg, f, t, taskName, port, e) {
      var p, s :| p in protocols && s in subdomains && e == RR(SRV, SrvName(cfg, f, taskName, p, s), target);
      assert SrvName(cfg, f, taskName, p, s) == ServiceName(name, p, framework, s, tail);
    }
  }

  lemma PortChainIs(cfg: Config, f: Framework, t: Task, taskName: string, port: string)
    ensures PortChain(cfg, f, t, taskName, port) ==
            WithProtocol("", Fragment(cfg, f.name),
              WithSubdomains(Subdomains(t), AsSRV(SlaveTarget(cfg, f, t, taskName, port), Tail(cfg.domain))))
  {
  }

  lemma {:induction false} DiscoveryChainMember(
    cfg: Config, f: Framework, t: Task, taskName: string, p: DiscoveryPort, e: RR)
    ensures e in EmitsInPlace(DiscoveryChain(cfg, f, t, taskName, p), ["_" + taskName], cfg.env.spec) <==>
            PublishedRule(cfg, f, t, taskName, p, e)
  {
    var name, framework, tail, target :=
      "_" + taskName, Fragment(cfg, f.name), Tail(cfg.domain), TaskTarget(cfg, f, t, taskName, p);
    DiscoveryChainIs(cfg, f, t, taskName, p);
    NamedChainEmits(name, p.protocol, framework, p.name, tail, target, cfg.env.spec, e);
    forall proto ensures SrvName(cfg, f, taskName, proto, "") == ServiceName(name, proto, framework, "", tail) {
    }
  }

  lemma DiscoveryChainIs(cfg: Config, f: Framework, t: Task, taskName: string, p: DiscoveryPort)
    ensures DiscoveryChain(cfg, f, t, taskName, p) ==
            WithProtocol(p.protocol, Fragment(cfg, f.name),
              WithNamedPort(p.name, AsSRV(TaskTarget(cfg, f, t, taskName, p), Tail(cfg.domain))))
  {
  }

  lemma {:induction false} DiscoveryMember(cfg: Config, f: Framework, t: Task, taskName: string, e: RR)
    ensures e in FlatMap(PublishedPorts(t),
            ChainEvents(DiscoveryChains(cfg, f, t, taskName), taskName, cfg.env.spec)) <==>
            DiscoveryRule(cfg, f, t, taskName, e)
  {
    var g := ChainEvents(DiscoveryChains(cfg, f, t, taskName), taskName, cfg.env.spec);
    FlatMapMember(PublishedPorts(t), g, e);
    forall p ensures e in g(p) <==> PublishedRule(cfg, f, t, taskName, p, e) {
      DiscoveryChainMember(cfg, f, t, taskName, p, e);
    }
  }

  lemma {:induction false} ContextMember(cfg: Config, f: Framework, t: Task, taskName: string, e: RR)
    ensures e in ContextList(cfg, f, t, taskName) <==> TaskRule(cfg, f, t, taskName, e)
  {
    AddressMember(cfg, f, t, taskName, e);
    PortMember(cfg, f, t, taskName, e);
    DiscoveryMember(cfg, f, t, taskName, e);
  }

  lemma {:induction false} TaskMember(cfg: Config, slaveIPs: map<string, string>, f: Framework, t: Task, e: RR)
    ensures e in TaskList(cfg, slaveIPs, f, t) <==>
            Eligible(slaveIPs, t) && exists n :: n in TaskNames(cfg, t) && TaskRule(cfg, f, Located(slaveIPs, t), n, e)
  {
    if Eligible(slaveIPs, t) {
      var located := Located(slaveIPs, t);
      FlatMapMember(TaskNames(cfg, located), ContextEvents(cfg, f, located), e);
      forall n ensures e in ContextEvents(cfg, f, located)(n) <==> TaskRule(cfg, f, located, n, e) {
        ContextMember(cfg, f, located, n, e);
      }
    }
  }

  /** The task phase inserts exactly the records of the rules, for every eligible task of
      every framework. */
  lemma {:induction false} TaskPhaseMeaning(cfg: Config, slaveIPs: map<string, string>, fs: seq<Framework>, e: RR)
    ensures e in TaskPhase(cfg, slaveIPs, fs) <==> FromTasks(cfg, slaveIPs, fs, e)
  {
    FlatMapMember(fs, FrameworkTaskEvents(cfg, slaveIPs), e);
    forall f ensures e in FrameworkTaskList(cfg, slaveIPs, f) <==>
      exists t :: t in f.tasks && e in TaskList(cfg, slaveIPs, f, t)
    {
      FlatMapMember(f.tasks, TaskEvents(cfg, slaveIPs, f), e);
    }
    forall f, t ensures e in TaskList(cfg, slaveIPs, f, t) <==>
        Eligible(slaveIPs, t) && exists n :: n in TaskNames(cfg, t) && TaskRule(cfg, f, Located(slaveIPs, t), n, e)
    {
      TaskMember(cfg, slaveIPs, f, t, e);
    }
  }
}
