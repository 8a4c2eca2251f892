/** The whole zone that InsertState produces (records/generator.go), record by record. */
module Zone {
  import opened Chains
  import opened GeneratorSpec
  import opened HostPort
  import opened MasterNumbering
  import opened MesosState
  import opened Sequences
  import opened TaskRecords
  import opened Text

  /** `framework.domain.` with the scheduler's address, and its SRV record if it has a port. */
  ghost predicate FrameworkRule(cfg: Config, fs: seq<Framework>, e: RR) {
    exists f, address :: f in fs && cfg.env.hostToIP4(FrameworkHostPort(f).0) == Some(address) &&
      var a, port := Fragment(cfg, f.name) + Tail(cfg.domain), FrameworkHostPort(f).1;
      e == RR(A, a, address) || (port != "" && e == RR(SRV, "_framework._tcp." + a, JoinHostPort(a, port)))
  }

  /** `slave.domain.` with the address of every slave that resolves, and its SRV record. */
  ghost predicate SlaveRule(cfg: Config, slaves: seq<Slave>, e: RR) {
    exists s, address :: s in slaves && cfg.env.hostToIP4(s.host) == Some(address) &&
      var a := "slave" + Tail(cfg.domain);
      e == RR(A, a, address) || e == RR(SRV, "_slave._tcp" + Tail(cfg.domain), JoinHostPort(a, s.port))
  }

  /** The leader's names, and the masters in order under the general and numbered names,
      skipping addresses that the general name holds already. */
  ghost predicate MasterRule(domain: string, taken: set<string>, masters: seq<string>, leader: string, e: RR) {
    LeaderAddress(leader).Some? &&
    var l := LeaderAddress(leader).value;
    var order := MasterOrder(l.0, l.1, taken, masters);
    e in LeaderEvents(domain, l.1, l.2) || e in General(domain, order) || e in Numbered(domain, order)
  }

  /** The records when the master phase begins. */
  function BeforeMasters(cfg: Config, sj: State): set<RR> {
    AddEvents(AddEvents({}, FlatMap(sj.frameworks, FrameworkEvents(cfg))), FlatMap(sj.slaves, SlaveEvents(cfg)))
  }

  lemma FrameworkListMember(cfg: Config, f: Framework, e: RR)
    ensures e in FrameworkList(cfg, f) <==> FrameworkRule(cfg, [f], e)
  {
    if e in FrameworkList(cfg, f) {
      var address := cfg.env.hostToIP4(FrameworkHostPort(f).0).value;
      assert f in [f] && cfg.env.hostToIP4(FrameworkHostPort(f).0) == Some(address);
    }
  }

  lemma {:induction false} FrameworkMember(cfg: Config, fs: seq<Framework>, e: RR)
    ensures e in FlatMap(fs, FrameworkEvents(cfg)) <==> FrameworkRule(cfg, fs, e)
  {
    FlatMapMember(fs, FrameworkEvents(cfg), e);
    forall f ensures e in FrameworkEvents(cfg)(f) <==> FrameworkRule(cfg, [f], e) {
      FrameworkListMember(cfg, f, e);
    }
  }

  lemma SlaveListMember(cfg: Config, s: Slave, e: RR)
    ensures e in SlaveList(cfg, s) <==> SlaveRule(cfg, [s], e)
  {
    if e in SlaveList(cfg, s) {
      var address := cfg.env.hostToIP4(s.host).value;
      assert s in [s] && cfg.env.hostToIP4(s.host) == Some(address);
    }
  }

  lemma {:induction false} SlaveMember(cfg: Config, slaves: seq<Slave>, e: RR)
    ensures e in FlatMap(slaves, SlaveEvents(cfg)) <==> SlaveRule(cfg, slaves, e)
  {
    FlatMapMember(slaves, SlaveEvents(cfg), e);
    forall s ensures e in SlaveEvents(cfg)(s) <==> SlaveRule(cfg, [s], e) {
      SlaveListMember(cfg, s, e);
    }
  }

  // ----- when framework names stay clear of the master names

  /** A framework that resolves is called master, or master followed by a number. */
  ghost predicate MasterNameTaken(cfg: Config, fs: seq<Framework>) {
    exists f :: f in fs && cfg.env.hostToIP4(FrameworkHostPort(f).0).Some? &&
      cfg.env.hostToIP4(FrameworkHostPort(f).0).value != "" && LooksLikeMaster(Fragment(cfg, f.name))
  }

  ghost predicate LooksLikeMaster(s: string) { s == "master" || exists i: nat :: s == "master" + Itoa(i) }

  lemma CancelTail(a: string, b: string, tail: string)
    requires a + tail == b + tail
    ensures a == b
  {
    assert |a| == |b|;
    assert a == (a + tail)[..|a|] && b == (b + tail)[..|a|];
  }

  lemma {:induction false} LooksLikeMasterName(domain: string, s: string)
    ensures LooksLikeMaster(s) <==>
            s + Tail(domain) == MasterName(domain) || exists i: nat :: s + Tail(domain) == MasterNName(domain, i)
  {
    if s + Tail(domain) == MasterName(domain) { CancelTail(s, "master", Tail(domain)); }
    if i: nat :| s == "master" + Itoa(i) { assert s + Tail(domain) == MasterNName(domain, i); }
    if i: nat :| s + Tail(domain) == MasterNName(domain, i) { CancelTail(s, "master" + Itoa(i), Tail(domain)); }
  }

  lemma NotSlaveName(domain: string, i: nat)
    ensures "slave" + Tail(domain) != MasterName(domain) && "slave" + Tail(domain) != MasterNName(domain, i)
  {
    assert ("slave" + Tail(domain))[0] == 's' && MasterName(domain)[0] == 'm' && MasterNName(domain, i)[0] == 'm';
  }

  /** The premise of the numbering theorem, in terms of the state. */
  lemma {:induction false} NoMasterNamesExactlyWhen(cfg: Config, sj: State)
    ensures NoMasterNames(BeforeMasters(cfg, sj), cfg.domain) <==> !MasterNameTaken(cfg, sj.frameworks)
  {
    var before := BeforeMasters(cfg, sj);
    if MasterNameTaken(cfg, sj.frameworks) {
      var f :| f in sj.frameworks && cfg.env.hostToIP4(FrameworkHostPort(f).0).Some? &&
        cfg.env.hostToIP4(FrameworkHostPort(f).0).value != "" && LooksLikeMaster(Fragment(cfg, f.name));
      LooksLikeMasterName(cfg.domain, Fragment(cfg, f.name));
      var e := RR(A, Fragment(cfg, f.name) + Tail(cfg.domain), cfg.env.hostToIP4(FrameworkHostPort(f).0).value);
      FrameworkMember(cfg, sj.frameworks, e);
      assert e in before;
    }
    forall e | e in before && e.kind == A && !MasterNameTaken(cfg, sj.frameworks)
      ensures e.name != MasterName(cfg.domain) && forall i: nat :: e.name != MasterNName(cfg.domain, i)
    {
      BeforeMastersMember(cfg, sj, e);
      BeforeMastersName(cfg, sj, e);
    }
  }

  lemma {:induction false} BeforeMastersName(cfg: Config, sj: State, e: RR)
    requires e.kind == A && e.host != "" && (FrameworkRule(cfg, sj.frameworks, e) || SlaveRule(cfg, sj.slaves, e))
    requires !MasterNameTaken(cfg, sj.frameworks)
    ensures e.name != MasterName(cfg.domain) && forall i: nat :: e.name != MasterNName(cfg.domain, i)
  {
    if SlaveRule(cfg, sj.slaves, e) {
      forall i: nat ensures e.name != MasterName(cfg.domain) && e.name != MasterNName(cfg.domain, i) {
        NotSlaveName(cfg.domain, i);
      }
    } else {
      var f, address :| f in sj.frameworks && cfg.env.hostToIP4(FrameworkHostPort(f).0) == Some(address) &&
        e == RR(A, Fragment(cfg, f.name) + Tail(cfg.domain), address);
      LooksLikeMasterName(cfg.domain, Fragment(cfg, f.name));
    }
  }

  // ----- the zone

  /** The addresses of frameworks called master. */
  function MasterAddresses(cfg: Config, fs: seq<Framework>): set<string> {
    set f | f in fs && Fragment(cfg, f.name) == "master" && cfg.env.hostToIP4(FrameworkHostPort(f).0).Some? &&
            cfg.env.hostToIP4(FrameworkHostPort(f).0).value != "" :: cfg.env.hostToIP4(FrameworkHostPort(f).0).value
  }

  /** Only such frameworks get at the general master name before the masters do. */
  lemma {:induction false} TakenByFrameworks(cfg: Config, sj: State)
    ensures Taken(BeforeMasters(cfg, sj), cfg.domain) == MasterAddresses(cfg, sj.frameworks)
  {
    forall x ensures x in Taken(BeforeMasters(cfg, sj), cfg.domain) <==> x in MasterAddresses(cfg, sj.frameworks) {
      BeforeMastersMember(cfg, sj, RR(A, MasterName(cfg.domain), x));
      NotSlaveName(cfg.domain, 0);
      TakenMember(cfg, sj.frameworks, x);
    }
  }

  lemma {:induction false} TakenMember(cfg: Config, fs: seq<Framework>, x: string)
    ensures x in MasterAddresses(cfg, fs) <==> x != "" && FrameworkRule(cfg, fs, RR(A, MasterName(cfg.domain), x))
  {
    if x in MasterAddresses(cfg, fs) {
      var f :| f in fs && Fragment(cfg, f.name) == "master" && cfg.env.hostToIP4(FrameworkHostPort(f).0) == Some(x);
      assert Fragment(cfg, f.name) + Tail(cfg.domain) == MasterName(cfg.domain);
    }
    if FrameworkRule(cfg, fs, RR(A, MasterName(cfg.domain), x)) {
      var f :| f in fs && cfg.env.hostToIP4(FrameworkHostPort(f).0) == Some(x) &&
               Fragment(cfg, f.name) + Tail(cfg.domain) == MasterName(cfg.domain);
      CancelTail(Fragment(cfg, f.name), "master", Tail(cfg.domain));
    }
  }

  /** The final records of every state are exactly those of the four rules. */
  lemma {:induction false} ZoneMeaning(cfg: Config, sj: State, e: RR)
    ensures e in FinalRecords(cfg, sj) <==>
            e.host != "" &&
            (FrameworkRule(cfg, sj.frameworks, e) || SlaveRule(cfg, sj.slaves, e)
             || MasterRule(cfg.domain, MasterAddresses(cfg, sj.frameworks), cfg.masters, sj.leader, e)
             || FromTasks(cfg, SlaveAddresses(cfg, sj.slaves), sj.frameworks, e))
  {
    BaseMember(cfg, sj, e);
    TaskPhaseMeaning(cfg, SlaveAddresses(cfg, sj.slaves), sj.frameworks, e);
  }

  lemma {:induction false} BaseMember(cfg: Config, sj: State, e: RR)
    ensures e in BaseRecords(cfg, sj) <==>
            e.host != "" && (FrameworkRule(cfg, sj.frameworks, e) || SlaveRule(cfg, sj.slaves, e)
                             || MasterRule(cfg.domain, MasterAddresses(cfg, sj.frameworks), cfg.masters, sj.leader, e))
  {
    BeforeMastersMember(cfg, sj, e);
    TakenByFrameworks(cfg, sj);
    MasterMember(BeforeMasters(cfg, sj), cfg.domain, cfg.masters, sj.leader, e);
  }

  lemma {:induction false} BeforeMastersMember(cfg: Config, sj: State, e: RR)
    ensures e in BeforeMasters(cfg, sj) <==>
            e.host != "" && (FrameworkRule(cfg, sj.frameworks, e) || SlaveRule(cfg, sj.slaves, e))
  {
    FrameworkMember(cfg, sj.frameworks, e);
    SlaveMember(cfg, sj.slaves, e);
  }

  lemma {:induction false} MasterMember(before: set<RR>, domain: string, masters: seq<string>, leader: string, e: RR)
    ensures e in MasterPhase(before, domain, masters, leader) <==>
            e in before || (e.host != "" && MasterRule(domain, Taken(before, domain), masters, leader, e))
  {
    if LeaderAddress(leader).Some? {
      MasterPhaseMeaning(before, domain, masters, leader);
    }
  }

  // ----- what the zone does not hold

  /** A name with two dots at least before the tail. */
  ghost predicate Dotted(name: string, tail: string) {
    exists first, proto, rest :: name == first + ("._" + proto + "." + rest) + tail
  }

  lemma Assoc(a: string, b: string, c: string)
    ensures a + b + c == a + (b + c)
  {
  }

  lemma {:induction false} ServiceNameDotted(
    prefix: string, name: string, proto: string, framework: string, sub: string, tail: string)
    ensures Dotted(prefix + ServiceName(name, proto, framework, sub, tail), tail)
  {
    var service, s := "._" + proto + "." + framework, Sub(sub);
    Assoc("._" + proto + ".", framework, s);
    Assoc(name, service, s);
    Assoc(prefix, name + (service + s), tail);
    Assoc(prefix, name, service + s);
    assert prefix + ServiceName(name, proto, framework, sub, tail) ==
           prefix + name + ("._" + proto + "." + (framework + s)) + tail;
  }

  /** The SRV names of a task, with or without a port name in front. */
  lemma {:induction false} TaskServiceDotted(cfg: Config, f: Framework, t: Task, taskName: string, e: RR)
    requires TaskRule(cfg, f, t, taskName, e) && e.kind == SRV
    ensures Dotted(e.name, Tail(cfg.domain))
  {
    if HostPortRule(cfg, f, t, taskName, e) {
      var port :| port in TaskPorts(t) && PortRule(cfg, f, t, taskName, port, e);
      var p, sub :| p in Protocols("", cfg.env.spec) && sub in Subdomains(t) &&
        e == RR(SRV, SrvName(cfg, f, taskName, p, sub), SlaveTarget(cfg, f, t, taskName, port));
      assert "" + e.name == e.name;
      ServiceNameDotted("", "_" + taskName, p, Fragment(cfg, f.name), sub, Tail(cfg.domain));
    } else {
      assert !AddressRule(cfg, f, t, taskName, e);
      var port :| port in PublishedPorts(t) && PublishedRule(cfg, f, t, taskName, port, e);
      var p, prefix :| p in Protocols(port.protocol, cfg.env.spec) && prefix in NamePrefixes(port.name, cfg.env.spec) &&
        e == RR(SRV, prefix + SrvName(cfg, f, taskName, p, ""), TaskTarget(cfg, f, t, taskName, port));
      ServiceNameDotted(prefix, "_" + taskName, p, Fragment(cfg, f.name), "", Tail(cfg.domain));
    }
  }

  lemma DotPlaces(first: string, proto: string, rest: string)
    ensures var s, i, j := first + ("._" + proto + "." + rest), |first|, |first| + 2 + |proto|;
            i < j < |s| && s[i] == '.' && s[j] == '.'
  {
  }

  lemma {:induction false} DottedIsOther(name: string, service: string, tail: string)
    requires Dotted(name, tail)
    requires forall i, j :: 0 <= i < j < |service| ==> service[i] != '.' || service[j] != '.'
    ensures name != service + tail
  {
    var first, proto, rest :| name == first + ("._" + proto + "." + rest) + tail;
    DotPlaces(first, proto, rest);
    if name == service + tail {
      CancelTail(first + ("._" + proto + "." + rest), service, tail);
    }
  }

  /** Contrary to the naming rules there are no SRV records for the masters. */
  lemma {:induction false} NoMasterServices(cfg: Config, sj: State, e: RR)
    requires e in FinalRecords(cfg, sj) && e.kind == SRV
    ensures e.name != "_master._tcp" + Tail(cfg.domain) && e.name != "_master._udp" + Tail(cfg.domain)
  {
    ServiceNames(cfg, sj, e);
    NotMasterService(e.name, Tail(cfg.domain));
  }

  lemma {:induction false} NotMasterService(name: string, tail: string)
    requires Dotted(name, tail) || (|name| > 1 && name[1] in {'f', 's', 'l'})
    ensures name != "_master._tcp" + tail && name != "_master._udp" + tail
  {
    if Dotted(name, tail) {
      DottedIsOther(name, "_master._tcp", tail);
      DottedIsOther(name, "_master._udp", tail);
    } else {
      assert ("_master._tcp" + tail)[1] == 'm' && ("_master._udp" + tail)[1] == 'm';
    }
  }

  lemma {:induction false} ServiceNames(cfg: Config, sj: State, e: RR)
    requires e in FinalRecords(cfg, sj) && e.kind == SRV
    ensures Dotted(e.name, Tail(cfg.domain)) || (|e.name| > 1 && e.name[1] in {'f', 's', 'l'})
  {
    ZoneMeaning(cfg, sj, e);
    if FromTasks(cfg, SlaveAddresses(cfg, sj.slaves), sj.frameworks, e) {
      FromTasksDotted(cfg, sj, e);
    } else {
      OtherServices(cfg, sj, e);
    }
  }

  lemma {:induction false} FromTasksDotted(cfg: Config, sj: State, e: RR)
    requires FromTasks(cfg, SlaveAddresses(cfg, sj.slaves), sj.frameworks, e) && e.kind == SRV
    ensures Dotted(e.name, Tail(cfg.domain))
  {
    var slaveIPs := SlaveAddresses(cfg, sj.slaves);
    var f, t, taskName :|
      && f in sj.frameworks && t in f.tasks && Eligible(slaveIPs, t) && taskName in TaskNames(cfg, t)
      && TaskRule(cfg, f, Located(slaveIPs, t), taskName, e);
    TaskServiceDotted(cfg, f, Located(slaveIPs, t), taskName, e);
  }

  lemma {:induction false} OtherServices(cfg: Config, sj: State, e: RR)
    requires e.kind == SRV
    requires FrameworkRule(cfg, sj.frameworks, e) || SlaveRule(cfg, sj.slaves, e)
             || MasterRule(cfg.domain, MasterAddresses(cfg, sj.frameworks), cfg.masters, sj.leader, e)
    ensures |e.name| > 1 && e.name[1] in {'f', 's', 'l'}
  {
  }
}
