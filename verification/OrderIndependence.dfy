/** The records do not depend on the order in which the Mesos state lists frameworks,
    tasks and slaves. */
module OrderIndependence {
  import opened Chains
  import opened Generator
  import opened GeneratorSpec
  import opened MesosState
  import opened Sequences
  import opened TaskRecords

  /** The same framework with its tasks in another order. */
  ghost predicate Alike(f: Framework, f': Framework) {
    f.(tasks := []) == f'.(tasks := []) && forall t :: t in f.tasks <==> t in f'.tasks
  }

  ghost predicate Within(fs: seq<Framework>, fs': seq<Framework>) {
    forall f :: f in fs ==> exists f' :: f' in fs' && Alike(f, f')
  }

  /** The same leader, slaves and frameworks, listed in any order. */
  ghost predicate Reordered(sj: State, sj': State) {
    && sj.leader == sj'.leader
    && (forall s :: s in sj.slaves <==> s in sj'.slaves)
    && Within(sj.frameworks, sj'.frameworks) && Within(sj'.frameworks, sj.frameworks)
  }

  ghost predicate UniqueSlaveIDs(slaves: seq<Slave>) {
    forall s, u :: s in slaves && u in slaves && s.id == u.id ==> s == u
  }

  lemma SameEvents(records: set<RR>, a: seq<RR>, b: seq<RR>)
    requires forall e :: e in a <==> e in b
    ensures AddEvents(records, a) == AddEvents(records, b)
  {
  }

  lemma {:induction false} FrameworkEventsWithin(cfg: Config, fs: seq<Framework>, fs': seq<Framework>, e: RR)
    requires Within(fs, fs') && e in FlatMap(fs, FrameworkEvents(cfg))
    ensures e in FlatMap(fs', FrameworkEvents(cfg))
  {
    FlatMapMember(fs, FrameworkEvents(cfg), e);
    FlatMapMember(fs', FrameworkEvents(cfg), e);
    var f :| f in fs && e in FrameworkEvents(cfg)(f);
    var f' :| f' in fs' && Alike(f, f');
    FrameworkListIgnoresTasks(cfg, f, f');
  }

  lemma FrameworkListIgnoresTasks(cfg: Config, f: Framework, f': Framework)
    requires f.(tasks := []) == f'.(tasks := [])
    ensures FrameworkList(cfg, f) == FrameworkList(cfg, f')
  {
    assert f.name == f'.name && f.hostname == f'.hostname && f.pid == f'.pid;
  }

  lemma {:induction false} SlaveAddressesAt(cfg: Config, slaves: seq<Slave>)
    requires UniqueSlaveIDs(slaves)
    ensures forall k :: k in SlaveAddresses(cfg, slaves) <==> exists s :: s in slaves && s.id == k
    ensures forall s :: s in slaves ==> SlaveAddresses(cfg, slaves)[s.id] == SlaveAddress(cfg, s)
  {
    if slaves == [] {
    } else {
      var init, last := slaves[..|slaves| - 1], slaves[|slaves| - 1];
      assert slaves == init + [last];
      SlaveAddressesAt(cfg, init);
      assert forall s :: s in slaves <==> s in init || s == last;
    }
  }

  lemma {:induction false} SameSlaveAddresses(cfg: Config, slaves: seq<Slave>, slaves': seq<Slave>)
    requires UniqueSlaveIDs(slaves) && forall s :: s in slaves <==> s in slaves'
    ensures SlaveAddresses(cfg, slaves) == SlaveAddresses(cfg, slaves')
  {
    SlaveAddressesAt(cfg, slaves);
    SlaveAddressesAt(cfg, slaves');
    var m, m' := SlaveAddresses(cfg, slaves), SlaveAddresses(cfg, slaves');
    forall k | k in m ensures k in m' && m[k] == m'[k] {
      var s :| s in slaves && s.id == k;
    }
    forall k | k in m' ensures k in m {
      var s :| s in slaves' && s.id == k;
    }
  }

  /** A task's records depend on its framework only by name. */
  lemma {:induction false} RuleByName(cfg: Config, f: Framework, f': Framework, t: Task, n: string, e: RR)
    requires f.name == f'.name && TaskRule(cfg, f, t, n, e)
    ensures TaskRule(cfg, f', t, n, e)
  {
    assert Canonical(cfg, f, t, n) == Canonical(cfg, f', t, n);
    if AddressRule(cfg, f, t, n, e) {
      assert AddressRule(cfg, f', t, n, e);
    } else if HostPortRule(cfg, f, t, n, e) {
      var port :| port in TaskPorts(t) && PortRule(cfg, f, t, n, port, e);
      var proto, sub :| proto in Protocols("", cfg.env.spec) && sub in Subdomains(t) &&
        e == RR(SRV, SrvName(cfg, f, n, proto, sub), SlaveTarget(cfg, f, t, n, port));
      assert SrvName(cfg, f, n, proto, sub) == SrvName(cfg, f', n, proto, sub);
      assert SlaveTarget(cfg, f, t, n, port) == SlaveTarget(cfg, f', t, n, port);
      assert PortRule(cfg, f', t, n, port, e);
    } else {
      var p :| p in PublishedPorts(t) && PublishedRule(cfg, f, t, n, p, e);
      var proto, prefix :| proto in Protocols(p.protocol, cfg.env.spec) &&
        prefix in NamePrefixes(p.name, cfg.env.spec) &&
        e == RR(SRV, prefix + SrvName(cfg, f, n, proto, ""), TaskTarget(cfg, f, t, n, p));
      assert SrvName(cfg, f, n, proto, "") == SrvName(cfg, f', n, proto, "");
      assert TaskTarget(cfg, f, t, n, p) == TaskTarget(cfg, f', t, n, p);
      assert PublishedRule(cfg, f', t, n, p, e);
    }
  }

  lemma {:induction false} TaskPhaseWithin(
    cfg: Config, slaveIPs: map<string, string>, fs: seq<Framework>, fs': seq<Framework>, e: RR)
    requires Within(fs, fs') && e in TaskPhase(cfg, slaveIPs, fs)
    ensures e in TaskPhase(cfg, slaveIPs, fs')
  {
    TaskPhaseMeaning(cfg, slaveIPs, fs, e);
    TaskPhaseMeaning(cfg, slaveIPs, fs', e);
    var f, t, n :|
      && f in fs && t in f.tasks && Eligible(slaveIPs, t) && n in TaskNames(cfg, t)
      && TaskRule(cfg, f, Located(slaveIPs, t), n, e);
    var f' :| f' in fs' && Alike(f, f');
    RuleByName(cfg, f, f', Located(slaveIPs, t), n, e);
  }

  /** Reordering changes no record, neither before nor after the task phase. */
  lemma {:induction false} OrderDoesNotMatter(cfg: Config, sj: State, sj': State)
    requires UniqueSlaveIDs(sj.slaves) && Reordered(sj, sj')
    ensures SlaveAddresses(cfg, sj.slaves) == SlaveAddresses(cfg, sj'.slaves)
    ensures BaseRecords(cfg, sj) == BaseRecords(cfg, sj')
    ensures FinalRecords(cfg, sj) == FinalRecords(cfg, sj')
  {
    var fs, fs' := sj.frameworks, sj'.frameworks;
    forall e ensures e in FlatMap(fs, FrameworkEvents(cfg)) <==> e in FlatMap(fs', FrameworkEvents(cfg)) {
      if e in FlatMap(fs, FrameworkEvents(cfg)) { FrameworkEventsWithin(cfg, fs, fs', e); }
      if e in FlatMap(fs', FrameworkEvents(cfg)) { FrameworkEventsWithin(cfg, fs', fs, e); }
    }
    SameEvents({}, FlatMap(fs, FrameworkEvents(cfg)), FlatMap(fs', FrameworkEvents(cfg)));
    forall e ensures e in FlatMap(sj.slaves, SlaveEvents(cfg)) <==> e in FlatMap(sj'.slaves, SlaveEvents(cfg)) {
      FlatMapMember(sj.slaves, SlaveEvents(cfg), e);
      FlatMapMember(sj'.slaves, SlaveEvents(cfg), e);
    }
    SameEvents(AddEvents({}, FlatMap(fs, FrameworkEvents(cfg))), FlatMap(sj.slaves, SlaveEvents(cfg)),
      FlatMap(sj'.slaves, SlaveEvents(cfg)));
    SameSlaveAddresses(cfg, sj.slaves, sj'.slaves);
    var slaveIPs := SlaveAddresses(cfg, sj.slaves);
    forall e ensures e in TaskPhase(cfg, slaveIPs, fs) <==> e in TaskPhase(cfg, slaveIPs, fs') {
      if e in TaskPhase(cfg, slaveIPs, fs) { TaskPhaseWithin(cfg, slaveIPs, fs, fs', e); }
      if e in TaskPhase(cfg, slaveIPs, fs') { TaskPhaseWithin(cfg, slaveIPs, fs', fs, e); }
    }
    SameEvents(BaseRecords(cfg, sj), TaskPhase(cfg, slaveIPs, fs), TaskPhase(cfg, slaveIPs, fs'));
  }

  /** The record set determines both maps, so equal record sets mean equal maps. */
  lemma RecordsDetermineMaps(as0: Rrs, srvs0: Rrs, as1: Rrs, srvs1: Rrs)
    requires NoEmptyNames(as0) && NoEmptyNames(srvs0) && NoEmptyNames(as1) && NoEmptyNames(srvs1)
    requires Pairs(A, as0) + Pairs(SRV, srvs0) == Pairs(A, as1) + Pairs(SRV, srvs1)
    ensures as0 == as1 && srvs0 == srvs1
  {
    var r0, r1 := Pairs(A, as0) + Pairs(SRV, srvs0), Pairs(A, as1) + Pairs(SRV, srvs1);
    assert Pairs(A, as0) == set e | e in r0 && e.kind == A;
    assert Pairs(A, as1) == set e | e in r1 && e.kind == A;
    assert Pairs(SRV, srvs0) == set e | e in r0 && e.kind == SRV;
    assert Pairs(SRV, srvs1) == set e | e in r1 && e.kind == SRV;
    PairsDetermine(A, as0, as1);
    PairsDetermine(SRV, srvs0, srvs1);
  }

  /** InsertState on reordered states leaves two generators with the same maps. */
  method InsertReordered(
    cfg: Config, sj: State, sj': State, now: nat, now': nat, rg: RecordGenerator, rg': RecordGenerator)
    requires rg != rg'
    requires PortsReadable(SlaveAddresses(cfg, sj.slaves), sj) && PortsReadable(SlaveAddresses(cfg, sj'.slaves), sj')
    requires UniqueSlaveIDs(sj.slaves) && Reordered(sj, sj')
    modifies rg, rg'
    ensures rg.As == rg'.As && rg.SRVs == rg'.SRVs && rg.slaveIPs == rg'.slaveIPs
  {
    rg.InsertState(cfg, sj, now);
    rg'.InsertState(cfg, sj', now');
    OrderDoesNotMatter(cfg, sj, sj');
    RecordsDetermineMaps(rg.As, rg.SRVs, rg'.As, rg'.SRVs);
  }
}
