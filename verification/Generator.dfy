/** The record generator (records/generator.go): the nested loops that fill the A and SRV
    maps, proved against the lists of GeneratorSpec. */
module Generator {
  import opened Chains
  import opened GeneratorSpec
  import opened HostPort
  import opened MesosState
  import opened Sequences
  import opened Text

  /** A map used as a set of name and host pairs. */
  type Rrs = map<string, set<string>>

  ghost function Pairs(kind: Kind, m: Rrs): set<RR> {
    set n, h | n in m && h in m[n] :: RR(kind, n, h)
  }

  /** Names are present only with a host. */
  ghost predicate NoEmptyNames(m: Rrs) { forall n :: n in m ==> m[n] != {} }

  /** Without empty names the pairs determine the map. */
  lemma PairsDetermine(kind: Kind, m: Rrs, m': Rrs)
    requires NoEmptyNames(m) && NoEmptyNames(m') && Pairs(kind, m) == Pairs(kind, m')
    ensures m == m'
  {
    forall n, h ensures (n in m && h in m[n]) <==> (n in m' && h in m'[n]) {
      assert (n in m && h in m[n]) <==> RR(kind, n, h) in Pairs(kind, m);
      assert (n in m' && h in m'[n]) <==> RR(kind, n, h) in Pairs(kind, m');
    }
    forall n ensures n in m <==> n in m' {
      if n in m { var h :| h in m[n]; }
      if n in m' { var h :| h in m'[n]; }
    }
    forall n | n in m ensures m[n] == m'[n] {
    }
  }

  /** rrs.add. */
  method Add(r: Rrs, name: string, host: string, ghost kind: Kind) returns (r': Rrs, added: bool)
    ensures added <==> host != "" && !(name in r && host in r[name])
    ensures Pairs(kind, r') == AddEvents(Pairs(kind, r), [RR(kind, name, host)])
    ensures NoEmptyNames(r) ==> NoEmptyNames(r')
  {
    if host == "" {
      assert AddEvents(Pairs(kind, r), [RR(kind, name, host)]) == Pairs(kind, r);
      return r, false;
    }
    var v := {};
    if name in r {
      v := r[name];
      if host in v {
        assert RR(kind, name, host) in Pairs(kind, r);
        assert AddEvents(Pairs(kind, r), [RR(kind, name, host)]) == Pairs(kind, r);
        return r, false;
      }
    }
    r' := r[name := v + {host}];
    added := true;
    PairsAdd(kind, r, name, host, v);
  }

  lemma PairsAdd(kind: Kind, r: Rrs, name: string, host: string, v: set<string>)
    requires host != "" && v == if name in r then r[name] else {}
    ensures Pairs(kind, r[name := v + {host}]) == AddEvents(Pairs(kind, r), [RR(kind, name, host)])
  {
    var r' := r[name := v + {host}];
    forall e ensures e in Pairs(kind, r') <==> e in Pairs(kind, r) || e == RR(kind, name, host) {
      if e in Pairs(kind, r) { assert e.name in r' && e.host in r'[e.name] && e == RR(kind, e.name, e.host); }
      if e == RR(kind, name, host) { assert name in r' && host in r'[name]; }
    }
  }

  class RecordGenerator {
    var As: Rrs
    var SRVs: Rrs
    var slaveIPs: map<string, string>
    var enumData: seq<EnumFramework>
    var state: State
    var serial: nat

    constructor ()
      ensures Records() == {} && slaveIPs == map[] && enumData == [] && Valid()
    {
      As, SRVs, slaveIPs, enumData := map[], map[], map[], [];
      state, serial := State([], [], ""), 0;
    }

    ghost predicate Valid()
      reads this
    {
      NoEmptyNames(As) && NoEmptyNames(SRVs)
    }

    /** All records of both maps. */
    ghost function Records(): set<RR>
      reads this`As, this`SRVs
    {
      Pairs(A, As) + Pairs(SRV, SRVs)
    }

    ghost function Value(): Gen
      reads this`As, this`SRVs, this`enumData
    {
      Gen(Records(), enumData)
    }

    method InsertRR(name: string, host: string, kind: Kind) returns (added: bool)
      requires Valid()
      modifies this`As, this`SRVs
      ensures Valid()
      ensures added <==> host != "" && RR(kind, name, host) !in old(Records())
      ensures Records() == AddEvents(old(Records()), [RR(kind, name, host)])
    {
      match kind {
        case A => As, added := Add(As, name, host, A);
        case SRV => SRVs, added := Add(SRVs, name, host, SRV);
      }
    }

    method InsertTaskRR(name: string, host: string, kind: Kind) returns (added: bool)
      requires Valid() && Open(enumData)
      modifies this`As, this`SRVs, this`enumData
      ensures Valid() && Open(enumData)
      ensures Value() == InsertTaskRRs(old(Value()), [RR(kind, name, host)])
    {
      var rr := RR(kind, name, host);
      OneNew(Records(), rr);
      WithRecordsTwice(enumData, [], []);
      added := InsertRR(name, host, kind);
      if added {
        enumData := WithRecords(enumData, [rr]);
      }
    }

    /** Inserts a list of task records in order. */
    method InsertInOrder(events: seq<RR>)
      requires Valid() && Open(enumData)
      modifies this`As, this`SRVs, this`enumData
      ensures Valid() && Open(enumData)
      ensures Value() == InsertTaskRRs(old(Value()), events)
    {
      InsertNothing(Value());
      for i := 0 to |events|
        invariant Valid() && Open(enumData)
        invariant Value() == InsertTaskRRs(old(Value()), events[..i])
      {
        var rr := events[i];
        var _ := InsertTaskRR(rr.name, rr.host, rr.kind);
        InsertNext(old(Value()), events, i);
      }
      assert events[..|events|] == events;
    }

    /** asSRV: one SRV record for each name of the slice. */
    method RunAsSRV(target: string, tail: string, records: array<string>)
      requires Valid() && Open(enumData)
      modifies this`As, this`SRVs, this`enumData
      ensures Valid() && Open(enumData)
      ensures Value() == InsertTaskRRs(old(Value()), FlatMap(records[..], SrvFor(target, tail)))
    {
      ghost var rs := records[..];
      InsertNothing(Value());
      for i := 0 to records.Length
        invariant Valid() && Open(enumData) && records[..] == rs
        invariant Value() == InsertTaskRRs(old(Value()), FlatMap(rs[..i], SrvFor(target, tail)))
      {
        var name := records[i] + tail;
        var _ := InsertTaskRR(name, target, SRV);
        FlatMapNext(rs, i, SrvFor(target, tail));
        InsertAppend(old(Value()), FlatMap(rs[..i], SrvFor(target, tail)), [RR(SRV, name, target)]);
      }
      assert rs[..|rs|] == rs;
    }

    /** Runs a chain on a slice that all its links share. The chain that is returned holds
        the protocols that the links have overwritten. */
    method RunChain(c: Chain, records: array<string>, spec: string -> string) returns (c': Chain)
      requires Valid() && Open(enumData)
      modifies this`As, this`SRVs, this`enumData, records
      ensures Valid() && Open(enumData) && c' == Ran(c, spec)
      ensures records[..] == Leaves(c, old(records[..]), spec)
      ensures Value() == InsertTaskRRs(old(Value()), EmitsInPlace(c, old(records[..]), spec))
      decreases Links(c)
    {
      match c {
        case AsSRV(target, tail) =>
          RunAsSRV(target, tail, records);
          c' := c;
        case WithProtocol(protocol, framework, next) =>
          var proto, next' := spec(protocol), next;
          if proto != "" {
            FlatMapOne(proto, ProtocolSuffix(records[..], framework));
            AppendToEach(records, "._" + proto + "." + framework);
            next' := RunChain(next, records, spec);
          } else {
            var doubled := DoubleForProtocols(records, framework);
            next' := RunChain(next, doubled, spec);
          }
          c' := WithProtocol(proto, framework, next');
        case WithSubdomains(subdomains, next) =>
          var next' := next;
          if |subdomains| == 0 {
            next' := RunChain(next, records, spec);
          } else {
            var tmp := FillSubdomains(records, subdomains);
            next' := RunChain(next, tmp, spec);
          }
          c' := WithSubdomains(subdomains, next');
        case WithNamedPort(portName, next) =>
          var next' := RunChain(next, records, spec);
          if spec(portName) != "" {
            PrependToEach(records, "_" + spec(portName) + ".");
            ghost var rs := records[..];
            ghost var again := EmitsInPlace(next', rs, spec);
            next' := RunChain(next', records, spec);
            InsertAppend(old(Value()), EmitsInPlace(next, old(records[..]), spec), again);
          }
          c' := WithNamedPort(portName, next');
      }
    }

    /** recordName applied to a chain. */
    method RecordName(c: Chain, taskName: string, spec: string -> string)
      requires Valid() && Open(enumData)
      modifies this`As, this`SRVs, this`enumData
      ensures Valid() && Open(enumData)
      ensures Value() == InsertTaskRRs(old(Value()), EmitsInPlace(c, ["_" + taskName], spec))
    {
      var records := new string[1](_ => "_" + taskName);
      assert records[..] == ["_" + taskName];
      var _ := RunChain(c, records, spec);
    }

    /** A loop over ports that runs one chain for each. */
    method RunChains<T>(items: seq<T>, chain: T -> Chain, taskName: string, spec: string -> string)
      requires Valid() && Open(enumData)
      modifies this`As, this`SRVs, this`enumData
      ensures Valid() && Open(enumData)
      ensures Value() == InsertTaskRRs(old(Value()), FlatMap(items, ChainEvents(chain, taskName, spec)))
    {
      ghost var g := ChainEvents(chain, taskName, spec);
      InsertNothing(Value());
      for i := 0 to |items|
        invariant Valid() && Open(enumData)
        invariant Value() == InsertTaskRRs(old(Value()), FlatMap(items[..i], g))
      {
        RecordName(chain(items[i]), taskName, spec);
        FlatMapNext(items, i, g);
        InsertAppend(old(Value()), FlatMap(items[..i], g), g(items[i]));
      }
      assert items[..|items|] == items;
    }

    /** The body of taskContextRecord, given the address records and the chains. */
    method InsertContext(addresses: seq<RR>, ports: seq<string>, portChain: string -> Chain,
                         published: seq<DiscoveryPort>, discoveryChain: DiscoveryPort -> Chain,
                         taskName: string, spec: string -> string, ghost events: seq<RR>)
      requires Valid() && Open(enumData)
      requires events == addresses + FlatMap(ports, ChainEvents(portChain, taskName, spec))
                                   + FlatMap(published, ChainEvents(discoveryChain, taskName, spec))
      modifies this`As, this`SRVs, this`enumData
      ensures Valid() && Open(enumData)
      ensures Value() == InsertTaskRRs(old(Value()), events)
    {
      InsertInOrder(addresses);
      RunChains(ports, portChain, taskName, spec);
      ghost var portEvents := FlatMap(ports, ChainEvents(portChain, taskName, spec));
      InsertAppend(old(Value()), addresses, portEvents);
      RunChains(published, discoveryChain, taskName, spec);
      InsertAppend(old(Value()), addresses + portEvents,
        FlatMap(published, ChainEvents(discoveryChain, taskName, spec)));
    }

    method TaskContextRecord(cfg: Config, f: Framework, t: Task, taskName: string)
      requires Valid() && Open(enumData) && PortsOf(t.portRanges).Some?
      modifies this`As, this`SRVs, this`enumData
      ensures Valid() && Open(enumData)
      ensures Value() == InsertTaskRRs(old(Value()), ContextList(cfg, f, t, taskName))
    {
      var ports := Ports(t.portRanges);
      InsertContext(TaskAddressEvents(cfg, f, t, taskName), ports.value, PortChains(cfg, f, t, taskName),
                    PublishedPorts(t), DiscoveryChains(cfg, f, t, taskName), taskName, cfg.env.spec,
                    ContextList(cfg, f, t, taskName));
    }

    method TaskRecord(cfg: Config, f: Framework, t: Task)
      requires Valid() && enumData != [] && PortsOf(t.portRanges).Some?
      modifies this`As, this`SRVs, this`enumData
      ensures Valid() && Open(enumData)
      ensures Value() == InsertTaskRRs(Gen(old(Records()), WithTask(old(enumData), EnumTask(t.name, t.id, []))),
                                       FlatMap(TaskNames(cfg, t), ContextEvents(cfg, f, t)))
    {
      enumData := WithTask(enumData, EnumTask(t.name, t.id, []));
      ghost var start := Value();
      ghost var g := ContextEvents(cfg, f, t);
      if HasDiscoveryInfo(t) {
        var labelled := cfg.env.spec(t.discoveryName);
        TaskContextRecord(cfg, f, t, t.discoveryName);
        TaskContextRecord(cfg, f, t, labelled);
        InsertAppend(start, g(t.discoveryName), g(labelled));
        FlatMapTwo(t.discoveryName, labelled, g);
      } else {
        TaskContextRecord(cfg, f, t, cfg.env.spec(t.name));
        FlatMapOne(cfg.env.spec(t.name), g);
      }
    }

    /** One task of taskRecords: only running tasks on known slaves are taken. */
    method TaskTurn(cfg: Config, f: Framework, t: Task, ghost e: seq<EnumFramework>, ghost tasks: seq<EnumTask>)
      requires Valid() && (Eligible(slaveIPs, t) ==> PortsOf(t.portRanges).Some?)
      requires enumData == e + [EnumFramework(f.name, tasks)]
      modifies this`As, this`SRVs, this`enumData
      ensures Valid()
      ensures Records() == AddEvents(old(Records()), TaskList(cfg, slaveIPs, f, t))
      ensures enumData == e + [EnumFramework(f.name, tasks + EnumEntry(cfg, slaveIPs, f, old(Records()), t))]
    {
      if Eligible(slaveIPs, t) {
        TaskRecord(cfg, f, Located(slaveIPs, t));
        TaskEnumerated(e, f.name, tasks, EnumTask(t.name, t.id, []),
          NewOnes(old(Records()), TaskList(cfg, slaveIPs, f, t)));
      } else {
        assert AddEvents(Records(), []) == Records();
        assert tasks + [] == tasks;
      }
    }

    /** One framework of taskRecords: its entry in the enumeration, then its tasks. */
    method FrameworkTasks(cfg: Config, f: Framework)
      requires Valid() && forall t :: t in f.tasks && Eligible(slaveIPs, t) ==> PortsOf(t.portRanges).Some?
      modifies this`As, this`SRVs, this`enumData
      ensures Valid()
      ensures Records() == AddEvents(old(Records()), FrameworkTaskList(cfg, slaveIPs, f))
      ensures enumData == old(enumData) + [EnumFramework(f.name, EnumTasks(cfg, slaveIPs, f, old(Records()), f.tasks))]
    {
      enumData := enumData + [EnumFramework(f.name, [])];
      ghost var g := TaskEvents(cfg, slaveIPs, f);
      ghost var before := old(Records());
      assert AddEvents(before, []) == before;
      for i := 0 to |f.tasks|
        invariant Valid()
        invariant Records() == AddEvents(before, FlatMap(f.tasks[..i], g))
        invariant enumData == old(enumData) + [EnumFramework(f.name, EnumTasks(cfg, slaveIPs, f, before, f.tasks[..i]))]
      {
        FlatMapNext(f.tasks, i, g);
        AddAppend(before, FlatMap(f.tasks[..i], g), g(f.tasks[i]));
        EnumTasksNext(cfg, slaveIPs, f, before, f.tasks, i);
        TaskTurn(cfg, f, f.tasks[i], old(enumData), EnumTasks(cfg, slaveIPs, f, before, f.tasks[..i]));
      }
      assert f.tasks[..|f.tasks|] == f.tasks;
    }

    method TaskRecords(cfg: Config, sj: State)
      requires Valid() && PortsReadable(slaveIPs, sj)
      modifies this`As, this`SRVs, this`enumData
      ensures Valid()
      ensures Records() == AddEvents(old(Records()), TaskPhase(cfg, slaveIPs, sj.frameworks))
      ensures enumData == old(enumData) + EnumFrameworks(cfg, slaveIPs, old(Records()), sj.frameworks)
    {
      var fs := sj.frameworks;
      ghost var g := FrameworkTaskEvents(cfg, slaveIPs);
      ghost var before := old(Records());
      assert AddEvents(before, []) == before;
      for i := 0 to |fs|
        invariant Valid()
        invariant Records() == AddEvents(before, FlatMap(fs[..i], g))
        invariant enumData == old(enumData) + EnumFrameworks(cfg, slaveIPs, before, fs[..i])
      {
        AddNext(before, fs, i, g);
        EnumFrameworksNext(cfg, slaveIPs, before, fs, i);
        ReadableTasks(slaveIPs, sj, fs[i]);
        FrameworkTasks(cfg, fs[i]);
      }
      assert fs[..|fs|] == fs;
    }

    method FrameworkRecords(cfg: Config, sj: State)
      requires Valid()
      modifies this`As, this`SRVs
      ensures Valid()
      ensures Records() == AddEvents(old(Records()), FlatMap(sj.frameworks, FrameworkEvents(cfg)))
    {
      var fs := sj.frameworks;
      ghost var g := FrameworkEvents(cfg);
      ghost var before := old(Records());
      assert AddEvents(before, []) == before;
      for i := 0 to |fs|
        invariant Valid()
        invariant Records() == AddEvents(before, FlatMap(fs[..i], g))
      {
        FlatMapNext(fs, i, g);
        AddAppend(before, FlatMap(fs[..i], g), g(fs[i]));
        FrameworkRecord(cfg, fs[i]);
      }
      assert fs[..|fs|] == fs;
    }

    method FrameworkRecord(cfg: Config, f: Framework)
      requires Valid()
      modifies this`As, this`SRVs
      ensures Valid()
      ensures Records() == AddEvents(old(Records()), FrameworkList(cfg, f))
    {
      var hp := FrameworkHostPort(f);
      match cfg.env.hostToIP4(hp.0) {
        case None =>
          assert AddEvents(Records(), []) == Records();
        case Some(address) =>
          var a := Fragment(cfg, f.name) + Tail(cfg.domain);
          var _ := InsertRR(a, address, A);
          if hp.1 != "" {
            var srv := "_framework._tcp." + a;
            var target := JoinHostPort(a, hp.1);
            var _ := InsertRR(srv, target, SRV);
            AddAppend(old(Records()), [RR(A, a, address)], [RR(SRV, srv, target)]);
          } else {
            assert [RR(A, a, address)] + [] == [RR(A, a, address)];
          }
      }
    }

    method SlaveRecords(cfg: Config, sj: State)
      requires Valid() && slaveIPs == map[]
      modifies this`As, this`SRVs, this`slaveIPs
      ensures Valid()
      ensures Records() == AddEvents(old(Records()), FlatMap(sj.slaves, SlaveEvents(cfg)))
      ensures slaveIPs == SlaveAddresses(cfg, sj.slaves)
    {
      var slaves := sj.slaves;
      ghost var g := SlaveEvents(cfg);
      ghost var before := old(Records());
      assert AddEvents(before, []) == before;
      for i := 0 to |slaves|
        invariant Valid()
        invariant Records() == AddEvents(before, FlatMap(slaves[..i], g))
        invariant slaveIPs == SlaveAddresses(cfg, slaves[..i])
      {
        FlatMapNext(slaves, i, g);
        AddAppend(before, FlatMap(slaves[..i], g), g(slaves[i]));
        assert slaves[..i + 1][..i] == slaves[..i];
        var address := SlaveRecord(cfg, slaves[i]);
        slaveIPs := slaveIPs[slaves[i].id := address];
      }
      assert slaves[..|slaves|] == slaves;
    }

    method SlaveRecord(cfg: Config, s: Slave) returns (address: string)
      requires Valid()
      modifies this`As, this`SRVs
      ensures Valid() && address == SlaveAddress(cfg, s)
      ensures Records() == AddEvents(old(Records()), SlaveList(cfg, s))
    {
      match cfg.env.hostToIP4(s.host) {
        case None =>
          assert AddEvents(Records(), []) == Records();
          address := Fragment(cfg, s.host);
        case Some(ip) =>
          var a := "slave" + Tail(cfg.domain);
          var _ := InsertRR(a, ip, A);
          var srv := "_slave._tcp" + Tail(cfg.domain);
          var target := JoinHostPort(a, s.port);
          var _ := InsertRR(srv, target, SRV);
          AddAppend(old(Records()), [RR(A, a, ip)], [RR(SRV, srv, target)]);
          address := ip;
      }
    }

    method MasterRecord(domain: string, masters: seq<string>, leader: string)
      requires Valid()
      modifies this`As, this`SRVs
      ensures Valid()
      ensures Records() == MasterPhase(old(Records()), domain, masters, leader)
    {
      var l := LeaderAddress(leader);
      if l == None { return; }
      var (leaderAddress, ip, port) := l.value;
      InsertAll(LeaderEvents(domain, ip, port));
      ghost var start := Numbering(Records(), 0, false);
      var addedLeaderMasterN, idx := false, 0;
      for i := 0 to |masters|
        invariant Valid()
        invariant NumberMasters(start, domain, leaderAddress, masters[..i]) ==
                  Numbering(Records(), idx, addedLeaderMasterN)
      {
        assert masters[..i + 1][..i] == masters[..i];
        var counted := MasterEntry(domain, leaderAddress, masters[i], idx, addedLeaderMasterN);
        if counted {
          idx := idx + 1;
          if masters[i] == leaderAddress { addedLeaderMasterN := true; }
        }
      }
      assert masters[..|masters|] == masters;
      if !addedLeaderMasterN {
        var _ := InsertRR(MasterNName(domain, idx), ip, A);
      }
    }

    /** The loop body of masterRecord; counted is false where the source continues. */
    method MasterEntry(
      domain: string, leaderAddress: string, master: string, idx: nat, listed: bool) returns (counted: bool)
      requires Valid()
      modifies this`As, this`SRVs
      ensures Valid()
      ensures NumberMaster(Numbering(old(Records()), idx, listed), domain, leaderAddress, master) ==
              Numbering(Records(), if counted then idx + 1 else idx, listed || (counted && master == leaderAddress))
    {
      var proto := Cut(master, ':');
      if proto == None { return false; }
      var masterIP := proto.value.0;
      if master != leaderAddress {
        var general := RR(A, MasterName(domain), masterIP);
        var added := InsertRR(MasterName(domain), masterIP, A);
        if !added {
          assert Records() == old(Records());
          return false;
        }
        assert Records() == old(Records()) + {general};
      }
      if master == leaderAddress && listed { return false; }
      var _ := InsertRR(MasterNName(domain, idx), masterIP, A);
      return true;
    }

    method InsertAll(events: seq<RR>)
      requires Valid()
      modifies this`As, this`SRVs
      ensures Valid() && Records() == AddEvents(old(Records()), events)
    {
      assert AddEvents(Records(), []) == Records();
      for i := 0 to |events|
        invariant Valid()
        invariant Records() == AddEvents(old(Records()), events[..i])
      {
        var _ := InsertRR(events[i].name, events[i].host, events[i].kind);
        AddAppend(old(Records()), events[..i], [events[i]]);
        assert events[..i + 1] == events[..i] + [events[i]];
      }
      assert events[..|events|] == events;
    }

    /** InsertState: the maps are rebuilt, the enumeration only grows. The clock `now` is in
        seconds, of which the serial number takes 32 bits. */
    method InsertState(cfg: Config, sj: State, now: nat)
      requires PortsReadable(SlaveAddresses(cfg, sj.slaves), sj)
      modifies this
      ensures Valid()
      ensures Records() == FinalRecords(cfg, sj)
      ensures slaveIPs == SlaveAddresses(cfg, sj.slaves) && state == sj && serial == now % 0x1_0000_0000
      ensures enumData == old(enumData) + EnumFrameworks(cfg, slaveIPs, BaseRecords(cfg, sj), sj.frameworks)
    {
      Rebuild(cfg, sj);
      state, serial := sj, now % 0x1_0000_0000;
    }

    /** The four phases, on emptied maps. */
    method Rebuild(cfg: Config, sj: State)
      requires PortsReadable(SlaveAddresses(cfg, sj.slaves), sj)
      modifies this`As, this`SRVs, this`slaveIPs, this`enumData
      ensures Valid()
      ensures Records() == FinalRecords(cfg, sj)
      ensures slaveIPs == SlaveAddresses(cfg, sj.slaves)
      ensures enumData == old(enumData) + EnumFrameworks(cfg, slaveIPs, BaseRecords(cfg, sj), sj.frameworks)
    {
      slaveIPs, SRVs, As := map[], map[], map[];
      assert Records() == {};
      FrameworkRecords(cfg, sj);
      SlaveRecords(cfg, sj);
      MasterRecord(cfg.domain, cfg.masters, sj.leader);
      TaskRecords(cfg, sj);
    }
  }

  /** Resources.Ports indexes out of range on a malformed port string; only the tasks that
      get records are asked for their ports. */
  ghost predicate PortsReadable(slaveIPs: map<string, string>, sj: State) {
    forall f, t :: f in sj.frameworks && t in f.tasks && Eligible(slaveIPs, t) ==> PortsOf(t.portRanges).Some?
  }

  lemma ReadableTasks(slaveIPs: map<string, string>, sj: State, f: Framework)
    requires PortsReadable(slaveIPs, sj) && f in sj.frameworks
    ensures forall t :: t in f.tasks && Eligible(slaveIPs, t) ==> PortsOf(t.portRanges).Some?
  {
  }

  lemma TaskEnumerated(e: seq<EnumFramework>, name: string, tasks: seq<EnumTask>, t: EnumTask, rs: seq<RR>)
    requires t.records == []
    ensures WithRecords(WithTask(e + [EnumFramework(name, tasks)], t), rs) ==
            e + [EnumFramework(name, tasks + [t.(records := rs)])]
  {
    var started := WithTask(e + [EnumFramework(name, tasks)], t);
    assert started == e + [EnumFramework(name, tasks + [t])];
    assert (tasks + [t])[..|tasks|] == tasks;
    assert t.records + rs == rs;
  }

  function WithTask(e: seq<EnumFramework>, t: EnumTask): (r: seq<EnumFramework>)
    requires e != []
    ensures Open(r)
  {
    var f := e[|e| - 1];
    e[..|e| - 1] + [f.(tasks := f.tasks + [t])]
  }

  lemma OneNew(records: set<RR>, rr: RR)
    ensures NewOnes(records, [rr]) == if rr.host != "" && rr !in records then [rr] else []
  {
    assert [rr][..0] == [];
    assert AddEvents(records, []) == records;
    assert NewOnes(records, []) == [];
  }
}
