/** What the record generator inserts (records/generator.go), as lists of records in
    insertion order and the state they lead to. */
module GeneratorSpec {
  import opened Chains
  import opened HostPort
  import opened Labels
  import opened MesosState
  import opened Sequences
  import opened Text

  /** The outside functions: the label function, hostname lookup (None on failure), the
      truncated hash of a task identifier, IP parsing, and lower-casing. */
  datatype Env = Env(
    spec: string -> string,
    hostToIP4: string -> Option<string>,
    hash: string -> string,
    parseIP: string -> Option<string>,
    lower: string -> string)

  /** pid is the host and port of the scheduler, if it has one. */
  datatype Framework = Framework(name: string, hostname: string, pid: Option<(string, string)>, tasks: seq<Task>)

  datatype Slave = Slave(id: string, host: string, port: string)

  datatype State = State(frameworks: seq<Framework>, slaves: seq<Slave>, leader: string)

  datatype Config = Config(env: Env, domain: string, masters: seq<string>, ipSources: seq<string>)

  // ----- inserting records

  /** A record list inserted into a set: records without a host are dropped. */
  function AddEvents(records: set<RR>, events: seq<RR>): set<RR> {
    records + set e | e in events && e.host != ""
  }

  /** The records of the list that are new when it is their turn. */
  function NewOnes(records: set<RR>, events: seq<RR>): (r: seq<RR>) {
    if events == [] then []
    else
      var init, last := events[..|events| - 1], events[|events| - 1];
      NewOnes(records, init) + if last.host != "" && last !in AddEvents(records, init) then [last] else []
  }

  lemma AddAppend(records: set<RR>, a: seq<RR>, b: seq<RR>)
    ensures AddEvents(records, a + b) == AddEvents(AddEvents(records, a), b)
  {
    assert forall e :: e in a + b <==> e in a || e in b;
  }

  /** Step of a loop that inserts the contribution of each element. */
  lemma {:induction false} AddNext<T>(records: set<RR>, s: seq<T>, i: nat, g: T -> seq<RR>)
    requires i < |s|
    ensures AddEvents(AddEvents(records, FlatMap(s[..i], g)), g(s[i])) == AddEvents(records, FlatMap(s[..i + 1], g))
  {
    FlatMapNext(s, i, g);
    AddAppend(records, FlatMap(s[..i], g), g(s[i]));
  }

  lemma {:induction false} NewOnesAppend(records: set<RR>, a: seq<RR>, b: seq<RR>)
    ensures NewOnes(records, a + b) == NewOnes(records, a) + NewOnes(AddEvents(records, a), b)
  {
    if b == [] {
      assert a + b == a;
    } else {
      var init, last := b[..|b| - 1], b[|b| - 1];
      NewOnesAppend(records, a, init);
      AddAppend(records, a, init);
      assert (a + b)[..|a + b| - 1] == a + init;
      assert (a + b)[|a + b| - 1] == last;
    }
  }

  // ----- enumeration data

  datatype EnumTask = EnumTask(name: string, id: string, records: seq<RR>)

  datatype EnumFramework = EnumFramework(name: string, tasks: seq<EnumTask>)

  /** There is a task to enumerate records under. */
  predicate Open(e: seq<EnumFramework>) { e != [] && e[|e| - 1].tasks != [] }

  /** Appends to the last task of the last framework. */
  function WithRecords(e: seq<EnumFramework>, rs: seq<RR>): (r: seq<EnumFramework>)
    requires Open(e)
    ensures Open(r)
  {
    var f := e[|e| - 1];
    var t := f.tasks[|f.tasks| - 1];
    e[..|e| - 1] + [f.(tasks := f.tasks[..|f.tasks| - 1] + [t.(records := t.records + rs)])]
  }

  lemma WithRecordsTwice(e: seq<EnumFramework>, a: seq<RR>, b: seq<RR>)
    requires Open(e)
    ensures WithRecords(WithRecords(e, a), b) == WithRecords(e, a + b)
    ensures WithRecords(e, []) == e
  {
    var f := e[|e| - 1];
    var t := f.tasks[|f.tasks| - 1];
    assert t.records + [] == t.records;
    assert f.tasks[..|f.tasks| - 1] + [t] == f.tasks;
    assert e[..|e| - 1] + [f] == e;
    assert (t.records + a) + b == t.records + (a + b);
  }

  /** Records and enumeration together. */
  datatype Gen = Gen(records: set<RR>, enumData: seq<EnumFramework>)

  /** Inserting a list of task records: each new one is also enumerated. */
  function InsertTaskRRs(g: Gen, events: seq<RR>): Gen
    requires Open(g.enumData)
  {
    Gen(AddEvents(g.records, events), WithRecords(g.enumData, NewOnes(g.records, events)))
  }

  lemma {:induction false} InsertAppend(g: Gen, a: seq<RR>, b: seq<RR>)
    requires Open(g.enumData)
    ensures InsertTaskRRs(InsertTaskRRs(g, a), b) == InsertTaskRRs(g, a + b)
  {
    NewOnesAppend(g.records, a, b);
    AddAppend(g.records, a, b);
    WithRecordsTwice(g.enumData, NewOnes(g.records, a), NewOnes(AddEvents(g.records, a), b));
  }

  /** Step of a loop over the list. */
  lemma {:induction false} InsertNext(g: Gen, events: seq<RR>, i: nat)
    requires Open(g.enumData) && i < |events|
    ensures InsertTaskRRs(InsertTaskRRs(g, events[..i]), [events[i]]) == InsertTaskRRs(g, events[..i + 1])
  {
    InsertAppend(g, events[..i], [events[i]]);
    assert events[..i + 1] == events[..i] + [events[i]];
  }

  lemma InsertNothing(g: Gen)
    requires Open(g.enumData)
    ensures InsertTaskRRs(g, []) == g
  {
    WithRecordsTwice(g.enumData, [], []);
    assert AddEvents(g.records, []) == g.records;
  }

  // ----- frameworks and slaves

  function Tail(domain: string): string { "." + domain + "." }

  function Fragment(cfg: Config, name: string): string { FragmentOf(name, cfg.env.spec) }

  function FrameworkHostPort(f: Framework): (string, string) {
    match f.pid case Some(p) => p case None => (f.hostname, "")
  }

  function FrameworkList(cfg: Config, f: Framework): seq<RR> {
    var hp := FrameworkHostPort(f);
    match cfg.env.hostToIP4(hp.0)
    case None => []
    case Some(address) =>
      var a := Fragment(cfg, f.name) + Tail(cfg.domain);
      [RR(A, a, address)] +
      if hp.1 == "" then [] else [RR(SRV, "_framework._tcp." + a, JoinHostPort(a, hp.1))]
  }

  function FrameworkEvents(cfg: Config): Framework -> seq<RR> { (f: Framework) => FrameworkList(cfg, f) }

  function SlaveList(cfg: Config, s: Slave): seq<RR> {
    match cfg.env.hostToIP4(s.host)
    case None => []
    case Some(address) =>
      var a := "slave" + Tail(cfg.domain);
      [RR(A, a, address)] + [RR(SRV, "_slave._tcp" + Tail(cfg.domain), JoinHostPort(a, s.port))]
  }

  function SlaveEvents(cfg: Config): Slave -> seq<RR> { (s: Slave) => SlaveList(cfg, s) }

  function SlaveAddress(cfg: Config, s: Slave): string {
    match cfg.env.hostToIP4(s.host) case Some(address) => address case None => Fragment(cfg, s.host)
  }

  function SlaveAddresses(cfg: Config, slaves: seq<Slave>): map<string, string> {
    if slaves == [] then map[]
    else
      var last := slaves[|slaves| - 1];
      SlaveAddresses(cfg, slaves[..|slaves| - 1])[last.id := SlaveAddress(cfg, last)]
  }

  // ----- masters

  /** The numbering loop: records so far, the next index, whether the leader has one. */
  datatype Numbering = Numbering(records: set<RR>, idx: nat, listed: bool)

  function MasterName(domain: string): string { "master" + Tail(domain) }

  function MasterNName(domain: string, n: nat): string { "master" + Itoa(n) + Tail(domain) }

  function NumberMaster(m: Numbering, domain: string, leaderAddress: string, master: string): Numbering {
    match Cut(master, ':')
    case None => m
    case Some(p) =>
      var general := RR(A, MasterName(domain), p.0);
      var isLeader := master == leaderAddress;
      if !isLeader && (p.0 == "" || general in m.records) then m
      else if isLeader && m.listed then m
      else
        var records := if isLeader then m.records else m.records + {general};
        Numbering(AddEvents(records, [RR(A, MasterNName(domain, m.idx), p.0)]), m.idx + 1, m.listed || isLeader)
  }

  function NumberMasters(m: Numbering, domain: string, leaderAddress: string, masters: seq<string>): Numbering {
    if masters == [] then m
    else NumberMaster(NumberMasters(m, domain, leaderAddress, masters[..|masters| - 1]), domain, leaderAddress,
      masters[|masters| - 1])
  }

  /** The address after the `@`, taken apart at the colon. */
  function LeaderAddress(leader: string): Option<(string, string, string)> {
    var h := Split(leader, '@');
    if |h| < 2 then None
    else match Cut(h[1], ':') case None => None case Some(p) => Some((h[1], p.0, p.1))
  }

  function LeaderEvents(domain: string, ip: string, port: string): seq<RR> {
    var host := "leader" + Tail(domain) + ":" + port;
    [RR(A, "leader" + Tail(domain), ip), RR(A, MasterName(domain), ip),
     RR(SRV, "_leader._tcp" + Tail(domain), host), RR(SRV, "_leader._udp" + Tail(domain), host)]
  }

  function MasterPhase(records: set<RR>, domain: string, masters: seq<string>, leader: string): set<RR> {
    match LeaderAddress(leader)
    case None => records
    case Some(l) => NumberAll(records, domain, masters, l.0, l.1, l.2)
  }

  function NumberAll(
    records: set<RR>, domain: string, masters: seq<string>, leaderAddress: string, ip: string, port: string): set<RR> {
    var start := Numbering(AddEvents(records, LeaderEvents(domain, ip, port)), 0, false);
    var m := NumberMasters(start, domain, leaderAddress, masters);
    if m.listed then m.records else AddEvents(m.records, [RR(A, MasterNName(domain, m.idx), ip)])
  }

  // ----- tasks

  function SlaveIDTail(cfg: Config, slaveID: string): string {
    var fields := Split(slaveID, '-');
    cfg.env.lower(fields[|fields| - 1])
  }

  /** The names a task is known by: with discovery info its name as given and as a label. */
  function TaskNames(cfg: Config, t: Task): seq<string> {
    if HasDiscoveryInfo(t) then [t.discoveryName, cfg.env.spec(t.discoveryName)] else [cfg.env.spec(t.name)]
  }

  function Canonical(cfg: Config, f: Framework, t: Task, taskName: string): string {
    taskName + "-" + cfg.env.hash(t.id) + "-" + SlaveIDTail(cfg, t.slaveID) + "." + Fragment(cfg, f.name)
  }

  function TaskAddressEvents(cfg: Config, f: Framework, t: Task, taskName: string): seq<RR> {
    var tail := Tail(cfg.domain);
    var canonical, arec := Canonical(cfg, f, t, taskName), taskName + "." + Fragment(cfg, f.name);
    var taskIP := IPOf(t, cfg.ipSources, cfg.env.parseIP);
    [RR(A, arec + tail, taskIP), RR(A, canonical + tail, taskIP),
     RR(A, arec + ".slave" + tail, t.slaveIP), RR(A, canonical + ".slave" + tail, t.slaveIP)]
  }

  function Subdomains(t: Task): seq<string> { if HasDiscoveryInfo(t) then ["slave"] else ["slave", ""] }

  function PortChain(cfg: Config, f: Framework, t: Task, taskName: string, port: string): Chain {
    var target := Canonical(cfg, f, t, taskName) + ".slave" + Tail(cfg.domain) + ":" + port;
    WithProtocol("", Fragment(cfg, f.name), WithSubdomains(Subdomains(t), AsSRV(target, Tail(cfg.domain))))
  }

  function DiscoveryChain(cfg: Config, f: Framework, t: Task, taskName: string, p: DiscoveryPort): Chain {
    var target := Canonical(cfg, f, t, taskName) + Tail(cfg.domain) + ":" + Itoa(p.number);
    WithProtocol(p.protocol, Fragment(cfg, f.name), WithNamedPort(p.name, AsSRV(target, Tail(cfg.domain))))
  }

  function PortChains(cfg: Config, f: Framework, t: Task, taskName: string): string -> Chain {
    (port: string) => PortChain(cfg, f, t, taskName, port)
  }

  function DiscoveryChains(cfg: Config, f: Framework, t: Task, taskName: string): DiscoveryPort -> Chain {
    (p: DiscoveryPort) => DiscoveryChain(cfg, f, t, taskName, p)
  }

  /** The records of the chain built for each item, run on the task's service name. */
  function ChainEvents<T>(chain: T -> Chain, taskName: string, spec: string -> string): T -> seq<RR> {
    (x: T) => EmitsInPlace(chain(x), ["_" + taskName], spec)
  }

  /** The ports of a task whose port string is readable. */
  function TaskPorts(t: Task): seq<string> {
    match PortsOf(t.portRanges) case Some(ports) => ports case None => []
  }

  function PublishedPorts(t: Task): seq<DiscoveryPort> { if HasDiscoveryInfo(t) then t.discoveryPorts else [] }

  function ContextList(cfg: Config, f: Framework, t: Task, taskName: string): seq<RR> {
    TaskAddressEvents(cfg, f, t, taskName)
    + FlatMap(TaskPorts(t), ChainEvents(PortChains(cfg, f, t, taskName), taskName, cfg.env.spec))
    + FlatMap(PublishedPorts(t), ChainEvents(DiscoveryChains(cfg, f, t, taskName), taskName, cfg.env.spec))
  }

  function ContextEvents(cfg: Config, f: Framework, t: Task): string -> seq<RR> {
    (taskName: string) => ContextList(cfg, f, t, taskName)
  }

  /** Only running tasks on known slaves get records. */
  predicate Eligible(slaveIPs: map<string, string>, t: Task) { t.slaveID in slaveIPs && t.state == TASK_RUNNING }

  function Located(slaveIPs: map<string, string>, t: Task): Task
    requires Eligible(slaveIPs, t)
  {
    t.(slaveIP := slaveIPs[t.slaveID])
  }

  function TaskList(cfg: Config, slaveIPs: map<string, string>, f: Framework, t: Task): seq<RR> {
    if !Eligible(slaveIPs, t) then []
    else
      var located := Located(slaveIPs, t);
      FlatMap(TaskNames(cfg, located), ContextEvents(cfg, f, located))
  }

  function TaskEvents(cfg: Config, slaveIPs: map<string, string>, f: Framework): Task -> seq<RR> {
    (t: Task) => TaskList(cfg, slaveIPs, f, t)
  }

  function FrameworkTaskList(cfg: Config, slaveIPs: map<string, string>, f: Framework): seq<RR> {
    FlatMap(f.tasks, TaskEvents(cfg, slaveIPs, f))
  }

  function FrameworkTaskEvents(cfg: Config, slaveIPs: map<string, string>): Framework -> seq<RR> {
    (f: Framework) => FrameworkTaskList(cfg, slaveIPs, f)
  }

  function TaskPhase(cfg: Config, slaveIPs: map<string, string>, fs: seq<Framework>): seq<RR> {
    FlatMap(fs, FrameworkTaskEvents(cfg, slaveIPs))
  }

  /** The enumeration of a framework's tasks, starting from the records already present. */
  function EnumTasks(
    cfg: Config, slaveIPs: map<string, string>, f: Framework, records: set<RR>, tasks: seq<Task>): seq<EnumTask> {
    if tasks == [] then []
    else
      var init, last := tasks[..|tasks| - 1], tasks[|tasks| - 1];
      EnumTasks(cfg, slaveIPs, f, records, init) +
      EnumEntry(cfg, slaveIPs, f, AddEvents(records, FlatMap(init, TaskEvents(cfg, slaveIPs, f))), last)
  }

  /** The entry of one task, if it is eligible. */
  function EnumEntry(
    cfg: Config, slaveIPs: map<string, string>, f: Framework, before: set<RR>, t: Task): seq<EnumTask> {
    if !Eligible(slaveIPs, t) then []
    else [EnumTask(t.name, t.id, NewOnes(before, TaskList(cfg, slaveIPs, f, t)))]
  }

  lemma EnumTasksNext(
    cfg: Config, slaveIPs: map<string, string>, f: Framework, records: set<RR>, tasks: seq<Task>, i: nat)
    requires i < |tasks|
    ensures EnumTasks(cfg, slaveIPs, f, records, tasks[..i + 1]) ==
            EnumTasks(cfg, slaveIPs, f, records, tasks[..i]) +
            EnumEntry(cfg, slaveIPs, f, AddEvents(records, FlatMap(tasks[..i], TaskEvents(cfg, slaveIPs, f))), tasks[i])
  {
    assert tasks[..i + 1][..i] == tasks[..i];
  }

  function EnumFrameworks(
    cfg: Config, slaveIPs: map<string, string>, records: set<RR>, fs: seq<Framework>): seq<EnumFramework> {
    if fs == [] then []
    else
      var init, last := fs[..|fs| - 1], fs[|fs| - 1];
      EnumFrameworks(cfg, slaveIPs, records, init) +
      [EnumFramework(last.name, EnumTasks(cfg, slaveIPs, last, AddEvents(records, TaskPhase(cfg, slaveIPs, init)),
        last.tasks))]
  }

  lemma EnumFrameworksNext(cfg: Config, slaveIPs: map<string, string>, records: set<RR>, fs: seq<Framework>, i: nat)
    requires i < |fs|
    ensures EnumFrameworks(cfg, slaveIPs, records, fs[..i + 1]) ==
            EnumFrameworks(cfg, slaveIPs, records, fs[..i]) +
            [EnumFramework(fs[i].name, EnumTasks(cfg, slaveIPs, fs[i],
              AddEvents(records, TaskPhase(cfg, slaveIPs, fs[..i])), fs[i].tasks))]
  {
    assert fs[..i + 1][..i] == fs[..i];
  }

  // ----- the whole transformation

  /** The records before the task phase. */
  function BaseRecords(cfg: Config, sj: State): set<RR> {
    var frameworks := AddEvents({}, FlatMap(sj.frameworks, FrameworkEvents(cfg)));
    var slaves := AddEvents(frameworks, FlatMap(sj.slaves, SlaveEvents(cfg)));
    MasterPhase(slaves, cfg.domain, cfg.masters, sj.leader)
  }

  function FinalRecords(cfg: Config, sj: State): set<RR> {
    AddEvents(BaseRecords(cfg, sj), TaskPhase(cfg, SlaveAddresses(cfg, sj.slaves), sj.frameworks))
  }
}
