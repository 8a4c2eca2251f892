/** The parts of the Mesos state that records are made from (records/state/state.go), and
    the two ways of finding a task's address (resolvers/consul/utils.go has the second). */
module MesosState {
  import opened Sequences
  import opened Text

  datatype KeyValue = KeyValue(key: string, value: string)

  datatype NetworkInfo = NetworkInfo(ipAddresses: seq<string>, ipAddress: string)

  datatype Status = Status(timestamp: real, state: string, labels: seq<KeyValue>, networkInfos: seq<NetworkInfo>)

  datatype DiscoveryPort = DiscoveryPort(protocol: string, number: int, name: string)

  datatype Task = Task(
    id: string, name: string, slaveID: string, state: string, statuses: seq<Status>, portRanges: string,
    discoveryName: string, discoveryPorts: seq<DiscoveryPort>, labels: seq<KeyValue>, slaveIP: string)

  const TASK_RUNNING := "TASK_RUNNING"

  predicate HasDiscoveryInfo(t: Task) { t.discoveryName != "" }

  // ----- port ranges

  datatype Range = Range(lo: int, hi: int)

  /** The decimal strings lo, lo + 1, ..., hi. */
  function Expand(r: Range): (s: seq<string>)
    decreases r.hi - r.lo
  {
    if r.hi < r.lo then [] else Expand(r.(hi := r.hi - 1)) + [Itoa(r.hi)]
  }

  function Expander(): Range -> seq<string> { (r: Range) => Expand(r) }

  /** One element of the list; None when `pz[1]` is out of range. */
  function ParseRange(part: string): Option<Range> {
    var bounds := Split(TrimSpace(part), '-');
    if |bounds| < 2 then None else Some(Range(Atoi(bounds[0]), Atoi(bounds[1])))
  }

  function RangeParser(): string -> Option<Range> { (part: string) => ParseRange(part) }

  function RangePorts(r: Option<Range>): seq<string> { if r == None then [] else Expand(r.value) }

  function PartPorts(parse: string -> Option<Range>): string -> seq<string> {
    (part: string) => RangePorts(parse(part))
  }

  /** The list between the brackets; None when there is no opening bracket. */
  function RangeList(portRanges: string): Option<seq<string>> {
    var rhs := Split(portRanges, '[');
    if |rhs| < 2 then None else Some(Split(Split(rhs[1], ']')[0], ','))
  }

  function PortsOf(portRanges: string): Option<seq<string>> {
    if portRanges == "" || portRanges == "[]" then Some([])
    else match RangeList(portRanges)
      case None => None
      case Some(parts) => ListPorts(parts, RangeParser())
  }

  function ListPorts(parts: seq<string>, parse: string -> Option<Range>): Option<seq<string>> {
    if exists i :: 0 <= i < |parts| && parse(parts[i]) == None then None
    else Some(FlatMap(parts, PartPorts(parse)))
  }

  /** Resources.Ports; None is an index panic. */
  method Ports(portRanges: string) returns (ports: Option<seq<string>>)
    ensures ports == PortsOf(portRanges)
  {
    if portRanges == "" || portRanges == "[]" { return Some([]); }
    var list := RangeList(portRanges);
    if list == None { return None; }
    var ok, yports := ExpandList(list.value, RangeParser());
    if !ok { return None; }
    return Some(yports);
  }

  /** The loop over the elements of the list. */
  method ExpandList(parts: seq<string>, parse: string -> Option<Range>) returns (ok: bool, ports: seq<string>)
    ensures ok <==> forall i :: 0 <= i < |parts| ==> parse(parts[i]).Some?
    ensures ok ==> ports == FlatMap(parts, PartPorts(parse))
  {
    ports := [];
    for i := 0 to |parts|
      invariant forall k :: 0 <= k < i ==> parse(parts[k]).Some?
      invariant ports == FlatMap(parts[..i], PartPorts(parse))
    {
      FlatMapNext(parts, i, PartPorts(parse));
      var r := parse(parts[i]);
      if r == None { return false, ports; }
      ports := AppendPorts(ports, r.value);
    }
    assert parts[..|parts|] == parts;
    ok := true;
  }

  /** The innermost loop. */
  method AppendPorts(ports: seq<string>, r: Range) returns (yports: seq<string>)
    ensures yports == ports + Expand(r)
  {
    yports := ports;
    var t := r.lo;
    while t <= r.hi
      invariant t <= r.hi + 1 || t == r.lo
      invariant yports == ports + Expand(Range(r.lo, t - 1))
    {
      yports := yports + [Itoa(t)];
      t := t + 1;
    }
    assert Expand(Range(r.lo, t - 1)) == Expand(r);
  }

  function PrintRange(r: Range): string { Itoa(r.lo) + "-" + Itoa(r.hi) }

  function PrintParts(rs: seq<Range>): (parts: seq<string>)
    ensures |parts| == |rs|
  {
    seq(|rs|, i requires 0 <= i < |rs| => (if i == 0 then "" else " ") + PrintRange(rs[i]))
  }

  /** The form Mesos prints: `[lo-hi, lo-hi]`. */
  function PrintRanges(rs: seq<Range>): string {
    "[" + Join(PrintParts(rs), ',') + "]"
  }

  lemma {:induction false} ParsePrinted(r: Range, pad: string)
    requires 0 <= r.lo && 0 <= r.hi && pad in {"", " "}
    ensures ParseRange(pad + PrintRange(r)) == Some(r)
  {
    var s := PrintRange(r);
    var a, b := Itoa(r.lo), Itoa(r.hi);
    assert s == a + ['-'] + b;
    assert s[0] == a[0] && s[|s| - 1] == b[|b| - 1];
    TrimPadded(pad, s);
    ItoaAvoids(r.lo, '-');
    ItoaAvoids(r.hi, '-');
    SplitFirst(a, b, '-');
    SplitPlain(b, '-');
    AtoiItoa(r.lo);
    AtoiItoa(r.hi);
  }

  lemma PrintedAvoids(r: Range, pad: string, c: char)
    requires 0 <= r.lo && 0 <= r.hi && pad in {"", " "} && c in {'[', ']', ','}
    ensures c !in pad + PrintRange(r)
  {
    ItoaAvoids(r.lo, c);
    ItoaAvoids(r.hi, c);
  }

  lemma TrimPadded(pad: string, s: string)
    requires pad in {"", " "} && s != "" && s[0] !in WHITE_SPACE && s[|s| - 1] !in WHITE_SPACE
    ensures TrimSpace(pad + s) == s
  {
    var p := pad + s;
    assert SkipForward(p, |pad|, WHITE_SPACE) == |pad|;
    assert SkipForward(p, 0, WHITE_SPACE) == |pad|;
    assert TrimLeft(p, WHITE_SPACE) == s;
    assert SkipBackward(s, |s|, WHITE_SPACE) == |s|;
  }

  lemma {:induction false} PartsRoundTrip(rs: seq<Range>)
    requires forall r :: r in rs ==> 0 <= r.lo && 0 <= r.hi
    ensures ListPorts(PrintParts(rs), RangeParser()) == Some(FlatMap(rs, Expander()))
  {
    var parts := PrintParts(rs);
    forall i | 0 <= i < |rs| ensures ParseRange(parts[i]) == Some(rs[i]) {
      assert rs[i] in rs;
      ParsePrinted(rs[i], if i == 0 then "" else " ");
    }
    FlatMapAligned(parts, rs, PartPorts(RangeParser()), Expander());
  }

  lemma {:induction false} JoinAvoids(parts: seq<string>, sep: char, c: char)
    requires c != sep && forall p :: p in parts ==> c !in p
    ensures c !in Join(parts, sep)
  {
    if |parts| <= 1 {
    } else {
      JoinAvoids(parts[1..], sep, c);
    }
  }

  /** The brackets and commas of the printed form delimit the parts again. */
  lemma {:induction false} ListRoundTrip(rs: seq<Range>)
    requires rs != [] && forall r :: r in rs ==> 0 <= r.lo && 0 <= r.hi
    ensures RangeList(PrintRanges(rs)) == Some(PrintParts(rs))
    ensures PrintRanges(rs) != "" && PrintRanges(rs) != "[]"
  {
    var parts := PrintParts(rs);
    var list := Join(parts, ',');
    forall p, c | p in parts && c in {'[', ']', ','} ensures c !in p {
      var i :| 0 <= i < |parts| && parts[i] == p;
      PrintedAvoids(rs[i], if i == 0 then "" else " ", c);
    }
    JoinAvoids(parts, ',', '[');
    JoinAvoids(parts, ',', ']');
    SplitJoin(parts, ',');
    SplitFirst("", list + "]", '[');
    SplitPlain(list + "]", '[');
    assert PrintRanges(rs) == "" + ['['] + (list + "]");
    assert '[' !in list + "]";
    SplitFirst(list, "", ']');
    assert list + "]" == list + [']'] + "";
    assert |list| >= |parts[0]| >= 1;
    assert |PrintRanges(rs)| >= 3;
  }

  /** Every list of ranges, the empty one included, is recovered from its printed form as
      the ports it covers in order. */
  lemma {:induction false} PortsRoundTrip(rs: seq<Range>)
    requires forall r :: r in rs ==> 0 <= r.lo && 0 <= r.hi
    ensures PortsOf(PrintRanges(rs)) == Some(FlatMap(rs, Expander()))
  {
    if rs == [] {
      assert PrintRanges(rs) == "[" + "" + "]" == "[]";
    } else {
      ListRoundTrip(rs);
      PartsRoundTrip(rs);
    }
  }

  // ----- the status a task's addresses come from

  function Latest(st: seq<Status>): (r: Option<Status>)
    ensures r.Some? ==> r.value in st && r.value.state == TASK_RUNNING && r.value.timestamp > -1.0
    ensures r.Some? ==> forall s :: s in st && s.state == TASK_RUNNING ==> s.timestamp <= r.value.timestamp
    ensures r == None ==> forall s :: s in st && s.state == TASK_RUNNING ==> s.timestamp <= -1.0
  {
    if st == [] then None
    else
      var init, last := st[..|st| - 1], st[|st| - 1];
      assert st == init + [last];
      var prev := Latest(init);
      var ts := if prev.Some? then prev.value.timestamp else -1.0;
      if last.state == TASK_RUNNING && last.timestamp > ts then Some(last) else prev
  }

  /** StatusIPs with the source as a function on statuses. */
  method StatusIPs(st: seq<Status>, src: Status -> seq<string>) returns (ips: seq<string>)
    ensures ips == LatestIPs(st, src)
  {
    var ts, j := -1.0, -1;
    for i := 0 to |st|
      invariant -1 <= j < i
      invariant Latest(st[..i]) == if j < 0 then None else Some(st[j])
      invariant ts == if j < 0 then -1.0 else st[j].timestamp
    {
      assert st[..i + 1][..i] == st[..i];
      if st[i].state == TASK_RUNNING && st[i].timestamp > ts {
        ts, j := st[i].timestamp, i;
      }
    }
    assert st[..|st|] == st;
    if j >= 0 { return src(st[j]); }
    return [];
  }

  function LatestIPs(st: seq<Status>, src: Status -> seq<string>): seq<string> {
    match Latest(st) case None => [] case Some(s) => src(s)
  }

  /** Which status is chosen does not depend on the order of the statuses, when running
      statuses have distinct timestamps. */
  lemma {:induction false} LatestIgnoresOrder(st: seq<Status>, st': seq<Status>)
    requires forall s :: s in st <==> s in st'
    requires forall s, u :: s in st && u in st && s.state == u.state == TASK_RUNNING && s.timestamp == u.timestamp ==>
             s == u
    ensures Latest(st) == Latest(st')
  {
    if Latest(st).Some? && Latest(st').Some? {
      assert Latest(st).value.timestamp == Latest(st').value.timestamp;
    }
  }

  function LabelValues(labels: seq<KeyValue>, key: string): seq<string> {
    if labels == [] then []
    else
      var last := labels[|labels| - 1];
      LabelValues(labels[..|labels| - 1], key) + if last.key == key then [last.value] else []
  }

  function NetworkIPs(infos: seq<NetworkInfo>): seq<string> {
    if infos == [] then []
    else
      var last := infos[|infos| - 1];
      NetworkIPs(infos[..|infos| - 1]) +
      if |last.ipAddresses| > 0 then last.ipAddresses
      else if last.ipAddress != "" then [last.ipAddress] else []
  }

  /** The loop of Labels. */
  method CollectLabels(labels: seq<KeyValue>, key: string) returns (vs: seq<string>)
    ensures vs == LabelValues(labels, key)
  {
    vs := [];
    for i := 0 to |labels|
      invariant vs == LabelValues(labels[..i], key)
    {
      assert labels[..i + 1][..i] == labels[..i];
      if labels[i].key == key { vs := vs + [labels[i].value]; }
    }
    assert labels[..|labels|] == labels;
  }

  /** The loops of networkInfoIPs. */
  method CollectNetworkIPs(infos: seq<NetworkInfo>) returns (ips: seq<string>)
    ensures ips == seq(|infos|, i => "") + NetworkIPs(infos)
  {
    ghost var pad: seq<string> := seq(|infos|, i => "");
    ips := seq(|infos|, i => "");
    for i := 0 to |infos|
      invariant ips == pad + NetworkIPs(infos[..i])
    {
      assert infos[..i + 1][..i] == infos[..i];
      if |infos[i].ipAddresses| > 0 {
        ghost var before := ips;
        for j := 0 to |infos[i].ipAddresses|
          invariant ips == before + infos[i].ipAddresses[..j]
        {
          ips := ips + [infos[i].ipAddresses[j]];
        }
        assert infos[i].ipAddresses[..|infos[i].ipAddresses|] == infos[i].ipAddresses;
      } else if infos[i].ipAddress != "" {
        ips := ips + [infos[i].ipAddress];
      }
    }
    assert infos[..|infos|] == infos;
  }

  /** Labels(key). */
  function Labelled(key: string): Status -> seq<string> { (s: Status) => LabelValues(s.labels, key) }

  /** The source inside networkInfoIPs, which pads its result with empty strings. */
  function Networked(): Status -> seq<string> {
    (s: Status) => seq(|s.networkInfos|, i => "") + NetworkIPs(s.networkInfos)
  }

  const DOCKER_IP_LABEL := "Docker.NetworkSettings.IPAddress"
  const MESOS_IP_LABEL := "MesosContainerizer.NetworkSettings.IPAddress"

  /** The `sources` table; an unknown source yields nothing. */
  function Source(t: Task, source: string): seq<string> {
    if source == "host" then [t.slaveIP]
    else if source == "mesos" then LatestIPs(t.statuses, Labelled(MESOS_IP_LABEL))
    else if source == "docker" then LatestIPs(t.statuses, Labelled(DOCKER_IP_LABEL))
    else if source == "netinfo" then LatestIPs(t.statuses, Networked())
    else []
  }

  // ----- Task.IP

  /** net.ParseIP followed by String; a parsed address never prints as nothing. */
  ghost predicate ParsesToText(parse: string -> Option<string>) {
    forall s :: parse(s).Some? ==> parse(s).value != ""
  }

  function ParseOne(parse: string -> Option<string>): string -> seq<string> {
    (s: string) => IfParsed(parse(s))
  }

  function IfParsed(ip: Option<string>): seq<string> { if ip == None then [] else [ip.value] }

  /** The parsed addresses of one source. */
  function SourceIPs(t: Task, parse: string -> Option<string>): string -> seq<string> {
    (source: string) => FlatMap(Source(t, source), ParseOne(parse))
  }

  function IPsOf(t: Task, srcs: seq<string>, parse: string -> Option<string>): seq<string> {
    FlatMap(srcs, SourceIPs(t, parse))
  }

  function FirstOr(ss: seq<string>): string { if |ss| > 0 then ss[0] else "" }

  function IPOf(t: Task, srcs: seq<string>, parse: string -> Option<string>): string {
    FirstOr(IPsOf(t, srcs, parse))
  }

  /** Task.IP. */
  method IP(t: Task, srcs: seq<string>, parse: string -> Option<string>) returns (ip: string)
    ensures ip == IPOf(t, srcs, parse)
  {
    var ips := [];
    for i := 0 to |srcs|
      invariant ips == FlatMap(srcs[..i], SourceIPs(t, parse))
    {
      FlatMapNext(srcs, i, SourceIPs(t, parse));
      ips := AppendParsed(ips, Source(t, srcs[i]), parse);
    }
    assert srcs[..|srcs|] == srcs;
    if |ips| > 0 { return ips[0]; }
    return "";
  }

  method AppendParsed(ips: seq<string>, found: seq<string>, parse: string -> Option<string>) returns (r: seq<string>)
    ensures r == ips + FlatMap(found, ParseOne(parse))
  {
    r := ips;
    for j := 0 to |found|
      invariant r == ips + FlatMap(found[..j], ParseOne(parse))
    {
      FlatMapNext(found, j, ParseOne(parse));
      match parse(found[j]) {
        case Some(parsed) => r := r + [parsed];
        case None =>
      }
    }
    assert found[..|found|] == found;
  }

  lemma SourceTextNonempty(t: Task, src: string, parse: string -> Option<string>)
    requires ParsesToText(parse)
    ensures "" !in SourceIPs(t, parse)(src)
  {
    FlatMapMember(Source(t, src), ParseOne(parse), "");
  }

  /** A source in front of others has the first say. */
  lemma {:induction false} IPCons(t: Task, src: string, rest: seq<string>, parse: string -> Option<string>)
    requires ParsesToText(parse)
    ensures IPOf(t, [src] + rest, parse) ==
            if IPOf(t, [src], parse) != "" then IPOf(t, [src], parse) else IPOf(t, rest, parse)
  {
    var f := SourceIPs(t, parse);
    FlatMapAppend([src], rest, f);
    FlatMapOne(src, f);
    SourceTextNonempty(t, src, parse);
  }

  // ----- getAddress

  const CALICO_LABEL := "CalicoDocker.NetworkSettings.IPAddress"

  /** What one entry of the lookup order gives. */
  datatype Lookup = Address(address: string) | GiveUp | Fatal

  function LookUp(t: Task, source: string, slaveIP: string, parse: string -> Option<string>): Lookup {
    var key := Split(source, ':');
    if key[0] in {"mesos", "docker", "netinfo", "host"} then Address(IPOf(t, [key[0]], parse))
    else if key[0] == "label" then
      if |key| != 2 then Fatal
      else
        var ips := LatestIPs(t.statuses, Labelled(key[1]));
        var address := FirstOr(ips);
        if address == "" && key[1] == CALICO_LABEL && exists l :: l in t.labels && l.key == "CALICO_IP" then GiveUp
        else Address(address)
    else if key[0] == "fallback" then Address(slaveIP)
    else Address("")
  }

  function LookUpIn(t: Task, slaveIP: string, parse: string -> Option<string>): string -> Lookup {
    (source: string) => LookUp(t, source, slaveIP, parse)
  }

  /** The first entry that settles the address; None is the fatal exit. */
  function FirstSettled(sources: seq<string>, lookUp: string -> Lookup): Option<string> {
    if sources == [] then Some("")
    else match lookUp(sources[0])
      case Address(a) => if a == "" then FirstSettled(sources[1..], lookUp) else Some(a)
      case GiveUp => Some("")
      case Fatal => None
  }

  function AddressOf(t: Task, sources: seq<string>, slaveIP: string, parse: string -> Option<string>): Option<string> {
    FirstSettled(sources, LookUpIn(t, slaveIP, parse))
  }

  /** getAddress. */
  method GetAddress(t: Task, sources: seq<string>, slaveIP: string, parse: string -> Option<string>)
    returns (r: Option<string>)
    ensures r == AddressOf(t, sources, slaveIP, parse)
  {
    var address := "";
    ghost var f := LookUpIn(t, slaveIP, parse);
    for i := 0 to |sources|
      invariant address == ""
      invariant FirstSettled(sources, f) == FirstSettled(sources[i..], f)
    {
      assert sources[i..][1..] == sources[i + 1..];
      var key := Split(sources[i], ':');
      if key[0] in {"mesos", "docker", "netinfo", "host"} {
        address := IP(t, [key[0]], parse);
      } else if key[0] == "label" {
        if |key| != 2 { return None; }
        var addresses := StatusIPs(t.statuses, Labelled(key[1]));
        if |addresses| > 0 { address := addresses[0]; }
        if address == "" && key[1] == CALICO_LABEL {
          for j := 0 to |t.labels|
            invariant forall k :: 0 <= k < j ==> t.labels[k].key != "CALICO_IP"
          {
            if t.labels[j].key == "CALICO_IP" { return Some(""); }
          }
        }
      } else if key[0] == "fallback" {
        address := slaveIP;
      }
      if address != "" { return Some(address); }
    }
    return Some(address);
  }

  ghost predicate PlainSource(s: string) { ':' !in s && s != "label" && s != "fallback" }

  /** A plain source gives the address Task.IP finds in it, if any. */
  lemma {:induction false} PlainLookUp(t: Task, s: string, slaveIP: string, parse: string -> Option<string>)
    requires PlainSource(s)
    ensures LookUp(t, s, slaveIP, parse) == Address(IPOf(t, [s], parse))
  {
    SplitPlain(s, ':');
    FlatMapOne(s, SourceIPs(t, parse));
  }

  /** An entry that gives no address is passed over. */
  lemma SettledStep(s: string, rest: seq<string>, lookUp: string -> Lookup)
    ensures FirstSettled([s] + rest, lookUp) ==
            match lookUp(s)
            case Address(a) => if a == "" then FirstSettled(rest, lookUp) else Some(a)
            case GiveUp => Some("")
            case Fatal => None
  {
    assert ([s] + rest)[1..] == rest;
  }

  /** Plain sources followed by others: the first parsed address, or what the others give. */
  lemma {:induction false} AddressThen(
    t: Task, sources: seq<string>, others: seq<string>, slaveIP: string, parse: string -> Option<string>)
    requires ParsesToText(parse) && forall s :: s in sources ==> PlainSource(s)
    ensures AddressOf(t, sources + others, slaveIP, parse) ==
            if IPOf(t, sources, parse) != "" then Some(IPOf(t, sources, parse))
            else AddressOf(t, others, slaveIP, parse)
  {
    if sources == [] {
      assert sources + others == others;
    } else {
      var s, rest := sources[0], sources[1..];
      assert sources == [s] + rest;
      assert sources + others == [s] + (rest + others);
      SettledStep(s, rest + others, LookUpIn(t, slaveIP, parse));
      PlainLookUp(t, s, slaveIP, parse);
      AddressThen(t, rest, others, slaveIP, parse);
      IPCons(t, s, rest, parse);
    }
  }

  /** On plain sources the two resolvers agree. */
  lemma {:induction false} AddressAgreesWithIP(
    t: Task, sources: seq<string>, slaveIP: string, parse: string -> Option<string>)
    requires ParsesToText(parse) && forall s :: s in sources ==> PlainSource(s)
    ensures AddressOf(t, sources, slaveIP, parse) == Some(IPOf(t, sources, parse))
  {
    AddressThen(t, sources, [], slaveIP, parse);
    assert sources + [] == sources;
  }

  function Blanks(n: nat): seq<string> { if n == 0 then [] else [""] + Blanks(n - 1) }

  lemma {:induction false} BlanksPassedOver(pad: nat, others: seq<string>, lookUp: string -> Lookup)
    requires lookUp("") == Address("")
    ensures FirstSettled(Blanks(pad) + others, lookUp) == FirstSettled(others, lookUp)
  {
    if pad == 0 {
      assert Blanks(0) + others == others;
    } else {
      BlanksPassedOver(pad - 1, others, lookUp);
      assert Blanks(pad) + others == [""] + (Blanks(pad - 1) + others);
      SettledStep("", Blanks(pad - 1) + others, lookUp);
    }
  }

  /** Empty sources in front change nothing, whatever follows them. */
  lemma {:induction false} BlankSourcesIgnored(
    t: Task, pad: nat, others: seq<string>, slaveIP: string, parse: string -> Option<string>)
    ensures AddressOf(t, Blanks(pad) + others, slaveIP, parse) == AddressOf(t, others, slaveIP, parse)
  {
    PlainLookUp(t, "", slaveIP, parse);
    FlatMapOne("", SourceIPs(t, parse));
    BlanksPassedOver(pad, others, LookUpIn(t, slaveIP, parse));
  }

  lemma FallbackAddress(t: Task, slaveIP: string, parse: string -> Option<string>)
    ensures AddressOf(t, ["fallback"], slaveIP, parse) == Some(slaveIP)
  {
    FallbackLookUp(t, "fallback", slaveIP, parse);
    SettledStep("fallback", [], LookUpIn(t, slaveIP, parse));
    assert ["fallback"] + [] == ["fallback"];
  }

  lemma FallbackLookUp(t: Task, source: string, slaveIP: string, parse: string -> Option<string>)
    requires source == "fallback"
    ensures LookUp(t, source, slaveIP, parse) == Address(slaveIP)
  {
    SplitPlain(source, ':');
  }

  /** The list that resolvers/consul/parser.go builds, with its padding of empty sources
      in front and the fallback behind: the address of Task.IP, else the slave's. */
  lemma {:induction false} PaddedLookupOrder(
    t: Task, pad: nat, sources: seq<string>, slaveIP: string, parse: string -> Option<string>)
    requires ParsesToText(parse) && forall s :: s in sources ==> PlainSource(s)
    ensures AddressOf(t, Blanks(pad) + (sources + ["fallback"]), slaveIP, parse) ==
            Some(if IPOf(t, sources, parse) != "" then IPOf(t, sources, parse) else slaveIP)
  {
    BlankSourcesIgnored(t, pad, sources + ["fallback"], slaveIP, parse);
    AddressThen(t, sources, ["fallback"], slaveIP, parse);
    FallbackAddress(t, slaveIP, parse);
  }
}
