/** The generation chains of SRV owner names (records/chains.go). A chain is a value here
    instead of a closure; the links still rewrite the slice they are given in place. */
module Chains {
  import opened Sequences

  datatype Kind = A | SRV

  /** One DNS record: the owner name and the host it maps to. */
  datatype RR = RR(kind: Kind, name: string, host: string)

  datatype Chain =
    | AsSRV(target: string, tail: string)
    | WithProtocol(protocol: string, framework: string, next: Chain)
    | WithSubdomains(subdomains: seq<string>, next: Chain)
    | WithNamedPort(portName: string, next: Chain)

  function Suffixed(suffix: string): string -> string { (r: string) => r + suffix }

  function Prefixed(prefix: string): string -> string { (r: string) => prefix + r }

  function Map(rs: seq<string>, f: string -> string): (m: seq<string>)
    ensures |m| == |rs|
  {
    seq(|rs|, i requires 0 <= i < |rs| => f(rs[i]))
  }

  // ----- the pure meaning of a chain

  /** The protocols a record is generated for: tcp and udp if none is given. */
  function Protocols(protocol: string, spec: string -> string): seq<string> {
    if spec(protocol) != "" then [spec(protocol)] else ["tcp", "udp"]
  }

  function ProtocolSuffix(rs: seq<string>, framework: string): string -> seq<string> {
    (p: string) => Map(rs, Suffixed("._" + p + "." + framework))
  }

  function SubdomainSuffix(rs: seq<string>): string -> seq<string> {
    (s: string) => if s == "" then rs else Map(rs, Suffixed("." + s))
  }

  function SrvFor(target: string, tail: string): string -> seq<RR> {
    (r: string) => [RR(SRV, r + tail, target)]
  }

  /** The records a chain emits for a list of names: a cross product, one factor a link. */
  function Emits(c: Chain, rs: seq<string>, spec: string -> string): seq<RR> {
    match c
    case AsSRV(target, tail) => FlatMap(rs, SrvFor(target, tail))
    case WithProtocol(protocol, framework, next) =>
      Emits(next, FlatMap(Protocols(protocol, spec), ProtocolSuffix(rs, framework)), spec)
    case WithSubdomains(subdomains, next) =>
      Emits(next, if subdomains == [] then rs else FlatMap(subdomains, SubdomainSuffix(rs)), spec)
    case WithNamedPort(portName, next) =>
      if spec(portName) == "" then Emits(next, rs, spec)
      else Emits(next, rs, spec) + Emits(next, Map(rs, Prefixed("_" + spec(portName) + ".")), spec)
  }

  // ----- what a chain does to the slice it is given

  /** The contents of the argument slice after the chain has run. */
  function Leaves(c: Chain, rs: seq<string>, spec: string -> string): (r: seq<string>)
    ensures |r| == |rs|
    decreases Links(c)
  {
    match c
    case AsSRV(_, _) => rs
    case WithProtocol(protocol, framework, next) =>
      if spec(protocol) == "" then rs
      else Leaves(next, Map(rs, Suffixed("._" + spec(protocol) + "." + framework)), spec)
    case WithSubdomains(subdomains, next) => if subdomains == [] then Leaves(next, rs, spec) else rs
    case WithNamedPort(portName, next) =>
      if spec(portName) == "" then Leaves(next, rs, spec)
      else Leaves(Ran(next, spec), Map(Leaves(next, rs, spec), Prefixed("_" + spec(portName) + ".")), spec)
  }

  /** The number of links. */
  function Links(c: Chain): nat {
    match c
    case AsSRV(_, _) => 0
    case WithProtocol(_, _, next) => 1 + Links(next)
    case WithSubdomains(_, next) => 1 + Links(next)
    case WithNamedPort(_, next) => 1 + Links(next)
  }

  /** The chain after it has run: a protocol link overwrites its protocol with the label of
      it, so that a second run takes the label of the label. */
  function Ran(c: Chain, spec: string -> string): (r: Chain)
    ensures Links(r) == Links(c)
    decreases Links(c)
  {
    match c
    case AsSRV(_, _) => c
    case WithProtocol(protocol, framework, next) => WithProtocol(spec(protocol), framework, Ran(next, spec))
    case WithSubdomains(subdomains, next) => WithSubdomains(subdomains, Ran(next, spec))
    case WithNamedPort(portName, next) =>
      WithNamedPort(portName, if spec(portName) == "" then Ran(next, spec) else Ran(Ran(next, spec), spec))
  }

  /** The records emitted when every link shares the slice with the next one: a named port
      prefixes whatever the first pass left in it, and runs what the first pass left of
      the links behind it. */
  function EmitsInPlace(c: Chain, rs: seq<string>, spec: string -> string): seq<RR>
    decreases Links(c)
  {
    match c
    case AsSRV(target, tail) => FlatMap(rs, SrvFor(target, tail))
    case WithProtocol(protocol, framework, next) =>
      EmitsInPlace(next, FlatMap(Protocols(protocol, spec), ProtocolSuffix(rs, framework)), spec)
    case WithSubdomains(subdomains, next) =>
      EmitsInPlace(next, if subdomains == [] then rs else FlatMap(subdomains, SubdomainSuffix(rs)), spec)
    case WithNamedPort(portName, next) =>
      if spec(portName) == "" then EmitsInPlace(next, rs, spec)
      else EmitsInPlace(next, rs, spec)
           + EmitsInPlace(Ran(next, spec), Map(Leaves(next, rs, spec), Prefixed("_" + spec(portName) + ".")), spec)
  }

  /** The chain leaves its argument slice as it was. */
  predicate ReadOnly(c: Chain, spec: string -> string) {
    match c
    case AsSRV(_, _) => true
    case WithProtocol(protocol, _, _) => spec(protocol) == ""
    case WithSubdomains(subdomains, next) => subdomains != [] || ReadOnly(next, spec)
    case WithNamedPort(portName, next) => spec(portName) == "" && ReadOnly(next, spec)
  }

  /** A second run of the chain finds the protocols of the first. */
  predicate Settled(c: Chain, spec: string -> string) {
    match c
    case AsSRV(_, _) => true
    case WithProtocol(protocol, _, next) => spec(spec(protocol)) == spec(protocol) && Settled(next, spec)
    case WithSubdomains(_, next) => Settled(next, spec)
    case WithNamedPort(_, next) => Settled(next, spec)
  }

  /** Behind every named port only links that leave the slice alone and can be run twice. */
  predicate WellOrdered(c: Chain, spec: string -> string) {
    match c
    case AsSRV(_, _) => true
    case WithProtocol(_, _, next) => WellOrdered(next, spec)
    case WithSubdomains(_, next) => WellOrdered(next, spec)
    case WithNamedPort(portName, next) =>
      (spec(portName) == "" || (ReadOnly(next, spec) && Settled(next, spec))) && WellOrdered(next, spec)
  }

  lemma {:induction false} ReadOnlyLeaves(c: Chain, rs: seq<string>, spec: string -> string)
    requires ReadOnly(c, spec)
    ensures Leaves(c, rs, spec) == rs
  {
    match c
    case AsSRV(_, _) =>
    case WithProtocol(_, _, _) =>
    case WithSubdomains(subdomains, next) => if subdomains == [] { ReadOnlyLeaves(next, rs, spec); }
    case WithNamedPort(_, next) => ReadOnlyLeaves(next, rs, spec);
  }

  /** Running a settled chain changes neither what it emits nor its order. */
  lemma {:induction false} SettledRan(c: Chain, rs: seq<string>, spec: string -> string)
    requires Settled(c, spec)
    ensures Settled(Ran(c, spec), spec) && Emits(Ran(c, spec), rs, spec) == Emits(c, rs, spec)
    decreases Links(c)
  {
    match c
    case AsSRV(_, _) =>
    case WithProtocol(protocol, framework, next) =>
      SettledRan(next, FlatMap(Protocols(protocol, spec), ProtocolSuffix(rs, framework)), spec);
    case WithSubdomains(subdomains, next) =>
      SettledRan(next, if subdomains == [] then rs else FlatMap(subdomains, SubdomainSuffix(rs)), spec);
    case WithNamedPort(portName, next) =>
      var prefixed := Map(rs, Prefixed("_" + spec(portName) + "."));
      SettledRan(next, rs, spec);
      SettledRan(next, prefixed, spec);
      SettledRan(Ran(next, spec), rs, spec);
      SettledRan(Ran(next, spec), prefixed, spec);
  }

  lemma {:induction false} SettledOrder(c: Chain, spec: string -> string)
    requires Settled(c, spec)
    ensures Settled(Ran(c, spec), spec)
    ensures ReadOnly(Ran(c, spec), spec) == ReadOnly(c, spec) && WellOrdered(Ran(c, spec), spec) == WellOrdered(c, spec)
    decreases Links(c)
  {
    match c
    case AsSRV(_, _) =>
    case WithProtocol(_, _, next) => SettledOrder(next, spec);
    case WithSubdomains(_, next) => SettledOrder(next, spec);
    case WithNamedPort(_, next) =>
      SettledOrder(next, spec);
      SettledOrder(Ran(next, spec), spec);
  }

  /** Well-ordered chains refine the cross product, in spite of the shared slice and of the
      protocols they overwrite. */
  lemma {:induction false} InPlaceRefinesPure(c: Chain, rs: seq<string>, spec: string -> string)
    requires WellOrdered(c, spec)
    ensures EmitsInPlace(c, rs, spec) == Emits(c, rs, spec)
    decreases Links(c)
  {
    match c
    case AsSRV(_, _) =>
    case WithProtocol(protocol, framework, next) =>
      InPlaceRefinesPure(next, FlatMap(Protocols(protocol, spec), ProtocolSuffix(rs, framework)), spec);
    case WithSubdomains(subdomains, next) =>
      InPlaceRefinesPure(next, if subdomains == [] then rs else FlatMap(subdomains, SubdomainSuffix(rs)), spec);
    case WithNamedPort(portName, next) =>
      InPlaceRefinesPure(next, rs, spec);
      if spec(portName) != "" {
        var prefixed := Map(rs, Prefixed("_" + spec(portName) + "."));
        ReadOnlyLeaves(next, rs, spec);
        SettledOrder(next, spec);
        SettledRan(next, prefixed, spec);
        InPlaceRefinesPure(Ran(next, spec), prefixed, spec);
      }
  }

  /** The order of the links matters: with the named port in front of the protocol, the
      prefixed names carry a protocol twice. */
  lemma {:induction false} WrongOrderDiffers(
    r: string, protocol: string, portName: string, target: string, tail: string, spec: string -> string)
    requires spec(protocol) != "" && spec(portName) != ""
    ensures var c := WithNamedPort(portName, WithProtocol(protocol, "", AsSRV(target, tail)));
            EmitsInPlace(c, [r], spec) != Emits(c, [r], spec)
  {
    var suffix, prefix := "._" + spec(protocol) + ".", "_" + spec(portName) + ".";
    var inner := WithProtocol(protocol, "", AsSRV(target, tail));
    OneEmission(r, protocol, target, tail, spec);
    OneEmission(prefix + r, protocol, target, tail, spec);
    assert Map([r], Prefixed(prefix)) == [prefix + r];
    assert "._" + spec(protocol) + "." + "" == suffix;
    assert Map([r], Suffixed(suffix)) == [r + suffix];
    assert Leaves(inner, [r], spec) == [r + suffix];
    assert Map([r + suffix], Prefixed(prefix)) == [prefix + (r + suffix)];
    var first, wanted := RR(SRV, r + suffix + tail, target), RR(SRV, (prefix + r) + suffix + tail, target);
    var shared := EmitsInPlace(Ran(inner, spec), [prefix + (r + suffix)], spec);
    assert EmitsInPlace(WithNamedPort(portName, inner), [r], spec) == [first] + shared;
    assert Emits(WithNamedPort(portName, inner), [r], spec) == [first] + [wanted];
    assert Ran(inner, spec) == WithProtocol(spec(protocol), "", AsSRV(target, tail));
    LongerEmission(prefix + (r + suffix), spec(protocol), target, tail, spec);
    assert ([first] + shared)[1] == shared[0];
  }

  /** Whatever the protocol, the first emitted name is longer than the name with its tail. */
  lemma {:induction false} LongerEmission(
    r: string, protocol: string, target: string, tail: string, spec: string -> string)
    ensures var e := EmitsInPlace(WithProtocol(protocol, "", AsSRV(target, tail)), [r], spec);
            e != [] && |e[0].name| > |r + tail|
  {
    var c := WithProtocol(protocol, "", AsSRV(target, tail));
    var ps := Protocols(protocol, spec);
    var names := FlatMap(ps, ProtocolSuffix([r], ""));
    FirstOfFlatMap(ps, ProtocolSuffix([r], ""));
    assert Map([r], Suffixed("._" + ps[0] + "." + ""))[0] == r + ("._" + ps[0] + "." + "");
    FirstOfFlatMap(names, SrvFor(target, tail));
    assert EmitsInPlace(AsSRV(target, tail), names, spec) == FlatMap(names, SrvFor(target, tail));
  }

  lemma {:induction false} FirstOfFlatMap<X, Y>(s: seq<X>, f: X -> seq<Y>)
    requires s != [] && f(s[0]) != []
    ensures FlatMap(s, f) != [] && FlatMap(s, f)[0] == f(s[0])[0]
  {
    assert [s[0]] + s[1..] == s;
    FlatMapAppend([s[0]], s[1..], f);
    FlatMapOne(s[0], f);
  }

  lemma OneEmission(r: string, protocol: string, target: string, tail: string, spec: string -> string)
    requires spec(protocol) != ""
    ensures var c := WithProtocol(protocol, "", AsSRV(target, tail));
            var e := [RR(SRV, r + ("._" + spec(protocol) + ".") + tail, target)];
            Emits(c, [r], spec) == e && EmitsInPlace(c, [r], spec) == e
  {
    var suffix := "._" + spec(protocol) + "." + "";
    assert suffix == "._" + spec(protocol) + ".";
    FlatMapOne(spec(protocol), ProtocolSuffix([r], ""));
    assert Map([r], Suffixed(suffix)) == [r + suffix];
    FlatMapOne(r + suffix, SrvFor(target, tail));
  }

  // ----- the links on arrays

  /** `records[i] += suffix` for every i. */
  method AppendToEach(records: array<string>, suffix: string)
    modifies records
    ensures records[..] == Map(old(records[..]), Suffixed(suffix))
  {
    for i := 0 to records.Length
      invariant forall k :: 0 <= k < i ==> records[k] == old(records[k]) + suffix
      invariant forall k :: i <= k < records.Length ==> records[k] == old(records[k])
    {
      records[i] := records[i] + suffix;
    }
  }

  /** `records[i] = prefix + records[i]` for every i. */
  method PrependToEach(records: array<string>, prefix: string)
    modifies records
    ensures records[..] == Map(old(records[..]), Prefixed(prefix))
  {
    for i := 0 to records.Length
      invariant forall k :: 0 <= k < i ==> records[k] == prefix + old(records[k])
      invariant forall k :: i <= k < records.Length ==> records[k] == old(records[k])
    {
      records[i] := prefix + records[i];
    }
  }

  /** The doubling of withProtocol: `append(records, records...)` and then the two halves
      rewritten in step. */
  method DoubleForProtocols(records: array<string>, framework: string) returns (doubled: array<string>)
    ensures fresh(doubled)
    ensures doubled[..] == FlatMap(["tcp", "udp"], ProtocolSuffix(records[..], framework))
  {
    var n := records.Length;
    doubled := new string[2 * n](
      k requires 0 <= k < 2 * n reads records => if k < n then records[k] else records[k - n]);
    var i, j := 0, n;
    while j < 2 * n
      invariant 0 <= i <= n && j == n + i
      invariant forall k :: 0 <= k < i ==> doubled[k] == records[k] + "._tcp." + framework
      invariant forall k :: i <= k < n ==> doubled[k] == records[k]
      invariant forall k :: n <= k < n + i ==> doubled[k] == records[k - n] + "._udp." + framework
      invariant forall k :: n + i <= k < 2 * n ==> doubled[k] == records[k - n]
    {
      doubled[i] := doubled[i] + "._tcp." + framework;
      doubled[j] := doubled[j] + "._udp." + framework;
      i, j := i + 1, j + 1;
    }
    DoubledIs(records[..], framework, doubled[..]);
  }

  lemma DoubledIs(rs: seq<string>, framework: string, ds: seq<string>)
    requires |ds| == 2 * |rs|
    requires forall k :: 0 <= k < |rs| ==> ds[k] == rs[k] + "._tcp." + framework
    requires forall k :: |rs| <= k < 2 * |rs| ==> ds[k] == rs[k - |rs|] + "._udp." + framework
    ensures ds == FlatMap(["tcp", "udp"], ProtocolSuffix(rs, framework))
  {
    var f := ProtocolSuffix(rs, framework);
    FlatMapAppend(["tcp"], ["udp"], f);
    FlatMapOne("tcp", f);
    FlatMapOne("udp", f);
    assert ["tcp"] + ["udp"] == ["tcp", "udp"];
    assert "._" + "tcp" + "." + framework == "._tcp." + framework;
    assert "._" + "udp" + "." + framework == "._udp." + framework;
    forall k | 0 <= k < |ds| ensures ds[k] == (f("tcp") + f("udp"))[k] {
      if k < |rs| {
        assert rs[k] + "._tcp." + framework == rs[k] + ("._tcp." + framework);
      } else {
        assert rs[k - |rs|] + "._udp." + framework == rs[k - |rs|] + ("._udp." + framework);
      }
    }
  }

  /** withSubdomains: one block of tmp for each subdomain, filled at a moving offset. */
  method FillSubdomains(records: array<string>, subdomains: seq<string>) returns (tmp: array<string>)
    ensures fresh(tmp)
    ensures tmp[..] == FlatMap(subdomains, SubdomainSuffix(records[..]))
  {
    var recordLen := records.Length;
    ghost var f := SubdomainSuffix(records[..]);
    tmp := new string[recordLen * |subdomains|](_ => "");
    var offset := 0;
    for s := 0 to |subdomains|
      invariant offset == recordLen * s <= tmp.Length
      invariant fresh(tmp) && f == SubdomainSuffix(records[..])
      invariant tmp[..][..offset] == FlatMap(subdomains[..s], f)
    {
      BlockFits(recordLen, s, |subdomains|);
      ghost var before := tmp[..];
      FillBlock(records, subdomains[s], tmp, offset);
      FlatMapNext(subdomains, s, f);
      PrefixGrows(before[..offset], f(subdomains[s]), before[offset + recordLen..]);
      offset := offset + recordLen;
    }
    assert subdomains[..|subdomains|] == subdomains;
  }

  lemma PrefixGrows(prefix: seq<string>, block: seq<string>, rest: seq<string>)
    ensures (prefix + block + rest)[..|prefix| + |block|] == prefix + block
  {
  }

  lemma BlockFits(len: nat, s: nat, n: nat)
    requires s < n
    ensures len * s + len == len * (s + 1) <= len * n
  {
    assert len * n - len * (s + 1) == len * (n - s - 1);
  }

  method FillBlock(records: array<string>, subdomain: string, tmp: array<string>, offset: nat)
    requires records != tmp && offset + records.Length <= tmp.Length
    modifies tmp
    ensures tmp[..] == old(tmp[..])[..offset] + SubdomainSuffix(records[..])(subdomain) +
            old(tmp[..])[offset + records.Length..]
  {
    for i := 0 to records.Length
      invariant forall k :: 0 <= k < offset ==> tmp[k] == old(tmp[k])
      invariant forall k :: offset + i <= k < tmp.Length ==> tmp[k] == old(tmp[k])
      invariant forall k :: offset <= k < offset + i ==>
                  tmp[k] == if subdomain == "" then records[k - offset] else records[k - offset] + ("." + subdomain)
    {
      tmp[offset + i] := if subdomain == "" then records[i] else records[i] + ("." + subdomain);
    }
  }

  // ----- the two chains that tasks use

  function Sub(s: string): string { if s == "" then "" else "." + s }

  /** `name._proto.framework[.sub]` with the tail of the domain. */
  function ServiceName(name: string, proto: string, framework: string, sub: string, tail: string): string {
    name + ("._" + proto + "." + framework) + Sub(sub) + tail
  }

  function NamePrefixes(portName: string, spec: string -> string): set<string> {
    if spec(portName) == "" then {""} else {"", "_" + spec(portName) + "."}
  }

  lemma {:induction false} MapMember(rs: seq<string>, f: string -> string, y: string)
    ensures y in Map(rs, f) <==> exists r :: r in rs && y == f(r)
  {
    if y in Map(rs, f) {
      var i :| 0 <= i < |rs| && Map(rs, f)[i] == y;
      assert rs[i] in rs;
    }
    if r :| r in rs && y == f(r) {
      var i :| 0 <= i < |rs| && rs[i] == r;
      assert Map(rs, f)[i] == y;
    }
  }

  lemma {:induction false} SrvMember(rs: seq<string>, target: string, tail: string, e: RR)
    ensures e in FlatMap(rs, SrvFor(target, tail)) <==> exists r :: r in rs && e == RR(SRV, r + tail, target)
  {
    FlatMapMember(rs, SrvFor(target, tail), e);
    if r :| r in rs && e in SrvFor(target, tail)(r) { assert e == RR(SRV, r + tail, target); }
    if r :| r in rs && e == RR(SRV, r + tail, target) { assert e in SrvFor(target, tail)(r); }
  }

  lemma {:induction false} ProtocolMember(r: string, framework: string, protocols: seq<string>, y: string)
    ensures y in FlatMap(protocols, ProtocolSuffix([r], framework)) <==>
            exists p :: p in protocols && y == r + ("._" + p + "." + framework)
  {
    var f := ProtocolSuffix([r], framework);
    FlatMapMember(protocols, f, y);
    assert forall p :: f(p) == [r + ("._" + p + "." + framework)] by {
      forall p ensures f(p) == [r + ("._" + p + "." + framework)] {
        assert Map([r], Suffixed("._" + p + "." + framework)) == [r + ("._" + p + "." + framework)];
      }
    }
  }

  lemma {:induction false} SubdomainMember(rs: seq<string>, subdomains: seq<string>, y: string)
    ensures y in FlatMap(subdomains, SubdomainSuffix(rs)) <==>
            exists s, r :: s in subdomains && r in rs && y == r + Sub(s)
  {
    var f := SubdomainSuffix(rs);
    FlatMapMember(subdomains, f, y);
    forall s ensures y in f(s) <==> exists r :: r in rs && y == r + Sub(s) {
      if s == "" {
        assert forall r: string :: r + Sub(s) == r;
      } else {
        MapMember(rs, Suffixed("." + s), y);
        assert forall r: string :: Suffixed("." + s)(r) == r + Sub(s);
      }
    }
  }
}
