/** Answering queries from the record maps (resolvers/builtin/resolver.go), with the
    negative answers of sections 2.1 and 2.2 of RFC 2308 and section 4.2 of RFC 4074. */
module Answers {
  import opened Generator
  import opened HostPort
  import opened Shuffle
  import opened Text

  datatype Qtype = TypeA | TypeSRV | TypeSOA | TypeNS | TypeANY | TypeAAAA | OtherType(code: int)

  datatype Answer = SrvAnswer(name: string, target: string, port: nat) | AddressAnswer(name: string, ip: string)

  datatype Authority = SOA(name: string) | NS(name: string)

  datatype Rcode = Success | NameError

  datatype Reply = Reply(answer: seq<Answer>, extra: seq<Answer>, ns: seq<Authority>, rcode: Rcode)

  function Hosts(m: Rrs, name: string): (hosts: set<string>)
    ensures forall h :: h in hosts <==> name in m && h in m[name]
  {
    if name in m then m[name] else {}
  }

  /** formatSRV; the port is cut to 16 bits. */
  function FormatSRV(question: string, target: string): Option<Answer> {
    match SplitHostPort(target)
    case None => None
    case Some(hp) => Some(SrvAnswer(question, hp.0, Atoi(hp.1) % 0x1_0000))
  }

  /** formatA, with net.ParseIP as a parameter. */
  function FormatA(name: string, host: string, parse: string -> Option<string>): Option<Answer> {
    match parse(host) case None => None case Some(ip) => Some(AddressAnswer(name, ip))
  }

  /** The host part as handleSRV cuts it out. */
  function TargetHost(srv: string): string { Split(srv, ':')[0] }

  ghost predicate DistinctNames(s: seq<Answer>) { forall i, j :: 0 <= i < j < |s| ==> s[i].name != s[j].name }

  /** An extra record belongs to an answered target and carries one of its addresses. */
  ghost predicate ExtraOf(x: Answer, srvs: set<string>, format: string -> Option<Answer>, hostOf: string -> string,
                          addresses: Rrs, parse: string -> Option<string>) {
    exists srv, a :: srv in srvs && format(srv).Some? && a in Hosts(addresses, hostOf(srv)) &&
      FormatA(hostOf(srv), a, parse) == Some(x)
  }

  lemma ExtraIs(x: Answer, srvs: set<string>, srv: string, format: string -> Option<Answer>, hostOf: string -> string,
                addresses: Rrs, parse: string -> Option<string>)
    requires srv in srvs && format(srv).Some?
    requires exists a :: a in Hosts(addresses, hostOf(srv)) && FormatA(hostOf(srv), a, parse) == Some(x)
    ensures ExtraOf(x, srvs, format, hostOf, addresses, parse)
  {
  }

  ghost predicate ExtraFor(
    x: Answer, srvs: set<string>, question: string, addresses: Rrs, parse: string -> Option<string>) {
    ExtraOf(x, srvs, Formatter(question), HostCutter(), addresses, parse)
  }

  ghost predicate NamedIn(host: string, extra: seq<Answer>) { exists i :: 0 <= i < |extra| && extra[i].name == host }

  /** The set that handleSRV keeps to avoid duplicates is the set of names added. */
  ghost predicate Tracked(extra: seq<Answer>, added: set<string>) {
    DistinctNames(extra) && forall n :: n in added <==> NamedIn(n, extra)
  }

  lemma TrackedGrow(extra: seq<Answer>, added: set<string>, x: Answer)
    requires Tracked(extra, added) && x.name !in added
    ensures Tracked(extra + [x], added + {x.name})
  {
    var next := extra + [x];
    forall n ensures n in added + {x.name} <==> NamedIn(n, next) {
      if i :| 0 <= i < |extra| && extra[i].name == n { assert next[i].name == n; }
      assert next[|extra|].name == x.name;
    }
    forall i | 0 <= i < |extra| ensures next[i].name != x.name {
      assert extra[i].name == next[i].name;
    }
  }

  /** A host that has been added has an address that parses. */
  lemma {:induction false} TrackedAddress(
    host: string, extra: seq<Answer>, added: set<string>, srvs: set<string>, format: string -> Option<Answer>,
    hostOf: string -> string, addresses: Rrs, parse: string -> Option<string>)
    requires Tracked(extra, added) && host in added
    requires forall x :: x in extra ==> ExtraOf(x, srvs, format, hostOf, addresses, parse)
    ensures !AllBad(addresses, host, parse)
  {
    var i :| 0 <= i < |extra| && extra[i].name == host;
    assert ExtraOf(extra[i], srvs, format, hostOf, addresses, parse);
  }

  /** One answer for each target that can be formatted. */
  ghost predicate AnswersOf(answers: seq<Answer>, srvs: set<string>, format: string -> Option<Answer>) {
    && (forall a :: a in answers <==> exists srv :: srv in srvs && format(srv) == Some(a))
    && |answers| == |Formatted(srvs, format)|
  }

  lemma AnswersGrow(answers: seq<Answer>, done: set<string>, srv: string, format: string -> Option<Answer>)
    requires AnswersOf(answers, done, format) && srv !in done
    ensures AnswersOf(match format(srv) case None => answers case Some(a) => answers + [a], done + {srv}, format)
  {
    GrowFormatted(done, srv, format);
  }

  // ----- errors of handleSRV

  ghost predicate Unreadable(srvs: set<string>, format: string -> Option<Answer>) {
    exists srv :: srv in srvs && format(srv) == None
  }

  /** Some address of an answered target does not parse. */
  ghost predicate BadAddress(srvs: set<string>, format: string -> Option<Answer>, hostOf: string -> string,
                             addresses: Rrs, parse: string -> Option<string>) {
    exists srv, a :: srv in srvs && format(srv).Some? && a in Hosts(addresses, hostOf(srv)) && parse(a) == None
  }

  ghost predicate AllBad(addresses: Rrs, host: string, parse: string -> Option<string>) {
    Hosts(addresses, host) != {} && forall a :: a in Hosts(addresses, host) ==> parse(a) == None
  }

  /** Some answered target has addresses, none of which parses. */
  ghost predicate Unaddressable(srvs: set<string>, format: string -> Option<Answer>, hostOf: string -> string,
                                addresses: Rrs, parse: string -> Option<string>) {
    exists srv :: srv in srvs && format(srv).Some? && AllBad(addresses, hostOf(srv), parse)
  }

  /** An error is reported for every target that cannot be read or addressed, and for
      nothing but an unreadable target or address. Which address of a host is tried is up
      to the iteration order. */
  ghost predicate ErrorsOf(errs: bool, srvs: set<string>, format: string -> Option<Answer>, hostOf: string -> string,
                           addresses: Rrs, parse: string -> Option<string>) {
    && (Unreadable(srvs, format) || Unaddressable(srvs, format, hostOf, addresses, parse) ==> errs)
    && (errs ==> Unreadable(srvs, format) || BadAddress(srvs, format, hostOf, addresses, parse))
  }

  lemma {:induction false} ErrorsGrow(
    errs: bool, err: bool, done: set<string>, srv: string, format: string -> Option<Answer>, hostOf: string -> string,
    addresses: Rrs, parse: string -> Option<string>)
    requires ErrorsOf(errs, done, format, hostOf, addresses, parse)
    requires format(srv) == None ==> err
    requires format(srv).Some? && AllBad(addresses, hostOf(srv), parse) ==> err
    requires err ==> format(srv) == None || exists a :: a in Hosts(addresses, hostOf(srv)) && parse(a) == None
    ensures ErrorsOf(errs || err, done + {srv}, format, hostOf, addresses, parse)
  {
    var next := done + {srv};
    if err && format(srv).Some? {
      var a :| a in Hosts(addresses, hostOf(srv)) && parse(a) == None;
      assert srv in next && format(srv).Some? && a in Hosts(addresses, hostOf(srv)) && parse(a) == None;
    }
    if errs {
      if Unreadable(done, format) {
        var x :| x in done && format(x) == None;
        assert x in next;
      } else {
        var x, a :| x in done && format(x).Some? && a in Hosts(addresses, hostOf(x)) && parse(a) == None;
        assert x in next;
      }
    }
  }

  /** All addresses of the host can be put into a record. */
  ghost predicate Addressable(addresses: Rrs, host: string, parse: string -> Option<string>) {
    Hosts(addresses, host) != {} && forall a :: a in Hosts(addresses, host) ==> parse(a).Some?
  }

  /** The name has neither an SRV nor an A record. */
  ghost predicate Recordless(As: Rrs, SRVs: Rrs, name: string) {
    (name in SRVs ==> SRVs[name] == {}) && (name in As ==> As[name] == {})
  }

  /** An SRV record with the queried name, and the host and port of one of its targets. */
  ghost predicate IsSrvAnswer(SRVs: Rrs, a: Answer, question: string, name: string) {
    name in SRVs &&
    exists srv :: srv in SRVs[name] && SplitHostPort(srv).Some? &&
      var hp := SplitHostPort(srv).value;
      a == SrvAnswer(question, hp.0, Atoi(hp.1) % 0x1_0000)
  }

  /** An A record with the name, and one of its addresses as it parses. */
  ghost predicate IsAddressAnswer(As: Rrs, parse: string -> Option<string>, a: Answer, name: string) {
    name in As && exists h :: h in As[name] && parse(h).Some? && a == AddressAnswer(name, parse(h).value)
  }

  /** An A record for the host of a target that is answered. */
  ghost predicate IsExtra(As: Rrs, SRVs: Rrs, parse: string -> Option<string>, x: Answer, name: string) {
    && IsAddressAnswer(As, parse, x, x.name)
    && name in SRVs && exists srv :: srv in SRVs[name] && SplitHostPort(srv).Some? && x.name == Split(srv, ':')[0]
  }

  /** All targets whose hosts have addresses, and all of these parse, come with one. */
  ghost predicate ExtrasComplete(As: Rrs, SRVs: Rrs, parse: string -> Option<string>, extra: seq<Answer>,
    name: string) {
    forall srv :: name in SRVs && srv in SRVs[name] && SplitHostPort(srv).Some? ==>
      var host := Split(srv, ':')[0];
      (host in As && As[host] != {} && forall a :: a in As[host] ==> parse(a).Some?) ==> NamedIn(host, extra)
  }

  /** How many records a query of this type is answered with. */
  ghost function AnswerCount(
    As: Rrs, SRVs: Rrs, parse: string -> Option<string>, question: string, name: string, qtype: Qtype): nat
  {
    (if qtype in {TypeSRV, TypeANY} then |Formatted(Hosts(SRVs, name), Formatter(question))| else 0) +
    (if qtype in {TypeA, TypeANY} then |Formatted(Hosts(As, name), AddressFormatter(name, parse))| else 0)
  }

  /** A query of this type comes upon a record that cannot be used. */
  ghost predicate MustFail(
    As: Rrs, SRVs: Rrs, parse: string -> Option<string>, question: string, name: string, qtype: Qtype)
  {
    || (qtype in {TypeSRV, TypeANY} && (Unreadable(Hosts(SRVs, name), Formatter(question)) ||
          Unaddressable(Hosts(SRVs, name), Formatter(question), HostCutter(), As, parse)))
    || (qtype in {TypeA, TypeANY} && exists h :: h in Hosts(As, name) && parse(h) == None)
  }

  /** A query of this type may come upon a record that cannot be used. */
  ghost predicate MayFail(
    As: Rrs, SRVs: Rrs, parse: string -> Option<string>, question: string, name: string, qtype: Qtype)
  {
    || (qtype in {TypeSRV, TypeANY} && (Unreadable(Hosts(SRVs, name), Formatter(question)) ||
          BadAddress(Hosts(SRVs, name), Formatter(question), HostCutter(), As, parse)))
    || (qtype in {TypeA, TypeANY} && exists h :: h in Hosts(As, name) && parse(h) == None)
  }

  /** The answers are exactly the records of the queried type, as many as there are and in
      random order, SRV records drawn before A records; the extra records are addresses of
      answered targets, at most one for a host and one wherever all addresses parse. */
  ghost predicate Replies(
    As: Rrs, SRVs: Rrs, parse: string -> Option<string>, answer: seq<Answer>, extra: seq<Answer>,
    question: string, name: string, qtype: Qtype, rng: nat -> nat)
  {
    && (forall a :: a in answer <==>
          || (qtype in {TypeSRV, TypeANY} && IsSrvAnswer(SRVs, a, question, name))
          || (qtype in {TypeA, TypeANY} && IsAddressAnswer(As, parse, a, name)))
    && |answer| == AnswerCount(As, SRVs, parse, question, name, qtype)
    && (exists srvs, addresses ::
          AllSrv(srvs) && AllAddresses(addresses) && IsShuffled(answer, srvs + addresses, rng))
    && DistinctNames(extra) && (forall x :: x in extra ==> IsExtra(As, SRVs, parse, x, name))
    && (if qtype in {TypeSRV, TypeANY} then ExtrasComplete(As, SRVs, parse, extra, name) else extra == [])
  }

  lemma {:induction false} SrvAnswersAre(SRVs: Rrs, a: Answer, question: string, name: string)
    ensures IsSrvAnswer(SRVs, a, question, name) <==>
            exists srv :: srv in Hosts(SRVs, name) && FormatSRV(question, srv) == Some(a)
  {
    if IsSrvAnswer(SRVs, a, question, name) {
      var srv :| srv in SRVs[name] && SplitHostPort(srv).Some? &&
        var hp := SplitHostPort(srv).value;
        a == SrvAnswer(question, hp.0, Atoi(hp.1) % 0x1_0000);
      assert srv in Hosts(SRVs, name) && FormatSRV(question, srv) == Some(a);
    }
    if srv :| srv in Hosts(SRVs, name) && FormatSRV(question, srv) == Some(a) {
      assert srv in SRVs[name] && SplitHostPort(srv).Some?;
    }
  }

  lemma {:induction false} AddressAnswersAre(As: Rrs, parse: string -> Option<string>, a: Answer, name: string)
    ensures IsAddressAnswer(As, parse, a, name) <==>
            exists h :: h in Hosts(As, name) && FormatA(name, h, parse) == Some(a)
  {
    if IsAddressAnswer(As, parse, a, name) {
      var h :| h in As[name] && parse(h).Some? && a == AddressAnswer(name, parse(h).value);
      assert h in Hosts(As, name) && FormatA(name, h, parse) == Some(a);
    }
    if h :| h in Hosts(As, name) && FormatA(name, h, parse) == Some(a) {
      assert h in As[name] && parse(h).Some?;
    }
  }

  lemma {:induction false} ExtrasAre(
    As: Rrs, SRVs: Rrs, parse: string -> Option<string>, x: Answer, question: string, name: string)
    requires ExtraFor(x, Hosts(SRVs, name), question, As, parse)
    ensures IsExtra(As, SRVs, parse, x, name)
  {
    var srv, a :| srv in Hosts(SRVs, name) && FormatSRV(question, srv).Some? &&
      a in Hosts(As, TargetHost(srv)) && FormatA(TargetHost(srv), a, parse) == Some(x);
    AddressAnswersAre(As, parse, x, TargetHost(srv));
  }

  lemma {:induction false} ExtrasAreComplete(
    As: Rrs, SRVs: Rrs, parse: string -> Option<string>, extra: seq<Answer>, question: string, name: string)
    requires forall srv :: srv in Hosts(SRVs, name) ==>
               FormatSRV(question, srv).Some? && Addressable(As, TargetHost(srv), parse) ==>
                 NamedIn(TargetHost(srv), extra)
    ensures ExtrasComplete(As, SRVs, parse, extra, name)
  {
    forall srv | name in SRVs && srv in SRVs[name] && SplitHostPort(srv).Some?
      ensures var host := Split(srv, ':')[0];
              (host in As && As[host] != {} && forall a :: a in As[host] ==> parse(a).Some?) ==> NamedIn(host, extra)
    {
      assert srv in Hosts(SRVs, name) && FormatSRV(question, srv).Some?;
    }
  }

  lemma {:induction false} AnsweredHasRecords(
    As: Rrs, SRVs: Rrs, parse: string -> Option<string>, answer: seq<Answer>, extra: seq<Answer>,
    question: string, name: string, qtype: Qtype, rng: nat -> nat)
    requires Replies(As, SRVs, parse, answer, extra, question, name, qtype, rng) && answer != []
    ensures !Recordless(As, SRVs, name)
  {
    assert answer[0] in answer;
  }

  /** The authority records of a reply before the empty answer is looked at. */
  function Authorities(question: string, qtype: Qtype): seq<Authority> {
    match qtype
    case TypeSOA => [SOA(question)]
    case TypeNS => [NS(question)]
    case TypeANY => [SOA(question), NS(question)]
    case _ => []
  }

  class Resolver {
    const parse: string -> Option<string>
    var As: Rrs
    var SRVs: Rrs
    var requests: nat
    var success: nat
    var nxDomain: nat
    var failed: nat
    var nonMesosRequests: nat
    var nonMesosFailed: nat

    constructor (As: Rrs, SRVs: Rrs, parse: string -> Option<string>)
      ensures this.As == As && this.SRVs == SRVs && this.parse == parse && Balanced()
    {
      this.As, this.SRVs, this.parse := As, SRVs, parse;
      requests, success, nxDomain, failed, nonMesosRequests, nonMesosFailed := 0, 0, 0, 0, 0, 0;
    }

    /** Every counted request was answered or counted as a negative answer. */
    ghost predicate Balanced()
      reads this
    {
      requests == success + nxDomain
    }

    /** handleSRV. */
    method HandleSRV(question: string, name: string) returns (answers: seq<Answer>, extra: seq<Answer>, errs: bool)
      ensures forall a :: a in answers <==>
              exists srv :: srv in Hosts(SRVs, name) && FormatSRV(question, srv) == Some(a)
      ensures |answers| == |Formatted(Hosts(SRVs, name), Formatter(question))|
      ensures DistinctNames(extra)
      ensures forall x :: x in extra ==> ExtraFor(x, Hosts(SRVs, name), question, As, parse)
      ensures forall srv :: srv in Hosts(SRVs, name) ==>
                FormatSRV(question, srv).Some? && Addressable(As, TargetHost(srv), parse) ==>
                  NamedIn(TargetHost(srv), extra)
      ensures ErrorsOf(errs, Hosts(SRVs, name), Formatter(question), HostCutter(), As, parse)
      ensures forall a :: a in answers <==> IsSrvAnswer(SRVs, a, question, name)
      ensures (forall x :: x in extra ==> IsExtra(As, SRVs, parse, x, name)) &&
              ExtrasComplete(As, SRVs, parse, extra, name)
    {
      answers, extra, errs := AnswerTargets(Hosts(SRVs, name), Formatter(question), HostCutter());
      forall a ensures a in answers <==> IsSrvAnswer(SRVs, a, question, name) {
        SrvAnswersAre(SRVs, a, question, name);
      }
      forall x | x in extra ensures IsExtra(As, SRVs, parse, x, name) {
        ExtrasAre(As, SRVs, parse, x, question, name);
      }
      ExtrasAreComplete(As, SRVs, parse, extra, question, name);
    }

    /** What the loop of handleSRV has produced from the targets it is done with. */
    ghost predicate Answered(answers: seq<Answer>, extra: seq<Answer>, added: set<string>, errs: bool,
                             done: set<string>,
                             srvs: set<string>, format: string -> Option<Answer>, hostOf: string -> string)
      reads this`As
    {
      && AnswersOf(answers, done, format) && Tracked(extra, added) && ErrorsOf(errs, done, format, hostOf, As, parse)
      && (forall x :: x in extra ==> ExtraOf(x, srvs, format, hostOf, As, parse))
      && (forall srv :: srv in done && format(srv).Some? && Addressable(As, hostOf(srv), parse) ==>
        hostOf(srv) in added)
    }

    /** The loop of handleSRV over the targets, in any order, with the two ways of reading a
        target as parameters. */
    method AnswerTargets(srvs: set<string>, format: string -> Option<Answer>, hostOf: string -> string)
      returns (answers: seq<Answer>, extra: seq<Answer>, errs: bool)
      ensures AnswersOf(answers, srvs, format)
      ensures DistinctNames(extra)
      ensures forall x :: x in extra ==> ExtraOf(x, srvs, format, hostOf, As, parse)
      ensures forall srv :: srv in srvs && format(srv).Some? && Addressable(As, hostOf(srv), parse) ==>
                NamedIn(hostOf(srv), extra)
      ensures ErrorsOf(errs, srvs, format, hostOf, As, parse)
    {
      answers, extra, errs := [], [], false;
      var added: set<string> := {};
      var left, done := srvs, {};
      while left != {}
        invariant left <= srvs && done == srvs - left
        invariant Answered(answers, extra, added, errs, done, srvs, format, hostOf)
        decreases left
      {
        var srv :| srv in left;
        answers, extra, added, errs := AnswerOne(srv, answers, extra, added, errs, done, srvs, format, hostOf);
        left, done := left - {srv}, done + {srv};
      }
      assert done == srvs;
    }

    /** One turn of that loop. */
    method AnswerOne(srv: string, answers: seq<Answer>, extra: seq<Answer>, added: set<string>, errs: bool,
                     ghost done: set<string>,
                     ghost srvs: set<string>, format: string -> Option<Answer>, hostOf: string -> string)
      returns (answers': seq<Answer>, extra': seq<Answer>, added': set<string>, errs': bool)
      requires Answered(answers, extra, added, errs, done, srvs, format, hostOf) && srv in srvs && srv !in done
      ensures Answered(answers', extra', added', errs', done + {srv}, srvs, format, hostOf)
    {
      AnswersGrow(answers, done, srv, format);
      answers', extra', added' := answers, extra, added;
      var err := true;
      match format(srv) {
        case None =>
        case Some(srvRR) =>
          answers' := answers + [srvRR];
          extra', added', err := AddExtra(hostOf(srv), extra, added, srvs, srv, format, hostOf);
      }
      ErrorsGrow(errs, err, done, srv, format, hostOf, As, parse);
      errs' := errs || err;
    }

    /** Adds the address of an answered target to the extra records. */
    method AddExtra(host: string, extra: seq<Answer>, added: set<string>,
                    ghost srvs: set<string>, ghost srv: string, ghost format: string -> Option<Answer>,
                    ghost hostOf: string -> string)
      returns (extra': seq<Answer>, added': set<string>, err: bool)
      requires Tracked(extra, added) && srv in srvs && format(srv).Some? && host == hostOf(srv)
      requires forall x :: x in extra ==> ExtraOf(x, srvs, format, hostOf, As, parse)
      ensures Tracked(extra', added') && added <= added'
      ensures forall x :: x in extra' ==> ExtraOf(x, srvs, format, hostOf, As, parse)
      ensures Addressable(As, host, parse) ==> host in added'
      ensures AllBad(As, host, parse) ==> err
      ensures err ==> exists a :: a in Hosts(As, host) && parse(a) == None
    {
      var x;
      extra', added' := extra, added;
      if host in added { TrackedAddress(host, extra, added, srvs, format, hostOf, As, parse); }
      x, err := ExtraAddress(host, added);
      if x.Some? {
        TrackedGrow(extra, added, x.value);
        ExtraIs(x.value, srvs, srv, format, hostOf, As, parse);
        extra', added' := extra + [x.value], added + {host};
      }
    }

    /** The address record added for a host, unless it has one already, has no address, or
        the address picked does not parse. */
    method ExtraAddress(host: string, added: set<string>) returns (x: Option<Answer>, err: bool)
      ensures x.Some? ==> host !in added && exists a :: a in Hosts(As, host) && FormatA(host, a, parse) == x
      ensures x == None ==> host in added || !Addressable(As, host, parse)
      ensures AllBad(As, host, parse) && host !in added ==> err
      ensures err ==> exists a :: a in Hosts(As, host) && parse(a) == None
    {
      if host in added || Hosts(As, host) == {} { return None, false; }
      var a :| a in Hosts(As, host);
      x := FormatA(host, a, parse);
      err := x == None;
    }

    /** handleA. */
    method HandleA(name: string) returns (answers: seq<Answer>, errs: bool)
      ensures forall a :: a in answers <==> IsAddressAnswer(As, parse, a, name)
      ensures |answers| == |Formatted(Hosts(As, name), AddressFormatter(name, parse))|
      ensures errs <==> exists h :: h in Hosts(As, name) && parse(h) == None
    {
      answers, errs := [], false;
      var left, done := Hosts(As, name), {};
      var format := AddressFormatter(name, parse);
      while left != {}
        invariant done == Hosts(As, name) - left && left <= Hosts(As, name)
        invariant AnswersOf(answers, done, format)
        invariant errs <==> exists h :: h in done && parse(h) == None
        decreases left
      {
        var h :| h in left;
        AnswersGrow(answers, done, h, format);
        left, done := left - {h}, done + {h};
        var rr := FormatA(name, h, parse);
        if rr == None {
          errs := true;
          continue;
        }
        answers := answers + [rr.value];
      }
      assert done == Hosts(As, name);
      forall a ensures a in answers <==> IsAddressAnswer(As, parse, a, name) {
        AddressAnswersAre(As, parse, a, name);
      }
    }

    /** handleEmpty: no data for SOA, NS, SRV and AAAA and for names with records of another
        type, otherwise a name error. */
    method HandleEmpty(question: string, name: string, qtype: Qtype) returns (ns: seq<Authority>, rcode: Rcode)
      modifies this`success, this`nxDomain
      ensures rcode == NameError <==> qtype !in {TypeSOA, TypeNS, TypeSRV, TypeAAAA} && Recordless(As, SRVs, name)
      ensures if qtype in {TypeSOA, TypeNS, TypeSRV}
              then success == old(success) + 1 && nxDomain == old(nxDomain) && ns == []
              else success == old(success) && nxDomain == old(nxDomain) + 1 && ns == [SOA(question)]
    {
      if qtype == TypeSOA || qtype == TypeNS || qtype == TypeSRV {
        success := success + 1;
        return [], Success;
      }
      rcode := NameError;
      if qtype == TypeAAAA || |Hosts(SRVs, name)| + |Hosts(As, name)| > 0 {
        rcode := Success;
      }
      nxDomain := nxDomain + 1;
      ns := [SOA(question)];
    }

    /** HandleMesos; rng gives the random numbers, of which the i-th shuffle step uses the
        remainder modulo the number of answers left. */
    method HandleMesos(question: string, name: string, qtype: Qtype, rng: nat -> nat) returns (reply: Reply)
      modifies this`requests, this`success, this`nxDomain, this`failed
      ensures reply.rcode == NameError <==> qtype !in {TypeSOA, TypeNS, TypeSRV, TypeAAAA} && Recordless(As, SRVs, name)
      ensures reply.rcode == NameError ==> reply.answer == []
      ensures SOA(question) in reply.ns <==>
              qtype in {TypeSOA, TypeANY} || (reply.answer == [] && qtype !in {TypeNS, TypeSRV})
      ensures NS(question) in reply.ns <==> qtype in {TypeNS, TypeANY}
      ensures requests == old(requests) + 1
      ensures success + nxDomain == old(success) + old(nxDomain) + 1
      ensures nxDomain > old(nxDomain) <==> reply.answer == [] && qtype !in {TypeSOA, TypeNS, TypeSRV}
      ensures old(Balanced()) ==> Balanced()
      ensures Replies(As, SRVs, parse, reply.answer, reply.extra, question, name, qtype, rng)
      ensures old(failed) <= failed <= old(failed) + 1
      ensures MustFail(As, SRVs, parse, question, name, qtype) ==> failed == old(failed) + 1
      ensures failed == old(failed) + 1 ==> MayFail(As, SRVs, parse, question, name, qtype)
    {
      requests := requests + 1;
      var collected, errs := Arrange(question, name, qtype, rng);
      if collected.answer != [] {
        AnsweredHasRecords(As, SRVs, parse, collected.answer, collected.extra, question, name, qtype, rng);
      }
      reply := Conclude(collected, question, name, qtype);
      if errs { failed := failed + 1; }
    }

    /** The end of HandleMesos: an empty answer is looked at, any other is a success. */
    method Conclude(collected: Reply, question: string, name: string, qtype: Qtype) returns (reply: Reply)
      requires collected.rcode == Success && collected.ns == Authorities(question, qtype)
      requires collected.answer != [] ==> !Recordless(As, SRVs, name)
      modifies this`success, this`nxDomain
      ensures reply.answer == collected.answer && reply.extra == collected.extra
      ensures reply.rcode == NameError <==> qtype !in {TypeSOA, TypeNS, TypeSRV, TypeAAAA} && Recordless(As, SRVs, name)
      ensures reply.rcode == NameError ==> reply.answer == []
      ensures SOA(question) in reply.ns <==>
              qtype in {TypeSOA, TypeANY} || (reply.answer == [] && qtype !in {TypeNS, TypeSRV})
      ensures NS(question) in reply.ns <==> qtype in {TypeNS, TypeANY}
      ensures success + nxDomain == old(success) + old(nxDomain) + 1
      ensures nxDomain > old(nxDomain) <==> reply.answer == [] && qtype !in {TypeSOA, TypeNS, TypeSRV}
    {
      reply := collected;
      if |reply.answer| == 0 {
        var ns, rcode := HandleEmpty(question, name, qtype);
        reply := reply.(ns := reply.ns + ns, rcode := rcode);
      } else {
        success := success + 1;
      }
    }

    /** The records of the reply, with the answers in random order. */
    method Arrange(question: string, name: string, qtype: Qtype, rng: nat -> nat) returns (reply: Reply, errs: bool)
      ensures reply.rcode == Success && reply.ns == Authorities(question, qtype)
      ensures Replies(As, SRVs, parse, reply.answer, reply.extra, question, name, qtype, rng)
      ensures (MustFail(As, SRVs, parse, question, name, qtype) ==> errs) &&
              (errs ==> MayFail(As, SRVs, parse, question, name, qtype))
    {
      var srvs, addresses;
      srvs, addresses, reply, errs := Collect(question, name, qtype);
      var shuffled := Shuffled(srvs + addresses, rng);
      reply := reply.(answer := shuffled);
      assert AllSrv(srvs) && AllAddresses(addresses) && IsShuffled(reply.answer, srvs + addresses, rng);
    }

    /** The switch over the question type. */
    method Collect(question: string, name: string, qtype: Qtype)
      returns (srvs: seq<Answer>, addresses: seq<Answer>, reply: Reply, errs: bool)
      ensures reply.answer == [] && reply.rcode == Success
      ensures forall a :: a in srvs <==> qtype in {TypeSRV, TypeANY} && IsSrvAnswer(SRVs, a, question, name)
      ensures forall a :: a in addresses <==> qtype in {TypeA, TypeANY} && IsAddressAnswer(As, parse, a, name)
      ensures DistinctNames(reply.extra) && forall x :: x in reply.extra ==> IsExtra(As, SRVs, parse, x, name)
      ensures if qtype in {TypeSRV, TypeANY} then ExtrasComplete(As, SRVs, parse, reply.extra, name)
              else reply.extra == []
      ensures reply.ns == Authorities(question, qtype)
      ensures |srvs + addresses| == AnswerCount(As, SRVs, parse, question, name, qtype)
      ensures (MustFail(As, SRVs, parse, question, name, qtype) ==> errs) &&
              (errs ==> MayFail(As, SRVs, parse, question, name, qtype))
    {
      srvs, addresses, reply, errs := [], [], Reply([], [], [], Success), false;
      match qtype {
        case TypeSRV =>
          var extra;
          srvs, extra, errs := HandleSRV(question, name);
          reply := reply.(extra := extra);
        case TypeA =>
          addresses, errs := HandleA(name);
        case TypeSOA =>
          reply := reply.(ns := [SOA(question)]);
        case TypeNS =>
          reply := reply.(ns := [NS(question)]);
        case TypeANY =>
          var extra, srvErrs, aErrs;
          srvs, extra, srvErrs := HandleSRV(question, name);
          addresses, aErrs := HandleA(name);
          errs := srvErrs || aErrs;
          reply := reply.(extra := extra, ns := [SOA(question), NS(question)]);
        case _ =>
      }
    }

    /** stats, for a lookup over HTTP. */
    method Stats(domain: string, zone: string, found: bool)
      modifies this`requests, this`success, this`nxDomain, this`nonMesosRequests, this`nonMesosFailed
      ensures var inZone := |zone| <= |domain| && domain[|domain| - |zone|..] == zone;
              && requests == old(requests) + (if inZone then 1 else 0)
              && success == old(success) + (if inZone && found then 1 else 0)
              && nxDomain == old(nxDomain) + (if inZone && !found then 1 else 0)
              && nonMesosRequests == old(nonMesosRequests) + (if inZone then 0 else 1)
              && nonMesosFailed == old(nonMesosFailed) + (if inZone then 0 else 1)
      ensures old(Balanced()) ==> Balanced()
    {
      if |zone| <= |domain| && domain[|domain| - |zone|..] == zone {
        requests := requests + 1;
        if found { success := success + 1; } else { nxDomain := nxDomain + 1; }
      } else {
        nonMesosRequests := nonMesosRequests + 1;
        nonMesosFailed := nonMesosFailed + 1;
      }
    }

    /** Over any run of DNS queries and HTTP lookups the counters stay balanced. */
    method Run(requested: seq<Request>, rng: nat -> nat)
      requires Balanced()
      modifies this`requests, this`success, this`nxDomain, this`failed, this`nonMesosRequests, this`nonMesosFailed
      ensures Balanced()
      ensures requests + nonMesosRequests == old(requests) + old(nonMesosRequests) + |requested|
    {
      for i := 0 to |requested|
        invariant Balanced()
        invariant requests + nonMesosRequests == old(requests) + old(nonMesosRequests) + i
      {
        match requested[i] {
          case Dns(question, name, qtype) =>
            var _ := HandleMesos(question, name, qtype, rng);
          case Http(domain, zone, found) =>
            Stats(domain, zone, found);
        }
      }
    }
  }

  datatype Request = Dns(question: string, name: string, qtype: Qtype) | Http(domain: string, zone: string, found: bool)

  function Formatter(question: string): string -> Option<Answer> { (srv: string) => FormatSRV(question, srv) }

  function AddressFormatter(name: string, parse: string -> Option<string>): string -> Option<Answer> {
    (h: string) => FormatA(name, h, parse)
  }

  function HostCutter(): string -> string { (srv: string) => TargetHost(srv) }

  function Formatted(srvs: set<string>, format: string -> Option<Answer>): set<string> {
    set srv | srv in srvs && format(srv).Some?
  }

  lemma GrowFormatted(done: set<string>, srv: string, format: string -> Option<Answer>)
    requires srv !in done
    ensures |Formatted(done + {srv}, format)| == |Formatted(done, format)| + if format(srv).Some? then 1 else 0
  {
    if format(srv).Some? {
      assert Formatted(done + {srv}, format) == Formatted(done, format) + {srv};
    } else {
      assert Formatted(done + {srv}, format) == Formatted(done, format);
    }
  }

  ghost predicate AllSrv(s: seq<Answer>) { forall a :: a in s ==> a.SrvAnswer? }

  ghost predicate AllAddresses(s: seq<Answer>) { forall a :: a in s ==> a.AddressAnswer? }

  /** The order that the random numbers give to the answers. */
  ghost predicate IsShuffled(t: seq<Answer>, s: seq<Answer>, rng: nat -> nat) {
    exists r ::
      Choices(|s|, r) && (forall i :: 0 <= i < |s| ==> r[i] == i + rng(i) % (|s| - i)) && t == ShuffleFrom(s, 0, r)
  }

  /** shuffleAnswers on the answers of a reply. */
  method Shuffled(s: seq<Answer>, rng: nat -> nat) returns (t: seq<Answer>)
    ensures |t| == |s| && forall a :: a in t <==> a in s
    ensures IsShuffled(t, s, rng)
  {
    var n := |s|;
    var r := seq(n, (i: nat) requires i < n => i + rng(i) % (n - i));
    var answers := new Answer[n](i requires 0 <= i < n => s[i]);
    assert answers[..] == s;
    ShuffleAnswers(answers, r);
    t := answers[..];
    assert multiset(t) == multiset(s);
    assert forall a :: a in t <==> a in multiset(t);
    assert forall a :: a in s <==> a in multiset(s);
  }
}
