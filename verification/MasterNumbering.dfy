/** The numbered master names (records/generator.go, masterRecord) are a bijection onto the
    addresses under the general master name. */
module MasterNumbering {
  import opened Chains
  import opened GeneratorSpec
  import opened HostPort
  import opened Sequences
  import opened Text

  // ----- the intended numbering

  /** The address a list entry stands for. Entries that merely share the leader's address
      or one that is taken already do not count, the leader itself does. */
  function CandidateOf(leaderAddress: string, ip: string, taken: set<string>, master: string): seq<string> {
    match Cut(master, ':')
    case None => []
    case Some(p) =>
      if master == leaderAddress then [ip] else if p.0 == "" || p.0 == ip || p.0 in taken then [] else [p.0]
  }

  function Candidates(leaderAddress: string, ip: string, taken: set<string>): string -> seq<string> {
    (master: string) => CandidateOf(leaderAddress, ip, taken, master)
  }

  /** Each element once, at its first appearance. */
  function FirstAppearances(s: seq<string>): (r: seq<string>) {
    if s == [] then []
    else
      var init, last := FirstAppearances(s[..|s| - 1]), s[|s| - 1];
      if last in init then init else init + [last]
  }

  /** The masters in the order of the list, then the leader if it is not listed. */
  function MasterOrder(leaderAddress: string, ip: string, taken: set<string>, masters: seq<string>): seq<string> {
    FirstAppearances(FlatMap(masters, Candidates(leaderAddress, ip, taken)) + [ip])
  }

  /** The addresses that the general name holds before the phase. */
  function Taken(base: set<RR>, domain: string): set<string> {
    set e | e in base && e.kind == A && e.name == MasterName(domain) :: e.host
  }

  lemma {:induction false} FirstAppearancesSame(s: seq<string>)
    ensures Distinct(FirstAppearances(s))
    ensures forall x :: x in FirstAppearances(s) <==> x in s
  {
    if s == [] {
    } else {
      FirstAppearancesSame(s[..|s| - 1]);
      assert s == s[..|s| - 1] + [s[|s| - 1]];
    }
  }

  /** Numbers follow the list: a lower number belongs to an entry p of the list up to which
      no entry stands for the master with the higher one. */
  lemma {:induction false} NumberingFollowsList(
    leaderAddress: string, ip: string, taken: set<string>, masters: seq<string>, i: nat, j: nat) returns (p: nat)
    requires i < j < |MasterOrder(leaderAddress, ip, taken, masters)|
    ensures var order := MasterOrder(leaderAddress, ip, taken, masters);
            && p < |masters| && CandidateOf(leaderAddress, ip, taken, masters[p]) == [order[i]]
            && forall q :: 0 <= q <= p ==> order[j] !in CandidateOf(leaderAddress, ip, taken, masters[q])
  {
    var f := Candidates(leaderAddress, ip, taken);
    var found := FlatMap(masters, f);
    AppendCandidate(found, [ip]);
    if j < |FirstAppearances(found)| {
      p := FirstEntry(masters, f, i, j);
    } else {
      p := EntryBefore(masters, f, i, ip);
    }
    forall q | 0 <= q <= p
      ensures MasterOrder(leaderAddress, ip, taken, masters)[j] !in CandidateOf(leaderAddress, ip, taken, masters[q])
    {
      assert f(masters[q]) == CandidateOf(leaderAddress, ip, taken, masters[q]);
    }
  }

  /** An entry for the i-th address; none of the list stands for an address not found. */
  lemma {:induction false} EntryBefore(masters: seq<string>, f: string -> seq<string>, i: nat, y: string)
    returns (p: nat)
    requires i < |FirstAppearances(FlatMap(masters, f))| && y !in FirstAppearances(FlatMap(masters, f))
    ensures p < |masters| && FirstAppearances(FlatMap(masters, f))[i] in f(masters[p])
    ensures forall q :: 0 <= q < |masters| ==> y !in f(masters[q])
  {
    var x := FirstAppearances(FlatMap(masters, f))[i];
    FirstAppearancesSame(FlatMap(masters, f));
    FlatMapMember(masters, f, x);
    FlatMapMember(masters, f, y);
    var m :| m in masters && x in f(m);
    p :| 0 <= p < |masters| && masters[p] == m;
    forall q | 0 <= q < |masters| ensures y !in f(masters[q]) {
      assert masters[q] in masters;
    }
  }

  lemma {:induction false} FirstEntry(masters: seq<string>, f: string -> seq<string>, i: nat, j: nat) returns (p: nat)
    requires forall m :: m in masters ==> |f(m)| <= 1
    requires i < j < |FirstAppearances(FlatMap(masters, f))|
    ensures var order := FirstAppearances(FlatMap(masters, f));
            p < |masters| && order[i] in f(masters[p]) && forall q :: 0 <= q <= p ==> order[j] !in f(masters[q])
  {
    var init, last := masters[..|masters| - 1], masters[|masters| - 1];
    var order, earlier := FirstAppearances(FlatMap(masters, f)), FirstAppearances(FlatMap(init, f));
    assert masters == init + [last];
    AppendCandidate(FlatMap(init, f), f(last));
    if j < |earlier| {
      p := FirstEntry(init, f, i, j);
    } else {
      p := EntryBefore(init, f, i, order[j]);
    }
    forall q | 0 <= q <= p ensures order[j] !in f(masters[q]) {
      assert masters[q] == init[q];
    }
  }

  // ----- names

  lemma MasterNamesDiffer(domain: string, i: nat, j: nat)
    ensures MasterNName(domain, i) == MasterNName(domain, j) ==> i == j
    ensures MasterNName(domain, i) != MasterName(domain)
    ensures MasterNName(domain, i) != "leader" + Tail(domain) && MasterName(domain) != "leader" + Tail(domain)
  {
    var a, b := MasterNName(domain, i), MasterNName(domain, j);
    assert a[0] == 'm' && ("leader" + Tail(domain))[0] == 'l' && MasterName(domain)[0] == 'm';
    assert a[6] == Itoa(i)[0] && MasterName(domain)[6] == '.';
    assert IsDigit(Itoa(i)[0]);
    if a == b {
      var n := |a| - |Tail(domain)|;
      assert Itoa(i) == a[6..n] && Itoa(j) == b[6..n];
      ItoaInjective(i, j);
    }
  }

  ghost predicate NoMasterNames(records: set<RR>, domain: string) {
    forall e :: e in records && e.kind == A ==>
      e.name != MasterName(domain) && forall i: nat :: e.name != MasterNName(domain, i)
  }

  // ----- the loop

  function General(domain: string, order: seq<string>): set<RR> {
    set x | x in order && x != "" :: RR(A, MasterName(domain), x)
  }

  function Numbered(domain: string, order: seq<string>): set<RR> {
    set i | 0 <= i < |order| && order[i] != "" :: RR(A, MasterNName(domain, i), order[i])
  }

  function IfText(e: RR): set<RR> { if e.host == "" then {} else {e} }

  lemma {:induction false} NumberedNext(domain: string, order: seq<string>, x: string)
    ensures Numbered(domain, order + [x]) == Numbered(domain, order) + IfText(RR(A, MasterNName(domain, |order|), x))
    ensures General(domain, order + [x]) == General(domain, order) + IfText(RR(A, MasterName(domain), x))
  {
    var next := order + [x];
    forall e ensures e in Numbered(domain, next) <==>
      e in Numbered(domain, order) + IfText(RR(A, MasterNName(domain, |order|), x))
    {
      if e in Numbered(domain, next) {
        var i :| 0 <= i < |next| && next[i] != "" && e == RR(A, MasterNName(domain, i), next[i]);
        assert i < |order| ==> e == RR(A, MasterNName(domain, i), order[i]);
      }
      if e in Numbered(domain, order) {
        var i :| 0 <= i < |order| && order[i] != "" && e == RR(A, MasterNName(domain, i), order[i]);
        assert e == RR(A, MasterNName(domain, i), next[i]);
      }
      if x != "" { assert RR(A, MasterNName(domain, |order|), next[|order|]) in Numbered(domain, next); }
    }
    assert forall y :: y in next <==> y in order || y == x;
  }

  /** Which addresses are under the general name part way through the loop. */
  lemma {:induction false} GeneralMember(
    base: set<RR>, domain: string, ip: string, port: string, order: seq<string>, x: string)
    requires x != ""
    ensures RR(A, MasterName(domain), x) in AddEvents(base, LeaderEvents(domain, ip, port)) + General(domain, order) +
            Numbered(domain, order) <==>
            x == ip || x in Taken(base, domain) || x in order
  {
    var e := RR(A, MasterName(domain), x);
    forall i: nat ensures MasterName(domain) != MasterNName(domain, i) &&
      MasterName(domain) != "leader" + Tail(domain)
    {
      MasterNamesDiffer(domain, i, i);
    }
    assert e !in Numbered(domain, order);
    LeaderMember(base, domain, ip, port, e);
  }

  lemma LeaderMember(base: set<RR>, domain: string, ip: string, port: string, e: RR)
    requires e.kind == A && e.host != ""
    ensures e in AddEvents(base, LeaderEvents(domain, ip, port)) <==>
            e in base || e == RR(A, "leader" + Tail(domain), ip) || e == RR(A, MasterName(domain), ip)
  {
    var events := LeaderEvents(domain, ip, port);
    assert events[0] == RR(A, "leader" + Tail(domain), ip) && events[1] == RR(A, MasterName(domain), ip);
    assert events[2].kind == SRV && events[3].kind == SRV;
  }

  /** The state of the loop: the first appearances so far, numbered. */
  function LoopState(base: set<RR>, domain: string, ip: string, port: string, order: seq<string>): Numbering {
    Numbering(AddEvents(base, LeaderEvents(domain, ip, port)) + General(domain, order) + Numbered(domain, order),
              |order|, ip in order)
  }

  /** Numbering a new address on top of the records that hold its general name. */
  lemma {:induction false} LoopExtends(
    base: set<RR>, domain: string, ip: string, port: string, order: seq<string>, x: string, records: set<RR>)
    requires records == LoopState(base, domain, ip, port, order).records + IfText(RR(A, MasterName(domain), x))
    ensures AddEvents(records, [RR(A, MasterNName(domain, |order|), x)]) ==
            LoopState(base, domain, ip, port, order + [x]).records
  {
    NumberedNext(domain, order, x);
    var numbered := RR(A, MasterNName(domain, |order|), x);
    assert AddEvents(records, [numbered]) == records + IfText(numbered);
  }

  lemma {:induction false} LoopStepLeader(
    base: set<RR>, domain: string, leaderAddress: string, ip: string, port: string, order: seq<string>)
    requires Cut(leaderAddress, ':') == Some((ip, port))
    ensures NumberMaster(LoopState(base, domain, ip, port, order), domain, leaderAddress, leaderAddress) ==
            LoopState(base, domain, ip, port, if ip in order then order else order + [ip])
  {
    if ip !in order {
      var records := LoopState(base, domain, ip, port, order).records;
      if ip != "" { LeaderMember(base, domain, ip, port, RR(A, MasterName(domain), ip)); }
      assert records == records + IfText(RR(A, MasterName(domain), ip));
      LoopExtends(base, domain, ip, port, order, ip, records);
    }
  }

  lemma {:induction false} LoopStepOther(
    base: set<RR>, domain: string, leaderAddress: string, ip: string, port: string, order: seq<string>,
    master: string)
    requires master != leaderAddress && Cut(master, ':').Some?
    ensures var x := Cut(master, ':').value.0;
            NumberMaster(LoopState(base, domain, ip, port, order), domain, leaderAddress, master) ==
            LoopState(base, domain, ip, port,
                      if x == "" || x == ip || x in Taken(base, domain) || x in order then order else order + [x])
  {
    var x := Cut(master, ':').value.0;
    if x != "" { GeneralMember(base, domain, ip, port, order, x); }
    if !(x == "" || x == ip || x in Taken(base, domain) || x in order) {
      LoopExtends(base, domain, ip, port, order, x,
                  LoopState(base, domain, ip, port, order).records + {RR(A, MasterName(domain), x)});
    }
  }

  lemma {:induction false} LoopStep(
    base: set<RR>, domain: string, leaderAddress: string, ip: string, port: string, order: seq<string>,
    master: string)
    requires Cut(leaderAddress, ':') == Some((ip, port))
    ensures var next := CandidateOf(leaderAddress, ip, Taken(base, domain), master);
            NumberMaster(LoopState(base, domain, ip, port, order), domain, leaderAddress, master) ==
            LoopState(base, domain, ip, port, if next == [] || next[0] in order then order else order + next)
  {
    if master == leaderAddress {
      LoopStepLeader(base, domain, leaderAddress, ip, port, order);
    } else if Cut(master, ':').Some? {
      LoopStepOther(base, domain, leaderAddress, ip, port, order, master);
    }
  }

  lemma {:induction false} LoopStates(
    base: set<RR>, domain: string, leaderAddress: string, ip: string, port: string, masters: seq<string>)
    requires Cut(leaderAddress, ':') == Some((ip, port))
    ensures NumberMasters(LoopState(base, domain, ip, port, []), domain, leaderAddress, masters) ==
            LoopState(base, domain, ip, port,
              FirstAppearances(FlatMap(masters, Candidates(leaderAddress, ip, Taken(base, domain)))))
  {
    if masters == [] {
    } else {
      var init, last := masters[..|masters| - 1], masters[|masters| - 1];
      LoopStates(base, domain, leaderAddress, ip, port, init);
      var found := FlatMap(init, Candidates(leaderAddress, ip, Taken(base, domain)));
      LoopStep(base, domain, leaderAddress, ip, port, FirstAppearances(found), last);
      AppendCandidate(found, CandidateOf(leaderAddress, ip, Taken(base, domain), last));
    }
  }

  lemma AppendCandidate(found: seq<string>, next: seq<string>)
    requires |next| <= 1
    ensures var order := FirstAppearances(found);
            FirstAppearances(found + next) == if next == [] || next[0] in order then order else order + next
  {
    if next == [] {
      assert found + next == found;
    } else {
      assert (found + next)[..|found|] == found;
    }
  }

  lemma {:induction false} NumberAllMeaning(
    base: set<RR>, domain: string, masters: seq<string>, leaderAddress: string, ip: string, port: string)
    requires Cut(leaderAddress, ':') == Some((ip, port))
    ensures NumberAll(base, domain, masters, leaderAddress, ip, port) ==
            LoopState(base, domain, ip, port, MasterOrder(leaderAddress, ip, Taken(base, domain), masters)).records
  {
    var start := LoopState(base, domain, ip, port, []);
    assert start == Numbering(AddEvents(base, LeaderEvents(domain, ip, port)), 0, false);
    LoopStates(base, domain, leaderAddress, ip, port, masters);
    var found := FlatMap(masters, Candidates(leaderAddress, ip, Taken(base, domain)));
    AppendCandidate(found, [ip]);
    if ip !in FirstAppearances(found) {
      LoopStepLeader(base, domain, leaderAddress, ip, port, FirstAppearances(found));
    }
  }

  /** masterRecord: the leader's records, the general name with every master, and one number
      each in the intended order. Nothing is recorded for a leader without an address,
      although it uses up a number. */
  lemma {:induction false} MasterPhaseMeaning(base: set<RR>, domain: string, masters: seq<string>, leader: string)
    requires LeaderAddress(leader).Some?
    ensures var l := LeaderAddress(leader).value;
            var order := MasterOrder(l.0, l.1, Taken(base, domain), masters);
            MasterPhase(base, domain, masters, leader) ==
            AddEvents(base, LeaderEvents(domain, l.1, l.2)) + General(domain, order) + Numbered(domain, order)
  {
    var l := LeaderAddress(leader).value;
    NumberAllMeaning(base, domain, masters, l.0, l.1, l.2);
  }

  /** The numbered names and the addresses under the general name are in bijection: number
      i holds just the i-th address, the addresses are distinct and nonempty, no other
      number is used, and together they are what the general name holds. */
  lemma {:induction false} MasterBijection(base: set<RR>, domain: string, masters: seq<string>, leader: string)
    requires NoMasterNames(base, domain) && LeaderAddress(leader).Some? && LeaderAddress(leader).value.1 != ""
    ensures var l := LeaderAddress(leader).value;
            var order, records := MasterOrder(l.0, l.1, {}, masters), MasterPhase(base, domain, masters, leader);
            && Distinct(order) && "" !in order
            && (forall x :: x in order <==> RR(A, MasterName(domain), x) in records)
            && (forall i: nat, x :: RR(A, MasterNName(domain, i), x) in records <==> i < |order| && x == order[i])
            && (l.0 !in masters ==> order[|order| - 1] == l.1)
  {
    var (leaderAddress, ip, port) := LeaderAddress(leader).value;
    var order, records := MasterOrder(leaderAddress, ip, {}, masters), MasterPhase(base, domain, masters, leader);
    assert Taken(base, domain) == {};
    MasterPhaseMeaning(base, domain, masters, leader);
    OrderIs(leaderAddress, ip, {}, masters);
    forall x ensures x in order <==> RR(A, MasterName(domain), x) in records {
      NoTextNotRecorded(base, domain, ip, port, order, MasterName(domain));
      if x != "" { GeneralMember(base, domain, ip, port, order, x); }
    }
    forall i: nat, x ensures RR(A, MasterNName(domain, i), x) in records <==> i < |order| && x == order[i] {
      NoTextNotRecorded(base, domain, ip, port, order, MasterNName(domain, i));
      if x != "" { NumberedMember(base, domain, ip, port, order, i, x); }
    }
    if leaderAddress !in masters { UnlistedLeaderLast(leaderAddress, ip, {}, masters); }
  }

  lemma {:induction false} OrderIs(leaderAddress: string, ip: string, taken: set<string>, masters: seq<string>)
    requires ip != ""
    ensures var order := MasterOrder(leaderAddress, ip, taken, masters); Distinct(order) && ip in order && "" !in order
  {
    FirstAppearancesSame(FlatMap(masters, Candidates(leaderAddress, ip, taken)) + [ip]);
    FlatMapMember(masters, Candidates(leaderAddress, ip, taken), "");
  }

  lemma NoTextNotRecorded(base: set<RR>, domain: string, ip: string, port: string, order: seq<string>, name: string)
    requires forall e :: e in base && e.kind == A ==> e.name != name
    ensures RR(A, name, "") !in AddEvents(base, LeaderEvents(domain, ip, port)) + General(domain, order) +
            Numbered(domain, order)
  {
  }

  lemma {:induction false} NumberedMember(
    base: set<RR>, domain: string, ip: string, port: string, order: seq<string>, i: nat, x: string)
    requires NoMasterNames(base, domain) && x != ""
    ensures RR(A, MasterNName(domain, i), x) in AddEvents(base, LeaderEvents(domain, ip, port)) +
            General(domain, order) + Numbered(domain, order) <==>
            i < |order| && x == order[i]
  {
    var e := RR(A, MasterNName(domain, i), x);
    MasterNamesDiffer(domain, i, i);
    LeaderMember(base, domain, ip, port, e);
    if e in Numbered(domain, order) {
      var j :| 0 <= j < |order| && e == RR(A, MasterNName(domain, j), order[j]);
      MasterNamesDiffer(domain, i, j);
    }
  }

  lemma {:induction false} UnlistedLeaderLast(
    leaderAddress: string, ip: string, taken: set<string>, masters: seq<string>)
    requires leaderAddress !in masters
    ensures var order := MasterOrder(leaderAddress, ip, taken, masters); order != [] && order[|order| - 1] == ip
  {
    var found := FlatMap(masters, Candidates(leaderAddress, ip, taken));
    FlatMapMember(masters, Candidates(leaderAddress, ip, taken), ip);
    FirstAppearancesSame(found);
    AppendCandidate(found, [ip]);
  }
}
