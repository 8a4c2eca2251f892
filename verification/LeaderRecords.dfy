/** The records of the masters (records/generator.go, masterRecord), read off the leader
    string and the configured list. */
module LeaderRecords {
  import opened Chains
  import opened GeneratorSpec
  import opened HostPort
  import opened MasterNumbering
  import opened Sequences
  import opened Text

  // ----- the leader string

  /** The address is what stands between the first `@` and the next one or the end; without
      a colon in it there is none. */
  lemma {:induction false} LeaderAddressRead(user: string, address: string, rest: string)
    requires '@' !in user && '@' !in address && (rest == "" || rest[0] == '@')
    ensures LeaderAddress(user + "@" + address + rest) == None <==> ':' !in address
    ensures forall ip, port :: ':' !in ip && address == ip + ":" + port ==>
              LeaderAddress(user + "@" + address + rest) == Some((address, ip, port))
  {
    var leader := user + "@" + address + rest;
    assert leader == user + ['@'] + (address + rest);
    SplitFirst(user, address + rest, '@');
    SplitHeadIs(address + rest, '@', address);
    assert rest != "" ==> address + ['@'] <= address + rest;
    assert Split(leader, '@')[1] == address;
    CutMeans(address, ':');
    forall ip, port | ':' !in ip && address == ip + ":" + port
      ensures LeaderAddress(leader) == Some((address, ip, port))
    {
      CutFirst(ip, port, ':');
      assert address == ip + [':'] + port;
    }
  }

  /** Without an `@` there is no leader. */
  lemma {:induction false} NoLeader(leader: string)
    requires '@' !in leader
    ensures LeaderAddress(leader) == None
  {
    SplitPlain(leader, '@');
  }

  /** The usual form: `user@ip:port`. */
  lemma {:induction false} UsualLeader(user: string, ip: string, port: string)
    requires '@' !in user + ip + port && ':' !in ip
    ensures LeaderAddress(user + "@" + ip + ":" + port) == Some((ip + ":" + port, ip, port))
  {
    var address := ip + ":" + port;
    LeaderAddressRead(user, address, "");
    assert user + "@" + address + "" == user + "@" + ip + ":" + port;
  }

  // ----- the masters

  /** The list names the address with some port. */
  ghost predicate Listed(masters: seq<string>, x: string) {
    x != "" && ':' !in x && exists i :: 0 <= i < |masters| && x + ":" <= masters[i]
  }

  /** The entry stands for the address: the leader's entry for the leader's, any other for
      its own unless that is the leader's. */
  ghost predicate StandsFor(entry: string, leaderAddress: string, ip: string, x: string) {
    if entry == leaderAddress then x == ip else x != ip && ':' !in x && x + ":" <= entry
  }

  lemma {:induction false} CandidateRead(
    leaderAddress: string, ip: string, port: string, taken: set<string>, entry: string, x: string)
    requires ':' !in ip && leaderAddress == ip + ":" + port
    ensures x in CandidateOf(leaderAddress, ip, taken, entry) <==>
            StandsFor(entry, leaderAddress, ip, x) && (entry == leaderAddress || (x != "" && x !in taken))
  {
    CutMeans(entry, ':');
    CutMeans(leaderAddress, ':');
    CutFirst(ip, port, ':');
    assert leaderAddress == ip + [':'] + port;
    if ':' !in x && x + ":" <= entry {
      var rest := entry[|x| + 1..];
      assert entry == x + [':'] + rest;
      CutFirst(x, rest, ':');
    }
    if Cut(entry, ':').Some? {
      assert Cut(entry, ':').value.0 + ":" <= entry;
    }
  }

  /** Who is among the masters: the leader, and every address of the list that the general
      name does not hold already. */
  lemma {:induction false} OrderRead(
    leaderAddress: string, ip: string, port: string, taken: set<string>, masters: seq<string>, x: string)
    requires ':' !in ip && leaderAddress == ip + ":" + port
    ensures x in MasterOrder(leaderAddress, ip, taken, masters) <==> x == ip || (Listed(masters, x) && x !in taken)
  {
    var f := Candidates(leaderAddress, ip, taken);
    FirstAppearancesSame(FlatMap(masters, f) + [ip]);
    FlatMapMember(masters, f, x);
    forall m ensures x in f(m) <==>
      StandsFor(m, leaderAddress, ip, x) && (m == leaderAddress || (x != "" && x !in taken)) {
      CandidateRead(leaderAddress, ip, port, taken, m, x);
    }
    if x != ip && Listed(masters, x) && x !in taken {
      var i :| 0 <= i < |masters| && x + ":" <= masters[i];
      NotTheLeader(masters[i], ip, port, x);
      assert masters[i] in masters && x in f(masters[i]);
    }
  }

  lemma NotTheLeader(entry: string, ip: string, port: string, x: string)
    requires ':' !in ip && ':' !in x && x != ip && x + ":" <= entry
    ensures entry != ip + ":" + port
  {
    var rest := entry[|x| + 1..];
    assert entry == x + [':'] + rest && ip + ":" + port == ip + [':'] + port;
    CutFirst(x, rest, ':');
    CutFirst(ip, port, ':');
  }

  /** The records of the phase are the leader's, and for the i-th master the general name and
      the i-th number. */
  ghost predicate MasterRecordOf(domain: string, ip: string, port: string, order: seq<string>, e: RR) {
    || e == RR(A, "leader." + domain + ".", ip)
    || e == RR(SRV, "_leader._tcp." + domain + ".", "leader." + domain + ".:" + port)
    || e == RR(SRV, "_leader._udp." + domain + ".", "leader." + domain + ".:" + port)
    || exists i :: 0 <= i < |order| && (e == RR(A, "master." + domain + ".", order[i]) ||
                                        e == RR(A, "master" + Itoa(i) + "." + domain + ".", order[i]))
  }

  /** The numbers follow the list: up to some entry for the i-th master there is none for the
      j-th. */
  ghost predicate FollowsList(leaderAddress: string, ip: string, masters: seq<string>, order: seq<string>, i: nat,
    j: nat)
    requires i < j < |order|
  {
    exists p :: 0 <= p < |masters| && StandsFor(masters[p], leaderAddress, ip, order[i]) &&
      forall q :: 0 <= q <= p ==> !StandsFor(masters[q], leaderAddress, ip, order[j])
  }

  /** masterRecord on a leader `user@ip:port`: every record it adds. */
  lemma {:induction false} MastersPublished(
    base: set<RR>, domain: string, masters: seq<string>, user: string, ip: string, port: string)
    returns (order: seq<string>)
    requires '@' !in user + ip + port && ':' !in ip
    ensures forall e :: e in MasterPhase(base, domain, masters, user + "@" + ip + ":" + port) <==>
              e in base || (e.host != "" && MasterRecordOf(domain, ip, port, order, e))
    ensures Distinct(order)
    ensures forall x :: x in order <==>
              x == ip || (Listed(masters, x) && RR(A, "master." + domain + ".", x) !in base)
    ensures ip + ":" + port !in masters ==> order != [] && order[|order| - 1] == ip
    ensures forall i, j :: 0 <= i < j < |order| ==> FollowsList(ip + ":" + port, ip, masters, order, i, j)
  {
    var leaderAddress, leader, taken := ip + ":" + port, user + "@" + ip + ":" + port, Taken(base, domain);
    order := MasterOrder(leaderAddress, ip, taken, masters);
    UsualLeader(user, ip, port);
    FirstAppearancesSame(FlatMap(masters, Candidates(leaderAddress, ip, taken)) + [ip]);
    forall x ensures x in order <==> x == ip || (Listed(masters, x) && RR(A, "master." + domain + ".", x) !in base) {
      OrderRead(leaderAddress, ip, port, taken, masters, x);
      TakenRead(base, domain, x);
    }
    forall e ensures e in MasterPhase(base, domain, masters, leader) <==>
                     e in base || (e.host != "" && MasterRecordOf(domain, ip, port, order, e))
    {
      PhaseRead(base, domain, masters, leader, ip, port, order, e);
    }
    if leaderAddress !in masters { UnlistedLeaderLast(leaderAddress, ip, taken, masters); }
    forall i, j | 0 <= i < j < |order| ensures FollowsList(leaderAddress, ip, masters, order, i, j) {
      ListFollowed(leaderAddress, ip, port, taken, masters, order, i, j);
    }
  }

  lemma {:induction false} TakenRead(base: set<RR>, domain: string, x: string)
    ensures x in Taken(base, domain) <==> RR(A, "master." + domain + ".", x) in base
  {
    assert MasterName(domain) == "master." + domain + ".";
  }

  lemma {:induction false} PhaseRead(
    base: set<RR>, domain: string, masters: seq<string>, leader: string, ip: string, port: string, order: seq<string>,
    e: RR)
    requires LeaderAddress(leader) == Some((ip + ":" + port, ip, port)) && ip in order
    requires order == MasterOrder(ip + ":" + port, ip, Taken(base, domain), masters)
    ensures e in MasterPhase(base, domain, masters, leader) <==>
            e in base || (e.host != "" && MasterRecordOf(domain, ip, port, order, e))
  {
    MasterPhaseMeaning(base, domain, masters, leader);
    EventsRead(domain, ip, port, e);
    OrderedRecordsRead(domain, order, e);
    var i :| 0 <= i < |order| && order[i] == ip;
  }

  lemma {:induction false} EventsRead(domain: string, ip: string, port: string, e: RR)
    ensures e in LeaderEvents(domain, ip, port) <==>
            || e == RR(A, "leader." + domain + ".", ip) || e == RR(A, "master." + domain + ".", ip)
            || e == RR(SRV, "_leader._tcp." + domain + ".", "leader." + domain + ".:" + port)
            || e == RR(SRV, "_leader._udp." + domain + ".", "leader." + domain + ".:" + port)
  {
    assert "leader" + Tail(domain) == "leader." + domain + ".";
    assert MasterName(domain) == "master." + domain + ".";
    assert "_leader._tcp" + Tail(domain) == "_leader._tcp." + domain + ".";
    assert "_leader._udp" + Tail(domain) == "_leader._udp." + domain + ".";
    assert "leader" + Tail(domain) + ":" + port == "leader." + domain + ".:" + port;
  }

  lemma {:induction false} OrderedRecordsRead(domain: string, order: seq<string>, e: RR)
    ensures e in General(domain, order) + Numbered(domain, order) <==>
            e.host != "" &&
            exists i :: 0 <= i < |order| && (e == RR(A, "master." + domain + ".", order[i]) ||
                                             e == RR(A, "master" + Itoa(i) + "." + domain + ".", order[i]))
  {
    assert MasterName(domain) == "master." + domain + ".";
    forall i: nat ensures MasterNName(domain, i) == "master" + Itoa(i) + "." + domain + "." {
      assert "master" + Itoa(i) + Tail(domain) == "master" + Itoa(i) + "." + domain + ".";
    }
    if e in General(domain, order) {
      var i :| 0 <= i < |order| && e == RR(A, MasterName(domain), order[i]);
    }
  }

  lemma {:induction false} ListFollowed(
    leaderAddress: string, ip: string, port: string, taken: set<string>, masters: seq<string>, order: seq<string>,
    i: nat, j: nat)
    requires ':' !in ip && leaderAddress == ip + ":" + port
    requires order == MasterOrder(leaderAddress, ip, taken, masters) && i < j < |order|
    ensures FollowsList(leaderAddress, ip, masters, order, i, j)
  {
    var p := NumberingFollowsList(leaderAddress, ip, taken, masters, i, j);
    CandidateRead(leaderAddress, ip, port, taken, masters[p], order[i]);
    OrderRead(leaderAddress, ip, port, taken, masters, order[j]);
    assert order[j] in order;
    forall q | 0 <= q <= p ensures !StandsFor(masters[q], leaderAddress, ip, order[j]) {
      CandidateRead(leaderAddress, ip, port, taken, masters[q], order[j]);
    }
  }
}
