/** Where the addresses and ports of a task come from (records/state/state.go and getAddress in
    resolvers/consul/utils.go), spelled out source by source. */
module AddressSources {
  import opened MesosState
  import opened Sequences
  import opened Text

  // ----- the latest running status

  /** The first of the running statuses with the greatest timestamp. */
  ghost predicate LatestAt(st: seq<Status>, j: int) {
    && 0 <= j < |st| && st[j].state == "TASK_RUNNING" && st[j].timestamp > -1.0
    && (forall i :: 0 <= i < j && st[i].state == "TASK_RUNNING" ==> st[i].timestamp < st[j].timestamp)
    && (forall i :: j < i < |st| && st[i].state == "TASK_RUNNING" ==> st[i].timestamp <= st[j].timestamp)
  }

  lemma {:induction false} LatestRead(st: seq<Status>)
    ensures Latest(st) == None <==> forall s :: s in st && s.state == "TASK_RUNNING" ==> s.timestamp <= -1.0
    ensures forall j :: LatestAt(st, j) ==> Latest(st) == Some(st[j])
  {
    if st == [] {
    } else {
      var init, last := st[..|st| - 1], st[|st| - 1];
      assert st == init + [last];
      LatestRead(init);
      forall j | LatestAt(st, j) ensures Latest(st) == Some(st[j]) {
        if j < |init| {
          assert LatestAt(init, j) && init[j] == st[j];
        } else {
          assert forall s :: s in init && s.state == "TASK_RUNNING" ==> s.timestamp < last.timestamp;
        }
      }
    }
  }

  // ----- what a status holds

  /** The values under the key, label by label. */
  lemma {:induction false} LabelValuesAppend(a: seq<KeyValue>, b: seq<KeyValue>, key: string)
    ensures LabelValues(a + b, key) == LabelValues(a, key) + LabelValues(b, key)
  {
    if b == [] {
      assert a + b == a;
    } else {
      var n := |b| - 1;
      LabelValuesAppend(a, b[..n], key);
      assert (a + b)[..|a + b| - 1] == a + b[..n];
    }
  }

  lemma LabelValueOne(l: KeyValue, key: string)
    ensures LabelValues([l], key) == if l.key == key then [l.value] else []
  {
    assert [l][..0] == [];
  }

  /** The addresses of the network infos, info by info: the list if there is one, else the
      single address if there is one. */
  lemma {:induction false} NetworkIPsAppend(a: seq<NetworkInfo>, b: seq<NetworkInfo>)
    ensures NetworkIPs(a + b) == NetworkIPs(a) + NetworkIPs(b)
  {
    if b == [] {
      assert a + b == a;
    } else {
      var n := |b| - 1;
      NetworkIPsAppend(a, b[..n]);
      assert (a + b)[..|a + b| - 1] == a + b[..n];
    }
  }

  lemma NetworkIPsOne(info: NetworkInfo)
    ensures NetworkIPs([info]) ==
            if info.ipAddresses != [] then info.ipAddresses
            else if info.ipAddress != "" then [info.ipAddress] else []
  {
    assert [info][..0] == [];
  }

  // ----- the sources

  /** Each source on a task with a running status: the slave's address, the labels of the two
      containerizers, the network infos behind as many empty addresses; nothing else. */
  lemma {:induction false} SourcesRead(t: Task, j: int)
    requires LatestAt(t.statuses, j)
    ensures var s := t.statuses[j];
            && Source(t, "host") == [t.slaveIP]
            && Source(t, "mesos") == LabelValues(s.labels, "MesosContainerizer.NetworkSettings.IPAddress")
            && Source(t, "docker") == LabelValues(s.labels, "Docker.NetworkSettings.IPAddress")
            && Source(t, "netinfo") == seq(|s.networkInfos|, i => "") + NetworkIPs(s.networkInfos)
            && forall source :: source !in {"host", "mesos", "docker", "netinfo"} ==> Source(t, source) == []
  {
    LatestRead(t.statuses);
  }

  /** Without one only the slave's address is left. */
  lemma {:induction false} SourcesWithoutStatus(t: Task, source: string)
    requires forall s :: s in t.statuses && s.state == "TASK_RUNNING" ==> s.timestamp <= -1.0
    ensures Source(t, source) == if source == "host" then [t.slaveIP] else []
  {
    LatestRead(t.statuses);
  }

  // ----- Task.IP

  /** No address of the source parses, up to the given one. */
  ghost predicate NoneParses(found: seq<string>, parse: string -> Option<string>, n: nat)
    requires n <= |found|
  {
    forall k :: 0 <= k < n ==> parse(found[k]) == None
  }

  /** The address found is the first of all sources in order that parses. */
  lemma {:induction false} IPRead(
    t: Task, srcs: seq<string>, parse: string -> Option<string>, i: nat, j: nat)
    requires i < |srcs| && j < |Source(t, srcs[i])| && parse(Source(t, srcs[i])[j]).Some?
    requires forall k :: 0 <= k < i ==> NoneParses(Source(t, srcs[k]), parse, |Source(t, srcs[k])|)
    requires NoneParses(Source(t, srcs[i]), parse, j)
    ensures IPOf(t, srcs, parse) == parse(Source(t, srcs[i])[j]).value
  {
    var f := SourceIPs(t, parse);
    EarlierEmpty(srcs[..i], f, t, parse);
    SkipEmpty(srcs, f, i);
    FirstParsed(Source(t, srcs[i]), parse, j);
  }

  lemma {:induction false} SkipEmpty<X, Y>(s: seq<X>, f: X -> seq<Y>, i: nat)
    requires i < |s| && FlatMap(s[..i], f) == []
    ensures FlatMap(s, f) == f(s[i]) + FlatMap(s[i + 1..], f)
  {
    assert s == s[..i] + ([s[i]] + s[i + 1..]);
    FlatMapAppend(s[..i], [s[i]] + s[i + 1..], f);
    FlatMapAppend([s[i]], s[i + 1..], f);
    FlatMapOne(s[i], f);
  }

  lemma {:induction false} EarlierEmpty(
    srcs: seq<string>, f: string -> seq<string>, t: Task, parse: string -> Option<string>)
    requires f == SourceIPs(t, parse)
    requires forall k :: 0 <= k < |srcs| ==> NoneParses(Source(t, srcs[k]), parse, |Source(t, srcs[k])|)
    ensures FlatMap(srcs, f) == []
  {
    if srcs == [] {
    } else {
      var n := |srcs| - 1;
      EarlierEmpty(srcs[..n], f, t, parse);
      NothingParsed(Source(t, srcs[n]), parse);
    }
  }

  lemma {:induction false} NothingParsed(found: seq<string>, parse: string -> Option<string>)
    requires NoneParses(found, parse, |found|)
    ensures FlatMap(found, ParseOne(parse)) == []
  {
    if found == [] {
    } else {
      var n := |found| - 1;
      NothingParsed(found[..n], parse);
      assert parse(found[n]) == None;
    }
  }

  lemma {:induction false} FirstParsed(found: seq<string>, parse: string -> Option<string>, j: nat)
    requires j < |found| && NoneParses(found, parse, j) && parse(found[j]).Some?
    ensures var ips := FlatMap(found, ParseOne(parse)); |ips| > 0 && ips[0] == parse(found[j]).value
  {
    NothingParsed(found[..j], parse);
    SkipEmpty(found, ParseOne(parse), j);
  }

  /** Without any that parses there is none. */
  lemma {:induction false} NoIP(t: Task, srcs: seq<string>, parse: string -> Option<string>)
    requires forall k :: 0 <= k < |srcs| ==> NoneParses(Source(t, srcs[k]), parse, |Source(t, srcs[k])|)
    ensures IPOf(t, srcs, parse) == ""
  {
    EarlierEmpty(srcs, SourceIPs(t, parse), t, parse);
  }

  // ----- getAddress

  /** The four sources of Task.IP, whatever follows a colon. */
  lemma {:induction false} SourceLookUp(
    t: Task, source: string, rest: string, slaveIP: string, parse: string -> Option<string>)
    requires source in {"mesos", "docker", "netinfo", "host"} && (rest == "" || rest[0] == ':')
    ensures LookUp(t, source + rest, slaveIP, parse) == Address(IPOf(t, [source], parse))
  {
    assert ':' !in source;
    HeadOf(source, rest);
  }

  lemma {:induction false} HeadOf(source: string, rest: string)
    requires ':' !in source && (rest == "" || rest[0] == ':')
    ensures Split(source + rest, ':')[0] == source
  {
    SplitHeadIs(source + rest, ':', source);
    assert rest != "" ==> source + [':'] <= source + rest;
  }

  /** A label of the latest status: its first value. Without one the lookup gives up when the
      label is Calico's and the task is to have a Calico address. */
  lemma {:induction false} LabelLookUp(
    t: Task, key: string, slaveIP: string, parse: string -> Option<string>, j: int)
    requires ':' !in key && LatestAt(t.statuses, j)
    ensures var values := LabelValues(t.statuses[j].labels, key);
            var address := if values == [] then "" else values[0];
            LookUp(t, "label:" + key, slaveIP, parse) ==
            if address == "" && key == "CalicoDocker.NetworkSettings.IPAddress" &&
               exists l :: l in t.labels && l.key == "CALICO_IP" then GiveUp
            else Address(address)
  {
    LatestRead(t.statuses);
    assert "label:" + key == "label" + [':'] + key;
    SplitFirst("label", key, ':');
    SplitPlain(key, ':');
  }

  /** The label without a name, or with another colon in it, is fatal. */
  lemma {:induction false} FatalLookUp(
    t: Task, rest: string, slaveIP: string, parse: string -> Option<string>)
    requires rest == "" || (rest[0] == ':' && ':' in rest[1..])
    ensures LookUp(t, "label" + rest, slaveIP, parse) == Fatal
  {
    assert ':' !in "label";
    if rest == "" {
      assert "label" + rest == "label";
      SplitPlain("label", ':');
    } else {
      assert "label" + rest == "label" + [':'] + rest[1..];
      SplitFirst("label", rest[1..], ':');
      SplitPlain(rest[1..], ':');
    }
  }

  /** The fallback is the slave's address, and other entries give nothing. */
  lemma {:induction false} OtherLookUps(
    t: Task, source: string, rest: string, slaveIP: string, parse: string -> Option<string>)
    requires ':' !in source && source !in {"mesos", "docker", "netinfo", "host", "label"}
    requires rest == "" || rest[0] == ':'
    ensures LookUp(t, source + rest, slaveIP, parse) == Address(if source == "fallback" then slaveIP else "")
  {
    HeadOf(source, rest);
  }

  // ----- ports

  /** A range covers its bounds and all numbers between. */
  lemma {:induction false} ExpandRead(r: Range)
    ensures |Expand(r)| == if r.hi < r.lo then 0 else r.hi - r.lo + 1
    ensures forall i :: 0 <= i < |Expand(r)| ==> Expand(r)[i] == Itoa(r.lo + i)
    decreases r.hi - r.lo
  {
    if r.hi < r.lo {
    } else {
      var init := r.(hi := r.hi - 1);
      ExpandRead(init);
      assert Expand(r) == Expand(init) + [Itoa(r.hi)];
      forall i | 0 <= i < |Expand(r)| ensures Expand(r)[i] == Itoa(r.lo + i) {
        if i < |Expand(init)| {
          assert Expand(r)[i] == Expand(init)[i];
        } else {
          assert r.lo + i == r.hi;
        }
      }
    }
  }

  /** White space around a range does not matter. */
  lemma {:induction false} PaddedRange(r: Range, front: string, back: string)
    requires 0 <= r.lo && 0 <= r.hi
    requires forall c :: c in front + back ==>
               c in {'\t', '\n', '\U{0B}', '\U{0C}', '\r', ' ', '\U{85}', '\U{A0}'}
    ensures ParseRange(front + PrintRange(r) + back) == Some(r)
  {
    var s := PrintRange(r);
    RangeEnds(r);
    assert forall c :: c in front + back ==> c in WHITE_SPACE;
    TrimBoth(front, s, back);
    TrimBoth("", s, "");
    assert "" + s == s && s + "" == s;
    ParsePrinted(r, "");
    TrimDecides(front + s + back, s);
  }

  lemma TrimDecides(a: string, b: string)
    requires TrimSpace(a) == TrimSpace(b)
    ensures ParseRange(a) == ParseRange(b)
  {
  }

  lemma {:induction false} RangeEnds(r: Range)
    requires 0 <= r.lo && 0 <= r.hi
    ensures var s := PrintRange(r); s != "" && s[0] !in WHITE_SPACE && s[|s| - 1] !in WHITE_SPACE
  {
    var s, a, b := PrintRange(r), Itoa(r.lo), Itoa(r.hi);
    assert s[0] == a[0] && s[|s| - 1] == b[|b| - 1];
    assert IsDigit(a[0]) && IsDigit(b[|b| - 1]);
  }

  lemma {:induction false} TrimBoth(front: string, s: string, back: string)
    requires s != "" && s[0] !in WHITE_SPACE && s[|s| - 1] !in WHITE_SPACE
    requires forall c :: c in front + back ==> c in WHITE_SPACE
    ensures TrimSpace(front + s + back) == s
  {
    var p := front + s + back;
    assert forall i :: 0 <= i < |front| ==> p[i] in front + back;
    assert p[|front|] == s[0];
    assert SkipForward(p, 0, WHITE_SPACE) == |front|;
    var left := TrimLeft(p, WHITE_SPACE);
    assert left == s + back;
    assert forall i :: |s| <= i < |left| ==> left[i] in front + back;
    assert left[|s| - 1] == s[|s| - 1];
    assert SkipBackward(left, |left|, WHITE_SPACE) == |s|;
  }

  /** The ports cannot be read exactly when there is no opening bracket, or no dash in some
      element of the list that follows it. */
  lemma {:induction false} PortsPanicExactlyWhen(portRanges: string)
    ensures PortsOf(portRanges) == None <==>
            portRanges != "" && portRanges != "[]" &&
            var parts := Split(portRanges, '[');
            |parts| < 2 || exists part :: part in Split(Split(parts[1], ']')[0], ',') && '-' !in part
    ensures |Split(portRanges, '[')| < 2 <==> '[' !in portRanges
  {
    SplitPlain(portRanges, '[');
    if portRanges != "" && portRanges != "[]" && '[' in portRanges {
      var parts := RangeList(portRanges).value;
      forall part ensures ParseRange(part) == None <==> '-' !in part {
        SplitPlain(TrimSpace(part), '-');
        TrimKeepsDash(part);
      }
      if part :| part in parts && '-' !in part {
        var i :| 0 <= i < |parts| && parts[i] == part;
        assert RangeParser()(parts[i]) == None;
      }
      if i :| 0 <= i < |parts| && RangeParser()(parts[i]) == None {
        assert parts[i] in parts;
      }
    }
  }

  lemma {:induction false} TrimKeepsDash(part: string)
    ensures '-' in TrimSpace(part) <==> '-' in part
  {
    var left := TrimLeft(part, WHITE_SPACE);
    var i, j := SkipForward(part, 0, WHITE_SPACE), SkipBackward(left, |left|, WHITE_SPACE);
    assert part == part[..i] + left && left == left[..j] + left[j..];
    assert '-' !in part[..i];
    assert '-' !in left[j..];
  }
}
