/** The list of masters kept by the leader detector (detect/masters.go). */
module MasterDetector {

  /** A callback of the detector, with the address of each reported master; a nil
      MasterInfo has the empty address. */
  datatype Event = LeaderChanged(leader: string) | MastersUpdated(reported: seq<string>)

  function Without(s: seq<string>, unwanted: set<string>): (r: seq<string>)
    ensures forall x :: x in r <==> x in s && x !in unwanted
  {
    if s == [] then []
    else
      var last := s[|s| - 1];
      Without(s[..|s| - 1], unwanted) + if last in unwanted then [] else [last]
  }

  /** Element by element, in order. */
  lemma {:induction false} WithoutAppend(a: seq<string>, b: seq<string>, unwanted: set<string>)
    ensures Without(a + b, unwanted) == Without(a, unwanted) + Without(b, unwanted)
  {
    if b == [] {
      assert a + b == a;
    } else {
      var n := |b| - 1;
      WithoutAppend(a, b[..n], unwanted);
      assert (a + b)[..|a + b| - 1] == a + b[..n];
    }
  }

  lemma WithoutOne(x: string, unwanted: set<string>)
    ensures Without([x], unwanted) == if x in unwanted then [] else [x]
  {
    assert [x][..0] == [];
  }

  lemma {:induction false} WithoutTwice(s: seq<string>, a: set<string>, b: set<string>)
    ensures Without(Without(s, a), b) == Without(s, a + b)
  {
    if s == [] {
    } else {
      var init, last := s[..|s| - 1], s[|s| - 1];
      WithoutTwice(init, a, b);
      if last !in a {
        var kept := Without(init, a) + [last];
        assert kept[..|kept| - 1] == Without(init, a);
      } else {
        assert Without(s, a) == Without(init, a);
      }
    }
  }

  class Masters {
    /** First the leader, then the remaining masters. */
    var masters: seq<string>
    /** What has been sent to the channel of changes. */
    var changed: seq<seq<string>>

    constructor (initial: seq<string>)
      ensures masters == [""] + initial && changed == []
    {
      masters := [""] + initial;
      changed := [];
    }

    method OnMasterChanged(leader: string)
      requires masters != []
      modifies this
      ensures masters == After(old(masters), LeaderChanged(leader))
      ensures changed == old(changed) + [masters]
    {
      masters := Ordered(leader, masters[1..]);
      changed := changed + [masters];
    }

    method UpdatedMasters(infos: seq<string>)
      requires masters != []
      modifies this
      ensures masters == After(old(masters), MastersUpdated(infos))
      ensures changed == old(changed) + [masters]
    {
      var reported := [];
      for i := 0 to |infos|
        invariant reported == Without(infos[..i], {""})
        invariant masters == old(masters) && changed == old(changed)
      {
        assert infos[..i + 1][..i] == infos[..i];
        if infos[i] != "" { reported := reported + [infos[i]]; }
      }
      assert infos[..|infos|] == infos;
      masters := Ordered(masters[0], reported);
      changed := changed + [masters];
    }

    /** Any sequence of callbacks. Each emitted snapshot is the list right after its
        callback. */
    method Handle(events: seq<Event>)
      requires masters != []
      modifies this
      ensures masters == AfterAll(old(masters), events)
      ensures changed == old(changed) + Snapshots(old(masters), events)
    {
      for i := 0 to |events|
        invariant masters != []
        invariant masters == AfterAll(old(masters), events[..i])
        invariant changed == old(changed) + Snapshots(old(masters), events[..i])
      {
        HandleNext(old(masters), events, i);
        match events[i] {
          case LeaderChanged(leader) => OnMasterChanged(leader);
          case MastersUpdated(reported) => UpdatedMasters(reported);
        }
      }
      assert events[..|events|] == events;
    }
  }

  /** ordered: the leader, then the masters other than the leader. */
  method Ordered(leader: string, masters: seq<string>) returns (ms: seq<string>)
    ensures ms == [leader] + Without(masters, {leader})
  {
    ms := [leader];
    for i := 0 to |masters|
      invariant ms == [leader] + Without(masters[..i], {leader})
    {
      assert masters[..i + 1][..i] == masters[..i];
      if masters[i] != leader { ms := ms + [masters[i]]; }
    }
    assert masters[..|masters|] == masters;
  }

  /** The list after one callback. */
  function After(ms: seq<string>, e: Event): (r: seq<string>)
    requires ms != []
    ensures r != []
  {
    match e
    case LeaderChanged(leader) => [leader] + Without(ms[1..], {leader})
    case MastersUpdated(reported) => [ms[0]] + Without(Without(reported, {""}), {ms[0]})
  }

  function AfterAll(ms: seq<string>, events: seq<Event>): (r: seq<string>)
    requires ms != []
    ensures r != []
  {
    if events == [] then ms else After(AfterAll(ms, events[..|events| - 1]), events[|events| - 1])
  }

  /** The list after each of the callbacks. */
  function Snapshots(ms: seq<string>, events: seq<Event>): (r: seq<seq<string>>)
    requires ms != []
    ensures |r| == |events|
  {
    if events == [] then [] else Snapshots(ms, events[..|events| - 1]) + [AfterAll(ms, events)]
  }

  /** Step of a loop over the callbacks. */
  lemma {:induction false} HandleNext(ms: seq<string>, events: seq<Event>, i: nat)
    requires ms != [] && i < |events|
    ensures AfterAll(ms, events[..i + 1]) == After(AfterAll(ms, events[..i]), events[i])
    ensures Snapshots(ms, events[..i + 1]) == Snapshots(ms, events[..i]) + [AfterAll(ms, events[..i + 1])]
  {
    assert events[..i + 1][..i] == events[..i];
  }

  // ----- the same list read off the history

  /** The last reported leader, empty before the first report. */
  function LastLeader(events: seq<Event>): string {
    if events == [] then ""
    else
      var last := events[|events| - 1];
      if last.LeaderChanged? then last.leader else LastLeader(events[..|events| - 1])
  }

  /** The last reported list of masters, at first the configured one. */
  function LastReport(initial: seq<string>, events: seq<Event>): seq<string> {
    if events == [] then initial
    else
      var last := events[|events| - 1];
      if last.MastersUpdated? then last.reported else LastReport(initial, events[..|events| - 1])
  }

  /** Every address that was leader at or since the last report, and the empty address
      if there was a report. */
  function LeadersSinceReport(events: seq<Event>): set<string> {
    if events == [] then {}
    else
      var last, init := events[|events| - 1], events[..|events| - 1];
      if last.MastersUpdated? then {LastLeader(init), ""}
      else LeadersSinceReport(init) + {last.leader}
  }

  /** The list is a function of the history: the last leader, followed by the last report
      in its order without anyone who was leader at or since that report. */
  lemma {:induction false} HistoryInvariant(initial: seq<string>, events: seq<Event>)
    ensures AfterAll([""] + initial, events) ==
            [LastLeader(events)] + Without(LastReport(initial, events), LeadersSinceReport(events))
  {
    if events == [] {
      NothingUnwanted(initial);
    } else {
      var init, last := events[..|events| - 1], events[|events| - 1];
      HistoryInvariant(initial, init);
      match last {
        case LeaderChanged(leader) =>
          WithoutTwice(LastReport(initial, init), LeadersSinceReport(init), {leader});
        case MastersUpdated(reported) =>
          WithoutTwice(reported, {""}, {LastLeader(init)});
          assert {""} + {LastLeader(init)} == {LastLeader(init), ""};
      }
    }
  }

  lemma {:induction false} NothingUnwanted(s: seq<string>)
    ensures Without(s, {}) == s
  {
    if s == [] {
    } else {
      NothingUnwanted(s[..|s| - 1]);
    }
  }

  /** The leader never recurs among the remaining masters, provided there has been a
      callback or the configured list has no empty address. */
  lemma {:induction false} LeaderNotRepeated(initial: seq<string>, events: seq<Event>)
    ensures var ms := AfterAll([""] + initial, events);
            ms[0] !in ms[1..] <==> !(events == [] && "" in initial)
  {
    HistoryInvariant(initial, events);
    if events == [] {
      assert ([""] + initial)[1..] == initial;
    } else {
      LastLeaderIsUnwanted(events);
    }
  }

  lemma {:induction false} LastLeaderIsUnwanted(events: seq<Event>)
    requires events != []
    ensures LastLeader(events) in LeadersSinceReport(events)
  {
  }
}
