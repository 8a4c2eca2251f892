/** Records mirrored into Consul and how two sets of them are compared
    (resolvers/consul/utils.go). */
module ConsulRecords {
  import opened Sequences
  import opened Text

  /** The registration fields that CreateService ever sets. */
  datatype Service = Service(id: string, name: string, address: string, port: int, tags: seq<string>)

  datatype CheckDefinition = CheckDefinition(
    script: string, dockerContainerID: string, shell: string, interval: string, timeout: string,
    ttl: string, http: string, tcp: string, status: string)

  datatype Check = Check(id: string, name: string, notes: string, serviceID: string, definition: CheckDefinition)

  datatype Action = NoAction | Add | Remove

  datatype RecordType = Untyped | ServiceType | CheckType

  datatype Record = Record(
    action: Action, address: string, slaveID: string, recordType: RecordType,
    service: Option<Service>, check: Option<Check>)

  /** Go's zero value, which pads the slices built with `make([]Record, n)`. */
  const ZERO_RECORD := Record(NoAction, "", "", Untyped, None, None)

  /** A record carries exactly the registration its type announces. */
  predicate WellFormed(r: Record) {
    match r.recordType
    case Untyped => r.service == None && r.check == None
    case ServiceType => r.service.Some? && r.check == None
    case CheckType => r.check.Some? && r.service == None
  }

  predicate Live(r: Record) { WellFormed(r) && r.recordType != Untyped }

  function Id(r: Record): string {
    if r.service.Some? then r.service.value.id
    else if r.check.Some? then r.check.value.id
    else ""
  }

  // ----- comparing registrations

  predicate SameService(newService: Service, oldService: Service) {
    && newService.id == oldService.id
    && newService.name == oldService.name
    && newService.address == oldService.address
    && newService.port == oldService.port
    && |newService.tags| == |oldService.tags|
    && forall t :: t in oldService.tags ==> t in newService.tags
  }

  /** compareService: the two nested tag loops decide the one-way inclusion. */
  method CompareService(newService: Service, oldService: Service) returns (same: bool)
    ensures same <==> SameService(newService, oldService)
  {
    if newService.id != oldService.id { return false; }
    if newService.name != oldService.name { return false; }
    if newService.address != oldService.address { return false; }
    if newService.port != oldService.port { return false; }
    if |newService.tags| != |oldService.tags| { return false; }
    for i := 0 to |oldService.tags|
      invariant forall k :: 0 <= k < i ==> oldService.tags[k] in newService.tags
    {
      var found := false;
      for j := 0 to |newService.tags|
        invariant found <==> oldService.tags[i] in newService.tags[..j]
      {
        if oldService.tags[i] == newService.tags[j] { found := true; }
      }
      assert newService.tags[..|newService.tags|] == newService.tags;
      if !found {
        assert oldService.tags[i] !in newService.tags;
        return false;
      }
    }
    return true;
  }

  /** compareCheck, which leaves the notes out of the comparison. */
  predicate SameCheck(newCheck: Check, oldCheck: Check) {
    && newCheck.id == oldCheck.id
    && newCheck.name == oldCheck.name
    && newCheck.serviceID == oldCheck.serviceID
    && newCheck.definition == oldCheck.definition
  }

  lemma {:induction false} DistinctMultiplicity<T>(s: seq<T>, x: T)
    requires Distinct(s)
    ensures multiset(s)[x] <= 1
  {
    if s == [] {
    } else {
      var last := s[|s| - 1];
      assert s == s[..|s| - 1] + [last];
      DistinctMultiplicity(s[..|s| - 1], x);
      assert x == last ==> x !in s[..|s| - 1];
    }
  }

  /** Pigeonhole: a list that contains every element of an equally long
      duplicate-free list is a permutation of it. */
  lemma {:induction false} PigeonholePermutation<T>(a: seq<T>, b: seq<T>)
    requires |a| == |b| && Distinct(b)
    requires forall t :: t in b ==> t in a
    ensures multiset(a) == multiset(b)
  {
    forall t ensures multiset(b)[t] <= multiset(a)[t] {
      DistinctMultiplicity(b, t);
      assert t in multiset(b) <==> t in b;
      assert t in multiset(a) <==> t in a;
    }
    var rest := multiset(a) - multiset(b);
    assert multiset(a) == multiset(b) + rest;
    assert |rest| == 0;
  }

  /** Equal but for the order of the tags. */
  ghost predicate EqualUpToTagOrder(a: Service, b: Service) {
    a.(tags := []) == b.(tags := []) && multiset(a.tags) == multiset(b.tags)
  }

  lemma {:induction false} TagOrderGivesSame(a: Service, b: Service)
    requires EqualUpToTagOrder(a, b)
    ensures SameService(a, b) && SameService(b, a)
  {
    assert |multiset(a.tags)| == |multiset(b.tags)|;
    forall t ensures t in a.tags <==> t in b.tags {
      assert t in a.tags <==> t in multiset(a.tags);
      assert t in b.tags <==> t in multiset(b.tags);
    }
  }

  /** On a duplicate-free old tag list the comparison means equality up to tag order, and
      on no other (OneWayMeaningExactlyWhen). */
  lemma {:induction false} CompareServiceMeaning(newService: Service, oldService: Service)
    requires Distinct(oldService.tags)
    ensures SameService(newService, oldService) <==> EqualUpToTagOrder(newService, oldService)
  {
    if SameService(newService, oldService) {
      PigeonholePermutation(newService.tags, oldService.tags);
    }
    if EqualUpToTagOrder(newService, oldService) {
      TagOrderGivesSame(newService, oldService);
    }
  }

  /** compareService is an equivalence on services with duplicate-free tags. */
  lemma {:induction false} CompareServiceEquivalence(a: Service, b: Service, c: Service)
    requires Distinct(a.tags) && Distinct(b.tags) && Distinct(c.tags)
    ensures SameService(a, a)
    ensures SameService(a, b) <==> SameService(b, a)
    ensures SameService(a, b) && SameService(b, c) ==> SameService(a, c)
    ensures SameService(a, b) <==> a.(tags := []) == b.(tags := []) && (set t | t in a.tags) == (set t | t in b.tags)
  {
    CompareServiceMeaning(a, b);
    CompareServiceMeaning(b, a);
    CompareServiceMeaning(b, c);
    CompareServiceMeaning(a, c);
    var A, B := (set t | t in a.tags), (set t | t in b.tags);
    if SameService(a, b) {
      assert forall t :: t in A <==> t in B;
    }
    if a.(tags := []) == b.(tags := []) && A == B {
      DistinctSetSize(a.tags);
      DistinctSetSize(b.tags);
      assert forall t :: t in b.tags ==> t in B;
    }
  }

  /** With a repeated tag the two directions disagree, so one delta keeps what the
      other drops. */
  lemma CompareServiceNotSymmetric(id: string)
    ensures var a := Service(id, "", "", 0, ["x", "x"]);
            var b := Service(id, "", "", 0, ["x", "y"]);
            SameService(b, a) && !SameService(a, b)
  {
    assert "y" in ["x", "y"] && "y" !in ["x", "x"];
  }

  /** With repeated tags a change can go unnoticed in both directions. */
  lemma RepeatedTagsHideChange(id: string)
    ensures var a := Service(id, "", "", 0, ["x", "x", "y"]);
            var b := Service(id, "", "", 0, ["x", "y", "y"]);
            SameService(a, b) && SameService(b, a) && !EqualUpToTagOrder(a, b)
  {
    assert multiset(["x", "x", "y"])["x"] == 2 && multiset(["x", "y", "y"])["x"] == 1;
  }

  // ----- which tag lists can be told apart

  ghost predicate Uniform<T>(s: seq<T>) { forall i, j :: 0 <= i < |s| && 0 <= j < |s| ==> s[i] == s[j] }

  /** Compared in both directions, tag lists like this one are told from all others. */
  ghost predicate Distinguishable(tags: seq<string>) { Distinct(tags) || Uniform(tags) }

  /** One direction of the comparison recognises a service exactly when its tags are
      duplicate-free. */
  lemma {:induction false} OneWayMeaningExactlyWhen(o: Service)
    ensures (forall n :: SameService(n, o) ==> EqualUpToTagOrder(n, o)) <==> Distinct(o.tags)
  {
    if Distinct(o.tags) {
      forall n | SameService(n, o) ensures EqualUpToTagOrder(n, o) {
        CompareServiceMeaning(n, o);
      }
    } else {
      var n := OneWayImpostor(o);
    }
  }

  /** The comparison with a service is symmetric exactly when its tags are duplicate-free. */
  lemma {:induction false} SymmetricExactlyWhen(o: Service)
    ensures (forall n :: SameService(n, o) ==> SameService(o, n)) <==> Distinct(o.tags)
  {
    if Distinct(o.tags) {
      forall n | SameService(n, o) ensures SameService(o, n) {
        CompareServiceMeaning(n, o);
        TagOrderGivesSame(n, o);
      }
    } else {
      var n := OneWayImpostor(o);
    }
  }

  /** Both directions together do so exactly when the tags are duplicate-free or all equal. */
  lemma {:induction false} TwoWayMeaningExactlyWhen(o: Service)
    ensures (forall n :: SameService(n, o) && SameService(o, n) ==> EqualUpToTagOrder(n, o)) <==>
            Distinguishable(o.tags)
  {
    if Distinguishable(o.tags) {
      forall n | SameService(n, o) && SameService(o, n) ensures EqualUpToTagOrder(n, o) {
        TwoWayMeaning(n, o);
      }
    } else {
      var n := TwoWayImpostor(o);
    }
  }

  lemma {:induction false} TwoWayMeaning(n: Service, o: Service)
    requires Distinguishable(o.tags) && SameService(n, o) && SameService(o, n)
    ensures EqualUpToTagOrder(n, o)
  {
    if Distinct(o.tags) {
      CompareServiceMeaning(n, o);
    } else {
      forall i | 0 <= i < |n.tags| ensures n.tags[i] == o.tags[i] {
        assert n.tags[i] in o.tags;
      }
      assert n.tags == o.tags;
    }
  }

  /** A text longer than all of the list, hence not in it. */
  lemma {:induction false} FreshText(s: seq<string>) returns (t: string)
    ensures t !in s
    ensures forall x :: x in s ==> |x| < |t|
  {
    if s == [] {
      t := "x";
    } else {
      var init, last := s[..|s| - 1], s[|s| - 1];
      assert s == init + [last];
      var t0 := FreshText(init);
      t := t0 + last + "x";
    }
  }

  /** Overwriting one of two equal elements by another one changes the list as a multiset. */
  lemma OverwriteChanges<T>(s: seq<T>, i: nat, y: T)
    requires i < |s| && s[i] != y
    ensures multiset(s[i := y]) != multiset(s)
  {
    assert multiset(s[i := y])[y] == multiset(s)[y] + 1;
  }

  /** Overwriting one of two equal elements keeps every element. */
  lemma OverwriteKeeps<T>(s: seq<T>, i: nat, j: nat, y: T)
    requires i < |s| && j < |s| && i != j && s[i] == s[j]
    ensures forall t :: t in s[j := y] <==> t in s || t == y
  {
    var r := s[j := y];
    forall t ensures t in r <==> t in s || t == y {
      if t in s {
        var k :| 0 <= k < |s| && s[k] == t;
        assert r[if k == j then i else k] == t;
      }
      assert r[j] == y;
    }
  }

  /** A repeated tag overwritten by a new one goes unnoticed in one direction. */
  lemma {:induction false} OneWayImpostor(o: Service) returns (n: Service)
    requires !Distinct(o.tags)
    ensures SameService(n, o) && !SameService(o, n) && !EqualUpToTagOrder(n, o)
  {
    var i, j :| 0 <= i < j < |o.tags| && o.tags[i] == o.tags[j];
    var y := FreshText(o.tags);
    n := o.(tags := o.tags[j := y]);
    OverwriteKeeps(o.tags, i, j, y);
    assert n.tags[j] == y;
    OverwriteChanges(o.tags, j, y);
  }

  /** A repeated tag overwritten by another one of the service goes unnoticed in both. */
  lemma {:induction false} TwoWayImpostor(o: Service) returns (n: Service)
    requires !Distinguishable(o.tags)
    ensures SameService(n, o) && SameService(o, n) && !EqualUpToTagOrder(n, o)
  {
    var i, j :| 0 <= i < j < |o.tags| && o.tags[i] == o.tags[j];
    var k, l :| 0 <= k < |o.tags| && 0 <= l < |o.tags| && o.tags[k] != o.tags[l];
    var y := if o.tags[k] != o.tags[j] then o.tags[k] else o.tags[l];
    n := o.(tags := o.tags[j := y]);
    OverwriteKeeps(o.tags, i, j, y);
    OverwriteChanges(o.tags, j, y);
  }

  // ----- deltas between record sets

  predicate FoundService(s: Service, olds: seq<Record>) {
    exists i :: 0 <= i < |olds| && olds[i].service.Some? && SameService(s, olds[i].service.value)
  }

  predicate FoundCheck(c: Check, olds: seq<Record>) {
    exists i :: 0 <= i < |olds| && olds[i].check.Some? && SameCheck(c, olds[i].check.value)
  }

  function ServicesOf(recs: seq<Record>): (r: seq<Record>)
    ensures forall x :: x in r <==> x in recs && x.service.Some?
  {
    if recs == [] then []
    else
      var last := recs[|recs| - 1];
      ServicesOf(recs[..|recs| - 1]) + if last.service.Some? then [last] else []
  }

  function ChecksOf(recs: seq<Record>): (r: seq<Record>)
    ensures forall x :: x in r <==> x in recs && x.check.Some?
  {
    if recs == [] then []
    else
      var last := recs[|recs| - 1];
      ChecksOf(recs[..|recs| - 1]) + if last.check.Some? then [last] else []
  }

  /** The services of `news` that match none of `olds`, stamped with the action. */
  function DeltaServices(olds: seq<Record>, news: seq<Record>, action: Action): (delta: seq<Record>)
  {
    if news == [] then []
    else
      var last := news[|news| - 1];
      DeltaServices(olds, news[..|news| - 1], action) +
      if last.service.Some? && !FoundService(last.service.value, olds) then [last.(action := action)] else []
  }

  function DeltaChecks(olds: seq<Record>, news: seq<Record>, action: Action): (delta: seq<Record>)
  {
    if news == [] then []
    else
      var last := news[|news| - 1];
      DeltaChecks(olds, news[..|news| - 1], action) +
      if last.check.Some? && !FoundCheck(last.check.value, olds) then [last.(action := action)] else []
  }

  function DeltaRecords(olds: seq<Record>, news: seq<Record>, action: Action): (delta: seq<Record>)
  {
    DeltaServices(ServicesOf(olds), ServicesOf(news), action) + DeltaChecks(ChecksOf(olds), ChecksOf(news), action)
  }

  method GetDeltaServices(olds: seq<Record>, news: seq<Record>, action: Action) returns (delta: seq<Record>)
    requires forall r :: r in olds || r in news ==> r.service.Some?
    ensures delta == DeltaServices(olds, news, action)
  {
    delta := [];
    for i := 0 to |news|
      invariant delta == DeltaServices(olds, news[..i], action)
    {
      assert news[..i + 1][..i] == news[..i];
      var found := false;
      for j := 0 to |olds|
        invariant !found
        invariant forall k :: 0 <= k < j ==> !SameService(news[i].service.value, olds[k].service.value)
      {
        var same := CompareService(news[i].service.value, olds[j].service.value);
        if same {
          found := true;
          break;
        }
      }
      if !found {
        delta := delta + [news[i].(action := action)];
      }
    }
    assert news[..|news|] == news;
  }

  method GetDeltaChecks(olds: seq<Record>, news: seq<Record>, action: Action) returns (delta: seq<Record>)
    requires forall r :: r in olds || r in news ==> r.check.Some?
    ensures delta == DeltaChecks(olds, news, action)
  {
    delta := [];
    for i := 0 to |news|
      invariant delta == DeltaChecks(olds, news[..i], action)
    {
      assert news[..i + 1][..i] == news[..i];
      var found := false;
      for j := 0 to |olds|
        invariant !found
        invariant forall k :: 0 <= k < j ==> !SameCheck(news[i].check.value, olds[k].check.value)
      {
        if SameCheck(news[i].check.value, olds[j].check.value) {
          found := true;
          break;
        }
      }
      if !found {
        delta := delta + [news[i].(action := action)];
      }
    }
    assert news[..|news|] == news;
  }

  /** The partition loops at the head of getDeltaRecords. */
  method Partition(recs: seq<Record>) returns (services: seq<Record>, checks: seq<Record>)
    ensures services == ServicesOf(recs) && checks == ChecksOf(recs)
  {
    services, checks := [], [];
    for i := 0 to |recs|
      invariant services == ServicesOf(recs[..i]) && checks == ChecksOf(recs[..i])
    {
      assert recs[..i + 1][..i] == recs[..i];
      if recs[i].service.Some? { services := services + [recs[i]]; }
      if recs[i].check.Some? { checks := checks + [recs[i]]; }
    }
    assert recs[..|recs|] == recs;
  }

  method GetDeltaRecords(olds: seq<Record>, news: seq<Record>, action: Action) returns (delta: seq<Record>)
    ensures delta == DeltaRecords(olds, news, action)
  {
    var oldServices, oldChecks := Partition(olds);
    var newServices, newChecks := Partition(news);
    delta := GetDeltaServices(oldServices, newServices, action);
    var checks := GetDeltaChecks(oldChecks, newChecks, action);
    delta := delta + checks;
  }

  /** One record matches another of the same kind, seen as (new, old). */
  predicate Matches(n: Record, o: Record) {
    || (n.service.Some? && o.service.Some? && SameService(n.service.value, o.service.value))
    || (n.check.Some? && o.check.Some? && SameCheck(n.check.value, o.check.value))
  }

  lemma {:induction false} DeltaServicesMember(olds: seq<Record>, news: seq<Record>, action: Action, x: Record)
    ensures x in DeltaServices(olds, news, action) <==>
            exists n :: n in news && x == n.(action := action) && n.service.Some? &&
              !FoundService(n.service.value, olds)
  {
    if news == [] {
    } else {
      var init, last := news[..|news| - 1], news[|news| - 1];
      assert news == init + [last];
      DeltaServicesMember(olds, init, action, x);
      assert forall n :: n in news <==> n in init || n == last;
    }
  }

  lemma {:induction false} DeltaChecksMember(olds: seq<Record>, news: seq<Record>, action: Action, x: Record)
    ensures x in DeltaChecks(olds, news, action) <==>
            exists n :: n in news && x == n.(action := action) && n.check.Some? && !FoundCheck(n.check.value, olds)
  {
    if news == [] {
    } else {
      var init, last := news[..|news| - 1], news[|news| - 1];
      assert news == init + [last];
      DeltaChecksMember(olds, init, action, x);
      assert forall n :: n in news <==> n in init || n == last;
    }
  }

  ghost predicate Unmatched(n: Record, olds: seq<Record>) { forall o :: o in olds ==> !Matches(n, o) }

  lemma {:induction false} FoundMeansMatched(n: Record, olds: seq<Record>)
    requires Live(n)
    ensures n.service.Some? ==> (FoundService(n.service.value, ServicesOf(olds)) <==> !Unmatched(n, olds))
    ensures n.check.Some? ==> (FoundCheck(n.check.value, ChecksOf(olds)) <==> !Unmatched(n, olds))
  {
    var services, checks := ServicesOf(olds), ChecksOf(olds);
    if !Unmatched(n, olds) {
      var o :| o in olds && Matches(n, o);
      if n.service.Some? {
        assert o in services;
        var i :| 0 <= i < |services| && services[i] == o;
      } else {
        assert o in checks;
        var i :| 0 <= i < |checks| && checks[i] == o;
      }
    }
    if n.service.Some? && FoundService(n.service.value, services) {
      var i :| 0 <= i < |services| && services[i].service.Some? &&
        SameService(n.service.value, services[i].service.value);
      assert services[i] in olds && Matches(n, services[i]);
    }
    if n.check.Some? && FoundCheck(n.check.value, checks) {
      var i :| 0 <= i < |checks| && checks[i].check.Some? && SameCheck(n.check.value, checks[i].check.value);
      assert checks[i] in olds && Matches(n, checks[i]);
    }
  }

  /** Every record of the delta is an unmatched live record of `news`. */
  lemma {:induction false} DeltaSound(
    olds: seq<Record>, news: seq<Record>, action: Action, x: Record) returns (n: Record)
    requires forall r :: r in news ==> WellFormed(r)
    requires x in DeltaRecords(olds, news, action)
    ensures n in news && x == n.(action := action) && Live(n) && Unmatched(n, olds)
  {
    DeltaServicesMember(ServicesOf(olds), ServicesOf(news), action, x);
    DeltaChecksMember(ChecksOf(olds), ChecksOf(news), action, x);
    if x in DeltaServices(ServicesOf(olds), ServicesOf(news), action) {
      n :| n in ServicesOf(news) && x == n.(action := action) && n.service.Some? &&
        !FoundService(n.service.value, ServicesOf(olds));
    } else {
      n :| n in ChecksOf(news) && x == n.(action := action) && n.check.Some? &&
        !FoundCheck(n.check.value, ChecksOf(olds));
    }
    FoundMeansMatched(n, olds);
  }

  /** Every unmatched live record of `news` is in the delta. Zero-record padding on
      either side changes nothing, since it is neither live nor a match. */
  lemma {:induction false} DeltaComplete(olds: seq<Record>, news: seq<Record>, action: Action, n: Record)
    requires n in news && Live(n) && Unmatched(n, olds)
    ensures n.(action := action) in DeltaRecords(olds, news, action)
  {
    FoundMeansMatched(n, olds);
    if n.service.Some? {
      assert n in ServicesOf(news);
      DeltaServicesMember(ServicesOf(olds), ServicesOf(news), action, n.(action := action));
    } else {
      assert n in ChecksOf(news);
      DeltaChecksMember(ChecksOf(olds), ChecksOf(news), action, n.(action := action));
    }
  }
}
