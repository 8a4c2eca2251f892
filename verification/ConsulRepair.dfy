/** Repair over runs of the reconciliation loop: what a refresh and two rounds without
    failures make of Consul while others keep writing to it. */
module ConsulRepair {
  import opened ConsulRecords
  import opened ConsulAgent
  import opened ConsulConvergence
  import opened ConsulContents
  import opened ConsulMachine

  // ----- whose services are cached

  /** The record sets received name their services with the prefix. */
  ghost predicate OwnedSets(cfg: Config, steps: seq<Step>) {
    forall i :: 0 <= i < |steps| && steps[i].Receive? ==> ServicesOwned(steps[i].recordSet, cfg.prefix)
  }

  ghost predicate OwnedInv(cfg: Config, s: System) {
    && CachedServicesOwned(s.agent.cache, cfg.prefix)
    && (s.pc.Applying? ==> ServicesOwned(s.pc.queue, cfg.prefix))
  }

  lemma {:induction false} DeltaOwned(
    cfg: Config, a: Agent, recordSet: seq<Record>, listing1: seq<Record>, listing2: seq<Record>)
    requires ValidCache(a.cache) && CachedServicesOwned(a.cache, cfg.prefix) && ServicesOwned(recordSet, cfg.prefix)
    requires AllLive(recordSet) && Enumerates(listing1, a.cache) && Enumerates(listing2, a.cache)
    ensures ServicesOwned(RoundDelta(listing1, listing2, recordSet), cfg.prefix)
  {
    forall r | r in RoundDelta(listing1, listing2, recordSet) && r.service.Some? ensures Owned(cfg.prefix, Id(r)) {
      if r in DeltaRecords(listing1, recordSet, Add) {
        var d := DeltaSound(listing1, recordSet, Add, r);
        assert Id(d) == Id(r);
      } else {
        var c := DeltaSound(recordSet, listing2, Remove, r);
        assert Id(c) == Id(r);
      }
    }
  }

  lemma {:induction false} RefreshOwned(cfg: Config, a: Agent, ok: bool)
    requires ValidStore(a.store) && CachedServicesOwned(a.cache, cfg.prefix)
    requires !cfg.cacheOnly && ok ==> !PullPanics(a.store.services, cfg.prefix)
    ensures CachedServicesOwned(Refreshed(cfg, a, ok).cache, cfg.prefix)
  {
    var b := Refreshed(cfg, a, ok);
    if !cfg.cacheOnly && ok {
      forall k | k in b.cache && b.cache[k].service.Some? ensures Owned(cfg.prefix, k) {
        PulledAt(if a.healthy then a.cache else map[], a.store.services, cfg.prefix, k);
      }
    }
  }

  lemma {:induction false} NextKeepsOwned(cfg: Config, s: System, step: Step, s': System)
    requires cfg.cacheRefresh >= 1 && Inv(cfg, s) && OwnedInv(cfg, s) && Next(cfg, s, step, s')
    requires step.Receive? ==> ServicesOwned(step.recordSet, cfg.prefix)
    ensures OwnedInv(cfg, s')
  {
    match step
    case Refresh(ok) => RefreshOwned(cfg, s.agent, ok);
    case Receive(recordSet, listing1, listing2) => DeltaOwned(cfg, s.agent, recordSet, listing1, listing2);
    case _ =>
  }

  lemma {:induction false} OwnedOverRuns(cfg: Config, run: seq<System>, steps: seq<Step>, i: nat)
    requires cfg.cacheRefresh >= 1 && IsRun(cfg, run, steps) && Init(run[0]) && OwnedSets(cfg, steps) && i < |run|
    ensures OwnedInv(cfg, run[i])
  {
    if i == 0 {
    } else {
      OwnedOverRuns(cfg, run, steps, i - 1);
      SafetyOverRuns(cfg, run, steps, i - 1);
      NextKeepsOwned(cfg, run[i - 1], steps[i - 1], run[i]);
    }
  }

  // ----- rounds among outside writes

  /** A set of entries of Consul. */
  type Entries = (RecordType, string) -> bool

  /** The agents are alike, and so are their Consuls on these entries. */
  ghost predicate AlikeOn(entries: Entries, a: Agent, b: Agent) {
    && a.healthy == b.healthy && a.cache == b.cache
    && forall kind, k :: entries(kind, k) ==> Held(a.store, kind, k) == Held(b.store, kind, k)
  }

  /** Outside writers leave these entries alone in the steps from i to j. */
  ghost predicate QuietOn(entries: Entries, run: seq<System>, steps: seq<Step>, i: nat, j: nat)
    requires i <= j <= |steps| && |run| == |steps| + 1
  {
    forall m, kind, k :: i <= m < j && steps[m].Outside? && entries(kind, k) ==>
      Held(steps[m].store, kind, k) == Held(run[m].agent.store, kind, k)
  }

  /** The steps from i to j receive the set D and carry out its delta without failures,
      with outside writes anywhere. */
  ghost predicate DoneRound(steps: seq<Step>, i: nat, j: nat, D: seq<Record>) {
    i < j <= |steps| && steps[j - 1] == EndRound && exists p :: DoneRoundAt(steps, i, p, j, D)
  }

  ghost predicate DoneRoundAt(steps: seq<Step>, i: nat, p: int, j: nat, D: seq<Record>)
    requires i < j <= |steps|
  {
    && i <= p < j - 1 && steps[p].Receive? && steps[p].recordSet == D
    && (forall m :: i <= m < p ==> steps[m].Outside?)
    && (forall m :: p < m < j - 1 ==> steps[m].Outside? || steps[m] == Call(Done))
  }

  function AlwaysDone(): nat -> Outcome { (i: nat) => Done }

  lemma {:induction false} AlikeCall(entries: Entries, a: Agent, b: Agent, r: Record, outcome: Outcome)
    requires AlikeOn(entries, a, b) && Live(r) && r.action != NoAction
    ensures AlikeOn(entries, ApplyCall(a, r, outcome), ApplyCall(b, r, outcome))
  {
    var a', b' := ApplyCall(a, r, outcome), ApplyCall(b, r, outcome);
    forall kind, k | entries(kind, k) ensures Held(a'.store, kind, k) == Held(b'.store, kind, k) {
      if kind != Untyped {
        EffectAt(a.store, r, kind, k);
        EffectAt(b.store, r, kind, k);
      }
    }
  }

  /** Outside writes alone change nothing but other entries. */
  lemma {:induction false} OutsideOnly(
    cfg: Config, entries: Entries, run: seq<System>, steps: seq<Step>, i: nat, m: nat)
    requires cfg.cacheRefresh >= 1 && IsRun(cfg, run, steps) && i <= m <= |steps|
    requires QuietOn(entries, run, steps, i, m) && forall n :: i <= n < m ==> steps[n].Outside?
    ensures run[m].pc == run[i].pc && run[m].count == run[i].count && AlikeOn(entries, run[m].agent, run[i].agent)
  {
    if m == i {
    } else {
      OutsideOnly(cfg, entries, run, steps, i, m - 1);
      assert Next(cfg, run[m - 1], steps[m - 1], run[m]);
    }
  }

  /** Part way through the calls of a round: n of them have been made. */
  lemma {:induction false} DoneCalls(
    cfg: Config, entries: Entries, run: seq<System>, steps: seq<Step>, i: nat, m: nat, delta: seq<Record>, a: Agent)
    returns (n: nat)
    requires cfg.cacheRefresh >= 1 && IsRun(cfg, run, steps) && i <= m <= |steps|
    requires run[i].pc == Applying(delta) && AlikeOn(entries, run[i].agent, a)
    requires forall r :: r in delta ==> Live(r) && r.action != NoAction
    requires QuietOn(entries, run, steps, i, m)
    requires forall j :: i <= j < m ==> steps[j].Outside? || steps[j] == Call(Done)
    ensures n <= |delta| && run[m].pc == Applying(delta[n..])
    ensures AlikeOn(entries, run[m].agent, ApplyAll(a, delta[..n], AlwaysDone()))
  {
    if m == i {
      n := 0;
      assert delta[0..] == delta && delta[..0] == [];
    } else {
      var n0 := DoneCalls(cfg, entries, run, steps, i, m - 1, delta, a);
      assert Next(cfg, run[m - 1], steps[m - 1], run[m]);
      n := n0;
      if steps[m - 1] == Call(Done) {
        n := n0 + 1;
        assert delta[n0..][1..] == delta[n..] && delta[..n][..n0] == delta[..n0] && delta[n0..][0] == delta[n0];
        AlikeCall(entries, run[m - 1].agent, ApplyAll(a, delta[..n0], AlwaysDone()), delta[n0], Done);
      }
    }
  }

  lemma {:induction false} CleanRoundBy(
    a: Agent, D: seq<Record>, listing1: seq<Record>, listing2: seq<Record>, a': Agent)
    requires Enumerates(listing1, a.cache) && Enumerates(listing2, a.cache)
    requires a' == ApplyAll(a, RoundDelta(listing1, listing2, D), AlwaysDone())
    ensures CleanRound(a, D, a')
  {
    assert AllDone(AlwaysDone());
  }

  /** Among outside writes a round without failures does to the agent, and to the entries
      that are left alone, what a clean round does. */
  lemma {:induction false} DoneRoundIsClean(
    cfg: Config, entries: Entries, run: seq<System>, steps: seq<Step>, i: nat, j: nat, D: seq<Record>)
    returns (c: Agent)
    requires cfg.cacheRefresh >= 1 && IsRun(cfg, run, steps) && DoneRound(steps, i, j, D)
    requires QuietOn(entries, run, steps, i, j) && ValidCache(run[i].agent.cache)
    ensures CleanRound(run[i].agent, D, c) && AlikeOn(entries, run[j].agent, c)
  {
    var p :| DoneRoundAt(steps, i, p, j, D);
    var listing1, listing2 := steps[p].listing1, steps[p].listing2;
    ReceivesAt(cfg, entries, run, steps, i, p, D);
    c := AppliesAt(cfg, entries, run, steps, i, p, j, D);
    CleanRoundBy(run[i].agent, D, listing1, listing2, c);
  }

  lemma {:induction false} ReceivesAt(
    cfg: Config, entries: Entries, run: seq<System>, steps: seq<Step>, i: nat, p: nat, D: seq<Record>)
    requires cfg.cacheRefresh >= 1 && IsRun(cfg, run, steps) && i <= p < |steps|
    requires QuietOn(entries, run, steps, i, p) && (forall m :: i <= m < p ==> steps[m].Outside?)
    requires steps[p].Receive? && steps[p].recordSet == D
    ensures AllLive(D) && run[p + 1].pc == Applying(RoundDelta(steps[p].listing1, steps[p].listing2, D))
    ensures Enumerates(steps[p].listing1, run[i].agent.cache) && Enumerates(steps[p].listing2, run[i].agent.cache)
    ensures AlikeOn(entries, run[p + 1].agent, run[i].agent)
  {
    OutsideOnly(cfg, entries, run, steps, i, p);
    assert Next(cfg, run[p], steps[p], run[p + 1]);
  }

  lemma {:induction false} AppliesAt(
    cfg: Config, entries: Entries, run: seq<System>, steps: seq<Step>, i: nat, p: nat, j: nat, D: seq<Record>)
    returns (c: Agent)
    requires cfg.cacheRefresh >= 1 && IsRun(cfg, run, steps) && i < j <= |steps| && DoneRoundAt(steps, i, p, j, D)
    requires steps[j - 1] == EndRound && QuietOn(entries, run, steps, i, j) && ValidCache(run[i].agent.cache)
    ensures c == ApplyAll(run[i].agent, RoundDelta(steps[p].listing1, steps[p].listing2, D), AlwaysDone())
    ensures AlikeOn(entries, run[j].agent, c)
  {
    var a, delta := run[i].agent, RoundDelta(steps[p].listing1, steps[p].listing2, D);
    ReceivesAt(cfg, entries, run, steps, i, p, D);
    DeltaIsLive(steps[p].listing1, steps[p].listing2, D, a.cache);
    c := CallsApply(cfg, entries, run, steps, p + 1, j, delta, a);
  }

  lemma {:induction false} CallsApply(
    cfg: Config, entries: Entries, run: seq<System>, steps: seq<Step>, i: nat, j: nat, delta: seq<Record>, a: Agent)
    returns (c: Agent)
    requires cfg.cacheRefresh >= 1 && IsRun(cfg, run, steps) && i < j <= |steps| && steps[j - 1] == EndRound
    requires run[i].pc == Applying(delta) && AlikeOn(entries, run[i].agent, a) && QuietOn(entries, run, steps, i, j)
    requires forall r :: r in delta ==> Live(r) && r.action != NoAction
    requires forall m :: i <= m < j - 1 ==> steps[m].Outside? || steps[m] == Call(Done)
    ensures c == ApplyAll(a, delta, AlwaysDone()) && AlikeOn(entries, run[j].agent, c)
  {
    var n := DoneCalls(cfg, entries, run, steps, i, j - 1, delta, a);
    assert Next(cfg, run[j - 1], steps[j - 1], run[j]);
    assert delta[..n] == delta;
    c := ApplyAll(a, delta, AlwaysDone());
  }

  // ----- two such rounds

  /** The entries that are the agent's business: wanted, cached, or services under its
      prefix. */
  ghost predicate Ours(cfg: Config, cached: Cache, D: seq<Record>, kind: RecordType, k: string) {
    WantedAs(kind, k, D) || CachedAs(kind, k, cached) || (kind == ServiceType && Owned(cfg.prefix, k))
  }

  ghost predicate IncludesOurs(cfg: Config, cached: Cache, D: seq<Record>, entries: Entries) {
    forall kind, k :: kind != Untyped && Ours(cfg, cached, D, kind, k) ==> entries(kind, k)
  }

  /** The agent has converged, and of the entries that others left alone Consul, which held
      `before` when the agent's cache was `cached`, holds the wanted ones, has lost those
      that were cached, and keeps the rest; so its services under the prefix are exactly
      the wanted ones. */
  ghost predicate Repaired(
    cfg: Config, entries: Entries, before: Store, cached: Cache, D: seq<Record>, a: Agent)
  {
    && a.healthy && Converged(a.cache, D) && HoldsAll(a.store, D)
    && (forall k :: ':' !in cfg.prefix && (k == cfg.prefix || cfg.prefix + ":" <= k) ==>
          (k in a.store.services <==> WantedAs(ServiceType, k, D)))
    && (forall kind, k :: kind != Untyped && entries(kind, k) && !WantedAs(kind, k, D) ==>
          Held(a.store, kind, k) == if CachedAs(kind, k, cached) then NOTHING else Held(before, kind, k))
  }

  /** What the first round leaves for the second one, after other entries have changed. */
  lemma {:induction false} NothingLeftToChange(
    cfg: Config, entries: Entries, a: Agent, D: seq<Record>, c1: Agent, a1: Agent, b1: Agent, d: Record)
    requires !cfg.cacheOnly && Covered(a, cfg.prefix) && GoodSet(D) && IncludesOurs(cfg, a.cache, D, entries) && d in D
    requires CleanRound(a, D, c1) && AlikeOn(entries, a1, c1) && MayRefresh(cfg, a1, b1)
    ensures !Changed(b1.cache, d)
  {
    OwnedAreWanted(a, D, c1, cfg.prefix, Id(d));
    if WantedAs(ServiceType, Id(d), D) { KindIsUnique(D, d); }
    WantedInstead(a, D, c1, d);
    TransferWanted(cfg, entries, a.cache, D, c1, a1, d);
    NotChangedByRefresh(cfg, a1, b1, d);
  }

  lemma {:induction false} TransferWanted(
    cfg: Config, entries: Entries, cached: Cache, D: seq<Record>, c1: Agent, a1: Agent, d: Record)
    requires IncludesOurs(cfg, cached, D, entries) && AlikeOn(entries, a1, c1) && d in D && Live(d)
    requires Held(c1.store, d.recordType, Id(d)) == NOTHING || HoldsFor(c1.store, d)
    ensures Held(a1.store, d.recordType, Id(d)) == NOTHING || HoldsFor(a1.store, d)
    ensures Owned(cfg.prefix, Id(d)) ==> (Id(d) in a1.store.services <==> Id(d) in c1.store.services)
  {
    var k := Id(d);
    assert Concerns(d, d.recordType, k);
    assert Ours(cfg, cached, D, d.recordType, k) && entries(d.recordType, k);
    if Owned(cfg.prefix, k) {
      assert Ours(cfg, cached, D, ServiceType, k) && entries(ServiceType, k);
      PresentIffHeld(a1.store);
      PresentIffHeld(c1.store);
    }
  }

  /** An unwanted entry that others left alone. */
  lemma {:induction false} UnwantedAmongOthers(
    cfg: Config, entries: Entries, a: Agent, D: seq<Record>, c1: Agent, a1: Agent, b1: Agent, c2: Agent, a2: Agent,
    kind: RecordType, k: string)
    requires !cfg.cacheOnly && Covered(a, cfg.prefix) && AllLive(D) && IncludesOurs(cfg, a.cache, D, entries)
    requires kind != Untyped && !WantedAs(kind, k, D) && entries(kind, k)
    requires CleanRound(a, D, c1) && AlikeOn(entries, a1, c1) && a1.healthy && MayRefresh(cfg, a1, b1)
    requires b1.healthy && b1.store == a1.store && ValidCache(b1.cache) && CleanRound(b1, D, c2) &&
             AlikeOn(entries, a2, c2)
    ensures Held(a2.store, kind, k) == if CachedAs(kind, k, a.cache) then NOTHING else Held(a.store, kind, k)
  {
    UnwantedHeldAfterRound(a, D, c1, kind, k);
    UnwantedNotCachedAfterRound(a, D, c1, kind, k);
    OwnedAreWanted(a, D, c1, cfg.prefix, k);
    PresentIffHeld(a1.store);
    PresentIffHeld(c1.store);
    RefreshCachesNoMore(cfg, a1, b1, kind, k);
    UnwantedHeldAfterRound(b1, D, c2, kind, k);
  }

  /** A refresh and two rounds, on agents: c1 and c2 are what the rounds would have led to
      without the outside writes. */
  lemma {:induction false} RepairedBy(
    cfg: Config, entries: Entries, a0: Agent, D: seq<Record>, a: Agent, c1: Agent, a1: Agent, b1: Agent, c2: Agent,
    a2: Agent)
    requires !cfg.cacheOnly && a.store == a0.store && Covered(a, cfg.prefix) && GoodSet(D) &&
             ServicesOwned(D, cfg.prefix)
    requires IncludesOurs(cfg, a.cache, D, entries) && CleanRound(a, D, c1) && AlikeOn(entries, a1, c1)
    requires MayRefresh(cfg, a1, b1) && ValidCache(b1.cache) && Agrees(b1) && CleanRound(b1, D, c2)
    requires b1.healthy && b1.store == a1.store && AlikeOn(entries, a2, c2) && Agrees(a2)
    ensures Repaired(cfg, entries, a0.store, a.cache, D, a2)
  {
    RoundKeepsValid(a, D, c1);
    forall d | d in D ensures !Changed(b1.cache, d) {
      NothingLeftToChange(cfg, entries, a, D, c1, a1, b1, d);
    }
    SecondRound(b1, D, c2);
    ConvergedConsul(a2, D);
    forall kind, k | kind != Untyped && entries(kind, k) && !WantedAs(kind, k, D)
      ensures Held(a2.store, kind, k) == if CachedAs(kind, k, a.cache) then NOTHING else Held(a0.store, kind, k)
    {
      UnwantedAmongOthers(cfg, entries, a, D, c1, a1, b1, c2, a2, kind, k);
    }
    forall k | Owned(cfg.prefix, k) ensures k in a2.store.services <==> WantedAs(ServiceType, k, D) {
      OwnedExactly(cfg, entries, a, D, a2, k);
    }
    UnderPrefix(cfg.prefix, D);
  }

  lemma {:induction false} OwnedExactly(cfg: Config, entries: Entries, a: Agent, D: seq<Record>, a2: Agent, k: string)
    requires Covered(a, cfg.prefix) && AllLive(D) && HoldsAll(a2.store, D) && Owned(cfg.prefix, k)
    requires IncludesOurs(cfg, a.cache, D, entries)
    requires forall kind, k :: kind != Untyped && entries(kind, k) && !WantedAs(kind, k, D) ==>
               Held(a2.store, kind, k) == if CachedAs(kind, k, a.cache) then NOTHING else Held(a.store, kind, k)
    ensures k in a2.store.services <==> WantedAs(ServiceType, k, D)
  {
    PresentIffHeld(a2.store);
    if WantedAs(ServiceType, k, D) {
      WantedIsHeld(a2.store, D, ServiceType, k);
    } else {
      assert Ours(cfg, a.cache, D, ServiceType, k) && entries(ServiceType, k);
      PresentIffHeld(a.store);
    }
  }

  // ----- over runs

  /** From the refresh at i that pulls to the end at l of a second round without failures on
      the same set: the first round ends at j, and the loop passes its top at q. */
  ghost predicate TwoRounds(steps: seq<Step>, i: nat, j: nat, q: nat, l: nat, D: seq<Record>) {
    && i < |steps| && steps[i] == Refresh(true) && DoneRound(steps, i + 1, j, D)
    && j <= q < |steps| && (forall m :: j <= m < q ==> steps[m].Outside?) && (steps[q].NoRefresh? || steps[q].Refresh?)
    && DoneRound(steps, q + 1, l, D)
  }

  /** In every run, a refresh that pulls and two rounds without failures on one set repair
      Consul, whether or not another refresh falls between them, and whatever others write
      meanwhile to entries that are not the agent's business. */
  lemma {:induction false} RefreshRepairs(
    cfg: Config, entries: Entries, run: seq<System>, steps: seq<Step>, i: nat, j: nat, q: nat, l: nat, D: seq<Record>)
    requires cfg.cacheRefresh >= 1 && !cfg.cacheOnly && IsRun(cfg, run, steps) && Init(run[0])
    requires OwnedSets(cfg, steps) && GoodSet(D) && TwoRounds(steps, i, j, q, l, D)
    requires IncludesOurs(cfg, run[i + 1].agent.cache, D, entries) && QuietOn(entries, run, steps, i + 1, l)
    ensures Repaired(cfg, entries, run[i].agent.store, run[i + 1].agent.cache, D, run[l].agent)
  {
    StartsCovered(cfg, run, steps, i);
    SetIsOwned(cfg, steps, i + 1, j, D);
    var c1 := FirstRound(cfg, entries, run, steps, i + 1, j, q, D);
    var c2 := NextRound(cfg, entries, run, steps, q, l, D, run[i + 1].agent, c1);
    RepairedBy(cfg, entries, run[i].agent, D, run[i + 1].agent, c1, run[q].agent, run[q + 1].agent, c2, run[l].agent);
  }

  /** From the top of the loop at q to the end of the second round. */
  lemma {:induction false} NextRound(
    cfg: Config, entries: Entries, run: seq<System>, steps: seq<Step>, q: nat, l: nat, D: seq<Record>, a: Agent,
      c1: Agent)
    returns (c2: Agent)
    requires cfg.cacheRefresh >= 1 && !cfg.cacheOnly && IsRun(cfg, run, steps) && Init(run[0]) && AllLive(D)
    requires q < |steps| && (steps[q].NoRefresh? || steps[q].Refresh?) && DoneRound(steps, q + 1, l, D)
    requires QuietOn(entries, run, steps, q + 1, l) && a.healthy && ValidCache(a.cache)
    requires CleanRound(a, D, c1) && AlikeOn(entries, run[q].agent, c1)
    ensures var b1, a2 := run[q + 1].agent, run[l].agent;
            && MayRefresh(cfg, run[q].agent, b1) && ValidCache(b1.cache) && b1.healthy && Agrees(b1)
            && b1.store == run[q].agent.store && CleanRound(b1, D, c2) && AlikeOn(entries, a2, c2) && Agrees(a2)
  {
    RoundKeepsValid(a, D, c1);
    BetweenRounds(cfg, run, steps, q);
    StaysSound(cfg, run, steps, q + 1);
    c2 := DoneRoundIsClean(cfg, entries, run, steps, q + 1, l, D);
    RoundKeepsValid(run[q + 1].agent, D, c2);
    StaysSound(cfg, run, steps, l);
  }

  lemma {:induction false} FirstRound(
    cfg: Config, entries: Entries, run: seq<System>, steps: seq<Step>, i: nat, j: nat, q: nat, D: seq<Record>)
    returns (c: Agent)
    requires cfg.cacheRefresh >= 1 && IsRun(cfg, run, steps) && DoneRound(steps, i, j, D) && j <= q <= |steps|
    requires (forall m :: j <= m < q ==> steps[m].Outside?) && ValidCache(run[i].agent.cache)
    requires QuietOn(entries, run, steps, i, q)
    ensures CleanRound(run[i].agent, D, c) && AlikeOn(entries, run[q].agent, c)
  {
    assert QuietOn(entries, run, steps, i, j) && QuietOn(entries, run, steps, j, q);
    c := DoneRoundIsClean(cfg, entries, run, steps, i, j, D);
    OutsideOnly(cfg, entries, run, steps, j, q);
  }

  lemma {:induction false} StaysSound(cfg: Config, run: seq<System>, steps: seq<Step>, i: nat)
    requires cfg.cacheRefresh >= 1 && IsRun(cfg, run, steps) && Init(run[0]) && i < |run|
    ensures var a := run[i].agent; ValidCache(a.cache) && ValidStore(a.store) && (a.healthy ==> Agrees(a))
  {
    SafetyOverRuns(cfg, run, steps, i);
  }

  lemma {:induction false} StartsCovered(cfg: Config, run: seq<System>, steps: seq<Step>, i: nat)
    requires cfg.cacheRefresh >= 1 && !cfg.cacheOnly && IsRun(cfg, run, steps) && Init(run[0])
    requires OwnedSets(cfg, steps) && i < |steps| && steps[i] == Refresh(true)
    ensures Covered(run[i + 1].agent, cfg.prefix) && run[i + 1].agent.store == run[i].agent.store
  {
    StaysSound(cfg, run, steps, i);
    OwnedOverRuns(cfg, run, steps, i);
    Reconnects(cfg, run, steps, i);
    PullCovers(cfg, run[i].agent);
  }

  lemma {:induction false} SetIsOwned(cfg: Config, steps: seq<Step>, i: nat, j: nat, D: seq<Record>)
    requires OwnedSets(cfg, steps) && DoneRound(steps, i, j, D)
    ensures ServicesOwned(D, cfg.prefix)
  {
    var p :| DoneRoundAt(steps, i, p, j, D);
    assert ServicesOwned(steps[p].recordSet, cfg.prefix);
  }

  /** Repair after a failure, over every run: while the agent is unhealthy, from f up to a
      reconnection at i, at most CacheRefresh - 1 record sets go by; the two rounds then
      repair Consul, but leave in it every check that was there at the reconnection. */
  lemma {:induction false} RepairOverRuns(
    cfg: Config, entries: Entries, run: seq<System>, steps: seq<Step>, f: nat, i: nat, j: nat, q: nat, l: nat,
    D: seq<Record>)
    requires cfg.cacheRefresh >= 1 && !cfg.cacheOnly && IsRun(cfg, run, steps) && Init(run[0])
    requires OwnedSets(cfg, steps) && GoodSet(D) && TwoRounds(steps, i, j, q, l, D)
    requires f <= i && forall m :: f <= m <= i ==> !run[m].agent.healthy
    requires IncludesOurs(cfg, run[i + 1].agent.cache, D, entries) && QuietOn(entries, run, steps, i + 1, l)
    ensures run[f].count <= run[i].count <= run[f].count + cfg.cacheRefresh - 1
    ensures Repaired(cfg, entries, run[i].agent.store, run[i + 1].agent.cache, D, run[l].agent)
    ensures NoChecksCached(run[i + 1].agent.cache)
  {
    SkippedBeforeRepair(cfg, run, steps, f, i);
    RefreshRepairs(cfg, entries, run, steps, i, j, q, l, D);
    ReconnectCachesNoChecks(cfg, run, steps, i);
  }

  ghost predicate NoChecksCached(cache: Cache) { forall k :: !CachedAs(CheckType, k, cache) }

  lemma {:induction false} ReconnectCachesNoChecks(cfg: Config, run: seq<System>, steps: seq<Step>, i: nat)
    requires cfg.cacheRefresh >= 1 && !cfg.cacheOnly && IsRun(cfg, run, steps)
    requires i < |steps| && steps[i] == Refresh(true) && !run[i].agent.healthy
    ensures NoChecksCached(run[i + 1].agent.cache)
  {
    Reconnects(cfg, run, steps, i);
    NoChecksPulled(cfg, run[i].agent);
  }

  lemma {:induction false} NoChecksPulled(cfg: Config, a: Agent)
    requires !cfg.cacheOnly && !a.healthy && ValidStore(a.store) && !PullPanics(a.store.services, cfg.prefix)
    ensures NoChecksCached(Refreshed(cfg, a, true).cache)
  {
    forall k ensures !CachedAs(CheckType, k, Refreshed(cfg, a, true).cache) {
      PulledAt(map[], a.store.services, cfg.prefix, k);
    }
  }

  lemma {:induction false} Reconnects(cfg: Config, run: seq<System>, steps: seq<Step>, i: nat)
    requires cfg.cacheRefresh >= 1 && !cfg.cacheOnly && IsRun(cfg, run, steps) && i < |steps| &&
             steps[i] == Refresh(true)
    ensures ValidStore(run[i].agent.store) && !PullPanics(run[i].agent.store.services, cfg.prefix)
    ensures run[i + 1].agent == Refreshed(cfg, run[i].agent, true)
  {
    assert Next(cfg, run[i], steps[i], run[i + 1]);
  }

  lemma {:induction false} BetweenRounds(cfg: Config, run: seq<System>, steps: seq<Step>, j: nat)
    requires cfg.cacheRefresh >= 1 && !cfg.cacheOnly && IsRun(cfg, run, steps) && j < |steps|
    requires steps[j].NoRefresh? || steps[j].Refresh?
    ensures MayRefresh(cfg, run[j].agent, run[j + 1].agent)
  {
    assert Next(cfg, run[j], steps[j], run[j + 1]);
  }

  lemma {:induction false} SkippedBeforeRepair(cfg: Config, run: seq<System>, steps: seq<Step>, f: nat, i: nat)
    requires cfg.cacheRefresh >= 1 && IsRun(cfg, run, steps) && Init(run[0]) && f <= i < |run|
    requires forall m :: f <= m <= i ==> !run[m].agent.healthy
    ensures run[f].count <= run[i].count <= run[f].count + cfg.cacheRefresh - 1
  {
    SafetyOverRuns(cfg, run, steps, f);
    var run', steps' := run[f..i + 1], steps[f..i];
    forall m | 0 <= m < |steps'| ensures Next(cfg, run'[m], steps'[m], run'[m + 1]) {
      assert Next(cfg, run[f + m], steps[f + m], run[f + m + 1]);
    }
    BoundedSkipping(cfg, run', steps', i - f);
  }
}
