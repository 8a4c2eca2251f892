/** What the reconciliation loop leaves behind in Consul for good. */
module ConsulLeaks {
  import opened Text
  import opened ConsulRecords
  import opened ConsulAgent
  import opened ConsulConvergence
  import opened ConsulContents
  import opened ConsulMachine

  // ----- what is forgotten stays

  /** The entry is neither cached nor in the queue. */
  ghost predicate Forgotten(s: System, kind: RecordType, k: string) {
    !CachedAs(kind, k, s.agent.cache) && (s.pc.Applying? ==> !Touched(s.pc.queue, kind, k))
  }

  /** No pull brings the entry into the cache: checks, services of others, and with CacheOnly
      every service. */
  predicate NeverPulled(cfg: Config, kind: RecordType, k: string) {
    || kind == CheckType
    || (kind == ServiceType &&
        (cfg.cacheOnly || !(':' !in cfg.prefix && (k == cfg.prefix || cfg.prefix + ":" <= k))))
  }

  lemma {:induction false} DeltaForgets(
    a: Agent, D: seq<Record>, listing1: seq<Record>, listing2: seq<Record>, kind: RecordType, k: string)
    requires ValidCache(a.cache) && AllLive(D) && Enumerates(listing1, a.cache) && Enumerates(listing2, a.cache)
    requires kind != Untyped && !CachedAs(kind, k, a.cache) && !WantedAs(kind, k, D)
    ensures !Touched(RoundDelta(listing1, listing2, D), kind, k)
  {
    forall r | r in RoundDelta(listing1, listing2, D) ensures !Concerns(r, kind, k) {
      if r in DeltaRecords(listing1, D, Add) {
        var d := DeltaSound(listing1, D, Add, r);
        assert !Concerns(d, kind, k);
      } else {
        var c := DeltaSound(D, listing2, Remove, r);
        assert Id(c) == Id(r);
      }
    }
  }

  lemma {:induction false} RefreshForgets(cfg: Config, a: Agent, ok: bool, kind: RecordType, k: string)
    requires ValidStore(a.store) && (!cfg.cacheOnly && ok ==> !PullPanics(a.store.services, cfg.prefix))
    requires NeverPulled(cfg, kind, k) && !CachedAs(kind, k, a.cache)
    ensures !CachedAs(kind, k, Refreshed(cfg, a, ok).cache)
  {
    if !cfg.cacheOnly && ok {
      OwnedMeans(cfg.prefix, k);
      PulledAt(if a.healthy then a.cache else map[], a.store.services, cfg.prefix, k);
    }
  }

  lemma {:induction false} ForgottenStep(cfg: Config, s: System, step: Step, s': System, kind: RecordType, k: string)
    requires cfg.cacheRefresh >= 1 && Inv(cfg, s) && NeverPulled(cfg, kind, k) && Forgotten(s, kind, k)
    requires Next(cfg, s, step, s') && (step.Receive? ==> !WantedAs(kind, k, step.recordSet))
    requires step.Outside? ==> Held(step.store, kind, k) == Held(s.agent.store, kind, k)
    ensures Forgotten(s', kind, k) && Held(s'.agent.store, kind, k) == Held(s.agent.store, kind, k)
  {
    match step
    case Refresh(ok) => RefreshForgets(cfg, s.agent, ok, kind, k);
    case Receive(recordSet, listing1, listing2) => DeltaForgets(s.agent, recordSet, listing1, listing2, kind, k);
    case Call(outcome) =>
      EffectAt(s.agent.store, s.pc.queue[0], kind, k);
      assert !Concerns(s.pc.queue[0], kind, k);
    case _ =>
  }

  /** No set received from i on wants the entry, and outside writers leave it alone. */
  ghost predicate Abandoned(run: seq<System>, steps: seq<Step>, i: nat, kind: RecordType, k: string)
    requires |run| == |steps| + 1
  {
    forall m :: i <= m < |steps| ==>
      && (steps[m].Receive? ==> !WantedAs(kind, k, steps[m].recordSet))
      && (steps[m].Outside? ==> Held(steps[m].store, kind, k) == Held(run[m].agent.store, kind, k))
  }

  /** An entry that the agent has forgotten and no pull brings back stays in Consul as it is
      in every later state of every run, refreshes and failures included, as long as no
      record set wants it. */
  lemma {:induction false} ForgottenForever(
    cfg: Config, run: seq<System>, steps: seq<Step>, i: nat, m: nat, kind: RecordType, k: string)
    requires cfg.cacheRefresh >= 1 && IsRun(cfg, run, steps) && Init(run[0]) && i <= m < |run|
    requires NeverPulled(cfg, kind, k) && Forgotten(run[i], kind, k) && Abandoned(run, steps, i, kind, k)
    ensures Forgotten(run[m], kind, k) && Held(run[m].agent.store, kind, k) == Held(run[i].agent.store, kind, k)
  {
    if m == i {
    } else {
      ForgottenForever(cfg, run, steps, i, m - 1, kind, k);
      StillForgotten(cfg, run, steps, i, m - 1, kind, k);
    }
  }

  lemma {:induction false} StillForgotten(
    cfg: Config, run: seq<System>, steps: seq<Step>, i: nat, m: nat, kind: RecordType, k: string)
    requires cfg.cacheRefresh >= 1 && IsRun(cfg, run, steps) && Init(run[0]) && i <= m < |steps|
    requires NeverPulled(cfg, kind, k) && Forgotten(run[m], kind, k) && Abandoned(run, steps, i, kind, k)
    ensures Forgotten(run[m + 1], kind, k)
    ensures Held(run[m + 1].agent.store, kind, k) == Held(run[m].agent.store, kind, k)
  {
    SafetyOverRuns(cfg, run, steps, m);
    assert Next(cfg, run[m], steps[m], run[m + 1]);
    ForgottenStep(cfg, run[m], steps[m], run[m + 1], kind, k);
  }

  /** With CacheOnly every refresh forgets everything, so that whatever Consul holds at a
      refresh and no later set wants stays for good, services included. */
  lemma {:induction false} CacheOnlyKeepsForever(
    cfg: Config, run: seq<System>, steps: seq<Step>, i: nat, m: nat, kind: RecordType, k: string)
    requires cfg.cacheRefresh >= 1 && cfg.cacheOnly && IsRun(cfg, run, steps) && Init(run[0]) && i < m < |run|
    requires steps[i].Refresh? && kind != Untyped && Abandoned(run, steps, i, kind, k)
    ensures Held(run[m].agent.store, kind, k) == Held(run[i].agent.store, kind, k)
  {
    assert Next(cfg, run[i], steps[i], run[i + 1]);
    ForgottenForever(cfg, run, steps, i + 1, m, kind, k);
  }

  // ----- a check that is left behind

  function CheckRecord(c: Check, action: Action): Record { Record(action, "", "", CheckType, None, Some(c)) }

  /** The only record of a list that is not matched is the delta. */
  lemma {:induction false} OneCheckDelta(c: Check, was: Action, action: Action)
    ensures DeltaRecords([], [CheckRecord(c, was)], action) == [CheckRecord(c, action)]
  {
    var r := [CheckRecord(c, was)];
    assert r[..0] == [];
    assert ServicesOf(r) == [];
    assert ChecksOf(r) == ChecksOf([]) + r;
    assert DeltaChecks([], r, action) == [CheckRecord(c, action)];
  }

  /** The deltas of a round that brings a check, of one that drops it, and of an idle one. */
  lemma {:induction false} CheckDeltas(c: Check)
    ensures RoundDelta([], [], [CheckRecord(c, NoAction)]) == [CheckRecord(c, Add)]
    ensures RoundDelta([CheckRecord(c, Add)], [CheckRecord(c, Add)], []) == [CheckRecord(c, Remove)]
    ensures RoundDelta([], [], []) == []
  {
    OneCheckDelta(c, NoAction, Add);
    OneCheckDelta(c, Add, Remove);
    assert forall olds, action :: DeltaRecords(olds, [], action) == [];
  }

  lemma RefreshWithoutServices(cfg: Config, a: Agent)
    requires !cfg.cacheOnly && a.store.services == map[] && ValidStore(a.store)
    ensures !PullPanics(a.store.services, cfg.prefix)
    ensures Refreshed(cfg, a, true) == Agent(true, if a.healthy then a.cache else map[], a.store)
  {
  }

  lemma {:induction false} CallStep(cfg: Config, s: System, r: Record, outcome: Outcome, s': System)
    requires cfg.cacheRefresh >= 1 && s.pc == Applying([r])
    requires s' == System(Applying([]), s.count, ApplyCall(s.agent, r, outcome))
    ensures IsRun(cfg, [s, s'], [Call(outcome)])
  {
    assert [r][1..] == [];
    assert Next(cfg, s, Call(outcome), s');
  }

  lemma {:induction false} EndStep(cfg: Config, s: System)
    requires cfg.cacheRefresh >= 1 && s.pc == Applying([])
    ensures IsRun(cfg, [s, s.(pc := Top)], [EndRound])
  {
    assert Next(cfg, s, EndRound, s.(pc := Top));
  }

  lemma {:induction false} ReceiveStep(cfg: Config, s: System, D: seq<Record>, listing: seq<Record>, s': System)
    requires cfg.cacheRefresh == 1 && s.pc == Select && AllLive(D) && Enumerates(listing, s.agent.cache)
    requires s' == System(Applying(RoundDelta(listing, listing, D)), s.count + 1, s.agent)
    ensures IsRun(cfg, [s, s'], [Receive(D, listing, listing)])
  {
    assert Next(cfg, s, Receive(D, listing, listing), s');
  }

  lemma {:induction false} RefreshStep(cfg: Config, s: System, s': System)
    requires cfg.cacheRefresh == 1 && !cfg.cacheOnly && s.agent.store.services == map[] && ValidStore(s.agent.store)
    requires s.pc == Top
    requires s' == System(Select, s.count, Agent(true, if s.agent.healthy then s.agent.cache else map[], s.agent.store))
    ensures IsRun(cfg, [s, s'], [Refresh(true)])
  {
    RefreshWithoutServices(cfg, s.agent);
    assert Next(cfg, s, Refresh(true), s');
  }

  lemma {:induction false} BringTurn(cfg: Config, c: Check, start: Agent, full: Agent)
    returns (run: seq<System>, steps: seq<Step>)
    requires cfg.cacheRefresh == 1 && !cfg.cacheOnly && start == Agent(false, map[], Store(map[], map[]))
    requires full == Agent(true, map[c.id := CheckRecord(c, Add)], Store(map[], map[c.id := c]))
    ensures IsRun(cfg, run, steps) && run[0] == System(Top, 0, start) && run[|run| - 1] == System(Top, 1, full)
  {
    CheckDeltas(c);
    run, steps := CallTurn(cfg, 0, start, start.(healthy := true), [CheckRecord(c, NoAction)], [], CheckRecord(c, Add),
      Done, full);
  }

  lemma {:induction false} DropTurn(cfg: Config, c: Check, full: Agent, failed: Agent)
    returns (run: seq<System>, steps: seq<Step>)
    requires cfg.cacheRefresh == 1 && !cfg.cacheOnly && failed == Agent(false, map[], full.store)
    requires full == Agent(true, map[c.id := CheckRecord(c, Add)], Store(map[], map[c.id := c]))
    ensures IsRun(cfg, run, steps) && run[0] == System(Top, 1, full) && run[|run| - 1] == System(Top, 2, failed)
  {
    CheckDeltas(c);
    run, steps := CallTurn(cfg, 1, full, full, [], [CheckRecord(c, Add)], CheckRecord(c, Remove), Lost, failed);
  }

  /** Registering a check, and then losing the call that deregisters it. */
  lemma {:induction false} LeakTurns(cfg: Config, c: Check, start: Agent, failed: Agent)
    returns (run: seq<System>, steps: seq<Step>)
    requires cfg.cacheRefresh == 1 && !cfg.cacheOnly && start == Agent(false, map[], Store(map[], map[]))
    requires failed == Agent(false, map[], Store(map[], map[c.id := c]))
    ensures IsRun(cfg, run, steps) && run[0] == System(Top, 0, start) && run[|run| - 1] == System(Top, 2, failed)
  {
    var full := Agent(true, map[c.id := CheckRecord(c, Add)], failed.store);
    var run1, steps1 := BringTurn(cfg, c, start, full);
    var run2, steps2 := DropTurn(cfg, c, full, failed);
    run, steps := JoinRuns(cfg, run1, steps1, run2, steps2);
  }

  /** Such a forgotten check is reachable: it is registered, its deregistration is lost, and
      the reconnected agent takes itself to be done with the empty record set. */
  lemma {:induction false} LeakedCheckReachable(cfg: Config, c: Check) returns (run: seq<System>, steps: seq<Step>)
    requires cfg.cacheRefresh == 1 && !cfg.cacheOnly
    ensures IsRun(cfg, run, steps) && Init(run[0])
    ensures var s := run[|run| - 1];
            && s.agent.healthy && Agrees(s.agent) && Converged(s.agent.cache, [])
            && Forgotten(s, CheckType, c.id) && c.id in s.agent.store.checks
  {
    var none, held := Store(map[], map[]), Store(map[], map[c.id := c]);
    var failed, back := System(Top, 2, Agent(false, map[], held)), System(Select, 2, Agent(true, map[], held));
    run, steps := LeakTurns(cfg, c, Agent(false, map[], none), failed.agent);
    RefreshStep(cfg, failed, back);
    run, steps := JoinRuns(cfg, run, steps, [failed, back], [Refresh(true)]);
  }

  lemma {:induction false} CallTurn(
    cfg: Config, count: nat, a: Agent, b: Agent, D: seq<Record>, listing: seq<Record>, r: Record, outcome: Outcome,
    a': Agent)
    returns (run: seq<System>, steps: seq<Step>)
    requires cfg.cacheRefresh == 1 && !cfg.cacheOnly && a.store.services == map[] && ValidStore(a.store)
    requires b == Agent(true, if a.healthy then a.cache else map[], a.store)
    requires AllLive(D) && Enumerates(listing, b.cache) && RoundDelta(listing, listing, D) == [r] &&
             a' == ApplyCall(b, r, outcome)
    ensures IsRun(cfg, run, steps) && run[0] == System(Top, count, a) && run[|run| - 1] == System(Top, count + 1, a')
  {
    var s0, s1, s2, s3 :=
      System(Top, count, a), System(Select, count, b), System(Applying([r]), count + 1, b),
        System(Applying([]), count + 1, a');
    RefreshStep(cfg, s0, s1);
    ReceiveStep(cfg, s1, D, listing, s2);
    CallStep(cfg, s2, r, outcome, s3);
    EndStep(cfg, s3);
    run, steps := JoinRuns(cfg, [s0, s1], [Refresh(true)], [s1, s2], [Receive(D, listing, listing)]);
    run, steps := JoinRuns(cfg, run, steps, [s2, s3], [Call(outcome)]);
    run, steps := JoinRuns(cfg, run, steps, [s3, s3.(pc := Top)], [EndRound]);
  }
}
