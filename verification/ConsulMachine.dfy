/** The reconciliation loop as a state machine whose steps are single calls to Consul,
    interleaved with outside writers, and what holds in every state of every run. */
module ConsulMachine {
  import opened ConsulRecords
  import opened ConsulAgent
  import opened ConsulContents

  /** Where the loop is: at its top, in the select, or part way through a delta. */
  datatype Pc = Top | Select | Applying(queue: seq<Record>) | Stopped

  datatype System = System(pc: Pc, count: nat, agent: Agent)

  datatype Step =
    | ConnectFails
    | Refresh(pullSucceeds: bool)
    | PullCrashes
    | NoRefresh
    | Receive(recordSet: seq<Record>, listing1: seq<Record>, listing2: seq<Record>)
    | Call(outcome: Outcome)
    | EndRound
    | Control
    | Outside(store: Store)

  ghost predicate Init(s: System) {
    s.pc == Top && s.count == 0 && !s.agent.healthy && s.agent.cache == map[] && ValidStore(s.agent.store)
  }

  /** Other users of Consul write what they like, except entries the agent has cached. */
  ghost predicate OutsideWrite(a: Agent, store: Store) {
    && ValidStore(store)
    && (forall k :: k in a.cache && a.cache[k].service.Some? && k in a.store.services ==>
          k in store.services && store.services[k] == a.store.services[k])
    && (forall k :: k in a.cache && a.cache[k].check.Some? && k in a.store.checks ==>
          k in store.checks && store.checks[k] == a.store.checks[k])
  }

  ghost predicate Next(cfg: Config, s: System, step: Step, s': System)
    requires cfg.cacheRefresh >= 1
  {
    var due := s.count % cfg.cacheRefresh == 0;
    match step
    case ConnectFails => s.pc == Top && due && !s.agent.healthy && s' == s
    case Refresh(ok) =>
      && s.pc == Top && due && ValidStore(s.agent.store)
      && (!cfg.cacheOnly && ok ==> !PullPanics(s.agent.store.services, cfg.prefix))
      && s' == System(Select, s.count, Refreshed(cfg, s.agent, ok))
    case PullCrashes =>
      && s.pc == Top && due && !cfg.cacheOnly && PullPanics(s.agent.store.services, cfg.prefix)
      && s' == s.(pc := Stopped)
    case NoRefresh => s.pc == Top && !due && s' == s.(pc := Select)
    case Receive(recordSet, listing1, listing2) =>
      && s.pc == Select && (forall r :: r in recordSet ==> Live(r))
      && Enumerates(listing1, s.agent.cache) && Enumerates(listing2, s.agent.cache)
      && s' == System(Applying(RoundDelta(listing1, listing2, recordSet)), s.count + 1, s.agent)
    case Call(outcome) =>
      && s.pc.Applying? && s.pc.queue != []
      && s' == System(Applying(s.pc.queue[1..]), s.count, ApplyCall(s.agent, s.pc.queue[0], outcome))
    case EndRound => s.pc == Applying([]) && s' == s.(pc := Top)
    case Control => s.pc == Select && s' == s.(pc := Stopped)
    case Outside(store) => OutsideWrite(s.agent, store) && s' == s.(agent := s.agent.(store := store))
  }

  ghost predicate IsRun(cfg: Config, run: seq<System>, steps: seq<Step>)
    requires cfg.cacheRefresh >= 1
  {
    && |run| == |steps| + 1
    && forall i :: 0 <= i < |steps| ==> Next(cfg, run[i], steps[i], run[i + 1])
  }

  // ----- the invariant

  ghost predicate Inv(cfg: Config, s: System)
    requires cfg.cacheRefresh >= 1
  {
    && ValidCache(s.agent.cache) && ValidStore(s.agent.store)
    && (s.agent.healthy ==> Agrees(s.agent))
    && (s.pc.Applying? ==> forall r :: r in s.pc.queue ==> Live(r) && r.action != NoAction)
    && (s.pc == Select && !s.agent.healthy ==> s.count % cfg.cacheRefresh != 0)
    && (s.pc.Applying? ==> s.count > 0)
  }

  lemma CallKeepsInv(a: Agent, r: Record, outcome: Outcome)
    requires ValidCache(a.cache) && ValidStore(a.store) && (a.healthy ==> Agrees(a))
    requires Live(r) && r.action != NoAction
    ensures var b := ApplyCall(a, r, outcome);
            ValidCache(b.cache) && ValidStore(b.store) && (b.healthy ==> Agrees(b))
  {
  }

  lemma {:induction false} NextKeepsInv(cfg: Config, s: System, step: Step, s': System)
    requires cfg.cacheRefresh >= 1 && Inv(cfg, s) && Next(cfg, s, step, s')
    ensures Inv(cfg, s')
  {
    match step
    case ConnectFails =>
    case Refresh(ok) => RefreshAgrees(cfg, s.agent, ok);
    case PullCrashes =>
    case NoRefresh =>
    case Receive(recordSet, listing1, listing2) => DeltaIsLive(listing1, listing2, recordSet, s.agent.cache);
    case Call(outcome) => CallKeepsInv(s.agent, s.pc.queue[0], outcome);
    case EndRound =>
    case Control =>
    case Outside(store) =>
  }

  /** In every state of every run, a healthy agent's cache is what Consul holds. */
  lemma {:induction false} SafetyOverRuns(cfg: Config, run: seq<System>, steps: seq<Step>, i: nat)
    requires cfg.cacheRefresh >= 1 && IsRun(cfg, run, steps) && Init(run[0]) && i < |run|
    ensures Inv(cfg, run[i])
    ensures run[i].agent.healthy ==> Agrees(run[i].agent)
  {
    if i == 0 {
    } else {
      SafetyOverRuns(cfg, run, steps, i - 1);
      NextKeepsInv(cfg, run[i - 1], steps[i - 1], run[i]);
    }
  }

  /** Agreement is lost only by a failed call, together with the agent's health, and a
      connection made afterwards restores it. */
  lemma {:induction false} AgreementLostOnlyWithHealth(cfg: Config, s: System, step: Step, s': System)
    requires cfg.cacheRefresh >= 1 && Inv(cfg, s) && Next(cfg, s, step, s')
    ensures Agrees(s.agent) && !Agrees(s'.agent) ==>
              step.Call? && step.outcome != Done && s.agent.healthy && !s'.agent.healthy
    ensures step.Refresh? ==> s'.agent.healthy && Agrees(s'.agent)
    ensures !s.agent.healthy && s'.agent.healthy ==> step.Refresh?
  {
    NextKeepsInv(cfg, s, step, s');
    if step.Refresh? { RefreshAgrees(cfg, s.agent, step.pullSucceeds); }
  }

  /** Before the first successful connection no record set is taken from the channel. */
  lemma {:induction false} NothingBeforeConnect(cfg: Config, run: seq<System>, steps: seq<Step>, i: nat)
    requires cfg.cacheRefresh >= 1 && IsRun(cfg, run, steps) && Init(run[0]) && i < |run|
    requires forall j :: 0 <= j < i ==> !steps[j].Refresh?
    ensures run[i].count == 0 && run[i].pc in {Top, Stopped}
    ensures run[i].agent.cache == map[] && !run[i].agent.healthy
  {
    if i == 0 {
    } else {
      NothingBeforeConnect(cfg, run, steps, i - 1);
      assert Next(cfg, run[i - 1], steps[i - 1], run[i]);
    }
  }

  // ----- skipping while unhealthy

  /** The number of record sets that go by before the counter asks for a refresh. */
  function SkipBound(cfg: Config, count: nat): (n: nat)
    requires cfg.cacheRefresh >= 1
    ensures n <= cfg.cacheRefresh - 1
  {
    if count % cfg.cacheRefresh == 0 then 0 else cfg.cacheRefresh - count % cfg.cacheRefresh
  }

  /** Counting up by one moves one record set closer to the refresh. */
  lemma SkipBoundStep(cfg: Config, count: nat)
    requires cfg.cacheRefresh >= 1 && count % cfg.cacheRefresh != 0
    ensures SkipBound(cfg, count) == SkipBound(cfg, count + 1) + 1
  {
    ModStep(count, cfg.cacheRefresh);
  }

  lemma ModStep(n: nat, R: nat)
    requires R >= 1
    ensures (n + 1) % R == if n % R + 1 == R then 0 else n % R + 1
  {
    var q, m := n / R, n % R;
    assert n + 1 == q * R + m + 1;
    if m + 1 == R {
      assert (q + 1) * R == q * R + R;
      ModOf(n + 1, R, q + 1, 0);
    } else {
      ModOf(n + 1, R, q, m + 1);
    }
  }

  lemma ModOf(n: nat, R: nat, q: nat, m: nat)
    requires R >= 1 && m < R && n == q * R + m
    ensures n % R == m
  {
    var q', m' := n / R, n % R;
    assert (q - q') * R == m' - m;
    SmallMultiple(q - q', R);
  }

  /** A multiple of R strictly between -R and R is zero. */
  lemma SmallMultiple(k: int, R: nat)
    requires R >= 1 && 0 - R < k * R < R
    ensures k == 0
  {
    assert k >= 1 ==> (k - 1) * R >= 0 && k * R == (k - 1) * R + R;
    assert k <= -1 ==> (0 - k - 1) * R >= 0 && k * R == 0 - (0 - k - 1) * R - R;
  }

  /** One step of an agent that is and stays unhealthy. */
  lemma {:induction false} SkipStep(cfg: Config, s: System, step: Step, s': System)
    requires cfg.cacheRefresh >= 1 && Inv(cfg, s) && Next(cfg, s, step, s')
    requires !s.agent.healthy && !s'.agent.healthy
    ensures s'.agent.cache == s.agent.cache && s.count <= s'.count
    ensures s'.count + SkipBound(cfg, s'.count) == s.count + SkipBound(cfg, s.count)
    ensures !step.Outside? ==> s'.agent.store == s.agent.store
  {
    if step.Receive? { SkipBoundStep(cfg, s.count); }
  }

  /** As long as the agent stays unhealthy, the cache does not change, no call is made,
      and at most CacheRefresh - 1 record sets are taken and skipped; exactly SkipBound
      of them when the loop is back at its top asking for a reconnection. */
  lemma {:induction false} BoundedSkipping(cfg: Config, run: seq<System>, steps: seq<Step>, i: nat)
    requires cfg.cacheRefresh >= 1 && IsRun(cfg, run, steps) && Inv(cfg, run[0]) && i < |run|
    requires forall k :: 0 <= k < |run| ==> !run[k].agent.healthy
    ensures run[i].agent.cache == run[0].agent.cache
    ensures run[0].count <= run[i].count <= run[0].count + SkipBound(cfg, run[0].count)
    ensures run[i].count + SkipBound(cfg, run[i].count) == run[0].count + SkipBound(cfg, run[0].count)
    ensures run[i].pc == Top && run[i].count % cfg.cacheRefresh == 0 ==>
              run[i].count == run[0].count + SkipBound(cfg, run[0].count)
    ensures i > 0 && !steps[i - 1].Outside? ==> run[i].agent.store == run[i - 1].agent.store
    ensures Inv(cfg, run[i])
  {
    if i == 0 {
    } else {
      BoundedSkipping(cfg, run, steps, i - 1);
      NextKeepsInv(cfg, run[i - 1], steps[i - 1], run[i]);
      SkipStep(cfg, run[i - 1], steps[i - 1], run[i]);
    }
  }

  // ----- a round of the loop is a run of the machine

  /** Running the whole queue takes the machine to the state that ApplyAll computes. */
  lemma {:induction false} RoundIsRun(
    cfg: Config, count: nat, a: Agent, delta: seq<Record>, done: nat, outcomes: nat -> Outcome)
    returns (run: seq<System>, steps: seq<Step>)
    requires cfg.cacheRefresh >= 1 && done <= |delta|
    ensures IsRun(cfg, run, steps)
    ensures run[0] == System(Applying(delta), count, a)
    ensures |steps| == done && forall i :: 0 <= i < done ==> steps[i] == Call(outcomes(i))
    ensures run[done] == System(Applying(delta[done..]), count, ApplyAll(a, delta[..done], outcomes))
  {
    if done == 0 {
      run, steps := [System(Applying(delta), count, a)], [];
      assert delta[0..] == delta && delta[..0] == [];
    } else {
      var run0, steps0 := RoundIsRun(cfg, count, a, delta, done - 1, outcomes);
      var next := System(Applying(delta[done..]), count, ApplyAll(a, delta[..done], outcomes));
      run, steps := run0 + [next], steps0 + [Call(outcomes(done - 1))];
      assert delta[done - 1..][1..] == delta[done..] && delta[..done][..done - 1] == delta[..done - 1];
      assert Next(cfg, run0[done - 1], Call(outcomes(done - 1)), next);
      forall i | 0 <= i < |steps| ensures Next(cfg, run[i], steps[i], run[i + 1]) {
        if i < done - 1 { assert Next(cfg, run0[i], steps0[i], run0[i + 1]); }
      }
    }
  }

  /** A run that begins where another one ends continues it. */
  lemma {:induction false} JoinRuns(
    cfg: Config, run: seq<System>, steps: seq<Step>, run': seq<System>, steps': seq<Step>)
    returns (joined: seq<System>, joinedSteps: seq<Step>)
    requires cfg.cacheRefresh >= 1 && IsRun(cfg, run, steps) && IsRun(cfg, run', steps') && run[|run| - 1] == run'[0]
    ensures IsRun(cfg, joined, joinedSteps) && joined[0] == run[0] && joined[|joined| - 1] == run'[|run'| - 1]
  {
    joined, joinedSteps := run + run'[1..], steps + steps';
    forall i | 0 <= i < |joinedSteps| ensures Next(cfg, joined[i], joinedSteps[i], joined[i + 1]) {
      if i < |steps| {
        assert Next(cfg, run[i], steps[i], run[i + 1]);
      } else {
        var k := i - |steps|;
        assert Next(cfg, run'[k], steps'[k], run'[k + 1]);
      }
    }
  }

  /** The first step of a pass through the loop: the refresh when it is due, else nothing. */
  lemma {:induction false} TopStep(cfg: Config, count: nat, a: Agent, pullSucceeds: bool, before: Agent)
    returns (steps: seq<Step>)
    requires cfg.cacheRefresh >= 1 && ValidStore(a.store)
    requires !cfg.cacheOnly && pullSucceeds ==> !PullPanics(a.store.services, cfg.prefix)
    requires before == if count % cfg.cacheRefresh == 0 then Refreshed(cfg, a, pullSucceeds) else a
    ensures IsRun(cfg, [System(Top, count, a), System(Select, count, before)], steps)
  {
    var step := if count % cfg.cacheRefresh == 0 then Refresh(pullSucceeds) else NoRefresh;
    steps := [step];
    assert Next(cfg, System(Top, count, a), step, System(Select, count, before));
  }

  lemma {:induction false} SetStep(
    cfg: Config, count: nat, a: Agent, recordSet: seq<Record>, listing1: seq<Record>, listing2: seq<Record>)
    requires cfg.cacheRefresh >= 1 && (forall r :: r in recordSet ==> Live(r))
    requires Enumerates(listing1, a.cache) && Enumerates(listing2, a.cache)
    ensures IsRun(cfg, [System(Select, count, a),
            System(Applying(RoundDelta(listing1, listing2, recordSet)), count + 1, a)],
                  [Receive(recordSet, listing1, listing2)])
  {
    assert Next(cfg, System(Select, count, a), Receive(recordSet, listing1, listing2),
                System(Applying(RoundDelta(listing1, listing2, recordSet)), count + 1, a));
  }

  lemma {:induction false} BackStep(cfg: Config, count: nat, a: Agent)
    requires cfg.cacheRefresh >= 1
    ensures IsRun(cfg, [System(Applying([]), count, a), System(Top, count, a)], [EndRound])
  {
    assert Next(cfg, System(Applying([]), count, a), EndRound, System(Top, count, a));
  }

  /** Every pass through the loop that handles a record set, whatever its calls do, is a run
      of the machine. */
  lemma {:induction false} TurnIsRun(
    cfg: Config, count: nat, a: Agent, pullSucceeds: bool, before: Agent, recordSet: seq<Record>,
    listing1: seq<Record>, listing2: seq<Record>, outcomes: nat -> Outcome)
    returns (run: seq<System>, steps: seq<Step>)
    requires cfg.cacheRefresh >= 1 && ValidStore(a.store) && (forall r :: r in recordSet ==> Live(r))
    requires !cfg.cacheOnly && pullSucceeds ==> !PullPanics(a.store.services, cfg.prefix)
    requires before == if count % cfg.cacheRefresh == 0 then Refreshed(cfg, a, pullSucceeds) else a
    requires Enumerates(listing1, before.cache) && Enumerates(listing2, before.cache)
    ensures IsRun(cfg, run, steps) && run[0] == System(Top, count, a)
    ensures run[|run| - 1] ==
            System(Top, count + 1, ApplyAll(before, RoundDelta(listing1, listing2, recordSet), outcomes))
  {
    var delta := RoundDelta(listing1, listing2, recordSet);
    var after := ApplyAll(before, delta, outcomes);
    var s0, s1, s2, s3 := System(Top, count, a), System(Select, count, before),
                          System(Applying(delta), count + 1, before), System(Applying([]), count + 1, after);
    var top := TopStep(cfg, count, a, pullSucceeds, before);
    SetStep(cfg, count, before, recordSet, listing1, listing2);
    run, steps := JoinRuns(cfg, [s0, s1], top, [s1, s2], [Receive(recordSet, listing1, listing2)]);
    var calls, callSteps := RoundIsRun(cfg, count + 1, before, delta, |delta|, outcomes);
    assert delta[..|delta|] == delta && delta[|delta|..] == [];
    run, steps := JoinRuns(cfg, run, steps, calls, callSteps);
    BackStep(cfg, count + 1, after);
    run, steps := JoinRuns(cfg, run, steps, [s3, s3.(pc := Top)], [EndRound]);
  }
}
