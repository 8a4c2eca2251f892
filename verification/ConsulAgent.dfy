/** The reconciliation loop of one Consul agent (resolvers/consul/consul.go) with its
    record cache (resolvers/consul/cache.go). Consul itself is a map per identifier. */
module ConsulAgent {
  import opened Text
  import opened ConsulRecords

  datatype Config = Config(cacheRefresh: nat, cacheOnly: bool, prefix: string)

  type Cache = map<string, Record>

  /** What the Consul agent holds. */
  datatype Store = Store(services: map<string, Service>, checks: map<string, Check>)

  datatype Agent = Agent(healthy: bool, cache: Cache, store: Store)

  /** How a register or deregister call ends: done, failed without effect, or reported
      as failed (a timeout, say) although Consul carried it out. */
  datatype Outcome = Done | Lost | Unconfirmed

  ghost predicate ValidCache(cache: Cache) {
    forall k :: k in cache ==> WellFormed(cache[k]) && Id(cache[k]) == k
  }

  ghost predicate ValidStore(store: Store) {
    && (forall k :: k in store.services ==> store.services[k].id == k)
    && (forall k :: k in store.checks ==> store.checks[k].id == k)
  }

  /** Every cached registration is what Consul holds under that identifier. */
  ghost predicate Agrees(a: Agent) {
    forall k :: k in a.cache ==>
      && (a.cache[k].service.Some? ==> k in a.store.services && a.store.services[k] == a.cache[k].service.value)
      && (a.cache[k].check.Some? ==> k in a.store.checks && a.store.checks[k] == a.cache[k].check.value)
  }

  // ----- the cache

  function UpdatedCache(cache: Cache, r: Record, action: Action): Cache {
    match action
    case Add => cache[Id(r) := r]
    case Remove => cache - {Id(r)}
    case NoAction => cache
  }

  /** A listing of the cache in some iteration order, zero records mixed in. */
  ghost predicate Enumerates(recs: seq<Record>, cache: Cache) {
    && (forall r :: r in recs ==> r == ZERO_RECORD || (Id(r) in cache && cache[Id(r)] == r))
    && (forall k :: k in cache ==> cache[k] in recs)
  }

  class RecordCache {
    var records: Cache

    constructor ()
      ensures records == map[]
    {
      records := map[];
    }

    method UpdateCache(r: Record, action: Action)
      requires WellFormed(r)
      modifies this
      ensures records == UpdatedCache(old(records), r, action)
      ensures old(ValidCache(records)) ==> ValidCache(records)
    {
      var id := "";
      match r.recordType {
        case ServiceType => id := r.service.value.id;
        case CheckType => id := r.check.value.id;
        case Untyped =>
      }
      match action {
        case Add => records := records[id := r];
        case Remove => records := records - {id};
        case NoAction =>
      }
    }

    /** The listing starts with as many zero records as there are cached ones. */
    method CachedRecords() returns (recs: seq<Record>)
      requires ValidCache(records)
      ensures |recs| == 2 * |records|
      ensures forall i :: 0 <= i < |records| ==> recs[i] == Record(NoAction, "", "", Untyped, None, None)
      ensures Enumerates(recs, records)
    {
      recs := seq(|records|, i => ZERO_RECORD);
      var left := records.Keys;
      while left != {}
        invariant left <= records.Keys
        invariant |recs| + |left| == 2 * |records|
        invariant |recs| >= |records|
        invariant forall i :: 0 <= i < |records| ==> recs[i] == ZERO_RECORD
        invariant forall r :: r in recs ==> r == ZERO_RECORD || (Id(r) in records && records[Id(r)] == r)
        invariant forall k :: k in records && k !in left ==> records[k] in recs
        decreases left
      {
        var k :| k in left;
        recs := recs + [records[k]];
        left := left - {k};
      }
    }
  }

  // ----- calls to Consul

  /** The call made for a delta record, when it takes effect. */
  function Effect(store: Store, r: Record): Store {
    match (r.action, r.recordType)
    case (Add, ServiceType) =>
      if r.service.Some? then store.(services := store.services[Id(r) := r.service.value]) else store
    case (Add, CheckType) =>
      if r.check.Some? then store.(checks := store.checks[Id(r) := r.check.value]) else store
    case (Remove, ServiceType) => store.(services := store.services - {Id(r)})
    case (Remove, CheckType) => store.(checks := store.checks - {Id(r)})
    case _ => store
  }

  /** One turn of the delta loop. The cache is updated whether or not the call failed. */
  function ApplyCall(a: Agent, r: Record, outcome: Outcome): Agent {
    if !a.healthy then a
    else Agent(outcome == Done,
               UpdatedCache(a.cache, r, r.action),
               if outcome == Lost then a.store else Effect(a.store, r))
  }

  function ApplyAll(a: Agent, delta: seq<Record>, outcomes: nat -> Outcome): Agent {
    if delta == [] then a
    else
      var n := |delta| - 1;
      ApplyCall(ApplyAll(a, delta[..n], outcomes), delta[n], outcomes(n))
  }

  /** Both deltas are computed from the same cache, adds first. */
  function RoundDelta(listing1: seq<Record>, listing2: seq<Record>, recordSet: seq<Record>): seq<Record> {
    DeltaRecords(listing1, recordSet, Add) + DeltaRecords(recordSet, listing2, Remove)
  }

  // ----- pulling the registered services

  /** Services are ours by the part of their identifier in front of the first colon. */
  predicate Owned(prefix: string, id: string) { Split(id, ':')[0] == prefix }

  /** Ours are the identifier that is the prefix, and those that go on with a colon. */
  lemma {:induction false} OwnedMeans(prefix: string, id: string)
    ensures Owned(prefix, id) <==> ':' !in prefix && (id == prefix || prefix + ":" <= id)
  {
    SplitHeadIs(id, ':', prefix);
  }

  /** `parts[1]` is out of range for a service whose whole identifier is the prefix. */
  predicate PullPanics(services: map<string, Service>, prefix: string) {
    exists id :: id in services && Owned(prefix, id) && |Split(id, ':')| < 2
  }

  /** That is the case exactly when there is such a service. */
  lemma {:induction false} PullPanicsMeans(services: map<string, Service>, prefix: string)
    ensures PullPanics(services, prefix) <==> ':' !in prefix && prefix in services
  {
    forall id ensures Owned(prefix, id) && |Split(id, ':')| < 2 <==> ':' !in prefix && id == prefix {
      OwnedMeans(prefix, id);
      SplitPlain(id, ':');
    }
  }

  function PulledRecord(s: Service): (r: Record)
    requires |Split(s.id, ':')| >= 2
    ensures Live(r) && Id(r) == s.id
  {
    Record(NoAction, s.address, Split(s.id, ':')[1], ServiceType, Some(s), None)
  }

  /** A record the pull can produce, zero padding aside. */
  predicate IsPulled(services: map<string, Service>, prefix: string, r: Record) {
    && r.service.Some? && Id(r) in services && Owned(prefix, Id(r))
    && services[Id(r)].id == Id(r) && |Split(Id(r), ':')| >= 2
    && r == PulledRecord(services[Id(r)])
  }

  function Pulled(cache: Cache, services: map<string, Service>, prefix: string): (r: Cache)
    requires !PullPanics(services, prefix)
    requires forall k :: k in services ==> services[k].id == k
  {
    cache
    + (if |services| > 0 then map["" := ZERO_RECORD] else map[])
    + (map id | id in services && Owned(prefix, id) :: PulledRecord(services[id]))
  }

  /** The state after the refresh at the top of the loop, on an established connection. */
  function Refreshed(cfg: Config, a: Agent, pullSucceeds: bool): Agent
    requires ValidStore(a.store)
    requires !cfg.cacheOnly && pullSucceeds ==> !PullPanics(a.store.services, cfg.prefix)
  {
    var kept: Cache := if a.healthy then a.cache else map[];
    Agent(true,
          if cfg.cacheOnly then map[]
          else if pullSucceeds then Pulled(kept, a.store.services, cfg.prefix)
          else kept,
          a.store)
  }

  ghost predicate IsPull(services: map<string, Service>, prefix: string, recs: seq<Record>) {
    && (ZERO_RECORD in recs <==> |services| > 0)
    && (forall r :: r in recs && r != ZERO_RECORD ==> IsPulled(services, prefix, r))
    && (forall id :: id in services && Owned(prefix, id) ==>
          |Split(services[id].id, ':')| >= 2 && PulledRecord(services[id]) in recs)
  }

  /** The record pulled for a service of ours: its own address, and as slave the part of the
      identifier behind the prefix. */
  lemma {:induction false} PulledRecordMeans(services: map<string, Service>, prefix: string, r: Record)
    requires IsPulled(services, prefix, r)
    ensures r.service == Some(services[Id(r)]) && r.check == None && r.recordType == ServiceType
    ensures r.action == NoAction && r.address == services[Id(r)].address
    ensures prefix + ":" + r.slaveID == Id(r) || prefix + ":" + r.slaveID + ":" <= Id(r)
    ensures ':' !in r.slaveID
  {
    OwnedMeans(prefix, Id(r));
    SplitPlain(Id(r), ':');
    SplitSecond(Id(r), ':', prefix);
  }

  /** Exactly the services under the prefix are pulled. */
  lemma {:induction false} PullMeans(services: map<string, Service>, prefix: string, recs: seq<Record>, id: string)
    requires forall k :: k in services ==> services[k].id == k
    requires IsPull(services, prefix, recs) && id in services
    ensures (exists r :: r in recs && r.service == Some(services[id])) <==>
            ':' !in prefix && (id == prefix || prefix + ":" <= id)
  {
    OwnedMeans(prefix, id);
    if Owned(prefix, id) { assert PulledRecord(services[id]).service == Some(services[id]); }
  }

  /** agentServiceRecords on a successful listing; None is the index panic. */
  method AgentServiceRecords(services: map<string, Service>, prefix: string) returns (recs: Option<seq<Record>>)
    requires forall k :: k in services ==> services[k].id == k
    ensures recs == None <==> PullPanics(services, prefix)
    ensures recs == None <==> ':' !in prefix && prefix in services
    ensures recs.Some? ==> IsPull(services, prefix, recs.value)
    ensures recs.Some? ==>
              && |recs.value| == |services| + |OwnedIds(services.Keys, prefix)|
              && (forall i :: 0 <= i < |services| ==> recs.value[i] == ZERO_RECORD)
              && (forall i, j :: |services| <= i < j < |recs.value| ==> Id(recs.value[i]) != Id(recs.value[j]))
    ensures recs.Some? ==>
              forall id :: id in services ==>
                ((exists r :: r in recs.value && r.service == Some(services[id])) <==>
                 ':' !in prefix && (id == prefix || prefix + ":" <= id))
  {
    recs := ListOwned(services, prefix);
    PullPanicsMeans(services, prefix);
    if recs.Some? {
      forall id | id in services
        ensures (exists r :: r in recs.value && r.service == Some(services[id])) <==>
                ':' !in prefix && (id == prefix || prefix + ":" <= id)
      {
        PullMeans(services, prefix, recs.value, id);
      }
    }
  }

  /** Its loop over the services. */
  method ListOwned(services: map<string, Service>, prefix: string) returns (recs: Option<seq<Record>>)
    requires forall k :: k in services ==> services[k].id == k
    ensures recs == None <==> PullPanics(services, prefix)
    ensures recs.Some? ==> IsPull(services, prefix, recs.value)
    ensures recs.Some? ==>
              && |recs.value| == |services| + |OwnedIds(services.Keys, prefix)|
              && (forall i :: 0 <= i < |services| ==> recs.value[i] == ZERO_RECORD)
              && (forall i, j :: |services| <= i < j < |recs.value| ==> Id(recs.value[i]) != Id(recs.value[j]))
  {
    var list: seq<Record> := seq(|services|, i => ZERO_RECORD);
    assert |services| > 0 ==> list[0] == ZERO_RECORD;
    var left := services.Keys;
    assert OwnedIds(services.Keys - left, prefix) == {};
    while left != {}
      invariant left <= services.Keys && ListedUpTo(list, services, prefix, left)
      decreases left
    {
      var id :| id in left;
      var parts := Split(id, ':');
      if parts[0] == prefix {
        if |parts| < 2 {
          assert Owned(prefix, id);
          return None;
        }
        ListedNext(list, services, prefix, left, id);
        list := list + [PulledRecord(services[id])];
      } else {
        ListedNext(list, services, prefix, left, id);
      }
      left := left - {id};
    }
    assert services.Keys - left == services.Keys;
    return Some(list);
  }

  /** The list when the services in `left` have not been looked at: the padding, and a record
      for each of our services among the others. */
  ghost predicate ListedUpTo(list: seq<Record>, services: map<string, Service>, prefix: string, left: set<string>) {
    && (ZERO_RECORD in list <==> |services| > 0)
    && (forall r :: r in list && r != ZERO_RECORD ==> IsPulled(services, prefix, r))
    && (forall id :: id in services && id !in left && Owned(prefix, id) ==>
          |Split(services[id].id, ':')| >= 2 && PulledRecord(services[id]) in list)
    && |list| == |services| + |OwnedIds(services.Keys - left, prefix)|
    && (forall i :: 0 <= i < |services| ==> list[i] == ZERO_RECORD)
    && (forall i :: |services| <= i < |list| ==> Id(list[i]) !in left)
    && (forall i, j :: |services| <= i < j < |list| ==> Id(list[i]) != Id(list[j]))
  }

  lemma {:induction false} ListedNext(
    list: seq<Record>, services: map<string, Service>, prefix: string, left: set<string>, id: string)
    requires forall k :: k in services ==> services[k].id == k
    requires ListedUpTo(list, services, prefix, left) && id in left && left <= services.Keys
    requires Owned(prefix, id) ==> |Split(id, ':')| >= 2
    ensures ListedUpTo(if Owned(prefix, id) then list + [PulledRecord(services[id])] else list,
                       services, prefix, left - {id})
  {
    OwnedIdsGrow(services.Keys - left, id, prefix);
    assert services.Keys - (left - {id}) == services.Keys - left + {id};
  }

  function OwnedIds(ids: set<string>, prefix: string): set<string> { set id | id in ids && Owned(prefix, id) }

  lemma OwnedIdsGrow(ids: set<string>, id: string, prefix: string)
    requires id !in ids
    ensures |OwnedIds(ids + {id}, prefix)| == |OwnedIds(ids, prefix)| + if Owned(prefix, id) then 1 else 0
  {
    assert OwnedIds(ids + {id}, prefix) == OwnedIds(ids, prefix) + if Owned(prefix, id) then {id} else {};
  }

  /** UpdateCache(record, "add") over a list. */
  function AddAll(cache: Cache, recs: seq<Record>): Cache {
    if recs == [] then cache
    else
      var n := |recs| - 1;
      UpdatedCache(AddAll(cache, recs[..n]), recs[n], Add)
  }

  /** Records of the list that share an identifier are equal. */
  ghost predicate UniqueIds(recs: seq<Record>) {
    forall r, s :: r in recs && s in recs && Id(r) == Id(s) ==> r == s
  }

  lemma {:induction false} AddAllAt(cache: Cache, recs: seq<Record>, k: string)
    requires UniqueIds(recs)
    ensures forall r :: r in recs && Id(r) == k ==> k in AddAll(cache, recs) && AddAll(cache, recs)[k] == r
    ensures (forall r :: r in recs ==> Id(r) != k) ==>
            (k in AddAll(cache, recs) <==> k in cache) && (k in cache ==> AddAll(cache, recs)[k] == cache[k])
  {
    if recs == [] {
    } else {
      var init, last := recs[..|recs| - 1], recs[|recs| - 1];
      assert recs == init + [last];
      AddAllAt(cache, init, k);
    }
  }

  lemma PulledAt(cache: Cache, services: map<string, Service>, prefix: string, k: string)
    requires forall k :: k in services ==> services[k].id == k
    requires !PullPanics(services, prefix)
    ensures var pulled := Pulled(cache, services, prefix);
            if k in services && Owned(prefix, k) then
              |Split(services[k].id, ':')| >= 2 && k in pulled && pulled[k] == PulledRecord(services[k])
            else if k == "" && |services| > 0 then k in pulled && pulled[k] == ZERO_RECORD
            else (k in pulled <==> k in cache) && (k in cache ==> pulled[k] == cache[k])
  {
  }

  /** Writing the pulled records over the cache one by one gives the pulled cache. */
  lemma {:induction false} AddAllPulled(cache: Cache, services: map<string, Service>, prefix: string, recs: seq<Record>)
    requires forall k :: k in services ==> services[k].id == k
    requires !PullPanics(services, prefix) && IsPull(services, prefix, recs)
    ensures AddAll(cache, recs) == Pulled(cache, services, prefix)
  {
    var result, pulled := AddAll(cache, recs), Pulled(cache, services, prefix);
    forall k ensures (k in result <==> k in pulled) && (k in result ==> result[k] == pulled[k]) {
      AddAllPulledAt(cache, services, prefix, recs, k);
    }
  }

  lemma {:induction false} AddAllPulledAt(
    cache: Cache, services: map<string, Service>, prefix: string, recs: seq<Record>, k: string)
    requires forall k :: k in services ==> services[k].id == k
    requires !PullPanics(services, prefix) && IsPull(services, prefix, recs)
    ensures var result, pulled := AddAll(cache, recs), Pulled(cache, services, prefix);
            (k in result <==> k in pulled) && (k in result ==> result[k] == pulled[k])
  {
    PulledUniqueIds(services, prefix, recs);
    PulledAt(cache, services, prefix, k);
    AddAllAt(cache, recs, k);
    if k in services && Owned(prefix, k) {
      var r := PulledRecord(services[k]);
      assert r in recs && Id(r) == k;
    } else if k == "" && |services| > 0 {
      assert ZERO_RECORD in recs && Id(ZERO_RECORD) == k;
    } else {
      forall r | r in recs ensures Id(r) != k {
        if r != ZERO_RECORD {
          assert IsPulled(services, prefix, r);
        }
      }
    }
  }

  lemma {:induction false} PulledUniqueIds(services: map<string, Service>, prefix: string, recs: seq<Record>)
    requires forall k :: k in services ==> services[k].id == k
    requires IsPull(services, prefix, recs)
    ensures UniqueIds(recs)
  {
    forall r, s | r in recs && s in recs && Id(r) == Id(s) ensures r == s {
      assert Split("", ':') == [""];
    }
  }

  // ----- the loop as an object

  datatype Iteration = Retry | Crash | Handled

  class AgentLoop {
    const cfg: Config
    var healthy: bool
    var count: nat
    var recordCache: RecordCache
    var store: Store

    constructor (cfg: Config, store: Store)
      requires ValidStore(store)
      ensures this.cfg == cfg && Value() == Agent(false, map[], store) && count == 0
      ensures fresh(recordCache) && Valid()
    {
      this.cfg := cfg;
      healthy, count := false, 0;
      recordCache := new RecordCache();
      this.store := store;
    }

    ghost predicate Valid()
      reads this, recordCache
    {
      ValidCache(recordCache.records) && ValidStore(store)
    }

    ghost function Value(): Agent
      reads this, recordCache
    {
      Agent(healthy, recordCache.records, store)
    }

    /** Sets the cache to the registered services named with the prefix. */
    method Pull() returns (ok: bool)
      requires Valid()
      modifies recordCache
      ensures ok <==> !PullPanics(store.services, cfg.prefix)
      ensures ok ==> Valid() && recordCache.records == Pulled(old(recordCache.records), store.services, cfg.prefix)
    {
      var recs := AgentServiceRecords(store.services, cfg.prefix);
      if recs == None { return false; }
      for i := 0 to |recs.value|
        invariant recordCache.records == AddAll(old(recordCache.records), recs.value[..i])
        invariant ValidCache(recordCache.records)
      {
        assert recs.value[..i + 1][..i] == recs.value[..i];
        assert recs.value[i] in recs.value;
        recordCache.UpdateCache(recs.value[i], Add);
      }
      assert recs.value[..|recs.value|] == recs.value;
      AddAllPulled(old(recordCache.records), store.services, cfg.prefix, recs.value);
      return true;
    }

    /** The block under `count%config.CacheRefresh == 0`. */
    method Refresh(connects: bool, pullSucceeds: bool) returns (result: Iteration)
      requires Valid()
      modifies this`healthy, recordCache
      ensures result == Retry <==> !old(healthy) && !connects
      ensures result == Retry ==> Value() == old(Value())
      ensures result == Crash <==>
              (old(healthy) || connects) && !cfg.cacheOnly && pullSucceeds && PullPanics(store.services, cfg.prefix)
      ensures result == Handled ==>
              Valid() && (!cfg.cacheOnly && pullSucceeds ==> !PullPanics(store.services, cfg.prefix)) &&
              Value() == Refreshed(cfg, old(Value()), pullSucceeds)
    {
      if !healthy {
        if !connects { return Retry; }
        healthy := true;
        recordCache.records := map[];
      }
      if cfg.cacheOnly {
        recordCache.records := map[];
      } else if pullSucceeds {
        var pulled := Pull();
        if !pulled { return Crash; }
      }
      return Handled;
    }

    /** One turn of the loop over the delta. */
    method ApplyOne(r: Record, outcome: Outcome)
      requires Valid() && Live(r)
      modifies this`healthy, this`store, recordCache
      ensures Valid() && Value() == ApplyCall(old(Value()), r, outcome)
    {
      if !healthy { return; }
      if outcome != Lost { store := Effect(store, r); }
      if outcome != Done { healthy := false; }
      recordCache.UpdateCache(r, r.action);
    }

    /** The select branch that receives a record set. */
    method Process(recordSet: seq<Record>, outcomes: nat -> Outcome)
      returns (ghost listing1: seq<Record>, ghost listing2: seq<Record>)
      requires Valid()
      requires forall r :: r in recordSet ==> Live(r)
      modifies this`healthy, this`count, this`store, recordCache
      ensures Valid() && count == old(count) + 1
      ensures Enumerates(listing1, old(recordCache.records)) && Enumerates(listing2, old(recordCache.records))
      ensures Value() == ApplyAll(old(Value()), RoundDelta(listing1, listing2, recordSet), outcomes)
    {
      count := count + 1;
      var delta;
      delta, listing1, listing2 := ComputeDelta(recordSet);
      DeltaIsLive(listing1, listing2, recordSet, recordCache.records);
      ApplyDelta(delta, outcomes);
    }

    /** One pass through the loop that receives a record set: the refresh is due when the
        count of received sets is a multiple of CacheRefresh. */
    method Turn(connects: bool, pullSucceeds: bool, recordSet: seq<Record>, outcomes: nat -> Outcome)
      returns (result: Iteration, ghost before: Agent, ghost listing1: seq<Record>, ghost listing2: seq<Record>)
      requires Valid() && cfg.cacheRefresh >= 1
      requires forall r :: r in recordSet ==> Live(r)
      modifies this`healthy, this`count, this`store, recordCache
      ensures var due := old(count) % cfg.cacheRefresh == 0;
              && (result == Retry <==> due && !old(healthy) && !connects)
              && (result == Retry ==> Value() == old(Value()) && count == old(count))
              && (result == Crash <==>
                    due && (old(healthy) || connects) && !cfg.cacheOnly && pullSucceeds &&
                    ':' !in cfg.prefix && cfg.prefix in old(store).services)
              && (result == Handled ==>
                    && Valid() && count == old(count) + 1
                    && (due && !cfg.cacheOnly && pullSucceeds ==> !PullPanics(old(store).services, cfg.prefix))
                    && before == (if due then Refreshed(cfg, old(Value()), pullSucceeds) else old(Value()))
                    && Enumerates(listing1, before.cache) && Enumerates(listing2, before.cache)
                    && Value() == ApplyAll(before, RoundDelta(listing1, listing2, recordSet), outcomes))
    {
      PullPanicsMeans(store.services, cfg.prefix);
      result, before, listing1, listing2 := Handled, Value(), [], [];
      if count % cfg.cacheRefresh == 0 {
        result := Refresh(connects, pullSucceeds);
        before := Value();
      }
      if result == Handled {
        listing1, listing2 := Process(recordSet, outcomes);
      }
    }

    method ComputeDelta(recordSet: seq<Record>)
      returns (delta: seq<Record>, ghost listing1: seq<Record>, ghost listing2: seq<Record>)
      requires Valid()
      ensures Enumerates(listing1, recordCache.records) && Enumerates(listing2, recordCache.records)
      ensures delta == RoundDelta(listing1, listing2, recordSet)
    {
      var cached := recordCache.CachedRecords();
      listing1 := cached;
      delta := GetDeltaRecords(cached, recordSet, Add);
      cached := recordCache.CachedRecords();
      listing2 := cached;
      var removals := GetDeltaRecords(recordSet, cached, Remove);
      delta := delta + removals;
    }

    method ApplyDelta(delta: seq<Record>, outcomes: nat -> Outcome)
      requires Valid() && forall r :: r in delta ==> Live(r)
      modifies this`healthy, this`store, recordCache
      ensures Valid() && Value() == ApplyAll(old(Value()), delta, outcomes)
    {
      for i := 0 to |delta|
        invariant Valid()
        invariant Value() == ApplyAll(old(Value()), delta[..i], outcomes)
      {
        assert delta[..i + 1][..i] == delta[..i];
        ApplyOne(delta[i], outcomes(i));
      }
      assert delta[..|delta|] == delta;
    }
  }

  /** What a call leaves behind, by outcome: a failure costs the agent its health, a lost
      call does not reach Consul, and the cache takes the record over in any case. */
  lemma {:induction false} CallMeans(a: Agent, r: Record, outcome: Outcome)
    requires a.healthy && Live(r) && r.action != NoAction
    ensures var b := ApplyCall(a, r, outcome);
            && (b.healthy <==> outcome == Done)
            && b.cache == (if r.action == Add then a.cache[Id(r) := r] else a.cache - {Id(r)})
            && (outcome == Lost ==> b.store == a.store)
            && (outcome != Lost && r.service.Some? ==>
                  b.store.checks == a.store.checks &&
                  b.store.services == if r.action == Add then a.store.services[Id(r) := r.service.value]
                                      else a.store.services - {Id(r)})
            && (outcome != Lost && r.check.Some? ==>
                  b.store.services == a.store.services &&
                  b.store.checks == if r.action == Add then a.store.checks[Id(r) := r.check.value]
                                    else a.store.checks - {Id(r)})
  {
  }

  /** A lost registration breaks the agreement unless Consul held the same all along. */
  lemma {:induction false} LostCallBreaks(a: Agent, r: Record)
    requires a.healthy && Agrees(a) && ValidCache(a.cache) && Live(r) && r.action == Add
    ensures Agrees(ApplyCall(a, r, Lost)) <==>
            || (r.service.Some? && Id(r) in a.store.services && a.store.services[Id(r)] == r.service.value)
            || (r.check.Some? && Id(r) in a.store.checks && a.store.checks[Id(r)] == r.check.value)
  {
    var b := ApplyCall(a, r, Lost);
    assert b.cache[Id(r)] == r;
  }

  /** Delta records always announce a call: padding never gets into a delta. */
  lemma DeltaIsLive(listing1: seq<Record>, listing2: seq<Record>, recordSet: seq<Record>, cache: Cache)
    requires ValidCache(cache) && Enumerates(listing1, cache) && Enumerates(listing2, cache)
    requires forall r :: r in recordSet ==> Live(r)
    ensures forall r :: r in RoundDelta(listing1, listing2, recordSet) ==> Live(r) && r.action != NoAction
  {
    forall r | r in RoundDelta(listing1, listing2, recordSet) ensures Live(r) && r.action != NoAction {
      if r in DeltaRecords(listing1, recordSet, Add) {
        var n := DeltaSound(listing1, recordSet, Add, r);
      } else {
        var n := DeltaSound(recordSet, listing2, Remove, r);
      }
    }
  }
}
