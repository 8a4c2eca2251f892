/** What Consul itself holds after failure-free rounds, what pulling does to a converged
    agent, and what is left behind. */
module ConsulContents {
  import opened Text
  import opened ConsulRecords
  import opened ConsulAgent
  import opened ConsulConvergence

  // ----- one entry of Consul

  type Content = (Option<Service>, Option<Check>)

  const NOTHING: Content := (None, None)

  function ContentOf(r: Record): Content { (r.service, r.check) }

  /** What Consul holds under an identifier, for one kind of registration. */
  function Held(store: Store, kind: RecordType, k: string): Content {
    match kind
    case ServiceType => (if k in store.services then Some(store.services[k]) else None, None)
    case CheckType => (None, if k in store.checks then Some(store.checks[k]) else None)
    case Untyped => NOTHING
  }

  predicate Concerns(r: Record, kind: RecordType, k: string) { r.recordType == kind && Id(r) == k }

  ghost predicate Touched(recs: seq<Record>, kind: RecordType, k: string) {
    exists r :: r in recs && Concerns(r, kind, k)
  }

  /** A record set asks for a registration of this kind. */
  ghost predicate WantedAs(kind: RecordType, k: string, D: seq<Record>) { Touched(D, kind, k) }

  ghost predicate CachedAs(kind: RecordType, k: string, cache: Cache) { k in cache && cache[k].recordType == kind }

  lemma EffectAt(store: Store, r: Record, kind: RecordType, k: string)
    requires Live(r) && r.action != NoAction && kind != Untyped
    ensures Held(Effect(store, r), kind, k) ==
            if !Concerns(r, kind, k) then Held(store, kind, k) else if r.action == Add then ContentOf(r) else NOTHING
  {
  }

  /** Calls for other entries leave this one alone, however they end. */
  lemma {:induction false} LeftAlone(
    a: Agent, delta: seq<Record>, outcomes: nat -> Outcome, kind: RecordType, k: string)
    requires kind != Untyped && !Touched(delta, kind, k)
    requires forall r :: r in delta ==> Live(r) && r.action != NoAction
    ensures Held(ApplyAll(a, delta, outcomes).store, kind, k) == Held(a.store, kind, k)
  {
    if delta == [] {
    } else {
      var init, last := delta[..|delta| - 1], delta[|delta| - 1];
      assert delta == init + [last];
      LeftAlone(a, init, outcomes, kind, k);
      EffectAt(ApplyAll(a, init, outcomes).store, last, kind, k);
    }
  }

  lemma {:induction false} CleanAddsHeld(
    a: Agent, adds: seq<Record>, outcomes: nat -> Outcome, kind: RecordType, k: string)
    requires a.healthy && AllDone(outcomes) && kind != Untyped
    requires forall r :: r in adds ==> Live(r) && r.action == Add
    ensures var held := Held(ApplyAll(a, adds, outcomes).store, kind, k);
            if Touched(adds, kind, k) then exists r :: r in adds && Concerns(r, kind, k) && held == ContentOf(r)
            else held == Held(a.store, kind, k)
  {
    if adds == [] {
    } else {
      var init, last := adds[..|adds| - 1], adds[|adds| - 1];
      assert adds == init + [last];
      CleanAddsHeld(a, init, outcomes, kind, k);
      CleanAdds(a, init, outcomes);
      EffectAt(ApplyAll(a, init, outcomes).store, last, kind, k);
    }
  }

  lemma {:induction false} CleanRemovesHeld(
    a: Agent, removals: seq<Record>, outcomes: nat -> Outcome, kind: RecordType, k: string)
    requires a.healthy && AllDone(outcomes) && kind != Untyped
    requires forall r :: r in removals ==> Live(r) && r.action == Remove
    ensures Held(ApplyAll(a, removals, outcomes).store, kind, k) ==
            if Touched(removals, kind, k) then NOTHING else Held(a.store, kind, k)
  {
    if removals == [] {
    } else {
      var init, last := removals[..|removals| - 1], removals[|removals| - 1];
      assert removals == init + [last];
      CleanRemovesHeld(a, init, outcomes, kind, k);
      CleanRemoves(a, init, outcomes, k);
      EffectAt(ApplyAll(a, init, outcomes).store, last, kind, k);
    }
  }

  // ----- one round

  /** What the additions leave under an entry: a wanted content if it is touched. */
  lemma {:induction false} AddsHeld(
    a: Agent, D: seq<Record>, listing: seq<Record>, outcomes: nat -> Outcome, kind: RecordType, k: string)
    requires a.healthy && ValidCache(a.cache) && AllLive(D) && Enumerates(listing, a.cache) && AllDone(outcomes) &&
             kind != Untyped
    ensures var held := Held(ApplyAll(a, DeltaRecords(listing, D, Add), outcomes).store, kind, k);
            if exists d :: AddedAt(D, a.cache, d) && Concerns(d, kind, k)
            then exists e :: e in D && Concerns(e, kind, k) && held == ContentOf(e)
            else held == Held(a.store, kind, k)
  {
    var adds := DeltaRecords(listing, D, Add);
    AddsFrom(D, listing);
    CleanAddsHeld(a, adds, outcomes, kind, k);
    forall d | AddedAt(D, a.cache, d) && Concerns(d, kind, k) ensures Touched(adds, kind, k) {
      AddsAt(D, listing, a.cache, d);
      assert Concerns(d.(action := Add), kind, k);
    }
    forall r | r in adds && Concerns(r, kind, k)
      ensures exists d :: AddedAt(D, a.cache, d) && Concerns(d, kind, k) && ContentOf(d) == ContentOf(r)
    {
      var d := DeltaSound(listing, D, Add, r);
      AddsAt(D, listing, a.cache, d);
      assert AddedAt(D, a.cache, d) && Concerns(d, kind, k);
    }
  }

  lemma {:induction false} RemovesTouch(D: seq<Record>, listing: seq<Record>, cache: Cache, kind: RecordType, k: string)
    requires AllLive(D) && ValidCache(cache) && Enumerates(listing, cache) && kind != Untyped
    ensures Touched(DeltaRecords(D, listing, Remove), kind, k) <==> CachedAs(kind, k, cache) && RemovedAt(D, cache, k)
  {
    RemovesAt(D, listing, cache, k);
    if CachedAs(kind, k, cache) && RemovedAt(D, cache, k) {
      assert Concerns(cache[k].(action := Remove), kind, k);
    }
  }

  lemma {:induction false} UnwantedCachedIsRemoved(D: seq<Record>, cache: Cache, kind: RecordType, k: string)
    requires AllLive(D) && ValidCache(cache) && kind != Untyped && !WantedAs(kind, k, D) && CachedAs(kind, k, cache)
    ensures RemovedAt(D, cache, k)
  {
    forall o | o in D ensures !Matches(cache[k], o) {
      if Matches(cache[k], o) { MatchSameId(cache[k], o); }
    }
  }

  /** One entry of Consul after a clean round: removed, else added, else as it was. */
  lemma {:induction false} RoundHeldAt(a: Agent, D: seq<Record>, a': Agent, kind: RecordType, k: string)
    requires a.healthy && ValidCache(a.cache) && AllLive(D) && CleanRound(a, D, a') && kind != Untyped
    ensures if CachedAs(kind, k, a.cache) && RemovedAt(D, a.cache, k) then Held(a'.store, kind, k) == NOTHING
            else if exists d :: AddedAt(D, a.cache, d) && Concerns(d, kind, k)
            then exists e :: e in D && Concerns(e, kind, k) && Held(a'.store, kind, k) == ContentOf(e)
            else Held(a'.store, kind, k) == Held(a.store, kind, k)
  {
    var listing1, listing2, outcomes :|
      && Enumerates(listing1, a.cache) && Enumerates(listing2, a.cache) && AllDone(outcomes)
      && a' == ApplyAll(a, RoundDelta(listing1, listing2, D), outcomes);
    var adds, removals := DeltaRecords(listing1, D, Add), DeltaRecords(D, listing2, Remove);
    AddsFrom(D, listing1);
    RemovesAt(D, listing2, a.cache, k);
    ApplyAllSplit(a, adds, removals, outcomes);
    CleanAdds(a, adds, outcomes);
    AddsHeld(a, D, listing1, outcomes, kind, k);
    CleanRemovesHeld(ApplyAll(a, adds, outcomes), removals, outcomes, kind, k);
    RemovesTouch(D, listing2, a.cache, kind, k);
  }

  /** An unwanted entry of Consul is gone after a clean round if it was cached, and is as
      it was otherwise. */
  lemma {:induction false} UnwantedHeldAfterRound(a: Agent, D: seq<Record>, a': Agent, kind: RecordType, k: string)
    requires a.healthy && ValidCache(a.cache) && AllLive(D) && CleanRound(a, D, a')
    requires kind != Untyped && !WantedAs(kind, k, D)
    ensures Held(a'.store, kind, k) == if CachedAs(kind, k, a.cache) then NOTHING else Held(a.store, kind, k)
  {
    RoundHeldAt(a, D, a', kind, k);
    if CachedAs(kind, k, a.cache) { UnwantedCachedIsRemoved(D, a.cache, kind, k); }
  }

  lemma {:induction false} UnwantedNotCachedAfterRound(a: Agent, D: seq<Record>, a': Agent, kind: RecordType, k: string)
    requires a.healthy && ValidCache(a.cache) && AllLive(D) && CleanRound(a, D, a')
    requires kind != Untyped && !WantedAs(kind, k, D)
    ensures !CachedAs(kind, k, a'.cache)
  {
    RoundCacheAt(a, D, a', k);
    if CachedAs(kind, k, a.cache) { UnwantedCachedIsRemoved(D, a.cache, kind, k); }
  }

  // ----- agreement

  /** A round of successful calls keeps cache and Consul in agreement. */
  lemma {:induction false} CleanRoundAgrees(a: Agent, delta: seq<Record>, outcomes: nat -> Outcome)
    requires a.healthy && Agrees(a) && ValidCache(a.cache) && AllDone(outcomes)
    requires forall r :: r in delta ==> Live(r) && r.action != NoAction
    ensures var b := ApplyAll(a, delta, outcomes); b.healthy && Agrees(b) && ValidCache(b.cache)
  {
    if delta == [] {
    } else {
      var n := |delta| - 1;
      CleanRoundAgrees(a, delta[..n], outcomes);
      assert delta[n] in delta;
    }
  }

  lemma {:induction false} RoundAgrees(a: Agent, D: seq<Record>, a': Agent)
    requires a.healthy && Agrees(a) && ValidCache(a.cache) && AllLive(D) && CleanRound(a, D, a')
    ensures Agrees(a')
  {
    var listing1, listing2, outcomes :|
      && Enumerates(listing1, a.cache) && Enumerates(listing2, a.cache) && AllDone(outcomes)
      && a' == ApplyAll(a, RoundDelta(listing1, listing2, D), outcomes);
    DeltaIsLive(listing1, listing2, D, a.cache);
    CleanRoundAgrees(a, RoundDelta(listing1, listing2, D), outcomes);
  }

  /** Consul holds every registration of the set, up to tag order and notes. */
  ghost predicate HoldsAll(store: Store, D: seq<Record>) { forall d :: d in D ==> HoldsFor(store, d) }

  ghost predicate HoldsFor(store: Store, d: Record) {
    && (d.service.Some? ==> Id(d) in store.services && EqualUpToTagOrder(store.services[Id(d)], d.service.value))
    && (d.check.Some? ==> Id(d) in store.checks && SameCheck(store.checks[Id(d)], d.check.value))
  }

  lemma {:induction false} ConvergedConsul(a: Agent, D: seq<Record>)
    requires AllLive(D) && Agrees(a) && Converged(a.cache, D)
    ensures HoldsAll(a.store, D)
  {
    forall d | d in D ensures HoldsFor(a.store, d) {
      EquivalentMatches(a.cache[Id(d)], d);
    }
  }

  // ----- two rounds

  /** Exactly what Consul holds after two clean rounds: the wanted registrations, and those
      that the agent had not cached. */
  lemma {:induction false} TwoRoundsLeaveExactly(a: Agent, D: seq<Record>, a1: Agent, a2: Agent)
    requires a.healthy && Agrees(a) && ValidCache(a.cache) && GoodSet(D)
    requires CleanRound(a, D, a1) && CleanRound(a1, D, a2)
    ensures HoldsAll(a2.store, D)
    ensures forall k :: k in a2.store.services <==>
              WantedAs(ServiceType, k, D) || (k in a.store.services && !CachedAs(ServiceType, k, a.cache))
    ensures forall k :: k in a2.store.checks <==>
              WantedAs(CheckType, k, D) || (k in a.store.checks && !CachedAs(CheckType, k, a.cache))
    ensures forall kind, k :: kind != Untyped && !WantedAs(kind, k, D) && !CachedAs(kind, k, a.cache) ==>
              Held(a2.store, kind, k) == Held(a.store, kind, k)
  {
    RoundAgrees(a, D, a1);
    RoundKeepsValid(a, D, a1);
    RoundAgrees(a1, D, a2);
    TwoRoundsConverge(a, D, a1, a2);
    ConvergedConsul(a2, D);
    forall kind, k | kind != Untyped
      ensures if WantedAs(kind, k, D) then Held(a2.store, kind, k) != NOTHING
              else Held(a2.store, kind, k) == if CachedAs(kind, k, a.cache) then NOTHING else Held(a.store, kind, k)
    {
      EntryAfterTwoRounds(a, D, a1, a2, kind, k);
    }
    PresentIffHeld(a2.store);
    PresentIffHeld(a.store);
  }

  lemma {:induction false} EntryAfterTwoRounds(
    a: Agent, D: seq<Record>, a1: Agent, a2: Agent, kind: RecordType, k: string)
    requires a.healthy && ValidCache(a.cache) && AllLive(D) && kind != Untyped
    requires CleanRound(a, D, a1) && CleanRound(a1, D, a2) && HoldsAll(a2.store, D)
    ensures if WantedAs(kind, k, D) then Held(a2.store, kind, k) != NOTHING
            else Held(a2.store, kind, k) == if CachedAs(kind, k, a.cache) then NOTHING else Held(a.store, kind, k)
  {
    if WantedAs(kind, k, D) {
      WantedIsHeld(a2.store, D, kind, k);
    } else {
      RoundKeepsValid(a, D, a1);
      UnwantedHeldAfterRound(a, D, a1, kind, k);
      UnwantedNotCachedAfterRound(a, D, a1, kind, k);
      UnwantedHeldAfterRound(a1, D, a2, kind, k);
    }
  }

  // ----- when Consul holds the wanted registration to the letter

  lemma AgreesHeld(a: Agent, k: string)
    requires Agrees(a) && ValidCache(a.cache) && k in a.cache && Live(a.cache[k])
    ensures Held(a.store, a.cache[k].recordType, k) == ContentOf(a.cache[k])
  {
  }

  /** After two rounds Consul holds a wanted registration to the letter exactly when the
      cached one was not stale. */
  lemma {:induction false} LetterInConsul(a: Agent, D: seq<Record>, a1: Agent, a2: Agent, d: Record)
    requires a.healthy && Agrees(a) && ValidCache(a.cache) && AllLive(D) && OneRegistration(D) && d in D
    requires CleanRound(a, D, a1) && CleanRound(a1, D, a2)
    ensures Id(d) in a2.cache && (SameRegistration(a2.cache[Id(d)], d) <==> !Stale(a.cache, d))
    ensures Held(a2.store, d.recordType, Id(d)) == ContentOf(d) <==> !Stale(a.cache, d)
  {
    LetterExactlyWhen(a, D, a1, a2, d);
    AgreesAfterTwoRounds(a, D, a1, a2);
    KindAfterTwoRounds(a, D, a1, a2, d);
    AgreesHeld(a2, Id(d));
  }

  lemma {:induction false} AgreesAfterTwoRounds(a: Agent, D: seq<Record>, a1: Agent, a2: Agent)
    requires a.healthy && Agrees(a) && ValidCache(a.cache) && AllLive(D) && CleanRound(a, D, a1) &&
             CleanRound(a1, D, a2)
    ensures ValidCache(a2.cache) && Agrees(a2)
  {
    RoundAgrees(a, D, a1);
    RoundKeepsValid(a, D, a1);
    RoundAgrees(a1, D, a2);
    RoundKeepsValid(a1, D, a2);
  }

  lemma {:induction false} KindAfterTwoRounds(a: Agent, D: seq<Record>, a1: Agent, a2: Agent, d: Record)
    requires a.healthy && ValidCache(a.cache) && AllLive(D) && OneRegistration(D) && d in D
    requires CleanRound(a, D, a1) && CleanRound(a1, D, a2) && Id(d) in a2.cache
    ensures a2.cache[Id(d)].recordType == d.recordType
  {
    RoundKeepsValid(a, D, a1);
    RoundKeepsValid(a1, D, a2);
    RegistrationAfterRound(a1, D, a2, d);
  }

  /** The check is cached with other notes only. */
  ghost predicate StaleNotes(cache: Cache, d: Record)
    requires d.check.Some?
  {
    && Id(d) in cache && cache[Id(d)].check.Some? && SameCheck(cache[Id(d)].check.value, d.check.value)
    && cache[Id(d)].check.value.notes != d.check.value.notes
  }

  /** After two rounds cache and Consul hold a wanted check with its notes exactly when it
      was not cached with other notes only: a change of the notes is never noticed. */
  lemma {:induction false} NotesExactlyWhen(a: Agent, D: seq<Record>, a1: Agent, a2: Agent, d: Record)
    requires a.healthy && Agrees(a) && ValidCache(a.cache) && AllLive(D) && OneRegistration(D)
    requires d in D && d.check.Some? && CleanRound(a, D, a1) && CleanRound(a1, D, a2)
    ensures Id(d) in a2.cache && (a2.cache[Id(d)].check == d.check <==> !StaleNotes(a.cache, d))
    ensures Id(d) in a2.store.checks && (a2.store.checks[Id(d)] == d.check.value <==> !StaleNotes(a.cache, d))
  {
    LetterInConsul(a, D, a1, a2, d);
    AgreesAfterTwoRounds(a, D, a1, a2);
    KindAfterTwoRounds(a, D, a1, a2, d);
    StaleNotesIsStale(a.cache, d);
  }

  lemma {:induction false} StaleNotesIsStale(cache: Cache, d: Record)
    requires ValidCache(cache) && Live(d) && d.check.Some?
    ensures Stale(cache, d) <==> StaleNotes(cache, d)
  {
    if Id(d) in cache && cache[Id(d)].check.Some? && SameCheck(cache[Id(d)].check.value, d.check.value) {
      var c := cache[Id(d)].check.value;
      assert c == d.check.value <==> c.notes == d.check.value.notes;
    }
  }

  /** For instance: other notes for any check leave the delta empty. */
  lemma {:induction false} NotesChangeUnnoticed(c: Check, notes: string)
    requires notes != c.notes
    ensures var cached := Record(Add, "", "", CheckType, None, Some(c));
            var d := cached.(check := Some(c.(notes := notes)));
            var cache := map[c.id := cached];
            && ValidCache(cache) && GoodSet([d]) && StaleNotes(cache, d) && Converged(cache, [d])
            && forall listing1, listing2 :: Enumerates(listing1, cache) && Enumerates(listing2, cache) ==>
                 RoundDelta(listing1, listing2, [d]) == []
  {
    var cached := Record(Add, "", "", CheckType, None, Some(c));
    var d := cached.(check := Some(c.(notes := notes)));
    var cache := map[c.id := cached];
    assert d in [d] && Converged(cache, [d]);
    forall listing1, listing2 | Enumerates(listing1, cache) && Enumerates(listing2, cache)
      ensures RoundDelta(listing1, listing2, [d]) == []
    {
      ConvergedRoundIsIdle(Agent(true, cache, Store(map[], map[])), [d], listing1, listing2, _ => Done);
    }
  }

  // ----- pulling first

  ghost predicate ServicesOwned(D: seq<Record>, prefix: string) {
    forall d :: d in D && d.service.Some? ==> Owned(prefix, Id(d))
  }

  /** Only services with our prefix are cached. */
  ghost predicate CachedServicesOwned(cache: Cache, prefix: string) {
    forall k :: k in cache && cache[k].service.Some? ==> Owned(prefix, k)
  }

  /** The agent has cached the services under the prefix, no others, and as they are. */
  ghost predicate Covered(a: Agent, prefix: string) {
    && a.healthy && ValidCache(a.cache) && ValidStore(a.store) && Agrees(a)
    && CachedServicesOwned(a.cache, prefix)
    && forall k :: k in a.store.services && Owned(prefix, k) ==> CachedAs(ServiceType, k, a.cache)
  }

  lemma {:induction false} PullCovers(cfg: Config, a: Agent)
    requires !cfg.cacheOnly && ValidStore(a.store) && !PullPanics(a.store.services, cfg.prefix)
    requires a.healthy ==> Agrees(a) && ValidCache(a.cache) && CachedServicesOwned(a.cache, cfg.prefix)
    ensures var b := Refreshed(cfg, a, true); b.store == a.store && Covered(b, cfg.prefix)
  {
    var b := Refreshed(cfg, a, true);
    var kept: Cache := if a.healthy then a.cache else map[];
    forall k ensures k in b.store.services && Owned(cfg.prefix, k) ==> CachedAs(ServiceType, k, b.cache) {
      PulledAt(kept, a.store.services, cfg.prefix, k);
    }
    forall k | k in b.cache
      ensures WellFormed(b.cache[k]) && Id(b.cache[k]) == k
      ensures b.cache[k].service.Some? ==>
                Owned(cfg.prefix, k) && k in b.store.services && b.store.services[k] == b.cache[k].service.value
      ensures b.cache[k].check.Some? ==> k in b.store.checks && b.store.checks[k] == b.cache[k].check.value
    {
      PulledAt(kept, a.store.services, cfg.prefix, k);
    }
  }

  /** What may happen between two rounds: nothing, or a refresh that pulls or fails to. */
  ghost predicate MayRefresh(cfg: Config, a: Agent, b: Agent) {
    || b == a
    || (!cfg.cacheOnly && ValidStore(a.store) &&
        (b == Refreshed(cfg, a, false) || (!PullPanics(a.store.services, cfg.prefix) && b == Refreshed(cfg, a, true))))
  }

  /** A wanted entry of Consul after one clean round: absent, or as wanted. */
  lemma {:induction false} WantedHeldAfterRound(a: Agent, D: seq<Record>, a': Agent, d: Record)
    requires a.healthy && ValidCache(a.cache) && Agrees(a) && GoodSet(D) && CleanRound(a, D, a') && d in D
    ensures Held(a'.store, d.recordType, Id(d)) == NOTHING || HoldsFor(a'.store, d)
  {
    RoundAgrees(a, D, a');
    WantedAfterRound(a, D, a', d);
    if Changed(a.cache, d) {
      ChangedHeldAfterRound(a, D, a', d);
    } else {
      EquivalentMatches(a'.cache[Id(d)], d);
    }
  }

  lemma {:induction false} HeldIsWanted(store: Store, D: seq<Record>, e: Record, d: Record)
    requires AllLive(D) && OneContent(D) && d in D && e in D && Concerns(e, d.recordType, Id(d))
    requires Held(store, d.recordType, Id(d)) == ContentOf(e)
    ensures HoldsFor(store, d)
  {
    assert Equivalent(e, d);
  }

  /** A changed entry was removed, or replaced an entry of the other kind. */
  lemma {:induction false} ChangedHeldAfterRound(a: Agent, D: seq<Record>, a': Agent, d: Record)
    requires a.healthy && ValidCache(a.cache) && GoodSet(D) && CleanRound(a, D, a') && d in D && Changed(a.cache, d)
    ensures Held(a'.store, d.recordType, Id(d)) == NOTHING || HoldsFor(a'.store, d)
  {
    RemovedMeansChanged(D, a.cache, d);
    var e := ChangedHeldIs(a, D, a', d);
    if e.Some? { HeldIsWanted(a'.store, D, e.value, d); }
  }

  lemma {:induction false} ChangedHeldIs(a: Agent, D: seq<Record>, a': Agent, d: Record) returns (e: Option<Record>)
    requires a.healthy && ValidCache(a.cache) && AllLive(D) && CleanRound(a, D, a') && d in D
    requires Changed(a.cache, d) && RemovedAt(D, a.cache, Id(d))
    ensures e == None ==> Held(a'.store, d.recordType, Id(d)) == NOTHING
    ensures e.Some? ==> e.value in D && Concerns(e.value, d.recordType, Id(d)) &&
                        Held(a'.store, d.recordType, Id(d)) == ContentOf(e.value)
  {
    var k, kind := Id(d), d.recordType;
    RoundHeldAt(a, D, a', kind, k);
    e := None;
    if a.cache[k].recordType != kind {
      assert AddedAt(D, a.cache, d) && Concerns(d, kind, k);
      var x :| x in D && Concerns(x, kind, k) && Held(a'.store, kind, k) == ContentOf(x);
      e := Some(x);
    }
  }

  /** After a clean round of a covering agent, Consul's services under the prefix are wanted. */
  lemma {:induction false} OwnedAreWanted(a: Agent, D: seq<Record>, a': Agent, prefix: string, k: string)
    requires Covered(a, prefix) && AllLive(D) && CleanRound(a, D, a')
    ensures k in a'.store.services && Owned(prefix, k) ==> WantedAs(ServiceType, k, D)
  {
    if !WantedAs(ServiceType, k, D) { UnwantedHeldAfterRound(a, D, a', ServiceType, k); }
  }

  /** A refresh between the rounds brings in nothing that the second round would change. */
  lemma {:induction false} RefreshUnchanged(cfg: Config, a: Agent, D: seq<Record>, a1: Agent, b1: Agent, d: Record)
    requires !cfg.cacheOnly && Covered(a, cfg.prefix) && GoodSet(D) && d in D
    requires CleanRound(a, D, a1) && MayRefresh(cfg, a1, b1)
    ensures !Changed(b1.cache, d)
  {
    OwnedAreWanted(a, D, a1, cfg.prefix, Id(d));
    if WantedAs(ServiceType, Id(d), D) { KindIsUnique(D, d); }
    WantedInstead(a, D, a1, d);
    NotChangedByRefresh(cfg, a1, b1, d);
  }

  lemma {:induction false} WantedInstead(a: Agent, D: seq<Record>, a': Agent, d: Record)
    requires a.healthy && ValidCache(a.cache) && Agrees(a) && GoodSet(D) && CleanRound(a, D, a') && d in D
    ensures a'.healthy && (Id(d) in a'.cache ==> Equivalent(a'.cache[Id(d)], d))
    ensures Held(a'.store, d.recordType, Id(d)) == NOTHING || HoldsFor(a'.store, d)
  {
    RoundKeepsValid(a, D, a');
    WantedAfterRound(a, D, a', d);
    WantedHeldAfterRound(a, D, a', d);
  }

  lemma KindIsUnique(D: seq<Record>, d: Record)
    requires AllLive(D) && OneContent(D) && d in D && WantedAs(ServiceType, Id(d), D)
    ensures d.service.Some?
  {
    var e :| e in D && Concerns(e, ServiceType, Id(d));
    assert Equivalent(d, e);
  }

  lemma {:induction false} NotChangedByRefresh(cfg: Config, a: Agent, b: Agent, d: Record)
    requires !cfg.cacheOnly && a.healthy && MayRefresh(cfg, a, b) && Live(d)
    requires Id(d) in a.cache ==> Equivalent(a.cache[Id(d)], d)
    requires Held(a.store, d.recordType, Id(d)) == NOTHING || HoldsFor(a.store, d)
    requires d.service.Some? || !Owned(cfg.prefix, Id(d)) || Id(d) !in a.store.services
    ensures !Changed(b.cache, d)
  {
    if Id(d) in a.cache { EquivalentMatches(a.cache[Id(d)], d); }
    if b != a && b != Refreshed(cfg, a, false) {
      PulledAt(a.cache, a.store.services, cfg.prefix, Id(d));
      if d.service.Some? && Id(d) in a.store.services {
        TagOrderGivesSame(a.store.services[Id(d)], d.service.value);
      }
    }
  }

  /** Refreshing makes the agent healthy, with a valid cache that agrees with Consul. */
  lemma {:induction false} RefreshAgrees(cfg: Config, a: Agent, ok: bool)
    requires ValidCache(a.cache) && ValidStore(a.store) && (a.healthy ==> Agrees(a))
    requires !cfg.cacheOnly && ok ==> !PullPanics(a.store.services, cfg.prefix)
    ensures var b := Refreshed(cfg, a, ok); b.healthy && b.store == a.store && ValidCache(b.cache) && Agrees(b)
  {
    var b := Refreshed(cfg, a, ok);
    if !cfg.cacheOnly && ok {
      forall k | k in b.cache
        ensures WellFormed(b.cache[k]) && Id(b.cache[k]) == k
        ensures b.cache[k].service.Some? ==> k in b.store.services && b.store.services[k] == b.cache[k].service.value
        ensures b.cache[k].check.Some? ==> k in b.store.checks && b.store.checks[k] == b.cache[k].check.value
      {
        PulledAt(if a.healthy then a.cache else map[], a.store.services, cfg.prefix, k);
      }
    }
  }

  lemma {:induction false} MayRefreshAgrees(cfg: Config, a: Agent, b: Agent)
    requires a.healthy && ValidCache(a.cache) && Agrees(a) && MayRefresh(cfg, a, b)
    ensures b.healthy && b.store == a.store && ValidCache(b.cache) && Agrees(b)
  {
    if b != a { RefreshAgrees(cfg, a, b != Refreshed(cfg, a, false)); }
  }

  /** Two clean rounds converge also with a refresh between them. */
  lemma {:induction false} TwoTurnsConverge(cfg: Config, a: Agent, D: seq<Record>, a1: Agent, b1: Agent, a2: Agent)
    requires !cfg.cacheOnly && Covered(a, cfg.prefix) && GoodSet(D)
    requires CleanRound(a, D, a1) && MayRefresh(cfg, a1, b1) && CleanRound(b1, D, a2)
    ensures b1.healthy && b1.store == a1.store && ValidCache(b1.cache)
    ensures a2.healthy && ValidCache(a2.cache) && Agrees(a2) && Converged(a2.cache, D)
  {
    RoundKeepsValid(a, D, a1);
    RoundAgrees(a, D, a1);
    MayRefreshAgrees(cfg, a1, b1);
    forall d | d in D ensures !Changed(b1.cache, d) {
      RefreshUnchanged(cfg, a, D, a1, b1, d);
    }
    SecondRound(b1, D, a2);
  }

  lemma {:induction false} SecondRound(a: Agent, D: seq<Record>, a': Agent)
    requires a.healthy && ValidCache(a.cache) && Agrees(a) && GoodSet(D) && CleanRound(a, D, a')
    requires forall d :: d in D ==> !Changed(a.cache, d)
    ensures a'.healthy && ValidCache(a'.cache) && Agrees(a') && Converged(a'.cache, D)
  {
    RoundKeepsValid(a, D, a');
    RoundAgrees(a, D, a');
    OneRoundExactly(a, D, a');
  }

  lemma {:induction false} UnwantedAfterTwoTurns(
    cfg: Config, a: Agent, D: seq<Record>, a1: Agent, b1: Agent, a2: Agent, kind: RecordType, k: string)
    requires !cfg.cacheOnly && Covered(a, cfg.prefix) && AllLive(D) && kind != Untyped && !WantedAs(kind, k, D)
    requires CleanRound(a, D, a1) && MayRefresh(cfg, a1, b1) && CleanRound(b1, D, a2)
    requires b1.healthy && b1.store == a1.store && ValidCache(b1.cache)
    ensures Held(a2.store, kind, k) == if CachedAs(kind, k, a.cache) then NOTHING else Held(a.store, kind, k)
  {
    UnwantedHeldAfterRound(a, D, a1, kind, k);
    UnwantedNotCachedAfterRound(a, D, a1, kind, k);
    OwnedAreWanted(a, D, a1, cfg.prefix, k);
    RoundKeepsValid(a, D, a1);
    RefreshCachesNoMore(cfg, a1, b1, kind, k);
    UnwantedHeldAfterRound(b1, D, a2, kind, k);
  }

  lemma {:induction false} RefreshCachesNoMore(cfg: Config, a: Agent, b: Agent, kind: RecordType, k: string)
    requires a.healthy && MayRefresh(cfg, a, b) && kind != Untyped && !CachedAs(kind, k, a.cache)
    requires kind == ServiceType && k in a.store.services ==> !Owned(cfg.prefix, k)
    ensures !CachedAs(kind, k, b.cache)
  {
    if b != a && b != Refreshed(cfg, a, false) { PulledAt(a.cache, a.store.services, cfg.prefix, k); }
  }

  /** With the cache pulled from Consul first and all calls succeeding, two rounds, with or
      without a refresh between them, leave Consul with exactly the wanted services under
      our prefix, everyone else's services untouched, and exactly the wanted checks next
      to those that were not cached. */
  lemma {:induction false} TwoRoundsFixConsul(
    cfg: Config, a0: Agent, D: seq<Record>, a: Agent, a1: Agent, b1: Agent, a2: Agent)
    requires !cfg.cacheOnly && ValidStore(a0.store) && !PullPanics(a0.store.services, cfg.prefix)
    requires a0.healthy ==> Agrees(a0) && ValidCache(a0.cache) && CachedServicesOwned(a0.cache, cfg.prefix)
    requires a == Refreshed(cfg, a0, true) && GoodSet(D) && ServicesOwned(D, cfg.prefix)
    requires CleanRound(a, D, a1) && MayRefresh(cfg, a1, b1) && CleanRound(b1, D, a2)
    ensures HoldsAll(a2.store, D)
    ensures forall k :: ':' !in cfg.prefix && (k == cfg.prefix || cfg.prefix + ":" <= k) ==>
              (k in a2.store.services <==> exists d :: d in D && d.service.Some? && d.service.value.id == k)
    ensures forall k :: !(':' !in cfg.prefix && (k == cfg.prefix || cfg.prefix + ":" <= k)) ==>
              Held(a2.store, ServiceType, k) == Held(a0.store, ServiceType, k)
    ensures forall k :: k in a2.store.checks <==>
              WantedAs(CheckType, k, D) || (k in a0.store.checks && !CachedAs(CheckType, k, a.cache))
    ensures forall k :: !WantedAs(CheckType, k, D) && !CachedAs(CheckType, k, a.cache) ==>
              Held(a2.store, CheckType, k) == Held(a0.store, CheckType, k)
    ensures a2.healthy && Agrees(a2) && ValidCache(a2.cache) && Converged(a2.cache, D)
  {
    PullCovers(cfg, a0);
    TwoTurnsConverge(cfg, a, D, a1, b1, a2);
    ConvergedConsul(a2, D);
    forall kind, k | kind != Untyped && !WantedAs(kind, k, D)
      ensures Held(a2.store, kind, k) == if CachedAs(kind, k, a.cache) then NOTHING else Held(a0.store, kind, k)
    {
      UnwantedAfterTwoTurns(cfg, a, D, a1, b1, a2, kind, k);
    }
    FixedConsul(cfg, a0.store, a, D, a2.store);
    UnderPrefix(cfg.prefix, D);
  }

  /** Ownership and wanted services in terms of the identifiers. */
  lemma {:induction false} UnderPrefix(prefix: string, D: seq<Record>)
    requires AllLive(D)
    ensures forall k :: Owned(prefix, k) <==> ':' !in prefix && (k == prefix || prefix + ":" <= k)
    ensures forall k :: WantedAs(ServiceType, k, D) <==>
            exists d :: d in D && d.service.Some? && d.service.value.id == k
  {
    forall k ensures Owned(prefix, k) <==> ':' !in prefix && (k == prefix || prefix + ":" <= k) {
      OwnedMeans(prefix, k);
    }
    forall k ensures WantedAs(ServiceType, k, D) <==> exists d :: d in D && d.service.Some? && d.service.value.id == k {
      if d :| d in D && d.service.Some? && d.service.value.id == k { assert Concerns(d, ServiceType, k); }
    }
  }

  /** The same, read off the entries. */
  lemma {:induction false} FixedConsul(cfg: Config, before: Store, a: Agent, D: seq<Record>, after: Store)
    requires Covered(a, cfg.prefix) && a.store == before && AllLive(D) && ServicesOwned(D, cfg.prefix) &&
             HoldsAll(after, D)
    requires forall kind, k :: kind != Untyped && !WantedAs(kind, k, D) ==>
               Held(after, kind, k) == if CachedAs(kind, k, a.cache) then NOTHING else Held(before, kind, k)
    ensures forall k :: Owned(cfg.prefix, k) ==> (k in after.services <==> WantedAs(ServiceType, k, D))
    ensures forall k :: !Owned(cfg.prefix, k) ==> Held(after, ServiceType, k) == Held(before, ServiceType, k)
    ensures forall k :: k in after.checks <==>
            WantedAs(CheckType, k, D) || (k in before.checks && !CachedAs(CheckType, k, a.cache))
  {
    forall kind, k | kind != Untyped && WantedAs(kind, k, D) ensures Held(after, kind, k) != NOTHING {
      WantedIsHeld(after, D, kind, k);
    }
    PresentIffHeld(after);
    PresentIffHeld(before);
  }

  /** With CacheOnly the refresh forgets everything. One clean round then converges, and
      only adds and updates: whatever is in Consul at the refresh stays. */
  lemma {:induction false} CacheOnlyRemovesNothing(
    cfg: Config, a0: Agent, ok: bool, D: seq<Record>, a: Agent, a1: Agent)
    requires cfg.cacheOnly && ValidStore(a0.store) && GoodSet(D) && a == Refreshed(cfg, a0, ok) && CleanRound(a, D, a1)
    ensures a1.healthy && Converged(a1.cache, D) && HoldsAll(a1.store, D)
    ensures forall k :: k in a1.store.services <==> WantedAs(ServiceType, k, D) || k in a0.store.services
    ensures forall k :: k in a1.store.checks <==> WantedAs(CheckType, k, D) || k in a0.store.checks
    ensures forall kind, k :: kind != Untyped && !WantedAs(kind, k, D) ==>
              Held(a1.store, kind, k) == Held(a0.store, kind, k)
  {
    SecondRound(a, D, a1);
    ConvergedConsul(a1, D);
    forall kind, k | kind != Untyped && !WantedAs(kind, k, D)
      ensures Held(a1.store, kind, k) == Held(a0.store, kind, k)
    {
      UnwantedHeldAfterRound(a, D, a1, kind, k);
    }
    PresentAsHeld(a0.store, D, a1.store);
  }

  lemma {:induction false} PresentAsHeld(before: Store, D: seq<Record>, after: Store)
    requires AllLive(D) && HoldsAll(after, D)
    requires forall kind, k :: kind != Untyped && !WantedAs(kind, k, D) ==>
             Held(after, kind, k) == Held(before, kind, k)
    ensures forall k :: k in after.services <==> WantedAs(ServiceType, k, D) || k in before.services
    ensures forall k :: k in after.checks <==> WantedAs(CheckType, k, D) || k in before.checks
  {
    forall kind, k | kind != Untyped && WantedAs(kind, k, D) ensures Held(after, kind, k) != NOTHING {
      WantedIsHeld(after, D, kind, k);
    }
    PresentIffHeld(after);
    PresentIffHeld(before);
  }

  lemma PresentIffHeld(store: Store)
    ensures forall k :: k in store.services <==> Held(store, ServiceType, k) != NOTHING
    ensures forall k :: k in store.checks <==> Held(store, CheckType, k) != NOTHING
  {
  }

  lemma WantedIsHeld(store: Store, D: seq<Record>, kind: RecordType, k: string)
    requires AllLive(D) && HoldsAll(store, D) && kind != Untyped && WantedAs(kind, k, D)
    ensures Held(store, kind, k) != NOTHING
  {
    var d :| d in D && Concerns(d, kind, k);
    assert HoldsFor(store, d);
  }

  // ----- staying converged

  /** The agent has nothing left to do for D, and would not learn of anything by pulling. */
  ghost predicate Steady(cfg: Config, a: Agent, D: seq<Record>) {
    && a.healthy && ValidCache(a.cache) && ValidStore(a.store) && Agrees(a) && Converged(a.cache, D)
    && forall k :: k in a.store.services && Owned(cfg.prefix, k) ==> WantedAs(ServiceType, k, D)
  }

  /** One more turn on the same record set: an optional pull, then the round. */
  ghost predicate SameSetTurn(cfg: Config, a: Agent, D: seq<Record>, a': Agent) {
    exists b, listing1, listing2, outcomes ::
      && MayRefresh(cfg, a, b) && Enumerates(listing1, b.cache) && Enumerates(listing2, b.cache)
      && a' == ApplyAll(b, RoundDelta(listing1, listing2, D), outcomes)
  }

  /** A pull repeats to a steady agent what it has cached, "" aside. */
  lemma {:induction false} PullRepeats(cfg: Config, a: Agent, D: seq<Record>, k: string)
    requires GoodSet(D) && Steady(cfg, a, D) && !PullPanics(a.store.services, cfg.prefix)
    ensures var b := Pulled(a.cache, a.store.services, cfg.prefix);
            if k == "" && a.store.services != map[] then k in b && b[k] == ZERO_RECORD
            else (k in b <==> k in a.cache) &&
                 (k in b ==> SameRegistration(b[k], a.cache[k]) && b[k].recordType == a.cache[k].recordType)
  {
    assert Split("", ':') == [""];
    assert !("" in a.store.services && Owned(cfg.prefix, ""));
    PulledAt(a.cache, a.store.services, cfg.prefix, k);
    if k in a.store.services && Owned(cfg.prefix, k) {
      var d :| d in D && Concerns(d, ServiceType, k);
      EquivalentMatches(a.cache[k], d);
    }
  }

  /** The zero padding of the pull overwrites no wanted entry: none has the empty
      identifier, or no service is listed. */
  ghost predicate PaddingHarmless(a: Agent, D: seq<Record>) { !Wanted("", D) || a.store.services == map[] }

  /** A pull keeps a steady agent converged exactly when its padding is harmless. */
  lemma {:induction false} PullKeepsConvergedExactlyWhen(cfg: Config, a: Agent, D: seq<Record>)
    requires !cfg.cacheOnly && GoodSet(D) && Steady(cfg, a, D) && !PullPanics(a.store.services, cfg.prefix)
    ensures Converged(Refreshed(cfg, a, true).cache, D) <==> !Wanted("", D) || a.store.services == map[]
  {
    if PaddingHarmless(a, D) {
      PullKeepsConverged(cfg, a, D);
    } else {
      PaddingForgetsEmptyId(cfg, a, D);
    }
  }

  /** With harmless padding the agent stays steady. */
  lemma {:induction false} PullKeepsSteady(cfg: Config, a: Agent, D: seq<Record>, ok: bool)
    requires !cfg.cacheOnly && GoodSet(D) && Steady(cfg, a, D) && (ok ==> !PullPanics(a.store.services, cfg.prefix))
    requires PaddingHarmless(a, D)
    ensures var b := Refreshed(cfg, a, ok); b.store == a.store && Steady(cfg, b, D)
  {
    if ok {
      PullKeepsAgreement(cfg, a, D);
      PullKeepsConverged(cfg, a, D);
    }
  }

  lemma {:induction false} PullKeepsAgreement(cfg: Config, a: Agent, D: seq<Record>)
    requires GoodSet(D) && Steady(cfg, a, D) && !PullPanics(a.store.services, cfg.prefix)
    ensures var b := a.(cache := Pulled(a.cache, a.store.services, cfg.prefix)); ValidCache(b.cache) && Agrees(b)
  {
    var b := a.(cache := Pulled(a.cache, a.store.services, cfg.prefix));
    forall k | k in b.cache
      ensures WellFormed(b.cache[k]) && Id(b.cache[k]) == k
      ensures b.cache[k].service.Some? ==> k in b.store.services && b.store.services[k] == b.cache[k].service.value
      ensures b.cache[k].check.Some? ==> k in b.store.checks && b.store.checks[k] == b.cache[k].check.value
    {
      PullRepeats(cfg, a, D, k);
    }
  }

  lemma {:induction false} PullKeepsConverged(cfg: Config, a: Agent, D: seq<Record>)
    requires GoodSet(D) && Steady(cfg, a, D) && !PullPanics(a.store.services, cfg.prefix) && PaddingHarmless(a, D)
    ensures Converged(Pulled(a.cache, a.store.services, cfg.prefix), D)
  {
    var b := Pulled(a.cache, a.store.services, cfg.prefix);
    forall k | k in b && Live(b[k]) ensures Wanted(k, D) {
      PullAddsNothing(cfg, a, D, k);
    }
    forall d | d in D ensures Id(d) in b && Equivalent(b[Id(d)], d) {
      PullKeepsWanted(cfg, a, D, d);
    }
  }

  lemma {:induction false} PullAddsNothing(cfg: Config, a: Agent, D: seq<Record>, k: string)
    requires GoodSet(D) && Steady(cfg, a, D) && !PullPanics(a.store.services, cfg.prefix)
    requires var b := Pulled(a.cache, a.store.services, cfg.prefix); k in b && Live(b[k])
    ensures Wanted(k, D)
  {
    PullRepeats(cfg, a, D, k);
    assert k in a.cache && Live(a.cache[k]);
  }

  lemma {:induction false} PullKeepsWanted(cfg: Config, a: Agent, D: seq<Record>, d: Record)
    requires GoodSet(D) && Steady(cfg, a, D) && !PullPanics(a.store.services, cfg.prefix) && d in D &&
             PaddingHarmless(a, D)
    ensures var b := Pulled(a.cache, a.store.services, cfg.prefix); Id(d) in b && Equivalent(b[Id(d)], d)
  {
    PullRepeats(cfg, a, D, Id(d));
    SameContentEquivalent(a.cache[Id(d)], Pulled(a.cache, a.store.services, cfg.prefix)[Id(d)], d);
  }

  lemma SameContentEquivalent(c: Record, c': Record, d: Record)
    requires c.service == c'.service && c.check == c'.check && Equivalent(c, d)
    ensures Equivalent(c', d)
  {
  }

  /** A wanted record with the empty identifier is forgotten by every pull that lists a
      service, and registered anew in the round that follows. */
  lemma {:induction false} PaddingForgetsEmptyId(cfg: Config, a: Agent, D: seq<Record>)
    requires !cfg.cacheOnly && ValidStore(a.store) && !PullPanics(a.store.services, cfg.prefix) && AllLive(D)
    requires Wanted("", D) && a.store.services != map[]
    requires a.healthy ==> ValidCache(a.cache) && Agrees(a)
    ensures var b := Refreshed(cfg, a, true);
            && !Converged(b.cache, D)
            && forall d, listing1, listing2 ::
                 d in D && Id(d) == "" && Enumerates(listing1, b.cache) ==>
                   d.(action := Add) in RoundDelta(listing1, listing2, D)
  {
    var b := Refreshed(cfg, a, true);
    PaddedEmptyId(cfg, a);
    RefreshAgrees(cfg, if a.healthy then a else a.(cache := map[]), true);
    EmptyIdAddedAgain(b.cache, D);
  }

  lemma {:induction false} PaddedEmptyId(cfg: Config, a: Agent)
    requires !cfg.cacheOnly && ValidStore(a.store) && !PullPanics(a.store.services, cfg.prefix) &&
             a.store.services != map[]
    ensures var b := Refreshed(cfg, a, true); "" in b.cache && b.cache[""] == ZERO_RECORD
  {
    assert Split("", ':') == [""];
    assert !("" in a.store.services && Owned(cfg.prefix, ""));
    PulledAt(if a.healthy then a.cache else map[], a.store.services, cfg.prefix, "");
  }

  lemma {:induction false} EmptyIdAddedAgain(cache: Cache, D: seq<Record>)
    requires ValidCache(cache) && AllLive(D) && "" in cache && cache[""] == ZERO_RECORD
    ensures forall d, listing1, listing2 :: d in D && Id(d) == "" && Enumerates(listing1, cache) ==>
              d.(action := Add) in RoundDelta(listing1, listing2, D)
  {
    forall d, listing1, listing2 | d in D && Id(d) == "" && Enumerates(listing1, cache)
      ensures d.(action := Add) in RoundDelta(listing1, listing2, D)
    {
      AddsAt(D, listing1, cache, d);
    }
  }

  lemma {:induction false} SteadyTurn(cfg: Config, D: seq<Record>, a: Agent, a': Agent)
    requires !cfg.cacheOnly && GoodSet(D) && PaddingHarmless(a, D) && Steady(cfg, a, D) && SameSetTurn(cfg, a, D, a')
    ensures Steady(cfg, a', D) && a'.store == a.store
  {
    var b, listing1, listing2, outcomes :|
      && MayRefresh(cfg, a, b) && Enumerates(listing1, b.cache) && Enumerates(listing2, b.cache)
      && a' == ApplyAll(b, RoundDelta(listing1, listing2, D), outcomes);
    if b != a { PullKeepsSteady(cfg, a, D, b != Refreshed(cfg, a, false)); }
    ConvergedRoundIsIdle(b, D, listing1, listing2, outcomes);
  }

  ghost predicate TurnAt(cfg: Config, D: seq<Record>, run: seq<Agent>, i: nat) {
    i + 1 < |run| ==> SameSetTurn(cfg, run[i], D, run[i + 1])
  }

  lemma {:induction false} SteadyTurnAt(cfg: Config, D: seq<Record>, run: seq<Agent>, i: nat)
    requires !cfg.cacheOnly && GoodSet(D) && i + 1 < |run| && (forall j: nat :: TurnAt(cfg, D, run, j))
    requires PaddingHarmless(run[i], D) && Steady(cfg, run[i], D)
    ensures Steady(cfg, run[i + 1], D) && run[i + 1].store == run[i].store
  {
    assert TurnAt(cfg, D, run, i);
    SteadyTurn(cfg, D, run[i], run[i + 1]);
  }

  /** Over any number of further turns on the same set, with or without pulls and with any
      call outcomes, Consul and the converged cache do not change: no call is made. */
  lemma {:induction false} SteadyForever(cfg: Config, D: seq<Record>, run: seq<Agent>, i: nat)
    requires !cfg.cacheOnly && GoodSet(D) && i < |run| && (forall j: nat :: TurnAt(cfg, D, run, j))
    requires PaddingHarmless(run[0], D) && Steady(cfg, run[0], D)
    ensures Steady(cfg, run[i], D) && run[i].store == run[0].store
  {
    if i == 0 {
    } else {
      SteadyForever(cfg, D, run, i - 1);
      SteadyTurnAt(cfg, D, run, i - 1);
    }
  }
}
