/** Failure-free rounds of the reconciliation loop: what one round does to each
    identifier, when one round is enough, and when two always are. */
module ConsulConvergence {
  import opened Text
  import opened ConsulRecords
  import opened ConsulAgent

  /** Equal content: same kind, and equal up to tag order (services) or notes (checks). */
  ghost predicate Equivalent(c: Record, d: Record) {
    || (c.service.Some? && d.service.Some? && EqualUpToTagOrder(c.service.value, d.service.value))
    || (c.check.Some? && d.check.Some? && c.check.value.(notes := "") == d.check.value.(notes := ""))
  }

  /** Records that share an identifier have equal content. */
  ghost predicate OneContent(D: seq<Record>) {
    forall d, e :: d in D && e in D && Id(d) == Id(e) ==> Equivalent(d, e)
  }

  ghost predicate TagsDistinguishable(D: seq<Record>) {
    forall d :: d in D && d.service.Some? ==> Distinguishable(d.service.value.tags)
  }

  ghost predicate AllLive(D: seq<Record>) { forall d :: d in D ==> Live(d) }

  /** A set of typed records that rounds converge to: one content per identifier, and tags
      that the comparison can tell apart. AlwaysConvergesExactlyWhen says that both are
      needed. */
  ghost predicate GoodSet(D: seq<Record>) { AllLive(D) && OneContent(D) && TagsDistinguishable(D) }

  /** The cache holds exactly the record set. */
  ghost predicate Converged(cache: Cache, D: seq<Record>) {
    && (forall d :: d in D ==> Id(d) in cache && Equivalent(cache[Id(d)], d))
    && (forall k :: k in cache && Live(cache[k]) ==> Wanted(k, D))
  }

  ghost predicate Wanted(k: string, D: seq<Record>) { exists d :: d in D && Id(d) == k }

  /** The identifier of d is cached with other content. */
  ghost predicate Changed(cache: Cache, d: Record) {
    Id(d) in cache && Live(cache[Id(d)]) && !Matches(cache[Id(d)], d)
  }

  ghost predicate AllDone(outcomes: nat -> Outcome) { forall i: nat :: outcomes(i) == Done }

  /** A round in which every call succeeds, with the cache listed in any order. */
  ghost predicate CleanRound(a: Agent, D: seq<Record>, a': Agent) {
    exists listing1, listing2, outcomes ::
      && Enumerates(listing1, a.cache) && Enumerates(listing2, a.cache) && AllDone(outcomes)
      && a' == ApplyAll(a, RoundDelta(listing1, listing2, D), outcomes)
  }

  /** Every cache can be listed. */
  lemma {:induction false} ListingExists(cache: Cache, keys: set<string>) returns (listing: seq<Record>)
    requires ValidCache(cache) && keys <= cache.Keys
    ensures forall r :: r in listing ==> Id(r) in cache && cache[Id(r)] == r
    ensures forall k :: k in keys ==> cache[k] in listing
    decreases keys
  {
    if keys == {} {
      listing := [];
    } else {
      var k :| k in keys;
      var rest := ListingExists(cache, keys - {k});
      listing := rest + [cache[k]];
    }
  }

  /** From every state a clean round on every record set is possible. */
  lemma {:induction false} CleanRoundExists(a: Agent, D: seq<Record>) returns (a': Agent)
    requires ValidCache(a.cache)
    ensures CleanRound(a, D, a')
  {
    var listing := ListingExists(a.cache, a.cache.Keys);
    var outcomes: nat -> Outcome := i => Done;
    assert Enumerates(listing, a.cache) && AllDone(outcomes);
    a' := ApplyAll(a, RoundDelta(listing, listing, D), outcomes);
  }

  // ----- applying a delta without failures

  lemma {:induction false} ApplyAllSplit(a: Agent, x: seq<Record>, y: seq<Record>, outcomes: nat -> Outcome)
    requires AllDone(outcomes)
    ensures ApplyAll(a, x + y, outcomes) == ApplyAll(ApplyAll(a, x, outcomes), y, outcomes)
  {
    if y == [] {
      assert x + y == x;
    } else {
      var n := |y| - 1;
      ApplyAllSplit(a, x, y[..n], outcomes);
      assert (x + y)[..|x + y| - 1] == x + y[..n];
    }
  }

  lemma {:induction false} CleanAdds(a: Agent, adds: seq<Record>, outcomes: nat -> Outcome)
    requires a.healthy && AllDone(outcomes)
    requires forall r :: r in adds ==> Live(r) && r.action == Add
    ensures var b := ApplyAll(a, adds, outcomes); b.healthy && b.cache == AddAll(a.cache, adds)
  {
    if adds == [] {
    } else {
      CleanAdds(a, adds[..|adds| - 1], outcomes);
    }
  }

  lemma {:induction false} CleanRemoves(a: Agent, removals: seq<Record>, outcomes: nat -> Outcome, k: string)
    requires a.healthy && AllDone(outcomes)
    requires forall r :: r in removals ==> Live(r) && r.action == Remove
    ensures var b := ApplyAll(a, removals, outcomes);
            && b.healthy
            && (k in b.cache <==> k in a.cache && forall r :: r in removals ==> Id(r) != k)
            && (k in b.cache ==> b.cache[k] == a.cache[k])
  {
    if removals == [] {
    } else {
      var init, last := removals[..|removals| - 1], removals[|removals| - 1];
      assert removals == init + [last];
      CleanRemoves(a, init, outcomes, k);
    }
  }

  /** Of several records added under one identifier, some one is left in the cache. */
  lemma {:induction false} AddAllHits(cache: Cache, recs: seq<Record>, k: string)
    ensures var b := AddAll(cache, recs);
            if Hits(recs, k) then k in b && b[k] in recs && Id(b[k]) == k
            else (k in b <==> k in cache) && (k in cache ==> b[k] == cache[k])
  {
    if recs == [] {
    } else {
      var init, last := recs[..|recs| - 1], recs[|recs| - 1];
      assert recs == init + [last];
      AddAllHits(cache, init, k);
    }
  }

  // ----- what the two deltas contain, identifier by identifier

  /** Records of equal content match the same records. */
  lemma {:induction false} EquivalentMatchAlike(d: Record, e: Record, c: Record)
    requires Equivalent(d, e) && WellFormed(d) && WellFormed(e)
    ensures Matches(c, d) <==> Matches(c, e)
    ensures Matches(d, c) <==> Matches(e, c)
  {
    if d.service.Some? {
      TagOrderGivesSame(d.service.value, e.service.value);
    }
  }

  lemma MatchSameId(n: Record, o: Record)
    requires Matches(n, o) && WellFormed(n) && WellFormed(o)
    ensures Id(n) == Id(o)
  {
  }

  lemma {:induction false} AddsAt(D: seq<Record>, listing: seq<Record>, cache: Cache, d: Record)
    requires AllLive(D) && ValidCache(cache) && Enumerates(listing, cache) && d in D
    ensures d.(action := Add) in DeltaRecords(listing, D, Add) <==>
            !(Id(d) in cache && Matches(d, cache[Id(d)]))
  {
    if Id(d) in cache && Matches(d, cache[Id(d)]) {
      assert cache[Id(d)] in listing;
      if d.(action := Add) in DeltaRecords(listing, D, Add) {
        var n := DeltaSound(listing, D, Add, d.(action := Add));
      }
    } else {
      forall o | o in listing ensures !Matches(d, o) {
        if Matches(d, o) { MatchSameId(d, o); }
      }
      DeltaComplete(listing, D, Add, d);
    }
  }

  lemma {:induction false} AddsFrom(D: seq<Record>, listing: seq<Record>)
    requires AllLive(D)
    ensures forall r :: r in DeltaRecords(listing, D, Add) ==> Live(r) && r.action == Add
  {
    forall r | r in DeltaRecords(listing, D, Add) ensures Live(r) && r.action == Add {
      var n := DeltaSound(listing, D, Add, r);
    }
  }

  /** The removal of k, if any, is the removal of its cached record. */
  ghost predicate RemovedAt(D: seq<Record>, cache: Cache, k: string) {
    k in cache && Live(cache[k]) && Unmatched(cache[k], D)
  }

  lemma {:induction false} RemovesAt(D: seq<Record>, listing: seq<Record>, cache: Cache, k: string)
    requires AllLive(D) && ValidCache(cache) && Enumerates(listing, cache)
    ensures var removals := DeltaRecords(D, listing, Remove);
            && (forall r :: r in removals ==> Live(r) && r.action == Remove)
            && (forall r :: r in removals && Id(r) == k ==> RemovedAt(D, cache, k) && r == cache[k].(action := Remove))
            && (RemovedAt(D, cache, k) ==> cache[k].(action := Remove) in removals)
  {
    var removals := DeltaRecords(D, listing, Remove);
    forall r | r in removals
      ensures Live(r) && r.action == Remove
      ensures Id(r) == k ==> RemovedAt(D, cache, k) && r == cache[k].(action := Remove)
    {
      var n := DeltaSound(D, listing, Remove, r);
      assert Id(n) == Id(r);
    }
    if RemovedAt(D, cache, k) {
      assert cache[k] in listing;
      DeltaComplete(D, listing, Remove, cache[k]);
    }
  }

  lemma {:induction false} RemovedMeansChanged(D: seq<Record>, cache: Cache, d: Record)
    requires AllLive(D) && OneContent(D) && ValidCache(cache) && d in D
    ensures RemovedAt(D, cache, Id(d)) <==> Changed(cache, d)
  {
    if Changed(cache, d) {
      var c := cache[Id(d)];
      forall o | o in D ensures !Matches(c, o) {
        if Matches(c, o) {
          MatchSameId(c, o);
          EquivalentMatchAlike(o, d, c);
        }
      }
    }
  }

  // ----- one round

  ghost predicate AddedAt(D: seq<Record>, cache: Cache, d: Record) {
    d in D && !(Id(d) in cache && Matches(d, cache[Id(d)]))
  }

  ghost predicate Hits(recs: seq<Record>, k: string) { exists r :: r in recs && Id(r) == k }

  /** Adds then removals, at one identifier: removals win. */
  lemma {:induction false} CleanDeltaAt(
    a: Agent, adds: seq<Record>, removals: seq<Record>, outcomes: nat -> Outcome, k: string)
    requires a.healthy && AllDone(outcomes)
    requires forall r :: r in adds ==> Live(r) && r.action == Add
    requires forall r :: r in removals ==> Live(r) && r.action == Remove
    ensures var b := ApplyAll(a, adds + removals, outcomes);
            && b.healthy
            && (if Hits(removals, k) then k !in b.cache
                else if Hits(adds, k) then k in b.cache && b.cache[k] in adds && Id(b.cache[k]) == k
                else (k in b.cache <==> k in a.cache) && (k in a.cache ==> b.cache[k] == a.cache[k]))
  {
    ApplyAllSplit(a, adds, removals, outcomes);
    CleanAdds(a, adds, outcomes);
    AddAllHits(a.cache, adds, k);
    CleanRemoves(ApplyAll(a, adds, outcomes), removals, outcomes, k);
  }

  lemma {:induction false} RemovesHit(D: seq<Record>, listing: seq<Record>, cache: Cache, k: string)
    requires AllLive(D) && ValidCache(cache) && Enumerates(listing, cache)
    ensures Hits(DeltaRecords(D, listing, Remove), k) <==> RemovedAt(D, cache, k)
  {
    RemovesAt(D, listing, cache, k);
    if RemovedAt(D, cache, k) {
      assert Id(cache[k].(action := Remove)) == k;
    }
  }

  /** The identifier k is among the additions. */
  ghost predicate AddedUnder(D: seq<Record>, cache: Cache, k: string) { exists d :: AddedAt(D, cache, d) && Id(d) == k }

  lemma {:induction false} AddsHit(D: seq<Record>, listing: seq<Record>, cache: Cache, k: string)
    requires AllLive(D) && ValidCache(cache) && Enumerates(listing, cache)
    ensures Hits(DeltaRecords(listing, D, Add), k) <==> AddedUnder(D, cache, k)
    ensures forall r :: r in DeltaRecords(listing, D, Add) && Id(r) == k ==>
              exists d :: AddedAt(D, cache, d) && Id(d) == k && r == d.(action := Add)
  {
    if AddedUnder(D, cache, k) {
      var d :| AddedAt(D, cache, d) && Id(d) == k;
      AddsAt(D, listing, cache, d);
      assert Id(d.(action := Add)) == k;
    }
    forall r | r in DeltaRecords(listing, D, Add) && Id(r) == k
      ensures exists d :: AddedAt(D, cache, d) && Id(d) == k && r == d.(action := Add)
    {
      var d := DeltaSound(listing, D, Add, r);
      AddsAt(D, listing, cache, d);
      assert AddedAt(D, cache, d) && Id(d) == k;
    }
  }

  /** A clean round at one identifier: removals win over additions. */
  lemma {:induction false} RoundCacheAt(a: Agent, D: seq<Record>, a': Agent, k: string)
    requires a.healthy && ValidCache(a.cache) && AllLive(D) && CleanRound(a, D, a')
    ensures a'.healthy
    ensures if RemovedAt(D, a.cache, k) then k !in a'.cache
            else if AddedUnder(D, a.cache, k) then
              k in a'.cache && exists d :: AddedAt(D, a.cache, d) && Id(d) == k && a'.cache[k] == d.(action := Add)
            else (k in a'.cache <==> k in a.cache) && (k in a.cache ==> a'.cache[k] == a.cache[k])
  {
    var listing1, listing2, outcomes :|
      && Enumerates(listing1, a.cache) && Enumerates(listing2, a.cache) && AllDone(outcomes)
      && a' == ApplyAll(a, RoundDelta(listing1, listing2, D), outcomes);
    AddsFrom(D, listing1);
    RemovesAt(D, listing2, a.cache, k);
    CleanDeltaAt(a, DeltaRecords(listing1, D, Add), DeltaRecords(D, listing2, Remove), outcomes, k);
    RemovesHit(D, listing2, a.cache, k);
    AddsHit(D, listing1, a.cache, k);
  }

  /** A wanted identifier that is not removed holds a wanted record, or the cached one
      that every wanted record matches. */
  lemma {:induction false} WantedIsAddedOrKept(a: Agent, D: seq<Record>, a': Agent, d: Record)
    requires a.healthy && ValidCache(a.cache) && AllLive(D) && CleanRound(a, D, a') && d in D
    requires !RemovedAt(D, a.cache, Id(d))
    ensures Id(d) in a'.cache
    ensures || (exists e :: e in D && Id(e) == Id(d) && a'.cache[Id(d)] == e.(action := Add))
            || (Id(d) in a.cache && a'.cache[Id(d)] == a.cache[Id(d)] && Matches(d, a.cache[Id(d)]))
  {
    RoundCacheAt(a, D, a', Id(d));
    if !AddedUnder(D, a.cache, Id(d)) {
      assert !AddedAt(D, a.cache, d);
    }
  }

  /** A wanted identifier disappears if its content changed, and otherwise holds the
      wanted content. */
  lemma {:induction false} WantedAfterRound(a: Agent, D: seq<Record>, a': Agent, d: Record)
    requires a.healthy && ValidCache(a.cache) && GoodSet(D) && CleanRound(a, D, a') && d in D
    ensures if Changed(a.cache, d) then Id(d) !in a'.cache
            else Id(d) in a'.cache && WellFormed(a'.cache[Id(d)]) && Equivalent(a'.cache[Id(d)], d)
  {
    RemovedMeansChanged(D, a.cache, d);
    if Changed(a.cache, d) {
      RoundCacheAt(a, D, a', Id(d));
    } else {
      WantedIsAddedOrKept(a, D, a', d);
      KeptIsEquivalent(a.cache, D, d, a'.cache[Id(d)]);
    }
  }

  /** An unwanted identifier keeps no registration. */
  lemma {:induction false} UnwantedAfterRound(a: Agent, D: seq<Record>, a': Agent, k: string)
    requires a.healthy && ValidCache(a.cache) && AllLive(D) && CleanRound(a, D, a') && !Wanted(k, D)
    ensures a'.healthy
    ensures k in a'.cache ==> k in a.cache && a'.cache[k] == a.cache[k] && !Live(a.cache[k])
  {
    RoundCacheAt(a, D, a', k);
    if k in a.cache && Live(a.cache[k]) { UnwantedIsRemoved(D, a.cache, k); }
    assert !AddedUnder(D, a.cache, k);
  }

  lemma {:induction false} UnwantedIsRemoved(D: seq<Record>, cache: Cache, k: string)
    requires AllLive(D) && ValidCache(cache) && !Wanted(k, D) && k in cache && Live(cache[k])
    ensures RemovedAt(D, cache, k)
  {
    forall o | o in D ensures !Matches(cache[k], o) {
      if Matches(cache[k], o) { MatchSameId(cache[k], o); }
    }
  }

  /** An identifier that is wanted and not changed ends up with equivalent content,
      whether it was added or kept. */
  lemma {:induction false} KeptIsEquivalent(cache: Cache, D: seq<Record>, d: Record, c: Record)
    requires GoodSet(D) && d in D && ValidCache(cache) && !Changed(cache, d)
    requires || (exists e :: e in D && Id(e) == Id(d) && c == e.(action := Add))
             || (Id(d) in cache && c == cache[Id(d)] && Matches(d, c))
    ensures WellFormed(c) && Equivalent(c, d)
  {
    if e :| e in D && Id(e) == Id(d) && c == e.(action := Add) {
      assert Equivalent(e, d);
    } else if c.service.Some? {
      TwoWayMeaning(c.service.value, d.service.value);
    }
  }

  lemma {:induction false} EquivalentMatches(c: Record, d: Record)
    requires Equivalent(c, d)
    ensures Matches(c, d) && Matches(d, c)
  {
    if c.service.Some? && d.service.Some? && EqualUpToTagOrder(c.service.value, d.service.value) {
      TagOrderGivesSame(c.service.value, d.service.value);
    }
  }

  /** One round makes the cache equal the record set exactly when no identifier of
      the set was cached with other content. */
  lemma {:induction false} OneRoundExactly(a: Agent, D: seq<Record>, a': Agent)
    requires a.healthy && ValidCache(a.cache) && GoodSet(D) && CleanRound(a, D, a')
    ensures Converged(a'.cache, D) <==> forall d :: d in D ==> !Changed(a.cache, d)
  {
    if forall d :: d in D ==> !Changed(a.cache, d) {
      UnchangedConverges(a, D, a');
    }
    forall d | d in D && Changed(a.cache, d) ensures Id(d) !in a'.cache {
      WantedAfterRound(a, D, a', d);
    }
  }

  lemma {:induction false} UnchangedConverges(a: Agent, D: seq<Record>, a': Agent)
    requires a.healthy && ValidCache(a.cache) && GoodSet(D) && CleanRound(a, D, a')
    requires forall d :: d in D ==> !Changed(a.cache, d)
    ensures Converged(a'.cache, D)
  {
    forall d | d in D ensures Id(d) in a'.cache && Equivalent(a'.cache[Id(d)], d) {
      WantedAfterRound(a, D, a', d);
    }
    OnlyWantedAfterRound(a, D, a');
  }

  lemma {:induction false} OnlyWantedAfterRound(a: Agent, D: seq<Record>, a': Agent)
    requires a.healthy && ValidCache(a.cache) && AllLive(D) && CleanRound(a, D, a')
    ensures forall k :: k in a'.cache && Live(a'.cache[k]) ==> Wanted(k, D)
  {
    forall k | k in a'.cache && Live(a'.cache[k]) ensures Wanted(k, D) {
      if !Wanted(k, D) { UnwantedAfterRound(a, D, a', k); }
    }
  }

  lemma {:induction false} RoundKeepsValid(a: Agent, D: seq<Record>, a': Agent)
    requires a.healthy && ValidCache(a.cache) && AllLive(D) && CleanRound(a, D, a')
    ensures a'.healthy && ValidCache(a'.cache)
  {
    RoundCacheAt(a, D, a', "");
    forall k | k in a'.cache ensures WellFormed(a'.cache[k]) && Id(a'.cache[k]) == k {
      RoundCacheAt(a, D, a', k);
    }
  }

  /** Two rounds always suffice, from any cache. */
  lemma {:induction false} TwoRoundsConverge(a: Agent, D: seq<Record>, a1: Agent, a2: Agent)
    requires a.healthy && ValidCache(a.cache) && GoodSet(D)
    requires CleanRound(a, D, a1) && CleanRound(a1, D, a2)
    ensures a2.healthy && ValidCache(a2.cache) && Converged(a2.cache, D)
  {
    RoundKeepsValid(a, D, a1);
    RoundKeepsValid(a1, D, a2);
    forall d | d in D ensures !Changed(a1.cache, d) {
      WantedAfterRound(a, D, a1, d);
      if Id(d) in a1.cache {
        EquivalentMatches(a1.cache[Id(d)], d);
      }
    }
    OneRoundExactly(a1, D, a2);
  }

  // ----- which record sets can be converged to

  ghost predicate TwoCleanRounds(a: Agent, D: seq<Record>, a': Agent) {
    exists a1 :: CleanRound(a, D, a1) && CleanRound(a1, D, a')
  }

  /** From every cache two clean rounds make the cache equal the set. */
  ghost predicate AlwaysConverges(D: seq<Record>) {
    forall a: Agent, a': Agent {:trigger TwoCleanRounds(a, D, a')} ::
      a.healthy && ValidCache(a.cache) && TwoCleanRounds(a, D, a') ==> Converged(a'.cache, D)
  }

  /** A cache can equal a record set only if records that share an identifier have equal
      content. */
  lemma {:induction false} ConvergedNeedsOneContent(cache: Cache, D: seq<Record>)
    requires AllLive(D) && ValidCache(cache) && Converged(cache, D)
    ensures OneContent(D)
  {
    forall d, e | d in D && e in D && Id(d) == Id(e) ensures Equivalent(d, e) {
      var c := cache[Id(d)];
      assert Equivalent(c, d) && Equivalent(c, e);
    }
  }

  /** Two rounds converge from every cache exactly when records with one identifier have
      equal content and the tags of every service are duplicate-free or all equal. */
  lemma {:induction false} AlwaysConvergesExactlyWhen(D: seq<Record>)
    requires AllLive(D)
    ensures AlwaysConverges(D) <==> OneContent(D) && TagsDistinguishable(D)
  {
    if GoodSet(D) {
      forall a: Agent, a': Agent | a.healthy && ValidCache(a.cache) && TwoCleanRounds(a, D, a')
        ensures Converged(a'.cache, D)
      {
        GoodConverges(a, D, a');
      }
    }
    if AlwaysConverges(D) {
      NeedsOneContent(D);
      forall d | d in D && d.service.Some? ensures Distinguishable(d.service.value.tags) {
        if !Distinguishable(d.service.value.tags) {
          var b, b' := HiddenChangeStays(D, d);
        }
      }
    }
  }

  lemma {:induction false} GoodConverges(a: Agent, D: seq<Record>, a': Agent)
    requires a.healthy && ValidCache(a.cache) && GoodSet(D) && TwoCleanRounds(a, D, a')
    ensures Converged(a'.cache, D)
  {
    var a1 :| CleanRound(a, D, a1) && CleanRound(a1, D, a');
    TwoRoundsConverge(a, D, a1, a');
  }

  lemma {:induction false} NeedsOneContent(D: seq<Record>)
    requires AllLive(D) && AlwaysConverges(D)
    ensures OneContent(D)
  {
    var a := Agent(true, map[], Store(map[], map[]));
    var cache := ConvergedCache(D, a);
    ConvergedNeedsOneContent(cache, D);
  }

  lemma {:induction false} ConvergedCache(D: seq<Record>, a: Agent) returns (cache: Cache)
    requires AllLive(D) && AlwaysConverges(D) && a.healthy && ValidCache(a.cache)
    ensures ValidCache(cache) && Converged(cache, D)
  {
    var a' := TwoRoundsFrom(a, D);
    cache := a'.cache;
  }

  /** Two clean rounds are possible on any typed records, and keep the cache valid. */
  lemma {:induction false} TwoRoundsFrom(a: Agent, D: seq<Record>) returns (a': Agent)
    requires AllLive(D) && a.healthy && ValidCache(a.cache)
    ensures TwoCleanRounds(a, D, a') && ValidCache(a'.cache)
  {
    var a1 := CleanRoundExists(a, D);
    RoundKeepsValid(a, D, a1);
    a' := CleanRoundExists(a1, D);
    RoundKeepsValid(a1, D, a');
  }

  /** A service with other tags that look the same in both directions is never corrected. */
  lemma {:induction false} HiddenChangeStays(D: seq<Record>, d: Record) returns (a: Agent, a': Agent)
    requires AllLive(D) && OneContent(D) && d in D && d.service.Some? && !Distinguishable(d.service.value.tags)
    ensures a.healthy && ValidCache(a.cache) && TwoCleanRounds(a, D, a') && !Converged(a'.cache, D)
  {
    var n := TwoWayImpostor(d.service.value);
    var c := d.(service := Some(n));
    a := Agent(true, map[Id(d) := c], Store(map[], map[]));
    a' := TwoRoundsFrom(a, D);
    HiddenTwice(D, d, a, a', c);
  }

  lemma {:induction false} HiddenTwice(D: seq<Record>, d: Record, a: Agent, a': Agent, c: Record)
    requires AllLive(D) && OneContent(D) && d in D && a.healthy && ValidCache(a.cache) && TwoCleanRounds(a, D, a')
    requires Id(d) in a.cache && a.cache[Id(d)] == c && Matches(c, d) && Matches(d, c)
    ensures Id(d) in a'.cache && a'.cache[Id(d)] == c
  {
    var a1 :| CleanRound(a, D, a1) && CleanRound(a1, D, a');
    HiddenStays(D, d, a, a1, c);
    HiddenStays(D, d, a1, a', c);
  }

  lemma {:induction false} HiddenStays(D: seq<Record>, d: Record, a: Agent, a': Agent, c: Record)
    requires AllLive(D) && OneContent(D) && d in D && a.healthy && ValidCache(a.cache) && CleanRound(a, D, a')
    requires Id(d) in a.cache && a.cache[Id(d)] == c && Matches(c, d) && Matches(d, c)
    ensures a'.healthy && ValidCache(a'.cache) && Id(d) in a'.cache && a'.cache[Id(d)] == c
  {
    RoundKeepsValid(a, D, a');
    RoundCacheAt(a, D, a', Id(d));
    forall e | e in D && Id(e) == Id(d) ensures !AddedAt(D, a.cache, e) {
      EquivalentMatchAlike(e, d, c);
    }
  }

  // ----- when the cached registration is the wanted one to the letter

  /** The same registration, tag order and notes included. */
  predicate SameRegistration(c: Record, d: Record) { c.service == d.service && c.check == d.check }

  ghost predicate OneRegistration(D: seq<Record>) {
    forall d, e :: d in D && e in D && Id(d) == Id(e) ==> SameRegistration(d, e)
  }

  /** The identifier of d is cached with a registration that looks the same in both
      directions and is not. */
  ghost predicate Stale(cache: Cache, d: Record) {
    && Id(d) in cache && Matches(d, cache[Id(d)]) && Matches(cache[Id(d)], d)
    && !SameRegistration(cache[Id(d)], d)
  }

  /** The cached registration that matches a wanted one in both directions. */
  ghost predicate Kept(cache: Cache, d: Record) {
    Id(d) in cache && Matches(d, cache[Id(d)]) && Matches(cache[Id(d)], d)
  }

  lemma {:induction false} SameRegistrationMatchAlike(d: Record, e: Record, c: Record)
    requires SameRegistration(d, e)
    ensures (Matches(c, d) <==> Matches(c, e)) && (Matches(d, c) <==> Matches(e, c))
  {
  }

  lemma SelfMatches(d: Record, c: Record)
    requires Live(d) && SameRegistration(c, d)
    ensures Matches(c, d) && Matches(d, c)
  {
  }

  lemma {:induction false} KeptMeans(D: seq<Record>, cache: Cache, d: Record)
    requires ValidCache(cache) && AllLive(D) && OneRegistration(D) && d in D
    ensures if Kept(cache, d) then !RemovedAt(D, cache, Id(d)) && !AddedUnder(D, cache, Id(d))
            else RemovedAt(D, cache, Id(d)) || AddedAt(D, cache, d)
  {
    if Id(d) in cache {
      var c := cache[Id(d)];
      forall e | e in D && Id(e) == Id(d)
        ensures (Matches(c, e) <==> Matches(c, d)) && (Matches(e, c) <==> Matches(d, c))
      {
        SameRegistrationMatchAlike(e, d, c);
      }
      forall e | e in D && Matches(c, e) ensures Id(e) == Id(d) {
        MatchSameId(c, e);
      }
    }
  }

  /** One round at a wanted identifier: what matches is kept as it is, and what does not is
      removed, or replaced by the wanted registration. */
  lemma {:induction false} RegistrationAfterRound(a: Agent, D: seq<Record>, a': Agent, d: Record)
    requires a.healthy && ValidCache(a.cache) && AllLive(D) && OneRegistration(D) && CleanRound(a, D, a') && d in D
    ensures Kept(a.cache, d) ==> Id(d) in a'.cache && a'.cache[Id(d)] == a.cache[Id(d)]
    ensures !Kept(a.cache, d) && Id(d) in a'.cache ==> SameRegistration(a'.cache[Id(d)], d)
    ensures Id(d) !in a.cache ==> Id(d) in a'.cache
  {
    KeptMeans(D, a.cache, d);
    RoundCacheAt(a, D, a', Id(d));
    if AddedUnder(D, a.cache, Id(d)) && !RemovedAt(D, a.cache, Id(d)) {
      var e :| AddedAt(D, a.cache, e) && Id(e) == Id(d) && a'.cache[Id(d)] == e.(action := Add);
      assert SameRegistration(e, d);
    }
  }

  /** After two rounds the cache holds a wanted registration to the letter exactly when it
      was not stale to begin with: a change of tag order or of notes goes unnoticed. */
  lemma {:induction false} LetterExactlyWhen(a: Agent, D: seq<Record>, a1: Agent, a2: Agent, d: Record)
    requires a.healthy && ValidCache(a.cache) && AllLive(D) && OneRegistration(D) && d in D
    requires CleanRound(a, D, a1) && CleanRound(a1, D, a2)
    ensures Id(d) in a2.cache && (SameRegistration(a2.cache[Id(d)], d) <==> !Stale(a.cache, d))
  {
    RoundKeepsValid(a, D, a1);
    RegistrationAfterRound(a, D, a1, d);
    RegistrationAfterRound(a1, D, a2, d);
    if !Kept(a.cache, d) && Id(d) in a1.cache { SelfMatches(d, a1.cache[Id(d)]); }
  }

  // ----- further rounds

  /** The loop itself: two rounds without failures on the same record set converge. */
  method ReconcileTwice(l: AgentLoop, D: seq<Record>, outcomes: nat -> Outcome)
    requires l.Valid() && l.healthy && GoodSet(D) && AllDone(outcomes)
    modifies l`healthy, l`count, l`store, l.recordCache
    ensures l.Valid() && l.healthy && l.count == old(l.count) + 2 && l.recordCache == old(l.recordCache)
    ensures Converged(l.recordCache.records, D)
  {
    ghost var a := l.Value();
    var _, _ := l.Process(D, outcomes);
    ghost var a1 := l.Value();
    var _, _ := l.Process(D, outcomes);
    TwoRoundsConverge(a, D, a1, l.Value());
  }

  /** A further round leaves the loop, its cache and Consul as they are, whatever its calls
      would have done. */
  method ReconcileAgain(l: AgentLoop, D: seq<Record>, outcomes: nat -> Outcome)
    requires l.Valid() && AllLive(D) && Converged(l.recordCache.records, D)
    modifies l`healthy, l`count, l`store, l.recordCache
    ensures l.Valid() && l.count == old(l.count) + 1 && l.Value() == old(l.Value())
  {
    ghost var a := l.Value();
    ghost var listing1, listing2 := l.Process(D, outcomes);
    ConvergedRoundIsIdle(a, D, listing1, listing2, outcomes);
  }

  /** On a converged cache the delta is empty, so a further round makes no call and
      changes nothing, whatever its calls would have done. */
  lemma {:induction false} ConvergedRoundIsIdle(
    a: Agent, D: seq<Record>, listing1: seq<Record>, listing2: seq<Record>, outcomes: nat -> Outcome)
    requires ValidCache(a.cache) && AllLive(D) && Converged(a.cache, D)
    requires Enumerates(listing1, a.cache) && Enumerates(listing2, a.cache)
    ensures RoundDelta(listing1, listing2, D) == []
    ensures ApplyAll(a, RoundDelta(listing1, listing2, D), outcomes) == a
  {
    NothingToAdd(a.cache, D, listing1);
    NothingToRemove(a.cache, D, listing2);
  }

  lemma {:induction false} NothingToAdd(cache: Cache, D: seq<Record>, listing: seq<Record>)
    requires ValidCache(cache) && AllLive(D) && Converged(cache, D) && Enumerates(listing, cache)
    ensures DeltaRecords(listing, D, Add) == []
  {
    var adds := DeltaRecords(listing, D, Add);
    if adds != [] {
      var d := DeltaSound(listing, D, Add, adds[0]);
      EquivalentMatches(cache[Id(d)], d);
      AddsAt(D, listing, cache, d);
    }
  }

  lemma {:induction false} NothingToRemove(cache: Cache, D: seq<Record>, listing: seq<Record>)
    requires ValidCache(cache) && AllLive(D) && Converged(cache, D) && Enumerates(listing, cache)
    ensures DeltaRecords(D, listing, Remove) == []
  {
    var removals := DeltaRecords(D, listing, Remove);
    if removals != [] {
      var c := DeltaSound(D, listing, Remove, removals[0]);
      assert Wanted(Id(c), D);
      var d :| d in D && Id(d) == Id(c);
      EquivalentMatches(c, d);
    }
  }

}
