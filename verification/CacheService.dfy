/** Caching of research results by query, over any run of stores and lookups at any times. */
module CacheService {
  import opened Records
  import opened CachePolicy
  import opened CacheStores

  /** Only complete results whose tool calls all succeeded are kept at all. */
  predicate Storable(r: ResearchResult) {
    !r.checkpointed && !OnlySpaces(r.answer) && (forall i :: 0 <= i < |r.calls| ==> r.calls[i])
  }

  function Min(a: int, b: int): int {
    if a <= b then a else b
  }

  /** A query about the present keeps its result for at most a minute. */
  function Adjusted(d: Decision, f: Fingerprint, now: Instant): Decision {
    if f.relative then
      d.(ttl := Min(d.ttl, 60), expires := Some(now + Min(d.ttl, 60) * SECOND), reason := RelativeTime)
    else d
  }

  datatype Op =
    | StoreOp(f: Fingerprint, now: Instant, result: ResearchResult, d: Decision, oversized: bool, storing: StoreFaults)
    | LookupOp(f: Fingerprint, now: Instant, looking: LookupFaults)

  function StoreMessage(config: Config, cache: Cache, op: Op): Cache
    requires op.StoreOp?
  {
    if !Storable(op.result) || !op.d.cacheable || op.oversized then cache
    else Store(config, cache, op.f, op.result, Adjusted(op.d, op.f, op.now), op.now, op.storing)
  }

  function Apply(config: Config, similarity: Similarity, cache: Cache, op: Op): (Cache, Served) {
    match op
    case StoreOp(_, _, _, _, _, _) => (StoreMessage(config, cache, op), MISS)
    case LookupOp(f, now, faults) => Lookup(config, cache, f, now, faults, similarity)
  }

  class ResearchResultCacheService {
    const coordinator: CacheCoordinator
    const maxPayloadBytes: nat

    constructor (coordinator: CacheCoordinator, maxPayloadBytes: nat)
      ensures this.coordinator == coordinator && this.maxPayloadBytes == maxPayloadBytes
    {
      this.coordinator, this.maxPayloadBytes := coordinator, maxPayloadBytes;
    }

    /** What the service does with a result, with the size of its encoding as an input. */
    method StoreAnswer(f: Fingerprint, result: ResearchResult, now: Instant, bytes: nat, faults: StoreFaults)
      returns (ghost d: Decision)
      modifies coordinator.exact, coordinator.semantic
      ensures IsDecision(result.artifacts, now, true, d)
      ensures coordinator.State() == StoreMessage(coordinator.config, old(coordinator.State()),
                                                  StoreOp(f, now, result, d, bytes > maxPayloadBytes, faults))
    {
      hide IsDecision, Store, OnlySpaces;
      var decision := EvaluateArtifactTtl(result.artifacts, now, true);
      d := decision;
      if result.checkpointed || OnlySpaces(result.answer) {
        return;
      }
      if exists i :: 0 <= i < |result.calls| && !result.calls[i] {
        return;
      }
      if !decision.cacheable {
        return;
      }
      if f.relative {
        var ttl := Min(decision.ttl, 60);
        decision := decision.(ttl := ttl, expires := Some(now + ttl * SECOND), reason := RelativeTime);
      }
      if bytes > maxPayloadBytes {
        return;
      }
      coordinator.StoreResult(f, result, decision, now, faults);
    }
  }

  // ----- runs -----

  predicate LegalOp(op: Op) {
    && (op.f.relative ==> !op.f.eligible)
    && (op.StoreOp? ==> IsDecision(op.result.artifacts, op.now, true, op.d))
  }

  predicate Legal(ops: seq<Op>) {
    forall i :: 0 <= i < |ops| ==> LegalOp(ops[i])
  }

  /** The cache after a run of operations, from empty. */
  function After(config: Config, similarity: Similarity, ops: seq<Op>): Cache {
    if ops == [] then Cache(map[], [])
    else Apply(config, similarity, After(config, similarity, ops[..|ops| - 1]), ops[|ops| - 1]).0
  }

  /** What operation i answers. */
  function Answered(config: Config, similarity: Similarity, ops: seq<Op>, i: nat): Served
    requires i < |ops|
  {
    Apply(config, similarity, After(config, similarity, ops[..i]), ops[i]).1
  }

  // ----- freshness -----

  /** The expiry comes before every artifact's retention, and some seconds, are over. */
  ghost predicate Fresh(payload: ResearchResult, expires: Instant, slack: int) {
    forall a :: a in payload.artifacts ==> Dated(a) && expires < Retrieved(a) + (BaseTtl(a) + slack) * SECOND
  }

  /** Promotion rounds up once, so an exact entry may last a second longer than a semantic one. */
  ghost predicate FreshCache(cache: Cache) {
    && (forall k :: k in cache.exact ==> Fresh(cache.exact[k].payload, cache.exact[k].expires, 2))
    && (forall i :: 0 <= i < |cache.semantic| ==> Fresh(cache.semantic[i].payload, cache.semantic[i].expires, 1))
  }

  lemma FreshWithSlack(payload: ResearchResult, early: Instant, late: Instant)
    requires Fresh(payload, early, 1) && late < early + SECOND
    ensures Fresh(payload, late, 2)
  {
    forall a | a in payload.artifacts ensures late < Retrieved(a) + (BaseTtl(a) + 2) * SECOND {
      assert early < Retrieved(a) + (BaseTtl(a) + 1) * SECOND;
    }
  }

  lemma FreshEarlier(payload: ResearchResult, early: Instant, late: Instant, slack: int)
    requires Fresh(payload, late, slack) && early <= late
    ensures Fresh(payload, early, slack)
  {
    forall a | a in payload.artifacts ensures early < Retrieved(a) + (BaseTtl(a) + slack) * SECOND {
      assert late < Retrieved(a) + (BaseTtl(a) + slack) * SECOND;
    }
  }

  /** Whole seconds are not rounded. */
  lemma CeilOfSeconds(n: int)
    ensures CeilSeconds(n * SECOND) == n
  {
    assert (CeilSeconds(n * SECOND) - 1) * SECOND < n * SECOND <= CeilSeconds(n * SECOND) * SECOND;
  }

  /** The decision a store acts on expires after its whole number of seconds, and in time. */
  lemma AdjustedIsFresh(op: Op)
    requires op.StoreOp? && LegalOp(op) && op.d.cacheable
    ensures var d := Adjusted(op.d, op.f, op.now);
            && d.cacheable && d.ttl > 0 && d.expires == Some(op.now + d.ttl * SECOND)
            && Fresh(op.result, d.expires.value, 1)
            && (op.f.relative ==> d.ttl <= 60)
  {
    DecisionIsFresh(op.result.artifacts, op.now, true, op.d);
    var d := Adjusted(op.d, op.f, op.now);
    assert Fresh(op.result, op.d.expires.value, 1);
    FreshEarlier(op.result, d.expires.value, op.d.expires.value, 1);
  }

  predicate Appended(cache: Cache, cache': Cache, payload: ResearchResult, expires: Instant) {
    && |cache'.semantic| == |cache.semantic| + 1 && cache'.semantic[..|cache.semantic|] == cache.semantic
    && cache'.semantic[|cache.semantic|].payload == payload && cache'.semantic[|cache.semantic|].expires == expires
  }

  /** A store writes its decision's expiry into either tier, or leaves the tier alone. */
  lemma StoreWrites(config: Config, cache: Cache, op: Op)
    requires op.StoreOp? && LegalOp(op)
    ensures var cache' := StoreMessage(config, cache, op);
            cache' == cache ||
            (op.d.cacheable && var d := Adjusted(op.d, op.f, op.now);
             && (|| cache'.exact == cache.exact
                 || cache'.exact == cache.exact[op.f.key := ExactEntry(op.result, d.expires.value)])
             && (|| cache'.semantic == cache.semantic
                 || (op.f.eligible && Appended(cache, cache', op.result, d.expires.value))))
  {
    if op.d.cacheable {
      AdjustedIsFresh(op);
      hide Adjusted, Fresh, IsDecision, Store;
      StoreActs(config, cache, op.f, op.result, Adjusted(op.d, op.f, op.now), op.now, op.storing);
    }
  }

  lemma StoreActs(config: Config, cache: Cache, f: Fingerprint, payload: ResearchResult, d: Decision, now: Instant,
                  faults: StoreFaults)
    requires d.cacheable && d.ttl > 0 && d.expires == Some(now + d.ttl * SECOND)
    ensures var cache' := Store(config, cache, f, payload, d, now, faults);
            && (|| cache'.exact == cache.exact
                || cache'.exact == cache.exact[f.key := ExactEntry(payload, d.expires.value)])
            && (cache'.semantic == cache.semantic || (f.eligible && Appended(cache, cache', payload, d.expires.value)))
  {
    CeilOfSeconds(d.ttl);
    hide CeilSeconds;
  }

  lemma StoreKeepsFresh(config: Config, cache: Cache, op: Op)
    requires op.StoreOp? && LegalOp(op) && FreshCache(cache)
    ensures FreshCache(StoreMessage(config, cache, op))
  {
    StoreWrites(config, cache, op);
    if op.d.cacheable {
      AdjustedIsFresh(op);
      var d := Adjusted(op.d, op.f, op.now);
      FreshWithSlack(op.result, d.expires.value, d.expires.value);
      hide StoreMessage, Fresh, Adjusted;
    }
  }

  lemma {:induction false} BestHitIsStored(entries: Semantic, q: Query, similarity: Similarity)
    ensures BestHit(entries, q, similarity).Some? ==>
      exists k ::
        0 <= k < |entries| && entries[k] == BestHit(entries, q, similarity).value && entries[k].expires > q.now
  {
    BestHitIsBest(entries, q, similarity);
  }

  /** A lookup serves only what is fresh now, and leaves only what is fresh. */
  lemma LookupKeepsFresh(config: Config, cache: Cache, f: Fingerprint, now: Instant, faults: LookupFaults,
                         similarity: Similarity)
    requires FreshCache(cache)
    ensures FreshCache(Lookup(config, cache, f, now, faults, similarity).0)
    ensures var served := Lookup(config, cache, f, now, faults, similarity).1;
            served.payload.Some? ==> Fresh(served.payload.value, now, 2)
  {
    var (cache', served) := Lookup(config, cache, f, now, faults, similarity);
    if served.tier.ExactTier? {
      FreshEarlier(served.payload.value, now, cache.exact[f.key].expires, 2);
    } else if served.tier.SemanticTier? {
      var q := Query(f.namespace, f.constraints, faults.embedding.vector, config.threshold, now);
      BestHitIsStored(cache.semantic, q, similarity);
      var hit := BestHit(cache.semantic, q, similarity).value;
      FreshWithSlack(hit.payload, hit.expires, hit.expires);
      FreshEarlier(hit.payload, now, hit.expires, 2);
      var late := now + CeilSeconds(hit.expires - now) * SECOND;
      FreshWithSlack(hit.payload, hit.expires, late);
    }
    hide Fresh;
  }

  lemma {:induction false} RunsKeepFresh(config: Config, similarity: Similarity, ops: seq<Op>)
    requires Legal(ops)
    ensures FreshCache(After(config, similarity, ops))
  {
    if ops != [] {
      var before, op := ops[..|ops| - 1], ops[|ops| - 1];
      RunsKeepFresh(config, similarity, before);
      if op.StoreOp? {
        StoreKeepsFresh(config, After(config, similarity, before), op);
      } else {
        LookupKeepsFresh(config, After(config, similarity, before), op.f, op.now, op.looking, similarity);
      }
      hide FreshCache;
    }
  }

  /**
   * Whatever the stores, lookups, clock readings and failures of a run: a result served at some time was built from
   * artifacts each retrieved less than its type's retention and two seconds before.
   */
  lemma ServedIsFresh(config: Config, similarity: Similarity, ops: seq<Op>, i: nat)
    requires Legal(ops) && i < |ops|
    ensures var served := Answered(config, similarity, ops, i);
            served.payload.Some? ==> forall a :: a in served.payload.value.artifacts ==>
              Dated(a) && ops[i].now < Retrieved(a) + (BaseTtl(a) + 2) * SECOND
  {
    RunsKeepFresh(config, similarity, ops[..i]);
    if ops[i].LookupOp? {
      var cache := After(config, similarity, ops[..i]);
      LookupKeepsFresh(config, cache, ops[i].f, ops[i].now, ops[i].looking, similarity);
      hide Lookup, After;
    }
  }
}
