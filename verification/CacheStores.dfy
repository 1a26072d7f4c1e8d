/** The exact and the semantic tier, and the coordinator that fills one from the other. */
module CacheStores {
  import opened Records
  import opened CachePolicy

  /** A completed research result as far as caching looks at it; body stands for the rest of the payload. */
  datatype ResearchResult = ResearchResult(body: Value, artifacts: seq<Artifact>, checkpointed: bool, answer: string,
                                           calls: seq<bool>)

  /** What a query's text gives: its key, its constraints, and whether its wording is tied to the present. */
  datatype Fingerprint = Fingerprint(key: string, namespace: string, constraints: Value, semanticText: string,
                                     eligible: bool, relative: bool)

  type Vector = seq<real>

  datatype ExactEntry = ExactEntry(payload: ResearchResult, expires: Instant)

  datatype SemanticEntry = SemanticEntry(namespace: string, constraints: Value, embedding: Vector,
                                         payload: ResearchResult, expires: Instant, source: Option<Instant>)

  type Exact = map<string, ExactEntry>
  type Semantic = seq<SemanticEntry>

  // ----- the exact tier -----

  function ReadEntry(exact: Exact, key: string, now: Instant): (Exact, Option<ResearchResult>) {
    if key !in exact then (exact, None)
    else if exact[key].expires <= now then (exact - {key}, None)
    else (exact, Some(exact[key].payload))
  }

  function WriteEntry(exact: Exact, key: string, payload: ResearchResult, ttl: int, now: Instant): Exact {
    if ttl <= 0 then exact else exact[key := ExactEntry(payload, now + ttl * SECOND)]
  }

  class InMemoryExactCache {
    var entries: Exact

    constructor ()
      ensures entries == map[]
    {
      entries := map[];
    }

    method Fetch(key: string, now: Instant) returns (payload: Option<ResearchResult>)
      modifies this
      ensures (entries, payload) == ReadEntry(old(entries), key, now)
    {
      if key !in entries {
        return None;
      }
      if entries[key].expires <= now {
        entries := entries - {key};
        return None;
      }
      return Some(entries[key].payload);
    }

    method Write(key: string, payload: ResearchResult, ttl: int, now: Instant)
      modifies this
      ensures entries == WriteEntry(old(entries), key, payload, ttl, now)
    {
      if ttl <= 0 {
        return;
      }
      entries := entries[key := ExactEntry(payload, now + ttl * SECOND)];
    }
  }

  // ----- the semantic tier -----

  datatype Query = Query(namespace: string, constraints: Value, embedding: Vector, threshold: real, now: Instant)

  type Similarity = (Vector, Vector) -> real

  /** An entry that may answer a query at all, and is close enough. */
  predicate Matches(e: SemanticEntry, q: Query, similarity: Similarity) {
    && e.namespace == q.namespace && e.constraints == q.constraints && e.expires > q.now
    && similarity(q.embedding, e.embedding) >= q.threshold
  }

  /** The first of the closest matching entries. */
  predicate IsBest(entries: Semantic, q: Query, similarity: Similarity, k: nat) {
    && k < |entries| && Matches(entries[k], q, similarity)
    && (forall i :: 0 <= i < |entries| && Matches(entries[i], q, similarity) ==>
          if i < k then similarity(q.embedding, entries[i].embedding) < similarity(q.embedding, entries[k].embedding)
          else similarity(q.embedding, entries[i].embedding) <= similarity(q.embedding, entries[k].embedding))
  }

  function BestHit(entries: Semantic, q: Query, similarity: Similarity): Option<SemanticEntry> {
    if entries == [] then None
    else
      var best, e := BestHit(entries[..|entries| - 1], q, similarity), entries[|entries| - 1];
      if Matches(e, q, similarity) &&
         (best.None? || similarity(q.embedding, e.embedding) > similarity(q.embedding, best.value.embedding))
      then Some(e) else best
  }

  /** The scan finds the first of the closest matching entries, or that nothing matches. */
  lemma {:induction false} BestHitIsBest(entries: Semantic, q: Query, similarity: Similarity)
    ensures match BestHit(entries, q, similarity)
            case None => forall i :: 0 <= i < |entries| ==> !Matches(entries[i], q, similarity)
            case Some(e) => exists k: nat :: IsBest(entries, q, similarity, k) && entries[k] == e
  {
    if entries != [] {
      var front, n := entries[..|entries| - 1], |entries| - 1;
      BestHitIsBest(front, q, similarity);
      assert forall i :: 0 <= i < n ==> front[i] == entries[i];
      if BestHit(front, q, similarity).Some? {
        var k: nat :| IsBest(front, q, similarity, k) && front[k] == BestHit(front, q, similarity).value;
        if Matches(entries[n], q, similarity) &&
           similarity(q.embedding, entries[n].embedding) > similarity(q.embedding, entries[k].embedding) {
          assert IsBest(entries, q, similarity, n);
        } else {
          assert IsBest(entries, q, similarity, k);
        }
      } else if Matches(entries[n], q, similarity) {
        assert IsBest(entries, q, similarity, n);
      }
    }
  }

  class InMemorySemanticCache {
    var entries: Semantic

    constructor ()
      ensures entries == []
    {
      entries := [];
    }

    method Lookup(q: Query, similarity: Similarity) returns (hit: Option<SemanticEntry>)
      ensures hit == BestHit(entries, q, similarity)
    {
      var best: Option<(real, SemanticEntry)> := None;
      var i := 0;
      while i < |entries|
        invariant 0 <= i <= |entries|
        invariant BestHit(entries[..i], q, similarity) == if best.None? then None else Some(best.value.1)
        invariant best.Some? ==> best.value.0 == similarity(q.embedding, best.value.1.embedding)
      {
        var e := entries[i];
        assert entries[..i + 1][..i] == entries[..i];
        if e.namespace == q.namespace && e.constraints == q.constraints && e.expires > q.now {
          var s := similarity(q.embedding, e.embedding);
          if s >= q.threshold {
            if best.None? || s > best.value.0 {
              best := Some((s, e));
            }
          }
        }
        i := i + 1;
      }
      assert entries[..|entries|] == entries;
      return if best.None? then None else Some(best.value.1);
    }

    method Put(entry: SemanticEntry) returns (stored: bool)
      modifies this
      ensures stored == (entry.embedding != [])
      ensures entries == if stored then old(entries) + [entry] else old(entries)
    {
      if entry.embedding == [] {
        return false;
      }
      entries := entries + [entry];
      return true;
    }
  }

  // ----- the coordinator -----

  /** A backend call works, or fails with or without having had its effect. */
  datatype Effect = Worked | Failed(applied: bool)

  predicate Applied(e: Effect) {
    e.Worked? || e.applied
  }

  /** An embedder call gives a vector, or fails. */
  datatype Embedding = Embedded(vector: Vector) | NotEmbedded

  predicate Usable(e: Embedding) {
    e.Embedded? && e.vector != []
  }

  /** How the backends answer during one lookup; read and search either work or raise. */
  datatype LookupFaults = LookupFaults(read: bool, embedding: Embedding, search: bool, write: Effect)

  datatype StoreFaults = StoreFaults(write: Effect, embedding: Embedding, put: Effect)

  datatype Config = Config(hasExact: bool, hasSemantic: bool, threshold: real)

  datatype Cache = Cache(exact: Exact, semantic: Semantic)

  datatype Tier = ExactTier | SemanticTier | Miss

  datatype Served = Served(tier: Tier, payload: Option<ResearchResult>)

  const MISS := Served(Miss, None)

  /** Division of a duration into whole seconds, rounded up. */
  function CeilSeconds(duration: int): (s: int)
    ensures (s - 1) * SECOND < duration <= s * SECOND
  {
    -((-duration) / SECOND)
  }

  /** What the semantic tier is asked, and what it finds: nothing if the query may not ask or a backend fails. */
  function Find(config: Config, cache: Cache, f: Fingerprint, now: Instant, faults: LookupFaults,
                similarity: Similarity): Option<SemanticEntry>
  {
    if !f.eligible || !config.hasSemantic || !Usable(faults.embedding) || !faults.search then None
    else BestHit(cache.semantic,
                 Query(f.namespace, f.constraints, faults.embedding.vector, config.threshold, now), similarity)
  }

  /** A hit of the semantic tier is copied into the exact one for the rest of its life, rounded up to seconds. */
  function Promote(config: Config, cache: Cache, f: Fingerprint, hit: SemanticEntry, now: Instant,
                   write: Effect): Cache
  {
    var remaining := CeilSeconds(hit.expires - now);
    if config.hasExact && remaining > 0 && Applied(write)
    then cache.(exact := WriteEntry(cache.exact, f.key, hit.payload, remaining, now)) else cache
  }

  function Lookup(config: Config, cache: Cache, f: Fingerprint, now: Instant, faults: LookupFaults,
                  similarity: Similarity): (Cache, Served)
  {
    var (exact, payload) :=
      if config.hasExact && faults.read then ReadEntry(cache.exact, f.key, now) else (cache.exact, None);
    var cache' := cache.(exact := exact);
    if payload.Some? then (cache', Served(ExactTier, payload))
    else
      match Find(config, cache', f, now, faults, similarity)
      case None => (cache', MISS)
      case Some(hit) => (Promote(config, cache', f, hit, now, faults.write), Served(SemanticTier, Some(hit.payload)))
  }

  function Store(config: Config, cache: Cache, f: Fingerprint, payload: ResearchResult, d: Decision, now: Instant,
                 faults: StoreFaults): Cache
  {
    if !d.cacheable || d.expires.None? then cache
    else
      var remaining := CeilSeconds(d.expires.value - now);
      if remaining <= 0 then cache
      else
        Cache(
          if config.hasExact && Applied(faults.write) then WriteEntry(cache.exact, f.key, payload, remaining, now)
          else cache.exact,
          if f.eligible && config.hasSemantic && Usable(faults.embedding) && Applied(faults.put)
          then cache.semantic +
            [SemanticEntry(f.namespace, f.constraints, faults.embedding.vector, payload, d.expires.value, d.source)]
          else cache.semantic)
  }

  class CacheCoordinator {
    const config: Config
    const exact: InMemoryExactCache
    const semantic: InMemorySemanticCache

    ghost function State(): Cache
      reads exact, semantic
    {
      Cache(exact.entries, semantic.entries)
    }

    constructor (config: Config, exact: InMemoryExactCache, semantic: InMemorySemanticCache)
      ensures this.config == config && this.exact == exact && this.semantic == semantic
    {
      this.config, this.exact, this.semantic := config, exact, semantic;
    }

    method LookupResult(f: Fingerprint, now: Instant, faults: LookupFaults, similarity: Similarity)
      returns (served: Served)
      modifies exact
      ensures (State(), served) == Lookup(config, old(State()), f, now, faults, similarity)
    {
      if config.hasExact && faults.read {
        var payload := exact.Fetch(f.key, now);
        if payload.Some? {
          return Served(ExactTier, payload);
        }
      }
      if !f.eligible || !config.hasSemantic || !Usable(faults.embedding) || !faults.search {
        return MISS;
      }
      var hit := semantic.Lookup(
        Query(f.namespace, f.constraints, faults.embedding.vector, config.threshold, now), similarity);
      if hit.None? {
        return MISS;
      }
      if config.hasExact {
        var remaining := CeilSeconds(hit.value.expires - now);
        if remaining > 0 && Applied(faults.write) {
          exact.Write(f.key, hit.value.payload, remaining, now);
        }
      }
      return Served(SemanticTier, Some(hit.value.payload));
    }

    method StoreResult(f: Fingerprint, payload: ResearchResult, d: Decision, now: Instant, faults: StoreFaults)
      modifies exact, semantic
      ensures State() == Store(config, old(State()), f, payload, d, now, faults)
    {
      if !d.cacheable || d.expires.None? {
        return;
      }
      var remaining := CeilSeconds(d.expires.value - now);
      if remaining <= 0 {
        return;
      }
      if config.hasExact && Applied(faults.write) {
        exact.Write(f.key, payload, remaining, now);
      }
      if f.eligible && config.hasSemantic && Usable(faults.embedding) && Applied(faults.put) {
        var stored := semantic.Put(SemanticEntry(f.namespace, f.constraints, faults.embedding.vector, payload,
                                                 d.expires.value, d.source));
      }
    }
  }
}
