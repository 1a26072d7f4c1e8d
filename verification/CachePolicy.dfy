/** How long a completed research result may be kept, from the age of the data it was built on. */
module CachePolicy {
  import opened Records

  const SECOND: int := 1_000_000
  const MINUTE: int := 60
  const HOUR: int := 60 * MINUTE

  /** Whole seconds a result may live past the retrieval of an artifact of each type. */
  const ARTIFACT_TTL: map<string, int> := map[
    "company_news" := 5 * MINUTE,
    "company_overview" := 15 * MINUTE,
    "fundamental_ratios" := 15 * MINUTE,
    "company_comparison" := 15 * MINUTE,
    "sec_filings" := 30 * MINUTE,
    "insider_activity" := 30 * MINUTE,
    "price_history" := HOUR,
    "return_statistics" := HOUR,
    "volatility" := HOUR,
    "drawdown" := HOUR,
    "correlation" := HOUR,
    "technical_indicators" := HOUR,
    "moving_average_backtest" := HOUR,
    "analyst_estimates" := 6 * HOUR,
    "financial_statements" := 24 * HOUR,
    "ownership" := 24 * HOUR
  ]

  const TYPE_ALIASES: map<string, string> := map[
    "volatility_analysis" := "volatility",
    "drawdown_analysis" := "drawdown",
    "correlation_analysis" := "correlation"
  ]

  const SOURCE_FREE_TTL: int := 24 * HOUR

  /** A timestamp field of an artifact's data: missing, there but not a timestamp, or an instant. */
  datatype Stamp = Absent | Unreadable | At(instant: Instant)

  datatype Source = Source(sourceRetrieved: Stamp, retrieved: Stamp)

  /** An artifact as the policy reads it; data is None unless it is a mapping. */
  datatype Artifact = Artifact(status: Value, kind: Value, data: Option<Source>)

  datatype Reason =
    | Incomplete | NonSuccess | UnrecognizedType | MissingData | MissingTimestamp | FutureTimestamp | Expired
    | SourceFree | DataSpecific | RelativeTime

  datatype Decision = Decision(cacheable: bool, ttl: int, expires: Option<Instant>, source: Option<Instant>,
                               kinds: seq<string>, reason: Reason)

  function Rejected(reason: Reason): Decision {
    Decision(false, 0, None, None, [], reason)
  }

  /** The types the table knows, directly, by their common prefix, or by another name. */
  function CanonicalType(kind: Value): (r: Option<string>)
    ensures r.Some? ==> r.value in ARTIFACT_TTL
  {
    if !kind.Text? then None
    else if kind.s in ARTIFACT_TTL then Some(kind.s)
    else if "financial_statements_" <= kind.s then Some("financial_statements")
    else if kind.s in TYPE_ALIASES then Some(TYPE_ALIASES[kind.s])
    else None
  }

  /** The first of the two fields that is there decides, readable or not. */
  function RetrievedAt(source: Source): Option<Instant> {
    var stamp := if source.sourceRetrieved.Absent? then source.retrieved else source.sourceRetrieved;
    if stamp.At? then Some(stamp.instant) else None
  }

  /** Whole seconds between two instants, cut off towards zero and never negative. */
  function AgeSeconds(now: Instant, retrieved: Instant): (age: int)
    ensures age >= 0 && (now - age * SECOND - SECOND < retrieved)
    ensures retrieved <= now ==> retrieved <= now - age * SECOND
  {
    if now <= retrieved then 0 else (now - retrieved) / SECOND
  }

  /** Why an artifact keeps its result out of the cache, if it does. */
  function Refusal(a: Artifact, now: Instant): Option<Reason> {
    if a.status != Text("ok") then Some(NonSuccess)
    else if CanonicalType(a.kind).None? then Some(UnrecognizedType)
    else if a.data.None? then Some(MissingData)
    else if RetrievedAt(a.data.value).None? then Some(MissingTimestamp)
    else if RetrievedAt(a.data.value).value > now + 5 * MINUTE * SECOND then Some(FutureTimestamp)
    else if Remaining(a, now) <= 0 then Some(Expired)
    else None
  }

  predicate Dated(a: Artifact) {
    CanonicalType(a.kind).Some? && a.data.Some? && RetrievedAt(a.data.value).Some?
  }

  function Retrieved(a: Artifact): Instant
    requires Dated(a)
  {
    RetrievedAt(a.data.value).value
  }

  function BaseTtl(a: Artifact): int
    requires Dated(a)
  {
    ARTIFACT_TTL[CanonicalType(a.kind).value]
  }

  function Remaining(a: Artifact, now: Instant): int
    requires Dated(a)
  {
    BaseTtl(a) - AgeSeconds(now, Retrieved(a))
  }

  /** The artifacts before n are all acceptable. */
  predicate Acceptable(artifacts: seq<Artifact>, n: nat, now: Instant)
    requires n <= |artifacts|
  {
    forall i :: 0 <= i < n ==> Refusal(artifacts[i], now).None?
  }

  /** The shortest remaining time and the earliest retrieval of the first n artifacts, all acceptable. */
  predicate ShortestOf(artifacts: seq<Artifact>, n: nat, now: Instant, ttl: int, source: Instant, kinds: seq<string>)
    requires n <= |artifacts| && Acceptable(artifacts, n, now)
  {
    && (exists i :: 0 <= i < n && ttl == Remaining(artifacts[i], now))
    && (forall i :: 0 <= i < n ==> ttl <= Remaining(artifacts[i], now))
    && (exists i :: 0 <= i < n && source == Retrieved(artifacts[i]))
    && (forall i :: 0 <= i < n ==> source <= Retrieved(artifacts[i]))
    && |kinds| == n && (forall i :: 0 <= i < n ==> artifacts[i].kind == Text(kinds[i]))
  }

  /** The decision about a complete result whose artifacts are all acceptable: the shortest remaining time. */
  predicate KeepsShortest(artifacts: seq<Artifact>, now: Instant, d: Decision)
    requires Acceptable(artifacts, |artifacts|, now)
  {
    && d.cacheable && d.expires == Some(now + d.ttl * SECOND) && d.reason == DataSpecific && d.source.Some?
    && ShortestOf(artifacts, |artifacts|, now, d.ttl, d.source.value, d.kinds)
  }

  /** The first artifact that is refused gives the reason. */
  predicate RefusedAt(artifacts: seq<Artifact>, now: Instant, i: nat, d: Decision)
    requires i < |artifacts|
  {
    && Acceptable(artifacts, i, now)
    && Refusal(artifacts[i], now).Some? && d == Rejected(Refusal(artifacts[i], now).value)
  }

  predicate IsDecision(artifacts: seq<Artifact>, now: Instant, complete: bool, d: Decision) {
    if !complete then d == Rejected(Incomplete)
    else if artifacts == [] then
      d == Decision(true, SOURCE_FREE_TTL, Some(now + SOURCE_FREE_TTL * SECOND), None, [], SourceFree)
    else if Acceptable(artifacts, |artifacts|, now) then KeepsShortest(artifacts, now, d)
    else exists i :: 0 <= i < |artifacts| && RefusedAt(artifacts, now, i, d)
  }

  method EvaluateArtifactTtl(artifacts: seq<Artifact>, now: Instant, complete: bool) returns (d: Decision)
    ensures IsDecision(artifacts, now, complete, d)
  {
    if !complete {
      return Rejected(Incomplete);
    }
    if artifacts == [] {
      return Decision(true, SOURCE_FREE_TTL, Some(now + SOURCE_FREE_TTL * SECOND), None, [], SourceFree);
    }
    hide Refusal, Remaining, Retrieved, ShortestOf, Dated, CanonicalType, ARTIFACT_TTL, Acceptable;
    assert Acceptable(artifacts, 0, now);
    var ttl, source := 0, 0;
    var kinds: seq<string> := [];
    var i := 0;
    while i < |artifacts|
      invariant 0 <= i <= |artifacts| && Acceptable(artifacts, i, now)
      invariant if i == 0 then kinds == [] else ShortestOf(artifacts, i, now, ttl, source, kinds)
    {
      var a := artifacts[i];
      var refusal := Refusal(a, now);
      if refusal.Some? {
        d := Rejected(refusal.value);
        assert RefusedAt(artifacts, now, i, d);
        return;
      }
      NextArtifact(artifacts, i, now, ttl, source, kinds);
      if i == 0 || Remaining(a, now) < ttl { ttl := Remaining(a, now); }
      if i == 0 || Retrieved(a) < source { source := Retrieved(a); }
      kinds := kinds + [a.kind.s];
      i := i + 1;
    }
    d := Decision(true, ttl, Some(now + ttl * SECOND), Some(source), kinds, DataSpecific);
  }

  lemma AcceptedIsDated(a: Artifact, now: Instant)
    requires Refusal(a, now).None?
    ensures Dated(a) && a.kind.Text?
  {
  }

  lemma NextArtifact(artifacts: seq<Artifact>, n: nat, now: Instant, ttl: int, source: Instant, kinds: seq<string>)
    requires n < |artifacts| && Acceptable(artifacts, n, now) && Refusal(artifacts[n], now).None?
    requires if n == 0 then kinds == [] else ShortestOf(artifacts, n, now, ttl, source, kinds)
    ensures Dated(artifacts[n]) && artifacts[n].kind.Text? && Acceptable(artifacts, n + 1, now)
    ensures var a := artifacts[n];
            ShortestOf(artifacts, n + 1, now, if n == 0 || Remaining(a, now) < ttl then Remaining(a, now) else ttl,
                       if n == 0 || Retrieved(a) < source then Retrieved(a) else source, kinds + [a.kind.s])
  {
    AcceptedIsDated(artifacts[n], now);
    if n > 0 { OneMoreArtifact(artifacts, n, now, ttl, source, kinds); } else { FirstArtifact(artifacts, now); }
    hide Refusal, Remaining, Retrieved, ShortestOf, Dated, CanonicalType;
    assert [artifacts[0].kind.s] == [] + [artifacts[0].kind.s];
  }

  lemma FirstArtifact(artifacts: seq<Artifact>, now: Instant)
    requires artifacts != [] && Acceptable(artifacts, 1, now) && Dated(artifacts[0]) && artifacts[0].kind.Text?
    ensures ShortestOf(artifacts, 1, now, Remaining(artifacts[0], now), Retrieved(artifacts[0]), [artifacts[0].kind.s])
  {
    hide Remaining, Retrieved, Refusal;
  }

  lemma OneMoreArtifact(artifacts: seq<Artifact>, n: nat, now: Instant, ttl: int, source: Instant, kinds: seq<string>)
    requires 0 < n < |artifacts| && Acceptable(artifacts, n, now) && Acceptable(artifacts, n + 1, now)
    requires ShortestOf(artifacts, n, now, ttl, source, kinds) && Dated(artifacts[n]) && artifacts[n].kind.Text?
    ensures var a := artifacts[n];
            ShortestOf(artifacts, n + 1, now, if Remaining(a, now) < ttl then Remaining(a, now) else ttl,
                       if Retrieved(a) < source then Retrieved(a) else source, kinds + [a.kind.s])
  {
    hide Remaining, Retrieved, Refusal;
  }

  /** A cacheable result expires in the future, and less than a second after its data's retention ends. */
  lemma DecisionIsFresh(artifacts: seq<Artifact>, now: Instant, complete: bool, d: Decision)
    requires IsDecision(artifacts, now, complete, d) && d.cacheable
    ensures d.ttl > 0 && d.expires == Some(now + d.ttl * SECOND)
    ensures forall a :: a in artifacts ==> Dated(a) && d.expires.value < Retrieved(a) + (BaseTtl(a) + 1) * SECOND
  {
    if artifacts != [] {
      forall i | 0 <= i < |artifacts|
        ensures Dated(artifacts[i])
        ensures d.expires.value < Retrieved(artifacts[i]) + (BaseTtl(artifacts[i]) + 1) * SECOND
      {
        var a := artifacts[i];
        assert Refusal(a, now).None?;
        assert d.ttl <= BaseTtl(a) - AgeSeconds(now, Retrieved(a));
      }
    }
  }

  /** Nothing is dropped early: some artifact's retention ends no later than the result expires. */
  lemma DecisionIsNotHasty(artifacts: seq<Artifact>, now: Instant, d: Decision)
    requires IsDecision(artifacts, now, true, d) && d.cacheable && artifacts != []
    requires forall a :: a in artifacts && Dated(a) ==> Retrieved(a) <= now
    ensures exists a :: a in artifacts && Dated(a) && Retrieved(a) + BaseTtl(a) * SECOND <= d.expires.value
  {
    var i :| 0 <= i < |artifacts| && d.ttl == Remaining(artifacts[i], now);
    assert artifacts[i] in artifacts;
  }
}
