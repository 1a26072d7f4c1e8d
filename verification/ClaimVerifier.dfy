/** Deterministic verification of an answer's claims against the artifacts they cite. */
module ClaimVerifier {
  import opened Records

  datatype ClaimType = RetrievedFact | CalculatedNumber | Comparison | Interpretation | Limitation
  datatype Unit = Number | Decimal | Percent
  datatype Scale = One | Thousand | Million | Billion | Trillion
  datatype Severity = Info | Warning | Blocking

  datatype Code =
    | MissingCitation | FabricatedCitation | UnauthorizedCitation | UnavailableEvidence
    | EntityMismatch | PeriodMismatch | StaleEvidence | CalculationRequired
    | MissingValue | NonNumericEvidence | UnitMismatch | CurrencyMismatch | UnsupportedNumber

  datatype NumericValue = NumericValue(value: real, unit: Unit, scale: Scale, currency: Option<string>)

  datatype Citation = Citation(artifactId: Id, path: Option<string>, unit: Unit, scale: Scale)

  datatype Claim = Claim(claimId: string, kind: ClaimType, citations: seq<Citation>, entity: Option<string>,
                         period: Option<string>, number: Option<NumericValue>, absolute: real, relative: real)

  datatype Artifact = Artifact(artifactId: Id, status: string, data: Option<Payload>, provenance: Payload)

  datatype Issue = Issue(code: Code, severity: Severity, claimId: string, artifactId: Option<Id>)

  datatype Report = Report(issues: seq<Issue>, checkedClaims: nat, checkedCitations: nat)

  /** What a decimal can be; nothing here depends on an infinity's sign. */
  datatype Measure = Finite(value: real) | Infinite | NotANumber

  /** Case folding and the reading of a value as a decimal number are taken as they come. */
  datatype Reading = Reading(upper: string -> string, number: Value -> Option<Measure>)

  /** How a comparison with a cited value ends; a raised error is not caught. */
  datatype Outcome = Met | Missed | Raised

  datatype Scope = Scope(artifacts: map<Id, Artifact>, authorized: set<Id>)

  /** The last artifact of an identity counts; without an explicit scope all of them are authorized. */
  function ByIdentity(artifacts: seq<Artifact>): map<Id, Artifact> {
    if artifacts == [] then map[]
    else ByIdentity(artifacts[..|artifacts| - 1])[artifacts[|artifacts| - 1].artifactId := artifacts[|artifacts| - 1]]
  }

  function ScopeOf(artifacts: seq<Artifact>, authorized: Option<set<Id>>): Scope {
    var byId := ByIdentity(artifacts);
    Scope(byId, if authorized.Some? then authorized.value else byId.Keys)
  }

  /** An artifact is found under its identity unless a later one has the same. */
  lemma {:induction false} LastArtifactCounts(artifacts: seq<Artifact>, authorized: Option<set<Id>>, i: nat)
    requires i < |artifacts| && forall j :: i < j < |artifacts| ==> artifacts[j].artifactId != artifacts[i].artifactId
    ensures var s := ScopeOf(artifacts, authorized);
            && artifacts[i].artifactId in s.artifacts && s.artifacts[artifacts[i].artifactId] == artifacts[i]
            && (authorized.None? ==> artifacts[i].artifactId in s.authorized)
  {
    var n := |artifacts| - 1;
    if i < n {
      LastArtifactCounts(artifacts[..n], authorized, i);
      assert artifacts[n].artifactId != artifacts[i].artifactId;
    }
  }

  // ----- values -----

  function FirstDot(s: string): (k: nat)
    ensures k <= |s| && (k < |s| ==> s[k] == '.')
  {
    if s == "" || s[0] == '.' then 0 else 1 + FirstDot(s[1..])
  }

  function Parts(path: string): (parts: seq<string>)
    ensures parts != []
    decreases |path|
  {
    var k := FirstDot(path);
    if k == |path| then [path] else [path[..k]] + Parts(path[k + 1..])
  }

  predicate IsDigits(s: string) {
    s != "" && forall i :: 0 <= i < |s| ==> '0' <= s[i] <= '9'
  }

  function ToNat(s: string): nat
    requires forall i :: 0 <= i < |s| ==> '0' <= s[i] <= '9'
  {
    if s == "" then 0 else 10 * ToNat(s[..|s| - 1]) + (s[|s| - 1] as nat - '0' as nat)
  }

  /** One step down: a field of an object, an element of a list, or nothing. */
  function Child(current: Value, part: string): Value {
    if current.Object? then Get(current.fields, part)
    else if current.Items? && IsDigits(part) && ToNat(part) < |current.items| then current.items[ToNat(part)]
    else Null
  }

  function Follow(current: Value, parts: seq<string>): Value
    decreases |parts|
  {
    if parts == [] then current else Follow(Child(current, parts[0]), parts[1..])
  }

  lemma {:induction false} NullHasNothing(parts: seq<string>)
    ensures Follow(Null, parts) == Null
  {
    if parts != [] {
      NullHasNothing(parts[1..]);
    }
  }

  method ReadPath(data: Payload, path: string) returns (value: Value)
    ensures value == Follow(Object(data), Parts(path))
  {
    var parts := Parts(path);
    value := Object(data);
    var i := 0;
    while i < |parts|
      invariant 0 <= i <= |parts|
      invariant Follow(Object(data), parts) == Follow(value, parts[i..])
    {
      assert parts[i..][1..] == parts[i + 1..];
      NullHasNothing(parts[i + 1..]);
      if value.Object? {
        value := Get(value.fields, parts[i]);
      } else if value.Items? && IsDigits(parts[i]) {
        var index := ToNat(parts[i]);
        if index >= |value.items| {
          return Null;
        }
        value := value.items[index];
      } else {
        return Null;
      }
      i := i + 1;
    }
  }

  function Factor(scale: Scale): real {
    match scale
    case One => 1.0
    case Thousand => 1000.0
    case Million => 1000000.0
    case Billion => 1000000000.0
    case Trillion => 1000000000000.0
  }

  function Canonical(v: NumericValue): real {
    var scaled := v.value * Factor(v.scale);
    if v.unit.Percent? then scaled / 100.0 else scaled
  }

  predicate UnitsCompatible(a: Unit, b: Unit) {
    a == b || {a, b} == {Decimal, Percent}
  }

  function Currency(provenance: Payload): Option<string> {
    var currency := Get(provenance, "currency");
    if currency.Text? then Some(currency.s) else None
  }

  predicate NonEmpty(s: Option<string>) {
    s.Some? && s.value != ""
  }

  predicate CurrenciesDiffer(t: Reading, a: Option<string>, b: Option<string>) {
    NonEmpty(a) && NonEmpty(b) && t.upper(a.value) != t.upper(b.value)
  }

  function Abs(x: real): real {
    if x >= 0.0 then x else -x
  }

  predicate WithinTolerance(c: Claim, actual: real)
    requires c.number.Some?
  {
    var difference := Abs(Canonical(c.number.value) - actual);
    difference <= c.absolute || difference <= Abs(actual) * c.relative
  }

  // ----- the issues of one claim -----

  function Entities(t: Reading, provenance: Payload): set<string> {
    var entities := Get(provenance, "entities");
    if entities.Items?
    then set i | 0 <= i < |entities.items| && entities.items[i].Text? :: t.upper(entities.items[i].s)
    else {}
  }

  predicate WrongEntity(t: Reading, c: Claim, a: Artifact) {
    NonEmpty(c.entity) && t.upper(c.entity.value) !in Entities(t, a.provenance)
  }

  predicate WrongPeriod(c: Claim, a: Artifact) {
    NonEmpty(c.period) && Get(a.provenance, "reporting_period") != Text(c.period.value)
  }

  function AlignmentIssues(t: Reading, c: Claim, a: Artifact): seq<Issue> {
    (if WrongEntity(t, c, a) then [Issue(EntityMismatch, Blocking, c.claimId, Some(a.artifactId))] else []) +
    (if WrongPeriod(c, a) then [Issue(PeriodMismatch, Blocking, c.claimId, Some(a.artifactId))] else []) +
    (if Get(a.provenance, "freshness_status") == Text("stale")
     then [Issue(StaleEvidence, Warning, c.claimId, Some(a.artifactId))] else [])
  }

  /** Why a citation gives no evidence at all. */
  function Unusable(s: Scope, citation: Citation): Option<Code> {
    if citation.artifactId !in s.artifacts then Some(FabricatedCitation)
    else if citation.artifactId !in s.authorized then Some(UnauthorizedCitation)
    else if s.artifacts[citation.artifactId].status != "ok" || s.artifacts[citation.artifactId].data.None? then
      Some(UnavailableEvidence)
    else None
  }

  function CitationIssues(s: Scope, t: Reading, c: Claim, citation: Citation): seq<Issue> {
    var unusable := Unusable(s, citation);
    if unusable.Some? then [Issue(unusable.value, Blocking, c.claimId, Some(citation.artifactId))]
    else AlignmentIssues(t, c, s.artifacts[citation.artifactId])
  }

  function CitationsIssues(s: Scope, t: Reading, c: Claim, citations: seq<Citation>): seq<Issue> {
    if citations == [] then []
    else CitationsIssues(s, t, c, citations[..|citations| - 1]) + CitationIssues(s, t, c, citations[|citations| - 1])
  }

  /** A citation together with the evidence it leads to. */
  type Cited = (Citation, Artifact)

  function Usable(s: Scope, citations: seq<Citation>): (cited: seq<Cited>)
    ensures forall i :: 0 <= i < |cited| ==> cited[i].1.data.Some?
  {
    if citations == [] then []
    else
      var last := citations[|citations| - 1];
      Usable(s, citations[..|citations| - 1]) +
      if Unusable(s, last).None? then [(last, s.artifacts[last.artifactId])] else []
  }

  predicate IsCalculation(a: Artifact) {
    var name := Get(a.provenance, "calculation_name");
    name.Text? && name.s != ""
  }

  predicate AnyCalculation(cited: seq<Cited>) {
    exists i :: 0 <= i < |cited| && IsCalculation(cited[i].1)
  }

  function EvidenceValue(e: Cited): Value
    requires e.0.path.Some? && e.1.data.Some?
  {
    Follow(Object(e.1.data.value), Parts(e.0.path.value))
  }

  /** A cited number with the unit and scale its citation gives it. */
  function Evidence(e: Cited, value: real): NumericValue {
    NumericValue(value, e.0.unit, e.0.scale, Currency(e.1.provenance))
  }

  /** What keeps a cited value from being compared. */
  function Obstacle(t: Reading, c: Claim, e: Cited): Option<Code>
    requires c.number.Some? && e.0.path.Some? && e.1.data.Some?
  {
    if EvidenceValue(e) == Null then Some(MissingValue)
    else if t.number(EvidenceValue(e)).None? then Some(NonNumericEvidence)
    else if !UnitsCompatible(c.number.value.unit, e.0.unit) then Some(UnitMismatch)
    else if CurrenciesDiffer(t, c.number.value.currency, Currency(e.1.provenance)) then Some(CurrencyMismatch)
    else None
  }

  /**
   * An infinite value is infinitely far off and allows infinitely much, unless the relative tolerance is nothing (which
   * leaves the product undefined) or negative; a value that is not a number cannot be compared.
   */
  function Compare(t: Reading, c: Claim, e: Cited): Outcome
    requires c.number.Some? && e.0.path.Some? && e.1.data.Some? && t.number(EvidenceValue(e)).Some?
  {
    match t.number(EvidenceValue(e)).value
    case Finite(x) =>
      if WithinTolerance(c, Canonical(Evidence(e, x))) then Met else Missed
    case Infinite => if c.relative > 0.0 then Met else if c.relative == 0.0 then Raised else Missed
    case NotANumber => Raised
  }

  function Compared(t: Reading, c: Claim, e: Cited): Outcome
    requires c.number.Some? && e.1.data.Some?
  {
    if e.0.path.Some? && Obstacle(t, c, e).None? then Compare(t, c, e) else Missed
  }

  /** The obstacles met up to the first value that supports the number or raises an error, and which of them it was. */
  function Scan(t: Reading, c: Claim, cited: seq<Cited>): (seq<Issue>, Outcome)
    requires c.number.Some? && forall i :: 0 <= i < |cited| ==> cited[i].1.data.Some?
  {
    if cited == [] then ([], Missed)
    else if cited[0].0.path.None? then Scan(t, c, cited[1..])
    else if Compared(t, c, cited[0]) != Missed then ([], Compared(t, c, cited[0]))
    else
      var (issues, outcome) := Scan(t, c, cited[1..]);
      var obstacle := Obstacle(t, c, cited[0]);
      var found :=
        if obstacle.Some? then [Issue(obstacle.value, Blocking, c.claimId, Some(cited[0].1.artifactId))] else [];
      (found + issues, outcome)
  }

  /** Nothing when an error is raised. */
  function NumberIssues(t: Reading, c: Claim, cited: seq<Cited>): Option<seq<Issue>>
    requires c.number.Some? && forall i :: 0 <= i < |cited| ==> cited[i].1.data.Some?
  {
    var (issues, outcome) := Scan(t, c, cited);
    if outcome.Raised? then None
    else if outcome.Missed? && issues == [] then Some([Issue(UnsupportedNumber, Blocking, c.claimId, None)])
    else Some(issues)
  }

  function CalculationIssues(c: Claim, cited: seq<Cited>): seq<Issue> {
    if c.kind.CalculatedNumber? && cited != [] && !AnyCalculation(cited)
    then [Issue(CalculationRequired, Blocking, c.claimId, None)] else []
  }

  function Joined(a: Option<seq<Issue>>, b: Option<seq<Issue>>): Option<seq<Issue>> {
    if a.Some? && b.Some? then Some(a.value + b.value) else None
  }

  function ClaimIssues(s: Scope, t: Reading, c: Claim): Option<seq<Issue>> {
    if !c.kind.Limitation? && c.citations == [] then Some([Issue(MissingCitation, Blocking, c.claimId, None)])
    else
      var cited := Usable(s, c.citations);
      Joined(Some(CitationsIssues(s, t, c, c.citations) + CalculationIssues(c, cited)),
             if c.number.Some? && cited != [] then NumberIssues(t, c, cited) else Some([]))
  }

  function AllIssues(s: Scope, t: Reading, claims: seq<Claim>): Option<seq<Issue>> {
    if claims == [] then Some([])
    else Joined(AllIssues(s, t, claims[..|claims| - 1]), ClaimIssues(s, t, claims[|claims| - 1]))
  }

  // ----- the loops -----

  method VerifyNumber(t: Reading, c: Claim, cited: seq<Cited>) returns (verdict: Option<seq<Issue>>)
    requires c.number.Some? && forall i :: 0 <= i < |cited| ==> cited[i].1.data.Some?
    ensures verdict == NumberIssues(t, c, cited)
  {
    hide Parts, Follow, Canonical, Factor, WithinTolerance, Currency, CurrenciesDiffer, UnitsCompatible;
    var issues: seq<Issue> := [];
    var matched := false;
    var i := 0;
    assert cited[0..] == cited && [] + Scan(t, c, cited).0 == Scan(t, c, cited).0;
    while i < |cited|
      invariant 0 <= i <= |cited| && !matched
      invariant Scan(t, c, cited) == (issues + Scan(t, c, cited[i..]).0, Scan(t, c, cited[i..]).1)
    {
      var e := cited[i];
      assert cited[i..][0] == e && cited[i..][1..] == cited[i + 1..];
      ghost var before, rest := issues, Scan(t, c, cited[i + 1..]).0;
      if e.0.path.Some? {
        var raw := ReadPath(e.1.data.value, e.0.path.value);
        if raw == Null {
          issues := issues + [Issue(MissingValue, Blocking, c.claimId, Some(e.1.artifactId))];
        } else if t.number(raw).None? {
          issues := issues + [Issue(NonNumericEvidence, Blocking, c.claimId, Some(e.1.artifactId))];
        } else if !UnitsCompatible(c.number.value.unit, e.0.unit) {
          issues := issues + [Issue(UnitMismatch, Blocking, c.claimId, Some(e.1.artifactId))];
        } else if CurrenciesDiffer(t, c.number.value.currency, Currency(e.1.provenance)) {
          issues := issues + [Issue(CurrencyMismatch, Blocking, c.claimId, Some(e.1.artifactId))];
        } else if Compare(t, c, e).Raised? {
          return None;
        } else if Compare(t, c, e).Met? {
          matched := true;
          break;
        }
      }
      assert forall issue :: (before + [issue]) + rest == before + ([issue] + rest);
      assert before + ([] + rest) == before + rest;
      i := i + 1;
    }
    assert issues + [] == issues;
    if !matched && issues == [] {
      issues := [Issue(UnsupportedNumber, Blocking, c.claimId, None)];
    }
    return Some(issues);
  }

  function CitationCount(claims: seq<Claim>): nat {
    if claims == [] then 0
    else CitationCount(claims[..|claims| - 1]) + |claims[|claims| - 1].citations|
  }

  method Verify(s: Scope, t: Reading, claims: seq<Claim>) returns (report: Option<Report>)
    ensures AllIssues(s, t, claims).None? ==> report == None
    ensures AllIssues(s, t, claims).Some? ==>
      report == Some(Report(AllIssues(s, t, claims).value, |claims|, CitationCount(claims)))
  {
    hide ClaimIssues;
    var issues: seq<Issue> := [];
    var checked := 0;
    var i := 0;
    while i < |claims|
      invariant 0 <= i <= |claims|
      invariant AllIssues(s, t, claims[..i]) == Some(issues) && checked == CitationCount(claims[..i])
    {
      var c := claims[i];
      assert claims[..i + 1][..i] == claims[..i];
      var found := VerifyClaim(s, t, c);
      if found.None? {
        RaisedStays(s, t, claims, i + 1);
        return None;
      }
      issues, checked := issues + found.value, checked + |c.citations|;
      i := i + 1;
    }
    assert claims[..|claims|] == claims;
    report := Some(Report(issues, |claims|, checked));
  }

  lemma {:induction false} RaisedStays(s: Scope, t: Reading, claims: seq<Claim>, n: nat)
    requires n <= |claims| && AllIssues(s, t, claims[..n]).None?
    ensures AllIssues(s, t, claims).None?
  {
    if n == |claims| {
      assert claims[..n] == claims;
    } else {
      assert claims[..|claims| - 1][..n] == claims[..n];
      RaisedStays(s, t, claims[..|claims| - 1], n);
    }
  }

  lemma CitationsNone(s: Scope, t: Reading, c: Claim)
    ensures CitationsIssues(s, t, c, []) == [] && Usable(s, []) == []
  {
  }

  lemma CitationsOneMore(s: Scope, t: Reading, c: Claim, citations: seq<Citation>, i: nat)
    requires i < |citations|
    ensures CitationsIssues(s, t, c, citations[..i + 1])
         == CitationsIssues(s, t, c, citations[..i]) + CitationIssues(s, t, c, citations[i])
    ensures Usable(s, citations[..i + 1]) == Usable(s, citations[..i]) +
      if Unusable(s, citations[i]).None? then [(citations[i], s.artifacts[citations[i].artifactId])] else []
  {
    assert citations[..i + 1][..i] == citations[..i];
  }

  method VerifyClaim(s: Scope, t: Reading, c: Claim) returns (verdict: Option<seq<Issue>>)
    ensures verdict == ClaimIssues(s, t, c)
  {
    hide NumberIssues, CitationsIssues, Usable, AnyCalculation;
    if !c.kind.Limitation? && c.citations == [] {
      return Some([Issue(MissingCitation, Blocking, c.claimId, None)]);
    }
    var issues, cited := CheckCitations(s, t, c);
    if c.kind.CalculatedNumber? && cited != [] {
      if !AnyCalculation(cited) {
        issues := issues + [Issue(CalculationRequired, Blocking, c.claimId, None)];
      }
    }
    assert issues == CitationsIssues(s, t, c, c.citations) + CalculationIssues(c, cited) && issues + [] == issues;
    if c.number.Some? && cited != [] {
      var numbers := VerifyNumber(t, c, cited);
      if numbers.None? {
        return None;
      }
      issues := issues + numbers.value;
    }
    return Some(issues);
  }

  method CheckCitations(s: Scope, t: Reading, c: Claim) returns (issues: seq<Issue>, cited: seq<Cited>)
    ensures issues == CitationsIssues(s, t, c, c.citations)
    ensures cited == Usable(s, c.citations)
  {
    hide AlignmentIssues, CitationsIssues, Usable;
    CitationsNone(s, t, c);
    issues, cited := [], [];
    var i := 0;
    while i < |c.citations|
      invariant 0 <= i <= |c.citations|
      invariant issues == CitationsIssues(s, t, c, c.citations[..i]) && cited == Usable(s, c.citations[..i])
    {
      var citation := c.citations[i];
      CitationsOneMore(s, t, c, c.citations, i);
      i := i + 1;
      if citation.artifactId !in s.artifacts {
        issues := issues + [Issue(FabricatedCitation, Blocking, c.claimId, Some(citation.artifactId))];
        continue;
      }
      var artifact := s.artifacts[citation.artifactId];
      if citation.artifactId !in s.authorized {
        issues := issues + [Issue(UnauthorizedCitation, Blocking, c.claimId, Some(citation.artifactId))];
        continue;
      }
      if artifact.status != "ok" || artifact.data.None? {
        issues := issues + [Issue(UnavailableEvidence, Blocking, c.claimId, Some(citation.artifactId))];
        continue;
      }
      cited := cited + [(citation, artifact)];
      issues := issues + AlignmentIssues(t, c, artifact);
    }
    assert c.citations[..|c.citations|] == c.citations;
  }

  // ----- what passing means -----

  predicate Passed(issues: seq<Issue>) {
    forall i :: 0 <= i < |issues| ==> !issues[i].severity.Blocking?
  }

  /** No error was raised, and no blocking issue. */
  predicate Passes(verdict: Option<seq<Issue>>) {
    verdict.Some? && Passed(verdict.value)
  }

  /** The citation leads to existing, authorized, successful evidence about the claim's entity and period. */
  predicate Sound(s: Scope, t: Reading, c: Claim, citation: Citation) {
    && citation.artifactId in s.artifacts && citation.artifactId in s.authorized
    && var a := s.artifacts[citation.artifactId];
       a.status == "ok" && a.data.Some? && !WrongEntity(t, c, a) && !WrongPeriod(c, a)
  }

  predicate AllSound(s: Scope, t: Reading, c: Claim, citations: seq<Citation>) {
    forall i :: 0 <= i < |citations| ==> Sound(s, t, c, citations[i])
  }

  /** Some cited value supports the number, and every value looked at before it could at least be compared. */
  predicate Supported(t: Reading, c: Claim, cited: seq<Cited>, k: nat)
    requires c.number.Some? && forall i :: 0 <= i < |cited| ==> cited[i].1.data.Some?
  {
    && k < |cited| && Compared(t, c, cited[k]).Met?
    && (forall i :: 0 <= i < k ==> Comparable(t, c, cited[i]))
  }

  /** A cited value that stops nothing: it can be compared, or there is none. */
  predicate Comparable(t: Reading, c: Claim, e: Cited)
    requires c.number.Some? && e.1.data.Some?
  {
    (e.0.path.Some? ==> Obstacle(t, c, e).None?) && !Compared(t, c, e).Raised?
  }

  /** Some cited value raises an error, and none looked at before it supports the number. */
  predicate RaisesAt(t: Reading, c: Claim, cited: seq<Cited>, k: nat)
    requires c.number.Some? && forall i :: 0 <= i < |cited| ==> cited[i].1.data.Some?
  {
    k < |cited| && Compared(t, c, cited[k]).Raised? && forall i :: 0 <= i < k ==> !Compared(t, c, cited[i]).Met?
  }

  ghost predicate ClaimHolds(s: Scope, t: Reading, c: Claim) {
    && (c.kind.Limitation? || c.citations != [])
    && AllSound(s, t, c, c.citations)
    && (c.kind.CalculatedNumber? && c.citations != [] ==> AnyCalculation(Usable(s, c.citations)))
    && (c.number.Some? && c.citations != [] ==> exists k: nat :: Supported(t, c, Usable(s, c.citations), k))
  }

  lemma PassedParts(a: seq<Issue>, b: seq<Issue>)
    ensures Passed(a + b) <==> Passed(a) && Passed(b)
  {
    if Passed(a + b) {
      assert forall i :: 0 <= i < |a| ==> a[i] == (a + b)[i];
      assert forall i :: 0 <= i < |b| ==> b[i] == (a + b)[|a| + i];
    }
  }

  lemma CitationPasses(s: Scope, t: Reading, c: Claim, citation: Citation)
    ensures Passed(CitationIssues(s, t, c, citation)) <==> Sound(s, t, c, citation)
  {
    if Unusable(s, citation).Some? {
      assert CitationIssues(s, t, c, citation)[0].severity.Blocking?;
    } else {
      AlignmentPasses(t, c, s.artifacts[citation.artifactId]);
    }
  }

  lemma AlignmentPasses(t: Reading, c: Claim, a: Artifact)
    ensures Passed(AlignmentIssues(t, c, a)) <==> !WrongEntity(t, c, a) && !WrongPeriod(c, a)
  {
    hide WrongEntity, WrongPeriod;
    var issues := AlignmentIssues(t, c, a);
    if WrongEntity(t, c, a) {
      assert issues[0].severity.Blocking?;
    } else if WrongPeriod(c, a) {
      assert issues[0].severity.Blocking?;
    }
  }

  lemma {:induction false} CitationsPass(s: Scope, t: Reading, c: Claim, citations: seq<Citation>)
    ensures Passed(CitationsIssues(s, t, c, citations)) <==> AllSound(s, t, c, citations)
    ensures AllSound(s, t, c, citations) ==> |Usable(s, citations)| == |citations|
  {
    if citations != [] {
      var front, last := citations[..|citations| - 1], citations[|citations| - 1];
      CitationsPass(s, t, c, front);
      CitationPasses(s, t, c, last);
      PassedParts(CitationsIssues(s, t, c, front), CitationIssues(s, t, c, last));
      assert Sound(s, t, c, last) ==> Unusable(s, last).None?;
      hide Sound, CitationIssues, Unusable, Passed;
      assert forall i :: 0 <= i < |front| ==> citations[i] == front[i];
    }
  }

  lemma {:induction false} ScanPasses(t: Reading, c: Claim, cited: seq<Cited>)
    requires c.number.Some? && forall i :: 0 <= i < |cited| ==> cited[i].1.data.Some?
    ensures var (issues, outcome) := Scan(t, c, cited);
            && (Passed(issues) <==> issues == [])
            && (outcome.Met? && issues == [] <==> exists k: nat :: Supported(t, c, cited, k))
            && (outcome.Raised? <==> exists k: nat :: RaisesAt(t, c, cited, k))
  {
    if cited != [] {
      var first, rest := cited[0], cited[1..];
      ScanPasses(t, c, rest);
      assert first.0.path.None? ==> Compared(t, c, first).Missed?;
      hide Compared, Obstacle, Supported, RaisesAt;
      FirstDecides(t, c, cited);
      if Compared(t, c, first).Missed? {
        LaterDecides(t, c, cited);
        assert [] + Scan(t, c, rest).0 == Scan(t, c, rest).0;
        assert Scan(t, c, cited).0 != Scan(t, c, rest).0 ==> Scan(t, c, cited).0[0].severity.Blocking?;
        assert Scan(t, c, cited).0 == Scan(t, c, rest).0 ||
          exists issue :: Scan(t, c, cited).0 == [issue] + Scan(t, c, rest).0;
      }
    }
  }

  lemma FirstDecides(t: Reading, c: Claim, cited: seq<Cited>)
    requires c.number.Some? && (forall i :: 0 <= i < |cited| ==> cited[i].1.data.Some?) && cited != []
    ensures Compared(t, c, cited[0]).Met? ==>
      (exists k: nat :: Supported(t, c, cited, k)) && !exists k: nat :: RaisesAt(t, c, cited, k)
    ensures Compared(t, c, cited[0]).Raised? ==>
      (exists k: nat :: RaisesAt(t, c, cited, k)) && !exists k: nat :: Supported(t, c, cited, k)
  {
    hide Compared, Obstacle;
    if Compared(t, c, cited[0]).Met? { assert Supported(t, c, cited, 0); }
    if Compared(t, c, cited[0]).Raised? { assert RaisesAt(t, c, cited, 0); }
  }

  lemma LaterDecides(t: Reading, c: Claim, cited: seq<Cited>)
    requires c.number.Some? && (forall i :: 0 <= i < |cited| ==> cited[i].1.data.Some?) && cited != []
    requires Compared(t, c, cited[0]).Missed?
    ensures (exists k: nat :: Supported(t, c, cited, k)) <==>
      Comparable(t, c, cited[0]) && exists k: nat :: Supported(t, c, cited[1..], k)
    ensures (exists k: nat :: RaisesAt(t, c, cited, k)) <==> exists k: nat :: RaisesAt(t, c, cited[1..], k)
  {
    hide Compared, Comparable;
    assert forall i :: 0 < i < |cited| ==> cited[i] == cited[1..][i - 1];
    if k: nat :| Supported(t, c, cited, k) { assert Supported(t, c, cited[1..], k - 1); }
    if k: nat :| RaisesAt(t, c, cited, k) { assert RaisesAt(t, c, cited[1..], k - 1); }
    if k: nat :| RaisesAt(t, c, cited[1..], k) { assert RaisesAt(t, c, cited, k + 1); }
    if k: nat :| Supported(t, c, cited[1..], k) && Comparable(t, c, cited[0]) { assert Supported(t, c, cited, k + 1); }
  }

  lemma NumberPasses(t: Reading, c: Claim, cited: seq<Cited>)
    requires c.number.Some? && forall i :: 0 <= i < |cited| ==> cited[i].1.data.Some?
    ensures Passes(NumberIssues(t, c, cited)) <==> exists k: nat :: Supported(t, c, cited, k)
    ensures NumberIssues(t, c, cited).None? <==> exists k: nat :: RaisesAt(t, c, cited, k)
  {
    ScanPasses(t, c, cited);
    hide Scan, Supported, RaisesAt;
    var (issues, outcome) := Scan(t, c, cited);
    if outcome.Missed? && issues == [] {
      assert NumberIssues(t, c, cited).value[0].severity.Blocking?;
    }
  }

  lemma JoinedPasses(a: Option<seq<Issue>>, b: Option<seq<Issue>>)
    ensures Passes(Joined(a, b)) <==> Passes(a) && Passes(b)
  {
    if a.Some? && b.Some? { PassedParts(a.value, b.value); }
  }

  lemma ClaimPasses(s: Scope, t: Reading, c: Claim)
    ensures Passes(ClaimIssues(s, t, c)) <==> ClaimHolds(s, t, c)
  {
    if !c.kind.Limitation? && c.citations == [] {
      assert ClaimIssues(s, t, c).value[0].severity.Blocking?;
    } else {
      var cited := Usable(s, c.citations);
      var first, second := CitationsIssues(s, t, c, c.citations), CalculationIssues(c, cited);
      CitationsPass(s, t, c, c.citations);
      PassedParts(first, second);
      JoinedPasses(Some(first + second), if c.number.Some? && cited != [] then NumberIssues(t, c, cited) else Some([]));
      if c.number.Some? { NumberPasses(t, c, cited); }
      assert second != [] ==> second[0].severity.Blocking?;
      hide CitationsIssues, Usable, NumberIssues, Supported, AllSound, AnyCalculation, Joined;
    }
  }

  /** Soundness and completeness: a report comes and passes exactly when every claim holds up against its evidence. */
  lemma {:induction false} VerifierIsExact(s: Scope, t: Reading, claims: seq<Claim>)
    ensures Passes(AllIssues(s, t, claims)) <==> forall i :: 0 <= i < |claims| ==> ClaimHolds(s, t, claims[i])
  {
    if claims != [] {
      var front, last := claims[..|claims| - 1], claims[|claims| - 1];
      VerifierIsExact(s, t, front);
      ClaimPasses(s, t, last);
      JoinedPasses(AllIssues(s, t, front), ClaimIssues(s, t, last));
      hide ClaimHolds, ClaimIssues, Passes, Joined;
      assert forall i :: 0 <= i < |front| ==> claims[i] == front[i];
    }
  }

  // ----- values that are not finite -----

  ghost predicate ClaimRaises(s: Scope, t: Reading, c: Claim) {
    c.number.Some? && exists k: nat :: RaisesAt(t, c, Usable(s, c.citations), k)
  }

  /** There is no report exactly when some claim cites a value that cannot be compared before one that supports it. */
  lemma {:induction false} NoReportIff(s: Scope, t: Reading, claims: seq<Claim>)
    ensures AllIssues(s, t, claims).None? <==> exists i :: 0 <= i < |claims| && ClaimRaises(s, t, claims[i])
  {
    if claims != [] {
      var front, last := claims[..|claims| - 1], claims[|claims| - 1];
      NoReportIff(s, t, front);
      NoVerdictIff(s, t, last);
      hide ClaimRaises, ClaimIssues;
      assert forall i :: 0 <= i < |front| ==> claims[i] == front[i];
      if i :| 0 <= i < |claims| && ClaimRaises(s, t, claims[i]) { assert i == |front| || claims[i] == front[i]; }
    }
  }

  lemma NoVerdictIff(s: Scope, t: Reading, c: Claim)
    ensures ClaimIssues(s, t, c).None? <==> ClaimRaises(s, t, c)
  {
    var cited := Usable(s, c.citations);
    if c.number.Some? { NumberPasses(t, c, cited); }
    hide NumberIssues, Compared, CitationsIssues;
  }

  /** A value written as "NaN" leaves no report, unless an earlier citation of the claim supports its number. */
  lemma NotANumberLeavesNoReport(s: Scope, t: Reading, claims: seq<Claim>, i: nat, k: nat)
    requires i < |claims| && claims[i].number.Some? && k < |Usable(s, claims[i].citations)|
    requires var c, e := claims[i], Usable(s, claims[i].citations)[k];
             && e.0.path.Some? && Obstacle(t, c, e).None? && t.number(EvidenceValue(e)) == Some(NotANumber)
    requires forall j :: 0 <= j < k ==> !Compared(t, claims[i], Usable(s, claims[i].citations)[j]).Met?
    ensures AllIssues(s, t, claims).None?
  {
    NoReportIff(s, t, claims);
    hide EvidenceValue, Obstacle, AllIssues, Usable;
    assert RaisesAt(t, claims[i], Usable(s, claims[i].citations), k);
    assert ClaimRaises(s, t, claims[i]);
  }

  /** A sound citation of a finite value within tolerance of the claim's number. */
  predicate IsClose(s: Scope, t: Reading, c: Claim, citation: Citation)
    requires c.number.Some?
  {
    && Sound(s, t, c, citation) && citation.path.Some?
    && var a := s.artifacts[citation.artifactId];
       var number := t.number(EvidenceValue((citation, a)));
       && number.Some? && number.value.Finite?
       && WithinTolerance(c, Canonical(Evidence((citation, a), number.value.value)))
  }

  /** A sound citation of an infinite value. */
  predicate IsInfinite(s: Scope, t: Reading, c: Claim, citation: Citation) {
    && Sound(s, t, c, citation) && citation.path.Some?
    && t.number(EvidenceValue((citation, s.artifacts[citation.artifactId]))) == Some(Infinite)
  }

  /**
   * In a report that passes, a number with citations is within tolerance of a value it cites, or it cites an infinite
   * one and has a relative tolerance.
   */
  lemma PassedNumbersAreSupported(s: Scope, t: Reading, claims: seq<Claim>, i: nat)
    requires Passes(AllIssues(s, t, claims)) && i < |claims| && claims[i].number.Some? && claims[i].citations != []
    ensures var c := claims[i];
            || (exists citation :: citation in c.citations && IsClose(s, t, c, citation))
            || (c.relative > 0.0 && exists citation :: citation in c.citations && IsInfinite(s, t, c, citation))
  {
    VerifierIsExact(s, t, claims);
    var c := claims[i];
    assert ClaimHolds(s, t, c);
    var k: nat :| Supported(t, c, Usable(s, c.citations), k);
    UsableIsCited(s, t, c, c.citations, k);
    var citation := Usable(s, c.citations)[k].0;
    hide Usable, AllIssues, EvidenceValue, WithinTolerance, Canonical, Currency, Sound, AllSound;
    assert IsClose(s, t, c, citation) || IsInfinite(s, t, c, citation);
  }

  /** The claim that its number is `value`, citing the "value" of an artifact. */
  function Claiming(value: real, id: Id, relative: real): Claim {
    Claim("claim", RetrievedFact, [Citation(id, Some("value"), Number, One)], None, None,
          Some(NumericValue(value, Number, One, None)), 0.0, relative)
  }

  /** The one artifact, whose "value" is the text "Infinity". */
  function InfinityScope(id: Id): Scope {
    ScopeOf([Artifact(id, "ok", Some(map["value" := Text("Infinity")]), map[])], None)
  }

  lemma InfinityIsCited(t: Reading, value: real, id: Id, relative: real)
    requires t.number(Text("Infinity")) == Some(Infinite)
    ensures var c, s := Claiming(value, id, relative), InfinityScope(id);
            && AllSound(s, t, c, c.citations) && |Usable(s, c.citations)| == 1
            && Compared(t, c, Usable(s, c.citations)[0]) ==
                 if relative > 0.0 then Met else if relative == 0.0 then Raised else Missed
  {
    var c, s := Claiming(value, id, relative), InfinityScope(id);
    var a := Artifact(id, "ok", Some(map["value" := Text("Infinity")]), map[]);
    LastArtifactCounts([a], None, 0);
    assert c.citations[..0] == [] && Usable(s, c.citations) == [(c.citations[0], a)];
    assert Parts("value") == ["value"] && ["value"][1..] == [];
    assert EvidenceValue((c.citations[0], a)) == Text("Infinity");
  }

  /** Any number passes on the text "Infinity" as evidence if there is a relative tolerance, as there is by default. */
  lemma InfinityPassesAnyNumber(t: Reading, value: real, id: Id, relative: real)
    requires t.number(Text("Infinity")) == Some(Infinite)
    ensures var c, s := Claiming(value, id, relative), InfinityScope(id);
            && (Passes(AllIssues(s, t, [c])) <==> relative > 0.0)
            && (AllIssues(s, t, [c]).None? <==> relative == 0.0)
  {
    var c, s := Claiming(value, id, relative), InfinityScope(id);
    InfinityIsCited(t, value, id, relative);
    VerifierIsExact(s, t, [c]);
    NoReportIff(s, t, [c]);
    hide AllIssues, Usable, AllSound, Compared, ByIdentity, ScopeOf, Obstacle;
    var cited := Usable(s, c.citations);
    assert relative > 0.0 ==> Supported(t, c, cited, 0);
    assert relative == 0.0 ==> RaisesAt(t, c, cited, 0);
    assert ClaimHolds(s, t, [c][0]) <==> relative > 0.0;
    assert ClaimRaises(s, t, [c][0]) <==> relative == 0.0;
  }

  lemma {:induction false} UsableIsCited(s: Scope, t: Reading, c: Claim, citations: seq<Citation>, k: nat)
    requires AllSound(s, t, c, citations) && k < |Usable(s, citations)|
    ensures Usable(s, citations)[k].0 in citations
    ensures Sound(s, t, c, Usable(s, citations)[k].0)
    ensures Usable(s, citations)[k] == (Usable(s, citations)[k].0, s.artifacts[Usable(s, citations)[k].0.artifactId])
  {
    var front, last := citations[..|citations| - 1], citations[|citations| - 1];
    assert Sound(s, t, c, last);
    if k < |Usable(s, front)| {
      assert forall i :: 0 <= i < |front| ==> citations[i] == front[i];
      UsableIsCited(s, t, c, front, k);
    }
  }
}
