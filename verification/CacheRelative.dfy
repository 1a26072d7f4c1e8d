/** Queries about the present: what the cache may answer them with, and when that can go wrong. */
module CacheRelative {
  import opened Records
  import opened CachePolicy
  import opened CacheStores
  import opened CacheService

  const CAP: int := 60 * SECOND

  /** Some operation of the run looks at this key for a query about the present. */
  ghost predicate RelativeKey(ops: seq<Op>, key: string) {
    exists i :: 0 <= i < |ops| && ops[i].f.relative && ops[i].f.key == key
  }

  /** The wording's tie to the present can be read off the key. */
  ghost predicate KeysAgree(ops: seq<Op>) {
    forall i, j :: 0 <= i < |ops| && 0 <= j < |ops| && ops[i].f.key == ops[j].f.key ==>
      ops[i].f.relative == ops[j].f.relative
  }

  /** A store of this result under this key, less than a minute before the entry expires. */
  predicate StoredAt(ops: seq<Op>, i: nat, key: string, payload: ResearchResult, expires: Instant) {
    && i < |ops| && ops[i].StoreOp? && ops[i].f.key == key && ops[i].result == payload
    && ops[i].now < expires <= ops[i].now + CAP
  }

  ghost predicate Recent(ops: seq<Op>, key: string, payload: ResearchResult, expires: Instant) {
    exists i: nat :: StoredAt(ops, i, key, payload, expires)
  }

  /** Entries under keys of queries about the present were stored for such a query, for a minute. */
  ghost predicate RecentCache(cache: Cache, ops: seq<Op>, n: nat)
    requires n <= |ops|
  {
    forall k :: k in cache.exact && RelativeKey(ops, k) ==>
      Recent(ops[..n], k, cache.exact[k].payload, cache.exact[k].expires)
  }

  lemma RecentStays(ops: seq<Op>, op: Op, key: string, payload: ResearchResult, expires: Instant)
    requires Recent(ops, key, payload, expires)
    ensures Recent(ops + [op], key, payload, expires)
  {
    var i: nat :| StoredAt(ops, i, key, payload, expires);
    assert StoredAt(ops + [op], i, key, payload, expires);
  }

  lemma StepKeepsRecent(config: Config, similarity: Similarity, cache: Cache, ops: seq<Op>, n: nat)
    requires Legal(ops) && KeysAgree(ops) && n < |ops| && RecentCache(cache, ops, n)
    ensures RecentCache(Apply(config, similarity, cache, ops[n]).0, ops, n + 1)
  {
    var op := ops[n];
    var cache' := Apply(config, similarity, cache, op).0;
    assert ops[..n + 1] == ops[..n] + [op];
    forall k | k in cache'.exact && RelativeKey(ops, k)
      ensures Recent(ops[..n + 1], k, cache'.exact[k].payload, cache'.exact[k].expires)
    {
      if k in cache.exact && cache'.exact[k] == cache.exact[k] {
        RecentStays(ops[..n], op, k, cache.exact[k].payload, cache.exact[k].expires);
      } else {
        ChangedEntry(config, similarity, cache, op, k);
        assert op.f.relative;
        AdjustedIsFresh(op);
        assert StoredAt(ops[..n + 1], n, k, cache'.exact[k].payload, cache'.exact[k].expires);
      }
    }
  }

  /** A new entry stands under the operation's own key, and a query about the present gets one only by a store. */
  lemma ChangedEntry(config: Config, similarity: Similarity, cache: Cache, op: Op, k: string)
    requires LegalOp(op)
    requires var cache' := Apply(config, similarity, cache, op).0;
             k in cache'.exact && !(k in cache.exact && cache'.exact[k] == cache.exact[k])
    ensures k == op.f.key
    ensures op.f.relative ==> op.StoreOp? && op.d.cacheable
    ensures op.f.relative ==>
      Apply(config, similarity, cache, op).0.exact[k] ==
        ExactEntry(op.result, Adjusted(op.d, op.f, op.now).expires.value)
  {
    if op.StoreOp? {
      StoreWrites(config, cache, op);
      hide StoreMessage;
    }
  }

  lemma {:induction false} RunsKeepRecent(config: Config, similarity: Similarity, ops: seq<Op>, n: nat)
    requires Legal(ops) && KeysAgree(ops) && n <= |ops|
    ensures RecentCache(After(config, similarity, ops[..n]), ops, n)
  {
    hide RecentCache, Apply, Legal, KeysAgree;
    if n == 0 {
      NothingIsRecent(ops);
    } else {
      RunsKeepRecent(config, similarity, ops, n - 1);
      StepKeepsRecent(config, similarity, After(config, similarity, ops[..n - 1]), ops, n - 1);
      assert ops[..n][..n - 1] == ops[..n - 1];
    }
  }

  lemma NothingIsRecent(ops: seq<Op>)
    ensures RecentCache(Cache(map[], []), ops, 0)
  {
  }

  /** A query about the present that is answered at all is answered by a store for its own key of the last minute. */
  ghost predicate AnsweredRecently(config: Config, similarity: Similarity, ops: seq<Op>, i: nat)
    requires i < |ops|
  {
    var served := Answered(config, similarity, ops, i);
    ops[i].f.relative && served.payload.Some? ==>
      && served.tier.ExactTier?
      && exists j: nat :: j < i && ops[j].StoreOp? && ops[j].f.key == ops[i].f.key
           && ops[j].result == served.payload.value && ops[i].now < ops[j].now + CAP
  }

  lemma AgreeingKeysAnswerRecently(config: Config, similarity: Similarity, ops: seq<Op>, i: nat)
    requires Legal(ops) && KeysAgree(ops) && i < |ops|
    ensures AnsweredRecently(config, similarity, ops, i)
  {
    RunsKeepRecent(config, similarity, ops, i);
    var cache, op := After(config, similarity, ops[..i]), ops[i];
    var served := Answered(config, similarity, ops, i);
    if op.f.relative && served.payload.Some? {
      assert op.LookupOp? && !op.f.eligible;
      assert served.tier.ExactTier? && op.f.key in cache.exact && served.payload.value == cache.exact[op.f.key].payload;
      assert RelativeKey(ops, op.f.key);
      var j: nat :| StoredAt(ops[..i], j, op.f.key, cache.exact[op.f.key].payload, cache.exact[op.f.key].expires);
      assert ops[..i][j] == ops[j];
    }
  }

  predicate StoredTimeless(ops: seq<Op>, i: nat, payload: ResearchResult) {
    i < |ops| && ops[i].StoreOp? && !ops[i].f.relative && ops[i].result == payload
  }

  ghost predicate IsTimeless(ops: seq<Op>, payload: ResearchResult) {
    exists i: nat :: StoredTimeless(ops, i, payload)
  }

  ghost predicate TimelessCache(cache: Cache, ops: seq<Op>) {
    forall k :: 0 <= k < |cache.semantic| ==> IsTimeless(ops, cache.semantic[k].payload)
  }

  lemma StepKeepsTimeless(config: Config, similarity: Similarity, cache: Cache, ops: seq<Op>, op: Op)
    requires LegalOp(op) && TimelessCache(cache, ops)
    ensures TimelessCache(Apply(config, similarity, cache, op).0, ops + [op])
  {
    var cache' := Apply(config, similarity, cache, op).0;
    if op.StoreOp? { StoreWrites(config, cache, op); }
    hide StoreMessage;
    forall k | 0 <= k < |cache'.semantic|
      ensures IsTimeless(ops + [op], cache'.semantic[k].payload)
    {
      if k < |cache.semantic| {
        assert cache'.semantic[k] == cache.semantic[k] && IsTimeless(ops, cache.semantic[k].payload);
        var i: nat :| StoredTimeless(ops, i, cache.semantic[k].payload);
        assert StoredTimeless(ops + [op], i, cache.semantic[k].payload);
      } else {
        assert StoredTimeless(ops + [op], |ops|, cache'.semantic[k].payload);
      }
    }
  }

  /** Nothing a query about the present stored is ever in the semantic tier. */
  lemma {:induction false} SemanticTierIsTimeless(config: Config, similarity: Similarity, ops: seq<Op>)
    requires Legal(ops)
    ensures TimelessCache(After(config, similarity, ops), ops)
  {
    if ops != [] {
      var before, op := ops[..|ops| - 1], ops[|ops| - 1];
      SemanticTierIsTimeless(config, similarity, before);
      StepKeepsTimeless(config, similarity, After(config, similarity, before), before, op);
      assert before + [op] == ops;
      hide TimelessCache, Apply;
    }
  }

  // ----- when keys do not agree -----

  const TIMELESS := ResearchResult(Null, [], false, "42", [])

  /** Two spellings of one key: the timeless one stores, the one about the present asks an hour later. */
  function Clash(timeless: Fingerprint, present: Fingerprint): seq<Op> {
    [StoreOp(timeless, 0, TIMELESS,
             Decision(true, SOURCE_FREE_TTL, Some(SOURCE_FREE_TTL * SECOND), None, [], SourceFree), false,
             StoreFaults(Worked, NotEmbedded, Worked)),
     LookupOp(present, HOUR * SECOND, LookupFaults(true, NotEmbedded, true, Worked))]
  }

  lemma ClashingKeysAnswerLate(config: Config, similarity: Similarity, timeless: Fingerprint, present: Fingerprint)
    requires config.hasExact && timeless.key == present.key && !timeless.relative && present.relative
    requires !present.eligible
    ensures Legal(Clash(timeless, present))
    ensures !AnsweredRecently(config, similarity, Clash(timeless, present), 1)
  {
    var ops := Clash(timeless, present);
    assert !IsSpace('4');
    assert !OnlySpaces("42") by { assert !IsSpace("42"[0]); }
    assert ops[..1] == [ops[0]] && [ops[0]][..0] == [];
    assert After(config, similarity, []) == Cache(map[], []);
    CeilOfSeconds(SOURCE_FREE_TTL);
    var cache := After(config, similarity, ops[..1]);
    assert cache == Apply(config, similarity, Cache(map[], []), ops[0]).0;
    assert cache.exact == map[present.key := ExactEntry(TIMELESS, SOURCE_FREE_TTL * SECOND)];
    assert Answered(config, similarity, ops, 1) == Served(ExactTier, Some(TIMELESS));
  }

  ghost predicate Over(ops: seq<Op>, queries: set<Fingerprint>) {
    Legal(ops) && forall i :: 0 <= i < |ops| ==> ops[i].f in queries
  }

  ghost predicate AlwaysRecent(config: Config, similarity: Similarity, queries: set<Fingerprint>) {
    forall ops, i: nat :: Over(ops, queries) && i < |ops| ==> AnsweredRecently(config, similarity, ops, i)
  }

  /** Equal keys always come from queries that agree on whether they are about the present. */
  ghost predicate KeysTell(queries: set<Fingerprint>) {
    forall f, g :: f in queries && g in queries && f.key == g.key ==> f.relative == g.relative
  }

  /** Queries about the present get answers of the last minute in every run if and only if their keys set them apart. */
  lemma RecentIffKeysTell(config: Config, similarity: Similarity, queries: set<Fingerprint>)
    requires config.hasExact && forall f :: f in queries && f.relative ==> !f.eligible
    ensures AlwaysRecent(config, similarity, queries) <==> KeysTell(queries)
  {
    if KeysTell(queries) {
      forall ops, i: nat | Over(ops, queries) && i < |ops| ensures AnsweredRecently(config, similarity, ops, i) {
        assert KeysAgree(ops);
        AgreeingKeysAnswerRecently(config, similarity, ops, i);
      }
    } else {
      var f, g :| f in queries && g in queries && f.key == g.key && f.relative && !g.relative;
      ClashingKeysAnswerLate(config, similarity, g, f);
      assert Over(Clash(g, f), queries);
    }
  }

  // ----- two spellings with one key -----

  /** White space as the exact key sees it: every run of it is one blank. */
  function Collapsed(query: string): string
    decreases |query|
  {
    if |query| >= 2 && IsSpace(query[0]) && IsSpace(query[1]) then Collapsed(query[1..])
    else if query == "" then ""
    else [if IsSpace(query[0]) then ' ' else query[0]] + Collapsed(query[1..])
  }

  function Stripped(s: string): string
    decreases |s|
  {
    if s != "" && IsSpace(s[0]) then Stripped(s[1..])
    else if s != "" && IsSpace(s[|s| - 1]) then Stripped(s[..|s| - 1])
    else s
  }

  function LowerChar(ch: char): char {
    if 'A' <= ch <= 'Z' then ch + 32 as char else ch
  }

  function Lower(s: string): (r: string)
    ensures |r| == |s| && forall i :: 0 <= i < |s| ==> r[i] == LowerChar(s[i])
  {
    seq(|s|, i requires 0 <= i < |s| => LowerChar(s[i]))
  }

  /** The normalized text of an ASCII query: one blank for each run of white space, none around, lower case. */
  function NormalizedQuery(query: string): string {
    Lower(Stripped(Collapsed(query)))
  }

  /** The key does not tell one blank from two. */
  lemma {:induction false} SecondBlankKeepsKey(before: string, after: string)
    ensures NormalizedQuery(before + "  " + after) == NormalizedQuery(before + " " + after)
  {
    SecondBlankCollapses(before, after);
  }

  lemma {:induction false} SecondBlankCollapses(before: string, after: string)
    ensures Collapsed(before + "  " + after) == Collapsed(before + " " + after)
    decreases |before|
  {
    var two, one := before + "  " + after, before + " " + after;
    if before == "" {
      assert two[1..] == one;
    } else {
      assert two[1..] == before[1..] + "  " + after && one[1..] == before[1..] + " " + after;
      SecondBlankCollapses(before[1..], after);
    }
  }

  // ----- the search for words about the present -----

  const PRESENT_WORDS: seq<string> :=
    ["today", "now", "currently", "current", "latest", "recent", "recently", "yesterday", "tomorrow",
     "this week", "this month", "this quarter", "this year"]

  predicate IsWordChar(ch: char) {
    'a' <= ch <= 'z' || 'A' <= ch <= 'Z' || '0' <= ch <= '9' || ch == '_'
  }

  /** A phrase stands at i as typed, in any case, between word boundaries. */
  predicate StandsAt(text: string, phrase: string, i: nat) {
    && i + |phrase| <= |text| && Lower(text[i..i + |phrase|]) == phrase
    && (i > 0 ==> !IsWordChar(text[i - 1]))
    && (i + |phrase| < |text| ==> !IsWordChar(text[i + |phrase|]))
  }

  ghost predicate IsAboutPresent(query: string) {
    exists w, i: nat :: 0 <= w < |PRESENT_WORDS| && StandsAt(query, PRESENT_WORDS[w], i)
  }

  lemma OneBlankIsFound()
    ensures IsAboutPresent("this week")
  {
    var text := "this week";
    assert text[0..9] == text && Lower(text) == text;
    assert PRESENT_WORDS[9] == "this week";
    assert StandsAt(text, PRESENT_WORDS[9], 0);
  }

  /** With two blanks nothing stands at the beginning, at "week", or anywhere inside the words. */
  lemma TwoBlanksAreNotFound()
    ensures !IsAboutPresent("this  week")
  {
    var text := "this  week";
    forall w, i: nat | 0 <= w < |PRESENT_WORDS| ensures !StandsAt(text, PRESENT_WORDS[w], i) {
      NotStanding(PRESENT_WORDS[w], i);
    }
  }

  /** None begins with a blank or with 'w', and those that begin with "th" have no second blank. */
  lemma PhraseShape(phrase: string)
    requires phrase in PRESENT_WORDS
    ensures |phrase| >= 3 && phrase[0] != ' ' && phrase[0] != 'w'
    ensures phrase[0] == 't' && phrase[1] == 'h' ==> |phrase| >= 6 && phrase[5] != ' '
  {
  }

  lemma NotStanding(phrase: string, i: nat)
    requires phrase in PRESENT_WORDS
    ensures !StandsAt("this  week", phrase, i)
  {
    var text := "this  week";
    PhraseShape(phrase);
    hide PRESENT_WORDS;
    if i + |phrase| <= |text| {
      var found := Lower(text[i..i + |phrase|]);
      assert forall k :: 0 <= k < |phrase| ==> found[k] == LowerChar(text[i + k]);
      if i == 0 || 4 <= i <= 6 {
        assert found[0] != phrase[0] || found[1] != phrase[1] || found[5] != phrase[5];
      } else {
        assert IsWordChar(text[i - 1]);
      }
    }
  }

  /** The fingerprint of a query; `unsafe` stands for the other reasons not to ask the semantic tier. */
  ghost function FingerprintOf(query: string, namespace: string, constraints: Value, unsafe: bool): Fingerprint {
    var present := IsAboutPresent(query);
    Fingerprint(namespace + "|" + NormalizedQuery(query), namespace, constraints, NormalizedQuery(query),
                !unsafe && !present, present)
  }

  /**
   * Such a pair: stored for "this  week", which is not found to be about the present, a result answers "this week",
   * which is, an hour later.
   */
  lemma TwoBlanksAnswerLate(config: Config, similarity: Similarity, namespace: string, constraints: Value, unsafe: bool)
    requires config.hasExact
    ensures var timeless := FingerprintOf("this  week", namespace, constraints, unsafe);
            var present := FingerprintOf("this week", namespace, constraints, unsafe);
            && present.relative && !timeless.relative && Legal(Clash(timeless, present))
            && !AnsweredRecently(config, similarity, Clash(timeless, present), 1)
  {
    OneBlankIsFound();
    TwoBlanksAreNotFound();
    assert "this" + "  " + "week" == "this  week" && "this" + " " + "week" == "this week";
    SecondBlankKeepsKey("this", "week");
    hide IsAboutPresent, NormalizedQuery, AnsweredRecently, Clash, Legal;
    ClashingKeysAnswerLate(config, similarity, FingerprintOf("this  week", namespace, constraints, unsafe),
                           FingerprintOf("this week", namespace, constraints, unsafe));
  }

  // ----- queries whose keys do agree -----

  /** All white space is blanks that stand alone. */
  predicate SingleBlanked(query: string) {
    && (forall i :: 0 <= i < |query| && IsSpace(query[i]) ==> query[i] == ' ')
    && (forall i :: 0 < i < |query| && IsSpace(query[i]) ==> !IsSpace(query[i - 1]))
  }

  lemma {:induction false} NothingToCollapse(query: string)
    requires SingleBlanked(query)
    ensures Collapsed(query) == query
  {
    if query != "" {
      assert |query| >= 2 && IsSpace(query[1]) ==> !IsSpace(query[0]);
      NothingToCollapse(query[1..]);
      assert query == [query[0]] + query[1..];
    }
  }

  /** The phrases begin and end with letters in lower case. */
  lemma PhraseEnds(phrase: string)
    requires phrase in PRESENT_WORDS
    ensures phrase != "" && 'a' <= phrase[0] <= 'z' && 'a' <= phrase[|phrase| - 1] <= 'z'
  {
  }

  lemma BlankIsNoLetter(ch: char)
    requires IsSpace(ch)
    ensures !IsWordChar(ch) && !('a' <= LowerChar(ch) <= 'z')
  {
  }

  lemma BlankInFront(text: string, phrase: string, i: nat)
    requires phrase in PRESENT_WORDS && text != "" && IsSpace(text[0])
    ensures !StandsAt(text, phrase, 0)
    ensures StandsAt(text, phrase, i + 1) <==> StandsAt(text[1..], phrase, i)
  {
    PhraseEnds(phrase);
    BlankIsNoLetter(text[0]);
    hide PRESENT_WORDS, IsSpace, IsWordChar, LowerChar;
    if |phrase| <= |text| { assert Lower(text[0..0 + |phrase|])[0] == LowerChar(text[0]); }
    if i + 1 + |phrase| <= |text| {
      assert text[i + 1..i + 1 + |phrase|] == text[1..][i..i + |phrase|];
      assert text[1..][i + |phrase|..] == text[i + 1 + |phrase|..];
    }
  }

  lemma BlankBehind(text: string, phrase: string, i: nat)
    requires phrase in PRESENT_WORDS && text != "" && IsSpace(text[|text| - 1])
    ensures StandsAt(text, phrase, i) <==> StandsAt(text[..|text| - 1], phrase, i)
  {
    PhraseEnds(phrase);
    var n := |text| - 1;
    BlankIsNoLetter(text[n]);
    hide PRESENT_WORDS, IsSpace, IsWordChar, LowerChar;
    if i + |phrase| == |text| {
      assert Lower(text[i..i + |phrase|])[|phrase| - 1] == LowerChar(text[n]);
    } else if i + |phrase| <= n {
      assert text[..n][i..i + |phrase|] == text[i..i + |phrase|];
    }
  }

  lemma AboutPresentInRest(text: string)
    requires text != "" && IsSpace(text[0])
    ensures IsAboutPresent(text[1..]) <==> IsAboutPresent(text)
  {
    if IsAboutPresent(text) {
      var w, i: nat :| 0 <= w < |PRESENT_WORDS| && StandsAt(text, PRESENT_WORDS[w], i);
      BlankInFront(text, PRESENT_WORDS[w], if i > 0 then i - 1 else 0);
      assert StandsAt(text[1..], PRESENT_WORDS[w], i - 1);
    }
    if IsAboutPresent(text[1..]) {
      var w, i: nat :| 0 <= w < |PRESENT_WORDS| && StandsAt(text[1..], PRESENT_WORDS[w], i);
      BlankInFront(text, PRESENT_WORDS[w], i);
      assert StandsAt(text, PRESENT_WORDS[w], i + 1);
    }
  }

  lemma AboutPresentInFront(text: string)
    requires text != "" && IsSpace(text[|text| - 1])
    ensures IsAboutPresent(text[..|text| - 1]) <==> IsAboutPresent(text)
  {
    var front := text[..|text| - 1];
    if IsAboutPresent(text) {
      var w, i: nat :| 0 <= w < |PRESENT_WORDS| && StandsAt(text, PRESENT_WORDS[w], i);
      BlankBehind(text, PRESENT_WORDS[w], i);
      assert StandsAt(front, PRESENT_WORDS[w], i);
    }
    if IsAboutPresent(front) {
      var w, i: nat :| 0 <= w < |PRESENT_WORDS| && StandsAt(front, PRESENT_WORDS[w], i);
      BlankBehind(text, PRESENT_WORDS[w], i);
      assert StandsAt(text, PRESENT_WORDS[w], i);
    }
  }

  /** White space around a query does not matter to the search. */
  lemma {:induction false} AboutPresentStripped(text: string)
    ensures IsAboutPresent(Stripped(text)) <==> IsAboutPresent(text)
    decreases |text|
  {
    hide IsAboutPresent;
    if text != "" && IsSpace(text[0]) {
      AboutPresentStripped(text[1..]);
      AboutPresentInRest(text);
    } else if text != "" && IsSpace(text[|text| - 1]) {
      AboutPresentStripped(text[..|text| - 1]);
      AboutPresentInFront(text);
    }
  }

  /** Nor does case. */
  lemma AboutPresentLower(text: string)
    ensures IsAboutPresent(Lower(text)) <==> IsAboutPresent(text)
  {
    forall phrase, i: nat ensures StandsAt(Lower(text), phrase, i) <==> StandsAt(text, phrase, i) {
      LowerStands(text, phrase, i);
    }
    hide StandsAt, PRESENT_WORDS;
  }

  lemma LowerStands(text: string, phrase: string, i: nat)
    ensures StandsAt(Lower(text), phrase, i) <==> StandsAt(text, phrase, i)
  {
    if i + |phrase| <= |text| {
      assert Lower(Lower(text)[i..i + |phrase|]) == Lower(text[i..i + |phrase|]);
    }
  }

  /** Whether a query with single blanks is about the present can be read off its normalized text. */
  lemma SingleBlanksTell(query: string)
    requires SingleBlanked(query)
    ensures IsAboutPresent(query) <==> IsAboutPresent(NormalizedQuery(query))
  {
    NothingToCollapse(query);
    AboutPresentStripped(query);
    AboutPresentLower(Stripped(query));
  }

  ghost predicate FromSingleBlanks(f: Fingerprint, namespace: string) {
    exists query, constraints, unsafe ::
      SingleBlanked(query) && f == FingerprintOf(query, namespace, constraints, unsafe)
  }

  /** Of queries with single blanks in one namespace, those about the present always get answers of the last minute. */
  lemma SingleBlanksAnswerRecently(config: Config, similarity: Similarity, queries: set<Fingerprint>, namespace: string)
    requires config.hasExact && forall f :: f in queries ==> FromSingleBlanks(f, namespace)
    ensures KeysTell(queries) && AlwaysRecent(config, similarity, queries)
  {
    forall f, g | f in queries && g in queries && f.key == g.key ensures f.relative == g.relative {
      SingleBlanksKeysTell(f, g, namespace);
    }
    assert KeysTell(queries);
    assert forall f :: f in queries && f.relative ==> !f.eligible by {
      hide NormalizedQuery, SingleBlanked, IsAboutPresent;
    }
    RecentIffKeysTell(config, similarity, queries);
  }

  lemma SingleBlanksKeysTell(f: Fingerprint, g: Fingerprint, namespace: string)
    requires FromSingleBlanks(f, namespace) && FromSingleBlanks(g, namespace) && f.key == g.key
    ensures f.relative == g.relative
  {
    hide NormalizedQuery, SingleBlanked, IsAboutPresent;
    var a, c, u :| SingleBlanked(a) && f == FingerprintOf(a, namespace, c, u);
    var b, d, v :| SingleBlanked(b) && g == FingerprintOf(b, namespace, d, v);
    SingleBlanksTell(a);
    SingleBlanksTell(b);
    assert NormalizedQuery(a) == f.key[|namespace| + 1..];
    assert NormalizedQuery(b) == g.key[|namespace| + 1..];
  }
}
