/**
  The values held by the in-memory store of bayes-glib, without the heap:
  one `Counts` per `Tokens` record (a token-to-count table and its running
  total) and a `Store` for the whole backend (one record per class name and
  the distinguished corpus record). The probability formula of the memory
  backend is stated here over exact rationals.
 */
module TokenCounts {
  import opened Optional
  import opened Sums

  /** The contents of one `Tokens` record. */
  datatype Counts = Counts(tokens: map<string, nat>, count: nat) {

    /**
      The lookup that ends get_token_count once a record is found: the
      running total for a NULL token, else the token's count or 0.
     */
    function Get(token: Option<string>): (r: nat)
      ensures token.Some? && token.value !in tokens ==> r == 0
      ensures token.None? ==> r == count
    {
      match token
      case None => count
      case Some(t) => if t in tokens then tokens[t] else 0
    }

    /** The count of each token, as a weight function for sums. */
    function PerToken(): string -> nat {
      t => Get(Some(t))
    }

    /** What tokens_inc does: the token's entry (created at 0) and the total both rise by n. */
    function Inc(token: string, n: nat): (r: Counts)
      ensures r.Get(Some(token)) == Get(Some(token)) + n
      ensures r.Get(None) == Get(None) + n
      ensures r.tokens.Keys == tokens.Keys + {token}
    {
      Counts(tokens[token := Get(Some(token)) + n], count + n)
    }

    /** The running total is the sum of the table. */
    ghost predicate Balanced() {
      count == SumSet(tokens.Keys, PerToken())
    }
  }

  /** tokens_inc leaves the other tokens' counts alone. */
  lemma IncLeavesOthers(r: Counts, token: string, n: nat)
    ensures forall t :: t != token ==> r.Inc(token, n).Get(Some(t)) == r.Get(Some(t))
  {
  }

  /** A freshly allocated `Tokens` record. */
  const EmptyCounts := Counts(map[], 0)

  lemma IncBalanced(r: Counts, token: string, n: nat)
    requires r.Balanced()
    ensures r.Inc(token, n).Balanced()
  {
    var r' := r.Inc(token, n);
    IncLeavesOthers(r, token, n);
    assert forall t :: t != token ==> r'.PerToken()(t) == r.PerToken()(t);
    if token in r.tokens {
      assert r'.tokens.Keys == r.tokens.Keys;
      SumSetBump(r.tokens.Keys, r.PerToken(), r'.PerToken(), token, n);
    } else {
      SumSetExt(r.tokens.Keys, r.PerToken(), r'.PerToken());
      SumSetInsert(r.tokens.Keys, r'.PerToken(), token);
    }
  }

  /** No single token was counted more often than the record's total. */
  lemma TokenBelowTotal(r: Counts, token: string)
    requires r.Balanced()
    ensures r.Get(Some(token)) <= r.Get(None)
  {
    if token in r.tokens {
      SumSetAtLeast(r.tokens.Keys, r.PerToken(), token);
    }
  }

  /** The whole memory store: the class records by name, and the corpus record. */
  datatype Store = Store(classes: map<string, Counts>, corpus: Counts) {

    /** The class names with a record. */
    function Names(): set<string> {
      classes.Keys
    }

    /**
      get_token_count of the memory backend: a NULL class name selects the
      corpus record; an unknown class name has no record and gives 0.
     */
    function TokenCount(name: Option<string>, token: Option<string>): (r: nat)
      ensures name.Some? && name.value !in classes ==> r == 0
      ensures name.None? ==> r == corpus.Get(token)
    {
      match name
      case None => corpus.Get(token)
      case Some(c) => if c in classes then classes[c].Get(token) else 0
    }

    /** The count of `token` (or the total, for None) in each class, as a weight function. */
    function PerClass(token: Option<string>): string -> nat {
      c => TokenCount(Some(c), token)
    }

    /**
      add_token_count of the memory backend on non-NULL arguments: the class
      record is created on first use, then both it and the corpus record get
      tokens_inc.
     */
    function Add(name: string, token: string, n: nat): (r: Store)
      ensures r.Names() == Names() + {name}
      ensures r.TokenCount(Some(name), Some(token)) == TokenCount(Some(name), Some(token)) + n
      ensures r.TokenCount(Some(name), None) == TokenCount(Some(name), None) + n
      ensures r.TokenCount(None, Some(token)) == TokenCount(None, Some(token)) + n
      ensures r.TokenCount(None, None) == TokenCount(None, None) + n
    {
      var record := if name in classes then classes[name] else EmptyCounts;
      Store(classes[name := record.Inc(token, n)], corpus.Inc(token, n))
    }

    /**
      get_token_probability of the memory backend: 0.0 for a NULL argument or
      a class without a record, else the formula over the four counts.
     */
    function Probability(name: Option<string>, token: Option<string>): (r: real)
      ensures r == 0.0 || 0.0001 <= r <= 0.9999
      ensures name.Some? && name.value !in Names() ==> r == 0.0
    {
      if name.None? || token.None? || name.value !in classes then 0.0
      else TokenProbability(TokenCount(name, None), TokenCount(None, None),
                            TokenCount(name, token), TokenCount(None, token))
    }

    /**
      The invariant of the store: every total is the sum of its table, and the
      corpus record (its total and each token's count) is the sum of the class records.
     */
    ghost predicate Consistent() {
      && corpus.Balanced()
      && (forall c :: ClassIsBalanced(c))
      && (forall token :: CorpusIsSum(token))
    }

    /** The class `c`, if present, has a total that is the sum of its table. */
    ghost predicate ClassIsBalanced(c: string) {
      c in classes ==> classes[c].Balanced()
    }

    /** The corpus count of `token` (its total, for None) is the sum over the classes. */
    ghost predicate CorpusIsSum(token: Option<string>) {
      TokenCount(None, token) == SumSet(Names(), PerClass(token))
    }

    /** Every class has a positive total: classes only appear through adds of at least one token. */
    ghost predicate Positive() {
      forall c :: c in classes ==> classes[c].count > 0
    }
  }

  /** A freshly initialised memory store. */
  const Empty := Store(map[], EmptyCounts)

  lemma EmptyConsistent()
    ensures Empty.Consistent() && Empty.Positive() && Empty.Names() == {}
    ensures forall name, token :: Empty.TokenCount(name, token) == 0
  {
  }

  /** An add changes no other class and, in the touched records, no other token. */
  lemma AddLeavesOthers(s: Store, name: string, token: string, n: nat)
    ensures forall c, tok :: c != name ==> s.Add(name, token, n).TokenCount(Some(c), tok) == s.TokenCount(Some(c), tok)
    ensures forall c :: c != name ==> (c in s.Add(name, token, n).classes <==> c in s.classes)
    ensures forall t :: t != token ==>
              && s.Add(name, token, n).TokenCount(Some(name), Some(t)) == s.TokenCount(Some(name), Some(t))
              && s.Add(name, token, n).TokenCount(None, Some(t)) == s.TokenCount(None, Some(t))
  {
  }

  /** Every add keeps the store's invariant. */
  lemma AddConsistent(s: Store, name: string, token: string, n: nat)
    requires s.Consistent()
    ensures s.Add(name, token, n).Consistent()
  {
    var r := s.Add(name, token, n);
    IncBalanced(s.corpus, token, n);
    forall c
      ensures r.ClassIsBalanced(c)
    {
      assert s.ClassIsBalanced(c) && s.ClassIsBalanced(name);
      AddKeepsBalanced(s, name, token, n, c);
    }
    forall tok
      ensures r.CorpusIsSum(tok)
    {
      assert s.CorpusIsSum(tok);
      AddKeepsSum(s, name, token, n, tok);
    }
  }

  /** One class's share of AddConsistent: its total stays the sum of its table. */
  lemma AddKeepsBalanced(s: Store, name: string, token: string, n: nat, c: string)
    requires s.ClassIsBalanced(c) && s.ClassIsBalanced(name)
    ensures s.Add(name, token, n).ClassIsBalanced(c)
  {
    var r := s.Add(name, token, n);
    if c == name {
      var record := if name in s.classes then s.classes[name] else EmptyCounts;
      IncBalanced(record, token, n);
      assert r.classes[c] == record.Inc(token, n);
    } else if c in r.classes {
      assert r.classes[c] == s.classes[c];
    }
  }

  /** One query's share of AddConsistent: the corpus stays the sum of the classes. */
  lemma AddKeepsSum(s: Store, name: string, token: string, n: nat, tok: Option<string>)
    requires s.CorpusIsSum(tok)
    ensures s.Add(name, token, n).CorpusIsSum(tok)
  {
    var r := s.Add(name, token, n);
    var d: nat := if tok.None? || tok == Some(token) then n else 0;
    var f, g := s.PerClass(tok), r.PerClass(tok);
    AddShift(s, name, token, n, tok);
    assert g(name) == f(name) + d;
    AddLeavesOthers(s, name, token, n);
    assert forall c :: c != name ==> g(c) == f(c);
    if name in s.classes {
      assert r.Names() == s.Names();
      SumSetBump(s.Names(), f, g, name, d);
    } else {
      SumSetExt(s.Names(), f, g);
      SumSetInsert(s.Names(), g, name);
    }
  }

  /** An add raises the class's and the corpus's answer to one query by the same amount. */
  lemma AddShift(s: Store, name: string, token: string, n: nat, tok: Option<string>)
    ensures var d := if tok.None? || tok == Some(token) then n else 0;
            && s.Add(name, token, n).TokenCount(None, tok) == s.TokenCount(None, tok) + d
            && s.Add(name, token, n).TokenCount(Some(name), tok) == s.TokenCount(Some(name), tok) + d
  {
    AddLeavesOthers(s, name, token, n);
  }

  /** An add of at least one token keeps every class total positive. */
  lemma AddPositive(s: Store, name: string, token: string, n: nat)
    requires s.Positive() && n > 0
    ensures s.Add(name, token, n).Positive()
  {
  }

  /** A class never holds more of anything than the corpus. */
  lemma ClassBelowCorpus(s: Store, name: string, token: Option<string>)
    requires s.Consistent()
    ensures s.TokenCount(Some(name), token) <= s.TokenCount(None, token)
  {
    if name in s.classes {
      assert s.CorpusIsSum(token);
      SumSetAtLeast(s.Names(), s.PerClass(token), name);
    }
  }

  function Min(a: real, b: real): real { if a < b then a else b }
  function Max(a: real, b: real): real { if a > b then a else b }
  function Abs(x: real): real { if x < 0.0 then -x else x }

  /** good_metric: how often the token was seen outside the class, per token of the class. */
  function GoodMetric(poolCount: nat, thisCount: nat, totCount: nat): (r: real)
    ensures r <= 1.0
    ensures poolCount == 0 ==> r == 1.0
  {
    if poolCount == 0 then 1.0
    else Min(1.0, (totCount as real - thisCount as real) / poolCount as real)
  }

  /** bad_metric: how often the token was seen in the class, per token outside it (at least 1). */
  function BadMetric(poolCount: nat, corpusCount: nat, thisCount: nat): (r: real)
    ensures 0.0 <= r <= 1.0
    ensures thisCount == 0 ==> r == 0.0
  {
    var them := Max(corpusCount as real - poolCount as real, 1.0);
    assert thisCount as real / them >= 0.0;
    Min(1.0, thisCount as real / them)
  }

  /**
    The formula of get_token_probability. poolCount is the class total,
    corpusCount the corpus total, thisCount the token's count in the class and
    totCount its count in the corpus. The C code divides doubles: where both
    metrics are 0 it computes 0/0, a NaN that fails the 0.1 test and yields
    0.0; where the denominator is 0 with a positive numerator (impossible for
    consistent counts) it computes +infinity, clamped to 0.9999.
   */
  function TokenProbability(poolCount: nat, corpusCount: nat, thisCount: nat, totCount: nat): (r: real)
    ensures r == 0.0 || 0.0001 <= r <= 0.9999
  {
    var good := GoodMetric(poolCount, thisCount, totCount);
    var bad := BadMetric(poolCount, corpusCount, thisCount);
    if good + bad == 0.0 then
      (if bad == 0.0 then 0.0 else 0.9999)
    else
      var f := bad / (good + bad);
      if Abs(f - 0.5) >= 0.1 then Max(0.0001, Min(0.9999, f)) else 0.0
  }

  /**
    With consistent counts (a class never holds more of a token than the
    corpus) both metrics lie in [0, 1]; the result is 0.0 exactly when the
    metrics are both 0 (the NaN case) or f is within 0.1 of 0.5, and is
    otherwise f clamped into [0.0001, 0.9999], with f itself in [0, 1].
   */
  lemma TokenProbabilityShape(poolCount: nat, corpusCount: nat, thisCount: nat, totCount: nat)
    requires thisCount <= totCount
    ensures var good := GoodMetric(poolCount, thisCount, totCount);
            var bad := BadMetric(poolCount, corpusCount, thisCount);
            var r := TokenProbability(poolCount, corpusCount, thisCount, totCount);
            && 0.0 <= good <= 1.0 && 0.0 <= bad <= 1.0
            && (r == 0.0 <==> good + bad == 0.0 || Abs(bad / (good + bad) - 0.5) < 0.1)
            && (good + bad != 0.0 ==> 0.0 <= bad / (good + bad) <= 1.0)
            && (r != 0.0 ==> r == Max(0.0001, Min(0.9999, bad / (good + bad))))
  {
    var good := GoodMetric(poolCount, thisCount, totCount);
    var bad := BadMetric(poolCount, corpusCount, thisCount);
    MetricsInRange(poolCount, corpusCount, thisCount, totCount);
    if good + bad != 0.0 {
      FractionInUnit(good, bad);
    }
  }

  /** The share of `bad` in `good + bad` lies in [0, 1] when both are non-negative. */
  lemma FractionInUnit(good: real, bad: real)
    requires 0.0 <= good && 0.0 <= bad && good + bad != 0.0
    ensures 0.0 <= bad / (good + bad) <= 1.0
  {
    var d := good + bad;
    assert bad / d >= 0.0;
    assert good / d >= 0.0;
    assert bad / d + good / d == d / d == 1.0;
  }

  lemma MetricsInRange(poolCount: nat, corpusCount: nat, thisCount: nat, totCount: nat)
    requires thisCount <= totCount
    ensures 0.0 <= GoodMetric(poolCount, thisCount, totCount) <= 1.0
    ensures 0.0 <= BadMetric(poolCount, corpusCount, thisCount) <= 1.0
  {
    var them := Max(corpusCount as real - poolCount as real, 1.0);
    assert thisCount as real / them >= 0.0;
    if poolCount > 0 {
      assert (totCount as real - thisCount as real) / poolCount as real >= 0.0;
    }
  }

  /** A token seen nowhere has no evidence in a class that holds tokens: 0/0 gives 0.0. */
  lemma UnseenTokenProbability(s: Store, name: string, token: string)
    requires s.Consistent() && name in s.Names() && s.TokenCount(Some(name), None) > 0
    requires s.TokenCount(None, Some(token)) == 0
    ensures s.Probability(Some(name), Some(token)) == 0.0
  {
    ClassBelowCorpus(s, name, Some(token));
  }

  /**
    In a class whose total is 0 (reachable only through a backend add of
    count 0) a token seen nowhere gets 0.0001, not 0.0: goodMetric is then 1
    and f is 0.
   */
  lemma UnseenTokenInEmptyClass(s: Store, name: string, token: string)
    requires s.Consistent() && name in s.Names() && s.TokenCount(Some(name), None) == 0
    requires s.TokenCount(None, Some(token)) == 0
    ensures s.Probability(Some(name), Some(token)) == 0.0001
  {
    ClassBelowCorpus(s, name, Some(token));
  }

  /** A token seen only in this class is as strong as the clamp allows. */
  lemma ExclusiveTokenProbability(s: Store, name: string, token: string)
    requires s.Consistent() && name in s.Names()
    requires 0 < s.TokenCount(Some(name), Some(token)) == s.TokenCount(None, Some(token))
    ensures s.Probability(Some(name), Some(token)) == 0.9999
  {
    assert s.ClassIsBalanced(name);
    TokenBelowTotal(s.classes[name], token);
    ExclusiveFormula(s.TokenCount(Some(name), None), s.TokenCount(None, None), s.TokenCount(Some(name), Some(token)));
  }

  lemma ExclusiveFormula(poolCount: nat, corpusCount: nat, thisCount: nat)
    requires 0 < thisCount <= poolCount
    ensures TokenProbability(poolCount, corpusCount, thisCount, thisCount) == 0.9999
  {
    var them := Max(corpusCount as real - poolCount as real, 1.0);
    assert thisCount as real / them > 0.0;
    assert GoodMetric(poolCount, thisCount, thisCount) == 0.0;
    var bad := BadMetric(poolCount, corpusCount, thisCount);
    assert bad > 0.0 && bad / (0.0 + bad) == 1.0;
  }

  /** A token seen only outside a class that holds tokens is as weak as the clamp allows. */
  lemma ForeignTokenProbability(s: Store, name: string, token: string)
    requires s.Consistent() && name in s.Names() && s.TokenCount(Some(name), None) > 0
    requires s.TokenCount(Some(name), Some(token)) == 0 < s.TokenCount(None, Some(token))
    ensures s.Probability(Some(name), Some(token)) == 0.0001
  {
    ForeignFormula(s.TokenCount(Some(name), None), s.TokenCount(None, None), s.TokenCount(None, Some(token)));
  }

  lemma ForeignFormula(poolCount: nat, corpusCount: nat, totCount: nat)
    requires 0 < poolCount && 0 < totCount
    ensures TokenProbability(poolCount, corpusCount, 0, totCount) == 0.0001
  {
    assert totCount as real / poolCount as real > 0.0;
    assert BadMetric(poolCount, corpusCount, 0) == 0.0;
  }
}
