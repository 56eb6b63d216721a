/**
  BayesStorage: the storage front end. Each entry point checks its
  arguments and then hands over to the backend; the in-memory store is the
  only backend in this model.
 */
module BayesStorage {
  import opened Optional
  import opened TokenCounts
  import opened BayesStorageMemory

  /**
    The store after a front-end add: a NULL class name, a NULL token or a
    count of 0 is rejected and leaves the store as it was; an accepted add
    puts the class among the names and adds `count` to the four counts it
    touches.
   */
  function Added(s: Store, className: Option<string>, token: Option<string>, count: nat): (r: Store)
    ensures className.None? || token.None? || count == 0 ==> r == s
    ensures className.Some? && token.Some? && count > 0 ==>
              && r.Names() == s.Names() + {className.value}
              && r.TokenCount(className, token) == s.TokenCount(className, token) + count
              && r.TokenCount(className, None) == s.TokenCount(className, None) + count
              && r.TokenCount(None, token) == s.TokenCount(None, token) + count
              && r.TokenCount(None, None) == s.TokenCount(None, None) + count
  {
    if className.None? || token.None? || count == 0 then s
    else s.Add(className.value, token.value, count)
  }

  /** Front-end adds keep the store's invariant and, since they never add 0, keep every class total positive. */
  lemma AddedValid(s: Store, className: Option<string>, token: Option<string>, count: nat)
    requires s.Consistent() && s.Positive()
    ensures Added(s, className, token, count).Consistent()
    ensures Added(s, className, token, count).Positive()
  {
    if className.Some? && token.Some? && count > 0 {
      AddConsistent(s, className.value, token.value, count);
      AddPositive(s, className.value, token.value, count);
    }
  }

  /** bayes_storage_add_token_count: guard the arguments, then add through the backend. */
  method AddTokenCount(storage: MemoryStorage, className: Option<string>, token: Option<string>, count: nat)
    requires storage.Valid()
    modifies storage
    ensures storage.Valid()
    ensures storage.Contents() == Added(old(storage.Contents()), className, token, count)
  {
    if className.None? || token.None? || count == 0 {
      return;
    }
    storage.AddTokenCount(className, token, count);
  }

  /** bayes_storage_add_token: an add of count 1. */
  method AddToken(storage: MemoryStorage, className: Option<string>, token: Option<string>)
    requires storage.Valid()
    modifies storage
    ensures storage.Valid()
    ensures storage.Contents() == Added(old(storage.Contents()), className, token, 1)
  {
    if className.None? || token.None? {
      return;
    }
    storage.AddTokenCount(className, token, 1);
  }

  /** bayes_storage_get_class_names: every class name of the store, each once. */
  method GetClassNames(storage: MemoryStorage) returns (names: seq<string>)
    ensures forall c :: c in names <==> c in storage.Contents().Names()
    ensures forall i, j :: 0 <= i < j < |names| ==> names[i] != names[j]
  {
    names := storage.GetNames();
  }

  /**
    bayes_storage_get_token_count: with both class name and token NULL the
    answer is 0 and the backend is not asked; otherwise the backend's count.
   */
  function GetTokenCount(storage: MemoryStorage, className: Option<string>, token: Option<string>): (r: nat)
    reads storage
    ensures className.None? && token.None? ==> r == 0
    ensures className.Some? || token.Some? ==> r == storage.Contents().TokenCount(className, token)
  {
    if className.None? && token.None? then 0
    else storage.GetTokenCount(className, token)
  }

  /**
    bayes_storage_get_token_probability: 0.0 for a NULL class name or token,
    otherwise the backend's probability, which lies between 0.0 and 1.0.
   */
  function GetTokenProbability(storage: MemoryStorage, className: Option<string>, token: Option<string>): (r: real)
    reads storage
    ensures 0.0 <= r <= 1.0
    ensures className.None? || token.None? ==> r == 0.0
    ensures className.Some? && token.Some? ==> r == storage.Contents().Probability(className, token)
  {
    if className.None? || token.None? then 0.0
    else storage.GetTokenProbability(className, token)
  }
}
