/**
  BayesStorageMemory: the in-memory backend of the token store. The store
  object holds a table from class name to that class's token record and one
  corpus record; its methods replace entries of the table and the corpus
  record in place.
 */
module BayesStorageMemory {
  import opened Optional
  import opened TokenCounts

  class MemoryStorage {
    /** Class name to that class's token record. */
    var names: map<string, Counts>
    /** The record of every token added, whatever its class. */
    var corpus: Counts

    /** The counts held by the store, as a value. */
    function Contents(): Store
      reads this
    {
      Store(names, corpus)
    }

    /** Every total is the sum of its table and the corpus is the sum of the classes. */
    ghost predicate Valid()
      reads this
    {
      Contents().Consistent()
    }

    /** bayes_storage_memory_init: no class records and an empty corpus record. */
    constructor ()
      ensures Valid()
      ensures Contents() == Empty
    {
      names := map[];
      corpus := EmptyCounts;
      new;
      EmptyConsistent();
    }

    /**
      add_token_count of the memory backend: a NULL class name or token is
      rejected; otherwise the class record is looked up or created and then
      both it and the corpus record get tokens_inc. A count of 0 is not
      rejected here: it still creates the class record and the token's entry.
     */
    method AddTokenCount(name: Option<string>, token: Option<string>, count: nat)
      requires Valid()
      modifies this
      ensures Valid()
      ensures Contents() == if name.None? || token.None? then old(Contents())
                            else old(Contents()).Add(name.value, token.value, count)
    {
      if name.None? || token.None? {
        return;
      }
      AddConsistent(Contents(), name.value, token.value, count);
      var tokens := if name.value in names then names[name.value] else EmptyCounts;
      names := names[name.value := tokens.Inc(token.value, count)];
      corpus := corpus.Inc(token.value, count);
    }

    /**
      get_token_count of the memory backend: a NULL class name selects the
      corpus record; with a record, a NULL token gives its total and a token
      its count, and anything not found gives 0.
     */
    function GetTokenCount(name: Option<string>, token: Option<string>): (r: nat)
      reads this
      ensures r == Contents().TokenCount(name, token)
    {
      var tokens: Option<Counts> := if name.None? then Some(corpus)
                                    else if name.value in names then Some(names[name.value]) else None;
      if tokens.None? then 0
      else if token.None? then tokens.value.count
      else if token.value in tokens.value.tokens then tokens.value.tokens[token.value]
      else 0
    }

    /**
      get_token_probability of the memory backend: 0.0 for a NULL argument or
      a class without a record, else the formula over the class total, the
      corpus total and the token's class and corpus counts.
     */
    function GetTokenProbability(name: Option<string>, token: Option<string>): (r: real)
      reads this
      ensures r == Contents().Probability(name, token)
    {
      if name.None? || token.None? || name.value !in names then 0.0
      else TokenProbability(names[name.value].count, corpus.count,
                            GetTokenCount(name, token), GetTokenCount(None, token))
    }

    /** get_names: walk the class-name table and collect every key once. */
    method GetNames() returns (result: seq<string>)
      ensures forall c :: c in result <==> c in Contents().Names()
      ensures forall i, j :: 0 <= i < j < |result| ==> result[i] != result[j]
    {
      result := [];
      var rest := names.Keys;
      while rest != {}
        invariant rest <= names.Keys
        invariant forall c :: c in result <==> c in names.Keys - rest
        invariant forall i, j :: 0 <= i < j < |result| ==> result[i] != result[j]
        decreases rest
      {
        var c :| c in rest;
        assert c !in result;
        result := result + [c];
        rest := rest - {c};
      }
    }
  }
}
