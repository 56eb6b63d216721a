/**
  BayesClassifier: a classifier holds a token store and a tokenizer.
  Training splits a text into tokens and adds each one, once, under the
  given class; guessing is not implemented by the library and yields no
  guesses.
 */
module BayesClassifier {
  import opened Optional
  import opened TokenCounts
  import opened BayesStorageMemory
  import BayesStorage
  import BayesGuess

  /**
    A tokenizer splits a text into tokens, or fails and gives NULL. The C
    tokenizer also receives the classifier and a user-data pointer; neither
    is modelled, so both are folded into the function.
   */
  type Tokenizer = string -> Option<seq<string>>

  /** The store after adding every token of `tokens`, in order, once each, under `className`. */
  function Trained(s: Store, className: string, tokens: seq<string>): Store
    decreases |tokens|
  {
    if tokens == [] then s
    else Trained(s, className, tokens[..|tokens| - 1]).Add(className, tokens[|tokens| - 1], 1)
  }

  /** The store after a train call: nothing for a NULL class name or a NULL token array. */
  function AfterTrain(s: Store, className: Option<string>, tokens: Option<seq<string>>): Store {
    if className.None? || tokens.None? then s else Trained(s, className.value, tokens.value)
  }

  /**
    Training raises the class's count and the corpus count of each token by
    the number of times it occurs, and both totals by the number of tokens.
   */
  lemma {:induction false} TrainedCounts(s: Store, className: string, tokens: seq<string>, token: string)
    ensures Trained(s, className, tokens).TokenCount(Some(className), Some(token))
            == s.TokenCount(Some(className), Some(token)) + multiset(tokens)[token]
    ensures Trained(s, className, tokens).TokenCount(None, Some(token))
            == s.TokenCount(None, Some(token)) + multiset(tokens)[token]
    ensures Trained(s, className, tokens).TokenCount(Some(className), None)
            == s.TokenCount(Some(className), None) + |tokens|
    ensures Trained(s, className, tokens).TokenCount(None, None) == s.TokenCount(None, None) + |tokens|
    decreases |tokens|
  {
    if tokens != [] {
      var init, last := tokens[..|tokens| - 1], tokens[|tokens| - 1];
      assert tokens == init + [last];
      assert multiset(tokens) == multiset(init) + multiset{last};
      TrainedCounts(s, className, init, token);
      var r := Trained(s, className, init);
      var t := r.Add(className, last, 1);
      assert t.TokenCount(Some(className), Some(token)) == r.TokenCount(Some(className), Some(token)) + (if token == last then 1 else 0) by {
        if token != last { AddLeavesOthers(r, className, last, 1); }
      }
      assert t.TokenCount(None, Some(token)) == r.TokenCount(None, Some(token)) + (if token == last then 1 else 0) by {
        if token != last { AddLeavesOthers(r, className, last, 1); }
      }
    }
  }

  /** Training one class leaves every other class's counts and totals as they were. */
  lemma {:induction false} TrainedLeavesOthers(s: Store, className: string, tokens: seq<string>, other: string, token: Option<string>)
    requires other != className
    ensures Trained(s, className, tokens).TokenCount(Some(other), token) == s.TokenCount(Some(other), token)
    decreases |tokens|
  {
    if tokens != [] {
      var init := tokens[..|tokens| - 1];
      TrainedLeavesOthers(s, className, init, other, token);
      AddLeavesOthers(Trained(s, className, init), className, tokens[|tokens| - 1], 1);
    }
  }

  /** Training adds the class to the names as soon as there is one token, and no other name. */
  lemma {:induction false} TrainedNames(s: Store, className: string, tokens: seq<string>)
    ensures Trained(s, className, tokens).Names() == if tokens == [] then s.Names() else s.Names() + {className}
    decreases |tokens|
  {
    if tokens != [] {
      TrainedNames(s, className, tokens[..|tokens| - 1]);
    }
  }

  /** Training on two token sequences in turn is training on their concatenation. */
  lemma {:induction false} TrainedAppend(s: Store, className: string, first: seq<string>, second: seq<string>)
    ensures Trained(Trained(s, className, first), className, second) == Trained(s, className, first + second)
    decreases |second|
  {
    if second == [] {
      assert first + second == first;
    } else {
      var init := second[..|second| - 1];
      TrainedAppend(s, className, first, init);
      LastOfAppend(first, second);
    }
  }

  /** Training on one more token of a sequence is one more add. */
  lemma TrainedStep(s: Store, className: string, tokens: seq<string>, i: nat)
    requires i < |tokens|
    ensures Trained(s, className, tokens[..i + 1]) == Trained(s, className, tokens[..i]).Add(className, tokens[i], 1)
  {
    assert tokens[..i + 1][..i] == tokens[..i];
  }

  /** Dropping the last element of `first + second` drops the last element of `second`. */
  lemma LastOfAppend(first: seq<string>, second: seq<string>)
    requires second != []
    ensures (first + second)[..|first + second| - 1] == first + second[..|second| - 1]
    ensures (first + second)[|first + second| - 1] == second[|second| - 1]
  {
  }

  /** Training keeps the store's invariant, and every class total positive. */
  lemma {:induction false} TrainedValid(s: Store, className: string, tokens: seq<string>)
    requires s.Consistent() && s.Positive()
    ensures Trained(s, className, tokens).Consistent() && Trained(s, className, tokens).Positive()
    decreases |tokens|
  {
    if tokens != [] {
      var init := tokens[..|tokens| - 1];
      TrainedValid(s, className, init);
      AddConsistent(Trained(s, className, init), className, tokens[|tokens| - 1], 1);
      AddPositive(Trained(s, className, init), className, tokens[|tokens| - 1], 1);
    }
  }

  /** Two identical train calls add twice what one adds. */
  lemma TrainTwice(s: Store, className: Option<string>, tokens: Option<seq<string>>, token: string)
    requires className.Some? && tokens.Some?
    ensures AfterTrain(AfterTrain(s, className, tokens), className, tokens) == AfterTrain(s, className, Some(tokens.value + tokens.value))
    ensures AfterTrain(AfterTrain(s, className, tokens), className, tokens).TokenCount(className, Some(token))
            == s.TokenCount(className, Some(token)) + 2 * multiset(tokens.value)[token]
    ensures AfterTrain(AfterTrain(s, className, tokens), className, tokens).TokenCount(className, None)
            == s.TokenCount(className, None) + 2 * |tokens.value|
  {
    TrainedAppend(s, className.value, tokens.value, tokens.value);
    TrainedCounts(s, className.value, tokens.value + tokens.value, token);
  }

  class Classifier {
    /** Where trained tokens are counted. */
    var storage: MemoryStorage
    /** How texts are split into tokens. */
    var tokenizer: Tokenizer

    ghost predicate Valid()
      reads this, storage
    {
      storage.Valid()
    }

    /**
      bayes_classifier_init: the word tokenizer (here a parameter) and a
      fresh, empty in-memory store.
     */
    constructor (wordTokenizer: Tokenizer)
      ensures Valid() && fresh(storage)
      ensures storage.Contents() == Empty && tokenizer == wordTokenizer
    {
      tokenizer := wordTokenizer;
      storage := new MemoryStorage();
    }

    /** bayes_classifier_tokenize: NULL for a NULL text, else the tokenizer's answer. */
    function Tokenize(text: Option<string>): (r: Option<seq<string>>)
      reads this
      ensures text.None? ==> r.None?
      ensures text.Some? ==> r == tokenizer(text.value)
    {
      if text.None? then None else tokenizer(text.value)
    }

    /**
      bayes_classifier_train: a NULL class name or text is rejected;
      otherwise each token of the text is added once under the class.
     */
    method Train(className: Option<string>, text: Option<string>)
      requires Valid()
      modifies storage
      ensures Valid()
      ensures storage.Contents() == AfterTrain(old(storage.Contents()), className, Tokenize(text))
    {
      if className.None? || text.None? {
        return;
      }
      var tokens := Tokenize(text);
      if tokens.Some? {
        var ts := tokens.value;
        ghost var before := storage.Contents();
        var i := 0;
        while i < |ts|
          invariant 0 <= i <= |ts|
          invariant storage.Valid()
          invariant storage.Contents() == Trained(before, className.value, ts[..i])
        {
          BayesStorage.AddToken(storage, className, Some(ts[i]));
          TrainedStep(before, className.value, ts, i);
          i := i + 1;
        }
        assert ts[..|ts|] == ts;
      }
    }

    /** bayes_classifier_guess: the text is tokenized, but no guess is ever made. */
    method Guess(text: Option<string>) returns (guesses: seq<BayesGuess.Guess>)
      ensures guesses == []
    {
      var tokens := Tokenize(text);
      guesses := [];
    }

    /** bayes_classifier_get_storage: the store in use. */
    function GetStorage(): (r: MemoryStorage)
      reads this
      ensures r == storage
    {
      storage
    }

    /**
      bayes_classifier_set_storage: install the given store, or a fresh
      empty in-memory store for NULL; the tokenizer is kept.
     */
    method SetStorage(newStorage: MemoryStorage?)
      requires newStorage != null ==> newStorage.Valid()
      modifies this
      ensures Valid() && tokenizer == old(tokenizer)
      ensures newStorage != null ==> storage == newStorage
      ensures newStorage == null ==> fresh(storage) && storage.Contents() == Empty
    {
      if newStorage == null {
        storage := new MemoryStorage();
      } else {
        storage := newStorage;
      }
    }

    /** bayes_classifier_set_tokenizer: a NULL tokenizer is rejected; the store is kept. */
    method SetTokenizer(newTokenizer: Option<Tokenizer>)
      requires Valid()
      modifies this
      ensures Valid() && storage == old(storage)
      ensures tokenizer == if newTokenizer.None? then old(tokenizer) else newTokenizer.value
    {
      if newTokenizer.Some? {
        tokenizer := newTokenizer.value;
      }
    }
  }
}
