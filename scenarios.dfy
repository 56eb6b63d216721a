/**
  Scenarios: the library's own storage test, and a training run, stated
  over the stores the front end and the classifier produce.
 */
module Scenarios {
  import opened Optional
  import opened TokenCounts
  import opened BayesStorage
  import opened BayesClassifier

  /** The store of the memory-store test: "turbo", "brakes" and "suspension" added to "english". */
  function EnglishStore(): Store {
    Added(Added(Added(Empty, Some("english"), Some("turbo"), 1),
                Some("english"), Some("brakes"), 1),
          Some("english"), Some("suspension"), 1)
  }

  /** Each added token is counted once and an unseen one not at all. */
  lemma EnglishStoreCounts()
    ensures EnglishStore().TokenCount(Some("english"), Some("turbo")) == 1
    ensures EnglishStore().TokenCount(Some("english"), Some("brakes")) == 1
    ensures EnglishStore().TokenCount(Some("english"), Some("suspension")) == 1
    ensures EnglishStore().TokenCount(Some("english"), Some("cops")) == 0
  {
    var s1 := Added(Empty, Some("english"), Some("turbo"), 1);
    var s2 := Added(s1, Some("english"), Some("brakes"), 1);
    AddLeavesOthers(Empty, "english", "turbo", 1);
    AddLeavesOthers(s1, "english", "brakes", 1);
    AddLeavesOthers(s2, "english", "suspension", 1);
  }

  /** The store of the test is consistent. */
  lemma EnglishStoreValid()
    ensures EnglishStore().Consistent() && EnglishStore().Positive()
  {
    var s1 := Added(Empty, Some("english"), Some("turbo"), 1);
    var s2 := Added(s1, Some("english"), Some("brakes"), 1);
    EmptyConsistent();
    AddedValid(Empty, Some("english"), Some("turbo"), 1);
    AddedValid(s1, Some("english"), Some("brakes"), 1);
    AddedValid(s2, Some("english"), Some("suspension"), 1);
  }

  /** "turbo" occurs in one class only, so it has the strongest probability the clamp allows. */
  lemma EnglishStoreProbability()
    ensures EnglishStore().Probability(Some("english"), Some("turbo")) == 0.9999
  {
    EnglishStoreValid();
    EnglishStoreCounts();
    assert EnglishStore().TokenCount(None, Some("turbo")) == 1;
    ExclusiveTokenProbability(EnglishStore(), "english", "turbo");
  }

  /** A text split into "cars", "go", "cars" counts "cars" twice and three tokens in all. */
  lemma TrainCarsText()
    ensures AfterTrain(Empty, Some("english"), Some(["cars", "go", "cars"])).TokenCount(Some("english"), Some("cars")) == 2
    ensures AfterTrain(Empty, Some("english"), Some(["cars", "go", "cars"])).TokenCount(Some("english"), None) == 3
    ensures AfterTrain(Empty, Some("english"), Some(["cars", "go", "cars"])).TokenCount(None, Some("go")) == 1
  {
    EmptyConsistent();
    TrainedCounts(Empty, "english", ["cars", "go", "cars"], "cars");
    TrainedCounts(Empty, "english", ["cars", "go", "cars"], "go");
    assert multiset(["cars", "go", "cars"])["cars"] == 2;
    assert multiset(["cars", "go", "cars"])["go"] == 1;
  }
}
