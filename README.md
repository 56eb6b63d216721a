# bayes-glib token store and classifier, modelled in Dafny

bayes-glib is a small GLib library for Bayesian text classification. Texts
are split into tokens. Training counts each token under a class name in a
token store. The store answers count queries and gives a per-token
probability for a class.

This project models:
- the in-memory store (`bayes-storage-memory.c`): one `Tokens` record per
  class plus a corpus record, `tokens_inc`, add, the three count queries, the
  probability formula and listing the class names;
- the storage front end (`bayes-storage.c`): argument guards, then handing over
  to the backend;
- the classifier (`bayes-classifier.c`): tokenize, train, the guess stub, and
  storage and tokenizer setters;
- the guess value (`bayes-guess.c`).

Files and modules:
- `optional.dfy`, module `Optional`: `Option`, standing for a pointer that may be NULL.
- `sums.dfy`, module `Sums`: sums of a weight function over a finite set, with
  the lemmas the store invariant needs.
- `token_counts.dfy`, module `TokenCounts`: the values the store holds.
  - `Counts` is one `Tokens` record.
  - `Store` is the whole backend.
  - Also here: the add and query operations on values, the store invariant
    and the probability formula.
- `storage_memory.dfy`, module `BayesStorageMemory`: class `MemoryStorage`.
  Its fields are the class table and the corpus record, and its methods
  update them in place.
- `storage.dfy`, module `BayesStorage`: the guarded front end over a `MemoryStorage`.
- `guess.dfy`, module `BayesGuess`: the immutable (name, probability) pair. Its
  type `Guess` only admits probabilities in [0, 1].
- `classifier.dfy`, module `BayesClassifier`: train as a fold over the token
  sequence, and class `Classifier` with its store and tokenizer fields.
- `scenarios.dfy`, module `Scenarios`: the library's storage test and a
  training run, stated over the resulting stores.

How C types are modelled:
- A NULL `const gchar *` is `None`.
- `guint` is `nat`.
- `gdouble` arithmetic is exact `real` arithmetic.
- Case 1 in the C formula is 0/0: both metrics are 0, `f` is a NaN, and that
  NaN fails the `>= 0.1` test. The model writes this case out and returns 0.0.
- Case 2 is x/0 with x > 0. It needs a class that holds more of a token than
  the corpus, which the invariant rules out. C gets +infinity there, and the
  clamp turns that into 0.9999. The model writes out this case as well.

The memory backend's probability reads the token's class count and its corpus
count through the front end's `bayes_storage_get_token_count`
(`bayes-storage-memory.c:188-189`). The second read passes a NULL class name,
but the token is never NULL there (line 178). So the front-end guard always
passes, and the model reads the two counts straight from the store.

The store invariant `Store.Consistent` has three parts:
- every record's total is the sum of its token table;
- the corpus total is the sum of the class totals;
- each token's corpus count is the sum of its class counts.

Every add keeps it. The front end never adds a count of 0, so every class it
creates has a positive total (`Store.Positive`).

Where the code and the library's documentation disagree, the model follows the code:
- Empty class names, tokens and texts are not rejected anywhere in the code.
- A count query with both class and token NULL returns 0 after logging a
  critical warning, and the backend is not asked. This is `bayes-storage.c:104`.
- `bayes_classifier_guess` contains no combiner and no ranking. It always
  returns an empty list.
- Swapping the store gives an empty store only when NULL is passed. A store
  that is passed in keeps its counts.
- The memory backend registers its name listing as `get_names`
  (`bayes-storage-memory.c:270`). The interface field is `get_class_names`
  (`bayes-storage.h:43`). Both are modelled as the same operation.

## Model

| member | source | states |
|---|---|---|
| TokenCounts.Counts.Get | bayes-glib/bayes-storage-memory.c:148-153 | the lookup in a found record: the total for a NULL token, the token's count, or 0 for a token not in the table |
| TokenCounts.Store.TokenCount | bayes-glib/bayes-storage-memory.c:146-156 | get_token_count of the backend: a NULL class selects the corpus record, an unknown class gives 0, and a found record answers with its lookup |
| TokenCounts.Store.Consistent | bayes-glib/bayes-storage-memory.c:98-99 | the store invariant: each record's total is the sum of its table, and the corpus total and each corpus token count are the sums over the class records |
| TokenCounts.GoodMetric | bayes-glib/bayes-storage-memory.c:190-191 | good_metric: 1.0 for a class with no tokens, else the token's count outside the class per class token, capped at 1.0 |
| TokenCounts.BadMetric | bayes-glib/bayes-storage-memory.c:187-192 | bad_metric: the token's class count per token outside the class (at least 1), capped at 1.0; it lies in [0, 1] and is 0 when the class holds none of the token |
| TokenCounts.Counts.Inc | bayes-glib/bayes-storage-memory.c:80-100 | tokens_inc adds n to the token's count (a missing entry starts at 0) and n to the record total; the token joins the table's keys and no other key changes |
| TokenCounts.IncLeavesOthers | bayes-glib/bayes-storage-memory.c:89-99 | tokens_inc leaves every other token's count as it was |
| TokenCounts.IncBalanced | bayes-glib/bayes-storage-memory.c:98-99 | if a record's total is the sum of its table before tokens_inc, it still is afterwards |
| TokenCounts.TokenBelowTotal | bayes-glib/bayes-storage-memory.c:98-99 | in a record whose total is the sum of its table, no token's count exceeds the total |
| TokenCounts.Store.Add | bayes-glib/bayes-storage-memory.c:102-130 | an add on non-NULL arguments puts the class among the names and raises four counts by n: the class's count for the token, the class total, the corpus count for the token and the corpus total |
| TokenCounts.AddLeavesOthers | bayes-glib/bayes-storage-memory.c:121-129 | an add changes nothing in other classes, does not change which other classes exist, and changes no other token in the class or in the corpus |
| TokenCounts.AddConsistent | bayes-glib/bayes-storage-memory.c:128-129 | every add keeps the store invariant: each total is the sum of its table, the corpus total is the sum of the class totals, each corpus count is the sum of the class counts |
| TokenCounts.AddKeepsSum | bayes-glib/bayes-storage-memory.c:128-129 | for each token, and for the totals, the corpus count stays the sum over the classes after an add |
| TokenCounts.AddKeepsBalanced | bayes-glib/bayes-storage-memory.c:121-129 | after an add, every class total is still the sum of its table, both for the class added to and for any other class |
| TokenCounts.AddShift | bayes-glib/bayes-storage-memory.c:128-129 | an add raises the class's answer and the corpus's answer to the same count query by the same amount: n for the token or the total, 0 for any other token |
| TokenCounts.AddPositive | bayes-glib/bayes-storage-memory.c:121-129 | an add of at least one token keeps every class total positive |
| TokenCounts.ClassBelowCorpus | bayes-glib/bayes-storage-memory.c:128-129 | in a consistent store no class holds more of a token, or more tokens in all, than the corpus |
| TokenCounts.EmptyConsistent | bayes-glib/bayes-storage-memory.c:246-264 | the initial store has no class names, every count 0, and satisfies the invariant |
| TokenCounts.Store.Probability | bayes-glib/bayes-storage-memory.c:159-200 | the result is 0.0 or lies in [0.0001, 0.9999], and is 0.0 for a class with no record |
| TokenCounts.TokenProbability | bayes-glib/bayes-storage-memory.c:186-199 | the formula over class total, corpus total and the token's class and corpus counts gives 0.0 or a value in [0.0001, 0.9999], including the 0/0 and x/0 cases |
| TokenCounts.TokenProbabilityShape | bayes-glib/bayes-storage-memory.c:186-199 | under consistent counts: both metrics lie in [0, 1]; f lies in [0, 1]; the result is 0.0 exactly when both metrics are 0 or f is within 0.1 of 0.5; the result is otherwise f clamped into [0.0001, 0.9999] |
| TokenCounts.FractionInUnit | bayes-glib/bayes-storage-memory.c:193 | f = bad / (good + bad) lies in [0, 1] when both metrics are non-negative |
| TokenCounts.MetricsInRange | bayes-glib/bayes-storage-memory.c:187-192 | the good and bad metrics lie in [0, 1] when the class count does not exceed the corpus count |
| TokenCounts.UnseenTokenProbability | bayes-glib/bayes-storage-memory.c:186-199 | in a consistent store, a token seen nowhere has probability 0.0 for a class with tokens (the NaN case) |
| TokenCounts.UnseenTokenInEmptyClass | bayes-glib/bayes-storage-memory.c:191-196 | in a class whose total is 0, a token seen nowhere gets 0.0001, not 0.0 |
| TokenCounts.ExclusiveTokenProbability | bayes-glib/bayes-storage-memory.c:186-196 | a token that occurs only in this class has probability 0.9999 |
| TokenCounts.ExclusiveFormula | bayes-glib/bayes-storage-memory.c:186-196 | the formula gives 0.9999 when the class holds every occurrence of the token and some of it |
| TokenCounts.ForeignTokenProbability | bayes-glib/bayes-storage-memory.c:186-196 | a token that occurs only outside a class with tokens has probability 0.0001 for that class |
| TokenCounts.ForeignFormula | bayes-glib/bayes-storage-memory.c:186-196 | the formula gives 0.0001 when the class holds none of a token the corpus has and has tokens of its own |
| BayesStorageMemory.MemoryStorage.constructor | bayes-glib/bayes-storage-memory.c:246-264 | a new store holds the empty store value and is valid |
| BayesStorageMemory.MemoryStorage.AddTokenCount | bayes-glib/bayes-storage-memory.c:102-130 | a NULL class or token leaves the fields unchanged; otherwise the fields become the old store plus the add (a count of 0 still creates the entries); the invariant is kept |
| BayesStorageMemory.MemoryStorage.GetTokenCount | bayes-glib/bayes-storage-memory.c:132-157 | the lookup over the fields gives the store value's count: a NULL class selects the corpus, a NULL token selects the total, an unknown class or token gives 0 |
| BayesStorageMemory.MemoryStorage.GetTokenProbability | bayes-glib/bayes-storage-memory.c:159-200 | the computation over the fields gives the store value's probability |
| BayesStorageMemory.MemoryStorage.GetNames | bayes-glib/bayes-storage-memory.c:202-223 | the loop over the name table returns exactly the class names, each once |
| BayesStorage.Added | bayes-glib/bayes-storage.c:32-45 | a NULL class or token or a count of 0 leaves the store unchanged; otherwise the class is among the names and the four affected counts rise by count |
| BayesStorage.AddedValid | bayes-glib/bayes-storage.c:38-44 | front-end adds keep the store invariant and keep every class total positive |
| BayesStorage.AddTokenCount | bayes-glib/bayes-storage.c:32-45 | the store becomes Added of the old store with the given count; the store stays valid |
| BayesStorage.AddToken | bayes-glib/bayes-storage.c:56-67 | the store becomes Added of the old store with count 1, which is add_token_count with count 1 |
| BayesStorage.GetClassNames | bayes-glib/bayes-storage.c:78-83 | returns exactly the class names of the store, each once |
| BayesStorage.GetTokenCount | bayes-glib/bayes-storage.c:98-108 | both arguments NULL gives 0; otherwise the backend's count |
| BayesStorage.GetTokenProbability | bayes-glib/bayes-storage.c:120-131 | the result lies in [0.0, 1.0]; a NULL class or token gives 0.0; otherwise the backend's probability |
| BayesGuess.Clamp | bayes-glib/bayes-guess.c:66 | the result lies in [low, high]; it equals x inside the range, low below it and high above it |
| BayesGuess.NewGuess | bayes-glib/bayes-guess.c:55-69 | a NULL name gives no guess; otherwise the guess carries the name and the probability clamped into [0, 1], unchanged when already in range |
| BayesGuess.GetName | bayes-glib/bayes-guess.c:116-121 | a NULL guess gives NULL, and only a NULL guess does; otherwise the guess's name |
| BayesGuess.GetProbability | bayes-glib/bayes-guess.c:125-137 | the result lies in [0.0, 1.0]; a NULL guess gives 0.0, otherwise the guess's probability |
| BayesGuess.NewGuessRoundTrip | bayes-glib/bayes-guess.c:55-137 | the getters give back the name and the clamped probability of a new guess, the probability itself when it is in [0, 1] |
| BayesGuess.NullNameGuess | bayes-glib/bayes-guess.c:61 | a NULL name gives no guess, whose getters return NULL and 0.0 |
| BayesGuess.EnglishGuess | tests/test-guess.c:3-12 | the guess ("english", 0.4567) gives back both values |
| BayesClassifier.Trained | bayes-glib/bayes-classifier.c:84-89 | the train loop as a fold: the store after adding each token of the sequence once, in order, under the class |
| BayesClassifier.AfterTrain | bayes-glib/bayes-classifier.c:78-89 | a train call: a NULL class name or a NULL token array leaves the store as it is, otherwise the fold over the tokens |
| BayesClassifier.TrainedStep | bayes-glib/bayes-classifier.c:85-86 | one more iteration of the train loop is one more add of count 1 of the next token |
| BayesClassifier.TrainedCounts | bayes-glib/bayes-classifier.c:84-89 | training raises the class's count and the corpus count of each token by its multiplicity in the token sequence, and both totals by the sequence's length |
| BayesClassifier.TrainedLeavesOthers | bayes-glib/bayes-classifier.c:84-89 | training leaves every other class's counts and total unchanged |
| BayesClassifier.TrainedNames | bayes-glib/bayes-classifier.c:84-89 | training adds the class to the names when there is at least one token, and adds no other name |
| BayesClassifier.TrainedAppend | bayes-glib/bayes-classifier.c:84-89 | training on two token sequences in turn equals training on their concatenation |
| BayesClassifier.TrainedValid | bayes-glib/bayes-classifier.c:84-89 | training keeps the store invariant and every class total positive |
| BayesClassifier.TrainTwice | bayes-glib/bayes-classifier.c:69-90 | two identical train calls equal one call on the doubled sequence: twice each token's multiplicity, twice the length |
| BayesClassifier.Classifier.constructor | bayes-glib/bayes-classifier.c:313-322 | a new classifier has the word tokenizer and a fresh, empty, valid memory store |
| BayesClassifier.Classifier.Tokenize | bayes-glib/bayes-classifier.c:46-57 | a NULL text gives NULL; otherwise the tokenizer's answer for the text |
| BayesClassifier.Classifier.Train | bayes-glib/bayes-classifier.c:69-90 | a NULL class, a NULL text or a NULL token array leaves the store unchanged; otherwise the loop leaves the store trained on the token sequence in order; the invariant is kept |
| BayesClassifier.Classifier.Guess | bayes-glib/bayes-classifier.c:104-123 | always returns the empty list and changes nothing |
| BayesClassifier.Classifier.GetStorage | bayes-glib/bayes-classifier.c:133-138 | returns the store object currently installed |
| BayesClassifier.Classifier.SetStorage | bayes-glib/bayes-classifier.c:148-162 | installs the given store, or a fresh empty memory store for NULL; the tokenizer is kept |
| BayesClassifier.Classifier.SetTokenizer | bayes-glib/bayes-classifier.c:164-184 | a NULL tokenizer is rejected; otherwise it replaces the tokenizer; the store is kept |
| Scenarios.EnglishStoreCounts | tests/test-storage-memory.c:5-18 | after adding "turbo", "brakes" and "suspension" to "english", each counts 1 and "cops" counts 0 |
| Scenarios.EnglishStoreValid | tests/test-storage-memory.c:9-12 | the test's store satisfies the invariant and every class total is positive |
| Scenarios.EnglishStoreProbability | tests/test-storage-memory.c:9-12 | in the test's store "turbo" has probability 0.9999 for "english" |
| Scenarios.TrainCarsText | bayes-glib/bayes-classifier.c:84-89 | training on the tokens "cars", "go", "cars" counts "cars" twice, "go" once and three tokens in all |

## Left out

- The critical warning that GLib logs when a `g_return_if_fail` or
  `g_return_val_if_fail` guard fails is not modelled. Neither is aborting
  under fatal criticals. A build with checks enabled is assumed.
  - Each failed guard is modelled as returning the guard's value (0, 0.0,
    NULL) or as a call that changes nothing.
  - With checks compiled out the guards vanish, and some calls would behave
    differently. For example, a count query with both arguments NULL would
    reach the backend and return the corpus total.
- GObject plumbing is not modelled: type registration, the type checks in
  `g_return_if_fail`, properties, class_init and finalize. A store or
  classifier argument is always a non-null object of the modelled class.
- Reference counting (`bayes_guess_ref`/`unref`, `g_object_ref`,
  `g_clear_object`) and freeing memory are not modelled. Apart from the
  `SetStorage` case below, they have no effect on counts or results.
- The tokenizers are not modelled: `bayes-tokenizer.c` and the word tokenizer
  built on a GRegex `\w+`.
  - A tokenizer is a function from a text to an optional token sequence.
  - The classifier's default is a constructor parameter.
  - The `BayesTokenizer` callback also receives the classifier and a
    `user_data` pointer. Both are folded into that function.
- `set_tokenizer`'s user data and destroy-notify callback are not modelled.
  They are foreign callback and lifetime management.
- No combiner or ranking is modelled, because the code has none
  (`bayes-classifier.c:116-118`).
- Only the in-memory backend is modelled. The front end takes a
  `MemoryStorage` rather than any implementation of the storage interface.
- BayesStorageMemory.MemoryStorage: the `Tokens` records are values in the
  class table, not separately allocated structs updated through pointers.
  - The table entry is replaced in place instead.
  - Aliasing of record pointers is not captured. No pointer to a record ever
    leaves the backend.
- BayesStorageMemory.MemoryStorage.GetNames: the array is returned without
  the NULL terminator, and iteration order is not modelled. The hash table
  gives no order.
- BayesClassifier.Classifier.Train: the NULL-terminated token array is a
  sequence, so a NULL entry cannot stop the loop early.
- `guint` wrap-around on totals is not modelled; counts are unbounded naturals.
- IEEE-754 rounding is not modelled. The formula is computed over exact
  rationals, so a result exactly at a threshold may differ from the C result.
- NaN and infinite inputs are not modelled. For example, `CLAMP` passes a NaN
  through, so C's `bayes_guess_new` would store a NaN probability. The
  model's `Guess` type admits only [0, 1].
- BayesClassifier.Classifier.SetStorage: requires the incoming store to satisfy
  the invariant. Every store built through the modelled API does.
- BayesClassifier.Classifier.SetStorage: in C, installing the store that is
  already installed frees it when nothing else holds a reference.
  - `g_clear_object` drops the old reference before `g_object_ref` takes the
    new one (`bayes-classifier.c:159-161`).
  - `get_storage` returns its store without a reference.
  - So `set_storage(c, get_storage(c))` frees the store and then touches freed
    memory.
  - The model keeps the same store with all its counts and does not capture
    this use after free.
