/**
  BayesGuess: a classification name paired with the probability that some
  input belongs to it. A guess is never changed after it is made.
 */
module BayesGuess {
  import opened Optional

  datatype GuessRecord = GuessRecord(name: string, probability: real)

  /** A guess: its probability always lies between 0.0 and 1.0. */
  type Guess = g: GuessRecord | 0.0 <= g.probability <= 1.0 witness GuessRecord("", 0.0)

  /** GLib's CLAMP: `high` above the range, `low` below it, `x` itself inside it. */
  function Clamp(x: real, low: real, high: real): (r: real)
    requires low <= high
    ensures low <= r <= high
    ensures low <= x <= high ==> r == x
    ensures x < low ==> r == low
    ensures x > high ==> r == high
  {
    if x > high then high else if x < low then low else x
  }

  /** bayes_guess_new: no guess for a NULL name, else the name with the probability clamped into [0, 1]. */
  function NewGuess(name: Option<string>, probability: real): (r: Option<Guess>)
    ensures r.None? <==> name.None?
    ensures r.Some? ==> r.value.name == name.value
    ensures r.Some? ==> 0.0 <= r.value.probability <= 1.0
    ensures r.Some? && 0.0 <= probability <= 1.0 ==> r.value.probability == probability
  {
    if name.None? then None
    else Some(GuessRecord(name.value, Clamp(probability, 0.0, 1.0)))
  }

  /** bayes_guess_get_name: NULL for a NULL guess, else the name it was made with. */
  function GetName(guess: Option<Guess>): (r: Option<string>)
    ensures r.None? <==> guess.None?
    ensures guess.Some? ==> r == Some(guess.value.name)
  {
    if guess.None? then None else Some(guess.value.name)
  }

  /** bayes_guess_get_probability: 0.0 for a NULL guess, else its probability. */
  function GetProbability(guess: Option<Guess>): (r: real)
    ensures 0.0 <= r <= 1.0
    ensures guess.None? ==> r == 0.0
    ensures guess.Some? ==> r == guess.value.probability
  {
    if guess.None? then 0.0 else guess.value.probability
  }

  /**
    What a guess is made with is what its getters give back: the name, and
    the probability clamped into [0, 1] (itself, when it is already there).
   */
  lemma NewGuessRoundTrip(name: string, probability: real)
    ensures GetName(NewGuess(Some(name), probability)) == Some(name)
    ensures GetProbability(NewGuess(Some(name), probability)) == Clamp(probability, 0.0, 1.0)
    ensures 0.0 <= GetProbability(NewGuess(Some(name), probability)) <= 1.0
    ensures 0.0 <= probability <= 1.0 ==> GetProbability(NewGuess(Some(name), probability)) == probability
  {
  }

  /** A NULL name gives no guess, whose getters give NULL and 0.0. */
  lemma NullNameGuess(probability: real)
    ensures NewGuess(None, probability) == None
    ensures GetName(NewGuess(None, probability)) == None
    ensures GetProbability(NewGuess(None, probability)) == 0.0
  {
  }

  /** The guess of the library's test: "english" at 0.4567 keeps both. */
  lemma EnglishGuess()
    ensures GetName(NewGuess(Some("english"), 0.4567)) == Some("english")
    ensures GetProbability(NewGuess(Some("english"), 0.4567)) == 0.4567
  {
  }
}
