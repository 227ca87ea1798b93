/** Sequences of player events on the screen and what holds of every state
    they reach. Each event stands for one button press: "New Game", a
    letter, or the hint button; the random choices are part of the event. */
module Rounds {
  import opened Letters
  import opened Game
  import opened Guessing
  import opened Hints

  datatype Event =
    | NewGameEvent(index: nat)
    | GuessEvent(letter: char)
    | HintEvent(order: seq<char>)

  /** The event can happen in `s`: a word index in range, a letter from the
      panel, or a shuffle of the second hint's candidates. */
  predicate Allowed(s: GameState, e: Event) {
    match e
    case NewGameEvent(index) => index < |Words|
    case GuessEvent(letter) => IsLetter(letter)
    case HintEvent(order) => IsShuffleOf(order, WrongUnpicked(s))
  }

  function Step(s: GameState, e: Event): (r: GameState)
    requires Allowed(s, e)
    ensures e.NewGameEvent? ==> r.word in Words && !r.isGameOver
    ensures !e.NewGameEvent? ==> r.word == s.word
    ensures s.isGameOver && !e.NewGameEvent? ==> r == s
  {
    match e
    case NewGameEvent(index) => NewGame(index)
    case GuessEvent(letter) => Guess(s, letter)
    case HintEvent(order) => UseHint(s, order).state
  }

  /** Every event of `es` can happen in the state the previous ones leave. */
  predicate AllowedTrace(s: GameState, es: seq<Event>)
    decreases |es|
  {
    |es| == 0 || (Allowed(s, es[0]) && AllowedTrace(Step(s, es[0]), es[1..]))
  }

  /** The state after the events `es`, one after the other. */
  function Run(s: GameState, es: seq<Event>): GameState
    requires AllowedTrace(s, es)
    decreases |es|
  {
    if |es| == 0 then s else Run(Step(s, es[0]), es[1..])
  }

  /** Each event keeps the invariant. */
  lemma StepPreservesInvariant(s: GameState, e: Event)
    requires Invariant(s)
    requires Allowed(s, e)
    ensures Invariant(Step(s, e))
  {
    match e
    case NewGameEvent(index) => NewGameStartsRound(index);
    case GuessEvent(letter) => GuessPreservesInvariant(s, letter);
    case HintEvent(order) => HintPreservesInvariant(s, order);
  }

  /** Any run of events keeps the invariant. */
  lemma {:induction false} RunPreservesInvariant(s: GameState, es: seq<Event>)
    requires Invariant(s)
    requires AllowedTrace(s, es)
    ensures Invariant(Run(s, es))
    decreases |es|
  {
    if |es| > 0 {
      StepPreservesInvariant(s, es[0]);
      RunPreservesInvariant(Step(s, es[0]), es[1..]);
    }
  }

  /** Every state reachable from a new round: attempts in 0..6, hints in
      0..3, a win only when the game is over and every letter is guessed,
      and no letter of the word disabled without being guessed. */
  lemma ReachableStates(index: nat, es: seq<Event>)
    requires index < |Words|
    requires AllowedTrace(NewGame(index), es)
    ensures var s := Run(NewGame(index), es);
      && 0 <= s.remainingAttempts <= MaxAttempts
      && 0 <= s.hintUsageCount <= MaxHints
      && (s.didWin ==> s.isGameOver)
      && (s.didWin <==> AllRevealed(s.word, s.guessed))
      && (s.isGameOver && !s.didWin ==> s.remainingAttempts == 0)
      && (forall c :: c in s.word && c in s.disabled ==> c in s.guessed)
      && s.remainingAttempts == MaxAttempts - |WrongGuesses(s)| - HintCost(s.hintUsageCount)
  {
    NewGameStartsRound(index);
    RunPreservesInvariant(NewGame(index), es);
  }

  /** Once the game is over, guesses and hints change nothing. */
  lemma {:induction false} GameOverIsFinal(s: GameState, es: seq<Event>)
    requires s.isGameOver
    requires AllowedTrace(s, es)
    requires forall k :: 0 <= k < |es| ==> !es[k].NewGameEvent?
    ensures Run(s, es) == s
    decreases |es|
  {
    if |es| > 0 {
      assert Step(s, es[0]) == s;
      GameOverIsFinal(s, es[1..]);
    }
  }

  /** The five guesses that spell BOSTON, as states. */
  lemma BostonGuesses()
    ensures var s0 := NewGame(0);
      && Guess(s0, 'B') == s0.(guessed := {'B'})
      && Guess(s0.(guessed := {'B'}), 'O') == s0.(guessed := {'B', 'O'})
      && Guess(s0.(guessed := {'B', 'O'}), 'S') == s0.(guessed := {'B', 'O', 'S'})
      && Guess(s0.(guessed := {'B', 'O', 'S'}), 'T') == s0.(guessed := {'B', 'O', 'S', 'T'})
      && Guess(s0.(guessed := {'B', 'O', 'S', 'T'}), 'N')
         == s0.(guessed := {'B', 'O', 'S', 'T', 'N'}, isGameOver := true, didWin := true)
  {
    var s0 := NewGame(0);
    assert s0.word == "BOSTON";
    assert s0.word[1] !in {'B'};
    assert s0.word[2] !in {'B', 'O'};
    assert s0.word[3] !in {'B', 'O', 'S'};
    assert s0.word[5] !in {'B', 'O', 'S', 'T'};
    assert AllRevealed(s0.word, {'B', 'O', 'S', 'T', 'N'});
  }

  /** Guessing the letters of BOSTON wins without losing an attempt. */
  lemma BostonQuickWin()
    ensures var es := [GuessEvent('B'), GuessEvent('O'), GuessEvent('S'), GuessEvent('T'), GuessEvent('N')];
      && AllowedTrace(NewGame(0), es)
      && Run(NewGame(0), es).isGameOver
      && Run(NewGame(0), es).didWin
      && Run(NewGame(0), es).remainingAttempts == MaxAttempts
  {
  }
}
