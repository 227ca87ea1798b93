/** The saved state of one hangman round and how a round starts.

    The screen keeps seven saved variables: the current word, the guessed
    and disabled letters, the remaining attempts, the number of hints used,
    and the two flags `isGameOver` and `didWin`. The letter strings are only
    ever checked for membership, so they are sets here. */
module Game {
  import opened Sequences
  import opened Letters

  /** The fixed vocabulary a round draws its word from. */
  const Words: seq<string> := ["BOSTON", "UNIVERSITY", "COMPUTER", "SCIENCE"]

  /** Wrong guesses allowed at the start of a round. */
  const MaxAttempts: int := 6

  /** Hints available per round. */
  const MaxHints: int := 3

  datatype GameState = GameState(
    word: string,
    guessed: set<char>,
    disabled: set<char>,
    remainingAttempts: int,
    hintUsageCount: int,
    isGameOver: bool,
    didWin: bool)

  /** A fresh round on `Words[index]`; `index` stands for the draw of the
      random word. The screen's initial values and `newGame` coincide, so
      this is also the state the screen starts in. */
  function NewGame(index: nat): (s: GameState)
    requires index < |Words|
    ensures s.word in Words
  {
    GameState(Words[index], {}, {}, MaxAttempts, 0, false, false)
  }

  /** Guessed letters that are not in the word: the wrong guesses so far. */
  function WrongGuesses(s: GameState): set<char> {
    s.guessed - Elements(s.word)
  }

  /** Attempts the hints used so far have cost: the first hint is free and
      the second and third cost one each. */
  function HintCost(hints: int): int {
    if hints <= 1 then 0 else hints - 1
  }

  /** What holds of every state a round can reach. */
  predicate Invariant(s: GameState) {
    && s.word in Words
    && (forall c :: c in s.guessed ==> IsLetter(c))
    && (forall c :: c in s.disabled ==> IsLetter(c))
    && 0 <= s.hintUsageCount <= MaxHints
    && 0 <= s.remainingAttempts <= MaxAttempts
    // every attempt lost is accounted for by a wrong guess or a paid hint
    && s.remainingAttempts == MaxAttempts - |WrongGuesses(s)| - HintCost(s.hintUsageCount)
    && (!s.isGameOver ==> s.remainingAttempts >= 1)
    && (s.didWin ==> s.isGameOver)
    && (s.didWin <==> AllRevealed(s.word, s.guessed))
    && (s.isGameOver && !s.didWin ==> s.remainingAttempts == 0)
    // a disabled letter of the word has already been guessed
    && (forall c :: c in s.word && c in s.disabled ==> c in s.guessed)
  }

  /** Every word of the vocabulary is a puzzle word. */
  lemma WordsAreWords(w: string)
    requires w in Words
    ensures IsWord(w)
  {
  }

  /** A new round starts in a reachable state with nothing guessed or
      disabled, all attempts and hints available, and the game running. */
  lemma NewGameStartsRound(index: nat)
    requires index < |Words|
    ensures var s := NewGame(index);
      && Invariant(s)
      && IsWord(s.word)
      && s.guessed == {} && s.disabled == {}
      && s.remainingAttempts == MaxAttempts && s.hintUsageCount == 0
      && !s.isGameOver && !s.didWin
      && !AllRevealed(s.word, s.guessed)
  {
    var s := NewGame(index);
    WordsAreWords(s.word);
    assert s.word[0] !in s.guessed;
  }
}
