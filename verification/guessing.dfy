/** Guessing a letter (`guessLetter`). A guess is ignored once the game is
    over or when the letter is already guessed or disabled; otherwise the
    letter becomes guessed, a wrong letter costs one attempt and may lose the
    game, and a right letter may win it. */
module Guessing {
  import opened Sequences
  import opened Letters
  import opened Game

  /** The guess of `letter` is ignored in `s`. */
  predicate Ignored(s: GameState, letter: char) {
    s.isGameOver || letter in s.guessed || letter in s.disabled
  }

  function Guess(s: GameState, letter: char): (r: GameState)
    requires IsLetter(letter)
    ensures Ignored(s, letter) ==> r == s
    ensures !Ignored(s, letter) ==>
      && r.guessed == s.guessed + {letter}
      && r.word == s.word && r.disabled == s.disabled
      && r.hintUsageCount == s.hintUsageCount
      && (!r.isGameOver ==> r.didWin == s.didWin)
    // a wrong guess costs exactly one attempt and loses exactly when none are left
    ensures !Ignored(s, letter) && letter !in s.word ==>
      && r.remainingAttempts == s.remainingAttempts - 1
      && (r.isGameOver <==> r.remainingAttempts <= 0)
      && (r.isGameOver ==> !r.didWin)
    // a right guess is free and ends the game exactly when it completes the word, as a win
    ensures !Ignored(s, letter) && letter in s.word ==>
      && r.remainingAttempts == s.remainingAttempts
      && (r.isGameOver <==> AllRevealed(s.word, r.guessed))
      && (r.isGameOver ==> r.didWin)
  {
    if Ignored(s, letter) then s
    else
      var guessed := s.guessed + {letter};
      if letter !in s.word then
        var attempts := s.remainingAttempts - 1;
        if attempts <= 0 then
          s.(guessed := guessed, remainingAttempts := attempts, isGameOver := true, didWin := false)
        else
          s.(guessed := guessed, remainingAttempts := attempts)
      else if AllRevealed(s.word, guessed) then
        s.(guessed := guessed, isGameOver := true, didWin := true)
      else
        s.(guessed := guessed)
  }

  /** Guessing the same letter twice is guessing it once. */
  lemma GuessIdempotent(s: GameState, letter: char)
    requires IsLetter(letter)
    ensures Guess(Guess(s, letter), letter) == Guess(s, letter)
  {
  }

  /** A guess keeps every property of reachable states. */
  lemma GuessPreservesInvariant(s: GameState, letter: char)
    requires Invariant(s)
    requires IsLetter(letter)
    ensures Invariant(Guess(s, letter))
  {
    if !Ignored(s, letter) {
      var r := Guess(s, letter);
      var inWord := Elements(s.word);
      if letter in s.word {
        assert WrongGuesses(r) == WrongGuesses(s);
      } else {
        assert letter !in inWord;
        assert WrongGuesses(r) == WrongGuesses(s) + {letter};
        assert |WrongGuesses(r)| == |WrongGuesses(s)| + 1;
        // a wrong letter does not change which positions are revealed
        assert AllRevealed(s.word, r.guessed) == AllRevealed(s.word, s.guessed);
      }
    }
  }

  /** In a running game every letter of the word not yet guessed can still be
      guessed, and guessing it is accepted and free: a disabled letter never
      blocks a win. */
  lemma WordLettersStayGuessable(s: GameState, letter: char)
    requires Invariant(s)
    requires !s.isGameOver
    requires letter in s.word && letter !in s.guessed
    ensures IsLetter(letter)
    ensures !Ignored(s, letter)
    ensures Guess(s, letter).remainingAttempts == s.remainingAttempts
    ensures letter in Guess(s, letter).guessed
  {
    WordsAreWords(s.word);
  }
}
