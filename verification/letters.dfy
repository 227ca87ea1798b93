/** The letter domain of the game: the 26 upper-case letters offered by the
    letters panel, the vowel list of the third hint, and what it means for a
    word to be fully revealed. */
module Letters {
  import opened Sequences

  /** 'A'..'Z' in alphabetical order, the range both the letters panel and
      the second hint enumerate. */
  const Alphabet: seq<char> := UpperCaseRange()

  // Kept as a function: a constant whose initialiser is this comprehension
  // (a lambda with a `requires`) crashes Dafny 4.11's verifier when used in
  // another function's body.
  function UpperCaseRange(): seq<char> {
    seq(26, i requires 0 <= i < 26 => ('A' as int + i) as char)
  }

  /** The vowels the third hint reveals and then disables. */
  const Vowels: seq<char> := ['A', 'E', 'I', 'O', 'U']

  predicate IsLetter(c: char) {
    'A' <= c <= 'Z'
  }

  /** A puzzle word: non-empty and made of upper-case letters only. */
  predicate IsWord(w: string) {
    |w| > 0 && forall i :: 0 <= i < |w| ==> IsLetter(w[i])
  }

  /** Every position of `w` holds a guessed letter. */
  predicate AllRevealed(w: string, guessed: set<char>) {
    forall i :: 0 <= i < |w| ==> w[i] in guessed
  }

  /** The alphabet enumerates exactly the upper-case letters. */
  lemma AlphabetIsLetters(c: char)
    ensures c in Alphabet <==> IsLetter(c)
  {
    if IsLetter(c) {
      var i := c as int - 'A' as int;
      assert Alphabet[i] == c;
    }
  }

  /** No letter appears twice in the alphabet. */
  lemma AlphabetNoDuplicates()
    ensures NoDuplicates(Alphabet)
  {
    IncreasingNoDuplicates(Alphabet);
  }

  /** Being fully revealed is being a subset of the guessed letters. */
  lemma AllRevealedIsSubset(w: string, guessed: set<char>)
    ensures AllRevealed(w, guessed) <==> Elements(w) <= guessed
  {
  }
}
