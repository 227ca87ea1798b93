/** The revealed word shown on the main panel: each letter of the word in
    place if guessed and '_' otherwise, the cells joined with single spaces. */
module Display {
  import opened Letters
  import opened Game

  /** The placeholder for a letter not yet guessed. */
  const Hidden: char := '_'

  /** The word letter by letter, guessed letters shown and the rest hidden. */
  function Mask(word: string, guessed: set<char>): (m: string)
    ensures |m| == |word|
    ensures forall i :: 0 <= i < |word| && word[i] in guessed ==> m[i] == word[i]
    ensures forall i :: 0 <= i < |word| && word[i] !in guessed ==> m[i] == Hidden
  {
    if |word| == 0 then []
    else [if word[0] in guessed then word[0] else Hidden] + Mask(word[1..], guessed)
  }

  /** The cells joined with one space between neighbours. */
  function Spaced(cells: string): (r: string)
    ensures |cells| == 0 ==> |r| == 0
    ensures |cells| > 0 ==> |r| == 2 * |cells| - 1
    ensures forall i :: 0 <= i < |r| ==> r[i] == (if i % 2 == 0 then cells[i / 2] else ' ')
  {
    if |cells| <= 1 then cells
    else [cells[0], ' '] + Spaced(cells[1..])
  }

  /** The text of the revealed word. */
  function Revealed(word: string, guessed: set<char>): string {
    Spaced(Mask(word, guessed))
  }

  /** Every other character, starting with the first: undoes `Spaced`. */
  function EvenPositions(r: string): (cells: string)
    ensures |cells| == (|r| + 1) / 2
  {
    if |r| <= 1 then r else [r[0]] + EvenPositions(r[2..])
  }

  /** The cells can be read back from the joined text. */
  lemma {:induction false} SpacedRoundTrip(cells: string)
    ensures EvenPositions(Spaced(cells)) == cells
  {
    if |cells| > 1 {
      var r := Spaced(cells);
      assert r == [cells[0], ' '] + Spaced(cells[1..]);
      assert r[2..] == Spaced(cells[1..]);
      SpacedRoundTrip(cells[1..]);
      assert cells == [cells[0]] + cells[1..];
    }
  }

  /** For a puzzle word, a cell shows its letter exactly when the letter is
      guessed and is hidden exactly when it is not. */
  lemma MaskShowsExactlyGuessed(word: string, guessed: set<char>, i: nat)
    requires IsWord(word)
    requires i < |word|
    ensures Mask(word, guessed)[i] == word[i] <==> word[i] in guessed
    ensures Mask(word, guessed)[i] == Hidden <==> word[i] !in guessed
  {
  }

  /** No cell is hidden exactly when the word is fully revealed, which for a
      reachable state is exactly when the game is won. */
  lemma MaskCompleteIffRevealed(s: GameState)
    requires Invariant(s)
    ensures Hidden !in Mask(s.word, s.guessed) <==> AllRevealed(s.word, s.guessed)
    ensures Hidden !in Mask(s.word, s.guessed) <==> s.didWin
  {
  }

  /** The text shown has one cell per letter of the word, separated by
      spaces, and the mask is recovered from it. */
  lemma RevealedLayout(word: string, guessed: set<char>)
    requires |word| > 0
    ensures |Revealed(word, guessed)| == 2 * |word| - 1
    ensures EvenPositions(Revealed(word, guessed)) == Mask(word, guessed)
  {
    SpacedRoundTrip(Mask(word, guessed));
  }
}
