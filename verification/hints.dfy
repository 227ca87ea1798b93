/** Hints (`useHint`). A hint is refused once the game is over, once three
    hints are used, or while at most one attempt remains; otherwise the hint
    count goes up and the new count selects the tier:
      1. a message only;
      2. disable half of the wrong letters still on the board, for one attempt;
      3. reveal the word's vowels and disable all five vowels, for one attempt. */
module Hints {
  import opened Sequences
  import opened Letters
  import opened Game

  /** The short on-screen message a hint request shows, if any. */
  datatype Toast = Silent | HintNotAvailable | FirstHint

  function ToastText(t: Toast): string {
    match t
    case Silent => ""
    case HintNotAvailable => "Hint not available"
    case FirstHint => "First Hint: It's a secret!"
  }

  /** What `useHint` returns, the state it leaves and the message it shows. */
  datatype HintResult = HintResult(accepted: bool, state: GameState, toast: Toast)

  /** A letter the second hint may disable: not in the word and neither
      guessed nor disabled. */
  predicate WrongUnpickedLetter(s: GameState, c: char) {
    c !in s.word && c !in s.guessed && c !in s.disabled
  }

  /** The letters of `letters` the second hint may disable, in their order. */
  function FilterWrongUnpicked(s: GameState, letters: seq<char>): (r: seq<char>)
    ensures forall c :: c in r <==> c in letters && WrongUnpickedLetter(s, c)
    ensures multiset(r) <= multiset(letters)
  {
    if |letters| == 0 then []
    else
      var rest := FilterWrongUnpicked(s, letters[1..]);
      assert letters == [letters[0]] + letters[1..];
      if WrongUnpickedLetter(s, letters[0]) then [letters[0]] + rest else rest
  }

  /** The second hint's candidates, 'A'..'Z' filtered, in alphabetical order. */
  function WrongUnpicked(s: GameState): seq<char> {
    FilterWrongUnpicked(s, Alphabet)
  }

  /** The same candidates as a set: W = {A..Z} minus the word, the guessed
      and the disabled letters. */
  function WrongUnpickedSet(s: GameState): set<char> {
    set c | c in Alphabet && WrongUnpickedLetter(s, c)
  }

  /** `order` is a rearrangement of `xs`: the result of shuffling it. */
  predicate IsShuffleOf(order: seq<char>, xs: seq<char>) {
    multiset(order) == multiset(xs)
  }

  /** The letters the second hint disables: the first half (rounded down) of
      the shuffled candidates. */
  function FirstHalf(order: seq<char>): set<char> {
    Elements(order[..|order| / 2])
  }

  /** The state passes the three guards of a hint request. */
  predicate HintAvailable(s: GameState) {
    !s.isGameOver && s.hintUsageCount < MaxHints && s.remainingAttempts > 1
  }

  /** The vowels that occur in `w`. */
  function VowelsOf(w: string): set<char> {
    set c | c in w && c in Vowels
  }

  /** Tier 2, applied after the hint count went up. */
  function DisableHalfWrong(s: GameState, order: seq<char>): HintResult {
    var t := s.(disabled := s.disabled + FirstHalf(order),
                remainingAttempts := s.remainingAttempts - 1);
    if t.remainingAttempts <= 0 then
      HintResult(false, t.(isGameOver := true, didWin := false), Silent)
    else
      HintResult(true, t, Silent)
  }

  /** Tier 3, applied after the hint count went up. The loss check comes
      before the win check, as in the screen. */
  function RevealVowels(s: GameState): HintResult {
    var t := s.(guessed := s.guessed + VowelsOf(s.word),
                disabled := s.disabled + Elements(Vowels),
                remainingAttempts := s.remainingAttempts - 1);
    if t.remainingAttempts <= 0 then
      HintResult(false, t.(isGameOver := true, didWin := false), Silent)
    else if AllRevealed(t.word, t.guessed) then
      HintResult(true, t.(isGameOver := true, didWin := true), Silent)
    else
      HintResult(true, t, Silent)
  }

  /** Uses a hint. `order` stands for the shuffle of the second hint's
      candidates; the caller supplies a rearrangement of them, which exists
      for every state. */
  function UseHint(s: GameState, order: seq<char>): (r: HintResult)
    requires IsShuffleOf(order, WrongUnpicked(s))
    // the answer is yes exactly when the guards pass: the loss branches never run
    ensures r.accepted <==> HintAvailable(s)
    ensures !r.accepted ==> r.state == s
    ensures r.accepted ==>
      && r.state.hintUsageCount == s.hintUsageCount + 1
      && r.state.word == s.word
      && s.guessed <= r.state.guessed && s.disabled <= r.state.disabled
      && r.state.remainingAttempts >= 1
      && (r.state.isGameOver ==> r.state.didWin)
    ensures r.toast == HintNotAvailable <==>
      !s.isGameOver && s.hintUsageCount < MaxHints && s.remainingAttempts <= 1
    ensures r.toast == FirstHint <==> HintAvailable(s) && s.hintUsageCount == 0
  {
    if s.isGameOver then HintResult(false, s, Silent)
    else if s.hintUsageCount >= MaxHints then HintResult(false, s, Silent)
    else if s.remainingAttempts <= 1 then HintResult(false, s, HintNotAvailable)
    else
      var t := s.(hintUsageCount := s.hintUsageCount + 1);
      if t.hintUsageCount == 1 then HintResult(true, t, FirstHint)
      else if t.hintUsageCount == 2 then DisableHalfWrong(t, order)
      else if t.hintUsageCount == 3 then RevealVowels(t)
      else HintResult(true, t, Silent)
  }

  /** A hint never loses the game: if the state after a hint is lost, the
      hint was refused and the game had already been lost. */
  lemma HintNeverLoses(s: GameState, order: seq<char>)
    requires IsShuffleOf(order, WrongUnpicked(s))
    ensures var r := UseHint(s, order);
      r.state.isGameOver && !r.state.didWin ==> !r.accepted && r.state == s
  {
  }

  /** The filtered candidates list W, each letter once. */
  lemma WrongUnpickedIsSet(s: GameState)
    ensures NoDuplicates(WrongUnpicked(s))
    ensures Elements(WrongUnpicked(s)) == WrongUnpickedSet(s)
    ensures |WrongUnpicked(s)| == |WrongUnpickedSet(s)|
  {
    AlphabetNoDuplicates();
    ShuffleNoDuplicates(WrongUnpicked(s), Alphabet);
    NoDuplicatesCardinality(WrongUnpicked(s));
  }

  /** The letters the second hint picks are ⌊|W|/2⌋ distinct members of W. */
  lemma FirstHalfOfShuffle(s: GameState, order: seq<char>)
    requires IsShuffleOf(order, WrongUnpicked(s))
    ensures FirstHalf(order) <= WrongUnpickedSet(s)
    ensures |FirstHalf(order)| == |WrongUnpickedSet(s)| / 2
  {
    WrongUnpickedIsSet(s);
    var w := WrongUnpicked(s);
    assert |order| == |multiset(order)| == |multiset(w)| == |w|;
    forall c | c in FirstHalf(order) ensures c in WrongUnpickedSet(s) {
      assert c in multiset(order);
      assert c in multiset(w);
    }
    ShuffleNoDuplicates(order, w);
    PrefixNoDuplicates(order, |order| / 2);
    NoDuplicatesCardinality(order[..|order| / 2]);
  }

  /** Tier 1 only counts the hint and shows its message. */
  lemma FirstTierOnlyCounts(s: GameState, order: seq<char>)
    requires IsShuffleOf(order, WrongUnpicked(s))
    requires HintAvailable(s) && s.hintUsageCount == 0
    ensures UseHint(s, order).state == s.(hintUsageCount := 1)
    ensures ToastText(UseHint(s, order).toast) == "First Hint: It's a secret!"
  {
  }

  /** Tier 2 disables exactly ⌊|W|/2⌋ new letters, all drawn from W, costs
      one attempt and reveals nothing. */
  lemma SecondTierDisablesHalf(s: GameState, order: seq<char>)
    requires IsShuffleOf(order, WrongUnpicked(s))
    requires HintAvailable(s) && s.hintUsageCount == 1
    ensures var r := UseHint(s, order).state;
      && s.disabled <= r.disabled
      && r.disabled - s.disabled <= WrongUnpickedSet(s)
      && |r.disabled| == |s.disabled| + |WrongUnpickedSet(s)| / 2
      && r.guessed == s.guessed
      && r.remainingAttempts == s.remainingAttempts - 1
      && r.isGameOver == s.isGameOver && r.didWin == s.didWin
  {
    FirstHalfOfShuffle(s, order);
    var r := UseHint(s, order).state;
    assert r.disabled == s.disabled + FirstHalf(order);
    assert s.disabled !! FirstHalf(order);
  }

  /** Tier 3 guesses exactly the word's vowels not yet guessed, disables all
      five vowels, costs one attempt, and wins exactly when the word is then
      complete. Every vowel ends up guessed or disabled. */
  lemma ThirdTierRevealsVowels(s: GameState, order: seq<char>)
    requires IsShuffleOf(order, WrongUnpicked(s))
    requires HintAvailable(s) && s.hintUsageCount == 2
    ensures var r := UseHint(s, order).state;
      && r.guessed - s.guessed == VowelsOf(s.word) - s.guessed
      && r.guessed <= s.guessed + Elements(Vowels)
      && r.disabled == s.disabled + Elements(Vowels)
      && Elements(Vowels) <= r.guessed + r.disabled
      && r.remainingAttempts == s.remainingAttempts - 1
      && (r.isGameOver <==> AllRevealed(s.word, r.guessed))
      && (AllRevealed(s.word, r.guessed) ==> r.didWin)
      && (!AllRevealed(s.word, r.guessed) ==> r.didWin == s.didWin)
  {
  }

  /** The third hint leaves the word's vowels both guessed and disabled:
      the guessed and disabled letters are not kept apart. */
  lemma ThirdTierOverlaps(s: GameState, order: seq<char>, v: char)
    requires IsShuffleOf(order, WrongUnpicked(s))
    requires HintAvailable(s) && s.hintUsageCount == 2
    requires v in s.word && v in Vowels
    ensures v in UseHint(s, order).state.guessed
    ensures v in UseHint(s, order).state.disabled
  {
  }

  /** A hint keeps every property of reachable states. */
  lemma HintPreservesInvariant(s: GameState, order: seq<char>)
    requires Invariant(s)
    requires IsShuffleOf(order, WrongUnpicked(s))
    ensures Invariant(UseHint(s, order).state)
  {
    if HintAvailable(s) && s.hintUsageCount == 1 {
      SecondTierPreservesInvariant(s, order);
    } else if HintAvailable(s) && s.hintUsageCount == 2 {
      ThirdTierPreservesInvariant(s, order);
    }
  }

  lemma SecondTierPreservesInvariant(s: GameState, order: seq<char>)
    requires Invariant(s)
    requires IsShuffleOf(order, WrongUnpicked(s))
    requires HintAvailable(s) && s.hintUsageCount == 1
    ensures Invariant(UseHint(s, order).state)
  {
    var picked := FirstHalf(order);
    var r := s.(hintUsageCount := 2, disabled := s.disabled + picked,
                remainingAttempts := s.remainingAttempts - 1);
    assert UseHint(s, order).state == r;
    FirstHalfOfShuffle(s, order);
    forall c | c in picked ensures IsLetter(c) && c !in s.word {
      AlphabetIsLetters(c);
    }
    assert WrongGuesses(r) == WrongGuesses(s);
    assert HintCost(r.hintUsageCount) == HintCost(s.hintUsageCount) + 1;
  }

  lemma ThirdTierPreservesInvariant(s: GameState, order: seq<char>)
    requires Invariant(s)
    requires IsShuffleOf(order, WrongUnpicked(s))
    requires HintAvailable(s) && s.hintUsageCount == 2
    ensures Invariant(UseHint(s, order).state)
  {
    var t := s.(hintUsageCount := 3, guessed := s.guessed + VowelsOf(s.word),
                disabled := s.disabled + Elements(Vowels),
                remainingAttempts := s.remainingAttempts - 1);
    assert UseHint(s, order) == RevealVowels(s.(hintUsageCount := 3));
    RevealedVowelsKeepInvariant(s, t);
    if AllRevealed(t.word, t.guessed) {
      assert UseHint(s, order).state == t.(isGameOver := true, didWin := true);
    } else {
      assert UseHint(s, order).state == t;
    }
  }

  /** The state tier 3 builds satisfies the invariant, whichever way the win
      check goes. */
  lemma RevealedVowelsKeepInvariant(s: GameState, t: GameState)
    requires Invariant(s)
    requires HintAvailable(s) && s.hintUsageCount == 2
    requires t == s.(hintUsageCount := 3, guessed := s.guessed + VowelsOf(s.word),
                     disabled := s.disabled + Elements(Vowels),
                     remainingAttempts := s.remainingAttempts - 1)
    ensures AllRevealed(t.word, t.guessed) ==> Invariant(t.(isGameOver := true, didWin := true))
    ensures !AllRevealed(t.word, t.guessed) ==> Invariant(t)
  {
    assert forall c :: c in Elements(Vowels) ==> IsLetter(c);
    WordsAreWords(s.word);
    assert forall c :: c in t.guessed ==> IsLetter(c);
    assert forall c :: c in t.disabled ==> IsLetter(c);
    assert WrongGuesses(t) == WrongGuesses(s);
    assert forall c :: c in t.word && c in t.disabled ==> c in t.guessed;
    assert !s.didWin;
  }
}
