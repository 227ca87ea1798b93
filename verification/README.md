# Hangman game-state engine in Dafny

This is a model of the game engine inside the hangman screen
(`HangmanGameScreen`). A round has seven saved variables:

- the current word;
- the guessed letters and the disabled letters;
- the remaining attempts (6 at the start);
- the number of hints used (at most 3);
- the two flags `isGameOver` and `didWin`.

Three operations change the round:

- `newGame` draws a word from a fixed list of four and resets everything else.
- `guessLetter` adds a letter to the guessed letters. A wrong letter costs one
  attempt and loses the game at zero. A right letter wins once every letter
  of the word is guessed.
- `useHint` gives one of three hint tiers:
  1. a message only;
  2. disable half of the wrong letters still on the board, for one attempt;
  3. reveal the word's vowels and disable all five vowels, for one attempt.

  A hint is refused when the game is over, when three hints are used, or when
  at most one attempt remains.

The main panel shows the revealed word. Each guessed letter appears in place,
every other letter shows as `_`, and the cells are separated by spaces.

The model is functional. `Game.GameState` is an immutable record with the same
seven fields, and each operation is a pure function from the old state to the
new one. The letter strings become `set<char>`, because the screen only ever
checks them for membership. The two random draws become inputs:

- `words.random()` becomes a word index below 4 (`Game.NewGame`);
- `shuffled()` becomes `order`, any rearrangement of the second hint's
  candidate list (`Hints.UseHint`). The hint disables the first half of it.

Toast messages are returned as a `Hints.Toast` value and are not shown.

`Rounds` strings events together: a "New Game" press, a letter press or a
hint press. `Game.Invariant` states what holds in every reachable state. The
lemmas prove that a new round establishes it and that every event keeps it.

Modules, one per file:

- `Sequences` (`sequences.dfy`): counting the elements of a sequence with no repeats.
- `Letters` (`letters.dfy`): the alphabet, the vowels, and what "fully revealed" means.
- `Game` (`game.dfy`): the word list, the state, `NewGame` and the invariant.
- `Guessing` (`guessing.dfy`): `guessLetter`.
- `Hints` (`hints.dfy`): `useHint` and its three tiers.
- `Display` (`display.dfy`): the revealed word.
- `Rounds` (`rounds.dfy`): event sequences and reachable states.

### Behaviour of the code worth knowing

- **Outcome flags.** The code keeps two flags, `isGameOver` and `didWin`;
  `didWin ==> isGameOver` is proved for reachable states.
- **Guessed and disabled letters can overlap.** The third hint guesses the
  word's vowels and then disables all five vowels (`Hints.ThirdTierOverlaps`).
  What is proved instead of disjointness is that a disabled letter of the word
  is always guessed.
- **No error values.** `guessLetter` returns nothing and `useHint` returns
  `false`. Letters outside A–Z are not checked in the code, so
  `Guessing.Guess` has a precondition that the letter is in A–Z; the letter
  buttons only ever supply A–Z.
- **Tier-3 check order.** The third hint checks for a loss before a win. The
  guard "remaining attempts > 1" makes the loss branch unreachable, so the
  order never matters (`Hints.HintNeverLoses`).

## Model

| member | source | states |
|---|---|---|
| `Game.NewGameStartsRound` | app/src/main/java/com/example/hangmangame/HangmanGameScreen.kt:20-40 | A new round uses a word from the four-word list, has nothing guessed or disabled, 6 attempts, 0 hints, is neither over nor won, and satisfies the reachable-state invariant |
| `Game.WordsAreWords` | app/src/main/java/com/example/hangmangame/HangmanGameScreen.kt:20 | Every word in the list is non-empty and upper-case A–Z |
| `Game.NewGame` | app/src/main/java/com/example/hangmangame/HangmanGameScreen.kt:32-40 | The word of a new round comes from the fixed list |
| `Guessing.Guess` | app/src/main/java/com/example/hangmangame/HangmanGameScreen.kt:42-59 | A guess is ignored (state unchanged) when the game is over or the letter is already guessed or disabled. Otherwise the letter becomes guessed and nothing else but the attempts and flags changes; `didWin` changes only when the guess ends the game. A wrong letter costs exactly one attempt and ends the game, lost, exactly when attempts reach 0 or below. A right letter costs nothing and ends the game, won, exactly when every letter of the word is guessed |
| `Guessing.GuessIdempotent` | app/src/main/java/com/example/hangmangame/HangmanGameScreen.kt:43-45 | Repeating a guess changes nothing: the second guess of a letter is ignored |
| `Guessing.GuessPreservesInvariant` | app/src/main/java/com/example/hangmangame/HangmanGameScreen.kt:42-59 | A guess keeps every reachable-state property, including the attempt accounting (one attempt lost per wrong letter) |
| `Guessing.WordLettersStayGuessable` | app/src/main/java/com/example/hangmangame/HangmanGameScreen.kt:43-58 | In a running reachable game, an unguessed letter of the word is never blocked as disabled, and guessing it is accepted and free |
| `Hints.FilterWrongUnpicked` | app/src/main/java/com/example/hangmangame/HangmanGameScreen.kt:77-79 | The candidate filter keeps exactly the letters not in the word, not guessed and not disabled, and adds no repeats |
| `Hints.UseHint` | app/src/main/java/com/example/hangmangame/HangmanGameScreen.kt:62-112 | A hint returns true exactly when the game is running, fewer than 3 hints are used and more than 1 attempt remains. A refused hint leaves the state unchanged. An accepted hint counts one more hint, only adds guessed and disabled letters, leaves at least one attempt, and can end the game only as a win. "Hint not available" is shown exactly when the attempts guard refuses; the first-hint message is shown exactly on tier 1 |
| `Hints.HintNeverLoses` | app/src/main/java/com/example/hangmangame/HangmanGameScreen.kt:63-69 | A state that is lost after a hint was already lost before it, and the hint was refused. The loss branches at lines 84-88 and 99-103 never run |
| `Hints.WrongUnpickedIsSet` | app/src/main/java/com/example/hangmangame/HangmanGameScreen.kt:77-79 | The ordered candidate list holds each letter of W once, so its length is the size of W |
| `Hints.FirstHalfOfShuffle` | app/src/main/java/com/example/hangmangame/HangmanGameScreen.kt:80-82 | The first half of any shuffle of the candidates is a subset of W with exactly ⌊\|W\|/2⌋ letters |
| `Hints.FirstTierOnlyCounts` | app/src/main/java/com/example/hangmangame/HangmanGameScreen.kt:71-75 | Tier 1 changes only the hint count (+1) and shows "First Hint: It's a secret!" |
| `Hints.SecondTierDisablesHalf` | app/src/main/java/com/example/hangmangame/HangmanGameScreen.kt:76-89 | Tier 2 adds exactly ⌊\|W\|/2⌋ new disabled letters, all from W. It leaves the guessed letters and the flags unchanged and costs exactly one attempt |
| `Hints.ThirdTierRevealsVowels` | app/src/main/java/com/example/hangmangame/HangmanGameScreen.kt:90-108 | Tier 3 newly guesses exactly the word's not-yet-guessed vowels and disables all five vowels. Every vowel ends up guessed or disabled. It costs one attempt and ends the game exactly when the word is then complete, as a win; otherwise `didWin` is unchanged |
| `Hints.ThirdTierOverlaps` | app/src/main/java/com/example/hangmangame/HangmanGameScreen.kt:92-97 | After tier 3, every vowel of the word is both guessed and disabled |
| `Hints.HintPreservesInvariant` | app/src/main/java/com/example/hangmangame/HangmanGameScreen.kt:62-112 | A hint keeps every reachable-state property |
| `Hints.SecondTierPreservesInvariant` | app/src/main/java/com/example/hangmangame/HangmanGameScreen.kt:76-89 | Tier 2 keeps every reachable-state property. Its disabled letters are outside the word, so no word letter is newly blocked, and its cost is accounted for |
| `Hints.ThirdTierPreservesInvariant` | app/src/main/java/com/example/hangmangame/HangmanGameScreen.kt:90-108 | Tier 3 keeps every reachable-state property. It guesses the word's vowels before disabling them, so no word letter is blocked |
| `Hints.RevealedVowelsKeepInvariant` | app/src/main/java/com/example/hangmangame/HangmanGameScreen.kt:90-108 | The state tier 3 builds keeps every reachable-state property, whether or not the win check fires: the vowels it adds to the guessed letters are letters of the word, so the wrong-guess count does not change |
| `Letters.AlphabetIsLetters` | app/src/main/java/com/example/hangmangame/HangmanGameScreen.kt:77 | The range 'A'..'Z' holds exactly the upper-case letters |
| `Letters.AlphabetNoDuplicates` | app/src/main/java/com/example/hangmangame/HangmanGameScreen.kt:77 | The range 'A'..'Z' lists each letter once |
| `Letters.AllRevealedIsSubset` | app/src/main/java/com/example/hangmangame/HangmanGameScreen.kt:53 | "Every letter of the word is guessed" is the same as the word's letters being a subset of the guessed letters |
| `Display.Mask` | app/src/main/java/com/example/hangmangame/HangmanGameScreen.kt:263-264 | The mask has the word's length. A position shows its letter when that letter is guessed, and `_` otherwise |
| `Display.Spaced` | app/src/main/java/com/example/hangmangame/HangmanGameScreen.kt:265 | Joining n ≥ 1 cells with spaces gives 2n-1 characters: the cells at even positions and spaces between them |
| `Display.SpacedRoundTrip` | app/src/main/java/com/example/hangmangame/HangmanGameScreen.kt:265 | The cells are read back from the joined text |
| `Display.MaskShowsExactlyGuessed` | app/src/main/java/com/example/hangmangame/HangmanGameScreen.kt:263-264 | For a puzzle word, a cell shows its letter if and only if the letter is guessed, and is `_` if and only if it is not |
| `Display.MaskCompleteIffRevealed` | app/src/main/java/com/example/hangmangame/HangmanGameScreen.kt:263-265 | In a reachable state the mask has no `_` exactly when every letter is guessed, and exactly when the game is won |
| `Display.RevealedLayout` | app/src/main/java/com/example/hangmangame/HangmanGameScreen.kt:263-265 | The revealed text has 2·\|word\|-1 characters, and the mask is recovered from it |
| `Rounds.Step` | app/src/main/java/com/example/hangmangame/HangmanGameScreen.kt:32-112 | One button press. After "New Game" the word is from the list and the game runs. Guesses and hints keep the word, and change nothing once the game is over |
| `Rounds.StepPreservesInvariant` | app/src/main/java/com/example/hangmangame/HangmanGameScreen.kt:32-112 | Every event keeps the reachable-state invariant |
| `Rounds.RunPreservesInvariant` | app/src/main/java/com/example/hangmangame/HangmanGameScreen.kt:26-112 | Any sequence of events keeps the reachable-state invariant |
| `Rounds.ReachableStates` | app/src/main/java/com/example/hangmangame/HangmanGameScreen.kt:26-108 | Every reachable state has: attempts in 0..6 and hints in 0..3; `didWin` only when the game is over; `didWin` exactly when every letter is guessed; a lost game at 0 attempts; every disabled word letter guessed; and 6 - attempts = wrong guesses + paid hints |
| `Rounds.GameOverIsFinal` | app/src/main/java/com/example/hangmangame/HangmanGameScreen.kt:43-63 | Once the game is over, any sequence of guesses and hints leaves the state unchanged |
| `Rounds.BostonGuesses` | app/src/main/java/com/example/hangmangame/HangmanGameScreen.kt:42-59 | The five guesses B, O, S, T, N on BOSTON each add their letter, and the last one wins |
| `Rounds.BostonQuickWin` | app/src/main/java/com/example/hangmangame/HangmanGameScreen.kt:42-59 | Guessing B, O, S, T, N on BOSTON is a valid run that ends won, with all 6 attempts left |

## Left out

- Compose layout, orientation switching, the letter buttons and the hint button labels are left out. They are presentation (`LettersPanel`, `HintPanel`, `HangmanMainPanel` apart from the revealed word).
- Showing a toast through the Android context is left out. The model only returns which message would be shown.
- `rememberSaveable` persistence across rotation is left out. It is framework plumbing.
- The random draws are left out. The word index and the shuffle are inputs, and any valid input may be chosen.
- Kotlin's 32-bit `Int` wrap-around of `remainingAttempts--` and `hintUsageCount++` is not modelled. The model uses unbounded integers, and in reachable states the values stay within 0..6.
- Guessed and disabled letters are sets, not appended strings. The order and repeats in those strings are never observed, since only membership is checked.
- `Guessing.Guess` requires a letter in A–Z. The code does not validate letters; only the A–Z buttons call it.
