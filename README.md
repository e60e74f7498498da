# Between Us card game: a Dafny model of the session engine

This project models the `App` object of `cardgame/app.js`. `App` is the state machine of a
two-person conversation card game. Each main level deals a shuffled deck of question
cards, with a wildcard after every fifth question while the pool lasts, and lets one "Dig
Deeper" prompt be spliced in after the current card. The bonus round instead deals its
questions in catalog order, labelled by set, with no wildcard and no Dig Deeper prompt. The player reveals a card and then advances, and each advance
starts a short transition. After enough cards the player may go on to the next level. At
the end comes a final card with an optional note. Progress is saved to local storage and
restored within 24 hours.

There are five modules:

- `Cards` (cards.dfy) has the catalog, the levels and the card variant. It also has `Texts`,
  which gives the texts of one kind of card in deck order.
- `Shuffling` (shuffle.dfy) is `shuffle`, the in-place Fisher–Yates loop over an `array`.
  It is specified by the function `Shuffled`.
- `Deck` (deck.dfy) covers `buildDeck`, `buildBonusDeck` and the Dig Deeper splice.
  `BuildDeck` is a loop proved equal to the recursive `Dealt`/`ShuffledDeck`, and the deck's
  layout is proved as lemmas about those functions.
- `Rules` (rules.dfy) has the pure decisions. These are the next-level threshold and label,
  the routing after a level, the menu's status labels, the saved-progress record with its
  24-hour freshness test, and `String.prototype.trim`.
- `Game` (app.dfy) has the class `App`. Its fields are the object's state plus the two
  local-storage entries. There is one method per operation. Each method keeps the invariant
  `Valid()` and states the new value of every field it may change. Frames are
  field-granular, such as `modifies this`deck`.

Inputs from the program's environment are parameters of the model:

- **Randomness.** The draws `Math.random` would give become a `Deal`: one index per swap
  step, each within the range that step can produce. The Dig Deeper prompt becomes an index
  `pick`.
- **Time.** `Date.now()` becomes `now`, in milliseconds. The note's ISO date becomes a
  string.
- **The transition timer.** `nextCard` schedules a 150 ms callback. In the model that
  callback is its own step, `App.AnimationDone`. The ghost field `timerPending` records that
  a callback is due.

Reading the catalog entry of a `null` level throws in JavaScript. This happens when
rendering a card, when setting up a game and when setting up the level-complete screen.
The model reports it as a `thrown` result. The state changes made before the throw are
kept, and the rest of that handler is skipped.

## Model

| member | source | states |
|---|---|---|
| Shuffling.ValidDraws | cardgame/app.js:407-408 | defines the draws a run of `shuffle` can consume: one per step, the draw for position i lying in 0..i |
| Shuffling.Swap | cardgame/app.js:409 | defines one destructuring swap of positions i and j; it keeps the length |
| Shuffling.SwapProperties | cardgame/app.js:409 | the two positions are exchanged, every other position is unchanged, and the multiset of elements is unchanged |
| Shuffling.ShuffleFrom | cardgame/app.js:407-410 | defines the loop's remaining steps from position i down to 1, each a `Swap` with its draw; they keep the length |
| Shuffling.Shuffled | cardgame/app.js:406-412 | defines what `shuffle` leaves in the array for the given draws: all steps from the last index down; it keeps the length |
| Shuffling.ShuffleFromPermutes | cardgame/app.js:407-410 | the remaining loop steps keep the multiset of elements |
| Shuffling.ShuffleFromKeepsTail | cardgame/app.js:407-410 | the steps still to run never touch a position above the current index |
| Shuffling.ShuffledPermutes | cardgame/app.js:406-412 | a shuffle is a permutation of its input |
| Shuffling.ShuffledLast | cardgame/app.js:407-409 | the element drawn at the first step ends in the last position, which later steps never touch |
| Shuffling.Shuffle | cardgame/app.js:406-412 | the array ends holding `Shuffled` of its old contents for the given draws, a permutation of them |
| Deck.WildcardsPlaced | cardgame/app.js:99-106 | the number of wildcards placed never exceeds the pool, nor one per five questions |
| Deck.PlacesWildcard | cardgame/app.js:103 | defines the test after the i-th question: i is a multiple of 5 and the wildcards placed so far are fewer than the pool |
| Deck.PlacedStep | cardgame/app.js:103-106 | the count of placed wildcards grows by one exactly after a question that is followed by a wildcard, and the k-th wildcard follows question 5k |
| Deck.PlacesWildcardIff | cardgame/app.js:103 | the test after question i (from 1) passes if and only if i is a multiple of 5 and the pool holds at least i/5 wildcards |
| Deck.StepCards | cardgame/app.js:101-106 | one step pushes the question in the level's colours and, when the test passes, the next wildcard right after it |
| Deck.StepTexts | cardgame/app.js:101-106 | by kind, one step adds its question, its wildcard if placed, and no dig-deeper card |
| Deck.StepWildcards | cardgame/app.js:103-106 | a step that places a wildcard takes the pool's next unused one and advances the pool index by one; otherwise the index stays |
| Deck.Step | cardgame/app.js:101-106 | defines the cards one `forEach` iteration pushes: the question in the level's colours, then the next wildcard when the test passes |
| Deck.Dealt | cardgame/app.js:99-107 | defines the cards pushed after the first i questions, step by step |
| Deck.ShuffledDeck | cardgame/app.js:95-110 | defines the deck `buildDeck` returns: `Dealt` over the shuffled questions and the shuffled wildcard pool |
| Deck.DealtLength | cardgame/app.js:101-107 | after i questions the deck holds i plus the wildcards placed |
| Deck.DealtQuestions | cardgame/app.js:101-102 | the questions of the deck, read in order, are the first i questions |
| Deck.DealtWildcards | cardgame/app.js:103-106 | the wildcards of the deck, read in order, are the first ones of the pool |
| Deck.DealtNoDigDeeper | cardgame/app.js:95-110 | building a deck adds no dig-deeper card |
| Deck.DealtShape | cardgame/app.js:95-110 | after i questions the deck holds i plus the placed wildcards; its questions are the first i in order, its wildcards are the pool's first ones in order, and it has no dig-deeper card |
| Deck.DealtQuestionAt | cardgame/app.js:101-102 | question k sits at position k plus the wildcards placed before it, in the level's colours with no set label |
| Deck.DealtWildcardAt | cardgame/app.js:103-106 | wildcard j sits at position 6j+5, right after question 5j+4 |
| Deck.DealtNoAdjacentWildcards | cardgame/app.js:101-107 | every wildcard comes right after a question, so no two wildcards are adjacent and none comes first |
| Deck.DealtCards | cardgame/app.js:102-104 | every card of the deal is either a question in the level's colours without a set label or a wildcard |
| Deck.WildcardFollows | cardgame/app.js:103 | a wildcard follows question k (counting from 1) if and only if k is a multiple of 5 and the pool still has a wildcard for it |
| Deck.TwentyQuestions | cardgame/app.js:101-107 | twenty questions with a pool of four or more give 24 cards: the pool's first four wildcards, with the last one after the twentieth question |
| Deck.ShuffledDeckQuestions | cardgame/app.js:95-110 | the deck's questions, read in order, are the shuffled catalog (a permutation of the level's cards); its length is the questions plus the placed wildcards; it has no dig-deeper card |
| Deck.ShuffledDeckWildcards | cardgame/app.js:98-106 | the deck holds min(n/5, pool size) wildcards, all drawn from the pool, none more often than the pool holds it |
| Deck.ShuffledDeckCards | cardgame/app.js:101-106 | every question of the deck carries the level's colours, and every wildcard follows a question |
| Deck.BuildDeck | cardgame/app.js:95-110 | the loop over the two shuffled arrays returns exactly `ShuffledDeck` for the given draws |
| Deck.Interleave | cardgame/app.js:99-107 | the loop that pushes each question and, after every fifth one, the next wildcard while the pool lasts returns exactly `Dealt` of all questions |
| Deck.SetLabel | cardgame/app.js:119 | "Set I" exactly for positions below 12, "Set II" exactly for 12 to 23, "Set III" exactly from 24 on |
| Deck.BonusDeck | cardgame/app.js:112-121 | the bonus deck has one card per catalog question, in catalog order: a question in the level's colours labelled with its set |
| Deck.BonusDeckTexts | cardgame/app.js:112-121 | the bonus deck keeps the catalog's questions in order, with no wildcard and no dig-deeper card |
| Deck.Splice | cardgame/app.js:217 | the card is inserted at the given position, or at the end when the position is past the end; the other cards keep their order |
| Deck.SpliceTexts | cardgame/app.js:217 | the splice leaves the texts of every other kind of card unchanged |
| Deck.SpliceAddsText | cardgame/app.js:217 | the splice adds exactly one text of the inserted card's kind |
| Rules.MinCards | cardgame/app.js:240-241 | the threshold is 12 exactly in the bonus round and 15 otherwise |
| Rules.NextLevelAvailable | cardgame/app.js:240-243 | defines when the next-level button is shown: the level's count has reached `MinCards` |
| Rules.NextLevelAvailableMonotone | cardgame/app.js:241-243 | once the next-level button shows, it keeps showing as more cards are played, and the bonus threshold is met no later than a main level's |
| Rules.NextLevelLabel | cardgame/app.js:245-251 | "Final Card" exactly after level 3 or in the bonus round, "Next Level" otherwise |
| Rules.CompletionScreen | cardgame/app.js:257-275 | leaving a level leads to the final card exactly from the bonus round, and to the level-complete screen otherwise |
| Rules.NextLevel | cardgame/app.js:308-311 | level 2 exactly after level 1, level 3 after anything else |
| Rules.NextLevelAdvances | cardgame/app.js:308-311 | from level 1 or level 2 the next level is the following one in play order |
| Rules.MainIndex | cardgame/app.js:348-349 | the index is -1 exactly with no level or in the bonus round, and otherwise the level's place in the play order |
| Rules.MenuLabels | cardgame/app.js:348-359 | defines the four status texts `showMenu` writes for the current level |
| Rules.MenuLabelsFollowPlayOrder | cardgame/app.js:348-359 | a menu row reads "Done" for a level before the current one, "In progress" for the current one, and blank after it; every row is blank with no current level |
| Rules.IsFresh | cardgame/app.js:382 | defines the freshness test: the record is less than 24 hours old |
| Rules.Restored | cardgame/app.js:378-387 | defines the level and total after `loadProgress`: the record's values when a fresh record exists (a missing total as 0), otherwise the old values |
| Rules.Saved | cardgame/app.js:370-376 | the saved record holds the current level, the lifetime total and the save time |
| Rules.SaveThenLoad | cardgame/app.js:370-387 | a record loaded less than 24 hours after it was saved restores exactly the saved level and total |
| Rules.LoadIgnoresStale | cardgame/app.js:378-387 | a missing record, or one 24 hours old or older, changes nothing; a fresh record without a total loads the total as 0 |
| Rules.Trim | cardgame/app.js:329 | the trimmed note is a part of the input with only white space before and after it; it is empty exactly when the input is all white space, and otherwise starts and ends with a visible character |
| Game.App.constructor | cardgame/app.js:3-11 | the object's initial state: no level or screen, an empty deck, zero counters, one Dig Deeper, both flags clear |
| Game.App.Init | cardgame/app.js:20-30 | restores fresh saved progress and then shows the welcome screen |
| Game.App.ShowWelcome | cardgame/app.js:33-48 | changing the screen records it as the current screen |
| Game.App.ShowMenu | cardgame/app.js:345-362 | the menu becomes the current screen and nothing else changes |
| Game.App.ShowLevelIntro | cardgame/app.js:51-53 | the level intro becomes the current level and the current screen |
| Game.App.ShowGame | cardgame/app.js:75-93 | a fresh deck (shuffled, or the bonus deck), the cursor and count at 0, the card face down, and a Dig Deeper budget of 0 in the bonus round and 1 otherwise; an empty deck completes the level at once; with no level it throws after the screen has changed, leaving the rest as it was |
| Game.App.ShowLevelComplete | cardgame/app.js:278-306 | shows the level-complete screen and saves progress; it throws, without saving, exactly when no level is set |
| Game.App.ShowFinalCard | cardgame/app.js:322-326 | shows the final card and saves progress |
| Game.App.ShowEnd | cardgame/app.js:339-342 | shows the end screen and clears the saved progress, the level and the total |
| Game.App.ResumeFromMenu | cardgame/app.js:471-473 | resuming from the menu deals the level again from the start and shows the game screen, or completes the level and saves progress when the deck is empty; it throws exactly when no level is set, after showing the game screen and with nothing else changed |
| Game.App.Continue | cardgame/app.js:420-422 | continuing opens the saved level's intro, and does nothing without one |
| Game.App.ShowCard | cardgame/app.js:124-180 | past the end of the deck the level is completed with the routing of `completeLevelForced`; otherwise the card is shown face down; it throws exactly when no level is set |
| Game.App.FlipCard | cardgame/app.js:182-192 | ignored during a transition; turns a hidden card face up; on a revealed card it advances as `nextCard` does |
| Game.App.NextCard | cardgame/app.js:194-206 | ignored during a transition; otherwise the cursor, the level count and the lifetime total each grow by one and a transition is pending |
| Game.App.PlayDigDeeper | cardgame/app.js:209-219 | without budget or during a transition nothing changes; otherwise the budget drops by one, the prompt is spliced right after the current card, and the game advances onto it |
| Game.App.AnimationDone | cardgame/app.js:202-205 | the pending callback shows the next card and clears the transition flag, except when showing the card throws, which leaves the flag set |
| Game.App.AnimationDoneGuarded | cardgame/app.js:202-205 | the callback with the flag cleared in every case: no transition remains in progress afterwards |
| Game.App.AdvanceLevel | cardgame/app.js:257-265 | the next-level button shows the final card after the bonus round and the level-complete screen otherwise, and saves progress unless it throws |
| Game.App.CompleteLevelForced | cardgame/app.js:267-275 | an exhausted deck routes exactly as the next-level button does |
| Game.App.GoToNextLevel | cardgame/app.js:308-311 | opens the intro of `NextLevel` of the current level |
| Game.App.GoToBonus | cardgame/app.js:313-315 | opens the bonus round's intro |
| Game.App.GoToFinalCard | cardgame/app.js:317-319 | shows the final card and saves progress |
| Game.App.SaveNote | cardgame/app.js:328-336 | appends the trimmed note with its date exactly when the trimmed text is not empty, then shows the end screen (clearing progress) |
| Game.App.SaveProgress | cardgame/app.js:370-376 | the stored record becomes `Saved` of the level, the total and the clock |
| Game.App.LoadProgress | cardgame/app.js:378-387 | the level and total become what `Restored` gives: the record's values when fresh, otherwise the old values |
| Game.App.ClearProgress | cardgame/app.js:389-393 | removes the record and resets the level and the total |
| Game.App.ResetGame | cardgame/app.js:395-403 | clears the progress, the level, the counters and the cursor, restores the Dig Deeper budget and shows the welcome screen; the deck and both flags are left as they were |
| Game.RestartDuringTransition | cardgame/app.js:194-206 | a restart from the menu during a transition leaves the flag set with no callback left to clear it, so the next game's first card cannot be turned over |
| Game.RestartDuringTransitionGuarded | cardgame/app.js:194-206 | with the guarded callback the same sequence leaves no transition in progress, and the next game's first card turns over |

Every operation above keeps `App.Valid()`. The invariant says the cursor equals the level's
card count, the Dig Deeper budget is at most one, a pending callback implies the animation
flag, and the catalog has a dig-deeper prompt to pick.

Each event handler of `bindEvents` (lines 415-497) calls one of the methods above:

- start, and the level rows of the menu: `ShowLevelIntro`;
- continue: `Continue`;
- begin level: `ShowGame`;
- card tap: `FlipCard`;
- dig deeper: `PlayDigDeeper`;
- the next-level button: `AdvanceLevel`;
- the three level-complete buttons: `GoToNextLevel`, `GoToBonus` and `GoToFinalCard`;
- save note: `SaveNote`;
- skip note: `ShowEnd`;
- play again, and restart in the menu: `ResetGame`;
- the menu button: `ShowMenu`;
- resume and close in the menu: `ResumeFromMenu`.

## Left out

- Rendering is left out: the DOM, CSS classes, texts and colours. The counter text of
  `updateProgress` and the button state of `updateDigButton` and `updateNextLevelButton`
  are not modelled as state. Of the three, only `updateProgress` can throw (line 366, on a
  missing level), and that throw is modelled; the other two only compare values.
- The next-level button's visibility and label are `Rules.NextLevelAvailable` and
  `Rules.NextLevelLabel` of the level and count at the moment the button is refreshed.
  That happens only in `setupGame` (line 91) and `showCard` (line 179). During the 150 ms
  transition after `nextCard` the button still reflects the count before the increment; the
  model does not track the button's displayed state.
- `bindEvents` wiring and the double-tap zoom guard (lines 499-505) are left out. They are
  browser plumbing, and each handler is mapped to a method above.
- Local storage and JSON are modelled as the fields `stored` and `notes`. A record that
  does not parse, a level name outside the four levels, and a record without a numeric
  timestamp are not modelled, because the `Level` datatype and the `int` timestamp exclude
  them.
- The clock, random numbers and the note's date are parameters. Real uniformity of the
  shuffle is not a property of the model.
- The 150 ms delay is left out. When the callback runs relative to other events is up to
  the caller of `AnimationDone`.
- Counters are unbounded naturals. JavaScript numbers are exact only up to 2^53, which play
  never reaches.
- The catalog's content, `questions.js`, is not part of this model. The Dig Deeper pool is
  assumed non-empty as part of `App.Valid()`, because with an empty pool the program
  splices a card with an undefined text.
- Wildcard pool entries are objects in the program. Only their `text` is modelled, and
  their optional timer is not.
- Game.App.ShowLevelIntro: takes a level rather than an optional one. Every caller passes
  a level, so the `if (level)` guard at line 52 is never false.
- Game.App.ShowGame: requires the supplied draws to fit the level's card count and the
  wildcard pool. This is a modelling requirement for the random source, not a
  precondition of the program.
- The deck places a wildcard after the twentieth question too when the pool holds four or
  more (`Deck.TwentyQuestions`).
- The bonus deck's set labels change at the fixed positions 12 and 24 (`Deck.SetLabel`),
  whatever the catalog's length.

## Findings

| source | as written | input that shows it | evidently intended | confidence | as-written member | corrected member |
|---|---|---|---|---|---|---|
| cardgame/app.js:202-205 | The transition callback clears `isAnimating` only after `showCard()` returns. `resetGame` (lines 395-403, reachable from the menu at 491-493) clears `currentLevel` but neither cancels the timer nor clears the flag. `showCard` then throws on the null level (line 164, 178 or 280), and `isAnimating` stays set for good, so later `flipCard`, `nextCard` and `playDigDeeper` calls are all ignored | with a revealed card, click the card, then open the menu and click restart within 150 ms, then start level 1; the clicks come from a mouse or keyboard, because on a touch screen the double-tap guard (lines 499-505) cancels a second tap within 300 ms | the flag is cleared whatever happens in `showCard`, or a restart cancels the pending transition | not executed | Game.RestartDuringTransition | Game.App.AnimationDoneGuarded |
