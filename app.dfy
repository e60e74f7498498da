/**
 * The `App` object: the play-session state machine over the current level, the
 * deck, the cursor, the counters and the two flags, with the saved progress and
 * the notes that the browser's local storage holds.
 *
 * Inputs the program takes from its environment are parameters here: the clock
 * (`now`, milliseconds), the random draws of a deal (`Deal`), the random pick of a
 * dig-deeper prompt (`pick`), and the date text of a note. The 150 ms
 * `setTimeout` in `nextCard` is the separate step `AnimationDone`, which the
 * event loop runs once per scheduled callback (`timerPending`).
 */
module Game {
  import opened Cards
  import opened Deck
  import opened Rules

  class App {
    /** The question catalog, a constant of the page. */
    const catalog: Catalog

    var currentLevel: Option<Level>
    var currentScreen: Option<Screen>
    var deck: seq<Card>
    var cardIndex: nat
    var cardsPlayed: nat
    var digDeepersLeft: nat
    var totalCardsPlayed: nat
    var isFlipped: bool
    var isAnimating: bool

    /** Local storage: the `betweenUs_progress` record and the `betweenUs_notes` list. */
    var stored: Option<Progress>
    var notes: seq<Note>

    /** Whether the callback scheduled by `nextCard` has yet to run. */
    ghost var timerPending: bool

    /**
     * The invariant every operation keeps: the cursor and the level's card count
     * move together, at most one Dig Deeper is available, a pending callback
     * always has the animation flag set, and the catalog has a prompt to pick.
     */
    ghost predicate Valid()
      reads this
    {
      && cardsPlayed == cardIndex
      && digDeepersLeft <= 1
      && (timerPending ==> isAnimating)
      && catalog.digDeeper != []
    }

    /** The object literal's initial state, with local storage as the page finds it. */
    constructor (catalog: Catalog, stored: Option<Progress>, notes: seq<Note>)
      requires catalog.digDeeper != []
      ensures Valid()
      ensures this.catalog == catalog && this.stored == stored && this.notes == notes
      ensures currentLevel == None && currentScreen == None && deck == []
      ensures cardIndex == 0 && cardsPlayed == 0 && digDeepersLeft == 1 && totalCardsPlayed == 0
      ensures !isFlipped && !isAnimating && !timerPending
    {
      this.catalog := catalog;
      currentLevel := None;
      currentScreen := None;
      deck := [];
      cardIndex := 0;
      cardsPlayed := 0;
      digDeepersLeft := 1;
      totalCardsPlayed := 0;
      isFlipped := false;
      isAnimating := false;
      this.stored := stored;
      this.notes := notes;
      timerPending := false;
    }

    /** `init`: restore saved progress, then show the welcome screen. */
    method Init(now: int)
      requires Valid()
      modifies this`currentLevel, this`totalCardsPlayed, this`currentScreen
      ensures Valid()
      ensures (currentLevel, totalCardsPlayed) == Restored(stored, now, old(currentLevel), old(totalCardsPlayed))
      ensures currentScreen == Some(Welcome)
    {
      LoadProgress(now);
      ShowWelcome();
    }

    // ------------------------------------------------------------------ screens

    method ShowWelcome()
      requires Valid()
      modifies this`currentScreen
      ensures Valid() && currentScreen == Some(Welcome)
    {
      currentScreen := Some(Welcome);
    }

    /** `showMenu`: the labels it writes are `MenuLabels(currentLevel)`, and only the screen changes. */
    method ShowMenu()
      requires Valid()
      modifies this`currentScreen
      ensures Valid() && currentScreen == Some(Menu)
    {
      currentScreen := Some(Menu);
    }

    /** `showScreen('level-intro', level)`: the intro makes `level` the current level. */
    method ShowLevelIntro(level: Level)
      requires Valid()
      modifies this`currentScreen, this`currentLevel
      ensures Valid()
      ensures currentScreen == Some(LevelIntro) && currentLevel == Some(level)
    {
      currentScreen := Some(LevelIntro);
      currentLevel := Some(level);
    }

    /**
     * `showScreen('game')`, which always runs `setupGame`: a fresh deck, the
     * cursor and the level's count at 0, and a Dig Deeper budget of 0 for the
     * bonus round and 1 otherwise; then the first card is shown, which on an
     * empty deck completes the level at once. With no current level the catalog
     * lookup fails and building the deck throws (`thrown`) once the screen has
     * changed.
     */
    method ShowGame(deal: Deal, now: int) returns (thrown: bool)
      requires Valid()
      requires currentLevel.Some? && currentLevel.value != Bonus ==>
        Fits(deal, |catalog.Entry(currentLevel.value).cards|, |catalog.wildcards|)
      modifies this`currentScreen, this`deck, this`cardIndex, this`cardsPlayed, this`digDeepersLeft,
        this`isFlipped, this`stored
      ensures Valid()
      ensures thrown <==> currentLevel.None?
      ensures thrown ==>
        && currentScreen == Some(Game) && deck == old(deck) && cardIndex == old(cardIndex)
        && digDeepersLeft == old(digDeepersLeft) && isFlipped == old(isFlipped) && stored == old(stored)
      ensures !thrown ==>
        && deck == (if currentLevel.value == Bonus then BonusDeck(catalog.Entry(Bonus))
                    else ShuffledDeck(catalog.Entry(currentLevel.value), catalog.wildcards, deal))
        && cardIndex == 0 && cardsPlayed == 0 && !isFlipped
        && digDeepersLeft == (if currentLevel.value == Bonus then 0 else 1)
      ensures !thrown && deck != [] ==> currentScreen == Some(Game) && stored == old(stored)
      ensures !thrown && deck == [] ==> currentScreen == Some(CompletionScreen(currentLevel)) &&
                                        stored == Some(Saved(currentLevel, totalCardsPlayed, now))
    {
      currentScreen := Some(Game);
      if currentLevel.None? {
        return true;
      }
      var data := catalog.Entry(currentLevel.value);
      var isBonus := currentLevel.value == Bonus;
      if isBonus {
        deck := BonusDeck(data);
      } else {
        deck := BuildDeck(data, catalog.wildcards, deal);
      }
      cardIndex := 0;
      cardsPlayed := 0;
      digDeepersLeft := if isBonus then 0 else 1;
      isFlipped := false;
      thrown := ShowCard(now);
    }

    /**
     * `showScreen('level-complete')`. Its setup reads the catalog entry of the
     * current level before `saveProgress`; with no current level that read
     * throws (`thrown`) after the screen has already changed.
     */
    method ShowLevelComplete(now: int) returns (thrown: bool)
      requires Valid()
      modifies this`currentScreen, this`stored
      ensures Valid() && currentScreen == Some(LevelComplete)
      ensures thrown <==> currentLevel.None?
      ensures stored == if thrown then old(stored) else Some(Saved(currentLevel, totalCardsPlayed, now))
    {
      currentScreen := Some(LevelComplete);
      if currentLevel.None? {
        return true;
      }
      SaveProgress(now);
      thrown := false;
    }

    /** `showScreen('final-card')`: its setup saves the progress. */
    method ShowFinalCard(now: int)
      requires Valid()
      modifies this`currentScreen, this`stored
      ensures Valid() && currentScreen == Some(FinalCard)
      ensures stored == Some(Saved(currentLevel, totalCardsPlayed, now))
    {
      currentScreen := Some(FinalCard);
      SaveProgress(now);
    }

    /** `showScreen('end')`: its setup clears the saved progress. */
    method ShowEnd()
      requires Valid()
      modifies this`currentScreen, this`stored, this`currentLevel, this`totalCardsPlayed
      ensures Valid() && currentScreen == Some(End)
      ensures stored == None && currentLevel == None && totalCardsPlayed == 0
    {
      currentScreen := Some(End);
      ClearProgress();
    }

    /**
     * The "resume" and "close" rows of the menu: both show the game screen, so
     * the deck is dealt again and the level's count starts over.
     */
    method ResumeFromMenu(deal: Deal, now: int) returns (thrown: bool)
      requires Valid()
      requires currentLevel.Some? && currentLevel.value != Bonus ==>
        Fits(deal, |catalog.Entry(currentLevel.value).cards|, |catalog.wildcards|)
      modifies this`currentScreen, this`deck, this`cardIndex, this`cardsPlayed, this`digDeepersLeft,
        this`isFlipped, this`stored
      ensures Valid()
      ensures thrown <==> currentLevel.None?
      ensures thrown ==>
        && currentScreen == Some(Game) && deck == old(deck) && cardIndex == old(cardIndex)
        && digDeepersLeft == old(digDeepersLeft) && isFlipped == old(isFlipped) && stored == old(stored)
      ensures !thrown ==>
        && deck == (if currentLevel.value == Bonus then BonusDeck(catalog.Entry(Bonus))
                    else ShuffledDeck(catalog.Entry(currentLevel.value), catalog.wildcards, deal))
        && cardIndex == 0 && cardsPlayed == 0 && !isFlipped
        && digDeepersLeft == (if currentLevel.value == Bonus then 0 else 1)
      ensures !thrown && deck != [] ==> currentScreen == Some(Game) && stored == old(stored)
      ensures !thrown && deck == [] ==> currentScreen == Some(CompletionScreen(currentLevel)) &&
                                        stored == Some(Saved(currentLevel, totalCardsPlayed, now))
    {
      thrown := ShowGame(deal, now);
    }

    /** The "continue" button of the welcome screen. */
    method Continue()
      requires Valid()
      modifies this`currentScreen, this`currentLevel
      ensures Valid() && currentLevel == old(currentLevel)
      ensures currentScreen == if currentLevel.Some? then Some(LevelIntro) else old(currentScreen)
    {
      if currentLevel.Some? {
        ShowLevelIntro(currentLevel.value);
      }
    }

    // --------------------------------------------------------------- card play

    /**
     * `showCard`: when the cursor has run past the deck the level is completed
     * (forced); otherwise the card is shown face down. Rendering a card reads
     * the current level's catalog entry, which throws when no level is set.
     */
    method ShowCard(now: int) returns (thrown: bool)
      requires Valid()
      modifies this`isFlipped, this`currentScreen, this`stored
      ensures Valid() && ShowedCard(now)
      ensures thrown <==> currentLevel.None?
    {
      if cardIndex >= |deck| {
        thrown := CompleteLevelForced(now);
        return;
      }
      isFlipped := false;
      thrown := currentLevel.None?;
    }

    /** The effect of `showCard` at time `now`. */
    twostate predicate ShowedCard(now: int)
      reads this
    {
      if cardIndex >= |deck| then
        && currentScreen == Some(CompletionScreen(currentLevel))
        && isFlipped == old(isFlipped)
        && stored == (if currentLevel.Some? then Some(Saved(currentLevel, totalCardsPlayed, now)) else old(stored))
      else
        && !isFlipped
        && currentScreen == old(currentScreen)
        && stored == old(stored)
    }

    /** `flipCard`: ignored while animating; reveals a hidden card, and advances from a revealed one. */
    method FlipCard()
      requires Valid()
      modifies this`isFlipped, this`isAnimating, this`cardsPlayed, this`totalCardsPlayed, this`cardIndex,
        this`timerPending
      ensures Valid()
      ensures old(isAnimating) ==> unchanged(this)
      ensures !old(isAnimating) && !old(isFlipped) ==>
        isFlipped && !isAnimating && !timerPending &&
        cardIndex == old(cardIndex) && totalCardsPlayed == old(totalCardsPlayed)
      ensures !old(isAnimating) && old(isFlipped) ==>
        isFlipped && isAnimating && timerPending &&
        cardIndex == old(cardIndex) + 1 && cardsPlayed == old(cardsPlayed) + 1 &&
        totalCardsPlayed == old(totalCardsPlayed) + 1
    {
      if isAnimating {
        return;
      }
      if !isFlipped {
        isFlipped := true;
      } else {
        NextCard();
      }
    }

    /** `nextCard`: ignored while animating; otherwise counts the card, moves on and schedules the transition. */
    method NextCard()
      requires Valid()
      modifies this`isAnimating, this`cardsPlayed, this`totalCardsPlayed, this`cardIndex, this`timerPending
      ensures Valid()
      ensures old(isAnimating) ==> unchanged(this)
      ensures !old(isAnimating) ==>
        isAnimating && timerPending &&
        cardIndex == old(cardIndex) + 1 && cardsPlayed == old(cardsPlayed) + 1 &&
        totalCardsPlayed == old(totalCardsPlayed) + 1
    {
      if isAnimating {
        return;
      }
      isAnimating := true;
      cardsPlayed := cardsPlayed + 1;
      totalCardsPlayed := totalCardsPlayed + 1;
      cardIndex := cardIndex + 1;
      timerPending := true;
    }

    /**
     * `playDigDeeper` with the prompt the random pick selects: ignored without
     * budget or while animating; otherwise spends the budget, splices a
     * dig-deeper card in right after the current one and advances onto it.
     */
    method PlayDigDeeper(pick: nat)
      requires Valid() && pick < |catalog.digDeeper|
      modifies this`digDeepersLeft, this`deck, this`isAnimating, this`cardsPlayed, this`totalCardsPlayed,
        this`cardIndex, this`timerPending
      ensures Valid()
      ensures old(digDeepersLeft) == 0 || old(isAnimating) ==> unchanged(this)
      ensures old(digDeepersLeft) > 0 && !old(isAnimating) ==>
        && digDeepersLeft == old(digDeepersLeft) - 1
        && deck == Splice(old(deck), old(cardIndex) + 1, DigDeeper(catalog.digDeeper[pick]))
        && cardIndex == old(cardIndex) + 1 && cardsPlayed == old(cardsPlayed) + 1
        && totalCardsPlayed == old(totalCardsPlayed) + 1
        && isAnimating && timerPending
      ensures old(digDeepersLeft) > 0 && !old(isAnimating) && old(cardIndex) < |old(deck)| ==>
        deck[cardIndex] == DigDeeper(catalog.digDeeper[pick])
    {
      if digDeepersLeft == 0 || isAnimating {
        return;
      }
      digDeepersLeft := digDeepersLeft - 1;
      var prompt := catalog.digDeeper[pick];
      deck := Splice(deck, cardIndex + 1, DigDeeper(prompt));
      NextCard();
    }

    /**
     * The callback `nextCard` schedules, as written: it shows the next card and
     * only then clears `isAnimating`, so a throw in `showCard` leaves it set.
     */
    method AnimationDone(now: int)
      requires Valid() && timerPending
      modifies this`isAnimating, this`timerPending, this`isFlipped, this`currentScreen, this`stored
      ensures Valid() && ShowedCard(now) && !timerPending
      ensures isAnimating <==> currentLevel.None?
    {
      timerPending := false;
      var thrown := ShowCard(now);
      if !thrown {
        isAnimating := false;
      }
    }

    /** The callback with the flag cleared whether or not showing the card throws. */
    method AnimationDoneGuarded(now: int)
      requires Valid() && timerPending
      modifies this`isAnimating, this`timerPending, this`isFlipped, this`currentScreen, this`stored
      ensures Valid() && ShowedCard(now) && !timerPending
      ensures !isAnimating
    {
      timerPending := false;
      var _ := ShowCard(now);
      isAnimating := false;
    }

    // -------------------------------------------------------- level progression

    /** `advanceLevel`, the next-level button: level-complete, or the final card after the bonus round. */
    method AdvanceLevel(now: int) returns (thrown: bool)
      requires Valid()
      modifies this`currentScreen, this`stored
      ensures Valid() && currentScreen == Some(CompletionScreen(currentLevel))
      ensures thrown <==> currentLevel.None?
      ensures stored == if thrown then old(stored) else Some(Saved(currentLevel, totalCardsPlayed, now))
    {
      if currentLevel == Some(Level3) {
        thrown := ShowLevelComplete(now);
      } else if currentLevel == Some(Bonus) {
        ShowFinalCard(now);
        thrown := false;
      } else {
        thrown := ShowLevelComplete(now);
      }
    }

    /** `completeLevelForced`, when the deck runs out: the same routing as `advanceLevel`. */
    method CompleteLevelForced(now: int) returns (thrown: bool)
      requires Valid()
      modifies this`currentScreen, this`stored
      ensures Valid() && currentScreen == Some(CompletionScreen(currentLevel))
      ensures thrown <==> currentLevel.None?
      ensures stored == if thrown then old(stored) else Some(Saved(currentLevel, totalCardsPlayed, now))
    {
      if currentLevel == Some(Bonus) {
        ShowFinalCard(now);
        thrown := false;
      } else if currentLevel == Some(Level3) {
        thrown := ShowLevelComplete(now);
      } else {
        thrown := ShowLevelComplete(now);
      }
    }

    /** `goToNextLevel`: level 2 after level 1, level 3 after anything else. */
    method GoToNextLevel()
      requires Valid()
      modifies this`currentScreen, this`currentLevel
      ensures Valid() && currentScreen == Some(LevelIntro)
      ensures currentLevel == Some(NextLevel(old(currentLevel)))
    {
      var nextLevel := if currentLevel == Some(Level1) then Level2 else Level3;
      ShowLevelIntro(nextLevel);
    }

    method GoToBonus()
      requires Valid()
      modifies this`currentScreen, this`currentLevel
      ensures Valid() && currentScreen == Some(LevelIntro) && currentLevel == Some(Bonus)
    {
      ShowLevelIntro(Bonus);
    }

    method GoToFinalCard(now: int)
      requires Valid()
      modifies this`currentScreen, this`stored
      ensures Valid() && currentScreen == Some(FinalCard)
      ensures stored == Some(Saved(currentLevel, totalCardsPlayed, now))
    {
      ShowFinalCard(now);
    }

    /** `saveNote`: a note whose trimmed text is not empty is appended; then the end screen. */
    method SaveNote(input: string, date: string)
      requires Valid()
      modifies this`notes, this`currentScreen, this`stored, this`currentLevel, this`totalCardsPlayed
      ensures Valid() && currentScreen == Some(End)
      ensures notes == if Trim(input) == [] then old(notes) else old(notes) + [Note(Trim(input), date)]
      ensures stored == None && currentLevel == None && totalCardsPlayed == 0
    {
      var note := Trim(input);
      if note != [] {
        notes := notes + [Note(note, date)];
      }
      ShowEnd();
    }

    // -------------------------------------------------------------- persistence

    /** `saveProgress` at time `now`. */
    method SaveProgress(now: int)
      requires Valid()
      modifies this`stored
      ensures Valid() && stored == Some(Saved(currentLevel, totalCardsPlayed, now))
    {
      stored := Some(Progress(currentLevel, Some(totalCardsPlayed), now));
    }

    /** `loadProgress` at time `now`: only a record younger than 24 hours is restored. */
    method LoadProgress(now: int)
      requires Valid()
      modifies this`currentLevel, this`totalCardsPlayed
      ensures Valid()
      ensures (currentLevel, totalCardsPlayed) == Restored(stored, now, old(currentLevel), old(totalCardsPlayed))
    {
      if stored.Some? {
        var data := stored.value;
        if now - data.timestamp < DAY_MS {
          currentLevel := data.currentLevel;
          totalCardsPlayed := match data.totalCardsPlayed { case Some(t) => t case None => 0 };
        }
      }
    }

    method ClearProgress()
      requires Valid()
      modifies this`stored, this`currentLevel, this`totalCardsPlayed
      ensures Valid() && stored == None && currentLevel == None && totalCardsPlayed == 0
    {
      stored := None;
      currentLevel := None;
      totalCardsPlayed := 0;
    }

    /**
     * `resetGame`: clears the progress and the counters and restores the Dig
     * Deeper budget; the deck and both flags are left as they are.
     */
    method ResetGame()
      requires Valid()
      modifies this`stored, this`currentLevel, this`totalCardsPlayed, this`cardIndex, this`cardsPlayed,
        this`digDeepersLeft, this`currentScreen
      ensures Valid()
      ensures stored == None && currentLevel == None && totalCardsPlayed == 0
      ensures cardIndex == 0 && cardsPlayed == 0 && digDeepersLeft == 1
      ensures currentScreen == Some(Welcome)
    {
      ClearProgress();
      currentLevel := None;
      cardIndex := 0;
      cardsPlayed := 0;
      totalCardsPlayed := 0;
      digDeepersLeft := 1;
      ShowWelcome();
    }
  }

  /**
   * Restarting from the menu while a card transition is pending: the callback
   * then throws on the cleared level, `isAnimating` stays set with no callback
   * left to clear it, and in the next game the first card can no longer be
   * turned over.
   */
  method RestartDuringTransition(app: App, deal: Deal, now: int)
    requires app.Valid() && !app.isAnimating && app.isFlipped
    requires Fits(deal, |app.catalog.level1.cards|, |app.catalog.wildcards|)
    modifies app
    ensures app.isAnimating && !app.timerPending
    ensures app.currentScreen == Some(Game) || app.currentScreen == Some(LevelComplete)
    ensures !app.isFlipped
  {
    app.FlipCard();
    app.ShowMenu();
    app.ResetGame();
    app.AnimationDone(now);
    app.ShowLevelIntro(Level1);
    var _ := app.ShowGame(deal, now);
    app.FlipCard();
  }

  /** The same sequence with the guarded callback: the next game plays normally. */
  method RestartDuringTransitionGuarded(app: App, deal: Deal, now: int)
    requires app.Valid() && !app.isAnimating && app.isFlipped
    requires Fits(deal, |app.catalog.level1.cards|, |app.catalog.wildcards|)
    modifies app
    ensures !app.isAnimating && !app.timerPending
    ensures app.isFlipped
  {
    app.FlipCard();
    app.ShowMenu();
    app.ResetGame();
    app.AnimationDoneGuarded(now);
    app.ShowLevelIntro(Level1);
    var _ := app.ShowGame(deal, now);
    app.FlipCard();
  }
}
