/**
 * The plain conditionals of the session: the minimum-cards threshold, level
 * routing, the menu's status labels, the saved-progress record with its 24-hour
 * staleness test, and the whitespace trimming applied to a note.
 */
module Rules {
  import opened Cards

  const MIN_CARDS_PER_LEVEL: nat := 15
  const MIN_CARDS_BONUS: nat := 12
  const DAY_MS: int := 86400000

  const IN_PROGRESS: string := "In progress"
  const DONE: string := "Done"

  /** The screens of the app; the menu is a screen of its own. */
  datatype Screen = Welcome | LevelIntro | Game | LevelComplete | FinalCard | End | Menu

  /** The position of a level in the fixed play order level 1, 2, 3, bonus. */
  function Rank(l: Level): nat {
    match l
    case Level1 => 0
    case Level2 => 1
    case Level3 => 2
    case Bonus => 3
  }

  // ---------------------------------------------------------------- thresholds

  /** `minCards` of `updateNextLevelButton`. */
  function MinCards(l: Option<Level>): (n: nat)
    ensures n == MIN_CARDS_BONUS <==> l == Some(Bonus)
    ensures n == MIN_CARDS_PER_LEVEL <==> l != Some(Bonus)
  {
    if l == Some(Bonus) then MIN_CARDS_BONUS else MIN_CARDS_PER_LEVEL
  }

  /** Whether the next-level button is shown after `played` cards of the level. */
  predicate NextLevelAvailable(l: Option<Level>, played: nat) {
    played >= MinCards(l)
  }

  /** Once shown, the button stays shown while more cards are played, and the bonus round unlocks before a main level. */
  lemma NextLevelAvailableMonotone(l: Option<Level>, played: nat, more: nat)
    requires NextLevelAvailable(l, played) && played <= more
    ensures NextLevelAvailable(l, more)
    ensures NextLevelAvailable(Some(Bonus), played)
  {
  }

  /** The next-level button's label when shown. */
  function NextLevelLabel(l: Option<Level>): (r: string)
    ensures r == "Final Card" <==> l == Some(Level3) || l == Some(Bonus)
    ensures r == "Next Level" <==> l != Some(Level3) && l != Some(Bonus)
  {
    if l == Some(Level3) then "Final Card"
    else if l == Some(Bonus) then "Final Card"
    else "Next Level"
  }

  // ------------------------------------------------------------------ routing

  /**
   * The screen both `advanceLevel` and `completeLevelForced` show: the final
   * card after the bonus round, the level-complete screen after any other level.
   */
  function CompletionScreen(l: Option<Level>): (s: Screen)
    ensures s == FinalCard <==> l == Some(Bonus)
    ensures s == LevelComplete <==> l != Some(Bonus)
  {
    if l == Some(Bonus) then FinalCard else LevelComplete
  }

  /** `goToNextLevel`'s choice of the next level. */
  function NextLevel(l: Option<Level>): (r: Level)
    ensures r == Level2 <==> l == Some(Level1)
    ensures r == Level3 <==> l != Some(Level1)
  {
    if l == Some(Level1) then Level2 else Level3
  }

  /** From level 1 and level 2 the next level is the following one in play order. */
  lemma NextLevelAdvances(l: Level)
    requires l == Level1 || l == Level2
    ensures Rank(NextLevel(Some(l))) == Rank(l) + 1
  {
  }

  // -------------------------------------------------------------- menu labels

  /** The right-hand status text of the four level rows of the menu. */
  datatype MenuStatus = MenuStatus(level1: string, level2: string, level3: string, bonus: string)
  {
    function Rows(): seq<string> {
      [level1, level2, level3, bonus]
    }
  }

  /** `levels.indexOf(currentLevel)` over `['level1', 'level2', 'level3']`. */
  function MainIndex(l: Option<Level>): (r: int)
    ensures r == -1 <==> l.None? || l == Some(Bonus)
    ensures r != -1 ==> r == Rank(l.value)
  {
    match l
    case Some(Level1) => 0
    case Some(Level2) => 1
    case Some(Level3) => 2
    case _ => -1
  }

  /** The labels `showMenu` writes, as a function of the current level. */
  function MenuLabels(l: Option<Level>): MenuStatus {
    var currentIdx := MainIndex(l);
    var isBonusActive := l == Some(Bonus);
    MenuStatus(
      if l == Some(Level1) then IN_PROGRESS else if currentIdx > 0 || isBonusActive then DONE else "",
      if l == Some(Level2) then IN_PROGRESS else if currentIdx > 1 || isBonusActive then DONE else "",
      if l == Some(Level3) then IN_PROGRESS else if isBonusActive then DONE else "",
      if isBonusActive then IN_PROGRESS else "")
  }

  /**
   * The menu reads as a progress bar over the play order: the levels before
   * the current one are "Done", the current one is "In progress", the later ones
   * are blank; with no current level every row is blank.
   */
  lemma MenuLabelsFollowPlayOrder(l: Option<Level>, row: nat)
    requires row < 4
    ensures MenuLabels(l).Rows()[row] ==
      if l.None? then ""
      else if row < Rank(l.value) then DONE
      else if row == Rank(l.value) then IN_PROGRESS
      else ""
  {
  }

  // ------------------------------------------------------------ saved progress

  /**
   * The record stored under `betweenUs_progress`. The total is optional because
   * `data.totalCardsPlayed || 0` reads a missing total as 0.
   */
  datatype Progress = Progress(currentLevel: Option<Level>, totalCardsPlayed: Option<nat>, timestamp: int)

  /** The record `saveProgress` writes at time `now`. */
  function Saved(l: Option<Level>, total: nat, now: int): (p: Progress)
    ensures p.currentLevel == l && p.totalCardsPlayed == Some(total) && p.timestamp == now
  {
    Progress(l, Some(total), now)
  }

  /** The staleness test of `loadProgress`: younger than 24 hours. */
  predicate IsFresh(p: Progress, now: int) {
    now - p.timestamp < DAY_MS
  }

  /** The level and lifetime total after `loadProgress` at `now`, starting from `level` and `total`. */
  function Restored(stored: Option<Progress>, now: int, level: Option<Level>, total: nat): (Option<Level>, nat) {
    if stored.Some? && IsFresh(stored.value, now) then
      (stored.value.currentLevel,
       match stored.value.totalCardsPlayed { case Some(t) => t case None => 0 })
    else (level, total)
  }

  /** What was saved is what is loaded back within 24 hours. */
  lemma SaveThenLoad(l: Option<Level>, t: nat, savedAt: int, now: int, level: Option<Level>, total: nat)
    requires now - savedAt < DAY_MS
    ensures Restored(Some(Saved(l, t, savedAt)), now, level, total) == (l, t)
  {
  }

  /** A missing record, or one 24 hours old or older, leaves the state as it was; a missing total loads as 0. */
  lemma LoadIgnoresStale(stored: Option<Progress>, now: int, level: Option<Level>, total: nat)
    ensures stored.None? ==> Restored(stored, now, level, total) == (level, total)
    ensures stored.Some? && now - stored.value.timestamp >= DAY_MS ==>
      Restored(stored, now, level, total) == (level, total)
    ensures stored.Some? && IsFresh(stored.value, now) && stored.value.totalCardsPlayed.None? ==>
      Restored(stored, now, level, total) == (stored.value.currentLevel, 0)
  {
  }

  // -------------------------------------------------------------------- notes

  /** A note as `saveNote` appends it. */
  datatype Note = Note(text: string, date: string)

  /** The characters `String.prototype.trim` removes: white space and line terminators. */
  predicate IsJsWhitespace(c: char) {
    var n := c as int;
    n == 0x09 || n == 0x0A || n == 0x0B || n == 0x0C || n == 0x0D || n == 0x20 ||
    n == 0xA0 || n == 0x1680 || (0x2000 <= n <= 0x200A) || n == 0x2028 || n == 0x2029 ||
    n == 0x202F || n == 0x205F || n == 0x3000 || n == 0xFEFF
  }

  /** The length of the run of white space at the start of `s`. */
  function LeadingWhitespace(s: string): (n: nat)
    ensures n <= |s|
    ensures forall k :: 0 <= k < n ==> IsJsWhitespace(s[k])
    ensures n < |s| ==> !IsJsWhitespace(s[n])
  {
    if s == [] || !IsJsWhitespace(s[0]) then 0 else 1 + LeadingWhitespace(s[1..])
  }

  /** The length of the run of white space at the end of `s`. */
  function TrailingWhitespace(s: string): (n: nat)
    ensures n <= |s|
    ensures forall k :: |s| - n <= k < |s| ==> IsJsWhitespace(s[k])
    ensures n < |s| ==> !IsJsWhitespace(s[|s| - 1 - n])
  {
    if s == [] || !IsJsWhitespace(s[|s| - 1]) then 0 else 1 + TrailingWhitespace(s[..|s| - 1])
  }

  /** `r` is the part of `s` that starts at `a`, with nothing but white space before it and after it. */
  predicate Strips(s: string, a: nat, r: string) {
    && a + |r| <= |s|
    && r == s[a..a + |r|]
    && (forall k :: 0 <= k < a ==> IsJsWhitespace(s[k]))
    && (forall k :: a + |r| <= k < |s| ==> IsJsWhitespace(s[k]))
  }

  /**
   * `String.prototype.trim`: the result is a part of the input with only white
   * space around it; it is empty exactly when the input is all white space, and
   * otherwise starts and ends with a visible character.
   */
  function Trim(s: string): (r: string)
    ensures |r| <= |s|
    ensures r == [] <==> forall k :: 0 <= k < |s| ==> IsJsWhitespace(s[k])
    ensures r != [] ==> !IsJsWhitespace(r[0]) && !IsJsWhitespace(r[|r| - 1])
    ensures exists a :: Strips(s, a, r)
  {
    var a := LeadingWhitespace(s);
    var t := s[a..];
    var b := TrailingWhitespace(t);
    var r := t[..|t| - b];
    assert a < |s| ==> t[0] == s[a];
    assert r != [] ==> r[0] == t[0] && r[|r| - 1] == t[|t| - 1 - b];
    assert r == s[a..a + |r|];
    assert forall k :: a + |r| <= k < |s| ==> IsJsWhitespace(s[k]) by {
      forall k | a + |r| <= k < |s| ensures IsJsWhitespace(s[k]) {
        assert s[k] == t[k - a];
      }
    }
    assert Strips(s, a, r);
    r
  }
}
