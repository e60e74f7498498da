/**
 * Deck construction: `buildDeck` (shuffled questions with a wildcard after every
 * fifth one), `buildBonusDeck` (the catalog order with set labels) and the
 * in-place insertion `deck.splice(at, 0, card)` that Dig Deeper performs.
 */
module Deck {
  import opened Cards
  import opened Shuffling

  const WILDCARD_FREQUENCY: nat := 5

  function Min(a: int, b: int): int {
    if a <= b then a else b
  }

  /** How many wildcards are placed after `i` questions when the pool holds `w`: one per five, while they last. */
  function WildcardsPlaced(i: nat, w: nat): (r: nat)
    ensures r <= w && r * WILDCARD_FREQUENCY <= i
  {
    Min(i / WILDCARD_FREQUENCY, w)
  }

  /**
   * The test `buildDeck` makes after the `i`-th question (counting from 1): a
   * multiple of five, and a wildcard left in a pool of `w`.
   */
  predicate PlacesWildcard(i: nat, w: nat) {
    1 <= i && i % WILDCARD_FREQUENCY == 0 && WildcardsPlaced(i - 1, w) < w
  }

  /** The count of placed wildcards grows by one exactly at the questions that are followed by one. */
  lemma PlacedStep(i: nat, w: nat)
    requires i >= 1
    ensures WildcardsPlaced(i, w) == WildcardsPlaced(i - 1, w) + (if PlacesWildcard(i, w) then 1 else 0)
    ensures PlacesWildcard(i, w) ==> i == WILDCARD_FREQUENCY * (WildcardsPlaced(i - 1, w) + 1)
  {
    if i % WILDCARD_FREQUENCY == 0 {
      assert i / WILDCARD_FREQUENCY == (i - 1) / WILDCARD_FREQUENCY + 1;
    } else {
      assert i / WILDCARD_FREQUENCY == (i - 1) / WILDCARD_FREQUENCY;
    }
  }

  /** The `i`-th question is followed by a wildcard exactly when i is the 5th, 10th, ... and the pool has an i/5-th wildcard. */
  lemma PlacesWildcardIff(i: nat, w: nat)
    requires i >= 1
    ensures PlacesWildcard(i, w) <==> i % WILDCARD_FREQUENCY == 0 && i / WILDCARD_FREQUENCY <= w
  {
    if i % WILDCARD_FREQUENCY == 0 {
      assert i / WILDCARD_FREQUENCY == (i - 1) / WILDCARD_FREQUENCY + 1;
    }
  }

  /** The random draws that `setupGame` consumes for one shuffled deck. */
  datatype Deal = Deal(questionDraws: seq<nat>, wildcardDraws: seq<nat>)

  predicate Fits(deal: Deal, questions: nat, wildcards: nat) {
    ValidDraws(questions, deal.questionDraws) && ValidDraws(wildcards, deal.wildcardDraws)
  }

  /** The cards `buildDeck` pushes for the `i`-th question (counting from 1): the question, and maybe a wildcard. */
  function Step(qs: seq<string>, wcs: seq<string>, ld: LevelData, i: nat): seq<Card>
    requires 1 <= i <= |qs|
  {
    [Question(qs[i - 1], ld.color, ld.colorLight, None)]
    + (if PlacesWildcard(i, |wcs|) then [Wildcard(wcs[WildcardsPlaced(i - 1, |wcs|)])] else [])
  }

  /**
   * The cards `buildDeck` has pushed after the first `i` questions of `qs`,
   * with the wildcards taken in order from `wcs`.
   */
  function Dealt(qs: seq<string>, wcs: seq<string>, ld: LevelData, i: nat): seq<Card>
    requires i <= |qs|
  {
    if i == 0 then [] else Dealt(qs, wcs, ld, i - 1) + Step(qs, wcs, ld, i)
  }

  /** The deck `buildDeck(ld)` returns for the given random draws. */
  function ShuffledDeck(ld: LevelData, wildcards: seq<string>, deal: Deal): seq<Card>
    requires Fits(deal, |ld.cards|, |wildcards|)
  {
    Dealt(Shuffled(ld.cards, deal.questionDraws), Shuffled(wildcards, deal.wildcardDraws), ld, |ld.cards|)
  }

  /** The cards of one step: the question, then the wildcard when one is placed. */
  lemma StepCards(qs: seq<string>, wcs: seq<string>, ld: LevelData, i: nat)
    requires 1 <= i <= |qs|
    ensures var st := Step(qs, wcs, ld, i);
      && |st| == (if PlacesWildcard(i, |wcs|) then 2 else 1)
      && st[0] == Question(qs[i - 1], ld.color, ld.colorLight, None)
      && (PlacesWildcard(i, |wcs|) ==> st[1] == Wildcard(wcs[WildcardsPlaced(i - 1, |wcs|)]))
  {
  }

  /** The texts of one step by kind: its question, its wildcard if any, and no dig-deeper prompt. */
  lemma StepTexts(qs: seq<string>, wcs: seq<string>, ld: LevelData, i: nat, k: Kind)
    requires 1 <= i <= |qs|
    ensures Texts(Step(qs, wcs, ld, i), k) ==
      match k
      case QuestionKind => [qs[i - 1]]
      case WildcardKind => if PlacesWildcard(i, |wcs|) then [wcs[WildcardsPlaced(i - 1, |wcs|)]] else []
      case DigDeeperKind => []
  {
    var st := Step(qs, wcs, ld, i);
    var q := Question(qs[i - 1], ld.color, ld.colorLight, None);
    if PlacesWildcard(i, |wcs|) {
      var w := Wildcard(wcs[WildcardsPlaced(i - 1, |wcs|)]);
      assert st == [q, w];
      assert st[1..] == [w] && st[1..][1..] == [];
    } else {
      assert st == [q];
      assert st[1..] == [];
    }
  }

  /** A step takes the next wildcard of the pool exactly when it places one. */
  lemma StepWildcards(qs: seq<string>, wcs: seq<string>, ld: LevelData, i: nat)
    requires 1 <= i <= |qs|
    ensures var m := WildcardsPlaced(i - 1, |wcs|);
      if PlacesWildcard(i, |wcs|) then
        m < |wcs| && WildcardsPlaced(i, |wcs|) == m + 1 && Texts(Step(qs, wcs, ld, i), WildcardKind) == [wcs[m]]
      else
        WildcardsPlaced(i, |wcs|) == m && Texts(Step(qs, wcs, ld, i), WildcardKind) == []
  {
    StepTexts(qs, wcs, ld, i, WildcardKind);
    PlacedStep(i, |wcs|);
  }

  /** After i questions the deal holds i questions and the wildcards they earned. */
  lemma {:induction false} DealtLength(qs: seq<string>, wcs: seq<string>, ld: LevelData, i: nat)
    requires i <= |qs|
    ensures |Dealt(qs, wcs, ld, i)| == i + WildcardsPlaced(i, |wcs|)
  {
    if i > 0 {
      var a, b := Dealt(qs, wcs, ld, i - 1), Step(qs, wcs, ld, i);
      DealtLength(qs, wcs, ld, i - 1);
      StepCards(qs, wcs, ld, i);
      PlacedStep(i, |wcs|);
      assert Dealt(qs, wcs, ld, i) == a + b;
    }
  }

  /** The questions of the deal, read in order, are the first i of `qs`. */
  lemma {:induction false} DealtQuestions(qs: seq<string>, wcs: seq<string>, ld: LevelData, i: nat)
    requires i <= |qs|
    ensures Texts(Dealt(qs, wcs, ld, i), QuestionKind) == qs[..i]
  {
    if i > 0 {
      var a, b := Dealt(qs, wcs, ld, i - 1), Step(qs, wcs, ld, i);
      DealtQuestions(qs, wcs, ld, i - 1);
      StepTexts(qs, wcs, ld, i, QuestionKind);
      assert Dealt(qs, wcs, ld, i) == a + b;
      TextsConcat(a, b, QuestionKind, qs[..i - 1], [qs[i - 1]]);
      assert qs[..i] == qs[..i - 1] + [qs[i - 1]];
    }
  }

  /** The wildcards of the deal, read in order, are the first ones of the pool. */
  lemma {:induction false} DealtWildcards(qs: seq<string>, wcs: seq<string>, ld: LevelData, i: nat)
    requires i <= |qs|
    ensures Texts(Dealt(qs, wcs, ld, i), WildcardKind) == wcs[..WildcardsPlaced(i, |wcs|)]
  {
    if i > 0 {
      var a, b := Dealt(qs, wcs, ld, i - 1), Step(qs, wcs, ld, i);
      var m := WildcardsPlaced(i - 1, |wcs|);
      DealtWildcards(qs, wcs, ld, i - 1);
      StepWildcards(qs, wcs, ld, i);
      assert Dealt(qs, wcs, ld, i) == a + b;
      if PlacesWildcard(i, |wcs|) {
        TextsConcat(a, b, WildcardKind, wcs[..m], [wcs[m]]);
        assert wcs[..m + 1] == wcs[..m] + [wcs[m]];
      } else {
        TextsConcat(a, b, WildcardKind, wcs[..m], []);
        assert wcs[..m] + [] == wcs[..m];
      }
    }
  }

  /** Building a deck never adds a dig-deeper card. */
  lemma DealtNoDigDeeper(qs: seq<string>, wcs: seq<string>, ld: LevelData, i: nat)
    requires i <= |qs|
    ensures Texts(Dealt(qs, wcs, ld, i), DigDeeperKind) == []
  {
    DealtCards(qs, wcs, ld, i);
    TextsEmpty(Dealt(qs, wcs, ld, i), DigDeeperKind);
  }

  /** The counters of the deal: its length, and its question, wildcard and dig-deeper texts. */
  lemma DealtShape(qs: seq<string>, wcs: seq<string>, ld: LevelData, i: nat)
    requires i <= |qs|
    ensures |Dealt(qs, wcs, ld, i)| == i + WildcardsPlaced(i, |wcs|)
    ensures Texts(Dealt(qs, wcs, ld, i), QuestionKind) == qs[..i]
    ensures Texts(Dealt(qs, wcs, ld, i), WildcardKind) == wcs[..WildcardsPlaced(i, |wcs|)]
    ensures Texts(Dealt(qs, wcs, ld, i), DigDeeperKind) == []
  {
    DealtLength(qs, wcs, ld, i);
    DealtQuestions(qs, wcs, ld, i);
    DealtWildcards(qs, wcs, ld, i);
    DealtNoDigDeeper(qs, wcs, ld, i);
  }

  /** Question k (counting from 0) sits at `k + WildcardsPlaced(k, |wcs|)`: after k questions and the wildcards they earned. */
  lemma {:induction false} DealtQuestionAt(qs: seq<string>, wcs: seq<string>, ld: LevelData, i: nat, k: nat)
    requires k < i <= |qs|
    ensures k + WildcardsPlaced(k, |wcs|) < |Dealt(qs, wcs, ld, i)|
    ensures Dealt(qs, wcs, ld, i)[k + WildcardsPlaced(k, |wcs|)] == Question(qs[k], ld.color, ld.colorLight, None)
  {
    var a, b := Dealt(qs, wcs, ld, i - 1), Step(qs, wcs, ld, i);
    assert Dealt(qs, wcs, ld, i) == a + b;
    var p := k + WildcardsPlaced(k, |wcs|);
    if k < i - 1 {
      DealtQuestionAt(qs, wcs, ld, i - 1, k);
      assert (a + b)[p] == a[p];
    } else {
      DealtLength(qs, wcs, ld, i - 1);
      StepCards(qs, wcs, ld, i);
      assert p == |a|;
      assert (a + b)[p] == b[0];
    }
  }

  /** Wildcard j (counting from 0) sits at `6 * j + 5`, right after question `5 * j + 4`. */
  lemma {:induction false} DealtWildcardAt(qs: seq<string>, wcs: seq<string>, ld: LevelData, i: nat, j: nat)
    requires i <= |qs| && j < WildcardsPlaced(i, |wcs|)
    ensures 6 * j + 5 < |Dealt(qs, wcs, ld, i)|
    ensures Dealt(qs, wcs, ld, i)[6 * j + 5] == Wildcard(wcs[j])
  {
    var a, b := Dealt(qs, wcs, ld, i - 1), Step(qs, wcs, ld, i);
    assert Dealt(qs, wcs, ld, i) == a + b;
    PlacedStep(i, |wcs|);
    if j < WildcardsPlaced(i - 1, |wcs|) {
      DealtWildcardAt(qs, wcs, ld, i - 1, j);
      assert (a + b)[6 * j + 5] == a[6 * j + 5];
    } else {
      DealtLength(qs, wcs, ld, i - 1);
      StepCards(qs, wcs, ld, i);
      assert PlacesWildcard(i, |wcs|) && j == WildcardsPlaced(i - 1, |wcs|);
      assert |a| + 1 == 6 * j + 5;
      assert (a + b)[6 * j + 5] == b[1];
    }
  }

  /** A wildcard is always pushed right after a question, so no two wildcards are adjacent. */
  lemma {:induction false} DealtNoAdjacentWildcards(qs: seq<string>, wcs: seq<string>, ld: LevelData, i: nat)
    requires i <= |qs|
    ensures forall p :: 0 <= p < |Dealt(qs, wcs, ld, i)| && Dealt(qs, wcs, ld, i)[p].Wildcard? ==>
      p > 0 && Dealt(qs, wcs, ld, i)[p - 1].Question?
  {
    if i > 0 {
      DealtNoAdjacentWildcards(qs, wcs, ld, i - 1);
      var prev := Dealt(qs, wcs, ld, i - 1);
      var cur := Dealt(qs, wcs, ld, i);
      assert forall p :: 0 <= p < |prev| ==> cur[p] == prev[p];
      assert cur[|prev|].Question?;
    }
  }

  /** Every card is a question in the level's colours without a set label, or a wildcard. */
  lemma {:induction false} DealtCards(qs: seq<string>, wcs: seq<string>, ld: LevelData, i: nat)
    requires i <= |qs|
    ensures forall p :: 0 <= p < |Dealt(qs, wcs, ld, i)| ==>
      var c := Dealt(qs, wcs, ld, i)[p];
      (c.Question? && c.color == ld.color && c.colorLight == ld.colorLight && c.setLabel == None) || c.Wildcard?
  {
    if i > 0 {
      DealtCards(qs, wcs, ld, i - 1);
      var prev := Dealt(qs, wcs, ld, i - 1);
      var cur := Dealt(qs, wcs, ld, i);
      assert forall p :: 0 <= p < |prev| ==> cur[p] == prev[p];
    }
  }

  /**
   * In the full deal, a wildcard immediately follows the k-th question (counting
   * from 1) exactly when k is a multiple of 5 and the pool has not run out.
   */
  lemma WildcardFollows(qs: seq<string>, wcs: seq<string>, ld: LevelData, k: nat)
    requires 1 <= k <= |qs|
    ensures var d := Dealt(qs, wcs, ld, |qs|);
      var p := (k - 1) + WildcardsPlaced(k - 1, |wcs|);
      p < |d| && d[p] == Question(qs[k - 1], ld.color, ld.colorLight, None) &&
      ((p + 1 < |d| && d[p + 1].Wildcard?) <==> PlacesWildcard(k, |wcs|))
  {
    var n := |qs|;
    var d := Dealt(qs, wcs, ld, n);
    DealtShape(qs, wcs, ld, n);
    DealtQuestionAt(qs, wcs, ld, n, k - 1);
    PlacedStep(k, |wcs|);
    var p := (k - 1) + WildcardsPlaced(k - 1, |wcs|);
    if PlacesWildcard(k, |wcs|) {
      var j := WildcardsPlaced(k - 1, |wcs|);
      assert WildcardsPlaced(k, |wcs|) <= WildcardsPlaced(n, |wcs|);
      DealtWildcardAt(qs, wcs, ld, n, j);
      assert p + 1 == 6 * j + 5;
    } else if k < n {
      DealtQuestionAt(qs, wcs, ld, n, k);
    } else {
      assert p + 1 == |d|;
    }
  }

  /** Twenty questions and a pool of at least four give 24 cards, the last one a wildcard. */
  lemma TwentyQuestions(qs: seq<string>, wcs: seq<string>, ld: LevelData)
    requires |qs| == 20 && |wcs| >= 4
    ensures |Dealt(qs, wcs, ld, 20)| == 24
    ensures Texts(Dealt(qs, wcs, ld, 20), WildcardKind) == wcs[..4]
    ensures Dealt(qs, wcs, ld, 20)[23] == Wildcard(wcs[3])
  {
    DealtShape(qs, wcs, ld, 20);
    DealtWildcardAt(qs, wcs, ld, 20, 3);
  }

  /**
   * The questions of a shuffled deck, read in order, are the shuffled catalog: a
   * permutation of the level's cards; the deck grows by the wildcards placed.
   */
  lemma ShuffledDeckQuestions(ld: LevelData, wildcards: seq<string>, deal: Deal)
    requires Fits(deal, |ld.cards|, |wildcards|)
    ensures var cards := ShuffledDeck(ld, wildcards, deal);
      && |cards| == |ld.cards| + WildcardsPlaced(|ld.cards|, |wildcards|)
      && Texts(cards, QuestionKind) == Shuffled(ld.cards, deal.questionDraws)
      && multiset(Texts(cards, QuestionKind)) == multiset(ld.cards)
      && Texts(cards, DigDeeperKind) == []
  {
    ShuffledPermutes(ld.cards, deal.questionDraws);
    ShuffledPermutes(wildcards, deal.wildcardDraws);
    var qs := Shuffled(ld.cards, deal.questionDraws);
    var wcs := Shuffled(wildcards, deal.wildcardDraws);
    var n := |ld.cards|;
    assert ShuffledDeck(ld, wildcards, deal) == Dealt(qs, wcs, ld, n);
    DealtShape(qs, wcs, ld, n);
    assert qs[..n] == qs;
  }

  /**
   * A shuffled deck holds `min(n / 5, |wildcards|)` wildcards, each from the
   * pool and none twice more often than the pool has it.
   */
  lemma ShuffledDeckWildcards(ld: LevelData, wildcards: seq<string>, deal: Deal)
    requires Fits(deal, |ld.cards|, |wildcards|)
    ensures var cards := ShuffledDeck(ld, wildcards, deal);
      && |Texts(cards, WildcardKind)| == WildcardsPlaced(|ld.cards|, |wildcards|)
      && multiset(Texts(cards, WildcardKind)) <= multiset(wildcards)
  {
    ShuffledPermutes(ld.cards, deal.questionDraws);
    ShuffledPermutes(wildcards, deal.wildcardDraws);
    var qs := Shuffled(ld.cards, deal.questionDraws);
    var wcs := Shuffled(wildcards, deal.wildcardDraws);
    var n := |ld.cards|;
    assert ShuffledDeck(ld, wildcards, deal) == Dealt(qs, wcs, ld, n);
    DealtShape(qs, wcs, ld, n);
    PrefixSubMultiset(wcs, WildcardsPlaced(n, |wcs|));
  }

  /** Every question of a shuffled deck carries the level's colours, and no two wildcards are adjacent. */
  lemma ShuffledDeckCards(ld: LevelData, wildcards: seq<string>, deal: Deal)
    requires Fits(deal, |ld.cards|, |wildcards|)
    ensures var cards := ShuffledDeck(ld, wildcards, deal);
      && (forall p :: 0 <= p < |cards| && cards[p].Question? ==>
            cards[p].color == ld.color && cards[p].colorLight == ld.colorLight)
      && (forall p :: 0 <= p < |cards| && cards[p].Wildcard? ==> p > 0 && cards[p - 1].Question?)
  {
    ShuffledPermutes(ld.cards, deal.questionDraws);
    ShuffledPermutes(wildcards, deal.wildcardDraws);
    var qs := Shuffled(ld.cards, deal.questionDraws);
    var wcs := Shuffled(wildcards, deal.wildcardDraws);
    var n := |ld.cards|;
    assert ShuffledDeck(ld, wildcards, deal) == Dealt(qs, wcs, ld, n);
    DealtCards(qs, wcs, ld, n);
    DealtNoAdjacentWildcards(qs, wcs, ld, n);
  }

  lemma PrefixSubMultiset<T>(s: seq<T>, m: nat)
    requires m <= |s|
    ensures multiset(s[..m]) <= multiset(s)
  {
    assert s == s[..m] + s[m..];
    assert multiset(s) == multiset(s[..m]) + multiset(s[m..]);
  }

  /** `buildDeck(levelData)` with the wildcard pool `wildcards` and the random draws `deal`. */
  method BuildDeck(ld: LevelData, wildcards: seq<string>, deal: Deal) returns (cards: seq<Card>)
    requires Fits(deal, |ld.cards|, |wildcards|)
    ensures cards == ShuffledDeck(ld, wildcards, deal)
  {
    var questions := new string[|ld.cards|](k requires 0 <= k < |ld.cards| => ld.cards[k]);
    assert questions[..] == ld.cards;
    Shuffle(questions, deal.questionDraws);
    var pool := new string[|wildcards|](k requires 0 <= k < |wildcards| => wildcards[k]);
    assert pool[..] == wildcards;
    Shuffle(pool, deal.wildcardDraws);
    cards := Interleave(questions[..], pool[..], ld);
  }

  /**
   * The `forEach` of `buildDeck` over the shuffled questions: push each question,
   * and after every fifth one the next wildcard while the pool lasts.
   */
  method Interleave(qs: seq<string>, wcs: seq<string>, ld: LevelData) returns (cards: seq<Card>)
    ensures cards == Dealt(qs, wcs, ld, |qs|)
  {
    cards := [];
    var wcIndex := 0;
    var i := 0;
    while i < |qs|
      invariant 0 <= i <= |qs|
      invariant wcIndex == WildcardsPlaced(i, |wcs|)
      invariant cards == Dealt(qs, wcs, ld, i)
    {
      PlacedStep(i + 1, |wcs|);
      cards := cards + [Question(qs[i], ld.color, ld.colorLight, None)];
      if (i + 1) % WILDCARD_FREQUENCY == 0 && wcIndex < |wcs| {
        cards := cards + [Wildcard(wcs[wcIndex])];
        wcIndex := wcIndex + 1;
      }
      i := i + 1;
    }
  }

  /** The bonus set label by position: the three sets of twelve. */
  function SetLabel(i: nat): (r: string)
    ensures r == "Set I" <==> i < 12
    ensures r == "Set II" <==> 12 <= i < 24
    ensures r == "Set III" <==> 24 <= i
  {
    if i < 12 then "Set I" else if i < 24 then "Set II" else "Set III"
  }

  /** `buildBonusDeck(levelData)`: the catalog in its own order, each card labelled with its set. */
  function BonusDeck(ld: LevelData): (r: seq<Card>)
    ensures |r| == |ld.cards|
    ensures forall i :: 0 <= i < |r| ==>
      r[i] == Question(ld.cards[i], ld.color, ld.colorLight, Some(SetLabel(i)))
  {
    seq(|ld.cards|, i requires 0 <= i < |ld.cards| =>
      Question(ld.cards[i], ld.color, ld.colorLight, Some(SetLabel(i))))
  }

  /** A deck made only of questions reads back the question texts in order. */
  lemma {:induction false} AllQuestionsTexts(d: seq<Card>, texts: seq<string>)
    requires |d| == |texts|
    requires forall p :: 0 <= p < |d| ==> d[p].Question? && d[p].text == texts[p]
    ensures Texts(d, QuestionKind) == texts
    ensures Texts(d, WildcardKind) == [] && Texts(d, DigDeeperKind) == []
  {
    TextsEmpty(d, WildcardKind);
    TextsEmpty(d, DigDeeperKind);
    if d != [] {
      AllQuestionsTexts(d[1..], texts[1..]);
    }
  }

  /** The bonus deck keeps the catalog's questions, in order, and adds no other card. */
  lemma BonusDeckTexts(ld: LevelData)
    ensures Texts(BonusDeck(ld), QuestionKind) == ld.cards
    ensures Texts(BonusDeck(ld), WildcardKind) == []
    ensures Texts(BonusDeck(ld), DigDeeperKind) == []
  {
    AllQuestionsTexts(BonusDeck(ld), ld.cards);
  }

  /**
   * `deck.splice(at, 0, x)`: `x` goes in at `at`, or at the end when `at` is past
   * it, and every other card keeps its relative order.
   */
  function Splice(s: seq<Card>, at: nat, x: Card): (r: seq<Card>)
    ensures |r| == |s| + 1
    ensures r[Min(at, |s|)] == x
    ensures forall p :: 0 <= p < |s| ==> r[if p < Min(at, |s|) then p else p + 1] == s[p]
  {
    var k := Min(at, |s|);
    s[..k] + [x] + s[k..]
  }

  /** The splice leaves the texts of every other kind of card as they were. */
  lemma SpliceTexts(s: seq<Card>, at: nat, x: Card, k: Kind)
    requires KindOf(x) != k
    ensures Texts(Splice(s, at, x), k) == Texts(s, k)
  {
    var m := Min(at, |s|);
    TextsAppend(s[..m] + [x], s[m..], k);
    TextsAppend(s[..m], [x], k);
    TextsAppend(s[..m], s[m..], k);
    assert s[..m] + s[m..] == s;
  }

  /** The splice adds exactly one text of the inserted card's kind. */
  lemma SpliceAddsText(s: seq<Card>, at: nat, x: Card)
    ensures multiset(Texts(Splice(s, at, x), KindOf(x))) == multiset(Texts(s, KindOf(x))) + multiset{x.text}
  {
    var m := Min(at, |s|);
    var k := KindOf(x);
    TextsAppend(s[..m] + [x], s[m..], k);
    TextsAppend(s[..m], [x], k);
    TextsAppend(s[..m], s[m..], k);
    assert s[..m] + s[m..] == s;
  }
}
