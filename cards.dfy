/** The content catalog and the cards dealt from it. */
module Cards {

  datatype Option<T> = None | Some(value: T)

  /** The levels the game routes between; `null` in the program is `None` of `Option<Level>`. */
  datatype Level = Level1 | Level2 | Level3 | Bonus

  /** One level's entry in the question catalog (the fields the engine reads). */
  datatype LevelData = LevelData(name: string, color: string, colorLight: string, cards: seq<string>)

  /** The whole question catalog: one entry per level and the shared pools. */
  datatype Catalog = Catalog(
    level1: LevelData,
    level2: LevelData,
    level3: LevelData,
    bonus: LevelData,
    wildcards: seq<string>,   // the texts of the wildcard pool
    digDeeper: seq<string>,   // the dig-deeper prompt pool
    finalPrompt: string)
  {
    function Entry(l: Level): LevelData {
      match l
      case Level1 => level1
      case Level2 => level2
      case Level3 => level3
      case Bonus => bonus
    }
  }

  /** A card of a deck; `type` in the program is the constructor here. */
  datatype Card =
    | Question(text: string, color: string, colorLight: string, setLabel: Option<string>)
    | Wildcard(text: string)
    | DigDeeper(text: string)

  datatype Kind = QuestionKind | WildcardKind | DigDeeperKind

  function KindOf(c: Card): Kind {
    match c
    case Question(_, _, _, _) => QuestionKind
    case Wildcard(_) => WildcardKind
    case DigDeeper(_) => DigDeeperKind
  }

  /** The texts of the cards of kind `k` in `d`, in deck order. */
  function Texts(d: seq<Card>, k: Kind): (r: seq<string>)
    ensures |r| <= |d|
  {
    if d == [] then []
    else (if KindOf(d[0]) == k then [d[0].text] else []) + Texts(d[1..], k)
  }

  /** Filtering by kind distributes over concatenation. */
  lemma {:induction false} TextsAppend(a: seq<Card>, b: seq<Card>, k: Kind)
    ensures Texts(a + b, k) == Texts(a, k) + Texts(b, k)
  {
    if a == [] {
      assert a + b == b;
    } else {
      assert (a + b)[0] == a[0];
      assert (a + b)[1..] == a[1..] + b;
      TextsAppend(a[1..], b, k);
    }
  }

  /** A deck with no card of kind `k` has no texts of that kind, and conversely. */
  lemma {:induction false} TextsEmpty(d: seq<Card>, k: Kind)
    ensures Texts(d, k) == [] <==> forall p :: 0 <= p < |d| ==> KindOf(d[p]) != k
  {
    if d != [] {
      TextsEmpty(d[1..], k);
      assert forall p :: 1 <= p < |d| ==> d[p] == d[1..][p - 1];
    }
  }

  /** `TextsAppend` with the texts of both parts known. */
  lemma TextsConcat(a: seq<Card>, b: seq<Card>, k: Kind, x: seq<string>, y: seq<string>)
    requires Texts(a, k) == x && Texts(b, k) == y
    ensures Texts(a + b, k) == x + y
  {
    TextsAppend(a, b, k);
  }
}
