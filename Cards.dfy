/**
 * Card.kt: suits and their colours, ranks and their values, the card record
 * and the two placement predicates that every move check is built from.
 */
module Cards {
  import opened Options

  datatype Suit = Hearts | Diamonds | Clubs | Spades

  datatype CardColor = Red | Black

  datatype Rank = Ace | Two | Three | Four | Five | Six | Seven
                | Eight | Nine | Ten | Jack | Queen | King

  /** `Suit.entries` and `Rank.entries`, in declaration order. */
  const AllSuits: seq<Suit> := [Hearts, Diamonds, Clubs, Spades]
  const AllRanks: seq<Rank> :=
    [Ace, Two, Three, Four, Five, Six, Seven, Eight, Nine, Ten, Jack, Queen, King]

  /** The colour attached to each suit constant. */
  function SuitColor(s: Suit): (c: CardColor)
    ensures c == Red <==> s == Hearts || s == Diamonds
    ensures c == Black <==> s == Clubs || s == Spades
  {
    match s
    case Hearts => Red
    case Diamonds => Red
    case Clubs => Black
    case Spades => Black
  }

  /** The `value` attached to each rank constant. */
  function RankValue(r: Rank): (v: int)
    ensures 1 <= v <= 13
    ensures v == 1 <==> r == Ace
    ensures v == 13 <==> r == King
  {
    match r
    case Ace => 1
    case Two => 2
    case Three => 3
    case Four => 4
    case Five => 5
    case Six => 6
    case Seven => 7
    case Eight => 8
    case Nine => 9
    case Ten => 10
    case Jack => 11
    case Queen => 12
    case King => 13
  }

  /** The ranks are numbered 1 to 13 consecutively in declaration order, so a value names one rank. */
  lemma RankValuesConsecutive()
    ensures |AllRanks| == 13
    ensures forall i :: 0 <= i < 13 ==> RankValue(AllRanks[i]) == i + 1
    ensures forall r :: r in AllRanks
    ensures forall r, r' :: RankValue(r) == RankValue(r') ==> r == r'
  {
    forall r ensures r in AllRanks {
      assert AllRanks[RankValue(r) - 1] == r;
    }
  }

  /** Every suit is listed once. */
  lemma SuitsComplete()
    ensures |AllSuits| == 4
    ensures forall s :: s in AllSuits
    ensures forall i, j :: 0 <= i < j < 4 ==> AllSuits[i] != AllSuits[j]
  {
    forall s ensures s in AllSuits {
      match s
      case Hearts => assert AllSuits[0] == s;
      case Diamonds => assert AllSuits[1] == s;
      case Clubs => assert AllSuits[2] == s;
      case Spades => assert AllSuits[3] == s;
    }
  }

  /** A card: its identity (suit and rank) and its face-up flag. */
  datatype Card = Card(suit: Suit, rank: Rank, isFaceUp: bool)

  /** The identity of a card, which moves never change; only the face flag is flipped. */
  datatype CardId = CardId(suit: Suit, rank: Rank)

  function Id(c: Card): CardId
  {
    CardId(c.suit, c.rank)
  }

  /** The constructor call `Card(suit, rank)`: the face-up flag defaults to false. */
  function NewCard(suit: Suit, rank: Rank): (c: Card)
    ensures Id(c) == CardId(suit, rank) && !c.isFaceUp
  {
    Card(suit, rank, false)
  }

  /** `Card.color`: a card is as red or as black as its suit. */
  function Color(c: Card): (k: CardColor)
    ensures k == Red <==> c.suit == Hearts || c.suit == Diamonds
  {
    SuitColor(c.suit)
  }

  /**
   * `canPlaceOnTableau`: `c` may go under `other` in a tableau column.
   * A king fits on nothing, nothing fits on an ace, and the two suits always differ.
   */
  function CanPlaceOnTableau(c: Card, other: Card): (b: bool)
    ensures b ==> c.rank != King && other.rank != Ace
    ensures b ==> c.suit != other.suit
    ensures b ==> RankValue(c.rank) < RankValue(other.rank)
  {
    RankValue(c.rank) == RankValue(other.rank) - 1 && Color(c) != Color(other)
  }

  /**
   * `canPlaceOnFoundation`: on an empty foundation only an ace fits; on a card, only the
   * next rank of the same suit, so an ace never goes on a card and nothing goes on a king.
   */
  function CanPlaceOnFoundation(c: Card, top: Option<Card>): (b: bool)
    ensures top.None? ==> (b <==> c.rank == Ace)
    ensures top.Some? && b ==> c.suit == top.value.suit
    ensures top.Some? && b ==> c.rank != Ace && top.value.rank != King
  {
    match top
    case None => c.rank == Ace
    case Some(t) => c.suit == t.suit && RankValue(c.rank) == RankValue(t.rank) + 1
  }

  /** Both predicates look at suit and rank only: flipping either card changes nothing. */
  lemma PlacementIgnoresFaces(c: Card, other: Card, up: bool, up': bool)
    ensures CanPlaceOnTableau(c.(isFaceUp := up), other.(isFaceUp := up'))
            == CanPlaceOnTableau(c, other)
    ensures CanPlaceOnFoundation(c.(isFaceUp := up), Some(other.(isFaceUp := up')))
            == CanPlaceOnFoundation(c, Some(other))
  {
  }

  /** The multiset of identities of a pile of cards. */
  function Ids(cards: seq<Card>): (m: multiset<CardId>)
    ensures |m| == |cards|
  {
    if cards == [] then multiset{} else Ids(cards[..|cards| - 1]) + multiset{Id(cards[|cards| - 1])}
  }

  lemma {:induction false} IdsAppend(a: seq<Card>, b: seq<Card>)
    ensures Ids(a + b) == Ids(a) + Ids(b)
    decreases |b|
  {
    if b == [] {
      assert a + b == a;
    } else {
      assert (a + b)[..|a + b| - 1] == a + b[..|b| - 1];
      IdsAppend(a, b[..|b| - 1]);
    }
  }

  /** Two piles that agree card by card on identities have the same identities, whatever their faces. */
  lemma {:induction false} IdsPointwise(a: seq<Card>, b: seq<Card>)
    requires |a| == |b|
    requires forall i :: 0 <= i < |a| ==> Id(a[i]) == Id(b[i])
    ensures Ids(a) == Ids(b)
    decreases |a|
  {
    if a != [] {
      IdsPointwise(a[..|a| - 1], b[..|b| - 1]);
    }
  }

  /** Each identity is counted once for its face-down card and once for its face-up card. */
  lemma {:induction false} IdsCount(a: seq<Card>, id: CardId)
    ensures Ids(a)[id] == multiset(a)[Card(id.suit, id.rank, false)] + multiset(a)[Card(id.suit, id.rank, true)]
    decreases |a|
  {
    if a != [] {
      assert a == a[..|a| - 1] + [a[|a| - 1]];
      IdsCount(a[..|a| - 1], id);
    }
  }
}
