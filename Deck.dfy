/**
 * Deck.kt: the undealt cards. `reset` rebuilds the 52 suit-by-rank cards face down and
 * shuffles them; `deal` takes cards from the front.
 */
module Decks {
  import opened Options
  import opened Cards

  /** No value occurs twice. */
  predicate NoDup<T(==)>(xs: seq<T>)
  {
    forall i, j :: 0 <= i < j < |xs| ==> xs[i] != xs[j]
  }

  /** The face-down cards of suit `s`, one per rank of `ranks`, in that order. */
  function SuitRow(s: Suit, ranks: seq<Rank>): (row: seq<Card>)
    ensures |row| == |ranks|
    ensures forall i :: 0 <= i < |row| ==> row[i] == NewCard(s, ranks[i])
  {
    if ranks == [] then [] else SuitRow(s, ranks[..|ranks| - 1]) + [NewCard(s, ranks[|ranks| - 1])]
  }

  /** The suit-major cross product that the two nested loops of `reset` produce. */
  function CrossProduct(suits: seq<Suit>, ranks: seq<Rank>): (cards: seq<Card>)
    ensures |cards| == |suits| * |ranks|
  {
    if suits == [] then []
    else CrossProduct(suits[..|suits| - 1], ranks) + SuitRow(suits[|suits| - 1], ranks)
  }

  /** The deck as `reset` builds it before shuffling. */
  function FullDeck(): (d: seq<Card>)
    ensures |d| == 52
  {
    CrossProduct(AllSuits, AllRanks)
  }

  lemma {:induction false} SuitRowCount(s: Suit, ranks: seq<Rank>, c: Card)
    requires NoDup(ranks)
    ensures multiset(SuitRow(s, ranks))[c] == if c == NewCard(s, c.rank) && c.rank in ranks then 1 else 0
    decreases |ranks|
  {
    if ranks != [] {
      var rs := ranks[..|ranks| - 1];
      assert forall r :: r in ranks <==> r in rs || r == ranks[|ranks| - 1];
      SuitRowCount(s, rs, c);
    }
  }

  lemma {:induction false} CrossProductCount(suits: seq<Suit>, ranks: seq<Rank>, c: Card)
    requires NoDup(suits) && NoDup(ranks)
    ensures multiset(CrossProduct(suits, ranks))[c]
            == if !c.isFaceUp && c.suit in suits && c.rank in ranks then 1 else 0
    decreases |suits|
  {
    if suits != [] {
      var ss := suits[..|suits| - 1];
      assert forall s :: s in suits <==> s in ss || s == suits[|suits| - 1];
      CrossProductCount(ss, ranks, c);
      SuitRowCount(suits[|suits| - 1], ranks, c);
    }
  }

  lemma SuitRowStep(s: Suit, ranks: seq<Rank>, n: nat)
    requires n < |ranks|
    ensures SuitRow(s, ranks[..n + 1]) == SuitRow(s, ranks[..n]) + [NewCard(s, ranks[n])]
  {
    assert ranks[..n + 1][..n] == ranks[..n];
  }

  lemma CrossProductStep(suits: seq<Suit>, ranks: seq<Rank>, n: nat)
    requires n < |suits|
    ensures CrossProduct(suits[..n + 1], ranks) == CrossProduct(suits[..n], ranks) + SuitRow(suits[n], ranks)
  {
    assert suits[..n + 1][..n] == suits[..n];
  }

  /** Every rank and every suit is listed once. */
  lemma RanksNoDup()
    ensures NoDup(AllRanks) && NoDup(AllSuits)
  {
    RankValuesConsecutive();
    SuitsComplete();
    forall i, j | 0 <= i < j < |AllRanks| ensures AllRanks[i] != AllRanks[j] {
      assert RankValue(AllRanks[i]) == i + 1 && RankValue(AllRanks[j]) == j + 1;
    }
  }

  /**
   * The deck `reset` builds holds 52 cards, all face down, one card per (suit, rank) pair.
   */
  lemma FullDeckContents()
    ensures |FullDeck()| == 52
    ensures forall c :: multiset(FullDeck())[c] == if c.isFaceUp then 0 else 1
  {
    RanksNoDup();
    SuitsComplete();
    RankValuesConsecutive();
    forall c ensures multiset(FullDeck())[c] == if c.isFaceUp then 0 else 1 {
      CrossProductCount(AllSuits, AllRanks, c);
    }
  }

  /** Hence every card identity occurs in the full deck exactly once, and no card is face up. */
  lemma FullDeckIds()
    ensures forall id :: Ids(FullDeck())[id] == 1
    ensures forall c :: c in FullDeck() ==> !c.isFaceUp
  {
    FullDeckContents();
    OnceEachFaceDown(FullDeck());
  }

  lemma OnceEachFaceDown(d: seq<Card>)
    requires forall c :: multiset(d)[c] == if c.isFaceUp then 0 else 1
    ensures forall id :: Ids(d)[id] == 1
    ensures forall c :: c in d ==> !c.isFaceUp
  {
    forall id ensures Ids(d)[id] == 1 {
      IdsCount(d, id);
    }
  }

  /** `rolls[i]` stands for the draw `Random.nextInt(i + 1)` made when the shuffle visits index i. */
  predicate ShuffleDraws(rolls: seq<nat>, n: nat)
  {
    |rolls| == n && forall i :: 0 <= i < n ==> rolls[i] <= i
  }

  class Deck {
    var cards: seq<Card>

    /** `init { reset() }`. */
    constructor (rolls: seq<nat>)
      requires ShuffleDraws(rolls, 52)
      ensures multiset(cards) == multiset(FullDeck())
    {
      cards := [];
      new;
      Reset(rolls);
    }

    /** Clear, add every suit-by-rank card face down in suit-major order, then shuffle. */
    method Reset(rolls: seq<nat>)
      requires ShuffleDraws(rolls, 52)
      modifies this
      ensures multiset(cards) == multiset(FullDeck())
    {
      Fill(AllSuits, AllRanks);
      FullDeckContents();
      Shuffle(rolls);
    }

    /**
     * The two nested loops of `reset`, over `Suit.entries` and `Rank.entries`: every suit in
     * turn, and within it every rank.
     */
    method Fill(suits: seq<Suit>, ranks: seq<Rank>)
      modifies this
      ensures cards == CrossProduct(suits, ranks)
    {
      cards := [];
      for si := 0 to |suits|
        invariant cards == CrossProduct(suits[..si], ranks)
      {
        AddSuit(suits[si], ranks);
        CrossProductStep(suits, ranks, si);
      }
      assert suits[..|suits|] == suits;
    }

    /** The inner loop of `reset`: one face-down card of suit `s` per rank, in rank order. */
    method AddSuit(s: Suit, ranks: seq<Rank>)
      modifies this
      ensures cards == old(cards) + SuitRow(s, ranks)
    {
      for ri := 0 to |ranks|
        invariant cards == old(cards) + SuitRow(s, ranks[..ri])
      {
        cards := cards + [NewCard(s, ranks[ri])];
        SuitRowStep(s, ranks, ri);
      }
      assert ranks[..|ranks|] == ranks;
    }

    /**
     * The in-place shuffle: from the last index down to 1, swap index i with the drawn index.
     * Only the order changes.
     */
    method Shuffle(rolls: seq<nat>)
      requires ShuffleDraws(rolls, |cards|)
      modifies this
      ensures multiset(cards) == multiset(old(cards))
    {
      var i := |cards| - 1;
      while i > 0
        invariant -1 <= i < |cards| == |rolls|
        invariant multiset(cards) == multiset(old(cards))
      {
        var j := rolls[i];
        cards := cards[i := cards[j]][j := cards[i]];
        i := i - 1;
      }
    }

    /** Remove and return the front card, or nothing when the deck is empty. */
    method Deal() returns (c: Option<Card>)
      modifies this
      ensures old(cards) == [] ==> c == None && cards == old(cards)
      ensures old(cards) != [] ==> c == Some(old(cards)[0]) && cards == old(cards)[1..]
      ensures |cards| == if old(cards) == [] then 0 else |old(cards)| - 1
    {
      if cards != [] {
        c := Some(cards[0]);
        cards := cards[1..];
      } else {
        c := None;
      }
    }

    function IsEmpty(): (b: bool)
      reads this
      ensures b <==> Size() == 0
    {
      cards == []
    }

    function Size(): (n: int)
      reads this
      ensures n >= 0
      ensures n == 0 <==> cards == []
    {
      |cards|
    }
  }
}
