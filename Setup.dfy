/**
 * `dealInitialCards` on a fresh game: the seven columns take 1, 2, ..., 7 cards from the
 * front of the deck with only each column's last card turned up, and the remaining 24 cards
 * become the stock in deck order. Dealing loses no card and duplicates none.
 */
module Setup {
  import opened Cards
  import opened Decks
  import opened States
  import opened Rules
  import opened Invariants
  import opened Layout

  /** A position in the deck, or its end when the deck is shorter. */
  function Clip(n: nat, d: seq<Card>): (m: nat)
    ensures m <= |d| && m <= n
    ensures m == n || m == |d|
  {
    if n < |d| then n else |d|
  }

  /** Column c gets the cards of the deck between the clipped starts of columns c and c + 1. */
  lemma DealtColumnIds(d: seq<Card>, c: nat)
    ensures Ids(DealtColumn(d, c)) == Ids(d[Clip(DealStart(c), d)..Clip(DealStart(c + 1), d)])
  {
    var lo, hi := Clip(DealStart(c), d), Clip(DealStart(c + 1), d);
    assert DealStart(c + 1) == DealStart(c) + c + 1;
    IdsPointwise(DealtColumn(d, c), d[lo..hi]);
  }

  /** The first n columns of the deal hold the first cards of the deck, up to the start of column n. */
  lemma {:induction false} DealtColumnsIdsAt(s: GameState, d: seq<Card>, n: nat, x: CardId)
    requires |s.tableau| == TableauCount && n <= TableauCount
    ensures PilesIds(DealInitial(s, d).tableau[..n])[x]
            == PilesIds(s.tableau[..n])[x] + Ids(d[..Clip(DealStart(n), d)])[x]
    decreases n
  {
    var t := DealInitial(s, d).tableau;
    if n == 0 {
      assert t[..n] == [] && s.tableau[..n] == [] && d[..Clip(DealStart(n), d)] == [];
    } else {
      var lo, hi := Clip(DealStart(n - 1), d), Clip(DealStart(n), d);
      assert DealStart(n) == DealStart(n - 1) + n;
      var column := DealtColumn(d, n - 1);
      assert t[n - 1] == s.tableau[n - 1] + column;
      DealtColumnsIdsAt(s, d, n - 1, x);
      PilesIdsPrefix(t, n, x);
      PilesIdsPrefix(s.tableau, n, x);
      assert Ids(t[n - 1])[x] == Ids(s.tableau[n - 1])[x] + Ids(column)[x] by {
        IdsAppend(s.tableau[n - 1], column);
      }
      assert Ids(column)[x] == Ids(d[lo..hi])[x] by {
        DealtColumnIds(d, n - 1);
      }
      assert Ids(d[..hi])[x] == Ids(d[..lo])[x] + Ids(d[lo..hi])[x] by {
        IdsSplit(d, lo, hi);
      }
    }
  }

  lemma IdsSplit(d: seq<Card>, lo: int, hi: int)
    requires 0 <= lo <= hi <= |d|
    ensures Ids(d[..hi]) == Ids(d[..lo]) + Ids(d[lo..hi])
  {
    assert d[..hi] == d[..lo] + d[lo..hi];
    IdsAppend(d[..lo], d[lo..hi]);
  }

  /** Dealing moves the deck's cards into the tableau and the stock and loses none. */
  lemma DealKeepsCards(s: GameState, d: seq<Card>)
    requires |s.tableau| == TableauCount
    ensures Bag(DealInitial(s, d)) == Bag(s) + Ids(d)
  {
    forall x ensures Bag(DealInitial(s, d))[x] == (Bag(s) + Ids(d))[x] {
      DealKeepsCardsAt(s, d, x);
    }
    SameCounts(Bag(DealInitial(s, d)), Bag(s) + Ids(d));
  }

  lemma DealKeepsCardsAt(s: GameState, d: seq<Card>, x: CardId)
    requires |s.tableau| == TableauCount
    ensures Bag(DealInitial(s, d))[x] == Bag(s)[x] + Ids(d)[x]
  {
    var r := DealInitial(s, d);
    var m := Clip(DealStart(TableauCount), d);
    var rest := d[m..];
    assert PilesIds(r.tableau)[x] == PilesIds(s.tableau)[x] + Ids(d[..m])[x] by {
      assert r.tableau[..TableauCount] == r.tableau && s.tableau[..TableauCount] == s.tableau;
      DealtColumnsIdsAt(s, d, TableauCount, x);
    }
    assert Ids(r.stock)[x] == Ids(s.stock)[x] + Ids(rest)[x] by {
      assert r.stock == s.stock + rest;
      IdsAppend(s.stock, rest);
    }
    assert Ids(d)[x] == Ids(d[..m])[x] + Ids(rest)[x] by {
      IdsSplit(d, m, |d|);
      assert d[..|d|] == d && d[m..|d|] == rest;
    }
    BagAt(r, x);
    BagAt(s, x);
  }

  /** The deck `reset` leaves: 52 cards, all face down, each identity once. */
  predicate ShuffledDeck(d: seq<Card>)
  {
    multiset(d) == multiset(FullDeck())
  }

  lemma ShuffledDeckFacts(d: seq<Card>)
    requires ShuffledDeck(d)
    ensures |d| == 52
    ensures forall c :: c in d ==> !c.isFaceUp
    ensures forall id :: Ids(d)[id] == 1
  {
    FullDeckContents();
    assert |d| == |multiset(d)|;
    OnceEachFaceDown(d);
  }

  /** Column c of the deal: c + 1 cards from the deck, only the last one face up. */
  lemma InitialColumn(d: seq<Card>, c: int)
    requires |d| == 52 && forall x :: x in d ==> !x.isFaceUp
    requires 0 <= c < TableauCount
    ensures var col := DealInitial(EmptyState(), d).tableau[c];
            |col| == c + 1 && (forall k :: 0 <= k < |col| ==> (col[k].isFaceUp <==> k == c))
  {
    var col := DealInitial(EmptyState(), d).tableau[c];
    assert DealStart(c + 1) <= DealStart(TableauCount) by {
      DealStartGrows(c + 1, TableauCount);
    }
    assert col == [] + DealtColumn(d, c);
    forall k | 0 <= k < |col| ensures col[k].isFaceUp <==> k == c {
      assert d[DealStart(c) + k] in d;
    }
  }

  /** The stock of the deal: the 24 cards after the tableau's 28, all face down. */
  lemma InitialStock(d: seq<Card>)
    requires |d| == 52 && forall x :: x in d ==> !x.isFaceUp
    ensures var r := DealInitial(EmptyState(), d);
            |r.stock| == 24 && r.stock == d[28..] && forall x :: x in r.stock ==> !x.isFaceUp
  {
    var r := DealInitial(EmptyState(), d);
    assert DealStart(TableauCount) == 28;
    assert r.stock == d[28..];
    forall x | x in r.stock ensures !x.isFaceUp {
      assert x in d;
    }
  }

  /**
   * A fresh game dealt from a shuffled full deck: column c holds c + 1 cards of which only the
   * last is face up, the stock holds the other 24 face down, waste and foundations are empty,
   * and the layout is well formed.
   */
  lemma InitialLayout(d: seq<Card>)
    requires ShuffledDeck(d)
    ensures var r := DealInitial(EmptyState(), d);
            && WellFormed(r)
            && (forall c, k :: 0 <= c < TableauCount && 0 <= k < |r.tableau[c]| ==>
                  (r.tableau[c][k].isFaceUp <==> k == c))
            && (forall c :: 0 <= c < TableauCount ==> |r.tableau[c]| == c + 1)
            && |r.stock| == 24 && r.waste == []
            && (forall i :: 0 <= i < FoundationCount ==> r.foundations[i] == [])
            && r.score == 0 && r.moves == 0
  {
    var r := DealInitial(EmptyState(), d);
    ShuffledDeckFacts(d);
    forall c | 0 <= c < TableauCount
      ensures |r.tableau[c]| == c + 1
      ensures forall k :: 0 <= k < |r.tableau[c]| ==> (r.tableau[c][k].isFaceUp <==> k == c)
      ensures ColumnRun(r.tableau[c])
    {
      InitialColumn(d, c);
    }
    InitialStock(d);
  }

  /** After the deal every card identity is in play exactly once. */
  lemma InitialCardsOnce(d: seq<Card>)
    requires ShuffledDeck(d)
    ensures forall id :: Bag(DealInitial(EmptyState(), d))[id] == 1
  {
    var s := EmptyState();
    ShuffledDeckFacts(d);
    PilesIdsEmpty(s.foundations);
    PilesIdsEmpty(s.tableau);
    forall id ensures Bag(DealInitial(s, d))[id] == 1 {
      DealKeepsCardsAt(s, d, id);
    }
  }

  /**
   * The opening `newGame` deals: a well-formed layout with every card identity in play once,
   * 24 cards in the stock, an empty waste, c + 1 cards in column c, and no score or moves.
   */
  ghost predicate Opening(r: GameState)
  {
    WellFormed(r) && (forall id :: Bag(r)[id] == 1)
    && |r.stock| == 24 && r.waste == []
    && (forall c :: 0 <= c < TableauCount ==> |r.tableau[c]| == c + 1)
    && r.score == 0 && r.moves == 0
  }

  /** Dealing a shuffled full deck onto an empty game gives that opening. */
  lemma DealOpening(d: seq<Card>)
    requires ShuffledDeck(d)
    ensures Opening(DealInitial(EmptyState(), d))
  {
    InitialLayout(d);
    InitialCardsOnce(d);
  }

  lemma {:induction false} PilesIdsEmpty(piles: seq<seq<Card>>)
    requires forall i :: 0 <= i < |piles| ==> piles[i] == []
    ensures PilesIds(piles) == multiset{}
    decreases |piles|
  {
    if piles != [] {
      PilesIdsEmpty(piles[..|piles| - 1]);
    }
  }

  lemma {:induction false} DealStartGrows(a: nat, b: nat)
    requires a <= b
    ensures DealStart(a) <= DealStart(b)
    decreases b - a
  {
    if a < b {
      DealStartGrows(a + 1, b);
    }
  }
}
