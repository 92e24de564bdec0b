/**
 * GameState.kt: the snapshot of all piles plus the score and the move counter, and the
 * read-only queries on it. Only the engine changes a state; here it is a value.
 */
module States {
  import opened Options
  import opened Cards

  const FoundationCount: nat := 4
  const TableauCount: nat := 7

  /**
   * Stock and waste are drawn from their ends; each foundation and tableau column is a pile
   * whose last card is its top.
   */
  datatype GameState = GameState(
    stock: seq<Card>,
    waste: seq<Card>,
    foundations: seq<seq<Card>>,
    tableau: seq<seq<Card>>,
    score: int,
    moves: int)

  /** The fixed array sizes: four foundations and seven tableau columns. */
  predicate Shaped(s: GameState)
  {
    |s.foundations| == FoundationCount && |s.tableau| == TableauCount
  }

  /** The default-constructed `GameState()`: every pile empty, score and moves zero. */
  function EmptyState(): (s: GameState)
    ensures Shaped(s)
    ensures s.stock == [] && s.waste == []
    ensures forall i :: 0 <= i < FoundationCount ==> s.foundations[i] == []
    ensures forall j :: 0 <= j < TableauCount ==> s.tableau[j] == []
    ensures s.score == 0 && s.moves == 0
  {
    GameState([], [], seq(FoundationCount, _ => []), seq(TableauCount, _ => []), 0, 0)
  }

  /** `isGameWon`: every foundation holds thirteen cards, so none of them is without a top card. */
  predicate IsGameWon(s: GameState)
    ensures IsGameWon(s) ==> forall i :: 0 <= i < |s.foundations| ==> TopFoundationCard(s, i).Some?
  {
    forall i :: 0 <= i < |s.foundations| ==> |s.foundations[i]| == 13
  }

  /** `getTopCard` (`lastOrNull`): the last card of a pile, if any. */
  function TopCard(pile: seq<Card>): (top: Option<Card>)
    ensures top.None? <==> pile == []
    ensures top.Some? ==> top.value == pile[|pile| - 1] && top.value in pile
  {
    if pile == [] then None else Some(pile[|pile| - 1])
  }

  /** `getTopFoundationCard`: the top of foundation i; an index out of range throws. */
  function TopFoundationCard(s: GameState, i: int): (top: Option<Card>)
    requires 0 <= i < |s.foundations|
    ensures top.None? <==> s.foundations[i] == []
    ensures top.Some? ==> top.value == s.foundations[i][|s.foundations[i]| - 1]
  {
    TopCard(s.foundations[i])
  }

  /** `filter { it.isFaceUp }`: the face-up cards of a pile, in their original order. */
  function FaceUpCards(pile: seq<Card>): (up: seq<Card>)
    ensures |up| <= |pile|
    ensures forall c :: c in up ==> c.isFaceUp && c in pile
    ensures (forall c :: c in pile ==> c.isFaceUp) ==> up == pile
    ensures (forall c :: c in pile ==> !c.isFaceUp) ==> up == []
  {
    if pile == [] then []
    else
      var rest := FaceUpCards(pile[..|pile| - 1]);
      var last := pile[|pile| - 1];
      assert pile == pile[..|pile| - 1] + [last];
      if last.isFaceUp then rest + [last] else rest
  }

  /** The filter keeps every face-up card as often as it occurs, and no face-down card. */
  lemma {:induction false} FaceUpCardsCount(pile: seq<Card>, c: Card)
    ensures multiset(FaceUpCards(pile))[c] == if c.isFaceUp then multiset(pile)[c] else 0
    decreases |pile|
  {
    if pile != [] {
      var init := pile[..|pile| - 1];
      assert pile == init + [pile[|pile| - 1]];
      FaceUpCardsCount(init, c);
    }
  }

  /**
   * The filter works piece by piece: the face-up cards of a + b are those of a followed by
   * those of b. With the single-card cases above, this fixes the result as the face-up cards
   * in their original order.
   */
  lemma {:induction false} FaceUpCardsAppend(a: seq<Card>, b: seq<Card>)
    ensures FaceUpCards(a + b) == FaceUpCards(a) + FaceUpCards(b)
    decreases |b|
  {
    if b == [] {
      assert a + b == a;
    } else {
      var init := b[..|b| - 1];
      assert (a + b)[..|a + b| - 1] == a + init;
      FaceUpCardsAppend(a, init);
    }
  }

  /** The filter returns the whole pile exactly when every card of the pile is face up. */
  lemma FaceUpCardsKeepsAll(pile: seq<Card>)
    ensures FaceUpCards(pile) == pile <==> forall k :: 0 <= k < |pile| ==> pile[k].isFaceUp
  {
    if k :| 0 <= k < |pile| && !pile[k].isFaceUp {
      FaceUpCardsCount(pile, pile[k]);
      assert pile[k] in multiset(pile);
    }
  }

  /** `getVisibleTableauCards`: the face-up cards of column i; an index out of range throws. */
  function VisibleTableauCards(s: GameState, i: int): (up: seq<Card>)
    requires 0 <= i < |s.tableau|
    ensures |up| <= |s.tableau[i]|
    ensures forall c :: c in up ==> c.isFaceUp && c in s.tableau[i]
  {
    FaceUpCards(s.tableau[i])
  }

  /** A column whose face-down cards all lie below its face-up ones. */
  predicate FaceDownBelow(pile: seq<Card>)
  {
    forall i, j :: 0 <= i < j < |pile| && pile[i].isFaceUp ==> pile[j].isFaceUp
  }

  /** In such a column the visible cards are exactly a suffix of the column. */
  lemma {:induction false} VisibleIsSuffix(pile: seq<Card>)
    requires FaceDownBelow(pile)
    ensures FaceUpCards(pile) == pile[|pile| - |FaceUpCards(pile)|..]
    decreases |pile|
  {
    if pile != [] {
      var init := pile[..|pile| - 1];
      var last := pile[|pile| - 1];
      assert FaceDownBelow(init);
      VisibleIsSuffix(init);
      var rest := FaceUpCards(init);
      if !last.isFaceUp {
        assert rest == [] by {
          assert forall c :: c in init ==> !c.isFaceUp;
        }
      } else {
        assert FaceUpCards(pile) == rest + [last];
        SuffixSnoc(pile, |rest|);
      }
    }
  }

  lemma SuffixSnoc(pile: seq<Card>, k: nat)
    requires k < |pile|
    ensures pile[|pile| - 1 - k..] == pile[..|pile| - 1][|pile| - 1 - k..] + [pile[|pile| - 1]]
  {
  }

  /** Kotlin's `contentEquals` on the pile arrays: same length, equal piles at each index. */
  predicate ContentEquals(xs: seq<seq<Card>>, ys: seq<seq<Card>>)
  {
    |xs| == |ys| && forall i :: 0 <= i < |xs| ==> xs[i] == ys[i]
  }

  /**
   * `equals`: field-by-field comparison of score, moves, stock, waste and the pile arrays.
   * Since a card compares by suit, rank and face flag, this is exactly equality of states,
   * so it is reflexive, symmetric and transitive.
   */
  function StateEquals(a: GameState, b: GameState): (eq: bool)
    ensures eq <==> a == b
  {
    if a.score != b.score then false
    else if a.moves != b.moves then false
    else if a.stock != b.stock then false
    else if a.waste != b.waste then false
    else if !ContentEquals(a.foundations, b.foundations) then false
    else if !ContentEquals(a.tableau, b.tableau) then false
    else true
  }
}
