/**
 * The layout a Klondike game keeps between moves: foundations built up by suit from the ace,
 * tableau columns with their face-down cards underneath and a run of alternating colours
 * on top, a face-down stock and a face-up waste. Drawing, recycling and every legal move of
 * a face-up card keep it; `getCardFromSource` does not look at the face-up flag, and moving
 * a face-down card breaks it.
 */
module Layout {
  import opened Options
  import opened Cards
  import opened States
  import opened Rules

  /** A foundation: one suit, ranks 1, 2, 3, ... from the bottom, every card face up. */
  predicate FoundationRun(f: seq<Card>)
  {
    forall k :: 0 <= k < |f| ==> f[k].isFaceUp && f[k].suit == f[0].suit && RankValue(f[k].rank) == k + 1
  }

  /**
   * A tableau column: face-down cards below the face-up ones, a face-up top, and each card
   * above a face-up card fits on it.
   */
  predicate ColumnRun(col: seq<Card>)
  {
    FaceDownBelow(col)
    && (col != [] ==> col[|col| - 1].isFaceUp)
    && forall k :: 0 <= k < |col| - 1 && col[k].isFaceUp ==> CanPlaceOnTableau(col[k + 1], col[k])
  }

  predicate WellFormed(s: GameState)
  {
    Shaped(s)
    && (forall c :: c in s.stock ==> !c.isFaceUp)
    && (forall c :: c in s.waste ==> c.isFaceUp)
    && (forall i :: 0 <= i < |s.foundations| ==> FoundationRun(s.foundations[i]))
    && (forall j :: 0 <= j < |s.tableau| ==> ColumnRun(s.tableau[j]))
  }

  /** The card a tableau source names, if any, is face up. */
  predicate SourceFaceUp(s: GameState, from: MoveSource)
    requires SourceInRange(s, from)
  {
    from.FromTableau? && from.cardIndex < |s.tableau[from.columnIndex]| ==>
      s.tableau[from.columnIndex][from.cardIndex].isFaceUp
  }

  // ---------------------------------------------------------------------------------------
  // Piles
  // ---------------------------------------------------------------------------------------

  /** A foundation never holds more than the thirteen ranks, and a full one ends with its king. */
  lemma FoundationRunBounded(f: seq<Card>)
    requires FoundationRun(f)
    ensures |f| <= 13
    ensures |f| == 13 ==> f[12].rank == King
  {
    if f != [] {
      assert RankValue(f[|f| - 1].rank) == |f|;
    }
  }

  /** Placing a face-up card that `canPlaceOnFoundation` accepts extends the run. */
  lemma FoundationRunPush(f: seq<Card>, card: Card)
    requires FoundationRun(f) && card.isFaceUp
    requires CanPlaceOnFoundation(card, TopCard(f))
    ensures FoundationRun(f + [card])
  {
    var g := f + [card];
    forall k | 0 <= k < |g|
      ensures g[k].isFaceUp && g[k].suit == g[0].suit && RankValue(g[k].rank) == k + 1
    {
      if k < |f| {
        assert g[k] == f[k];
      }
    }
  }

  lemma FoundationRunPop(f: seq<Card>)
    requires FoundationRun(f) && f != []
    ensures FoundationRun(DropLast(f))
  {
    var g := DropLast(f);
    assert forall k :: 0 <= k < |g| ==> g[k] == f[k];
  }

  /** What is left of a column below the cut, with its new top turned up, is a column again. */
  lemma ColumnPrefixRevealed(col: seq<Card>, k: int)
    requires ColumnRun(col) && 0 <= k <= |col|
    ensures ColumnRun(TurnUpTop(col[..k]))
  {
    var p := col[..k];
    var r := TurnUpTop(p);
    assert forall m :: 0 <= m < |p| ==> p[m] == col[m];
    forall a, b | 0 <= a < b < |r| && r[a].isFaceUp
      ensures r[b].isFaceUp
    {
      if b < |r| - 1 {
        assert p[a].isFaceUp;
      }
    }
    forall m | 0 <= m < |r| - 1 && r[m].isFaceUp
      ensures CanPlaceOnTableau(r[m + 1], r[m])
    {
      assert p[m].isFaceUp;
      assert Id(r[m]) == Id(p[m]) && Id(r[m + 1]) == Id(p[m + 1]);
      assert CanPlaceOnTableau(p[m + 1], p[m]);
    }
  }

  /** The run from a face-up card to the top of its column is all face up and a column itself. */
  lemma ColumnSuffix(col: seq<Card>, k: int)
    requires ColumnRun(col) && 0 <= k < |col| && col[k].isFaceUp
    ensures ColumnRun(col[k..])
    ensures forall c :: c in col[k..] ==> c.isFaceUp
  {
    var run := col[k..];
    assert forall m :: 0 <= m < |run| ==> run[m] == col[k + m];
    assert forall m :: 0 <= m < |run| ==> run[m].isFaceUp;
  }

  /** A face-up run whose first card fits the column's top card stacks into a column. */
  lemma ColumnAppend(col: seq<Card>, run: seq<Card>)
    requires ColumnRun(col) && ColumnRun(run) && run != []
    requires forall c :: c in run ==> c.isFaceUp
    requires col != [] ==> CanPlaceOnTableau(run[0], col[|col| - 1])
    ensures ColumnRun(col + run)
  {
    var g := col + run;
    forall a, b | 0 <= a < b < |g| && g[a].isFaceUp
      ensures g[b].isFaceUp
    {
      if b < |col| {
        assert g[a] == col[a] && g[b] == col[b];
      } else {
        assert g[b] == run[b - |col|];
        assert run[b - |col|] in run;
      }
    }
    assert g[|g| - 1] == run[|run| - 1];
    forall m | 0 <= m < |g| - 1 && g[m].isFaceUp
      ensures CanPlaceOnTableau(g[m + 1], g[m])
    {
      if m + 1 < |col| {
        assert g[m] == col[m] && g[m + 1] == col[m + 1];
      } else if m + 1 == |col| {
        assert g[m] == col[m] && g[m + 1] == run[0];
      } else {
        assert g[m] == run[m - |col|] && g[m + 1] == run[m + 1 - |col|];
      }
    }
  }

  // ---------------------------------------------------------------------------------------
  // Stock and waste
  // ---------------------------------------------------------------------------------------

  /** `dealFromStock` keeps the layout: a drawn card shows its face, a recycled waste hides it. */
  lemma DealFromStockKeepsLayout(s: GameState)
    requires WellFormed(s) && DealFromStockResult(s).Some?
    ensures WellFormed(DealFromStockResult(s).value)
  {
    var r := DealFromStockResult(s).value;
    if s.stock != [] {
      assert forall c :: c in r.stock ==> c in s.stock;
    } else {
      assert forall m :: 0 <= m < |r.stock| ==> !r.stock[m].isFaceUp;
    }
  }

  // ---------------------------------------------------------------------------------------
  // Moves
  // ---------------------------------------------------------------------------------------

  /** The card a legal move takes is face up: the waste and the foundations show every card. */
  lemma MovedCardFaceUp(s: GameState, from: MoveSource)
    requires WellFormed(s) && SourceInRange(s, from) && SourceFaceUp(s, from)
    requires CardFromSource(s, from).Some?
    ensures CardFromSource(s, from).value.isFaceUp
  {
    match from
    case FromWaste =>
    case FromTableau(c, k) =>
    case FromFoundation(i) =>
      var f := s.foundations[i];
      assert f[|f| - 1].isFaceUp;
  }

  /**
   * The tableau after a tableau source gave up its run from `cardIndex`: column c is cut
   * there and its new top turned up; nothing else changes.
   */
  lemma RevealCutColumn(s: GameState, c: int, k: int)
    requires 0 <= c < |s.tableau| && 0 <= k <= |s.tableau[c]|
    requires forall j :: 0 <= j < |s.tableau| && j != c ==> ColumnRun(s.tableau[j])
    requires ColumnRun(s.tableau[c])
    ensures var r := Reveal(s.(tableau := s.tableau[c := s.tableau[c][..k]]), FromTableau(c, k));
            forall j :: 0 <= j < |r.tableau| ==> ColumnRun(r.tableau[j])
  {
    var col := s.tableau[c];
    ColumnPrefixRevealed(col, k);
    var cut := s.(tableau := s.tableau[c := col[..k]]);
    var r := Reveal(cut, FromTableau(c, k));
    assert r.tableau[c] == TurnUpTop(col[..k]);
  }

  /** A legal move to foundation i keeps the layout when its card is face up. */
  lemma FoundationMoveKeepsLayout(s: GameState, from: MoveSource, i: int)
    requires WellFormed(s) && SourceInRange(s, from) && SourceFaceUp(s, from)
    requires 0 <= i < |s.foundations|
    requires CardFromSource(s, from).Some?
    requires CanPlaceOnFoundation(CardFromSource(s, from).value, TopFoundationCard(s, i))
    ensures WellFormed(FoundationMove(s, from, i, CardFromSource(s, from).value))
  {
    var card := CardFromSource(s, from).value;
    MovedCardFaceUp(s, from);
    match from
    case FromWaste =>
      FoundationRunPush(s.foundations[i], card);
      var r := FoundationMove(s, from, i, card);
      assert forall c :: c in r.waste ==> c in s.waste;
    case FromTableau(c, k) =>
      FoundationRunPush(s.foundations[i], card);
      RevealCutColumn(s.(foundations := s.foundations[i := s.foundations[i] + [card]]), c, k);
    case FromFoundation(i') =>
      FoundationFromFoundationKeepsLayout(s, i', i, card);
  }

  lemma FoundationFromFoundationKeepsLayout(s: GameState, i': int, i: int, card: Card)
    requires WellFormed(s) && 0 <= i' < |s.foundations| && 0 <= i < |s.foundations|
    requires s.foundations[i'] != [] && card == Last(s.foundations[i'])
    requires CanPlaceOnFoundation(card, TopFoundationCard(s, i))
    ensures WellFormed(FoundationMove(s, FromFoundation(i'), i, card))
  {
    var f := s.foundations[i'];
    assert card.isFaceUp;
    assert i != i';
    FoundationRunPop(f);
    FoundationRunPush(s.foundations[i], card);
    var r := FoundationMove(s, FromFoundation(i'), i, card);
    assert r.foundations == s.foundations[i' := DropLast(f)][i := s.foundations[i] + [card]];
  }

  /** A legal move to column j keeps the layout when its card is face up. */
  lemma SequenceMoveKeepsLayout(s: GameState, from: MoveSource, j: int)
    requires WellFormed(s) && SourceInRange(s, from) && SourceFaceUp(s, from)
    requires 0 <= j < |s.tableau|
    requires CardFromSource(s, from).Some?
    requires FitsColumn(CardFromSource(s, from).value, s.tableau[j])
    ensures WellFormed(SequenceMove(s, from, j))
  {
    match from
    case FromWaste => WasteToColumnKeepsLayout(s, j);
    case FromTableau(c, k) => RunToColumnKeepsLayout(s, c, k, j);
    case FromFoundation(i) => FoundationToColumnKeepsLayout(s, i, j);
  }

  lemma WasteToColumnKeepsLayout(s: GameState, j: int)
    requires WellFormed(s) && 0 <= j < |s.tableau| && s.waste != []
    requires FitsColumn(Last(s.waste), s.tableau[j])
    ensures WellFormed(SequenceMove(s, FromWaste, j))
  {
    var card := Last(s.waste);
    assert card in s.waste;
    ColumnAppend(s.tableau[j], [card]);
    var r := SequenceMove(s, FromWaste, j);
    assert forall c :: c in r.waste ==> c in s.waste;
  }

  lemma FoundationToColumnKeepsLayout(s: GameState, i: int, j: int)
    requires WellFormed(s) && 0 <= i < |s.foundations| && 0 <= j < |s.tableau|
    requires s.foundations[i] != [] && FitsColumn(Last(s.foundations[i]), s.tableau[j])
    ensures WellFormed(SequenceMove(s, FromFoundation(i), j))
  {
    var f := s.foundations[i];
    assert f[|f| - 1].isFaceUp;
    FoundationRunPop(f);
    ColumnAppend(s.tableau[j], [Last(f)]);
  }

  lemma RunToColumnKeepsLayout(s: GameState, c: int, k: int, j: int)
    requires WellFormed(s) && 0 <= c < |s.tableau| && 0 <= k < |s.tableau[c]| && 0 <= j < |s.tableau|
    requires s.tableau[c][k].isFaceUp
    requires FitsColumn(s.tableau[c][k], s.tableau[j])
    ensures WellFormed(SequenceMove(s, FromTableau(c, k), j))
  {
    var col := s.tableau[c];
    var run := col[k..];
    var cut := s.tableau[c := col[..k]];
    var moved := s.(tableau := cut[j := cut[j] + run]);
    ColumnSuffix(col, k);
    if j == c {
      assert col[..k] + run == col;
      assert moved.tableau == s.tableau;
      assert col[..|col|] == col;
      RevealCutColumn(s, c, |col|);
    } else {
      ColumnAppend(s.tableau[j], run);
      RevealCutColumn(s.(tableau := s.tableau[j := s.tableau[j] + run]), c, k);
      assert s.tableau[j := s.tableau[j] + run][c := col[..k]] == moved.tableau;
    }
  }

  /**
   * Every legal move keeps the layout when its source card is face up, as it is for every
   * waste and foundation source of a well-formed game.
   */
  lemma MoveKeepsLayout(s: GameState, from: MoveSource, to: MoveDestination)
    requires WellFormed(s) && MoveInRange(s, from, to) && MoveLegal(s, from, to)
    requires SourceFaceUp(s, from)
    ensures WellFormed(ApplyMove(s, from, to).value)
  {
    match to
    case ToFoundation(i) => FoundationMoveKeepsLayout(s, from, i);
    case ToTableau(j) => SequenceMoveKeepsLayout(s, from, j);
  }

  /** A hidden ace of hearts under a face-up two of spades in the first column, all else empty. */
  function FaceDownExample(): (s: GameState)
    ensures Shaped(s) && |s.tableau[0]| == 2 && !s.tableau[0][0].isFaceUp
  {
    EmptyState().(tableau := EmptyState().tableau[0 := [Card(Hearts, Ace, false), Card(Spades, Two, true)]])
  }

  lemma FaceDownExampleWellFormed()
    ensures WellFormed(FaceDownExample())
  {
    var s := FaceDownExample();
    forall j | 0 <= j < |s.tableau| ensures ColumnRun(s.tableau[j]) {
      if j == 0 {
        assert CanPlaceOnTableau(s.tableau[0][1], s.tableau[0][0]) || !s.tableau[0][0].isFaceUp;
      } else {
        assert s.tableau[j] == [];
      }
    }
  }

  /**
   * `getCardFromSource` accepts a face-down tableau card, and `moveCard` then carries it
   * face down onto a foundation: the hidden ace of hearts under a face-up two of spades goes
   * to an empty foundation, the two is discarded, and the foundation shows a face-down card.
   */
  lemma FaceDownSourceBreaksLayout()
    ensures var s, from, to := FaceDownExample(), FromTableau(0, 0), ToFoundation(0);
            WellFormed(s) && MoveInRange(s, from, to) && MoveLegal(s, from, to)
            && !SourceFaceUp(s, from) && !WellFormed(ApplyMove(s, from, to).value)
  {
    FaceDownExampleWellFormed();
    var s := FaceDownExample();
    var card := Card(Hearts, Ace, false);
    assert CardFromSource(s, FromTableau(0, 0)) == Some(card);
    var r := ApplyMove(s, FromTableau(0, 0), ToFoundation(0)).value;
    assert r.foundations[0] == [card];
    assert !FoundationRun(r.foundations[0]);
  }

  /** A hidden five of hearts under a face-up six of spades in the second column, all else empty. */
  function SelfMoveExample(): (s: GameState)
    ensures Shaped(s) && |s.tableau[1]| == 2 && !s.tableau[1][0].isFaceUp
  {
    EmptyState().(tableau := EmptyState().tableau[1 := [Card(Hearts, Five, false), Card(Spades, Six, true)]])
  }

  lemma SelfMoveExampleWellFormed()
    ensures WellFormed(SelfMoveExample())
  {
    var s := SelfMoveExample();
    forall j | 0 <= j < |s.tableau| ensures ColumnRun(s.tableau[j]) {
      if j != 1 {
        assert s.tableau[j] == [];
      }
    }
  }

  /**
   * A face-down card fits on the top of its own column when that top is the card just above
   * it: moving the hidden five of hearts onto its own column is legal, cuts the column and
   * puts the same two cards back, and only counts a move.
   */
  lemma FaceDownSelfMoveOnlyCounts()
    ensures var s, from, to := SelfMoveExample(), FromTableau(1, 0), ToTableau(1);
            WellFormed(s) && MoveInRange(s, from, to) && MoveLegal(s, from, to)
            && !SourceFaceUp(s, from) && ApplyMove(s, from, to).value == s.(moves := s.moves + 1)
  {
    SelfMoveExampleWellFormed();
    SelfMoveExampleLegal();
    SelfMoveExampleResult();
    var s := SelfMoveExample();
    assert ApplyMove(s, FromTableau(1, 0), ToTableau(1)) == Some(SequenceMove(s, FromTableau(1, 0), 1));
  }

  lemma SelfMoveExampleLegal()
    ensures var s, from, to := SelfMoveExample(), FromTableau(1, 0), ToTableau(1);
            MoveInRange(s, from, to) && MoveLegal(s, from, to) && !SourceFaceUp(s, from)
  {
    var s := SelfMoveExample();
    var column := s.tableau[1];
    assert CardFromSource(s, FromTableau(1, 0)) == Some(column[0]);
    assert FitsColumn(column[0], column);
  }

  lemma SelfMoveExampleResult()
    ensures var s := SelfMoveExample();
            SequenceMove(s, FromTableau(1, 0), 1) == s.(moves := s.moves + 1)
  {
    var s := SelfMoveExample();
    var column := s.tableau[1];
    var cut := s.tableau[1 := column[..0]];
    assert column[..0] + column[0..] == column;
    assert cut[1 := cut[1] + column[0..]] == s.tableau;
    assert Reveal(s, FromTableau(1, 0)) == s;
  }
}
