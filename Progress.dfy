/**
 * What the engine reports about a game in progress: when it is won, how far along it is,
 * what a move scores, and what the winnability heuristic looks for.
 */
module Progress {
  import opened Cards
  import opened States
  import opened Rules
  import opened Layout

  // ---------------------------------------------------------------------------------------
  // Completion
  // ---------------------------------------------------------------------------------------

  /**
   * In a well-formed game the foundations hold 52 cards exactly when the game is won, and
   * the completion percentage lies between 0 and 100 and reaches 100 just then.
   */
  lemma WonIffAllCardsUp(s: GameState)
    requires WellFormed(s)
    ensures FoundationCardCount(s) <= 52
    ensures IsGameWon(s) <==> FoundationCardCount(s) == 52
    ensures 0 <= CompletionPercentage(s) <= 100
    ensures IsGameWon(s) <==> CompletionPercentage(s) == 100
  {
    forall i | 0 <= i < |s.foundations| ensures |s.foundations[i]| <= 13 {
      FoundationRunBounded(s.foundations[i]);
    }
    FullCountMeansAllFull(s.foundations);
  }

  /**
   * `isPotentiallyWinnable`'s hidden-card test, read through the queries: some column hides a
   * card exactly when `getVisibleTableauCards` of some column is not the whole column.
   */
  lemma HiddenIffSomeColumnPartlyVisible(s: GameState)
    ensures HasHiddenCards(s) <==>
              exists c :: 0 <= c < |s.tableau| && VisibleTableauCards(s, c) != s.tableau[c]
  {
    forall c | 0 <= c < |s.tableau| {
      FaceUpCardsKeepsAll(s.tableau[c]);
    }
  }

  // ---------------------------------------------------------------------------------------
  // Moves that cannot happen, and what moves score
  // ---------------------------------------------------------------------------------------

  /** Above a face-up card the ranks fall by one per card. */
  lemma {:induction false} RanksFall(col: seq<Card>, k: int, m: int)
    requires ColumnRun(col) && 0 <= k <= m < |col| && col[k].isFaceUp
    ensures col[m].isFaceUp
    ensures RankValue(col[m].rank) + (m - k) == RankValue(col[k].rank)
    decreases m - k
  {
    if m > k {
      RanksFall(col, k, m - 1);
      assert CanPlaceOnTableau(col[m], col[m - 1]);
    }
  }

  /** In a well-formed column a face-up card never fits on the top of its own column. */
  lemma NoMoveOntoOwnColumn(col: seq<Card>, k: int)
    requires ColumnRun(col) && 0 <= k < |col| && col[k].isFaceUp
    ensures !FitsColumn(col[k], col)
  {
    RanksFall(col, k, |col| - 1);
  }

  /**
   * The points a legal move of a face-up card earns in a well-formed game: 10 for a
   * foundation, and 5 more when it uncovers a face-down card in its source column.
   */
  lemma MoveScore(s: GameState, from: MoveSource, to: MoveDestination)
    requires WellFormed(s) && MoveInRange(s, from, to) && MoveLegal(s, from, to)
    requires SourceFaceUp(s, from)
    ensures ApplyMove(s, from, to).value.score
            == s.score + (if to.ToFoundation? then 10 else 0) + (if Uncovers(s, from) then 5 else 0)
  {
    var card := CardFromSource(s, from).value;
    match to
    case ToFoundation(i) =>
      assert ApplyMove(s, from, to).value == FoundationMove(s, from, i, card);
      FoundationMoveScore(s, from, i, card);
    case ToTableau(j) =>
      assert ApplyMove(s, from, to).value == SequenceMove(s, from, j);
      if from.FromTableau? && j == from.columnIndex {
        NoMoveOntoOwnColumn(s.tableau[j], from.cardIndex);
      }
      SequenceMoveScore(s, from, j);
  }

  lemma FoundationMoveScore(s: GameState, from: MoveSource, i: int, card: Card)
    requires SourceInRange(s, from) && 0 <= i < |s.foundations| && CardFromSource(s, from).Some?
    ensures FoundationMove(s, from, i, card).score == s.score + 10 + (if Uncovers(s, from) then 5 else 0)
  {
    if from.FromTableau? && from.cardIndex > 0 {
      var col := s.tableau[from.columnIndex];
      assert Last(col[..from.cardIndex]) == col[from.cardIndex - 1];
    }
  }

  lemma SequenceMoveScore(s: GameState, from: MoveSource, j: int)
    requires SourceInRange(s, from) && 0 <= j < |s.tableau| && CardFromSource(s, from).Some?
    requires from.FromTableau? ==> j != from.columnIndex
    ensures SequenceMove(s, from, j).score == s.score + (if Uncovers(s, from) then 5 else 0)
  {
    if from.FromTableau? && from.cardIndex > 0 {
      var col := s.tableau[from.columnIndex];
      assert Last(col[..from.cardIndex]) == col[from.cardIndex - 1];
    }
  }

  // ---------------------------------------------------------------------------------------
  // The winnability heuristic
  // ---------------------------------------------------------------------------------------

  /**
   * The moves `hasAvailableMoves` tries: from the waste to any pile, and from a face-up
   * tableau card to a foundation or to another column. Foundation sources are not tried.
   */
  predicate Considered(s: GameState, from: MoveSource, to: MoveDestination)
  {
    DestinationInRange(s, to)
    && match from
       case FromWaste => true
       case FromTableau(c, k) =>
         0 <= c < |s.tableau| && 0 <= k < |s.tableau[c]| && s.tableau[c][k].isFaceUp
         && to != ToTableau(c)
       case FromFoundation(_) => false
  }

  /** `hasAvailableMoves` holds exactly when one of the moves it tries is legal. */
  lemma AvailableMoveIsLegalMove(s: GameState)
    ensures AvailableMove(s) <==>
            exists from, to :: Considered(s, from, to) && MoveInRange(s, from, to) && MoveLegal(s, from, to)
  {
    if AvailableMove(s) {
      AvailableMoveHasWitness(s);
    }
    if exists from, to :: Considered(s, from, to) && MoveInRange(s, from, to) && MoveLegal(s, from, to) {
      var from, to :| Considered(s, from, to) && MoveInRange(s, from, to) && MoveLegal(s, from, to);
      LegalMoveIsAvailable(s, from, to);
    }
  }

  lemma AvailableMoveHasWitness(s: GameState)
    requires AvailableMove(s)
    ensures exists from, to :: Considered(s, from, to) && MoveInRange(s, from, to) && MoveLegal(s, from, to)
  {
    if s.waste != [] && (FitsSomeFoundation(s, Last(s.waste)) || FitsSomeColumn(s, Last(s.waste), -1)) {
      var to := WasteMoveWitness(s);
      assert Considered(s, FromWaste, to) && MoveInRange(s, FromWaste, to) && MoveLegal(s, FromWaste, to);
    } else {
      var c, k :| 0 <= c < |s.tableau| && 0 <= k < |s.tableau[c]| && s.tableau[c][k].isFaceUp
                  && (FitsSomeFoundation(s, s.tableau[c][k]) || FitsSomeColumn(s, s.tableau[c][k], c));
      var to := TableauMoveWitness(s, c, k);
      assert Considered(s, FromTableau(c, k), to) && MoveInRange(s, FromTableau(c, k), to)
             && MoveLegal(s, FromTableau(c, k), to);
    }
  }

  lemma WasteMoveWitness(s: GameState) returns (to: MoveDestination)
    requires s.waste != []
    requires FitsSomeFoundation(s, Last(s.waste)) || FitsSomeColumn(s, Last(s.waste), -1)
    ensures Considered(s, FromWaste, to) && MoveInRange(s, FromWaste, to) && MoveLegal(s, FromWaste, to)
  {
    if FitsSomeFoundation(s, Last(s.waste)) {
      var i :| 0 <= i < |s.foundations| && CanPlaceOnFoundation(Last(s.waste), TopCard(s.foundations[i]));
      to := ToFoundation(i);
    } else {
      var j :| 0 <= j < |s.tableau| && j != -1 && FitsColumn(Last(s.waste), s.tableau[j]);
      to := ToTableau(j);
    }
  }

  lemma TableauMoveWitness(s: GameState, c: int, k: int) returns (to: MoveDestination)
    requires 0 <= c < |s.tableau| && 0 <= k < |s.tableau[c]| && s.tableau[c][k].isFaceUp
    requires FitsSomeFoundation(s, s.tableau[c][k]) || FitsSomeColumn(s, s.tableau[c][k], c)
    ensures Considered(s, FromTableau(c, k), to) && MoveInRange(s, FromTableau(c, k), to)
            && MoveLegal(s, FromTableau(c, k), to)
  {
    var card := s.tableau[c][k];
    if FitsSomeFoundation(s, card) {
      var i :| 0 <= i < |s.foundations| && CanPlaceOnFoundation(card, TopCard(s.foundations[i]));
      to := ToFoundation(i);
    } else {
      var j :| 0 <= j < |s.tableau| && j != c && FitsColumn(card, s.tableau[j]);
      to := ToTableau(j);
    }
  }

  lemma LegalMoveIsAvailable(s: GameState, from: MoveSource, to: MoveDestination)
    requires Considered(s, from, to) && MoveInRange(s, from, to) && MoveLegal(s, from, to)
    ensures AvailableMove(s)
  {
    var card := CardFromSource(s, from).value;
    match to
    case ToFoundation(i) =>
      assert FitsSomeFoundation(s, card);
    case ToTableau(j) =>
      if from.FromWaste? {
        assert FitsSomeColumn(s, card, -1);
      } else {
        assert FitsSomeColumn(s, card, from.columnIndex);
      }
  }
}
