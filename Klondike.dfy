/**
 * Klondike.kt: the game engine. A `KlondikeGame` owns a deck and the current game state and
 * changes that state in place; every method here is proved to leave exactly the state the
 * functions of module Rules describe. The wall clock is the parameter `now` (milliseconds)
 * and the shuffle's random draws are the parameter `rolls`.
 */
module Klondike {
  import opened Options
  import opened Cards
  import opened Decks
  import opened States
  import opened Rules
  import opened Setup

  // ---------------------------------------------------------------------------------------
  // How far `dealInitialCards` has got
  // ---------------------------------------------------------------------------------------

  /**
   * The cards column c holds from the deck d while the deal is at row `row` of column `col`:
   * its whole share for earlier columns, the first `row` cards of its share for column `col`
   * (the last of them turned up once the row reaches the column index), none for later ones.
   */
  function DealtPart(d: seq<Card>, c: nat, col: nat, row: nat): seq<Card>
    requires DealStart(col) + row <= |d|
  {
    if c < col then DealtColumn(d, c)
    else if c == col then TurnUpAt(d[DealStart(col)..DealStart(col) + row], col)
    else []
  }

  /** The tableau of state s once the deal of d has reached row `row` of column `col`. */
  function DealtTableau(s: GameState, d: seq<Card>, col: nat, row: nat): (t: seq<seq<Card>>)
    requires |s.tableau| == TableauCount && DealStart(col) + row <= |d|
    ensures |t| == TableauCount
  {
    seq(TableauCount, c requires 0 <= c < TableauCount => s.tableau[c] + DealtPart(d, c, col, row))
  }

  /** State t is state s after the deal of d has reached row `row` of column `col`. */
  predicate DealtSoFar(s: GameState, d: seq<Card>, t: GameState, col: nat, row: nat)
  {
    && |s.tableau| == TableauCount && col <= TableauCount && DealStart(col) + row <= |d|
    && t == s.(tableau := DealtTableau(s, d, col, row))
  }

  /** Before the first card nothing has been dealt. */
  lemma DealtNothing(s: GameState, d: seq<Card>)
    requires |s.tableau| == TableauCount
    ensures DealtSoFar(s, d, s, 0, 0)
  {
    forall c | 0 <= c < TableauCount ensures DealtTableau(s, d, 0, 0)[c] == s.tableau[c] {
      assert d[DealStart(0)..DealStart(0)] == [];
    }
  }

  /** Dealing the next card of column `col` onto it extends its share by that card. */
  lemma DealtOneMore(s: GameState, d: seq<Card>, t: GameState, col: nat, row: nat, card: Card)
    requires DealtSoFar(s, d, t, col, row) && col < TableauCount && row <= col
    requires DealStart(col) + row < |d|
    requires card == if row == col then d[DealStart(col) + row].(isFaceUp := true) else d[DealStart(col) + row]
    ensures DealtSoFar(s, d, t.(tableau := t.tableau[col := t.tableau[col] + [card]]), col, row + 1)
  {
    var t' := t.(tableau := t.tableau[col := t.tableau[col] + [card]]);
    forall c | 0 <= c < TableauCount ensures t'.tableau[c] == DealtTableau(s, d, col, row + 1)[c] {
      if c == col {
        ColumnGrows(s.tableau[c], d, col, row, card);
      } else {
        assert DealtPart(d, c, col, row + 1) == DealtPart(d, c, col, row);
      }
    }
  }

  /** The share of the column being dealt grows by the card just dealt. */
  lemma ColumnGrows(base: seq<Card>, d: seq<Card>, col: nat, row: nat, card: Card)
    requires row <= col && DealStart(col) + row < |d|
    requires card == if row == col then d[DealStart(col) + row].(isFaceUp := true) else d[DealStart(col) + row]
    ensures base + DealtPart(d, col, col, row) + [card] == base + DealtPart(d, col, col, row + 1)
  {
    var start := DealStart(col);
    var before := d[start..start + row];
    SliceGrows(d, start, start + row);
    TurnUpAtStep(before, d[start + row], col);
  }

  lemma SliceGrows(d: seq<Card>, i: int, j: int)
    requires 0 <= i <= j < |d|
    ensures d[i..j + 1] == d[i..j] + [d[j]]
  {
  }

  lemma SliceTail(d: seq<Card>, i: int)
    requires 0 <= i < |d|
    ensures d[i..][1..] == d[i + 1..]
  {
  }

  /** Appending a card below position k leaves it as it is, and at position k turns it up. */
  lemma TurnUpAtStep(before: seq<Card>, x: Card, k: nat)
    requires |before| <= k
    ensures TurnUpAt(before, k) == before
    ensures TurnUpAt(before + [x], k) == before + [if |before| == k then x.(isFaceUp := true) else x]
  {
  }

  /** Once column `col` has all its cards, the deal moves on to the first row of the next. */
  lemma DealtNextColumn(s: GameState, d: seq<Card>, t: GameState, col: nat)
    requires DealtSoFar(s, d, t, col, col + 1) && col < TableauCount
    ensures DealtSoFar(s, d, t, col + 1, 0)
  {
    assert DealStart(col + 1) == DealStart(col) + col + 1;
    forall c | 0 <= c < TableauCount ensures t.tableau[c] == DealtTableau(s, d, col + 1, 0)[c] {
      if c == col + 1 {
        assert d[DealStart(c)..DealStart(c)] == [];
      }
    }
  }

  /**
   * A deck that runs out at row `row` of column `col` ends the deal there: what has been dealt
   * is all `DealInitial` deals, and no card reaches the stock.
   */
  lemma DealStoppedEarly(s: GameState, d: seq<Card>, t: GameState, col: nat, row: nat)
    requires DealtSoFar(s, d, t, col, row) && col < TableauCount && row <= col
    requires |d| == DealStart(col) + row
    ensures t == DealInitial(s, d)
  {
    assert DealStart(col + 1) == DealStart(col) + col + 1;
    assert DealInitial(s, d).stock == s.stock by {
      DealStartGrows(col + 1, TableauCount);
    }
    forall c | 0 <= c < TableauCount ensures t.tableau[c] == DealInitial(s, d).tableau[c] {
      StoppedColumn(s, d, t, col, row, c);
    }
  }

  lemma StoppedColumn(s: GameState, d: seq<Card>, t: GameState, col: nat, row: nat, c: nat)
    requires DealtSoFar(s, d, t, col, row) && col < TableauCount && row <= col && c < TableauCount
    requires |d| == DealStart(col) + row && DealStart(col + 1) == DealStart(col) + col + 1
    ensures t.tableau[c] == s.tableau[c] + DealtColumn(d, c)
  {
    if c == col {
      ShortColumn(d, col, row);
    } else if c > col {
      DealStartGrows(col + 1, c);
      NoColumn(d, c);
    }
  }

  /** A deck that ends inside column `col`'s share gives that column the rest of the deck. */
  lemma ShortColumn(d: seq<Card>, col: nat, row: nat)
    requires row <= col && |d| == DealStart(col) + row
    ensures DealtColumn(d, col) == TurnUpAt(d[DealStart(col)..DealStart(col) + row], col)
  {
    assert d[DealStart(col)..] == d[DealStart(col)..DealStart(col) + row];
  }

  /** A deck that ends before column c's share gives it nothing. */
  lemma NoColumn(d: seq<Card>, c: nat)
    requires |d| <= DealStart(c)
    ensures DealtColumn(d, c) == []
  {
  }

  /** After the seventh column the deal is complete once the rest of the deck is on the stock. */
  lemma DealtAll(s: GameState, d: seq<Card>, t: GameState)
    requires DealtSoFar(s, d, t, TableauCount, 0)
    ensures DealStart(TableauCount) <= |d|
    ensures t.(stock := s.stock + d[DealStart(TableauCount)..]) == DealInitial(s, d)
  {
    var r := DealInitial(s, d);
    forall c | 0 <= c < TableauCount ensures t.tableau[c] == r.tableau[c] {
    }
  }

  // ---------------------------------------------------------------------------------------
  // The engine
  // ---------------------------------------------------------------------------------------

  class KlondikeGame {
    /** The private deck, shuffled on construction and on every new game. */
    const deck: Deck
    var state: GameState
    var isGameCompleted: bool
    /** The clock reading when the game was won, while it has been won. */
    var completionTime: Option<int>
    var gameStartTime: int

    /** The fixed pile counts, and a completion time recorded exactly when the game is completed. */
    predicate Valid()
      reads this
    {
      Shaped(state) && (isGameCompleted <==> completionTime.Some?)
    }

    /** A new engine: the deck is built and shuffled; no game has been dealt yet. */
    constructor (rolls: seq<nat>)
      requires ShuffleDraws(rolls, 52)
      ensures Valid()
      ensures multiset(deck.cards) == multiset(FullDeck())
      ensures state == EmptyState() && !isGameCompleted && gameStartTime == 0
    {
      deck := new Deck(rolls);
      state := EmptyState();
      isGameCompleted := false;
      completionTime := None;
      gameStartTime := 0;
    }

    /**
     * `newGame`: reset the deck, clear the state and the completion record, start the clock,
     * and deal. The result is a well-formed opening with every card in play exactly once.
     */
    method NewGame(rolls: seq<nat>, now: int)
      requires ShuffleDraws(rolls, 52)
      modifies this, deck
      ensures Valid() && !isGameCompleted && gameStartTime == now && deck.cards == []
      ensures exists d :: ShuffledDeck(d) && state == DealInitial(EmptyState(), d)
      ensures Opening(state)
    {
      deck.Reset(rolls);
      ghost var d := deck.cards;
      DealOpening(d);
      state := EmptyState();
      isGameCompleted := false;
      completionTime := None;
      gameStartTime := now;
      DealInitialCards();
    }

    /**
     * `dealInitialCards`: column c takes c + 1 cards from the front of the deck, the last
     * one turned face up, stopping as soon as the deck runs out; the rest of the deck goes
     * onto the stock in order.
     */
    method DealInitialCards()
      requires Shaped(state)
      modifies this`state, deck
      ensures state == DealInitial(old(state), old(deck.cards))
      ensures deck.cards == []
    {
      ghost var s, d := state, deck.cards;
      DealtNothing(s, d);
      for col := 0 to TableauCount
        invariant DealtSoFar(s, d, state, col, 0)
        invariant deck.cards == d[DealStart(col)..]
      {
        var complete := DealColumn(col, s, d);
        if !complete {
          return;
        }
      }
      DealtAll(s, d, state);
      DealRestToStock();
    }

    /**
     * The inner loop of `dealInitialCards` for column `col`: rows 0 to `col`, the card of the
     * last row turned up. A deck that runs out ends the whole deal, which is then complete.
     */
    method DealColumn(col: nat, ghost s: GameState, ghost d: seq<Card>) returns (complete: bool)
      requires col < TableauCount && DealtSoFar(s, d, state, col, 0) && deck.cards == d[DealStart(col)..]
      modifies this`state, deck
      ensures complete ==> DealtSoFar(s, d, state, col + 1, 0) && deck.cards == d[DealStart(col + 1)..]
      ensures !complete ==> state == DealInitial(s, d) && deck.cards == []
    {
      for row := 0 to col + 1
        invariant DealtSoFar(s, d, state, col, row)
        invariant deck.cards == d[DealStart(col) + row..]
      {
        var dealt := deck.Deal();
        if dealt.None? {
          DealStoppedEarly(s, d, state, col, row);
          return false;
        }
        var card := dealt.value;
        if row == col {
          card := card.(isFaceUp := true);
        }
        DealtOneMore(s, d, state, col, row, card);
        state := state.(tableau := state.tableau[col := state.tableau[col] + [card]]);
        SliceTail(d, DealStart(col) + row);
      }
      DealtNextColumn(s, d, state, col);
      return true;
    }

    /** The closing loop of `dealInitialCards`: every card left in the deck goes onto the stock in order. */
    method DealRestToStock()
      modifies this`state, deck
      ensures state == old(state).(stock := old(state).stock + old(deck.cards))
      ensures deck.cards == []
    {
      while !deck.IsEmpty()
        invariant deck.cards == old(deck.cards)[|old(deck.cards)| - |deck.cards|..]
        invariant state == old(state).(stock := old(state).stock + old(deck.cards)[..|old(deck.cards)| - |deck.cards|])
        decreases |deck.cards|
      {
        ghost var m := |old(deck.cards)| - |deck.cards|;
        var dealt := deck.Deal();
        state := state.(stock := state.stock + [dealt.value]);
        assert old(deck.cards)[..m + 1] == old(deck.cards)[..m] + [old(deck.cards)[m]];
        assert old(deck.cards)[m..][1..] == old(deck.cards)[m + 1..];
      }
      assert old(deck.cards)[..|old(deck.cards)|] == old(deck.cards);
    }

    /**
     * `dealFromStock`: refused once the game is completed; otherwise draw the top of the
     * stock face up onto the waste, or, with an empty stock, turn the waste back into the
     * stock; each counts one move. With both piles empty nothing happens.
     */
    method DealFromStock() returns (ok: bool)
      modifies this`state
      ensures ok <==> !isGameCompleted && DealFromStockResult(old(state)).Some?
      ensures state == if ok then DealFromStockResult(old(state)).value else old(state)
    {
      if isGameCompleted {
        return false;
      }
      if state.stock != [] {
        var card := Last(state.stock);
        state := state.(stock := DropLast(state.stock));
        card := card.(isFaceUp := true);
        state := state.(waste := state.waste + [card]);
        state := state.(moves := state.moves + 1);
        ok := true;
      } else if state.waste != [] {
        ghost var s := state;
        while state.waste != []
          invariant |state.waste| <= |s.waste|
          invariant state == s.(stock := TurnOver(s.waste[|state.waste|..], false),
                                waste := s.waste[..|state.waste|])
          decreases |state.waste|
        {
          var n := |state.waste|;
          var card := Last(state.waste);
          state := state.(waste := DropLast(state.waste));
          card := card.(isFaceUp := false);
          state := state.(stock := state.stock + [card]);
          assert s.waste[n - 1..][1..] == s.waste[n..];
          assert s.waste[..n][..n - 1] == s.waste[..n - 1];
        }
        assert s.waste[0..] == s.waste;
        state := state.(moves := state.moves + 1);
        ok := true;
      } else {
        ok := false;
      }
    }

    /**
     * `moveCard`: refused once the game is completed, when the source has no card, or when
     * the destination does not accept the card; otherwise the move of `ApplyMove` is made,
     * and a move that completes all four foundations ends the game: the clock reading is
     * recorded and the completion bonus for the elapsed whole seconds and the moves so far is
     * added.
     */
    method MoveCard(from: MoveSource, to: MoveDestination, now: int) returns (ok: bool)
      requires Valid()
      requires isGameCompleted || MoveInRange(state, from, to)
      modifies this`state, this`isGameCompleted, this`completionTime
      ensures Valid()
      ensures ok <==> !old(isGameCompleted) && MoveLegal(old(state), from, to)
      ensures !ok ==> state == old(state) && isGameCompleted == old(isGameCompleted)
                      && completionTime == old(completionTime)
      ensures ok ==> var r := ApplyMove(old(state), from, to).value;
                     && isGameCompleted == IsGameWon(r)
                     && completionTime == (if IsGameWon(r) then Some(now) else None)
                     && state == if IsGameWon(r)
                                 then r.(score := r.score + CompletionBonus(TruncDiv(now - gameStartTime, 1000), r.moves))
                                 else r
    {
      if isGameCompleted {
        return false;
      }
      var card := CardFromSource(state, from);
      if card.None? {
        return false;
      }
      ghost var before := state;
      match to {
        case ToFoundation(i) =>
          ok := MoveToFoundation(from, i, card.value);
        case ToTableau(j) =>
          ok := MoveToTableau(from, j, card.value);
      }
      assert ApplyMove(before, from, to) == if ok then Some(state) else None;
      if ok {
        CheckGameCompletion(now);
      }
    }

    /**
     * The foundation arm of `moveCard`: if foundation i accepts the card, take it from its
     * source, put it on the foundation, reveal the source column, count the move, add 10 points.
     */
    method MoveToFoundation(from: MoveSource, i: int, card: Card) returns (ok: bool)
      requires SourceInRange(state, from) && 0 <= i < |state.foundations|
      requires CardFromSource(state, from) == Some(card)
      modifies this`state
      ensures ok <==> CanPlaceOnFoundation(card, TopFoundationCard(old(state), i))
      ensures state == if ok then FoundationMove(old(state), from, i, card) else old(state)
    {
      if CanPlaceOnFoundation(card, TopFoundationCard(state, i)) {
        RemoveCardFromSource(from);
        state := state.(foundations := state.foundations[i := state.foundations[i] + [card]]);
        RevealTableauCard(from);
        state := state.(moves := state.moves + 1);
        state := state.(score := state.score + 10);
        ok := true;
      } else {
        ok := false;
      }
    }

    /**
     * The tableau arm of `moveCard`: a king onto an empty column j, or a card that fits on the
     * top of column j, moves with everything above it.
     */
    method MoveToTableau(from: MoveSource, j: int, card: Card) returns (ok: bool)
      requires SourceInRange(state, from) && 0 <= j < |state.tableau|
      requires CardFromSource(state, from) == Some(card)
      modifies this`state
      ensures ok <==> FitsColumn(card, old(state).tableau[j])
      ensures state == if ok then SequenceMove(old(state), from, j) else old(state)
    {
      var target := TopCard(state.tableau[j]);
      if target.None? && card.rank == King {
        MoveCardSequence(from, j);
        ok := true;
      } else if target.Some? && CanPlaceOnTableau(card, target.value) {
        MoveCardSequence(from, j);
        ok := true;
      } else {
        ok := false;
      }
    }

    /**
     * `checkGameCompletion`: on a game not yet completed whose four foundations hold thirteen
     * cards each, record the completion time and add the completion bonus.
     */
    method CheckGameCompletion(now: int)
      requires Valid()
      modifies this`state, this`isGameCompleted, this`completionTime
      ensures Valid()
      ensures old(isGameCompleted) || !IsGameWon(old(state)) ==>
                state == old(state) && isGameCompleted == old(isGameCompleted)
                && completionTime == old(completionTime)
      ensures !old(isGameCompleted) && IsGameWon(old(state)) ==>
                isGameCompleted && completionTime == Some(now)
                && state == old(state).(score := old(state).score
                                          + CompletionBonus(TruncDiv(now - gameStartTime, 1000), old(state).moves))
    {
      if isGameCompleted {
        return;
      }
      if IsGameWon(state) {
        isGameCompleted := true;
        completionTime := Some(now);
        state := state.(score := state.score + CompletionBonus(GameDurationSeconds(now), state.moves));
      }
    }

    /**
     * `removeCardFromSource`: pop the top of the waste or of a foundation, or, for a tableau
     * source, pop the column until only the cards below `cardIndex` remain.
     */
    method RemoveCardFromSource(from: MoveSource)
      requires SourceInRange(state, from)
      modifies this`state
      ensures state == RemoveFromSource(old(state), from)
    {
      match from {
        case FromWaste =>
          if state.waste != [] {
            state := state.(waste := DropLast(state.waste));
          }
        case FromTableau(c, k) =>
          var column := state.tableau[c];
          if k < |column| {
            var cardsToRemove := |column| - k;
            assert column[..|column| - 0] == column;
            for n := 0 to cardsToRemove
              invariant state == old(state).(tableau := old(state).tableau[c := column[..|column| - n]])
            {
              assert DropLast(column[..|column| - n]) == column[..|column| - n - 1];
              state := state.(tableau := state.tableau[c := DropLast(state.tableau[c])]);
            }
          }
        case FromFoundation(i) =>
          if state.foundations[i] != [] {
            state := state.(foundations := state.foundations[i := DropLast(state.foundations[i])]);
          }
      }
    }

    /**
     * `revealTableauCard`: after a move out of a tableau column, a face-down card left on top
     * of it is turned face up for 5 points.
     */
    method RevealTableauCard(from: MoveSource)
      requires SourceInRange(state, from)
      modifies this`state
      ensures state == Reveal(old(state), from)
    {
      if from.FromTableau? {
        var c := from.columnIndex;
        var column := state.tableau[c];
        if column != [] {
          var card := Last(column);
          if !card.isFaceUp {
            card := card.(isFaceUp := true);
            state := state.(tableau := state.tableau[c := DropLast(column) + [card]]);
            state := state.(score := state.score + 5);
          }
        }
      }
    }

    /**
     * `moveCardSequence`: move the top of the waste or of a foundation, or the tableau run
     * from `cardIndex` up, onto column j in order; reveal a tableau source; count one move.
     */
    method MoveCardSequence(from: MoveSource, j: int)
      requires SourceInRange(state, from) && 0 <= j < |state.tableau|
      requires CardFromSource(state, from).Some?
      modifies this`state
      ensures state == SequenceMove(old(state), from, j)
    {
      match from {
        case FromWaste =>
          var card := Last(state.waste);
          state := state.(waste := DropLast(state.waste));
          state := state.(tableau := state.tableau[j := state.tableau[j] + [card]]);
        case FromTableau(c, k) =>
          var column := state.tableau[c];
          var cards := column[k..];
          assert column[..|column| - 0] == column;
          for n := 0 to |cards|
            invariant state == old(state).(tableau := old(state).tableau[c := column[..|column| - n]])
          {
            assert DropLast(column[..|column| - n]) == column[..|column| - n - 1];
            state := state.(tableau := state.tableau[c := DropLast(state.tableau[c])]);
          }
          assert column[..|column| - |cards|] == column[..k];
          state := state.(tableau := state.tableau[j := state.tableau[j] + cards]);
          RevealTableauCard(from);
        case FromFoundation(i) =>
          var card := Last(state.foundations[i]);
          state := state.(foundations := state.foundations[i := DropLast(state.foundations[i])]);
          state := state.(tableau := state.tableau[j := state.tableau[j] + [card]]);
      }
      state := state.(moves := state.moves + 1);
    }

    /**
     * `getGameDurationSeconds`: the whole seconds, rounded toward zero, from the start of the
     * game to its completion, or to `now` while it is still being played.
     */
    function GameDurationSeconds(now: int): (seconds: int)
      reads this
      ensures var elapsed := (if completionTime.Some? then completionTime.value else now) - gameStartTime;
              && (elapsed >= 0 ==> 0 <= seconds && seconds * 1000 <= elapsed < seconds * 1000 + 1000)
              && (elapsed < 0 ==> seconds <= 0 && seconds * 1000 - 1000 < elapsed <= seconds * 1000)
    {
      var endTime := if completionTime.Some? then completionTime.value else now;
      TruncDiv(endTime - gameStartTime, 1000)
    }

    /**
     * The two numbers `getFormattedGameTime` prints as `mm:ss`: whole minutes and the
     * seconds left over, which recombine to the duration; both round toward zero, so a
     * negative duration (a clock set back) gives a remainder of the same sign.
     */
    function FormattedGameTime(now: int): (time: (int, int))
      reads this
      ensures time.0 * 60 + time.1 == GameDurationSeconds(now)
      ensures GameDurationSeconds(now) >= 0 ==> 0 <= time.0 && 0 <= time.1 < 60
      ensures GameDurationSeconds(now) < 0 ==> time.0 <= 0 && -60 < time.1 <= 0
    {
      var seconds := GameDurationSeconds(now);
      (TruncDiv(seconds, 60), TruncMod(seconds, 60))
    }

    /**
     * `isPotentiallyWinnable`: a completed game, a tableau with a face-down card, or an
     * available move.
     */
    method IsPotentiallyWinnable() returns (winnable: bool)
      ensures winnable <==> isGameCompleted || HasHiddenCards(state) || AvailableMove(state)
    {
      if isGameCompleted {
        return true;
      }
      if HasHiddenCards(state) {
        return true;
      }
      winnable := HasAvailableMoves();
    }

    /**
     * `hasAvailableMoves`: try the top of the waste on every foundation and every column,
     * then every face-up tableau card on every foundation and every other column; stop at the
     * first fit.
     */
    method HasAvailableMoves() returns (found: bool)
      ensures found <==> AvailableMove(state)
    {
      if state.waste != [] {
        var wasteCard := Last(state.waste);
        found := FitsAnyFoundation(wasteCard);
        if found {
          return;
        }
        found := FitsAnyColumn(wasteCard, -1);
        if found {
          return;
        }
      }
      for c := 0 to |state.tableau|
        invariant forall c', k :: 0 <= c' < c && 0 <= k < |state.tableau[c']| && state.tableau[c'][k].isFaceUp ==>
                    !FitsSomeFoundation(state, state.tableau[c'][k]) && !FitsSomeColumn(state, state.tableau[c'][k], c')
      {
        var column := state.tableau[c];
        for k := 0 to |column|
          invariant forall c', k' :: 0 <= c' < c && 0 <= k' < |state.tableau[c']| && state.tableau[c'][k'].isFaceUp ==>
                      !FitsSomeFoundation(state, state.tableau[c'][k']) && !FitsSomeColumn(state, state.tableau[c'][k'], c')
          invariant forall k' :: 0 <= k' < k && column[k'].isFaceUp ==>
                      !FitsSomeFoundation(state, column[k']) && !FitsSomeColumn(state, column[k'], c)
        {
          var card := column[k];
          if card.isFaceUp {
            found := FitsAnyFoundation(card);
            if found {
              return;
            }
            found := FitsAnyColumn(card, c);
            if found {
              return;
            }
          }
        }
      }
      found := false;
    }

    /** The foundation loop of `hasAvailableMoves`: does any foundation accept the card? */
    method FitsAnyFoundation(card: Card) returns (found: bool)
      ensures found <==> FitsSomeFoundation(state, card)
    {
      for i := 0 to |state.foundations|
        invariant forall i' :: 0 <= i' < i ==> !CanPlaceOnFoundation(card, TopCard(state.foundations[i']))
      {
        if CanPlaceOnFoundation(card, TopCard(state.foundations[i])) {
          return true;
        }
      }
      return false;
    }

    /** The column loop of `hasAvailableMoves`: does a column other than `except` accept the card? */
    method FitsAnyColumn(card: Card, except: int) returns (found: bool)
      ensures found <==> FitsSomeColumn(state, card, except)
    {
      for j := 0 to |state.tableau|
        invariant forall j' :: 0 <= j' < j && j' != except ==> !FitsColumn(card, state.tableau[j'])
      {
        if j != except {
          var target := TopCard(state.tableau[j]);
          if (target.None? && card.rank == King) || (target.Some? && CanPlaceOnTableau(card, target.value)) {
            return true;
          }
        }
      }
      return false;
    }
  }
}
