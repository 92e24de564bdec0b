/**
 * Which cards the rules of Klondike.kt keep in play and which they discard, and the order in
 * which the stock comes back after it has been drawn out and recycled.
 */
module Invariants {
  import opened Options
  import opened Cards
  import opened States
  import opened Rules

  // ---------------------------------------------------------------------------------------
  // Which cards are in play
  // ---------------------------------------------------------------------------------------

  /** The identities of the cards on a list of piles. */
  function PilesIds(piles: seq<seq<Card>>): (m: multiset<CardId>)
  {
    if piles == [] then multiset{} else PilesIds(piles[..|piles| - 1]) + Ids(piles[|piles| - 1])
  }

  /** The identities of every card in a state: stock, waste, foundations and tableau. */
  function Bag(s: GameState): multiset<CardId>
  {
    Ids(s.stock) + Ids(s.waste) + PilesIds(s.foundations) + PilesIds(s.tableau)
  }

  /** How often an identity occurs in a state, pile group by pile group. */
  lemma BagAt(s: GameState, x: CardId)
    ensures Bag(s)[x] == Ids(s.stock)[x] + Ids(s.waste)[x] + PilesIds(s.foundations)[x] + PilesIds(s.tableau)[x]
  {
  }

  /** The first n piles hold the first n - 1 piles and pile n - 1. */
  lemma PilesIdsPrefix(piles: seq<seq<Card>>, n: int, x: CardId)
    requires 0 < n <= |piles|
    ensures PilesIds(piles[..n])[x] == PilesIds(piles[..n - 1])[x] + Ids(piles[n - 1])[x]
  {
    assert piles[..n][..n - 1] == piles[..n - 1] && piles[..n][n - 1] == piles[n - 1];
  }

  /** Replacing one pile replaces its cards and nothing else, counted for one identity. */
  lemma {:induction false} PilesIdsUpdateAt(piles: seq<seq<Card>>, i: int, pile: seq<Card>, x: CardId)
    requires 0 <= i < |piles|
    ensures PilesIds(piles[i := pile])[x] + Ids(piles[i])[x] == PilesIds(piles)[x] + Ids(pile)[x]
    decreases |piles|
  {
    var n := |piles| - 1;
    var updated := piles[i := pile];
    PilesIdsLast(piles, x);
    PilesIdsLast(updated, x);
    if i == n {
      assert updated[..n] == piles[..n];
    } else {
      assert updated[..n] == piles[..n][i := pile];
      assert piles[..n][i] == piles[i];
      PilesIdsUpdateAt(piles[..n], i, pile, x);
    }
  }

  /** The piles hold the piles below the last one, and the last one. */
  lemma PilesIdsLast(piles: seq<seq<Card>>, x: CardId)
    requires piles != []
    ensures PilesIds(piles)[x] == PilesIds(piles[..|piles| - 1])[x] + Ids(piles[|piles| - 1])[x]
  {
  }

  /** Adding cards on top of one pile adds exactly those cards. */
  lemma PilesIdsAppend(piles: seq<seq<Card>>, i: int, extra: seq<Card>)
    requires 0 <= i < |piles|
    ensures PilesIds(piles[i := piles[i] + extra]) == PilesIds(piles) + Ids(extra)
  {
    IdsAppend(piles[i], extra);
    forall x ensures PilesIds(piles[i := piles[i] + extra])[x] == (PilesIds(piles) + Ids(extra))[x] {
      PilesIdsUpdateAt(piles, i, piles[i] + extra, x);
    }
  }

  /** Cutting one pile at k removes exactly the cards from k up. */
  lemma PilesIdsCut(piles: seq<seq<Card>>, i: int, k: int)
    requires 0 <= i < |piles| && 0 <= k <= |piles[i]|
    ensures PilesIds(piles[i := piles[i][..k]]) + Ids(piles[i][k..]) == PilesIds(piles)
  {
    var pile := piles[i];
    assert pile == pile[..k] + pile[k..];
    IdsAppend(pile[..k], pile[k..]);
    forall x ensures (PilesIds(piles[i := pile[..k]]) + Ids(pile[k..]))[x] == PilesIds(piles)[x] {
      PilesIdsUpdateAt(piles, i, pile[..k], x);
    }
  }

  /** Turning a pile over keeps its cards. */
  lemma {:induction false} IdsTurnOver(pile: seq<Card>, faceUp: bool)
    ensures Ids(TurnOver(pile, faceUp)) == Ids(pile)
  {
    IdsPointwise(TurnOver(pile, faceUp), Reversed(pile));
    IdsReversed(pile);
  }

  function Reversed(pile: seq<Card>): (r: seq<Card>)
    ensures |r| == |pile|
    ensures forall i :: 0 <= i < |pile| ==> r[i] == pile[|pile| - 1 - i]
  {
    if pile == [] then [] else Reversed(pile[1..]) + [pile[0]]
  }

  lemma {:induction false} IdsReversed(pile: seq<Card>)
    ensures Ids(Reversed(pile)) == Ids(pile)
    decreases |pile|
  {
    if pile != [] {
      IdsReversed(pile[1..]);
      IdsAppend(Reversed(pile[1..]), [pile[0]]);
      IdsSplitFirst(pile);
    }
  }

  /** Turning the top card of a column face up keeps its cards. */
  lemma RevealKeepsCards(s: GameState, from: MoveSource)
    requires SourceInRange(s, from)
    ensures Bag(Reveal(s, from)) == Bag(s)
  {
    if from.FromTableau? && s.tableau[from.columnIndex] != [] && !Last(s.tableau[from.columnIndex]).isFaceUp {
      var c := from.columnIndex;
      var turned := TurnUpTop(s.tableau[c]);
      IdsPointwise(turned, s.tableau[c]);
      assert Reveal(s, from).tableau == s.tableau[c := turned];
      forall x ensures Bag(Reveal(s, from))[x] == Bag(s)[x] {
        PilesIdsUpdateAt(s.tableau, c, turned, x);
      }
    }
  }

  /** The cards `removeCardFromSource` takes away: the top card, or a tableau column's run from `cardIndex`. */
  function Taken(s: GameState, from: MoveSource): (taken: seq<Card>)
    requires SourceInRange(s, from)
    ensures CardFromSource(s, from).Some? ==> taken != [] && taken[0] == CardFromSource(s, from).value
    ensures CardFromSource(s, from).None? ==> taken == []
  {
    match from
    case FromWaste => if s.waste != [] then [Last(s.waste)] else []
    case FromTableau(c, k) => if k < |s.tableau[c]| then s.tableau[c][k..] else []
    case FromFoundation(i) => if s.foundations[i] != [] then [Last(s.foundations[i])] else []
  }

  /** `removeCardFromSource` loses exactly the taken cards. */
  lemma RemoveTakes(s: GameState, from: MoveSource)
    requires SourceInRange(s, from)
    ensures Bag(RemoveFromSource(s, from)) + Ids(Taken(s, from)) == Bag(s)
  {
    match from
    case FromWaste => RemoveFromWasteTakes(s);
    case FromTableau(c, k) => RemoveFromTableauTakes(s, c, k);
    case FromFoundation(i) => RemoveFromFoundationTakes(s, i);
  }

  lemma RemoveFromWasteTakes(s: GameState)
    ensures Bag(RemoveFromSource(s, FromWaste)) + Ids(Taken(s, FromWaste)) == Bag(s)
  {
    if s.waste != [] {
      assert s.waste == DropLast(s.waste) + [Last(s.waste)];
      IdsAppend(DropLast(s.waste), [Last(s.waste)]);
    }
  }

  lemma RemoveFromTableauTakes(s: GameState, c: int, k: int)
    requires SourceInRange(s, FromTableau(c, k))
    ensures Bag(RemoveFromSource(s, FromTableau(c, k))) + Ids(Taken(s, FromTableau(c, k))) == Bag(s)
  {
    if k < |s.tableau[c]| {
      PilesIdsCut(s.tableau, c, k);
    }
  }

  lemma RemoveFromFoundationTakes(s: GameState, i: int)
    requires SourceInRange(s, FromFoundation(i))
    ensures Bag(RemoveFromSource(s, FromFoundation(i))) + Ids(Taken(s, FromFoundation(i))) == Bag(s)
  {
    if s.foundations[i] != [] {
      var f := s.foundations[i];
      PilesIdsCut(s.foundations, i, |f| - 1);
      assert f[..|f| - 1] == DropLast(f) && f[|f| - 1..] == [Last(f)];
    }
  }

  /** Drawing and recycling move cards between stock and waste and lose none. */
  lemma DealFromStockKeepsCards(s: GameState)
    requires DealFromStockResult(s).Some?
    ensures Bag(DealFromStockResult(s).value) == Bag(s)
  {
    if s.stock != [] {
      assert s.stock == DropLast(s.stock) + [Last(s.stock)];
      IdsAppend(DropLast(s.stock), [Last(s.stock)]);
      IdsAppend(s.waste, [Last(s.stock).(isFaceUp := true)]);
    } else {
      IdsTurnOver(s.waste, false);
    }
  }

  /** A sequence move relocates the taken cards onto the destination column. */
  lemma SequenceMoveKeepsCards(s: GameState, from: MoveSource, j: int)
    requires SourceInRange(s, from) && 0 <= j < |s.tableau|
    requires CardFromSource(s, from).Some?
    ensures Bag(SequenceMove(s, from, j)) == Bag(s)
  {
    match from
    case FromWaste => WasteToColumnKeepsCards(s, j);
    case FromTableau(c, k) => RunToColumnKeepsCards(s, c, k, j);
    case FromFoundation(i) => FoundationToColumnKeepsCards(s, i, j);
  }

  lemma WasteToColumnKeepsCards(s: GameState, j: int)
    requires 0 <= j < |s.tableau| && s.waste != []
    ensures Bag(SequenceMove(s, FromWaste, j)) == Bag(s)
  {
    var card := Last(s.waste);
    assert s.waste == DropLast(s.waste) + [card];
    IdsAppend(DropLast(s.waste), [card]);
    PilesIdsAppend(s.tableau, j, [card]);
  }

  lemma RunToColumnKeepsCards(s: GameState, c: int, k: int, j: int)
    requires 0 <= c < |s.tableau| && 0 <= k < |s.tableau[c]| && 0 <= j < |s.tableau|
    ensures Bag(SequenceMove(s, FromTableau(c, k), j)) == Bag(s)
  {
    var column := s.tableau[c];
    var cut := s.tableau[c := column[..k]];
    var moved := s.(tableau := cut[j := cut[j] + column[k..]]);
    PilesIdsCut(s.tableau, c, k);
    PilesIdsAppend(cut, j, column[k..]);
    assert Bag(moved) == Bag(s);
    RevealKeepsCards(moved, FromTableau(c, k));
  }

  lemma FoundationToColumnKeepsCards(s: GameState, i: int, j: int)
    requires 0 <= i < |s.foundations| && s.foundations[i] != [] && 0 <= j < |s.tableau|
    ensures Bag(SequenceMove(s, FromFoundation(i), j)) == Bag(s)
  {
    var pile := s.foundations[i];
    var card := Last(pile);
    var r := SequenceMove(s, FromFoundation(i), j);
    assert r.foundations == s.foundations[i := DropLast(pile)];
    assert r.tableau == s.tableau[j := s.tableau[j] + [card]];
    forall x ensures Bag(r)[x] == Bag(s)[x] {
      BagAt(r, x);
      BagAt(s, x);
      PilesIdsUpdateAt(s.foundations, i, DropLast(pile), x);
      PilesIdsUpdateAt(s.tableau, j, s.tableau[j] + [card], x);
      assert Ids(pile)[x] == Ids(DropLast(pile))[x] + Ids([card])[x] by {
        IdsAppend(DropLast(pile), [card]);
      }
      assert Ids(s.tableau[j] + [card])[x] == Ids(s.tableau[j])[x] + Ids([card])[x] by {
        IdsAppend(s.tableau[j], [card]);
      }
    }
    SameCounts(Bag(r), Bag(s));
  }

  lemma SameCounts(a: multiset<CardId>, b: multiset<CardId>)
    requires forall x :: a[x] == b[x]
    ensures a == b
  {
  }

  /**
   * A foundation move takes what `removeCardFromSource` removes but places only the one card:
   * the state keeps its cards except the ones above the moved card in a tableau column.
   */
  lemma FoundationMoveCards(s: GameState, from: MoveSource, i: int)
    requires SourceInRange(s, from) && 0 <= i < |s.foundations|
    requires CardFromSource(s, from).Some?
    ensures var card := CardFromSource(s, from).value;
            Bag(FoundationMove(s, from, i, card)) + Ids(Taken(s, from)[1..]) == Bag(s)
  {
    var card := CardFromSource(s, from).value;
    var taken := Taken(s, from);
    var result := FoundationMove(s, from, i, card);
    var removed := RemoveFromSource(s, from);
    RemoveTakes(s, from);
    FoundationMovePlaces(s, from, i, card);
    IdsSplitFirst(taken);
    Regroup(Bag(removed), Ids(taken), Bag(s), Bag(result), Ids([card]), Ids(taken[1..]));
  }

  lemma IdsSplitFirst(t: seq<Card>)
    requires t != []
    ensures Ids(t) == Ids([t[0]]) + Ids(t[1..])
  {
    assert t == [t[0]] + t[1..];
    IdsAppend([t[0]], t[1..]);
  }

  /** Removing some cards and putting back the first of them loses the rest. */
  lemma Regroup(removed: multiset<CardId>, taken: multiset<CardId>, before: multiset<CardId>,
                after: multiset<CardId>, placed: multiset<CardId>, rest: multiset<CardId>)
    requires removed + taken == before
    requires after == removed + placed
    requires taken == placed + rest
    ensures after + rest == before
  {
    forall x ensures (after + rest)[x] == before[x] {
      assert (removed + taken)[x] == before[x];
    }
  }

  /** After the removal, a foundation move adds back the one card it places. */
  lemma FoundationMovePlaces(s: GameState, from: MoveSource, i: int, card: Card)
    requires SourceInRange(s, from) && 0 <= i < |s.foundations|
    ensures Bag(FoundationMove(s, from, i, card)) == Bag(RemoveFromSource(s, from)) + Ids([card])
  {
    var removed := RemoveFromSource(s, from);
    var placed := removed.(foundations := removed.foundations[i := removed.foundations[i] + [card]]);
    forall x ensures Bag(placed)[x] == (Bag(removed) + Ids([card]))[x] {
      assert PilesIds(placed.foundations)[x] == PilesIds(removed.foundations)[x] + Ids([card])[x] by {
        PilesIdsAppend(removed.foundations, i, [card]);
      }
      BagAt(placed, x);
      BagAt(removed, x);
    }
    SameCounts(Bag(placed), Bag(removed) + Ids([card]));
    RevealKeepsCards(placed, from);
  }

  /**
   * Conservation for `moveCard`: a legal move keeps every card in play, except a foundation
   * move from a tableau column, which discards the cards lying above the moved card.
   */
  lemma MoveKeepsCards(s: GameState, from: MoveSource, to: MoveDestination)
    requires MoveInRange(s, from, to) && MoveLegal(s, from, to)
    ensures var r := ApplyMove(s, from, to).value;
            if to.ToFoundation? && from.FromTableau?
            then Bag(r) + Ids(s.tableau[from.columnIndex][from.cardIndex + 1..]) == Bag(s)
            else Bag(r) == Bag(s)
  {
    var card := CardFromSource(s, from).value;
    match to
    case ToFoundation(i) =>
      assert ApplyMove(s, from, to).value == FoundationMove(s, from, i, card);
      FoundationMoveDiscards(s, from, i);
    case ToTableau(j) =>
      assert ApplyMove(s, from, to).value == SequenceMove(s, from, j);
      SequenceMoveKeepsCards(s, from, j);
  }

  /** The foundation branch of `MoveKeepsCards`, with the discarded cards named. */
  lemma FoundationMoveDiscards(s: GameState, from: MoveSource, i: int)
    requires SourceInRange(s, from) && 0 <= i < |s.foundations|
    requires CardFromSource(s, from).Some?
    ensures var r := FoundationMove(s, from, i, CardFromSource(s, from).value);
            if from.FromTableau?
            then Bag(r) + Ids(s.tableau[from.columnIndex][from.cardIndex + 1..]) == Bag(s)
            else Bag(r) == Bag(s)
  {
    FoundationMoveCards(s, from, i);
    if from.FromTableau? {
      assert Taken(s, from)[1..] == s.tableau[from.columnIndex][from.cardIndex + 1..];
    } else {
      assert Taken(s, from)[1..] == [];
    }
  }

  /** Hence every legal move keeps all cards when a tableau source names the column's top card. */
  lemma MoveOfTopCardKeepsCards(s: GameState, from: MoveSource, to: MoveDestination)
    requires MoveInRange(s, from, to) && MoveLegal(s, from, to)
    requires from.FromTableau? ==> from.cardIndex == |s.tableau[from.columnIndex]| - 1
    ensures Bag(ApplyMove(s, from, to).value) == Bag(s)
  {
    MoveKeepsCards(s, from, to);
    if to.ToFoundation? && from.FromTableau? {
      assert s.tableau[from.columnIndex][from.cardIndex + 1..] == [];
    }
  }

  /** And a foundation move from below the top of a column does lose cards. */
  lemma FoundationMoveFromMidColumnLosesCards(s: GameState, from: MoveSource, to: MoveDestination)
    requires MoveInRange(s, from, to) && MoveLegal(s, from, to)
    requires from.FromTableau? && to.ToFoundation?
    requires from.cardIndex < |s.tableau[from.columnIndex]| - 1
    ensures |Bag(ApplyMove(s, from, to).value)| == |Bag(s)| - (|s.tableau[from.columnIndex]| - 1 - from.cardIndex)
    ensures |Bag(ApplyMove(s, from, to).value)| < |Bag(s)|
  {
    MoveKeepsCards(s, from, to);
  }

  // ---------------------------------------------------------------------------------------
  // The stock cycle
  // ---------------------------------------------------------------------------------------

  /** n successive draws from the stock. */
  function DrawTimes(s: GameState, n: nat): (r: GameState)
    requires n <= |s.stock|
    decreases n
  {
    if n == 0 then s else DrawTimes(Draw(s), n - 1)
  }

  /** Turning over a non-empty pile puts its last card first. */
  lemma TurnOverLast(p: seq<Card>, faceUp: bool)
    requires p != []
    ensures TurnOver(p, faceUp) == [Last(p).(isFaceUp := faceUp)] + TurnOver(DropLast(p), faceUp)
  {
    var rest := TurnOver(DropLast(p), faceUp);
    var a, b := TurnOver(p, faceUp), [Last(p).(isFaceUp := faceUp)] + rest;
    assert |a| == |b|;
    forall i | 0 <= i < |a| ensures a[i] == b[i] {
      if i > 0 {
        assert b[i] == rest[i - 1] == DropLast(p)[|p| - 1 - i].(isFaceUp := faceUp);
      }
    }
  }

  /**
   * Drawing n cards moves the top n stock cards, last first and face up, onto the end of
   * the waste, and counts n moves.
   */
  lemma {:induction false} DrawTimesMovesCards(s: GameState, n: nat)
    requires n <= |s.stock|
    ensures var r := DrawTimes(s, n);
            && r.stock == s.stock[..|s.stock| - n]
            && r.waste == s.waste + TurnOver(s.stock[|s.stock| - n..], true)
            && r.foundations == s.foundations && r.tableau == s.tableau
            && r.score == s.score && r.moves == s.moves + n
  {
    DrawTimesKeeps(s, n);
    DrawTimesWaste(s, n);
  }

  lemma {:induction false} DrawTimesKeeps(s: GameState, n: nat)
    requires n <= |s.stock|
    ensures var r := DrawTimes(s, n);
            && r.stock == s.stock[..|s.stock| - n]
            && r.foundations == s.foundations && r.tableau == s.tableau
            && r.score == s.score && r.moves == s.moves + n
    decreases n
  {
    if n == 0 {
      assert s.stock[..|s.stock|] == s.stock;
    } else {
      var d := Draw(s);
      DrawTimesKeeps(d, n - 1);
      assert d.stock[..|d.stock| - (n - 1)] == s.stock[..|s.stock| - n];
    }
  }

  lemma {:induction false} DrawTimesWaste(s: GameState, n: nat)
    requires n <= |s.stock|
    ensures DrawTimes(s, n).waste == s.waste + TurnOver(s.stock[|s.stock| - n..], true)
    decreases n
  {
    if n == 0 {
      assert s.stock[|s.stock|..] == [];
    } else {
      var d := Draw(s);
      DrawTimesWaste(d, n - 1);
      DrawOneMore(s.waste, s.stock, d.stock, n);
    }
  }

  /** The waste after n draws, split into the first draw and the n - 1 after it. */
  lemma DrawOneMore(waste: seq<Card>, stock: seq<Card>, rest: seq<Card>, n: nat)
    requires 0 < n <= |stock| && rest + [Last(stock)] == stock
    ensures (waste + [Last(stock).(isFaceUp := true)]) + TurnOver(rest[|rest| - (n - 1)..], true)
            == waste + TurnOver(stock[|stock| - n..], true)
  {
    var top := stock[|stock| - n..];
    assert DropLast(top) == rest[|rest| - (n - 1)..] && Last(top) == Last(stock);
    TurnOverLast(top, true);
  }

  /**
   * Drawing the whole stock onto an empty waste and then recycling restores the stock card
   * for card, in the same order and face down, after one move per draw and one for the recycle.
   */
  lemma StockCycleRestoresStock(s: GameState)
    requires s.stock != [] && s.waste == []
    requires forall c :: c in s.stock ==> !c.isFaceUp
    ensures var drawn := DrawTimes(s, |s.stock|);
            && drawn.stock == [] && |drawn.waste| == |s.stock|
            && DealFromStockResult(drawn) == Some(Recycle(drawn))
            && Recycle(drawn).stock == s.stock && Recycle(drawn).waste == []
            && Recycle(drawn).moves == s.moves + |s.stock| + 1
  {
    var n := |s.stock|;
    DrawTimesMovesCards(s, n);
    var drawn := DrawTimes(s, n);
    assert s.stock[n - n..] == s.stock;
    RecycleTurnsBack(drawn, s.stock);
  }

  /** Recycling a waste that is a face-down pile turned over face up gives back that pile. */
  lemma RecycleTurnsBack(s: GameState, pile: seq<Card>)
    requires s.stock == [] && pile != [] && s.waste == TurnOver(pile, true)
    requires forall c :: c in pile ==> !c.isFaceUp
    ensures Recycle(s).stock == pile
  {
    var r := Recycle(s).stock;
    forall i | 0 <= i < |pile| ensures r[i] == pile[i] {
      assert pile[i] in pile;
    }
  }
}
