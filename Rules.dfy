/**
 * The rules of Klondike.kt as functions on game states: where a move takes its card from,
 * when a destination accepts it, and the state each step of a move, a draw or a recycle
 * leaves behind. The engine class in Klondike.dfy performs the same steps in place and is
 * proved to reach exactly these states.
 */
module Rules {
  import opened Options
  import opened Cards
  import opened States

  /** The `MoveSource` variants. */
  datatype MoveSource =
    | FromWaste
    | FromTableau(columnIndex: int, cardIndex: int)
    | FromFoundation(index: int)

  /** The `MoveDestination` variants. */
  datatype MoveDestination =
    | ToFoundation(index: int)
    | ToTableau(index: int)

  function Last(pile: seq<Card>): Card
    requires pile != []
  {
    pile[|pile| - 1]
  }

  function DropLast(pile: seq<Card>): (rest: seq<Card>)
    requires pile != []
    ensures |rest| == |pile| - 1 && pile == rest + [Last(pile)]
  {
    pile[..|pile| - 1]
  }

  // ---------------------------------------------------------------------------------------
  // Resolving the source and checking the destination
  // ---------------------------------------------------------------------------------------

  /** The source's pile index exists and the card index is not negative; otherwise Kotlin throws. */
  predicate SourceInRange(s: GameState, from: MoveSource)
  {
    match from
    case FromWaste => true
    case FromTableau(c, k) => 0 <= c < |s.tableau| && 0 <= k
    case FromFoundation(i) => 0 <= i < |s.foundations|
  }

  /** The destination's pile index exists; otherwise Kotlin throws. */
  predicate DestinationInRange(s: GameState, to: MoveDestination)
  {
    match to
    case ToFoundation(i) => 0 <= i < |s.foundations|
    case ToTableau(j) => 0 <= j < |s.tableau|
  }

  /** The pile a source names. */
  function SourcePile(s: GameState, from: MoveSource): seq<Card>
    requires SourceInRange(s, from)
  {
    match from
    case FromWaste => s.waste
    case FromTableau(c, _) => s.tableau[c]
    case FromFoundation(i) => s.foundations[i]
  }

  /**
   * `getCardFromSource`: the top of the waste or of a foundation, or the card at `cardIndex`
   * of a tableau column. Nothing here looks at the face-up flag: a face-down card is
   * returned like any other.
   */
  function CardFromSource(s: GameState, from: MoveSource): (card: Option<Card>)
    requires SourceInRange(s, from)
    ensures card.Some? ==> card.value in SourcePile(s, from)
    ensures !from.FromTableau? ==> card == TopCard(SourcePile(s, from))
    ensures from.FromTableau? ==>
              (card.Some? <==> from.cardIndex < |s.tableau[from.columnIndex]|)
    ensures from.FromTableau? && card.Some? ==>
              card.value == s.tableau[from.columnIndex][from.cardIndex]
  {
    match from
    case FromWaste => TopCard(s.waste)
    case FromTableau(c, k) => if k < |s.tableau[c]| then Some(s.tableau[c][k]) else None
    case FromFoundation(i) => TopCard(s.foundations[i])
  }

  /**
   * The check in `moveCard`'s tableau branch: a king on an empty column, or a tableau fit on
   * its top. So an empty column takes exactly the kings, and a king never goes on a card.
   */
  predicate FitsColumn(card: Card, column: seq<Card>)
    ensures column == [] ==> (FitsColumn(card, column) <==> card.rank == King)
    ensures column != [] && FitsColumn(card, column) ==>
              card.rank != King && card.suit != column[|column| - 1].suit
  {
    var target := TopCard(column);
    (target.None? && card.rank == King) || (target.Some? && CanPlaceOnTableau(card, target.value))
  }

  /** The pile a destination names. */
  function DestinationPile(s: GameState, to: MoveDestination): seq<Card>
    requires DestinationInRange(s, to)
  {
    match to
    case ToFoundation(i) => s.foundations[i]
    case ToTableau(j) => s.tableau[j]
  }

  /**
   * The legality check `moveCard` applies to the destination. An accepted card goes onto an
   * empty pile exactly when it is an ace (foundation) or a king (column).
   */
  predicate Accepts(s: GameState, card: Card, to: MoveDestination)
    requires DestinationInRange(s, to)
    ensures Accepts(s, card, to) ==>
              (DestinationPile(s, to) == [] <==> card.rank == (if to.ToFoundation? then Ace else King))
  {
    match to
    case ToFoundation(i) => CanPlaceOnFoundation(card, TopFoundationCard(s, i))
    case ToTableau(j) => FitsColumn(card, s.tableau[j])
  }

  /**
   * The calls `moveCard` makes without throwing: the source is resolved first, and the
   * destination index is only used once a card was found.
   */
  predicate MoveInRange(s: GameState, from: MoveSource, to: MoveDestination)
  {
    SourceInRange(s, from) && (CardFromSource(s, from).None? || DestinationInRange(s, to))
  }

  /**
   * A move that `moveCard` performs (on a game not yet completed): the source pile has a card
   * (at `cardIndex` for a tableau source) and the destination, then in range, accepts it.
   */
  predicate MoveLegal(s: GameState, from: MoveSource, to: MoveDestination)
    requires MoveInRange(s, from, to)
    ensures MoveLegal(s, from, to) ==> SourcePile(s, from) != [] && DestinationInRange(s, to)
    ensures MoveLegal(s, from, to) && from.FromTableau? ==> from.cardIndex < |s.tableau[from.columnIndex]|
  {
    CardFromSource(s, from).Some? && Accepts(s, CardFromSource(s, from).value, to)
  }

  // ---------------------------------------------------------------------------------------
  // The steps of a move
  // ---------------------------------------------------------------------------------------

  /**
   * `removeCardFromSource`: pop the waste or a foundation; for a tableau source, cut the
   * column back to its first `cardIndex` cards. An empty source is left alone.
   */
  function RemoveFromSource(s: GameState, from: MoveSource): (r: GameState)
    requires SourceInRange(s, from)
    ensures |r.foundations| == |s.foundations| && |r.tableau| == |s.tableau|
    ensures r.stock == s.stock && r.score == s.score && r.moves == s.moves
    ensures from.FromTableau? && from.cardIndex < |s.tableau[from.columnIndex]| ==>
              r.tableau[from.columnIndex] == s.tableau[from.columnIndex][..from.cardIndex]
  {
    match from
    case FromWaste =>
      if s.waste != [] then s.(waste := DropLast(s.waste)) else s
    case FromTableau(c, k) =>
      if k < |s.tableau[c]| then s.(tableau := s.tableau[c := s.tableau[c][..k]]) else s
    case FromFoundation(i) =>
      if s.foundations[i] != [] then s.(foundations := s.foundations[i := DropLast(s.foundations[i])]) else s
  }

  /** A column whose top card is face down gets that card turned face up; otherwise it is unchanged. */
  function TurnUpTop(column: seq<Card>): (r: seq<Card>)
    ensures |r| == |column|
    ensures forall i :: 0 <= i < |r| ==>
              Id(r[i]) == Id(column[i]) && r[i].isFaceUp == (column[i].isFaceUp || i == |r| - 1)
  {
    if column != [] && !Last(column).isFaceUp
    then DropLast(column) + [Last(column).(isFaceUp := true)]
    else column
  }

  /**
   * `revealTableauCard`: after a tableau source lost cards, a face-down card now on top of
   * that column is turned face up and earns 5 points.
   */
  function Reveal(s: GameState, from: MoveSource): (r: GameState)
    requires SourceInRange(s, from)
    ensures r.stock == s.stock && r.waste == s.waste && r.foundations == s.foundations
    ensures |r.tableau| == |s.tableau| && r.moves == s.moves
    ensures r.score == s.score || r.score == s.score + 5
    ensures forall j :: 0 <= j < |s.tableau| && !(from.FromTableau? && j == from.columnIndex) ==>
              r.tableau[j] == s.tableau[j]
  {
    if from.FromTableau? && s.tableau[from.columnIndex] != []
       && !Last(s.tableau[from.columnIndex]).isFaceUp
    then
      s.(tableau := s.tableau[from.columnIndex := TurnUpTop(s.tableau[from.columnIndex])],
         score := s.score + 5)
    else s
  }

  /**
   * The foundation branch of `moveCard`: remove the card from its source, append it to
   * foundation i, reveal, count the move and add 10 points.
   */
  function FoundationMove(s: GameState, from: MoveSource, i: int, card: Card): (r: GameState)
    requires SourceInRange(s, from) && 0 <= i < |s.foundations|
    ensures |r.foundations| == |s.foundations| && |r.tableau| == |s.tableau|
    ensures r.moves == s.moves + 1
  {
    var removed := RemoveFromSource(s, from);
    var placed := removed.(foundations := removed.foundations[i := removed.foundations[i] + [card]]);
    var revealed := Reveal(placed, from);
    revealed.(moves := revealed.moves + 1, score := revealed.score + 10)
  }

  /**
   * `moveCardSequence`: a waste or foundation source gives up its top card; a tableau source
   * gives up the whole run from `cardIndex`, which lands on column j in order, and the source
   * column is then revealed. One move is counted however many cards travel.
   */
  function SequenceMove(s: GameState, from: MoveSource, j: int): (r: GameState)
    requires SourceInRange(s, from) && 0 <= j < |s.tableau|
    requires CardFromSource(s, from).Some?
    ensures |r.foundations| == |s.foundations| && |r.tableau| == |s.tableau|
    ensures r.moves == s.moves + 1
  {
    var moved :=
      match from
      case FromWaste =>
        s.(waste := DropLast(s.waste), tableau := s.tableau[j := s.tableau[j] + [Last(s.waste)]])
      case FromTableau(c, k) =>
        var column := s.tableau[c];
        var cut := s.tableau[c := column[..k]];
        Reveal(s.(tableau := cut[j := cut[j] + column[k..]]), from)
      case FromFoundation(i) =>
        var pile := s.foundations[i];
        s.(foundations := s.foundations[i := DropLast(pile)],
           tableau := s.tableau[j := s.tableau[j] + [Last(pile)]]);
    moved.(moves := moved.moves + 1)
  }

  /**
   * `moveCard` up to the completion check: the new state when the move is legal, and nothing
   * (the state stays as it was) when it is not.
   */
  function ApplyMove(s: GameState, from: MoveSource, to: MoveDestination): (r: Option<GameState>)
    requires MoveInRange(s, from, to)
    ensures r.Some? <==> MoveLegal(s, from, to)
    ensures r.Some? ==> |r.value.foundations| == |s.foundations| && |r.value.tableau| == |s.tableau|
    ensures r.Some? ==> r.value.moves == s.moves + 1
    ensures r.Some? ==> r.value.stock == s.stock
  {
    var card := CardFromSource(s, from);
    if card.None? || !Accepts(s, card.value, to) then None
    else
      match to
      case ToFoundation(i) => Some(FoundationMove(s, from, i, card.value))
      case ToTableau(j) => Some(SequenceMove(s, from, j))
  }

  /**
   * Where a foundation move puts its cards: the card goes on top of foundation i, the source
   * loses what `removeCardFromSource` removes, and a tableau source keeps exactly the cards
   * below `cardIndex`, its new top turned up.
   */
  lemma FoundationMoveLands(s: GameState, from: MoveSource, i: int, card: Card)
    requires SourceInRange(s, from) && 0 <= i < |s.foundations|
    ensures var r, removed := FoundationMove(s, from, i, card), RemoveFromSource(s, from);
            && r.foundations == removed.foundations[i := removed.foundations[i] + [card]]
            && r.stock == s.stock && r.waste == removed.waste
            && (from.FromTableau? && from.cardIndex < |s.tableau[from.columnIndex]| ==>
                  r.tableau == s.tableau[from.columnIndex := TurnUpTop(s.tableau[from.columnIndex][..from.cardIndex])])
            && (!from.FromTableau? ==> r.tableau == s.tableau)
  {
    if from.FromTableau? && from.cardIndex < |s.tableau[from.columnIndex]| {
      TurnUpTopOfFaceUp(s.tableau[from.columnIndex][..from.cardIndex]);
    }
  }

  /**
   * Where a move onto column j (another column than a tableau source's own) puts its cards:
   * the moved card, or the run from `cardIndex` in order, lands on top of column j; the source
   * keeps the rest, a tableau source its cards below `cardIndex` with the new top turned up.
   */
  lemma SequenceMoveLands(s: GameState, from: MoveSource, j: int)
    requires SourceInRange(s, from) && 0 <= j < |s.tableau|
    requires CardFromSource(s, from).Some?
    requires from.FromTableau? ==> from.columnIndex != j
    ensures var r := SequenceMove(s, from, j);
            && r.stock == s.stock
            && (from.FromTableau? ==>
                  var column := s.tableau[from.columnIndex];
                  && r.tableau == s.tableau[j := s.tableau[j] + column[from.cardIndex..]]
                                           [from.columnIndex := TurnUpTop(column[..from.cardIndex])]
                  && r.waste == s.waste && r.foundations == s.foundations)
            && (!from.FromTableau? ==>
                  && r.tableau == s.tableau[j := s.tableau[j] + [Last(SourcePile(s, from))]]
                  && SourcePile(r, from) == DropLast(SourcePile(s, from)))
            && (from.FromWaste? ==> r.foundations == s.foundations)
            && (from.FromFoundation? ==>
                  && r.waste == s.waste
                  && forall k :: 0 <= k < |s.foundations| && k != from.index ==> r.foundations[k] == s.foundations[k])
  {
    if from.FromTableau? {
      var c, k := from.columnIndex, from.cardIndex;
      var column := s.tableau[c];
      TurnUpTopOfFaceUp(column[..k]);
      assert s.tableau[c := column[..k]][j := s.tableau[j] + column[k..]]
          == s.tableau[j := s.tableau[j] + column[k..]][c := column[..k]];
    }
  }

  /** A column whose top is already face up, or an empty one, is left as it is by `TurnUpTop`. */
  lemma TurnUpTopOfFaceUp(column: seq<Card>)
    ensures column == [] || Last(column).isFaceUp ==> TurnUpTop(column) == column
    ensures column != [] && !Last(column).isFaceUp ==>
              TurnUpTop(column) == DropLast(column) + [Last(column).(isFaceUp := true)]
  {
  }

  /** The tableau source has a face-down card just below the moved card, which the move uncovers. */
  predicate Uncovers(s: GameState, from: MoveSource)
    requires SourceInRange(s, from)
  {
    from.FromTableau? && 0 < from.cardIndex < |s.tableau[from.columnIndex]|
    && !s.tableau[from.columnIndex][from.cardIndex - 1].isFaceUp
  }

  // ---------------------------------------------------------------------------------------
  // Stock and waste
  // ---------------------------------------------------------------------------------------

  /**
   * A pile turned over as a whole: the order is reversed and every card shows the same face.
   */
  function TurnOver(pile: seq<Card>, faceUp: bool): (r: seq<Card>)
    ensures |r| == |pile|
    ensures forall i :: 0 <= i < |pile| ==> r[i] == pile[|pile| - 1 - i].(isFaceUp := faceUp)
  {
    if pile == [] then [] else TurnOver(pile[1..], faceUp) + [pile[0].(isFaceUp := faceUp)]
  }

  /** The draw branch of `dealFromStock`: the last stock card goes face up onto the waste. */
  function Draw(s: GameState): (r: GameState)
    requires s.stock != []
    ensures r.stock + [Last(s.stock)] == s.stock
    ensures r.waste == s.waste + [Last(s.stock).(isFaceUp := true)]
    ensures r.foundations == s.foundations && r.tableau == s.tableau
    ensures r.score == s.score && r.moves == s.moves + 1
  {
    s.(stock := DropLast(s.stock), waste := s.waste + [Last(s.stock).(isFaceUp := true)],
       moves := s.moves + 1)
  }

  /**
   * The recycle branch of `dealFromStock` (empty stock): the waste, turned face down and
   * reversed, becomes the stock; the recycle counts as one move.
   */
  function Recycle(s: GameState): (r: GameState)
    requires s.stock == [] && s.waste != []
    ensures |r.stock| == |s.waste| && r.waste == []
    ensures forall i :: 0 <= i < |r.stock| ==>
              r.stock[i] == s.waste[|s.waste| - 1 - i].(isFaceUp := false)
    ensures r.foundations == s.foundations && r.tableau == s.tableau
    ensures r.score == s.score && r.moves == s.moves + 1
  {
    s.(stock := TurnOver(s.waste, false), waste := [], moves := s.moves + 1)
  }

  /** `dealFromStock` on a game not yet completed: draw, else recycle, else fail. */
  function DealFromStockResult(s: GameState): (r: Option<GameState>)
    ensures r.None? <==> s.stock == [] && s.waste == []
  {
    if s.stock != [] then Some(Draw(s))
    else if s.waste != [] then Some(Recycle(s))
    else None
  }

  // ---------------------------------------------------------------------------------------
  // The initial deal
  // ---------------------------------------------------------------------------------------

  /** How many cards the columns before column c take: 0, 1, 3, 6, ... */
  function DealStart(c: nat): nat
  {
    if c == 0 then 0 else DealStart(c - 1) + c
  }

  /**
   * The cards column c receives from the dealt sequence d: up to c + 1 cards starting at
   * `DealStart(c)`, fewer if the deck runs out; only the (c+1)-th, the row == col card, is
   * turned face up.
   */
  function DealtColumn(d: seq<Card>, c: nat): (column: seq<Card>)
    ensures |column| <= c + 1
    ensures |d| >= DealStart(c) + c + 1 ==> |column| == c + 1
    ensures forall r :: 0 <= r < |column| ==>
              DealStart(c) + r < |d| && Id(column[r]) == Id(d[DealStart(c) + r])
              && column[r].isFaceUp == (d[DealStart(c) + r].isFaceUp || r == c)
  {
    var start := DealStart(c);
    var row := if |d| <= start then [] else if |d| < start + c + 1 then d[start..] else d[start..start + c + 1];
    TurnUpAt(row, c)
  }

  /** The row with its card at position k turned face up, if there is one. */
  function TurnUpAt(row: seq<Card>, k: nat): (r: seq<Card>)
    ensures |r| == |row|
    ensures forall i :: 0 <= i < |r| ==> Id(r[i]) == Id(row[i]) && r[i].isFaceUp == (row[i].isFaceUp || i == k)
  {
    if k < |row| then row[k := row[k].(isFaceUp := true)] else row
  }

  /**
   * `dealInitialCards` applied to state s with deck sequence d: column c gets
   * `DealtColumn(d, c)` and, when the 28 tableau cards were there, every remaining card goes
   * to the stock in deck order.
   */
  function DealInitial(s: GameState, d: seq<Card>): (r: GameState)
    requires |s.tableau| == TableauCount
    ensures |r.tableau| == TableauCount && r.foundations == s.foundations && r.waste == s.waste
    ensures r.score == s.score && r.moves == s.moves
  {
    s.(tableau := seq(TableauCount, c requires 0 <= c < TableauCount => s.tableau[c] + DealtColumn(d, c)),
       stock := s.stock + if |d| >= DealStart(TableauCount) then d[DealStart(TableauCount)..] else [])
  }

  // ---------------------------------------------------------------------------------------
  // Completion, scoring and progress
  // ---------------------------------------------------------------------------------------

  /** Kotlin's `/` on `Long`, which rounds toward zero. */
  function TruncDiv(a: int, b: int): (q: int)
    requires b > 0
    ensures a >= 0 ==> 0 <= a - q * b < b
    ensures a < 0 ==> -b < a - q * b <= 0
  {
    if a >= 0 then a / b else -((-a) / b)
  }

  /** Kotlin's `%` on `Long`: the remainder takes the sign of the dividend. */
  function TruncMod(a: int, b: int): (m: int)
    requires b > 0
    ensures TruncDiv(a, b) * b + m == a
    ensures a >= 0 ==> 0 <= m < b
  {
    a - TruncDiv(a, b) * b
  }

  /**
   * `calculateCompletionBonus`: a time bonus (500, 300, 100 or 50 for under 120, 300, 600
   * seconds or more) plus a move bonus (200, 100, 50 or 0 for under 150, 200, 300 moves or more).
   */
  function CompletionBonus(seconds: int, moves: int): (bonus: int)
    ensures 50 <= bonus <= 700
    ensures seconds < 120 && moves < 150 <==> bonus == 700
    ensures seconds >= 600 && moves >= 300 <==> bonus == 50
  {
    var timeBonus :=
      if seconds < 120 then 500
      else if seconds < 300 then 300
      else if seconds < 600 then 100
      else 50;
    var moveBonus :=
      if moves < 150 then 200
      else if moves < 200 then 100
      else if moves < 300 then 50
      else 0;
    timeBonus + moveBonus
  }

  /** A faster game, in fewer moves, never earns a smaller completion bonus. */
  lemma CompletionBonusMonotone(seconds: int, moves: int, seconds': int, moves': int)
    requires seconds <= seconds' && moves <= moves'
    ensures CompletionBonus(seconds', moves') <= CompletionBonus(seconds, moves)
  {
  }

  /** The total number of cards in a list of piles: no pile holds more than all of them. */
  function CardCount(piles: seq<seq<Card>>): (n: nat)
    ensures piles == [] ==> n == 0
    ensures forall i :: 0 <= i < |piles| ==> |piles[i]| <= n
  {
    if piles == [] then 0 else CardCount(piles[..|piles| - 1]) + |piles[|piles| - 1]|
  }

  /** `getFoundationCardCount`: the number of cards on the foundations. */
  function FoundationCardCount(s: GameState): (n: nat)
    ensures IsGameWon(s) ==> n == 13 * |s.foundations|
  {
    AllFullCount(s.foundations);
    CardCount(s.foundations)
  }

  lemma {:induction false} AllFullCount(piles: seq<seq<Card>>)
    ensures (forall i :: 0 <= i < |piles| ==> |piles[i]| == 13) ==> CardCount(piles) == 13 * |piles|
    decreases |piles|
  {
    if piles != [] {
      AllFullCount(piles[..|piles| - 1]);
    }
  }

  /**
   * With at most 13 cards on each pile, the piles hold 13 cards per pile exactly when every
   * pile is full.
   */
  lemma {:induction false} FullCountMeansAllFull(piles: seq<seq<Card>>)
    requires forall i :: 0 <= i < |piles| ==> |piles[i]| <= 13
    ensures CardCount(piles) <= 13 * |piles|
    ensures CardCount(piles) == 13 * |piles| ==> forall i :: 0 <= i < |piles| ==> |piles[i]| == 13
    decreases |piles|
  {
    if piles != [] {
      FullCountMeansAllFull(piles[..|piles| - 1]);
      var init := piles[..|piles| - 1];
      assert forall i :: 0 <= i < |init| ==> init[i] == piles[i];
    }
  }

  /** `getCompletionPercentage`: foundation cards times 100, divided by 52. */
  function CompletionPercentage(s: GameState): (p: int)
    ensures 0 <= p
    ensures FoundationCardCount(s) <= 52 ==> p <= 100
    ensures FoundationCardCount(s) <= 52 ==> (p == 100 <==> FoundationCardCount(s) == 52)
  {
    FoundationCardCount(s) * 100 / 52
  }

  // ---------------------------------------------------------------------------------------
  // The winnability heuristic
  // ---------------------------------------------------------------------------------------

  /** Some foundation would accept the card. */
  predicate FitsSomeFoundation(s: GameState, card: Card)
  {
    exists i :: 0 <= i < |s.foundations| && CanPlaceOnFoundation(card, TopCard(s.foundations[i]))
  }

  /** Some tableau column other than `except` would accept the card. */
  predicate FitsSomeColumn(s: GameState, card: Card, except: int)
  {
    exists j :: 0 <= j < |s.tableau| && j != except && FitsColumn(card, s.tableau[j])
  }

  /** Some tableau column still hides a face-down card. */
  predicate HasHiddenCards(s: GameState)
  {
    exists c, k :: 0 <= c < |s.tableau| && 0 <= k < |s.tableau[c]| && !s.tableau[c][k].isFaceUp
  }

  /**
   * What `hasAvailableMoves` searches for: the waste top fits a foundation or any column, or
   * a face-up tableau card fits a foundation or a column other than its own.
   */
  predicate AvailableMove(s: GameState)
    ensures AvailableMove(s) ==>
              s.waste != [] || exists c, k :: 0 <= c < |s.tableau| && 0 <= k < |s.tableau[c]| && s.tableau[c][k].isFaceUp
  {
    (s.waste != [] && (FitsSomeFoundation(s, Last(s.waste)) || FitsSomeColumn(s, Last(s.waste), -1)))
    || exists c, k :: 0 <= c < |s.tableau| && 0 <= k < |s.tableau[c]| && s.tableau[c][k].isFaceUp
                     && (FitsSomeFoundation(s, s.tableau[c][k]) || FitsSomeColumn(s, s.tableau[c][k], c))
  }
}
