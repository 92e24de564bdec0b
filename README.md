# Klondike solitaire engine, modelled in Dafny

This project models the rule engine of an Android Klondike solitaire game:

- **Card.kt**: the cards, their colours and rank values, and the two placement predicates.
- **Deck.kt**: the 52-card deck, which is rebuilt in suit-major order, shuffled and dealt from the front.
- **GameState.kt**: the pile snapshot. It holds the stock, the waste, 4 foundations, 7 tableau columns, the score and the move counter.
- **Klondike.kt**: the `KlondikeGame` engine:
  - the initial deal;
  - drawing from and recycling the stock;
  - validating and performing moves;
  - the scoring and completion bonus;
  - the completion percentage;
  - the `isPotentiallyWinnable` heuristic.

Structure:

- `Cards.dfy`, `Deck.dfy` and `GameState.dfy` follow the first three source files.
- The deck is a `class Deck` whose `seq<Card>` field is rebuilt, permuted and dealt by methods with loops.
- A game state is a value (`datatype GameState`). Only the engine changes it.
- `Rules.dfy` states each step of a move, a draw, a recycle and the deal as a function on states.
- `Klondike.dfy` holds `class KlondikeGame`. It has the source's fields (`state`, `isGameCompleted`, `completionTime`, `gameStartTime` and the deck). Its methods perform the source's loops and in-place edits, and each is proved to reach exactly the state the matching function in `Rules.dfy` describes.
- The properties of those functions are proved in four modules:
  - `Invariants.dfy`: which cards stay in play, and how the stock comes back after a recycle;
  - `Layout.dfy`: the shape of foundations and columns;
  - `Setup.dfy`: the opening deal;
  - `Progress.dfy`: winning, scoring, and the winnability heuristic.

Three behaviours of the source are modelled as written and stated as proved facts:

- **Face-down sources are accepted.** `getCardFromSource` never checks the face-up flag. A face-down tableau card can therefore be moved, and the model follows that. `Layout.MoveKeepsLayout` proves the layout is kept for face-up sources. `Layout.FaceDownSourceBreaksLayout` exhibits a legal move of a face-down card that breaks it.
- **Foundation moves from mid-column discard cards.** A foundation move from a tableau card that is not the column's top removes the whole run from that card up, but puts back only the card itself. `Invariants.MoveKeepsCards` states exactly which cards are lost. `Invariants.FoundationMoveFromMidColumnLosesCards` proves that some are.
- **A hidden card may move onto its own column.** `moveCard` never compares the source column with the destination. Take a column with a face-down five of hearts under a face-up six of spades. Moving the five onto that same column is legal, because it fits on the six. The move cuts the column and puts the same two cards back, still in the same order and faces, and only the move counter changes. `Layout.FaceDownSelfMoveOnlyCounts` proves this.

The wall clock is the parameter `now`, in milliseconds. The shuffle's random draws are the parameter `rolls`: `rolls[i]` is the index drawn when the shuffle visits index `i`. Kotlin's `Long` division and remainder round toward zero. They are modelled by `Rules.TruncDiv` and `Rules.TruncMod`.

## Model

| member | source | states |
|---|---|---|
| Cards.SuitColor | app/src/main/java/com/example/absolutesolitaire/Card.kt:3-8 | hearts and diamonds are exactly the red suits, clubs and spades exactly the black ones |
| Cards.SuitsComplete | app/src/main/java/com/example/absolutesolitaire/Card.kt:3-8 | `Suit.entries` lists four distinct suits and every suit is among them |
| Cards.RankValue | app/src/main/java/com/example/absolutesolitaire/Card.kt:14-17 | every rank value lies in 1..13; value 1 is exactly the ace and 13 exactly the king |
| Cards.RankValuesConsecutive | app/src/main/java/com/example/absolutesolitaire/Card.kt:14-17 | `Rank.entries` has 13 ranks numbered 1..13 consecutively in order, every rank is listed, and the value determines the rank |
| Cards.NewCard | app/src/main/java/com/example/absolutesolitaire/Card.kt:19-23 | a card built from a suit and a rank has that identity and is face down |
| Cards.Color | app/src/main/java/com/example/absolutesolitaire/Card.kt:24 | a card is red exactly when its suit is hearts or diamonds |
| Cards.CanPlaceOnTableau | app/src/main/java/com/example/absolutesolitaire/Card.kt:26-29 | a card that fits is not a king, never goes on an ace, has a lower rank and a different suit |
| Cards.CanPlaceOnFoundation | app/src/main/java/com/example/absolutesolitaire/Card.kt:31-37 | on an empty foundation exactly the aces fit; on a card only the same suit fits, never an ace and never onto a king |
| Cards.PlacementIgnoresFaces | app/src/main/java/com/example/absolutesolitaire/Card.kt:26-37 | neither placement predicate depends on either card's face-up flag |
| Decks.FullDeckContents | app/src/main/java/com/example/absolutesolitaire/Deck.kt:10-16 | the suit-by-rank deck holds 52 cards: each face-down card once, no face-up card |
| Decks.FullDeckIds | app/src/main/java/com/example/absolutesolitaire/Deck.kt:10-16 | every (suit, rank) identity occurs exactly once in that deck and every card is face down |
| Decks.FullDeck | app/src/main/java/com/example/absolutesolitaire/Deck.kt:10-16 | the deck `reset` builds before shuffling has 52 cards; `Decks.FullDeckContents` shows each face-down card occurs once |
| Decks.CrossProduct | app/src/main/java/com/example/absolutesolitaire/Deck.kt:12-16 | the nested loops yield as many cards as suits times ranks; `Decks.CrossProductCount` shows one per pair |
| Decks.CrossProductCount | app/src/main/java/com/example/absolutesolitaire/Deck.kt:12-16 | for distinct suits and ranks, each face-down card of a listed suit and rank occurs exactly once, and nothing else occurs |
| Decks.SuitRow | app/src/main/java/com/example/absolutesolitaire/Deck.kt:13-15 | one face-down card of the suit per rank, in rank order |
| Decks.Deck.constructor | app/src/main/java/com/example/absolutesolitaire/Deck.kt:6-8 | a new deck is a permutation of the full deck |
| Decks.Deck.Reset | app/src/main/java/com/example/absolutesolitaire/Deck.kt:10-18 | after `reset` the deck is a permutation of the full 52-card deck |
| Decks.Deck.Fill | app/src/main/java/com/example/absolutesolitaire/Deck.kt:11-16 | clearing and the two nested loops leave exactly the suit-major cross product of suits and ranks |
| Decks.Deck.AddSuit | app/src/main/java/com/example/absolutesolitaire/Deck.kt:13-15 | the inner loop appends one face-down card of the suit per rank, in rank order |
| Decks.Deck.Shuffle | app/src/main/java/com/example/absolutesolitaire/Deck.kt:20-22 | shuffling keeps the multiset of cards (and so the size) |
| Decks.Deck.Deal | app/src/main/java/com/example/absolutesolitaire/Deck.kt:24 | on an empty deck: no card and the deck unchanged; otherwise the first card, the old tail remains, and the size drops by one |
| Decks.Deck.IsEmpty | app/src/main/java/com/example/absolutesolitaire/Deck.kt:26 | empty exactly when the size is 0 |
| Decks.Deck.Size | app/src/main/java/com/example/absolutesolitaire/Deck.kt:27 | the size is non-negative and 0 exactly for the empty deck |
| Setup.ShuffledDeckFacts | app/src/main/java/com/example/absolutesolitaire/Deck.kt:10-18 | any permutation of the full deck has 52 face-down cards, each identity once |
| States.EmptyState | app/src/main/java/com/example/absolutesolitaire/GameState.kt:3-10 | a fresh state has empty stock and waste, 4 empty foundations, 7 empty columns, score and moves 0 |
| States.IsGameWon | app/src/main/java/com/example/absolutesolitaire/GameState.kt:11-13 | a won game has a top card on every foundation; `Progress.WonIffAllCardsUp` shows it holds exactly when all 52 cards are on the foundations |
| Progress.WonIffAllCardsUp | app/src/main/java/com/example/absolutesolitaire/GameState.kt:11-13 | in a well-formed game `isGameWon` holds exactly when the foundations hold all 52 cards, and exactly when the completion percentage is 100, which never exceeds 100 |
| States.TopCard | app/src/main/java/com/example/absolutesolitaire/GameState.kt:15 | the top is the pile's last card, and there is none exactly for an empty pile |
| States.TopFoundationCard | app/src/main/java/com/example/absolutesolitaire/GameState.kt:17-19 | the last card of foundation i, none exactly when it is empty |
| States.FaceUpCards | app/src/main/java/com/example/absolutesolitaire/GameState.kt:21-23 | the filter returns only face-up cards of the pile, never more than the pile, the whole pile when all are face up and nothing when none is; with `States.FaceUpCardsAppend` it keeps their original order |
| States.FaceUpCardsCount | app/src/main/java/com/example/absolutesolitaire/GameState.kt:21-23 | every face-up card is kept as often as it occurs and no face-down card is kept |
| States.FaceUpCardsAppend | app/src/main/java/com/example/absolutesolitaire/GameState.kt:21-23 | the filter works piece by piece: the face-up cards of a + b are those of a followed by those of b, so the kept cards stay in their original order |
| States.FaceUpCardsKeepsAll | app/src/main/java/com/example/absolutesolitaire/GameState.kt:21-23 | the filter returns the whole pile exactly when every card of it is face up |
| States.VisibleTableauCards | app/src/main/java/com/example/absolutesolitaire/GameState.kt:21-23 | the visible cards of column i are face-up cards of that column, never more than the column; they are the filter of the column, so by `States.FaceUpCardsAppend` they come in the column's order, bottom to top |
| States.VisibleIsSuffix | app/src/main/java/com/example/absolutesolitaire/GameState.kt:21-23 | in a column with its face-down cards at the bottom the visible cards are exactly its top segment |
| States.StateEquals | app/src/main/java/com/example/absolutesolitaire/GameState.kt:25-39 | the field-by-field comparison holds exactly when the two states are equal, face flags included (so it is reflexive, symmetric and transitive) |
| Rules.CardFromSource | app/src/main/java/com/example/absolutesolitaire/Klondike.kt:250-259 | the top of the waste or of a foundation; for a tableau source the card at `cardIndex` exactly when the index is below the column size, face-down or not |
| Rules.RemoveFromSource | app/src/main/java/com/example/absolutesolitaire/Klondike.kt:261-284 | `removeCardFromSource` keeps stock, score, moves and the pile counts, and cuts a tableau source to the cards below `cardIndex`; `Invariants.RemoveTakes` shows it loses exactly the taken cards |
| Rules.TurnUpTop | app/src/main/java/com/example/absolutesolitaire/Klondike.kt:289-293 | the column keeps its cards and only its top card ends face up where it was face down |
| Rules.Reveal | app/src/main/java/com/example/absolutesolitaire/Klondike.kt:286-296 | only the source column may change, and the score rises by 0 or 5 |
| Rules.FitsColumn | app/src/main/java/com/example/absolutesolitaire/Klondike.kt:83-93 | an empty column takes exactly the kings; a card that fits a non-empty column is not a king and differs in suit from the top |
| Rules.Accepts | app/src/main/java/com/example/absolutesolitaire/Klondike.kt:72-93 | an accepted card goes onto an empty pile exactly when it is an ace (foundation) or a king (column) |
| Rules.MoveLegal | app/src/main/java/com/example/absolutesolitaire/Klondike.kt:67-93 | a legal move has a card in its source pile, at `cardIndex` for a tableau source, and a destination in range |
| Rules.FoundationMove | app/src/main/java/com/example/absolutesolitaire/Klondike.kt:73-82 | the foundation branch keeps the pile counts and counts one move; its cards, layout and score are stated by `Rules.FoundationMoveLands`, `Invariants.FoundationMoveCards`, `Layout.FoundationMoveKeepsLayout` and `Progress.FoundationMoveScore` |
| Rules.FoundationMoveLands | app/src/main/java/com/example/absolutesolitaire/Klondike.kt:73-82 | the card goes on top of foundation i and the other foundations and the waste are as `removeCardFromSource` leaves them; the stock is unchanged; a tableau source keeps its cards below `cardIndex` with the new top turned up, and the other columns are unchanged |
| Rules.SequenceMove | app/src/main/java/com/example/absolutesolitaire/Klondike.kt:227-248 | `moveCardSequence` keeps the pile counts and counts one move; where its cards go is stated by `Rules.SequenceMoveLands` and `Invariants.SequenceMoveKeepsCards` |
| Rules.SequenceMoveLands | app/src/main/java/com/example/absolutesolitaire/Klondike.kt:227-248 | onto another column j the moved card, or the run from `cardIndex` in order, lands on top of column j, and the source keeps the rest, a tableau source with its new top turned up; every other pile and the stock are unchanged |
| Rules.ApplyMove | app/src/main/java/com/example/absolutesolitaire/Klondike.kt:67-94 | a move happens exactly when it is legal, counts one move and leaves the stock alone |
| Rules.TurnOver | app/src/main/java/com/example/absolutesolitaire/Klondike.kt:55-59 | the pile reversed, every card showing the given face |
| Rules.Draw | app/src/main/java/com/example/absolutesolitaire/Klondike.kt:47-52 | the stock's last card goes face up onto the end of the waste; one more move, same score |
| Rules.Recycle | app/src/main/java/com/example/absolutesolitaire/Klondike.kt:53-61 | the stock becomes the waste reversed and face down, the waste empties, one more move |
| Rules.DealFromStockResult | app/src/main/java/com/example/absolutesolitaire/Klondike.kt:47-64 | `dealFromStock` fails exactly when stock and waste are both empty |
| Rules.DealtColumn | app/src/main/java/com/example/absolutesolitaire/Klondike.kt:28-36 | column c receives the next c + 1 deck cards (fewer if the deck runs out) with only its last row turned up |
| Rules.DealInitial | app/src/main/java/com/example/absolutesolitaire/Klondike.kt:26-42 | the deal changes only tableau and stock and keeps seven columns; `Setup.DealKeepsCards` shows it moves the deck's cards there and loses none, and `Setup.InitialLayout` gives the opening shape |
| Rules.TruncDiv | app/src/main/java/com/example/absolutesolitaire/Klondike.kt:139 | `Long` division rounds toward zero: the remainder has the dividend's sign and is smaller than the divisor |
| Rules.TruncMod | app/src/main/java/com/example/absolutesolitaire/Klondike.kt:145 | quotient times divisor plus remainder gives the dividend back; the remainder of a non-negative value lies in 0..divisor-1 |
| Rules.CompletionBonus | app/src/main/java/com/example/absolutesolitaire/Klondike.kt:119-135 | the bonus lies in 50..700; it is 700 exactly for under 120 seconds and under 150 moves, 50 exactly for 600 seconds or more and 300 moves or more |
| Rules.CompletionBonusMonotone | app/src/main/java/com/example/absolutesolitaire/Klondike.kt:119-135 | a faster game in fewer moves never earns a smaller bonus |
| Rules.FoundationCardCount | app/src/main/java/com/example/absolutesolitaire/Klondike.kt:152-154 | a won game has 13 cards per foundation on its foundations |
| Rules.CardCount | app/src/main/java/com/example/absolutesolitaire/Klondike.kt:152-154 | the total of a list of piles is 0 for no piles and at least the size of each pile |
| Rules.FullCountMeansAllFull | app/src/main/java/com/example/absolutesolitaire/Klondike.kt:152-154 | with at most 13 cards per pile the count is at most 13 per pile, and reaches it only when every pile is full |
| Rules.CompletionPercentage | app/src/main/java/com/example/absolutesolitaire/Klondike.kt:159-161 | the percentage is non-negative; with at most 52 foundation cards it is at most 100, and 100 exactly when all 52 are up |
| Invariants.RemoveTakes | app/src/main/java/com/example/absolutesolitaire/Klondike.kt:261-284 | `removeCardFromSource` loses exactly the taken cards: the top card, or the tableau run from `cardIndex` |
| Invariants.RevealKeepsCards | app/src/main/java/com/example/absolutesolitaire/Klondike.kt:286-296 | turning a column's top card up keeps every card identity in play |
| Invariants.DealFromStockKeepsCards | app/src/main/java/com/example/absolutesolitaire/Klondike.kt:44-65 | drawing and recycling keep every card identity in play |
| Invariants.SequenceMoveKeepsCards | app/src/main/java/com/example/absolutesolitaire/Klondike.kt:227-248 | a move onto a column keeps every card identity in play |
| Invariants.FoundationMoveCards | app/src/main/java/com/example/absolutesolitaire/Klondike.kt:73-82 | a foundation move keeps every card except those taken above the moved card |
| Invariants.MoveKeepsCards | app/src/main/java/com/example/absolutesolitaire/Klondike.kt:67-102 | a legal move keeps every card, except that a foundation move from a column discards exactly the cards above the moved card |
| Invariants.MoveOfTopCardKeepsCards | app/src/main/java/com/example/absolutesolitaire/Klondike.kt:67-102 | when a tableau source names its column's top card, every legal move keeps every card |
| Invariants.FoundationMoveFromMidColumnLosesCards | app/src/main/java/com/example/absolutesolitaire/Klondike.kt:269-275 | a foundation move from below a column's top loses as many cards as lay above the moved card |
| Invariants.DrawTimesMovesCards | app/src/main/java/com/example/absolutesolitaire/Klondike.kt:47-52 | n draws move the last n stock cards, last first and face up, onto the waste, and count n moves |
| Invariants.StockCycleRestoresStock | app/src/main/java/com/example/absolutesolitaire/Klondike.kt:47-61 | drawing a face-down stock out entirely onto an empty waste and then recycling gives back the same stock in the same order, after one move per card plus one |
| Invariants.RecycleTurnsBack | app/src/main/java/com/example/absolutesolitaire/Klondike.kt:53-61 | recycling a waste that is a face-down pile turned over face up gives back that pile |
| Layout.FoundationRunBounded | app/src/main/java/com/example/absolutesolitaire/Card.kt:31-37 | a foundation built by the placement rule holds at most 13 cards, and a full one ends with its king |
| Layout.FoundationRunPush | app/src/main/java/com/example/absolutesolitaire/Klondike.kt:74-76 | a face-up card that the foundation accepts extends the foundation's run |
| Layout.ColumnPrefixRevealed | app/src/main/java/com/example/absolutesolitaire/Klondike.kt:286-296 | a cut column whose new top is turned up is a well-formed column again |
| Layout.ColumnAppend | app/src/main/java/com/example/absolutesolitaire/Klondike.kt:239 | a face-up run whose first card fits the column's top stacks into a well-formed column |
| Layout.DealFromStockKeepsLayout | app/src/main/java/com/example/absolutesolitaire/Klondike.kt:44-65 | drawing and recycling keep the layout: face-down stock, face-up waste |
| Layout.MovedCardFaceUp | app/src/main/java/com/example/absolutesolitaire/Klondike.kt:250-259 | in a well-formed game the waste and foundation cards a move takes are face up |
| Layout.FoundationMoveKeepsLayout | app/src/main/java/com/example/absolutesolitaire/Klondike.kt:73-82 | a legal foundation move of a face-up card keeps the layout |
| Layout.SequenceMoveKeepsLayout | app/src/main/java/com/example/absolutesolitaire/Klondike.kt:227-248 | a legal move of a face-up card onto a column keeps the layout |
| Layout.MoveKeepsLayout | app/src/main/java/com/example/absolutesolitaire/Klondike.kt:67-102 | every legal move of a face-up source card keeps the layout |
| Layout.FaceDownSourceBreaksLayout | app/src/main/java/com/example/absolutesolitaire/Klondike.kt:253-256 | a well-formed game has a legal move of a face-down tableau card that puts a face-down card on a foundation |
| Progress.NoMoveOntoOwnColumn | app/src/main/java/com/example/absolutesolitaire/Klondike.kt:83-93 | in a well-formed column no face-up card fits on the top of its own column |
| Layout.FaceDownSelfMoveOnlyCounts | app/src/main/java/com/example/absolutesolitaire/Klondike.kt:83-93 | in a well-formed game a face-down card may legally move onto its own column, and the move changes nothing but the move counter |
| Progress.MoveScore | app/src/main/java/com/example/absolutesolitaire/Klondike.kt:67-102 | a legal move of a face-up card scores 10 for a foundation, plus 5 when it uncovers a face-down card |
| Progress.AvailableMoveIsLegalMove | app/src/main/java/com/example/absolutesolitaire/Klondike.kt:179-225 | the heuristic's search succeeds exactly when a waste move, or a face-up tableau move to a foundation or another column, is legal |
| Rules.AvailableMove | app/src/main/java/com/example/absolutesolitaire/Klondike.kt:179-225 | a move is found only from the waste or from a face-up tableau card, never from a foundation |
| Progress.HiddenIffSomeColumnPartlyVisible | app/src/main/java/com/example/absolutesolitaire/Klondike.kt:171-173 | some column holds a face-down card exactly when `getVisibleTableauCards` of some column is not the whole column |
| Setup.DealKeepsCards | app/src/main/java/com/example/absolutesolitaire/Klondike.kt:26-42 | the deal moves the deck's cards into tableau and stock and loses none |
| Setup.InitialColumn | app/src/main/java/com/example/absolutesolitaire/Klondike.kt:28-36 | after dealing a full deck column c has c + 1 cards, only its last face up |
| Setup.InitialStock | app/src/main/java/com/example/absolutesolitaire/Klondike.kt:39-41 | the other 24 cards, the deck's last 24 in deck order, go to the stock face down |
| Setup.InitialLayout | app/src/main/java/com/example/absolutesolitaire/Klondike.kt:17-42 | the opening is well formed: c + 1 cards in column c with only the last face up, 24 in the stock, empty waste and foundations, no score or moves |
| Setup.InitialCardsOnce | app/src/main/java/com/example/absolutesolitaire/Klondike.kt:17-42 | after the opening deal every card identity is in play exactly once |
| Setup.DealOpening | app/src/main/java/com/example/absolutesolitaire/Klondike.kt:17-42 | dealing a shuffled full deck gives the opening `newGame` promises |
| Klondike.KlondikeGame.constructor | app/src/main/java/com/example/absolutesolitaire/Klondike.kt:3-15 | a new engine has a shuffled full deck, an empty state, and no completion |
| Klondike.KlondikeGame.NewGame | app/src/main/java/com/example/absolutesolitaire/Klondike.kt:17-24 | a new game is the deal of some shuffled full deck, not completed, started at `now`, with the deck used up and the opening facts above |
| Klondike.KlondikeGame.DealInitialCards | app/src/main/java/com/example/absolutesolitaire/Klondike.kt:26-42 | the loops leave exactly the deal of the deck's cards and an empty deck |
| Klondike.KlondikeGame.DealColumn | app/src/main/java/com/example/absolutesolitaire/Klondike.kt:29-35 | one column's rows deal its share, or end the whole deal when the deck runs out |
| Klondike.KlondikeGame.DealRestToStock | app/src/main/java/com/example/absolutesolitaire/Klondike.kt:39-41 | every remaining deck card goes onto the stock in deck order |
| Klondike.KlondikeGame.DealFromStock | app/src/main/java/com/example/absolutesolitaire/Klondike.kt:44-65 | succeeds exactly on an uncompleted game with a card in stock or waste, then draws or recycles; otherwise nothing changes |
| Klondike.KlondikeGame.MoveCard | app/src/main/java/com/example/absolutesolitaire/Klondike.kt:67-102 | succeeds exactly for a legal move on an uncompleted game and then makes that move; a move that wins records the time and adds the bonus; a refused move changes nothing |
| Klondike.KlondikeGame.MoveToFoundation | app/src/main/java/com/example/absolutesolitaire/Klondike.kt:73-82 | succeeds exactly when foundation i accepts the card, and then makes the foundation move |
| Klondike.KlondikeGame.MoveToTableau | app/src/main/java/com/example/absolutesolitaire/Klondike.kt:83-93 | succeeds exactly for a king on an empty column or a fit on its top, and then moves the card with everything above it |
| Klondike.KlondikeGame.CheckGameCompletion | app/src/main/java/com/example/absolutesolitaire/Klondike.kt:104-117 | a completed or unwon game is left alone; otherwise the game completes once, at `now`, with the bonus for the elapsed seconds and moves |
| Klondike.KlondikeGame.RemoveCardFromSource | app/src/main/java/com/example/absolutesolitaire/Klondike.kt:261-284 | the popping loops leave exactly the source without its top card or without its run from `cardIndex` |
| Klondike.KlondikeGame.RevealTableauCard | app/src/main/java/com/example/absolutesolitaire/Klondike.kt:286-296 | a face-down top of a tableau source is turned up for 5 points, and nothing else changes |
| Klondike.KlondikeGame.MoveCardSequence | app/src/main/java/com/example/absolutesolitaire/Klondike.kt:227-248 | the card or run lands on column j in order, a tableau source is revealed, one move is counted |
| Klondike.KlondikeGame.GameDurationSeconds | app/src/main/java/com/example/absolutesolitaire/Klondike.kt:137-140 | the whole seconds, rounded toward zero, from the start to the completion time or to `now` |
| Klondike.KlondikeGame.FormattedGameTime | app/src/main/java/com/example/absolutesolitaire/Klondike.kt:142-147 | minutes and seconds recombine to the duration; for a non-negative duration the seconds lie in 0..59; for a negative one both round toward zero, so minutes are at most 0 and seconds lie in -59..0 |
| Klondike.KlondikeGame.IsPotentiallyWinnable | app/src/main/java/com/example/absolutesolitaire/Klondike.kt:167-177 | true exactly for a completed game, a tableau with a face-down card, or an available move |
| Klondike.KlondikeGame.HasAvailableMoves | app/src/main/java/com/example/absolutesolitaire/Klondike.kt:179-225 | the nested searches find a move exactly when one is available |
| Klondike.KlondikeGame.FitsAnyFoundation | app/src/main/java/com/example/absolutesolitaire/Klondike.kt:183-187 | the foundation loop succeeds exactly when some foundation accepts the card |
| Klondike.KlondikeGame.FitsAnyColumn | app/src/main/java/com/example/absolutesolitaire/Klondike.kt:190-196 | the column loop succeeds exactly when some column other than the excluded one accepts the card |

## Left out

- `GameState.hashCode` (GameState.kt:41-49) is not modelled. It relies on 32-bit wrap-around and JVM list hashing, and no rule depends on it.
- The `javaClass` and identity checks at the head of `equals` are not modelled. Two `GameState` values are always of the same class, so `States.StateEquals` starts at the field comparisons.
- `String.format("%02d:%02d", …)` is not modelled. `Klondike.KlondikeGame.FormattedGameTime` returns the two numbers it formats.
- `System.currentTimeMillis` is not modelled; the clock reading is the parameter `now`.
- The random number generator inside `cards.shuffle()` is not modelled. Its draws are the parameter `rolls`, so the distribution of shuffles is not modelled.
- Decks.Deck.Shuffle: states only that the result is a permutation, as the library promises. It does not state which permutation the given draws produce.
- Klondike.KlondikeGame.NewGame: states the opening through some shuffled full deck, and does not tie it to the particular draws in `rolls`.
- `Int` and `Long` overflow is not modelled; scores, move counters and times are unbounded integers. None of them can come near overflow in a game.
- Card objects are modelled as values. In the source a card is a mutable object that at most one pile refers to at a time (the cards a foundation move from mid-column discards are referred to by none), and every face flip happens on a card the engine has just taken from or still holds in that pile. A value model therefore loses no behaviour.
- Klondike.KlondikeGame.MoveCard: unless the game is completed, requires the source's pile index in range and `cardIndex >= 0`, and the destination index in range whenever the source yields a card. The source throws in exactly those cases (Klondike.kt:74, 84, 254-255), and the exception is not modelled. A completed game, and a source that yields no card, return false before any further index is read, as in the model.
- `Klondike.KlondikeGame.DealColumn`, `DealRestToStock`, `MoveToFoundation`, `MoveToTableau`, `FitsAnyFoundation` and `FitsAnyColumn` are not separate functions in the source. They are the inner loops and `when` arms of `dealInitialCards`, `moveCard` and `hasAvailableMoves`, given their own contracts.
- `getFoundationCardCount` and `getCompletionPercentage` read only the state, so they are modelled as functions of it: `Rules.FoundationCardCount` and `Rules.CompletionPercentage`.
- `calculateCompletionBonus` reads the duration and the move counter. It is modelled as `Rules.CompletionBonus` of those two numbers.
- `SolitaireGameView.kt` is not part of this model. It is drawing, touch handling and animation that only call `moveCard` and `dealFromStock`.
