# Klondike rules engine

A Dafny model of the game controller of a Klondike solitaire game (the class
`Game` in `Game.cs`). The controller shuffles a 52-card deck onto the stock and
deals the triangular tableau. It then serves the player's actions: draw from the
stock (or recycle the discard pile onto an empty stock), select the discard
pile, select a run of a tableau column or drop the selection onto one, and move
the selection to a foundation pile. Every move is checked against the tableau
rule or the foundation rule. The controller keeps two face-down counters and
reports the game won when both run down.

The source is the one file `Game.cs`; the model follows it method by method,
in these modules:

- `cards.dfy` (module `Cards`): the card and suit values the controller moves.
- `piles.dfy` (module `Piles`): a .NET `Stack<Card>` as the class `CardStack`
  whose `cards` sequence has its top at the end, and the three pile controls
  reduced to the state the controller reads and writes (`CardPile`,
  `DiscardPile` with `isSelected`, `TableauColumn` with `numberSelected`).
- `deck.dfy` (module `Deck`): the new deck and the pick-and-backfill shuffle as
  functions, with their permutation and uniqueness lemmas. The random number
  generator is replaced by an oracle: `picks[i]` is the number the generator
  returns when asked for a nonnegative integer no larger than `i`.
- `rules.dfy` (module `Rules`): the tableau rule `CanBePlaced` and the
  foundation rule `CanBePlacedOnFoundationPile`, and what placing by them does
  to the order of a pile.
- `moves.dfy` (module `Moves`): the effect of the controller's push/pop loops
  on pile contents, as functions on sequences. It covers moving cards top to
  top, the draw and recycle loops, the deal layout, turning up a face-down
  card, and the two selection fields abstracted to two booleans.
- `game.dfy` (module `Klondike`): the class `Game` with the controller's
  fields and one method per controller method. Loops stay loops, and each
  method's postcondition ties the new state to the functions above.

`IsWon` is the counter check itself: no face-down tableau card remains and at
most one stock card is left to play. The methods that return the win check
promise `won == IsWon()` on their final state.

The code and its own doc comments disagree in two places. The model follows
the code and records both under "## Findings":

- The draw: the doc comment at `Game.cs:99-100` promises the next three cards,
  or the whole discard pile back. The loops move fewer.
- The selection: the doc comment at `Game.cs:123` says selecting the discard
  pile removes the selection if there already is one. `SelectDiscard` tests
  for either field being unset, so with a tableau run selected it sets the
  discard field as well.

Playing a discard card onto a tableau pile or a foundation decrements the
stock counter (`Game.cs:339` and `Game.cs:352`): the card has left the cards
still to be played from the stock. The model reproduces this decrement as the
source does.

## Model

| member | source | states |
|---|---|---|
| Cards.SuitOf | Game.cs:56 | The cast of an ordinal 0..3 to a suit gives the suit whose ordinal is that number |
| Deck.DeckIndex | Game.cs:51-59 | Every valid card sits at exactly the slot `suit * 13 + rank - 1` of the new deck |
| Deck.NewDeckIsComplete | Game.cs:51-59 | The new deck has 52 cards, no card twice, and holds exactly the valid cards |
| Deck.NewDeckHasEachCardOnce | Game.cs:51-59 | Each valid card occurs exactly once in the new deck and no other card occurs |
| Deck.DistinctOccursOnce | Game.cs:51-59 | In a deck without repeats every card's multiplicity is one if present and zero otherwise |
| Deck.Shuffled | Game.cs:65-76 | The shuffle run over n slots pushes exactly n cards |
| Deck.ShuffledIsPermutation | Game.cs:65-76 | For any oracle with `0 <= picks[i] <= i`, the pushed cards are a permutation of the slots shuffled |
| Deck.BackfillLosesPick | Game.cs:73-74 | Pushing slot j and copying the last slot into it removes exactly that card from the slots still to shuffle |
| Deck.ShuffledDeckHasEachCardOnce | Game.cs:65-76 | The shuffled stock holds every valid card exactly once and nothing else |
| Rules.CanBePlaced | Game.cs:230-251 | The tableau rule: a king on an empty pile, otherwise a card one rank below the top card and of the other colour |
| Rules.CanBePlacedOnFoundationPile | Game.cs:259-280 | The foundation rule: an ace on an empty pile, otherwise a card one rank above the top card and of its suit |
| Rules.FoundationPlacement | Game.cs:259-280 | A foundation pile stays ordered after a push exactly when the foundation rule admits the card |
| Rules.FoundationIsSuitRun | Game.cs:259-280 | A pile built by the foundation rule is ace, two, three, ... of one suit |
| Rules.FoundationAtMostSuit | Game.cs:259-280 | A foundation pile of valid cards holds at most 13 cards, and 13 exactly when its top is a king |
| Rules.TableauPlacement | Game.cs:230-251 | On a non-empty pile, a pushed card keeps the pile alternating and descending exactly when the tableau rule admits it |
| Rules.TableauRunPlacement | Game.cs:360-373 | An ordered run whose deepest card the tableau rule admits leaves the destination ordered, with a king at the bottom of an empty pile |
| Rules.TableauSplit | Game.cs:360-363 | Taking the top n cards off an ordered face-up pile leaves both parts ordered |
| Moves.ReverseAt | Game.cs:201-204 | Popping a block and pushing it elsewhere puts card k at the mirrored position |
| Moves.ReverseKeepsCards | Game.cs:201-204 | Reversing a block keeps its cards |
| Moves.ReverseReverse | Game.cs:201-204 | Reversing twice restores the block |
| Moves.PopOnto | Game.cs:199-205 | Popping k cards off one stack and pushing each onto another: the top k cards land on the destination in reverse order |
| Moves.PopOntoNone | Game.cs:199-205 | Moving no card changes neither stack |
| Moves.PopOntoOne | Game.cs:199-205 | Moving one card takes the top of the source to the top of the destination |
| Moves.PopOntoStep | Game.cs:201-204 | Each further pop moves the next card down from the source onto the top of the destination |
| Moves.PopOntoConserves | Game.cs:199-205 | Moving cards loses and creates none, and the t-th card pushed is the t-th card from the source's top |
| Moves.PopTwiceKeepsOrder | Game.cs:360-373 | Popping a run onto an empty scratch stack and then onto a third pile keeps the run's order |
| Moves.RunViaScratch | Game.cs:360-373 | Through the scratch stack, the run's deepest card is on top; the run lands on the destination in order, and popping it back restores the column |
| Moves.DrawLoopBound | Game.cs:108 | The re-read bound `min(3, count)` admits another draw exactly until `min(3, (c + 1) / 2)` cards are drawn |
| Moves.RecycleLoopBound | Game.cs:115 | The re-read bound `count` admits another recycle exactly until `(d + 1) / 2` cards went back |
| Moves.DrawAsWritten | Game.cs:104-120 | The two draw loops as written: from a non-empty stock, DrawnFromStock cards onto the discard pile; from an empty stock, RecycledFromDiscard cards back |
| Moves.DrawIntended | Game.cs:99-100 | The draw the doc comment promises keeps the number of cards, takes min(3, c) cards off a stock of c, and empties the discard pile when the stock is empty |
| Moves.DrawAsWrittenMoves | Game.cs:104-120 | The draw as written conserves the cards of both piles and moves 1 to 3 cards from a non-empty stock, leaving half of the discard pile |
| Moves.DrawShortfall | Game.cs:108-115 | The loops fall short of the doc comment exactly for stocks of 2 to 4 cards and discard piles of 2 or more |
| Moves.DrawTwoCardStock | Game.cs:106-111 | From a two-card stock the draw as written moves one card where the intended draw moves both |
| Moves.RecycleTwoCards | Game.cs:113-119 | From two discarded cards the recycle as written returns one where the intended recycle returns both |
| Moves.DrawIntendedMoves | Game.cs:99-100 | The intended draw conserves the cards, takes min(3, c) from the stock's top, or turns the whole discard pile over onto the empty stock |
| Moves.RowStartBound | Game.cs:320-326 | Row r's block of 7 - r pops ends within the top 28 stock cards, and the seven rows end exactly at 28 |
| Moves.DealSize | Game.cs:318-328 | The whole deal pops 28 cards |
| Moves.DealPosition | Game.cs:320-326 | The card row r gives column c is popped inside row r's block of pops |
| Moves.RowStartMonotone | Game.cs:320-326 | Later rows start later in the pop sequence |
| Moves.DealPositionsDistinct | Game.cs:318-328 | No two places of the deal take the same stock card |
| Moves.DealSlot | Game.cs:318-328 | Each of the top 28 stock cards goes to some place of the deal |
| Moves.DealtDown | Game.cs:323-326 | Column c receives one face-down card in each row before row c |
| Moves.UpsAfterRowsAt | Game.cs:320-322 | After r rows, column c has gained its one face-up card exactly when c < r |
| Moves.DownsAfterRowsAt | Game.cs:323-326 | After r rows, column c has gained one face-down card from each of the first min(c, r) rows, in row order |
| Moves.DownsInRowAt | Game.cs:323-326 | Part way through a row, the columns already reached have their card of that row on top |
| Moves.DealComplete | Game.cs:318-328 | After the seven rows, column c has one new face-up card and c new face-down cards, each at its place in the deal |
| Moves.DealCounts | Game.cs:40-45 | From a 52-card stock the deal leaves 24 cards in the stock and 21 face down: the counters' initial values |
| Moves.Flipped | Game.cs:304-311 | Turning a card up keeps the number of cards, never leaves a column with cards but none face up, and leaves a prefix of the face-down pile |
| Moves.FlipConserves | Game.cs:304-311 | Turning a card up loses no card, hides one card fewer exactly when it turns one up, and never leaves a column with cards but none face up |
| Moves.AfterSelectDiscard | Game.cs:126-137 | The selection fields after SelectDiscard as written: the discard field is set unless both fields were set, in which case both are cleared |
| Moves.AfterSelectDiscardIntended | Game.cs:122-137 | SelectDiscard as its doc comment describes it: select when nothing is selected, otherwise clear both fields |
| Moves.AfterSelectTableau | Game.cs:146-170 | The selection fields after SelectTableauCards: the tableau field is set when nothing was selected, otherwise both are cleared |
| Moves.IntendedSelectionIsSingle | Game.cs:126-137 | With `&&` in SelectDiscard, no sequence of actions ever sets both selection fields |
| Moves.BothSelectionsReachable | Game.cs:128 | As written, selecting a run and then the discard pile sets both fields; with `&&` it clears both |
| Klondike.Game.IsWon | Game.cs:287-298 | The counter-based win check: no face-down tableau card and at most one stock card left to play |
| Klondike.Game.GetNewDeck | Game.cs:51-59 | The fresh array holds the new deck: card i has rank i % 13 + 1 and suit i / 13 |
| Klondike.Game.ShuffleNewDeck | Game.cs:65-76 | The stack gains exactly the shuffled new deck, in push order, on top of what it held |
| Klondike.Game.constructor | Game.cs:84-96 | Nothing is selected, counters are 21 and 24, and the stock and columns hold the deal of the shuffled deck |
| Klondike.Game.DrawCardsFromStock | Game.cs:104-120 | Stock and discard pile become exactly the literal loops' result `DrawAsWritten` |
| Klondike.Game.DrawCardsFromStockIntended | Game.cs:99-100 | Stock and discard pile become exactly the intended draw `DrawIntended` |
| Klondike.Game.SelectDiscard | Game.cs:126-137 | The selection fields follow `AfterSelectDiscard`; the discard pile is marked selected unless both fields were set, in which case both controls are cleared; a different discard control selected before keeps its mark |
| Klondike.Game.SelectDiscardIntended | Game.cs:122-137 | The selection fields follow `AfterSelectDiscardIntended`: select when nothing is selected, otherwise clear; a discard control that was not the selected one keeps its mark |
| Klondike.Game.SelectTableauCards | Game.cs:146-170 | With nothing selected the column is selected with n cards; otherwise, for n <= 1, the discard card or the selected run is played onto the column by the tableau rule, then everything is deselected; columns other than the selected one keep their selection count, and when both fields were set the selected column's stacks are untouched by the discard move |
| Klondike.Game.MoveSelectionToFoundation | Game.cs:177-191 | The selected run's top card, or else the discard card, is played by the foundation rule; afterwards nothing is selected |
| Klondike.Game.TransferCards | Game.cs:199-205 | The top numCards cards move one by one from the first stack onto the second; a non-positive count moves nothing |
| Klondike.Game.RemoveSelection | Game.cs:210-222 | Both fields are cleared and the selected controls are unmarked |
| Klondike.Game.FlipTableauColumnCard | Game.cs:304-311 | The column's piles become `Flipped` of their old contents and the tableau counter drops by the cards turned up |
| Klondike.Game.DealCards | Game.cs:318-328 | The stock loses its top 28 cards; column c gets face up the card for place (c, c) and face down the cards for places (0, c) .. (c - 1, c) |
| Klondike.Game.DealRow | Game.cs:321-326 | One pass of the outer deal loop adds row i of the deal to the columns and pops its 7 - i cards |
| Klondike.Game.DealFaceDown | Game.cs:323-326 | The inner deal loop adds row i's face-down cards to the columns right of i |
| Klondike.Game.DiscardToTableau | Game.cs:334-341 | The top discard card moves onto the pile and the stock counter drops by one if the tableau rule admits it, otherwise nothing changes |
| Klondike.Game.DiscardToFoundation | Game.cs:347-354 | The top discard card moves onto the foundation and the stock counter drops by one if the foundation rule admits it, otherwise nothing changes |
| Klondike.Game.TableauToTableau | Game.cs:360-373 | If the tableau rule admits the run's deepest card, the run lands on the destination in order and the column turns up a card if it must; otherwise the column and destination are unchanged |
| Klondike.Game.TableauToFoundation | Game.cs:379-388 | With exactly one card selected and the foundation rule admitting it, the card moves, the column turns up a card if it must and the selection is cleared; otherwise nothing changes |

## Left out

- The random number generator and the seeded/unseeded choice at `Game.cs:86-93`.
  They are foreign library code; the oracle `picks` stands for the numbers drawn.
- The user-interface side of `CardPile`, `DiscardPile` and `TableauColumn`
  (drawing, highlighting, layout). Those classes are not part of this model;
  only their stacks, `isSelected` and `numberSelected` are kept.
- The controls allocated and never used at `Game.cs:179`, `Game.cs:289` and
  `Game.cs:381`: they have no effect on the rules.
- The exceptions .NET `Stack` throws on `Pop` and `Peek` of an empty stack.
  They are preconditions instead: a non-empty discard pile for the discard
  moves, `1 <= numberSelected <= |face-up pile|` for a run move, and a non-empty
  face-up pile for a foundation move. For the same reason, the methods that
  reach those moves ask for them when they would be reached.
- Aliasing between piles that the caller never creates is excluded by
  preconditions: the deck and the fourteen column stacks are distinct, a
  column's two stacks differ, and a move's destination is not its source's
  face-down pile or the discard pile. Moving a run onto its own column is
  allowed and modelled: it changes nothing.
- The suit order: the `Card` and `Suit` types are defined outside `Game.cs`.
  The suits are assumed to be declared clubs, diamonds, hearts, spades; only
  the cast `(Suit)(i / 13)` depends on it, and no rule does.
- Klondike.Game.DealCards: the outer loop body and the inner loop are stated as
  two helper methods, `DealRow` and `DealFaceDown`, each with its own frame.
  The order of pushes and pops is the source's.
- Klondike.Game.SelectTableauCards: when both selection fields are set, the
  discard pile's stack and the selected column's stacks are required to be
  distinct from one another. A caller never shares a stack between two controls.
- Deck.Shuffled: the shuffle is stated on the slot count n rather than on a
  shrinking array, so the slots from n on stay in the sequence unread.

## Findings

| source | as written | input that shows it | evidently intended | confidence | as-written member | corrected member |
|---|---|---|---|---|---|---|
| Game.cs:108,115 | Both draw loops re-read the pile count that each pass shrinks, so they move min(3, (c + 1) / 2) cards from a stock of c, and only (d + 1) / 2 of a discard pile of d back | a stock of two cards: one card is drawn and one stays; an empty stock and two discarded cards: one card goes back | The doc comment at Game.cs:99-100: the next three cards (fewer if fewer remain), or the whole discard pile back | high, not executed | Klondike.Game.DrawCardsFromStock, Moves.DrawTwoCardStock, Moves.RecycleTwoCards, Moves.DrawShortfall | Klondike.Game.DrawCardsFromStockIntended, Moves.DrawIntendedMoves |
| Game.cs:128 | `SelectDiscard` selects the discard pile when either selection field is unset, so with a tableau run selected it sets the discard field too | select a tableau run, then select the discard pile: both fields are set | Select only when nothing is selected, otherwise deselect (the doc comment at Game.cs:123), so at most one field is ever set | high, not executed | Klondike.Game.SelectDiscard, Moves.BothSelectionsReachable | Klondike.Game.SelectDiscardIntended, Moves.IntendedSelectionIsSingle |
