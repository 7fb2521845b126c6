/**
 * The game controller: it shuffles and deals, draws from the stock, keeps the
 * current selection in two fields, validates and executes moves, counts the
 * face-down cards and reports whether the game is won.
 */
module Klondike {
  import opened Cards
  import opened Piles
  import opened Deck
  import opened Rules
  import opened Moves

  /** The face-up stacks of the first seven columns. */
  function FaceUpStacks(columns: array<TableauColumn>): (ups: seq<CardStack>)
    reads columns
    requires columns.Length >= 7
    ensures |ups| == 7 && forall c :: 0 <= c < 7 ==> ups[c] == columns[c].faceUpPile
  {
    seq(7, c requires 0 <= c < 7 reads columns => columns[c].faceUpPile)
  }

  /** The face-down stacks of the first seven columns. */
  function FaceDownStacks(columns: array<TableauColumn>): (downs: seq<CardStack>)
    reads columns
    requires columns.Length >= 7
    ensures |downs| == 7 && forall c :: 0 <= c < 7 ==> downs[c] == columns[c].faceDownPile
  {
    seq(7, c requires 0 <= c < 7 reads columns => columns[c].faceDownPile)
  }

  /** The deck, seven face-up stacks and seven face-down stacks are fifteen distinct stacks. */
  predicate Separate(deck: CardStack, ups: seq<CardStack>, downs: seq<CardStack>) {
    && |ups| == 7 && |downs| == 7
    && (forall c :: 0 <= c < 7 ==> ups[c] != deck && downs[c] != deck)
    && (forall c1, c2 :: 0 <= c1 < 7 && 0 <= c2 < 7 ==> ups[c1] != downs[c2])
    && (forall c1, c2 :: 0 <= c1 < 7 && 0 <= c2 < 7 && c1 != c2 ==> ups[c1] != ups[c2] && downs[c1] != downs[c2])
  }

  /** The deck and the stacks of the first seven columns are fifteen distinct stacks. */
  predicate DealSeparate(deck: CardStack, columns: array<TableauColumn>)
    reads columns
  {
    columns.Length >= 7 && Separate(deck, FaceUpStacks(columns), FaceDownStacks(columns))
  }

  /** What the stacks hold. */
  function Contents(stacks: seq<CardStack>): (r: seq<seq<Card>>)
    reads stacks
    ensures |r| == |stacks| && forall k :: 0 <= k < |stacks| ==> r[k] == stacks[k].cards
  {
    seq(|stacks|, k requires 0 <= k < |stacks| reads stacks => stacks[k].cards)
  }

  /** The stacks of the first seven columns. */
  function ColumnStacks(columns: array<TableauColumn>): set<object>
    reads columns
    requires columns.Length >= 7
  {
    (set c | 0 <= c < 7 :: columns[c].faceUpPile) + (set c | 0 <= c < 7 :: columns[c].faceDownPile)
  }

  /**
   * The deal from a stock that held stock0: the top 28 cards are gone from the stock,
   * column c got one face-up card and c face-down cards, each at its place in the deal.
   */
  twostate predicate DealtFrom(stock0: seq<Card>, deck: CardStack, columns: array<TableauColumn>)
    requires |stock0| >= 28 && columns.Length >= 7
    reads deck, columns, ColumnStacks(columns)
  {
    && deck.cards == Undealt(stock0)
    && (forall c :: 0 <= c < 7 ==>
          columns[c].faceUpPile.cards == old(columns[c].faceUpPile.cards) + [Dealt(stock0, c, c)])
    && (forall c :: 0 <= c < 7 ==>
          columns[c].faceDownPile.cards == old(columns[c].faceDownPile.cards) + DealtDown(stock0, c, c))
  }

  class Game {
    /** The discard pile while its top card is selected, otherwise null. */
    var discardPile: DiscardPile?
    /** The tableau column while some of its face-up cards are selected, otherwise null. */
    var tableauColumn: TableauColumn?
    /** The number of face-down cards in the tableau. */
    var numFaceDownTableauCards: int
    /** The number of cards not yet played out of the stock and discard pile. */
    var numFaceDownStockCards: int

    /** Which of the two selection fields are set. */
    function Selection(): Slots
      reads this
    {
      Slots(discardPile != null, tableauColumn != null)
    }

    /** The selected controls and their stacks. */
    function SelectionFootprint(): set<object>
      reads this
    {
      (if discardPile != null then {discardPile, discardPile.pile} else {})
      + (if tableauColumn != null then {tableauColumn, tableauColumn.faceUpPile, tableauColumn.faceDownPile} else {})
    }

    /** The counter-based win check: no face-down tableau card and at most one card left to play from the stock. */
    predicate IsWon()
      reads this
    {
      numFaceDownTableauCards == 0 && numFaceDownStockCards <= 1
    }

    /**
     * The top card of the discard pile went onto dst and the stock counter
     * dropped by one, or, when not `legal`, nothing changed.
     */
    twostate predicate DiscardPlayed(src: CardStack, dst: CardStack, legal: bool)
      reads this`numFaceDownTableauCards, this`numFaceDownStockCards, src, dst
    {
      var d := old(src.cards);
      && d != []
      && numFaceDownTableauCards == old(numFaceDownTableauCards)
      && if legal then
           && src.cards == d[..|d| - 1]
           && dst.cards == old(dst.cards) + [d[|d| - 1]]
           && numFaceDownStockCards == old(numFaceDownStockCards) - 1
         else
           && src.cards == d
           && dst.cards == old(dst.cards)
           && numFaceDownStockCards == old(numFaceDownStockCards)
    }

    /**
     * The column's piles went from (up, down) to what turning up a card gives,
     * and the tableau counter dropped by the number of cards turned up.
     */
    twostate predicate TurnedUp(col: TableauColumn, up: seq<Card>, down: seq<Card>)
      reads this`numFaceDownTableauCards, col.faceUpPile, col.faceDownPile
    {
      && (col.faceUpPile.cards, col.faceDownPile.cards) == Flipped(up, down)
      && numFaceDownTableauCards == old(numFaceDownTableauCards) - (|down| - |col.faceDownPile.cards|)
    }

    /**
     * The run of the top n face-up cards of col was offered to dst: if the
     * tableau rule admits its deepest card it moved onto dst in its order and
     * the column turned up a card if it had to; otherwise nothing changed.
     * Offering a column's run to the column itself changes nothing.
     */
    twostate predicate RunPlayed(col: TableauColumn, dst: CardStack, n: int)
      reads this`numFaceDownTableauCards, this`numFaceDownStockCards, col.faceUpPile, col.faceDownPile, dst
    {
      var up := old(col.faceUpPile.cards);
      var down := old(col.faceDownPile.cards);
      && 1 <= n <= |up|
      && numFaceDownStockCards == old(numFaceDownStockCards)
      && if dst != col.faceUpPile && CanBePlaced(up[|up| - n], old(dst.cards)) then
           && dst.cards == old(dst.cards) + up[|up| - n..]
           && TurnedUp(col, up[..|up| - n], down)
         else
           && col.faceUpPile.cards == up
           && col.faceDownPile.cards == down
           && dst.cards == old(dst.cards)
           && numFaceDownTableauCards == old(numFaceDownTableauCards)
    }

    /**
     * The top face-up card of col was offered to a foundation pile: with one
     * card selected and the foundation rule admitting it, it moved and the
     * column turned up a card if it had to; otherwise nothing changed.
     */
    twostate predicate TopPlayedToFoundation(col: TableauColumn, dst: CardStack, n: int)
      reads this`numFaceDownTableauCards, this`numFaceDownStockCards, col.faceUpPile, col.faceDownPile, dst
    {
      var up := old(col.faceUpPile.cards);
      var down := old(col.faceDownPile.cards);
      && up != []
      && numFaceDownStockCards == old(numFaceDownStockCards)
      && if CanBePlacedOnFoundationPile(up[|up| - 1], old(dst.cards)) && n == 1 then
           && dst.cards == old(dst.cards) + [up[|up| - 1]]
           && TurnedUp(col, up[..|up| - 1], down)
         else
           && col.faceUpPile.cards == up
           && col.faceDownPile.cards == down
           && dst.cards == old(dst.cards)
           && numFaceDownTableauCards == old(numFaceDownTableauCards)
    }

    /** A fresh array holding the new deck. */
    method GetNewDeck() returns (cards: array<Card>)
      ensures fresh(cards) && cards[..] == NewDeck()
    {
      cards := new Card[52];
      var i := 0;
      while i < cards.Length
        invariant 0 <= i <= cards.Length == 52
        invariant forall k :: 0 <= k < i ==> cards[k] == DeckCard(k)
      {
        cards[i] := Card(i % 13 + 1, SuitOf(i / 13));
        i := i + 1;
      }
    }

    /**
     * Shuffles a new deck onto the given stack: from the last slot i down to 0,
     * the card in a random slot j <= i is pushed and the card in slot i copied
     * into slot j. picks[i] is the random number drawn for slot i.
     */
    method ShuffleNewDeck(shuffled: CardStack, picks: seq<int>)
      requires |picks| == 52 && IsOracle(picks)
      modifies shuffled
      ensures shuffled.cards == old(shuffled.cards) + Shuffled(NewDeck(), picks, 52)
    {
      var deck := GetNewDeck();
      var i := deck.Length - 1;
      ghost var goal := old(shuffled.cards) + Shuffled(deck[..], picks, 52);
      while i >= 0
        invariant -1 <= i < 52 == deck.Length
        invariant shuffled.cards + Shuffled(deck[..], picks, i + 1) == goal
      {
        var j := picks[i];
        ghost var before := deck[..];
        shuffled.Push(deck[j]);
        deck[j] := deck[i];
        assert deck[..] == before[j := before[i]];
        i := i - 1;
      }
    }

    /**
     * Starts a game: shuffles a new deck onto the stock and deals from it.
     * picks replaces the random number generator (seeded or not).
     */
    constructor (stock: CardPile, tableau: array<TableauColumn>, picks: seq<int>)
      requires |picks| == 52 && IsOracle(picks)
      requires DealSeparate(stock.pile, tableau)
      modifies stock.pile, ColumnStacks(tableau)
      ensures discardPile == null && tableauColumn == null
      ensures numFaceDownTableauCards == 21 && numFaceDownStockCards == 24
      ensures DealtFrom(old(stock.pile.cards) + Shuffled(NewDeck(), picks, 52), stock.pile, tableau)
    {
      discardPile := null;
      tableauColumn := null;
      numFaceDownTableauCards := 21;
      numFaceDownStockCards := 24;
      new;
      ShuffleNewDeck(stock.pile, picks);
      DealCards(stock.pile, tableau);
    }

    /**
     * Draws from the stock onto the discard pile, or turns the discard pile back
     * onto an empty stock. Both loops re-read the shrinking count in their bound.
     */
    method DrawCardsFromStock(stock: CardPile, discard: DiscardPile)
      requires stock.pile != discard.pile
      modifies stock.pile, discard.pile
      ensures (stock.pile.cards, discard.pile.cards) == DrawAsWritten(old(stock.pile.cards), old(discard.pile.cards))
    {
      ghost var stock0, discard0 := stock.pile.cards, discard.pile.cards;
      PopOntoNone(stock0, discard0);
      PopOntoNone(discard0, stock0);
      if stock.pile.Count() > 0 {
        var i := 0;
        while i < Min(3, stock.pile.Count())
          invariant 0 <= i <= DrawnFromStock(|stock0|)
          invariant stock.pile.cards == PopOnto(stock0, discard0, i).0 && discard.pile.cards == PopOnto(stock0, discard0, i).1
          decreases 3 - i
        {
          DrawLoopBound(|stock0|, i);
          PopOntoStep(stock0, discard0, i);
          var c := stock.pile.Pop();
          discard.pile.Push(c);
          i := i + 1;
        }
        DrawLoopBound(|stock0|, i);
      } else {
        var i := 0;
        while i < discard.pile.Count()
          invariant 0 <= i <= RecycledFromDiscard(|discard0|)
          invariant discard.pile.cards == PopOnto(discard0, stock0, i).0 && stock.pile.cards == PopOnto(discard0, stock0, i).1
          decreases |discard0| - i
        {
          RecycleLoopBound(|discard0|, i);
          PopOntoStep(discard0, stock0, i);
          var c := discard.pile.Pop();
          stock.pile.Push(c);
          i := i + 1;
        }
        RecycleLoopBound(|discard0|, i);
      }
    }

    /** The draw as its doc comment describes it: the loop bound is fixed before the loop. */
    method DrawCardsFromStockIntended(stock: CardPile, discard: DiscardPile)
      requires stock.pile != discard.pile
      modifies stock.pile, discard.pile
      ensures (stock.pile.cards, discard.pile.cards) == DrawIntended(old(stock.pile.cards), old(discard.pile.cards))
    {
      if stock.pile.Count() > 0 {
        TransferCards(stock.pile, discard.pile, Min(3, stock.pile.Count()));
      } else {
        TransferCards(discard.pile, stock.pile, discard.pile.Count());
      }
    }

    /** Selects the discard pile, or deselects when both selection fields are set (it tests `||`). */
    method SelectDiscard(discard: DiscardPile)
      modifies this`discardPile, this`tableauColumn, discard, discardPile, tableauColumn
      ensures Selection() == AfterSelectDiscard(old(Selection()))
      ensures old(discardPile == null || tableauColumn == null) ==>
        && discardPile == discard && discard.isSelected
        && tableauColumn == old(tableauColumn)
        && (tableauColumn != null ==> tableauColumn.numberSelected == old(tableauColumn.numberSelected))
        && (old(discardPile) != null && old(discardPile) != discard ==>
              old(discardPile).isSelected == old(discardPile.isSelected))
      ensures old(discardPile != null && tableauColumn != null) ==>
        && !old(discardPile).isSelected && old(tableauColumn).numberSelected == 0
        && (discard != old(discardPile) ==> discard.isSelected == old(discard.isSelected))
    {
      if discardPile == null || tableauColumn == null {
        discardPile := discard;
        discardPile.isSelected := true;
      } else {
        RemoveSelection();
      }
    }

    /** SelectDiscard as its doc comment describes it: select when nothing is selected, otherwise deselect. */
    method SelectDiscardIntended(discard: DiscardPile)
      modifies this`discardPile, this`tableauColumn, discard, discardPile, tableauColumn
      ensures Selection() == AfterSelectDiscardIntended(old(Selection()))
      ensures old(discardPile == null && tableauColumn == null) ==> discardPile == discard && discard.isSelected
      ensures old(discardPile != null) ==> !old(discardPile).isSelected
      ensures old(tableauColumn != null) ==> old(tableauColumn).numberSelected == 0
      ensures !old(discardPile == null && tableauColumn == null) && discard != old(discardPile) ==>
        discard.isSelected == old(discard.isSelected)
    {
      if discardPile == null && tableauColumn == null {
        discardPile := discard;
        discardPile.isSelected := true;
      } else {
        RemoveSelection();
      }
    }

    /**
     * Selects the top n face-up cards of col when nothing is selected;
     * otherwise, for n <= 1, tries to move the selection onto col, and then
     * deselects. Returns the win check.
     */
    method SelectTableauCards(col: TableauColumn, n: int) returns (won: bool)
      requires col.faceUpPile != col.faceDownPile
      requires discardPile != null ==> discardPile.pile != col.faceUpPile && (n <= 1 ==> discardPile.pile.cards != [])
      requires discardPile == null && tableauColumn != null ==>
        && tableauColumn.faceUpPile != tableauColumn.faceDownPile
        && col.faceUpPile != tableauColumn.faceDownPile
        && (n <= 1 ==> 1 <= tableauColumn.numberSelected <= |tableauColumn.faceUpPile.cards|)
      requires discardPile != null && tableauColumn != null ==>
        && discardPile.pile != tableauColumn.faceUpPile && discardPile.pile != tableauColumn.faceDownPile
        && col.faceUpPile != tableauColumn.faceDownPile
      modifies this, col, col.faceUpPile, SelectionFootprint()
      ensures won == IsWon()
      ensures Selection() == AfterSelectTableau(old(Selection()))
      ensures old(discardPile != null || tableauColumn != null) && col != old(tableauColumn) ==>
        col.numberSelected == old(col.numberSelected)
      ensures old(discardPile != null && tableauColumn != null) ==>
        && old(tableauColumn).faceDownPile.cards == old(tableauColumn.faceDownPile.cards)
        && (old(tableauColumn).faceUpPile != col.faceUpPile ==>
              old(tableauColumn).faceUpPile.cards == old(tableauColumn.faceUpPile.cards))
      ensures old(discardPile == null && tableauColumn == null) ==>
        && tableauColumn == col && col.numberSelected == n
        && col.faceUpPile.cards == old(col.faceUpPile.cards)
        && numFaceDownTableauCards == old(numFaceDownTableauCards)
        && numFaceDownStockCards == old(numFaceDownStockCards)
      ensures old(discardPile) != null ==>
        && !old(discardPile).isSelected
        && (old(tableauColumn) != null ==> old(tableauColumn).numberSelected == 0)
        && if n <= 1 then
             DiscardPlayed(old(discardPile).pile, col.faceUpPile,
                           CanBePlaced(Top(old(discardPile.pile.cards)), old(col.faceUpPile.cards)))
           else
             && col.faceUpPile.cards == old(col.faceUpPile.cards)
             && old(discardPile).pile.cards == old(discardPile.pile.cards)
             && numFaceDownTableauCards == old(numFaceDownTableauCards)
             && numFaceDownStockCards == old(numFaceDownStockCards)
      ensures old(discardPile) == null && old(tableauColumn) != null ==>
        && old(tableauColumn).numberSelected == 0
        && if n <= 1 then
             RunPlayed(old(tableauColumn), col.faceUpPile, old(tableauColumn.numberSelected))
           else
             && col.faceUpPile.cards == old(col.faceUpPile.cards)
             && old(tableauColumn).faceUpPile.cards == old(tableauColumn.faceUpPile.cards)
             && old(tableauColumn).faceDownPile.cards == old(tableauColumn.faceDownPile.cards)
             && numFaceDownTableauCards == old(numFaceDownTableauCards)
             && numFaceDownStockCards == old(numFaceDownStockCards)
    {
      if discardPile == null && tableauColumn == null {
        tableauColumn := col;
        tableauColumn.numberSelected := n;
      } else if discardPile != null {
        if n <= 1 {
          DiscardToTableau(col.faceUpPile);
        }
        RemoveSelection();
      } else if tableauColumn != null {
        if n <= 1 {
          TableauToTableau(col.faceUpPile);
        }
        RemoveSelection();
      }
      won := IsWon();
    }

    /**
     * Moves the selection to the given foundation pile if the rules allow it,
     * and deselects. Returns the win check.
     */
    method MoveSelectionToFoundation(dest: CardStack) returns (won: bool)
      requires tableauColumn != null ==>
        && tableauColumn.faceUpPile != tableauColumn.faceDownPile
        && dest != tableauColumn.faceUpPile && dest != tableauColumn.faceDownPile
        && tableauColumn.faceUpPile.cards != []
      requires discardPile != null ==> dest != discardPile.pile
      requires discardPile != null && tableauColumn != null ==>
        discardPile.pile != tableauColumn.faceUpPile && discardPile.pile != tableauColumn.faceDownPile
      requires tableauColumn == null && discardPile != null ==> discardPile.pile.cards != []
      modifies this, dest, SelectionFootprint()
      ensures won == IsWon()
      ensures discardPile == null && tableauColumn == null
      ensures old(discardPile) != null ==> !old(discardPile).isSelected
      ensures old(tableauColumn) != null ==>
        && old(tableauColumn).numberSelected == 0
        && TopPlayedToFoundation(old(tableauColumn), dest, old(tableauColumn.numberSelected))
        && (old(discardPile) != null ==> old(discardPile).pile.cards == old(discardPile.pile.cards))
      ensures old(tableauColumn) == null && old(discardPile) != null ==>
        DiscardPlayed(old(discardPile).pile, dest, CanBePlacedOnFoundationPile(Top(old(discardPile.pile.cards)), old(dest.cards)))
      ensures old(tableauColumn) == null && old(discardPile) == null ==>
        && dest.cards == old(dest.cards)
        && numFaceDownTableauCards == old(numFaceDownTableauCards)
        && numFaceDownStockCards == old(numFaceDownStockCards)
    {
      if tableauColumn != null {
        TableauToFoundation(dest);
        RemoveSelection();
      }
      if discardPile != null {
        DiscardToFoundation(dest);
        RemoveSelection();
      }
      won := IsWon();
    }

    /** Pops numCards cards off one stack and pushes each onto another. */
    method TransferCards(originalStack: CardStack, newStack: CardStack, numCards: int)
      requires originalStack != newStack
      requires numCards <= |originalStack.cards|
      modifies originalStack, newStack
      ensures var moved := PopOnto(old(originalStack.cards), old(newStack.cards), if numCards < 0 then 0 else numCards);
        originalStack.cards == moved.0 && newStack.cards == moved.1
    {
      ghost var src0, dst0 := originalStack.cards, newStack.cards;
      PopOntoNone(src0, dst0);
      var i := 0;
      while i < numCards
        invariant 0 <= i <= (if numCards < 0 then 0 else numCards)
        invariant (originalStack.cards, newStack.cards) == PopOnto(src0, dst0, i)
      {
        PopOntoStep(src0, dst0, i);
        var c := originalStack.Pop();
        newStack.Push(c);
        i := i + 1;
      }
    }

    /** Clears both selection fields and the selection marks of the selected controls. */
    method RemoveSelection()
      modifies this`discardPile, this`tableauColumn, discardPile, tableauColumn
      ensures discardPile == null && tableauColumn == null
      ensures old(discardPile) != null ==> !old(discardPile).isSelected
      ensures old(tableauColumn) != null ==> old(tableauColumn).numberSelected == 0
    {
      if discardPile != null {
        discardPile.isSelected := false;
        discardPile := null;
      }
      if tableauColumn != null {
        tableauColumn.numberSelected := 0;
        tableauColumn := null;
      }
    }

    /** Turns up the top face-down card of a column whose face-up pile is empty. */
    method FlipTableauColumnCard(column: TableauColumn)
      requires column.faceUpPile != column.faceDownPile
      modifies this`numFaceDownTableauCards, column.faceUpPile, column.faceDownPile
      ensures TurnedUp(column, old(column.faceUpPile.cards), old(column.faceDownPile.cards))
    {
      ghost var down := column.faceDownPile.cards;
      if column.faceUpPile.Count() == 0 && column.faceDownPile.Count() != 0 {
        var c := column.faceDownPile.Pop();
        column.faceUpPile.Push(c);
        numFaceDownTableauCards := numFaceDownTableauCards - 1;
        assert column.faceUpPile.cards == [down[|down| - 1]];
      }
    }

    /**
     * Deals from the top of the deck: in row i, one card face up onto column i,
     * then one card face down onto each column right of it.
     */
    method DealCards(deck: CardStack, columns: array<TableauColumn>)
      requires DealSeparate(deck, columns)
      requires |deck.cards| >= 28
      modifies deck, FaceUpStacks(columns), FaceDownStacks(columns)
      ensures DealtFrom(old(deck.cards), deck, columns)
    {
      ghost var stock0 := deck.cards;
      ghost var up0, down0 := Contents(FaceUpStacks(columns)), Contents(FaceDownStacks(columns));
      var i := 0;
      while i < 7
        invariant 0 <= i <= 7 && RowStart(i) <= 28
        invariant deck.cards == stock0[..|stock0| - RowStart(i)]
        invariant forall c :: 0 <= c < 7 ==>
          columns[c].faceUpPile.cards == UpsAfterRows(up0, stock0, i)[c]
          && columns[c].faceDownPile.cards == DownsAfterRows(down0, stock0, i)[c]
      {
        RowStartBound(i);
        DealRow(deck, columns, i, stock0, up0, down0);
        i := i + 1;
      }
      DealSize();
      DealComplete(up0, down0, stock0);
    }

    /**
     * Row i of the deal (the body of the outer loop of the deal): the ghost stock0 is
     * the deck before the deal and up0, down0 what the column stacks held then.
     */
    method DealRow(deck: CardStack, columns: array<TableauColumn>, i: nat,
                   ghost stock0: seq<Card>, ghost up0: seq<seq<Card>>, ghost down0: seq<seq<Card>>)
      requires DealSeparate(deck, columns)
      requires i < 7 && |stock0| >= 28 && |up0| == 7 && |down0| == 7 && RowStart(i) + 7 - i <= 28
      requires deck.cards == stock0[..|stock0| - RowStart(i)]
      requires forall c :: 0 <= c < 7 ==>
        columns[c].faceUpPile.cards == UpsAfterRows(up0, stock0, i)[c]
        && columns[c].faceDownPile.cards == DownsAfterRows(down0, stock0, i)[c]
      modifies deck, FaceUpStacks(columns), FaceDownStacks(columns)
      ensures deck.cards == stock0[..|stock0| - RowStart(i + 1)]
      ensures forall c :: 0 <= c < 7 ==>
        columns[c].faceUpPile.cards == UpsAfterRows(up0, stock0, i + 1)[c]
        && columns[c].faceDownPile.cards == DownsAfterRows(down0, stock0, i + 1)[c]
    {
      ghost var ups := FaceUpStacks(columns);
      PopOntoOne(deck.cards, ups[i].cards);
      TransferCards(deck, columns[i].faceUpPile, 1);
      assert ups[i].cards == UpsAfterRows(up0, stock0, i + 1)[i];
      DealFaceDown(deck, columns, i, stock0, down0);
    }

    /**
     * The inner loop of row i of the deal: one card face down onto each column
     * right of column i. The ghost mirror follows what the face-down stacks hold.
     */
    method DealFaceDown(deck: CardStack, columns: array<TableauColumn>, i: nat,
                        ghost stock0: seq<Card>, ghost down0: seq<seq<Card>>)
      requires DealSeparate(deck, columns)
      requires i < 7 && |stock0| >= 28 && |down0| == 7 && RowStart(i) + 7 - i <= 28
      requires deck.cards == stock0[..|stock0| - RowStart(i) - 1]
      requires forall c :: 0 <= c < 7 ==> columns[c].faceDownPile.cards == DownsAfterRows(down0, stock0, i)[c]
      modifies deck, FaceDownStacks(columns)
      ensures deck.cards == stock0[..|stock0| - RowStart(i + 1)]
      ensures forall c :: 0 <= c < 7 ==> columns[c].faceDownPile.cards == DownsAfterRows(down0, stock0, i + 1)[c]
    {
      ghost var downs := FaceDownStacks(columns);
      ghost var mirror := DownsAfterRows(down0, stock0, i);
      var j := i + 1;
      while j < 7
        invariant i + 1 <= j <= 7 && |mirror| == 7
        invariant deck.cards == stock0[..|stock0| - RowStart(i) - (j - i)]
        invariant forall c :: 0 <= c < 7 ==> downs[c].cards == mirror[c]
        invariant mirror == DownsInRow(down0, stock0, i, j)
      {
        PopOntoOne(deck.cards, downs[j].cards);
        mirror := mirror[j := mirror[j] + [Dealt(stock0, i, j)]];
        TransferCards(deck, columns[j].faceDownPile, 1);
        j := j + 1;
      }
    }

    /** Moves the top discard card onto a tableau pile if the tableau rule admits it. */
    method DiscardToTableau(pile: CardStack)
      requires discardPile != null && discardPile.pile != pile
      requires discardPile.pile.cards != []
      modifies this`numFaceDownStockCards, discardPile.pile, pile
      ensures DiscardPlayed(discardPile.pile, pile, CanBePlaced(Top(old(discardPile.pile.cards)), old(pile.cards)))
    {
      if CanBePlaced(discardPile.pile.Peek(), pile.cards) {
        TransferCards(discardPile.pile, pile, 1);
        numFaceDownStockCards := numFaceDownStockCards - 1;
      }
    }

    /** Moves the top discard card onto a foundation pile if the foundation rule admits it. */
    method DiscardToFoundation(foundationPile: CardStack)
      requires discardPile != null && discardPile.pile != foundationPile
      requires discardPile.pile.cards != []
      modifies this`numFaceDownStockCards, discardPile.pile, foundationPile
      ensures DiscardPlayed(discardPile.pile, foundationPile,
                            CanBePlacedOnFoundationPile(Top(old(discardPile.pile.cards)), old(foundationPile.cards)))
    {
      if CanBePlacedOnFoundationPile(discardPile.pile.Peek(), foundationPile.cards) {
        TransferCards(discardPile.pile, foundationPile, 1);
        numFaceDownStockCards := numFaceDownStockCards - 1;
      }
    }

    /**
     * Moves the selected run of the selected column onto another tableau pile,
     * by way of a scratch stack, if the tableau rule admits its deepest card.
     */
    method TableauToTableau(newTableau: CardStack)
      requires tableauColumn != null
      requires tableauColumn.faceUpPile != tableauColumn.faceDownPile
      requires newTableau != tableauColumn.faceDownPile
      requires 1 <= tableauColumn.numberSelected <= |tableauColumn.faceUpPile.cards|
      modifies this`numFaceDownTableauCards, tableauColumn.faceUpPile, tableauColumn.faceDownPile, newTableau
      ensures RunPlayed(tableauColumn, newTableau, tableauColumn.numberSelected)
    {
      ghost var up, down := tableauColumn.faceUpPile.cards, tableauColumn.faceDownPile.cards;
      ghost var dst, n := newTableau.cards, tableauColumn.numberSelected;
      ghost var self := newTableau == tableauColumn.faceUpPile;
      RunViaScratch(up, dst, n);
      var temp := new CardStack();
      TransferCards(tableauColumn.faceUpPile, temp, tableauColumn.numberSelected);
      assert newTableau.cards == if self then up[..|up| - n] else dst;
      if CanBePlaced(temp.Peek(), newTableau.cards) {
        TransferCards(temp, newTableau, tableauColumn.numberSelected);
        assert self ==> tableauColumn.faceUpPile.cards == up;
        assert !self ==> newTableau.cards == dst + up[|up| - n..];
        FlipTableauColumnCard(tableauColumn);
      } else {
        TransferCards(temp, tableauColumn.faceUpPile, tableauColumn.numberSelected);
        assert tableauColumn.faceUpPile.cards == up;
      }
    }

    /**
     * Moves the top face-up card of the selected column onto a foundation pile
     * if exactly one card is selected and the foundation rule admits it.
     */
    method TableauToFoundation(foundation: CardStack)
      requires tableauColumn != null
      requires tableauColumn.faceUpPile != tableauColumn.faceDownPile
      requires foundation != tableauColumn.faceUpPile && foundation != tableauColumn.faceDownPile
      requires tableauColumn.faceUpPile.cards != []
      modifies this`numFaceDownTableauCards, this`discardPile, this`tableauColumn, discardPile, tableauColumn
      modifies tableauColumn.faceUpPile, tableauColumn.faceDownPile, foundation
      ensures TopPlayedToFoundation(old(tableauColumn), foundation, old(tableauColumn.numberSelected))
      ensures if CanBePlacedOnFoundationPile(Top(old(tableauColumn.faceUpPile.cards)), old(foundation.cards))
                 && old(tableauColumn.numberSelected) == 1 then
                && discardPile == null && tableauColumn == null
                && old(tableauColumn).numberSelected == 0
                && (old(discardPile) != null ==> !old(discardPile).isSelected)
              else
                && discardPile == old(discardPile) && tableauColumn == old(tableauColumn)
                && tableauColumn.numberSelected == old(tableauColumn.numberSelected)
                && (discardPile != null ==> discardPile.isSelected == old(discardPile.isSelected))
    {
      if CanBePlacedOnFoundationPile(tableauColumn.faceUpPile.Peek(), foundation.cards) && tableauColumn.numberSelected == 1 {
        TransferCards(tableauColumn.faceUpPile, foundation, 1);
        FlipTableauColumnCard(tableauColumn);
        RemoveSelection();
      }
    }
  }
}
