/**
 * The card containers the game controller works on. Each is a user-interface
 * control reduced to the state the rules read and write: its stacks, and the
 * selection marks the controller sets on it.
 */
module Piles {
  import opened Cards

  /** A last-in-first-out stack of cards; the top of the stack is the last element of `cards`. */
  class CardStack {
    var cards: seq<Card>

    constructor ()
      ensures cards == []
    {
      cards := [];
    }

    function Count(): nat
      reads this
    {
      |cards|
    }

    /** The top card; popping or peeking an empty stack is an error, so callers must not. */
    function Peek(): Card
      reads this
      requires cards != []
    {
      cards[|cards| - 1]
    }

    method Push(c: Card)
      modifies this
      ensures cards == old(cards) + [c]
    {
      cards := cards + [c];
    }

    method Pop() returns (c: Card)
      requires cards != []
      modifies this
      ensures c == old(cards)[|old(cards)| - 1]
      ensures cards == old(cards)[..|old(cards)| - 1]
    {
      c := cards[|cards| - 1];
      cards := cards[..|cards| - 1];
    }
  }

  /** The stock control: a stack of face-down cards. */
  class CardPile {
    const pile: CardStack

    constructor ()
      ensures fresh(pile) && pile.cards == []
    {
      pile := new CardStack();
    }
  }

  /** The discard control: a stack of face-up cards and whether its top card is selected. */
  class DiscardPile {
    const pile: CardStack
    var isSelected: bool

    constructor ()
      ensures fresh(pile) && pile.cards == [] && !isSelected
    {
      pile := new CardStack();
      isSelected := false;
    }
  }

  /**
   * A tableau column: a face-down stack under a face-up stack, and how many of
   * the top face-up cards are currently selected as one run.
   */
  class TableauColumn {
    const faceUpPile: CardStack
    const faceDownPile: CardStack
    var numberSelected: int

    constructor ()
      ensures fresh(faceUpPile) && fresh(faceDownPile) && faceUpPile != faceDownPile
      ensures faceUpPile.cards == [] && faceDownPile.cards == [] && numberSelected == 0
    {
      faceUpPile := new CardStack();
      faceDownPile := new CardStack();
      numberSelected := 0;
    }
  }
}
