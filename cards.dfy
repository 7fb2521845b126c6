/** Playing cards: the immutable values the rules engine moves between piles. */
module Cards {

  /** The four suits, listed in the order of their ordinal values 0..3. */
  datatype Suit = Clubs | Diamonds | Hearts | Spades

  /** The ordinal value of a suit. */
  function SuitIndex(s: Suit): (k: int)
    ensures 0 <= k < 4
  {
    match s
    case Clubs => 0
    case Diamonds => 1
    case Hearts => 2
    case Spades => 3
  }

  /** The suit whose ordinal value is k, as the cast `(Suit)k` gives it. */
  function SuitOf(k: int): (s: Suit)
    requires 0 <= k < 4
    ensures SuitIndex(s) == k
  {
    if k == 0 then Clubs else if k == 1 then Diamonds else if k == 2 then Hearts else Spades
  }

  /** A card: rank 1 (ace) to 13 (king) and a suit. */
  datatype Card = Card(rank: int, suit: Suit) {
    /** Diamonds and hearts are red, clubs and spades black. */
    predicate IsRed() {
      suit == Diamonds || suit == Hearts
    }
  }

  /** A card that exists in a standard deck. */
  predicate IsValid(c: Card) {
    1 <= c.rank <= 13
  }
}
