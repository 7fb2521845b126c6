/** The canonical 52-card deck and the pick-and-backfill shuffle that fills the stock. */
module Deck {
  import opened Cards

  /** Card i of a new deck: ranks cycle 1..13 within each suit, suits in ordinal order. */
  function DeckCard(i: int): Card
    requires 0 <= i < 52
  {
    Card(i % 13 + 1, SuitOf(i / 13))
  }

  /** The new deck, in the order the deck factory fills its array. */
  function NewDeck(): seq<Card> {
    seq(52, i requires 0 <= i < 52 => DeckCard(i))
  }

  /** No card occurs twice. */
  predicate Distinct(s: seq<Card>) {
    forall i, j :: 0 <= i < j < |s| ==> s[i] != s[j]
  }

  /** Where a valid card sits in the new deck. */
  function DeckIndex(c: Card): (i: int)
    requires IsValid(c)
    ensures 0 <= i < 52 && DeckCard(i) == c
  {
    var i := SuitIndex(c.suit) * 13 + c.rank - 1;
    assert i / 13 == SuitIndex(c.suit) && i % 13 == c.rank - 1;
    i
  }

  /** The new deck holds 52 cards, every valid card, nothing else, and no card twice. */
  lemma NewDeckIsComplete()
    ensures |NewDeck()| == 52
    ensures Distinct(NewDeck())
    ensures forall c :: c in NewDeck() <==> IsValid(c)
  {
    var d := NewDeck();
    forall i, j | 0 <= i < j < 52
      ensures d[i] != d[j]
    {
      assert d[i] == DeckCard(i) && d[j] == DeckCard(j);
    }
    forall c
      ensures c in d <==> IsValid(c)
    {
      if IsValid(c) {
        assert d[DeckIndex(c)] == c;
      }
    }
  }

  /** In a sequence without repeats, every element occurs exactly once. */
  lemma {:induction false} DistinctOccursOnce(s: seq<Card>, c: Card)
    requires Distinct(s)
    ensures multiset(s)[c] == if c in s then 1 else 0
  {
    if s != [] {
      var last := s[|s| - 1];
      var front := s[..|s| - 1];
      assert s == front + [last];
      assert Distinct(front);
      DistinctOccursOnce(front, c);
      assert last !in front by {
        forall k | 0 <= k < |front|
          ensures front[k] != last
        {
          assert s[k] != s[|s| - 1];
        }
      }
    }
  }

  /** Each card of the new deck occurs exactly once, and no other card occurs. */
  lemma NewDeckHasEachCardOnce(c: Card)
    ensures multiset(NewDeck())[c] == if IsValid(c) then 1 else 0
  {
    NewDeckIsComplete();
    DistinctOccursOnce(NewDeck(), c);
  }

  /**
   * A source of random indices: picks[i] is the number drawn when the shuffle
   * asks for a nonnegative integer no larger than i.
   */
  predicate IsOracle(picks: seq<int>) {
    forall i :: 0 <= i < |picks| ==> 0 <= picks[i] <= i
  }

  /**
   * The cards in the order the shuffle pushes them when it runs over slots
   * n - 1 down to 0 of deck: the card at a random slot j <= i is pushed and the
   * card at slot i is copied into slot j. Slots from n on are never read.
   */
  function Shuffled(deck: seq<Card>, picks: seq<int>, n: nat): (r: seq<Card>)
    requires n <= |deck| == |picks| && IsOracle(picks)
    ensures |r| == n
    decreases n, picks
  {
    if n == 0 then []
    else
      var j := picks[n - 1];
      [deck[j]] + Shuffled(deck[j := deck[n - 1]], picks, n - 1)
  }

  /** The shuffle is a permutation of the slots it runs over. */
  lemma {:induction false} ShuffledIsPermutation(deck: seq<Card>, picks: seq<int>, n: nat)
    requires n <= |deck| == |picks| && IsOracle(picks)
    ensures multiset(Shuffled(deck, picks, n)) == multiset(deck[..n])
    decreases n
  {
    if n != 0 {
      var j := picks[n - 1];
      var next := deck[j := deck[n - 1]];
      ShuffledIsPermutation(next, picks, n - 1);
      BackfillLosesPick(deck[..n], j);
      assert next[..n - 1] == deck[..n][j := deck[n - 1]][..n - 1];
    }
  }

  /** Copying the last card over slot j and dropping the last slot removes exactly the card at j. */
  lemma BackfillLosesPick(deck: seq<Card>, j: int)
    requires 0 <= j < |deck|
    ensures multiset(deck) == multiset(deck[j := deck[|deck| - 1]][..|deck| - 1]) + multiset{deck[j]}
  {
    var i := |deck| - 1;
    var rest := deck[j := deck[i]][..i];
    assert deck == deck[..i] + [deck[i]];
    if j < i {
      assert rest == deck[..i][j := deck[i]];
      assert deck[..i][j] == deck[j];
    } else {
      assert rest == deck[..i];
    }
  }

  /** The shuffled stock holds every valid card exactly once and nothing else. */
  lemma ShuffledDeckHasEachCardOnce(picks: seq<int>, c: Card)
    requires |picks| == 52 && IsOracle(picks)
    ensures multiset(Shuffled(NewDeck(), picks, 52))[c] == if IsValid(c) then 1 else 0
  {
    NewDeckIsComplete();
    ShuffledIsPermutation(NewDeck(), picks, 52);
    assert NewDeck()[..52] == NewDeck();
    NewDeckHasEachCardOnce(c);
  }
}
