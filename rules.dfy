/**
 * Where a card may be placed: the tableau rule and the foundation rule, and the
 * orderings of a pile that placing cards by these rules builds.
 */
module Rules {
  import opened Cards

  /** The top card of a non-empty pile. */
  function Top(pile: seq<Card>): Card
    requires pile != []
  {
    pile[|pile| - 1]
  }

  /** Tableau rule: a king on an empty pile, otherwise one rank below the top card and of the other colour. */
  predicate CanBePlaced(card: Card, pile: seq<Card>) {
    if |pile| != 0 then
      card.rank == Top(pile).rank - 1 && card.IsRed() != Top(pile).IsRed()
    else
      card.rank == 13
  }

  /** Foundation rule: an ace on an empty pile, otherwise one rank above the top card and of its suit. */
  predicate CanBePlacedOnFoundationPile(card: Card, pile: seq<Card>) {
    if |pile| == 0 then
      card.rank == 1
    else
      card.rank == Top(pile).rank + 1 && card.suit == Top(pile).suit
  }

  /** `above` may lie on `below` in a tableau column. */
  predicate TableauStep(below: Card, above: Card) {
    above.rank == below.rank - 1 && above.IsRed() != below.IsRed()
  }

  /** A face-up tableau pile read from the bottom: each card one rank lower than, and of the other colour from, the one it lies on. */
  predicate TableauOrdered(pile: seq<Card>) {
    forall k :: 0 < k < |pile| ==> TableauStep(pile[k - 1], pile[k])
  }

  /** `above` may lie on `below` in a foundation pile. */
  predicate FoundationStep(below: Card, above: Card) {
    above.rank == below.rank + 1 && above.suit == below.suit
  }

  /** A foundation pile read from the bottom: an ace, then each card one rank higher and of the same suit. */
  predicate FoundationOrdered(pile: seq<Card>) {
    pile != [] ==>
      pile[0].rank == 1 && forall k :: 0 < k < |pile| ==> FoundationStep(pile[k - 1], pile[k])
  }

  /** Placing a card by the foundation rule is exactly what keeps a foundation pile ordered. */
  lemma FoundationPlacement(pile: seq<Card>, card: Card)
    ensures FoundationOrdered(pile + [card]) <==> FoundationOrdered(pile) && CanBePlacedOnFoundationPile(card, pile)
  {
    var p := pile + [card];
    if FoundationOrdered(p) && pile != [] {
      forall k | 0 < k < |pile|
        ensures FoundationStep(pile[k - 1], pile[k])
      {
        assert p[k - 1] == pile[k - 1] && p[k] == pile[k];
      }
      assert FoundationStep(p[|pile| - 1], p[|pile|]);
    }
  }

  /** An ordered foundation pile is ace, two, three, ... of the suit of its bottom card. */
  lemma {:induction false} FoundationIsSuitRun(pile: seq<Card>)
    requires FoundationOrdered(pile) && pile != []
    ensures forall k :: 0 <= k < |pile| ==> pile[k] == Card(k + 1, pile[0].suit)
  {
    if |pile| > 1 {
      var front := pile[..|pile| - 1];
      assert FoundationOrdered(front) by {
        forall k | 0 < k < |front|
          ensures FoundationStep(front[k - 1], front[k])
        {
          assert FoundationStep(pile[k - 1], pile[k]);
        }
      }
      FoundationIsSuitRun(front);
      assert FoundationStep(pile[|pile| - 2], pile[|pile| - 1]);
      forall k | 0 <= k < |pile|
        ensures pile[k] == Card(k + 1, pile[0].suit)
      {
        if k < |pile| - 1 {
          assert pile[k] == front[k];
        }
      }
    }
  }

  /** A foundation pile of valid cards holds at most 13 cards, and holds 13 exactly when it is a whole suit. */
  lemma FoundationAtMostSuit(pile: seq<Card>)
    requires FoundationOrdered(pile) && pile != []
    requires forall k :: 0 <= k < |pile| ==> IsValid(pile[k])
    ensures |pile| <= 13
    ensures |pile| == 13 <==> Top(pile).rank == 13
  {
    FoundationIsSuitRun(pile);
    assert IsValid(pile[|pile| - 1]);
  }

  /** On a non-empty pile, placing a card by the tableau rule is exactly what keeps the pile ordered. */
  lemma TableauPlacement(pile: seq<Card>, card: Card)
    requires pile != []
    ensures TableauOrdered(pile + [card]) <==> TableauOrdered(pile) && CanBePlaced(card, pile)
  {
    var p := pile + [card];
    if TableauOrdered(p) {
      forall k | 0 < k < |pile|
        ensures TableauStep(pile[k - 1], pile[k])
      {
        assert p[k - 1] == pile[k - 1] && p[k] == pile[k];
      }
      assert TableauStep(p[|pile| - 1], p[|pile|]);
    }
  }

  /**
   * Moving an ordered run onto a pile whose rule admits the run's bottom card
   * leaves an ordered pile, and on an empty pile that pile starts with a king.
   */
  lemma TableauRunPlacement(pile: seq<Card>, run: seq<Card>)
    requires run != [] && TableauOrdered(pile) && TableauOrdered(run)
    requires CanBePlaced(run[0], pile)
    ensures TableauOrdered(pile + run)
    ensures pile == [] ==> (pile + run)[0].rank == 13
  {
    var p := pile + run;
    forall k | 0 < k < |p|
      ensures TableauStep(p[k - 1], p[k])
    {
      if k < |pile| {
        assert p[k - 1] == pile[k - 1] && p[k] == pile[k];
      } else if k == |pile| {
        assert p[k] == run[0] && p[k - 1] == Top(pile);
      } else {
        assert p[k - 1] == run[k - 1 - |pile|] && p[k] == run[k - |pile|];
      }
    }
  }

  /** Taking the top cards of an ordered pile leaves both parts ordered. */
  lemma TableauSplit(pile: seq<Card>, n: int)
    requires TableauOrdered(pile) && 0 <= n <= |pile|
    ensures TableauOrdered(pile[..|pile| - n]) && TableauOrdered(pile[|pile| - n..])
  {
    var rest, run := pile[..|pile| - n], pile[|pile| - n..];
    forall k | 0 < k < |run|
      ensures TableauStep(run[k - 1], run[k])
    {
      assert run[k - 1] == pile[|pile| - n + k - 1] && run[k] == pile[|pile| - n + k];
    }
    forall k | 0 < k < |rest|
      ensures TableauStep(rest[k - 1], rest[k])
    {
      assert rest[k - 1] == pile[k - 1] && rest[k] == pile[k];
    }
  }
}
