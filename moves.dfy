/**
 * What the controller's stack loops do to pile contents, stated on sequences:
 * moving cards top to top, the stock draw and its recycling, the deal layout,
 * turning up a face-down card, and the two selection fields.
 */
module Moves {
  import opened Cards

  function Min(a: int, b: int): int {
    if a <= b then a else b
  }

  /** The cards of s from last to first: the order in which they are popped. */
  function Reverse(s: seq<Card>): (r: seq<Card>)
    ensures |r| == |s|
  {
    if s == [] then [] else [s[|s| - 1]] + Reverse(s[..|s| - 1])
  }

  /** Reversal puts card k at the mirrored place. */
  lemma {:induction false} ReverseAt(s: seq<Card>)
    ensures forall k :: 0 <= k < |s| ==> Reverse(s)[k] == s[|s| - 1 - k]
  {
    if s != [] {
      var front := s[..|s| - 1];
      ReverseAt(front);
      var r := Reverse(s);
      assert r == [s[|s| - 1]] + Reverse(front);
      forall k | 0 < k < |s|
        ensures r[k] == s[|s| - 1 - k]
      {
        assert r[k] == Reverse(front)[k - 1] == front[|front| - 1 - (k - 1)];
      }
    }
  }

  /** Reversal keeps the cards. */
  lemma {:induction false} ReverseKeepsCards(s: seq<Card>)
    ensures multiset(Reverse(s)) == multiset(s)
  {
    if s != [] {
      var front := s[..|s| - 1];
      ReverseKeepsCards(front);
      assert s == front + [s[|s| - 1]];
    }
  }

  /** Reversal undoes itself. */
  lemma ReverseReverse(s: seq<Card>)
    ensures Reverse(Reverse(s)) == s
  {
    ReverseAt(s);
    ReverseAt(Reverse(s));
  }

  /**
   * Popping k cards off src and pushing each onto dst: the top k of src land on
   * dst in reverse order, so src's top card ends up deepest.
   */
  function PopOnto(src: seq<Card>, dst: seq<Card>, k: nat): (r: (seq<Card>, seq<Card>))
    requires k <= |src|
  {
    (src[..|src| - k], dst + Reverse(src[|src| - k..]))
  }

  /** Popping no card changes nothing. */
  lemma PopOntoNone(src: seq<Card>, dst: seq<Card>)
    ensures PopOnto(src, dst, 0) == (src, dst)
  {
    assert src[..|src|] == src && src[|src|..] == [];
    assert Reverse([]) == [];
    assert dst + [] == dst;
  }

  /** Popping one card moves the top of src onto the top of dst. */
  lemma PopOntoOne(src: seq<Card>, dst: seq<Card>)
    requires src != []
    ensures PopOnto(src, dst, 1) == (src[..|src| - 1], dst + [src[|src| - 1]])
  {
    PopOntoStep(src, dst, 0);
    PopOntoNone(src, dst);
  }

  /** One more pop: the next card down from the top of src goes onto the top of dst. */
  lemma PopOntoStep(src: seq<Card>, dst: seq<Card>, i: nat)
    requires i < |src|
    ensures PopOnto(src, dst, i + 1).0 == PopOnto(src, dst, i).0[..|src| - i - 1]
    ensures PopOnto(src, dst, i + 1).1 == PopOnto(src, dst, i).1 + [src[|src| - 1 - i]]
  {
    var t := src[|src| - i - 1..];
    ReverseAt(t);
    ReverseAt(t[1..]);
    assert t[1..] == src[|src| - i..];
    assert Reverse(t) == Reverse(t[1..]) + [t[0]];
  }

  /** Popping cards onto another pile loses and creates no card, and each card goes from top to top. */
  lemma PopOntoConserves(src: seq<Card>, dst: seq<Card>, k: nat)
    requires k <= |src|
    ensures |PopOnto(src, dst, k).0| + |PopOnto(src, dst, k).1| == |src| + |dst|
    ensures multiset(PopOnto(src, dst, k).0) + multiset(PopOnto(src, dst, k).1) == multiset(src) + multiset(dst)
    ensures forall t :: |dst| <= t < |dst| + k ==> PopOnto(src, dst, k).1[t] == src[|src| - 1 - (t - |dst|)]
  {
    var moved := src[|src| - k..];
    ReverseAt(moved);
    ReverseKeepsCards(moved);
    assert src == src[..|src| - k] + moved;
  }

  /** Popping a run onto a scratch pile and then onto a third pile keeps the run's order. */
  lemma PopTwiceKeepsOrder(src: seq<Card>, dst: seq<Card>, k: nat)
    requires k <= |src|
    ensures PopOnto(PopOnto(src, [], k).1, dst, k).1 == dst + src[|src| - k..]
  {
    var moved := src[|src| - k..];
    ReverseReverse(moved);
    assert PopOnto(src, [], k).1 == Reverse(moved);
    assert Reverse(moved)[|Reverse(moved)| - k..] == Reverse(moved);
  }

  /**
   * Moving a run of n cards through an empty scratch stack: the scratch stack
   * has the run's deepest card on top, and popping it all onto any pile puts
   * the run there in its original order, so popping it back restores the source.
   */
  lemma RunViaScratch(up: seq<Card>, dst: seq<Card>, n: nat)
    requires 1 <= n <= |up|
    ensures PopOnto(up, [], n).0 == up[..|up| - n]
    ensures |PopOnto(up, [], n).1| == n && PopOnto(up, [], n).1[n - 1] == up[|up| - n]
    ensures PopOnto(PopOnto(up, [], n).1, dst, n) == ([], dst + up[|up| - n..])
    ensures PopOnto(PopOnto(up, [], n).1, up[..|up| - n], n).1 == up
  {
    var run := up[|up| - n..];
    ReverseAt(run);
    assert PopOnto(up, [], n).1 == Reverse(run);
    PopTwiceKeepsOrder(up, dst, n);
    PopTwiceKeepsOrder(up, up[..|up| - n], n);
    assert up[..|up| - n] + run == up;
  }

  /**
   * How many cards the draw loop moves from a stock of c cards: its bound
   * re-reads the shrinking count, so it stops at min(3, (c + 1) / 2).
   */
  function DrawnFromStock(c: nat): nat {
    Min(3, (c + 1) / 2)
  }

  /** How many cards the recycle loop moves back from a discard pile of d cards: it stops halfway. */
  function RecycledFromDiscard(d: nat): nat {
    (d + 1) / 2
  }

  /** After i draws from a stock of c cards, the re-read bound min(3, c - i) admits another draw exactly until DrawnFromStock(c) are drawn. */
  lemma DrawLoopBound(c: nat, i: nat)
    requires i <= DrawnFromStock(c)
    ensures i <= c
    ensures i < Min(3, c - i) <==> i < DrawnFromStock(c)
  {
  }

  /** After i cards went back from a discard pile of d cards, the re-read bound d - i admits another exactly until RecycledFromDiscard(d) went back. */
  lemma RecycleLoopBound(d: nat, i: nat)
    requires i <= RecycledFromDiscard(d)
    ensures i <= d
    ensures i < d - i <==> i < RecycledFromDiscard(d)
  {
  }

  /** The stock and discard pile after the draw loops as written. */
  function DrawAsWritten(stock: seq<Card>, discard: seq<Card>): (seq<Card>, seq<Card>) {
    if |stock| > 0 then
      PopOnto(stock, discard, DrawnFromStock(|stock|))
    else
      var back := PopOnto(discard, stock, RecycledFromDiscard(|discard|));
      (back.1, back.0)
  }

  /** The draw the doc comment describes: up to three cards, or the whole discard pile back. */
  function DrawIntended(stock: seq<Card>, discard: seq<Card>): (r: (seq<Card>, seq<Card>))
    ensures |r.0| + |r.1| == |stock| + |discard|
    ensures |stock| > 0 ==> |r.0| == |stock| - Min(3, |stock|)
    ensures |stock| == 0 ==> r.1 == []
  {
    if |stock| > 0 then
      PopOnto(stock, discard, Min(3, |stock|))
    else
      var back := PopOnto(discard, stock, |discard|);
      (back.1, back.0)
  }

  /** The draw as written moves exactly the counts its shrinking bound allows, and conserves the cards. */
  lemma DrawAsWrittenMoves(stock: seq<Card>, discard: seq<Card>)
    ensures var r := DrawAsWritten(stock, discard);
      && multiset(r.0) + multiset(r.1) == multiset(stock) + multiset(discard)
      && (|stock| > 0 ==> |r.0| == |stock| - DrawnFromStock(|stock|) && 1 <= |stock| - |r.0| <= 3)
      && (|stock| == 0 ==> |r.1| == |discard| / 2)
  {
    if |stock| > 0 {
      var k := DrawnFromStock(|stock|);
      PopOntoConserves(stock, discard, k);
      assert 1 <= k <= 3;
    } else {
      var k := RecycledFromDiscard(|discard|);
      var back := PopOnto(discard, stock, k);
      PopOntoConserves(discard, stock, k);
      assert |discard| - k == |discard| / 2;
      assert stock == [] && multiset(back.0) + multiset(back.1) == multiset(discard);
      assert multiset(back.1) + multiset(back.0) == multiset(stock) + multiset(discard);
    }
  }

  /** The draw as written falls short of the doc comment exactly for stocks of 2, 3 or 4 cards and discard piles of 2 or more. */
  lemma DrawShortfall(c: nat, d: nat)
    ensures DrawnFromStock(c) < Min(3, c) <==> 2 <= c <= 4
    ensures RecycledFromDiscard(d) < d <==> d >= 2
  {
    if c >= 5 {
      assert DrawnFromStock(c) == 3;
    }
  }

  /** A stock of two cards: the draw as written leaves one card behind; the intended draw takes both. */
  lemma DrawTwoCardStock(a: Card, b: Card)
    ensures DrawAsWritten([a, b], []) == ([a], [b])
    ensures DrawIntended([a, b], []) == ([], [b, a])
  {
    PopTwoCards(a, b);
    assert DrawnFromStock(2) == 1;
  }

  /** An empty stock and two discarded cards: the recycle as written returns only one of them. */
  lemma RecycleTwoCards(a: Card, b: Card)
    ensures DrawAsWritten([], [a, b]) == ([b], [a])
    ensures DrawIntended([], [a, b]) == ([b, a], [])
  {
    PopTwoCards(a, b);
    assert RecycledFromDiscard(2) == 1;
  }

  /** Popping one or both of two cards onto an empty pile. */
  lemma PopTwoCards(a: Card, b: Card)
    ensures PopOnto([a, b], [], 1) == ([a], [b])
    ensures PopOnto([a, b], [], 2) == ([], [b, a])
  {
    TwoCardReversals(a, b);
    var src := [a, b];
    assert src[..1] == [a] && src[1..] == [b];
    assert src[..0] == [] && src[0..] == src;
    assert PopOnto(src, [], 1).0 == [a] && PopOnto(src, [], 1).1 == [b];
    assert PopOnto(src, [], 2).0 == [] && PopOnto(src, [], 2).1 == [b, a];
  }

  lemma TwoCardReversals(a: Card, b: Card)
    ensures Reverse([b]) == [b] && Reverse([a, b]) == [b, a]
  {
    assert [b][..0] == [];
    assert [a, b][..1] == [a] && [a][..0] == [];
  }

  /**
   * The intended draw moves min(3, |stock|) cards top to top, or turns the whole
   * discard pile over onto the empty stock, and conserves the cards.
   */
  lemma DrawIntendedMoves(stock: seq<Card>, discard: seq<Card>)
    ensures var r := DrawIntended(stock, discard);
      && multiset(r.0) + multiset(r.1) == multiset(stock) + multiset(discard)
      && (|stock| > 0 ==> r.0 == stock[..|stock| - Min(3, |stock|)] && |r.1| == |discard| + Min(3, |stock|))
      && (|stock| == 0 ==> r.1 == [] && r.0 == Reverse(discard))
  {
    if |stock| > 0 {
      PopOntoConserves(stock, discard, Min(3, |stock|));
    } else {
      var back := PopOnto(discard, stock, |discard|);
      PopOntoConserves(discard, stock, |discard|);
      assert discard[..0] == [] && discard[0..] == discard;
      assert back.0 == [] && back.1 == Reverse(discard);
      assert multiset(back.1) + multiset(back.0) == multiset(stock) + multiset(discard);
    }
  }

  /**
   * The number of cards the deal pops before row r: row r gives one face-up
   * card to column r and one face-down card to each of the 6 - r columns right of it.
   */
  function RowStart(r: nat): nat
    requires r <= 7
  {
    if r == 0 then 0 else RowStart(r - 1) + 8 - r
  }

  /** Row starts increase by the row's size and reach 28 after the last row. */
  lemma {:induction false} RowStartBound(r: nat)
    requires r <= 7
    ensures r < 7 ==> RowStart(r + 1) == RowStart(r) + 7 - r <= 28
    ensures RowStart(r) <= 28
    ensures r == 7 ==> RowStart(r) == 28
    decreases 7 - r
  {
    if r < 7 {
      RowStartBound(r + 1);
    } else {
      assert RowStart(7) == 28;
    }
  }

  /** The seven rows of the deal pop 28 cards. */
  lemma DealSize()
    ensures RowStart(7) == 28
  {
  }

  /** The pop index (0 = the top of the stock) of the card the deal gives column col in row row. */
  function DealPosition(row: nat, col: nat): (k: nat)
    requires row <= col < 7
    ensures RowStart(row) <= k < RowStart(row + 1) && k < 28
  {
    RowStartBound(row);
    RowStart(row) + col - row
  }

  /** Row starts only grow. */
  lemma {:induction false} RowStartMonotone(r1: nat, r2: nat)
    requires r1 <= r2 <= 7
    ensures RowStart(r1) <= RowStart(r2)
    decreases r2 - r1
  {
    if r1 < r2 {
      RowStartMonotone(r1, r2 - 1);
    }
  }

  /** No two places of the deal take the same stock card. */
  lemma DealPositionsDistinct(r1: nat, c1: nat, r2: nat, c2: nat)
    requires r1 <= c1 < 7 && r2 <= c2 < 7
    requires DealPosition(r1, c1) == DealPosition(r2, c2)
    ensures r1 == r2 && c1 == c2
  {
    if r1 < r2 {
      RowStartMonotone(r1 + 1, r2);
    } else if r2 < r1 {
      RowStartMonotone(r2 + 1, r1);
    }
  }

  /** The place (row, column) of the deal that takes the k-th card from the top: every one of the top 28 is dealt. */
  function DealSlot(k: nat): (rc: (nat, nat))
    requires k < 28
    ensures rc.0 <= rc.1 < 7 && DealPosition(rc.0, rc.1) == k
  {
    var r := RowOf(k, 0);
    (r, r + k - RowStart(r))
  }

  /** The row whose pops include the k-th, searching from row r on. */
  function RowOf(k: nat, r: nat): (row: nat)
    requires r < 7 && RowStart(r) <= k < 28
    ensures r <= row < 7 && RowStart(row) <= k < RowStart(row + 1)
    decreases 7 - r
  {
    RowStartBound(r);
    if k < RowStart(r + 1) then r
    else
      RowOf(k, r + 1)
  }

  /** The card the deal gives column col in row row, from the stock stock0 (its top is its last card). */
  function Dealt(stock0: seq<Card>, row: nat, col: nat): Card
    requires row <= col < 7 && |stock0| >= 28
  {
    stock0[|stock0| - 1 - DealPosition(row, col)]
  }

  /** The face-down cards the first `rows` rows of the deal give column col, bottom first. */
  function DealtDown(stock0: seq<Card>, col: nat, rows: nat): (down: seq<Card>)
    requires rows <= col < 7 && |stock0| >= 28
    ensures |down| == rows
  {
    if rows == 0 then [] else DealtDown(stock0, col, rows - 1) + [Dealt(stock0, rows - 1, col)]
  }

  /**
   * The face-up piles after the first `rows` rows of the deal, as the deal loop
   * builds them from what they held before (up0): row r puts its card on column r.
   */
  function UpsAfterRows(up0: seq<seq<Card>>, stock0: seq<Card>, rows: nat): (r: seq<seq<Card>>)
    requires |up0| == 7 && |stock0| >= 28 && rows <= 7
    ensures |r| == 7
  {
    if rows == 0 then up0
    else
      var u := UpsAfterRows(up0, stock0, rows - 1);
      u[rows - 1 := u[rows - 1] + [Dealt(stock0, rows - 1, rows - 1)]]
  }

  /** The face-down piles after the first `rows` rows of the deal, as the deal loops build them. */
  function DownsAfterRows(down0: seq<seq<Card>>, stock0: seq<Card>, rows: nat): (r: seq<seq<Card>>)
    requires |down0| == 7 && |stock0| >= 28 && rows <= 7
    ensures |r| == 7
    decreases rows, 8
  {
    if rows == 0 then down0 else DownsInRow(down0, stock0, rows - 1, 7)
  }

  /** The face-down piles part way through row i, once the columns i < c < j have had their card of that row. */
  function DownsInRow(down0: seq<seq<Card>>, stock0: seq<Card>, i: nat, j: nat): (r: seq<seq<Card>>)
    requires |down0| == 7 && |stock0| >= 28 && i < j <= 7
    ensures |r| == 7
    decreases i + 1, j
  {
    if j == i + 1 then DownsAfterRows(down0, stock0, i)
    else
      var w := DownsInRow(down0, stock0, i, j - 1);
      w[j - 1 := w[j - 1] + [Dealt(stock0, i, j - 1)]]
  }

  /** After `rows` rows, column c holds one face-up card more if it is one of the first `rows` columns. */
  lemma {:induction false} UpsAfterRowsAt(up0: seq<seq<Card>>, stock0: seq<Card>, rows: nat, c: nat)
    requires |up0| == 7 && |stock0| >= 28 && rows <= 7 && c < 7
    ensures UpsAfterRows(up0, stock0, rows)[c] == up0[c] + if c < rows then [Dealt(stock0, c, c)] else []
  {
    if rows > 0 {
      UpsAfterRowsAt(up0, stock0, rows - 1, c);
      assert up0[c] + [] == up0[c];
    }
  }

  /** After `rows` rows, column c has had one face-down card from each row before it, in row order. */
  lemma {:induction false} DownsAfterRowsAt(down0: seq<seq<Card>>, stock0: seq<Card>, rows: nat, c: nat)
    requires |down0| == 7 && |stock0| >= 28 && rows <= 7 && c < 7
    ensures DownsAfterRows(down0, stock0, rows)[c] == down0[c] + DealtDown(stock0, c, Min(c, rows))
    decreases rows, 8
  {
    if rows == 0 {
      assert down0[c] + [] == down0[c];
    } else {
      DownsInRowAt(down0, stock0, rows - 1, 7, c);
    }
  }

  /** Part way through row i, the columns i < c < j have had their card of row i on top of the rows before. */
  lemma {:induction false} DownsInRowAt(down0: seq<seq<Card>>, stock0: seq<Card>, i: nat, j: nat, c: nat)
    requires |down0| == 7 && |stock0| >= 28 && i < j <= 7 && c < 7
    ensures DownsInRow(down0, stock0, i, j)[c] == down0[c] + DealtDown(stock0, c, if i < c < j then i + 1 else Min(c, i))
    decreases i + 1, j
  {
    if j == i + 1 {
      DownsAfterRowsAt(down0, stock0, i, c);
    } else {
      DownsInRowAt(down0, stock0, i, j - 1, c);
      if c == j - 1 {
        assert DealtDown(stock0, c, i + 1) == DealtDown(stock0, c, i) + [Dealt(stock0, i, c)];
      }
    }
  }

  /** After all seven rows, column c has gained its one face-up card and its c face-down cards. */
  lemma DealComplete(up0: seq<seq<Card>>, down0: seq<seq<Card>>, stock0: seq<Card>)
    requires |up0| == 7 && |down0| == 7 && |stock0| >= 28
    ensures forall c :: 0 <= c < 7 ==>
      UpsAfterRows(up0, stock0, 7)[c] == up0[c] + [Dealt(stock0, c, c)]
      && DownsAfterRows(down0, stock0, 7)[c] == down0[c] + DealtDown(stock0, c, c)
  {
    forall c | 0 <= c < 7
      ensures UpsAfterRows(up0, stock0, 7)[c] == up0[c] + [Dealt(stock0, c, c)]
      ensures DownsAfterRows(down0, stock0, 7)[c] == down0[c] + DealtDown(stock0, c, c)
    {
      UpsAfterRowsAt(up0, stock0, 7, c);
      DownsAfterRowsAt(down0, stock0, 7, c);
    }
  }

  /** The cards a whole deal leaves in the stock: all but the top 28, in their order. */
  function Undealt(stock0: seq<Card>): seq<Card>
    requires |stock0| >= 28
  {
    stock0[..|stock0| - 28]
  }

  /** How many cards the piles hold together. */
  function TotalSize(piles: seq<seq<Card>>): nat
    decreases |piles|
  {
    if piles == [] then 0 else TotalSize(piles[..|piles| - 1]) + |piles[|piles| - 1]|
  }

  /** The face-down cards the whole deal gives the seven columns, column by column. */
  function DealtDowns(stock0: seq<Card>, cols: nat): (downs: seq<seq<Card>>)
    requires cols <= 7 && |stock0| >= 28
    ensures |downs| == cols && forall c :: 0 <= c < cols ==> downs[c] == DealtDown(stock0, c, c)
  {
    seq(cols, c requires 0 <= c < cols => DealtDown(stock0, c, c))
  }

  /**
   * From a full 52-card stock the deal leaves 24 cards in the stock and hides
   * 21 face down, the two counts the controller starts its counters at.
   */
  lemma {:induction false} DealCounts(stock0: seq<Card>, cols: nat)
    requires |stock0| == 52 && cols <= 7
    ensures |Undealt(stock0)| == 24
    ensures 2 * TotalSize(DealtDowns(stock0, cols)) == cols * (cols - 1)
    ensures cols == 7 ==> TotalSize(DealtDowns(stock0, cols)) == 21
  {
    if cols > 0 {
      DealCounts(stock0, cols - 1);
      assert DealtDowns(stock0, cols)[..cols - 1] == DealtDowns(stock0, cols - 1);
      assert cols * (cols - 1) == (cols - 1) * (cols - 2) + 2 * (cols - 1);
    }
  }

  /**
   * The column's piles after FlipTableauColumnCard: when nothing is face up and
   * something is face down, the top face-down card is turned up.
   */
  function Flipped(up: seq<Card>, down: seq<Card>): (r: (seq<Card>, seq<Card>))
    ensures |r.0| + |r.1| == |up| + |down|
    ensures r.0 == [] ==> r.1 == []
    ensures |r.1| <= |down| && r.1 == down[..|r.1|]
  {
    if up == [] && down != [] then ([down[|down| - 1]], down[..|down| - 1]) else (up, down)
  }

  /** Turning a card up loses no card, hides at most one card fewer, and never leaves a column with cards but none face up. */
  lemma FlipConserves(up: seq<Card>, down: seq<Card>)
    ensures var (u, d) := Flipped(up, down);
      && multiset(u) + multiset(d) == multiset(up) + multiset(down)
      && |down| - |d| == (if up == [] && down != [] then 1 else 0)
      && (u == [] ==> d == [])
  {
    if up == [] && down != [] {
      assert down == down[..|down| - 1] + [down[|down| - 1]];
    }
  }

  /** Which of the controller's two selection fields are set. */
  datatype Slots = Slots(discard: bool, tableau: bool)

  /** SelectDiscard as written: it tests `either field unset` where it means `no selection`. */
  function AfterSelectDiscard(s: Slots): Slots {
    if !s.discard || !s.tableau then Slots(true, s.tableau) else Slots(false, false)
  }

  /** SelectDiscard as its doc comment describes it: select when nothing is selected, otherwise deselect. */
  function AfterSelectDiscardIntended(s: Slots): Slots {
    if !s.discard && !s.tableau then Slots(true, false) else Slots(false, false)
  }

  /** SelectTableauCards: select when nothing is selected, otherwise attempt a move and deselect. */
  function AfterSelectTableau(s: Slots): Slots {
    if !s.discard && !s.tableau then Slots(false, true) else Slots(false, false)
  }

  /** The player actions that change the selection fields. */
  datatype Action = SelectDiscardAction | SelectTableauAction | MoveToFoundationAction

  /** The selection fields after a sequence of actions, with SelectDiscard as written or as intended. */
  function Run(s: Slots, actions: seq<Action>, intended: bool): Slots
    decreases |actions|
  {
    if actions == [] then s
    else
      var next := match actions[0]
        case SelectDiscardAction => if intended then AfterSelectDiscardIntended(s) else AfterSelectDiscard(s)
        case SelectTableauAction => AfterSelectTableau(s)
        case MoveToFoundationAction => Slots(false, false);
      Run(next, actions[1..], intended)
  }

  /** With SelectDiscard as intended, at most one selection field is ever set. */
  lemma {:induction false} IntendedSelectionIsSingle(s: Slots, actions: seq<Action>)
    requires !(s.discard && s.tableau)
    ensures var r := Run(s, actions, true); !(r.discard && r.tableau)
    decreases |actions|
  {
    if actions != [] {
      var next := match actions[0]
        case SelectDiscardAction => AfterSelectDiscardIntended(s)
        case SelectTableauAction => AfterSelectTableau(s)
        case MoveToFoundationAction => Slots(false, false);
      IntendedSelectionIsSingle(next, actions[1..]);
    }
  }

  /** As written, selecting a tableau run and then the discard pile leaves both fields set. */
  lemma BothSelectionsReachable()
    ensures Run(Slots(false, false), [SelectTableauAction, SelectDiscardAction], false) == Slots(true, true)
    ensures Run(Slots(false, false), [SelectTableauAction, SelectDiscardAction], true) == Slots(false, false)
  {
    assert [SelectTableauAction, SelectDiscardAction][1..] == [SelectDiscardAction];
    assert [SelectDiscardAction][1..] == [];
  }
}
