// Ticket arithmetic: the layout CalculateShares computes for the positions,
// the size of the draw space, and the scan GetWinner makes for a drawn ticket.
module Tickets {
  import opened Bets

  /** math.Round: the nearest integer, halves rounded away from zero. */
  function GoRound(x: real): (r: int)
    ensures x >= 0.0 ==> r as real - 0.5 <= x < r as real + 0.5
    ensures x < 0.0 ==> r as real - 0.5 < x <= r as real + 0.5
  {
    if x >= 0.0 then (x + 0.5).Floor else -((-x + 0.5).Floor)
  }

  /** The conversion int(x) of a float: truncation toward zero. */
  function GoTrunc(x: real): (r: int)
    ensures x >= 0.0 ==> r as real <= x < r as real + 1.0
    ensures x < 0.0 ==> r as real - 1.0 < x <= r as real
  {
    if x >= 0.0 then x.Floor else -((-x).Floor)
  }

  /** betInCents: the position's total truncated to whole units, times 100. */
  function Cents(ub: UserBet): int
  {
    GoTrunc(TotalBet(ub)) * 100
  }

  /**
   * The running startTicket after the given positions: each position takes
   * its cents plus one, since its inclusive range [s, s + cents] is followed
   * by the next start s + cents + 1.
   */
  function TicketsBefore(ubs: seq<UserBet>): int
  {
    if |ubs| == 0 then 0 else TicketsBefore(ubs[..|ubs| - 1]) + Cents(ubs[|ubs| - 1]) + 1
  }

  /** The positions with the ranges CalculateShares computes for them. */
  function Layout(ubs: seq<UserBet>): seq<UserBet>
  {
    seq(|ubs|, i requires 0 <= i < |ubs| =>
      ubs[i].(startTicket := TicketsBefore(ubs[..i]), endTicket := TicketsBefore(ubs[..i]) + Cents(ubs[i])))
  }

  /** totalTickets of GetWinner: the rounded pot times 100. */
  function TotalTickets(ubs: seq<UserBet>): int
  {
    GoRound(TotalPrice(ubs)) * 100
  }

  /** Every position's truncated total is non-negative (no range runs backwards). */
  ghost predicate NonNegativeCents(ubs: seq<UserBet>)
  {
    forall i :: 0 <= i < |ubs| ==> Cents(ubs[i]) >= 0
  }

  /** The inclusive range test of GetWinner. */
  predicate Covers(ub: UserBet, t: int)
  {
    ub.startTicket <= t <= ub.endTicket
  }

  /** A reported winner: the position's player and the pot minus that player's stake. */
  datatype Win = Win(player: Player, payout: real)

  /** The scan of GetWinner: every covering position, in order, with its payout out of `pot`. */
  function WinnersOf(ubs: seq<UserBet>, t: int, pot: real): seq<Win>
  {
    if |ubs| == 0 then []
    else
      var last := ubs[|ubs| - 1];
      WinnersOf(ubs[..|ubs| - 1], t, pot) + (if Covers(last, t) then [Win(last.player, pot - TotalBet(last))] else [])
  }

  function Winners(ubs: seq<UserBet>, t: int): seq<Win>
  {
    WinnersOf(ubs, t, TotalPrice(ubs))
  }

  // ---------------------------------------------------------------------
  // The layout

  lemma TicketsBeforeStep(ubs: seq<UserBet>, i: int)
    requires 0 <= i < |ubs|
    ensures TicketsBefore(ubs[..i + 1]) == TicketsBefore(ubs[..i]) + Cents(ubs[i]) + 1
  {
    assert ubs[..i + 1][..i] == ubs[..i];
  }

  /**
   * CalculateShares' layout: the same positions in the same order, the first
   * range starting at 0, each range spanning its cents, each next start one
   * past the previous end.
   */
  lemma LayoutShape(ubs: seq<UserBet>)
    ensures SameBets(ubs, Layout(ubs))
    ensures |ubs| > 0 ==> Layout(ubs)[0].startTicket == 0
    ensures forall i :: 0 <= i < |ubs| ==> Layout(ubs)[i].endTicket - Layout(ubs)[i].startTicket == Cents(ubs[i])
    ensures forall i :: 0 <= i < |ubs| - 1 ==> Layout(ubs)[i + 1].startTicket == Layout(ubs)[i].endTicket + 1
  {
    forall i | 0 <= i < |ubs| - 1 ensures Layout(ubs)[i + 1].startTicket == Layout(ubs)[i].endTicket + 1 {
      TicketsBeforeStep(ubs, i);
    }
  }

  lemma {:induction false} TicketsBeforeMonotone(ubs: seq<UserBet>, i: int, j: int)
    requires NonNegativeCents(ubs) && 0 <= i <= j <= |ubs|
    ensures TicketsBefore(ubs[..i]) <= TicketsBefore(ubs[..j])
    ensures i < j ==> TicketsBefore(ubs[..i]) + Cents(ubs[i]) < TicketsBefore(ubs[..j])
    decreases j - i
  {
    if i < j {
      TicketsBeforeStep(ubs, j - 1);
      if i < j - 1 {
        TicketsBeforeMonotone(ubs, i, j - 1);
      }
    }
  }

  /**
   * With non-negative cents the ranges are non-empty, disjoint and strictly
   * increasing in insertion order.
   */
  lemma LayoutOrdered(ubs: seq<UserBet>)
    requires NonNegativeCents(ubs)
    ensures forall i, j :: 0 <= i < j < |ubs| ==>
      Layout(ubs)[i].startTicket <= Layout(ubs)[i].endTicket < Layout(ubs)[j].startTicket <= Layout(ubs)[j].endTicket
  {
    var l := Layout(ubs);
    forall i, j | 0 <= i < j < |ubs|
      ensures l[i].startTicket <= l[i].endTicket < l[j].startTicket <= l[j].endTicket
    {
      TicketsBeforeMonotone(ubs, i, j);
      TicketsBeforeMonotone(ubs, j, |ubs|);
      assert Cents(ubs[i]) >= 0 && Cents(ubs[j]) >= 0;
    }
  }

  /** The layout depends only on the bets: recomputing it on its own result changes nothing. */
  lemma LayoutIdempotent(ubs: seq<UserBet>)
    ensures Layout(Layout(ubs)) == Layout(ubs)
  {
    var l := Layout(ubs);
    LayoutShape(ubs);
    forall i | 0 <= i < |ubs| ensures Layout(l)[i] == l[i] {
      TicketsBeforeSameBets(ubs, l, i);
      assert l[i].bets == ubs[i].bets;
    }
  }

  lemma {:induction false} TicketsBeforeSameBets(x: seq<UserBet>, y: seq<UserBet>, i: int)
    requires SameBets(x, y) && 0 <= i <= |x|
    ensures TicketsBefore(y[..i]) == TicketsBefore(x[..i])
    decreases i
  {
    if i > 0 {
      TicketsBeforeSameBets(x, y, i - 1);
      TicketsBeforeStep(x, i - 1);
      TicketsBeforeStep(y, i - 1);
      SameBetsSameTotals(x, y);
    }
  }

  /** The index of the range that owns ticket t: exactly one range covers it. */
  function Owner(ubs: seq<UserBet>, t: int): (k: int)
    requires NonNegativeCents(ubs) && 0 <= t < TicketsBefore(ubs)
    ensures 0 <= k < |ubs| && Covers(Layout(ubs)[k], t)
    ensures forall i :: 0 <= i < |ubs| && Covers(Layout(ubs)[i], t) ==> i == k
    decreases |ubs|
  {
    var n := |ubs| - 1;
    assert ubs[..n + 1] == ubs;
    TicketsBeforeStep(ubs, n);
    LayoutOrdered(ubs);
    if t >= TicketsBefore(ubs[..n]) then
      n
    else
      var k := Owner(ubs[..n], t);
      assert Layout(ubs)[k] == Layout(ubs[..n])[k] by {
        assert ubs[..k] == ubs[..n][..k];
      }
      k
  }

  // ---------------------------------------------------------------------
  // The scan

  /**
   * GetWinner reports exactly the covering positions: every report is a
   * covering position with the pot minus its stake, and every covering
   * position is reported.
   */
  lemma {:induction false} WinnersOfSpec(ubs: seq<UserBet>, t: int, pot: real)
    ensures forall w :: w in WinnersOf(ubs, t, pot) <==>
      exists i :: 0 <= i < |ubs| && Covers(ubs[i], t) && w == Win(ubs[i].player, pot - TotalBet(ubs[i]))
    ensures |WinnersOf(ubs, t, pot)| <= |ubs|
    decreases |ubs|
  {
    if |ubs| > 0 {
      var n := |ubs| - 1;
      WinnersOfSpec(ubs[..n], t, pot);
      forall w | w in WinnersOf(ubs, t, pot)
        ensures exists i :: 0 <= i < |ubs| && Covers(ubs[i], t) && w == Win(ubs[i].player, pot - TotalBet(ubs[i]))
      {
        if w in WinnersOf(ubs[..n], t, pot) {
          var i :| 0 <= i < n && Covers(ubs[..n][i], t) && w == Win(ubs[..n][i].player, pot - TotalBet(ubs[..n][i]));
          assert ubs[..n][i] == ubs[i];
        }
      }
      forall i | 0 <= i < |ubs| && Covers(ubs[i], t)
        ensures Win(ubs[i].player, pot - TotalBet(ubs[i])) in WinnersOf(ubs, t, pot)
      {
        if i < n {
          assert ubs[..n][i] == ubs[i];
        }
      }
    }
  }

  lemma {:induction false} NoCoverNoWinners(ubs: seq<UserBet>, t: int, pot: real)
    requires forall i :: 0 <= i < |ubs| ==> !Covers(ubs[i], t)
    ensures WinnersOf(ubs, t, pot) == []
    decreases |ubs|
  {
    if |ubs| > 0 {
      NoCoverNoWinners(ubs[..|ubs| - 1], t, pot);
    }
  }

  /** No winner at all exactly when no range covers the ticket. */
  lemma NoWinnerIffUncovered(ubs: seq<UserBet>, t: int)
    ensures Winners(ubs, t) == [] <==> forall i :: 0 <= i < |ubs| ==> !Covers(ubs[i], t)
  {
    WinnersOfSpec(ubs, t, TotalPrice(ubs));
    forall i | 0 <= i < |ubs| && Covers(ubs[i], t) ensures Winners(ubs, t) != [] {
      assert Win(ubs[i].player, TotalPrice(ubs) - TotalBet(ubs[i])) in Winners(ubs, t);
    }
    if forall i :: 0 <= i < |ubs| ==> !Covers(ubs[i], t) {
      NoCoverNoWinners(ubs, t, TotalPrice(ubs));
    }
  }

  /** When exactly one position covers the ticket, it is the one winner. */
  lemma {:induction false} SingleCoverSingleWinner(ubs: seq<UserBet>, t: int, pot: real, k: int)
    requires 0 <= k < |ubs| && Covers(ubs[k], t)
    requires forall i :: 0 <= i < |ubs| && Covers(ubs[i], t) ==> i == k
    ensures WinnersOf(ubs, t, pot) == [Win(ubs[k].player, pot - TotalBet(ubs[k]))]
    decreases |ubs|
  {
    var n := |ubs| - 1;
    if k < n {
      SingleCoverSingleWinner(ubs[..n], t, pot, k);
    } else {
      NoCoverNoWinners(ubs[..n], t, pot);
    }
  }

  // ---------------------------------------------------------------------
  // The draw as written and as intended

  /**
   * GetWinner on positions still holding the zero range [0, 0]: ticket 0
   * reports every position, any other ticket reports none.
   */
  lemma {:induction false} ZeroTicketsDraw(ubs: seq<UserBet>, t: int, pot: real)
    requires ZeroTickets(ubs)
    ensures t != 0 ==> WinnersOf(ubs, t, pot) == []
    ensures t == 0 ==> |WinnersOf(ubs, t, pot)| == |ubs|
    ensures t == 0 ==> forall i :: 0 <= i < |ubs| ==> WinnersOf(ubs, t, pot)[i] == Win(ubs[i].player, pot - TotalBet(ubs[i]))
    decreases |ubs|
  {
    if |ubs| > 0 {
      ZeroTicketsDraw(ubs[..|ubs| - 1], t, pot);
    }
  }

  /** The pot of two one-bet positions of the same amount. */
  lemma TwoSingleBetsPot(a: Player, b: Player, x: real)
    ensures TotalBet(NewUserBet(Bet(x), a)) == x && TotalBet(NewUserBet(Bet(x), b)) == x
    ensures TotalPrice([NewUserBet(Bet(x), a), NewUserBet(Bet(x), b)]) == 2.0 * x
  {
    var ua, ub := NewUserBet(Bet(x), a), NewUserBet(Bet(x), b);
    assert ua.bets == [Bet(x)] && ub.bets == [Bet(x)];
    assert [Bet(x)][..0] == [];
    assert SumAmounts([Bet(x)]) == SumAmounts([]) + x;
    var ubs := [ua, ub];
    assert ubs[..1] == [ua] && [ua][..0] == [];
    assert SumOfTotals([ua]) == x;
    assert SumOfTotals(ubs) == 2.0 * x;
    TotalPriceIsSumOfTotals(ubs);
  }

  /**
   * Two players betting 10 each, ranges left at zero as GetWinner sees them:
   * a draw space of 2000 tickets, two winners for ticket 0 and none for any other.
   */
  lemma TwoPlayersZeroRangesExample(a: Player, b: Player)
    ensures var ubs := [NewUserBet(Bet(10.0), a), NewUserBet(Bet(10.0), b)];
      TotalTickets(ubs) == 2000 && Winners(ubs, 0) == [Win(a, 10.0), Win(b, 10.0)] &&
      forall t :: t != 0 ==> Winners(ubs, t) == []
  {
    var ubs := [NewUserBet(Bet(10.0), a), NewUserBet(Bet(10.0), b)];
    TwoSingleBetsPot(a, b, 10.0);
    ZeroTicketsDraw(ubs, 0, 20.0);
    forall t | t != 0
      ensures Winners(ubs, t) == []
    {
      ZeroTicketsDraw(ubs, t, 20.0);
    }
  }

  /**
   * The intended draw: scanning the positions WITH the computed layout, a
   * ticket below the running total has exactly one winner, who receives the
   * pot minus their own stake.
   */
  function DrawAfterLayout(ubs: seq<UserBet>, t: int): (w: Win)
    requires NonNegativeCents(ubs) && 0 <= t < TicketsBefore(ubs)
    ensures Winners(Layout(ubs), t) == [w]
    ensures Covers(Layout(ubs)[Owner(ubs, t)], t)
    ensures w == Win(ubs[Owner(ubs, t)].player, TotalPrice(ubs) - TotalBet(ubs[Owner(ubs, t)]))
  {
    var k := Owner(ubs, t);
    LayoutDrawOneWinner(ubs, t, k);
    Win(ubs[k].player, TotalPrice(ubs) - TotalBet(ubs[k]))
  }

  lemma LayoutDrawOneWinner(ubs: seq<UserBet>, t: int, k: int)
    requires NonNegativeCents(ubs) && 0 <= t < TicketsBefore(ubs) && k == Owner(ubs, t)
    ensures Winners(Layout(ubs), t) == [Win(ubs[k].player, TotalPrice(ubs) - TotalBet(ubs[k]))]
  {
    var l := Layout(ubs);
    LayoutPot(ubs, t);
    assert l[k].bets == ubs[k].bets && l[k].player == ubs[k].player;
    SingleCoverSingleWinner(l, t, TotalPrice(ubs), k);
  }

  // ---------------------------------------------------------------------
  // Draw space against layout

  /** A whole, non-negative amount. */
  ghost predicate Whole(x: real)
  {
    x >= 0.0 && x == x.Floor as real
  }

  /** Every position's total is a whole, non-negative amount. */
  ghost predicate WholeAmounts(ubs: seq<UserBet>)
  {
    forall i :: 0 <= i < |ubs| ==> Whole(TotalBet(ubs[i]))
  }

  lemma {:induction false} WholeTotalsTickets(ubs: seq<UserBet>)
    requires forall i :: 0 <= i < |ubs| ==> Whole(TotalBet(ubs[i]))
    ensures Whole(SumOfTotals(ubs))
    ensures TicketsBefore(ubs) == 100 * SumOfTotals(ubs).Floor + |ubs|
    decreases |ubs|
  {
    if |ubs| > 0 {
      var n := |ubs| - 1;
      WholeTotalsTickets(ubs[..n]);
      var s', x := SumOfTotals(ubs[..n]), TotalBet(ubs[n]);
      var a, b := s'.Floor, x.Floor;
      assert s' == a as real && x == b as real;
      assert GoTrunc(x) == b;
      assert SumOfTotals(ubs) == (a + b) as real;
      assert SumOfTotals(ubs).Floor == a + b;
    }
  }

  /**
   * When every position's total is a whole non-negative amount, the draw
   * space has exactly one ticket fewer per position than the layout covers,
   * so every ticket drawable in [0, TotalTickets) has one owner.
   */
  lemma WholeAmountsCovered(ubs: seq<UserBet>)
    requires WholeAmounts(ubs)
    ensures NonNegativeCents(ubs)
    ensures TicketsBefore(ubs) == TotalTickets(ubs) + |ubs|
  {
    WholeTotalsTickets(ubs);
    TotalPriceIsSumOfTotals(ubs);
    var w := TotalPrice(ubs).Floor;
    assert TotalPrice(ubs) == w as real && w >= 0;
    assert (TotalPrice(ubs) + 0.5).Floor == w;
    forall i | 0 <= i < |ubs| ensures Cents(ubs[i]) >= 0 {
      assert GoTrunc(TotalBet(ubs[i])) >= 0;
    }
  }

  /** Scanning the laid-out positions with the pot of the original ones is the draw over the layout. */
  lemma LayoutPot(ubs: seq<UserBet>, t: int)
    ensures WinnersOf(Layout(ubs), t, TotalPrice(ubs)) == Winners(Layout(ubs), t)
  {
    LayoutShape(ubs);
    SameBetsSameTotals(ubs, Layout(ubs));
  }

  /**
   * With whole amounts, every ticket of the draw space [0, TotalTickets) is
   * owned by exactly one laid-out range, whose player is the one winner.
   */
  lemma WholeAmountsOneWinner(ubs: seq<UserBet>, t: int)
    requires WholeAmounts(ubs) && 0 <= t < TotalTickets(ubs)
    ensures NonNegativeCents(ubs) && t < TicketsBefore(ubs)
    ensures Winners(Layout(ubs), t) == [DrawAfterLayout(ubs, t)]
  {
    WholeAmountsCovered(ubs);
  }

  /**
   * Fractional amounts can leave drawable tickets that no range covers:
   * two bets of 0.6 give a draw space of 100 tickets and ranges [0, 0] and
   * [1, 1], so ticket 50 has no winner even after the layout.
   */
  lemma DeadTicketExample(a: Player, b: Player)
    ensures var ubs := [NewUserBet(Bet(0.6), a), NewUserBet(Bet(0.6), b)];
      TotalTickets(ubs) == 100 && TicketsBefore(ubs) == 2 && Winners(Layout(ubs), 50) == []
  {
    var ubs := [NewUserBet(Bet(0.6), a), NewUserBet(Bet(0.6), b)];
    TwoSingleBetsPot(a, b, 0.6);
    assert ubs[..2] == ubs;
    TicketsBeforeStep(ubs, 0);
    TicketsBeforeStep(ubs, 1);
    LayoutShape(ubs);
    NoWinnerIffUncovered(Layout(ubs), 50);
  }
}
