// Bet placement: the change Game.PlaceBet makes to the list of positions,
// the quorum test that follows it, and what repeated placement does.
module Placement {
  import opened Bets

  /**
   * The positions after one PlaceBet: when some position belongs to the
   * player's id the bet is appended to every such position, otherwise one new
   * position holding the bet is appended at the end.
   */
  function WithBet(ubs: seq<UserBet>, player: Player, bet: Bet): seq<UserBet>
  {
    if player.id in Ids(ubs) then
      seq(|ubs|, i requires 0 <= i < |ubs| =>
        if ubs[i].player.id == player.id then ubs[i].(bets := ubs[i].bets + [bet]) else ubs[i])
    else
      ubs + [NewUserBet(bet, player)]
  }

  /** The start test after a bet: no start time yet and at least two positions. */
  predicate Quorum(startTimeSet: bool, ubs: seq<UserBet>)
  {
    !startTimeSet && |ubs| >= 2
  }

  /**
   * A known player: the list keeps its length, the player's position gets the
   * bet at the end of its bets, and every other position is unchanged.
   */
  lemma WithBetKnownPlayer(ubs: seq<UserBet>, player: Player, bet: Bet, k: int)
    requires UniqueIds(ubs) && 0 <= k < |ubs| && ubs[k].player.id == player.id
    ensures var r := WithBet(ubs, player, bet);
      |r| == |ubs| && r[k] == ubs[k].(bets := ubs[k].bets + [bet]) &&
      forall i :: 0 <= i < |ubs| && i != k ==> r[i] == ubs[i]
  {
    assert Ids(ubs)[k] == player.id;
  }

  /**
   * A new player: one position with the single bet is appended and all
   * earlier positions keep their order and contents.
   */
  lemma WithBetNewPlayer(ubs: seq<UserBet>, player: Player, bet: Bet)
    requires forall i :: 0 <= i < |ubs| ==> ubs[i].player.id != player.id
    ensures var r := WithBet(ubs, player, bet);
      |r| == |ubs| + 1 && r[..|ubs|] == ubs &&
      r[|ubs|] == UserBet([bet], player, 0, 0)
  {
    assert player.id !in Ids(ubs);
  }

  /** Placement keeps the ids unique, every position non-empty and every range untouched. */
  lemma WithBetKeepsRound(ubs: seq<UserBet>, player: Player, bet: Bet)
    requires UniqueIds(ubs) && HasBets(ubs)
    ensures UniqueIds(WithBet(ubs, player, bet)) && HasBets(WithBet(ubs, player, bet))
    ensures ZeroTickets(ubs) ==> ZeroTickets(WithBet(ubs, player, bet))
    ensures Ids(WithBet(ubs, player, bet)) == if player.id in Ids(ubs) then Ids(ubs) else Ids(ubs) + [player.id]
  {
    var r := WithBet(ubs, player, bet);
    if player.id !in Ids(ubs) {
      assert forall i :: 0 <= i < |ubs| ==> r[i] == ubs[i];
      assert forall i :: 0 <= i < |ubs| ==> ubs[i].player.id == Ids(ubs)[i];
    }
  }

  /** On a round with unique ids, the pot grows by exactly the bet's amount. */
  lemma WithBetTotal(ubs: seq<UserBet>, player: Player, bet: Bet)
    requires UniqueIds(ubs)
    ensures TotalPrice(WithBet(ubs, player, bet)) == TotalPrice(ubs) + bet.amount
  {
    var r := WithBet(ubs, player, bet);
    if player.id in Ids(ubs) {
      var k :| 0 <= k < |ubs| && Ids(ubs)[k] == player.id;
      WithBetKnownPlayer(ubs, player, bet, k);
      TotalBetAppend(ubs[k], bet);
      SumOfTotalsChangeAt(ubs, r, k, bet.amount);
      TotalPriceIsSumOfTotals(ubs);
      TotalPriceIsSumOfTotals(r);
    } else {
      TotalPriceAppend(ubs, NewUserBet(bet, player));
    }
  }

  /** The same player placing the given bets one after another. */
  function PlaceAll(ubs: seq<UserBet>, player: Player, bets: seq<Bet>): seq<UserBet>
  {
    if |bets| == 0 then ubs
    else WithBet(PlaceAll(ubs, player, bets[..|bets| - 1]), player, bets[|bets| - 1])
  }

  /**
   * A single repeat bettor on a fresh round: one position holding exactly
   * the placed bets in order, a pot equal to their sum, and never a quorum.
   */
  lemma {:induction false} RepeatBettorNoQuorum(player: Player, bets: seq<Bet>, startTimeSet: bool)
    requires |bets| > 0
    ensures var r := PlaceAll([], player, bets);
      |r| == 1 && r[0].player == player && r[0].bets == bets &&
      TotalPrice(r) == SumAmounts(bets) && !Quorum(startTimeSet, r)
    decreases |bets|
  {
    var n := |bets| - 1;
    var prev := PlaceAll([], player, bets[..n]);
    var r := WithBet(prev, player, bets[n]);
    assert PlaceAll([], player, bets) == r;
    if n == 0 {
      assert prev == [];
      assert r == [NewUserBet(bets[0], player)];
      TotalPriceAppend([], NewUserBet(bets[0], player));
      assert bets == [bets[0]];
    } else {
      RepeatBettorNoQuorum(player, bets[..n], startTimeSet);
      WithBetKnownPlayer(prev, player, bets[n], 0);
      WithBetTotal(prev, player, bets[n]);
      assert r[0].bets == bets[..n] + [bets[n]];
      assert bets[..n] + [bets[n]] == bets;
      assert SumAmounts(bets) == SumAmounts(bets[..n]) + bets[n].amount;
    }
  }

  /** A second distinct player always brings the quorum on a round that has not started. */
  lemma SecondPlayerQuorum(ubs: seq<UserBet>, player: Player, bet: Bet)
    requires |ubs| == 1 && ubs[0].player.id != player.id
    ensures Quorum(false, WithBet(ubs, player, bet))
  {
    WithBetNewPlayer(ubs, player, bet);
  }
}
