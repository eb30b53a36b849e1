// Values of one betting round and the read-only sums over them:
// players, single bets, per-player positions, the pot and the per-player totals.
// Amounts are the source's float64 values taken as exact reals.
module Bets {

  datatype Player = Player(id: int, email: string)

  /** One wager. The creation timestamp of the source is not modelled. */
  datatype Bet = Bet(amount: real)

  /**
   * A player's position in a round: the bets in the order they were placed
   * and the inclusive ticket range [startTicket, endTicket]. The source's
   * percentage `Share` is not modelled.
   */
  datatype UserBet = UserBet(bets: seq<Bet>, player: Player, startTicket: int, endTicket: int)

  /** A fresh position holding one bet; its ticket range is the zero value. */
  function NewUserBet(bet: Bet, player: Player): UserBet
  {
    UserBet([bet], player, 0, 0)
  }

  /** Left-to-right sum of the amounts, in the order the source adds them. */
  function SumAmounts(bets: seq<Bet>): real
  {
    if |bets| == 0 then 0.0 else SumAmounts(bets[..|bets| - 1]) + bets[|bets| - 1].amount
  }

  /** UserBet.GetTotalBet: the sum of this position's bets. */
  function TotalBet(ub: UserBet): real
  {
    SumAmounts(ub.bets)
  }

  /** Every bet of the round, position after position. */
  function AllBets(ubs: seq<UserBet>): seq<Bet>
  {
    if |ubs| == 0 then [] else AllBets(ubs[..|ubs| - 1]) + ubs[|ubs| - 1].bets
  }

  /** Game.GetTotalPrice: the nested loop adds every bet amount of every position. */
  function TotalPrice(ubs: seq<UserBet>): real
  {
    SumAmounts(AllBets(ubs))
  }

  /** The per-position totals added up, an independent reading of the pot. */
  function SumOfTotals(ubs: seq<UserBet>): real
  {
    if |ubs| == 0 then 0.0 else SumOfTotals(ubs[..|ubs| - 1]) + TotalBet(ubs[|ubs| - 1])
  }

  /** The player ids of the positions, in position order. */
  function Ids(ubs: seq<UserBet>): seq<int>
  {
    seq(|ubs|, i requires 0 <= i < |ubs| => ubs[i].player.id)
  }

  /** No two positions belong to the same player id. */
  ghost predicate UniqueIds(ubs: seq<UserBet>)
  {
    forall i, j :: 0 <= i < j < |ubs| ==> ubs[i].player.id != ubs[j].player.id
  }

  /** Every position holds at least one bet. */
  ghost predicate HasBets(ubs: seq<UserBet>)
  {
    forall i :: 0 <= i < |ubs| ==> |ubs[i].bets| > 0
  }

  /** Ranges still at the zero value: no layout was ever written into the positions. */
  ghost predicate ZeroTickets(ubs: seq<UserBet>)
  {
    forall i :: 0 <= i < |ubs| ==> ubs[i].startTicket == 0 && ubs[i].endTicket == 0
  }

  /** Two position lists that differ at most in their ticket ranges. */
  ghost predicate SameBets(x: seq<UserBet>, y: seq<UserBet>)
  {
    |x| == |y| && forall i :: 0 <= i < |x| ==> x[i].bets == y[i].bets && x[i].player == y[i].player
  }

  /** A Go map read: a missing key reads as the zero value. */
  function Get(m: map<int, real>, k: int): real
  {
    if k in m then m[k] else 0.0
  }

  /** The inner loop of GetTotalPriceOfUsers: add each amount to m[id]. */
  function AddBets(m: map<int, real>, id: int, bets: seq<Bet>): map<int, real>
  {
    if |bets| == 0 then m
    else
      var m' := AddBets(m, id, bets[..|bets| - 1]);
      m'[id := Get(m', id) + bets[|bets| - 1].amount]
  }

  /** Game.GetTotalPriceOfUsers: the map from player id to summed bets. */
  function PricePerUser(ubs: seq<UserBet>): map<int, real>
  {
    if |ubs| == 0 then map[]
    else AddBets(PricePerUser(ubs[..|ubs| - 1]), ubs[|ubs| - 1].player.id, ubs[|ubs| - 1].bets)
  }

  /** The ids of the positions that hold at least one bet. */
  ghost function Bettors(ubs: seq<UserBet>): set<int>
  {
    set ub | ub in ubs && |ub.bets| > 0 :: ub.player.id
  }

  /** The summed totals of every position that belongs to `id`. */
  function PlayerTotal(ubs: seq<UserBet>, id: int): real
  {
    if |ubs| == 0 then 0.0
    else PlayerTotal(ubs[..|ubs| - 1], id) + (if ubs[|ubs| - 1].player.id == id then TotalBet(ubs[|ubs| - 1]) else 0.0)
  }

  /** The values of `m` read at each position's player id, added up. */
  function SumOverPlayers(m: map<int, real>, ubs: seq<UserBet>): real
  {
    if |ubs| == 0 then 0.0 else SumOverPlayers(m, ubs[..|ubs| - 1]) + Get(m, ubs[|ubs| - 1].player.id)
  }

  // ---------------------------------------------------------------------
  // Lemmas about the sums

  lemma {:induction false} SumAmountsConcat(a: seq<Bet>, b: seq<Bet>)
    ensures SumAmounts(a + b) == SumAmounts(a) + SumAmounts(b)
    decreases |b|
  {
    if |b| == 0 {
      assert a + b == a;
    } else {
      assert (a + b)[..|a + b| - 1] == a + b[..|b| - 1];
      SumAmountsConcat(a, b[..|b| - 1]);
    }
  }

  /** Adding one more bet to a position raises its total by exactly that amount. */
  lemma TotalBetAppend(ub: UserBet, b: Bet)
    ensures TotalBet(ub.(bets := ub.bets + [b])) == TotalBet(ub) + b.amount
  {
    assert (ub.bets + [b])[..|ub.bets|] == ub.bets;
  }

  /** The pot is the sum of the per-position totals. */
  lemma {:induction false} TotalPriceIsSumOfTotals(ubs: seq<UserBet>)
    ensures TotalPrice(ubs) == SumOfTotals(ubs)
    decreases |ubs|
  {
    if |ubs| > 0 {
      var init := ubs[..|ubs| - 1];
      TotalPriceIsSumOfTotals(init);
      SumAmountsConcat(AllBets(init), ubs[|ubs| - 1].bets);
    }
  }

  /** A position appended at the end adds its own total to the pot. */
  lemma TotalPriceAppend(ubs: seq<UserBet>, ub: UserBet)
    ensures TotalPrice(ubs + [ub]) == TotalPrice(ubs) + TotalBet(ub)
  {
    assert (ubs + [ub])[..|ubs|] == ubs;
    SumAmountsConcat(AllBets(ubs), ub.bets);
  }

  /** The pot depends only on the bets, not on the ticket ranges. */
  lemma {:induction false} SameBetsSameTotals(x: seq<UserBet>, y: seq<UserBet>)
    requires SameBets(x, y)
    ensures AllBets(x) == AllBets(y)
    ensures TotalPrice(x) == TotalPrice(y)
    ensures forall i :: 0 <= i < |x| ==> TotalBet(x[i]) == TotalBet(y[i])
    decreases |x|
  {
    if |x| > 0 {
      SameBetsSameTotals(x[..|x| - 1], y[..|y| - 1]);
    }
  }

  /**
   * Pointwise change of totals: if `y` differs from `x` only at position k,
   * and there by `a`, the sum of totals differs by `a`.
   */
  lemma {:induction false} SumOfTotalsChangeAt(x: seq<UserBet>, y: seq<UserBet>, k: int, a: real)
    requires |x| == |y| && 0 <= k < |x|
    requires forall i :: 0 <= i < |x| && i != k ==> TotalBet(x[i]) == TotalBet(y[i])
    requires TotalBet(y[k]) == TotalBet(x[k]) + a
    ensures SumOfTotals(y) == SumOfTotals(x) + a
    decreases |x|
  {
    var n := |x| - 1;
    if k == n {
      SumOfTotalsEqual(x[..n], y[..n]);
    } else {
      SumOfTotalsChangeAt(x[..n], y[..n], k, a);
    }
  }

  lemma {:induction false} SumOfTotalsEqual(x: seq<UserBet>, y: seq<UserBet>)
    requires |x| == |y|
    requires forall i :: 0 <= i < |x| ==> TotalBet(x[i]) == TotalBet(y[i])
    ensures SumOfTotals(y) == SumOfTotals(x)
    decreases |x|
  {
    if |x| > 0 {
      SumOfTotalsEqual(x[..|x| - 1], y[..|y| - 1]);
    }
  }

  // ---------------------------------------------------------------------
  // Lemmas about GetTotalPriceOfUsers

  /** The inner loop adds the key `id` (when there is a bet) and adds the bets' sum to its value. */
  lemma {:induction false} AddBetsSpec(m: map<int, real>, id: int, bets: seq<Bet>)
    ensures AddBets(m, id, bets).Keys == if |bets| > 0 then m.Keys + {id} else m.Keys
    ensures forall k :: Get(AddBets(m, id, bets), k) == Get(m, k) + (if k == id then SumAmounts(bets) else 0.0)
    decreases |bets|
  {
    if |bets| > 0 {
      AddBetsSpec(m, id, bets[..|bets| - 1]);
    }
  }

  /**
   * GetTotalPriceOfUsers has as keys exactly the ids of the players holding
   * a bet, and maps each id to the summed totals of that id's positions.
   */
  lemma {:induction false} PricePerUserSpec(ubs: seq<UserBet>)
    ensures PricePerUser(ubs).Keys == Bettors(ubs)
    ensures forall id :: Get(PricePerUser(ubs), id) == PlayerTotal(ubs, id)
    decreases |ubs|
  {
    if |ubs| > 0 {
      var init, last := ubs[..|ubs| - 1], ubs[|ubs| - 1];
      PricePerUserSpec(init);
      AddBetsSpec(PricePerUser(init), last.player.id, last.bets);
      assert ubs == init + [last];
      assert Bettors(ubs) == Bettors(init) + (if |last.bets| > 0 then {last.player.id} else {});
    }
  }

  /** With unique ids, a player's summed total is the total of that player's one position. */
  lemma {:induction false} PlayerTotalUnique(ubs: seq<UserBet>, k: int)
    requires UniqueIds(ubs) && 0 <= k < |ubs|
    ensures PlayerTotal(ubs, ubs[k].player.id) == TotalBet(ubs[k])
    decreases |ubs|
  {
    var n := |ubs| - 1;
    if k < n {
      PlayerTotalUnique(ubs[..n], k);
    } else {
      PlayerTotalAbsent(ubs[..n], ubs[k].player.id);
    }
  }

  lemma {:induction false} PlayerTotalAbsent(ubs: seq<UserBet>, id: int)
    requires forall i :: 0 <= i < |ubs| ==> ubs[i].player.id != id
    ensures PlayerTotal(ubs, id) == 0.0
    decreases |ubs|
  {
    if |ubs| > 0 {
      PlayerTotalAbsent(ubs[..|ubs| - 1], id);
    }
  }

  lemma {:induction false} SumOverPlayersIsSumOfTotals(m: map<int, real>, ubs: seq<UserBet>)
    requires forall i :: 0 <= i < |ubs| ==> Get(m, ubs[i].player.id) == TotalBet(ubs[i])
    ensures SumOverPlayers(m, ubs) == SumOfTotals(ubs)
    decreases |ubs|
  {
    if |ubs| > 0 {
      SumOverPlayersIsSumOfTotals(m, ubs[..|ubs| - 1]);
    }
  }

  /**
   * For a round whose ids are unique and whose positions each hold a bet,
   * the map's keys are exactly the player ids, each value is that player's
   * total, and the values (read once per player) add up to the pot.
   */
  lemma PricePerUserOfRound(ubs: seq<UserBet>)
    requires UniqueIds(ubs) && HasBets(ubs)
    ensures PricePerUser(ubs).Keys == set i | 0 <= i < |ubs| :: ubs[i].player.id
    ensures forall i :: 0 <= i < |ubs| ==> PricePerUser(ubs)[ubs[i].player.id] == TotalBet(ubs[i])
    ensures SumOverPlayers(PricePerUser(ubs), ubs) == TotalPrice(ubs)
  {
    var m := PricePerUser(ubs);
    PricePerUserSpec(ubs);
    assert Bettors(ubs) == set i | 0 <= i < |ubs| :: ubs[i].player.id by {
      forall id | id in Bettors(ubs) ensures id in set i | 0 <= i < |ubs| :: ubs[i].player.id {
        var ub :| ub in ubs && |ub.bets| > 0 && ub.player.id == id;
        var i :| 0 <= i < |ubs| && ubs[i] == ub;
      }
    }
    forall i | 0 <= i < |ubs| ensures Get(m, ubs[i].player.id) == TotalBet(ubs[i]) {
      PlayerTotalUnique(ubs, i);
    }
    SumOverPlayersIsSumOfTotals(m, ubs);
    TotalPriceIsSumOfTotals(ubs);
  }
}
