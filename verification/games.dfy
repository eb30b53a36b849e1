// The mutable round (Game) and the manager that replaces, starts, ends and
// archives it. Locks, the event channel, timers, clocks and randomness are
// not part of the model: start and end times are "is set" flags, the game id
// and the drawn ticket are parameters.
module Games {
  import opened Bets
  import opened Placement
  import opened Tickets

  /** The configured round length a new game records (seconds). */
  const GameDuration := 60

  // The lifecycle states, in their forward order.
  const Idle := 0
  const InProgress := 1
  const Ended := 2
  const WinnerPicked := 3

  /** A copy of a Game's fields, as the manager's archive keeps it. */
  datatype GameValue = GameValue(id: int, duration: int, startTimeSet: bool, endTimeSet: bool,
                                 userBets: seq<UserBet>, state: int)

  /**
   * The result of GetWinner: rand.Intn panics on an empty draw space;
   * otherwise the list of reported winners, possibly empty.
   */
  datatype Draw = EmptyTicketSpace | Drawn(winners: seq<Win>)

  class Game {
    var id: int
    var duration: int
    var startTimeSet: bool
    var endTimeSet: bool
    var userBets: seq<UserBet>
    var state: int

    /**
     * One position per player id, each holding a bet, and no ticket range
     * ever written into a position (CalculateShares works on copies).
     */
    ghost predicate Valid()
      reads this
    {
      UniqueIds(userBets) && HasBets(userBets) && ZeroTickets(userBets)
    }

    function Snapshot(): GameValue
      reads this
    {
      GameValue(id, duration, startTimeSet, endTimeSet, userBets, state)
    }

    /** The game NewGame builds; the manager's zero-value game uses duration 0 and id 0. */
    constructor (gameId: int, gameDuration: int)
      ensures Valid()
      ensures Snapshot() == GameValue(gameId, gameDuration, false, false, [], Idle)
    {
      id, duration := gameId, gameDuration;
      startTimeSet, endTimeSet := false, false;
      userBets := [];
      state := Idle;
    }

    /** Unguarded assignment of any state value. */
    method SetState(s: int)
      modifies this
      ensures state == s
      ensures id == old(id) && duration == old(duration) && userBets == old(userBets)
      ensures startTimeSet == old(startTimeSet) && endTimeSet == old(endTimeSet)
    {
      state := s;
    }

    /**
     * Adds the bet to the player's position or opens a new one, and reports
     * whether the start of the game is to be triggered. Amounts of any sign
     * are accepted.
     */
    method PlaceBet(player: Player, amount: real) returns (startTriggered: bool)
      requires Valid()
      modifies this
      ensures Valid()
      ensures userBets == WithBet(old(userBets), player, Bet(amount))
      ensures id == old(id) && duration == old(duration) && state == old(state)
      ensures startTimeSet == old(startTimeSet) && endTimeSet == old(endTimeSet)
      ensures TotalPrice(userBets) == old(TotalPrice(userBets)) + amount
      ensures startTriggered <==> Quorum(startTimeSet, userBets)
    {
      var bet := Bet(amount);
      var ubs := userBets;
      var found := false;
      var i := 0;
      while i < |ubs|
        invariant 0 <= i <= |ubs| == |userBets|
        invariant found <==> exists k :: 0 <= k < i && userBets[k].player.id == player.id
        invariant forall k :: 0 <= k < i ==> ubs[k] == Extended(userBets[k], player.id, bet)
        invariant forall k :: i <= k < |ubs| ==> ubs[k] == userBets[k]
      {
        if ubs[i].player.id == player.id {
          ubs := ubs[i := ubs[i].(bets := ubs[i].bets + [bet])];
          found := true;
        }
        i := i + 1;
      }
      SearchResult(userBets, ubs, player, bet, found);
      if !found {
        ubs := ubs + [NewUserBet(bet, player)];
      }
      WithBetKeepsRound(userBets, player, bet);
      WithBetTotal(userBets, player, bet);
      userBets := ubs;
      startTriggered := Quorum(startTimeSet, userBets);
    }

    /** One step of the search loop of PlaceBet: a matching position gets the bet. */
    static function Extended(ub: UserBet, id: int, bet: Bet): UserBet
    {
      if ub.player.id == id then ub.(bets := ub.bets + [bet]) else ub
    }

    /** After the search loop: the positions with the bet added, or an append still to come. */
    static lemma SearchResult(before: seq<UserBet>, after: seq<UserBet>, player: Player, bet: Bet, found: bool)
      requires |after| == |before|
      requires forall k :: 0 <= k < |before| ==> after[k] == Extended(before[k], player.id, bet)
      requires found <==> exists k :: 0 <= k < |before| && before[k].player.id == player.id
      ensures found ==> after == WithBet(before, player, bet)
      ensures !found ==> after + [NewUserBet(bet, player)] == WithBet(before, player, bet)
    {
      if found {
        var k :| 0 <= k < |before| && before[k].player.id == player.id;
        assert Ids(before)[k] == player.id;
      } else {
        assert player.id !in Ids(before);
        assert after == before;
      }
    }

    /** GetTotalPrice: the nested loop over positions and their bets. */
    method GetTotalPrice() returns (total: real)
      ensures total == TotalPrice(userBets)
      ensures total == SumOfTotals(userBets)
    {
      total := 0.0;
      var i := 0;
      while i < |userBets|
        invariant 0 <= i <= |userBets|
        invariant total == TotalPrice(userBets[..i])
      {
        var bets := userBets[i].bets;
        var j := 0;
        while j < |bets|
          invariant 0 <= j <= |bets|
          invariant total == TotalPrice(userBets[..i]) + SumAmounts(bets[..j])
        {
          assert bets[..j + 1][..j] == bets[..j];
          total := total + bets[j].amount;
          j := j + 1;
        }
        assert bets[..j] == bets;
        TotalPriceAppend(userBets[..i], userBets[i]);
        assert userBets[..i] + [userBets[i]] == userBets[..i + 1];
        i := i + 1;
      }
      assert userBets[..i] == userBets;
      TotalPriceIsSumOfTotals(userBets);
    }

    /**
     * GetTotalPriceOfUsers: one key per player id holding that player's
     * summed bets; on a valid game the values read once per player add up
     * to the pot.
     */
    method GetTotalPriceOfUsers() returns (pricePerUser: map<int, real>)
      ensures pricePerUser == PricePerUser(userBets)
      ensures pricePerUser.Keys == Bettors(userBets)
      ensures forall id :: Get(pricePerUser, id) == PlayerTotal(userBets, id)
      ensures Valid() ==> SumOverPlayers(pricePerUser, userBets) == TotalPrice(userBets)
    {
      pricePerUser := map[];
      var i := 0;
      while i < |userBets|
        invariant 0 <= i <= |userBets|
        invariant pricePerUser == PricePerUser(userBets[..i])
      {
        var id, bets := userBets[i].player.id, userBets[i].bets;
        ghost var start := pricePerUser;
        var j := 0;
        while j < |bets|
          invariant 0 <= j <= |bets|
          invariant pricePerUser == AddBets(start, id, bets[..j])
        {
          assert bets[..j + 1][..j] == bets[..j];
          pricePerUser := pricePerUser[id := Get(pricePerUser, id) + bets[j].amount];
          j := j + 1;
        }
        assert bets[..j] == bets;
        assert userBets[..i + 1][..i] == userBets[..i];
        i := i + 1;
      }
      assert userBets[..i] == userBets;
      PricePerUserSpec(userBets);
      if Valid() {
        PricePerUserOfRound(userBets);
      }
    }

    /**
     * CalculateShares: lays the ticket ranges out on per-iteration copies
     * of the positions and returns those copies; the game's own positions
     * are left as they were (the method may modify nothing).
     */
    method CalculateShares() returns (shares: seq<UserBet>)
      ensures shares == Layout(userBets)
      ensures |shares| > 0 ==> shares[0].startTicket == 0
    {
      var startTicket := 0;
      shares := [];
      var i := 0;
      while i < |userBets|
        invariant 0 <= i <= |userBets| && |shares| == i
        invariant startTicket == TicketsBefore(userBets[..i])
        invariant forall k :: 0 <= k < i ==> shares[k] == Layout(userBets)[k]
      {
        var ub := userBets[i];
        var betInCents := GoTrunc(TotalBet(ub)) * 100;
        ub := ub.(startTicket := startTicket, endTicket := startTicket + betInCents);
        shares := shares + [ub];
        TicketsBeforeStep(userBets, i);
        startTicket := startTicket + betInCents + 1;
        i := i + 1;
      }
      LayoutShape(userBets);
    }

    /**
     * GetWinner with the drawn ticket `t` in place of the random draw: after
     * recomputing the shares it scans the positions and reports every one
     * whose inclusive range holds `t`, with the pot minus that player's
     * stake, and moves to WinnerPicked when it reports any.
     */
    method GetWinner(t: int) returns (outcome: Draw)
      requires TotalTickets(userBets) > 0 ==> 0 <= t < TotalTickets(userBets)
      modifies this
      ensures outcome == if TotalTickets(userBets) <= 0 then EmptyTicketSpace else Drawn(Winners(userBets, t))
      ensures id == old(id) && duration == old(duration) && userBets == old(userBets)
      ensures startTimeSet == old(startTimeSet) && endTimeSet == old(endTimeSet)
      ensures state == if outcome.Drawn? && outcome.winners != [] then WinnerPicked else old(state)
      ensures Valid() && outcome.Drawn? ==> (outcome.winners != [] <==> t == 0)
      ensures Valid() && outcome.Drawn? && t == 0 ==> |outcome.winners| == |userBets|
    {
      var shares := CalculateShares();
      var totalTickets := TotalTickets(userBets);
      if totalTickets <= 0 {
        outcome := EmptyTicketSpace;
        return;
      }
      var total := GetTotalPrice();
      var wins := Scan(userBets, t, total);
      // The source sets WinnerPicked at each match; setting it once after the scan leaves the same state.
      if wins != [] {
        SetState(WinnerPicked);
      }
      outcome := Drawn(wins);
      if Valid() {
        ZeroTicketsDraw(userBets, t, total);
      }
    }

    /** The loop of GetWinner: every position whose inclusive range holds `t`, with the pot minus its stake. */
    static method Scan(positions: seq<UserBet>, t: int, total: real) returns (wins: seq<Win>)
      ensures wins == WinnersOf(positions, t, total)
    {
      wins := [];
      var i := 0;
      while i < |positions|
        invariant 0 <= i <= |positions|
        invariant wins == WinnersOf(positions[..i], t, total)
      {
        var ub := positions[i];
        assert positions[..i + 1][..i] == positions[..i];
        if ub.startTicket <= t && ub.endTicket >= t {
          wins := wins + [Win(ub.player, total - TotalBet(ub))];
        }
        i := i + 1;
      }
      assert positions[..i] == positions;
    }

    /**
     * The draw GetWinner evidently intends: the same scan run over the
     * shares CalculateShares computes rather than over the stored positions.
     * Every drawable ticket then has exactly one winner when every position's
     * total is a whole amount.
     */
    method GetWinnerFromShares(t: int) returns (outcome: Draw)
      requires TotalTickets(userBets) > 0 ==> 0 <= t < TotalTickets(userBets)
      modifies this
      ensures outcome == if TotalTickets(userBets) <= 0 then EmptyTicketSpace else Drawn(Winners(Layout(userBets), t))
      ensures id == old(id) && duration == old(duration) && userBets == old(userBets)
      ensures startTimeSet == old(startTimeSet) && endTimeSet == old(endTimeSet)
      ensures state == if outcome.Drawn? && outcome.winners != [] then WinnerPicked else old(state)
      ensures outcome.Drawn? && WholeAmounts(userBets) ==>
        NonNegativeCents(userBets) && t < TicketsBefore(userBets) && outcome.winners == [DrawAfterLayout(userBets, t)]
    {
      var shares := CalculateShares();
      var totalTickets := TotalTickets(userBets);
      if totalTickets <= 0 {
        outcome := EmptyTicketSpace;
        return;
      }
      var total := GetTotalPrice();
      LayoutPot(userBets, t);
      var wins := Scan(shares, t, total);
      if WholeAmounts(userBets) {
        WholeAmountsOneWinner(userBets, t);
      }
      if wins != [] {
        SetState(WinnerPicked);
      }
      outcome := Drawn(wins);
    }
  }

  class GameManager {
    var currentGame: Game
    var pastGames: map<int, GameValue>

    ghost predicate Valid()
      reads this, currentGame
    {
      currentGame.Valid()
    }

    /** NewGameManager: an empty archive and the zero-value game. */
    constructor ()
      ensures Valid() && fresh(currentGame) && pastGames == map[]
      ensures currentGame.Snapshot() == GameValue(0, 0, false, false, [], Idle)
    {
      currentGame := new Game(0, 0);
      pastGames := map[];
    }

    /** NewGame: replaces the current game with a fresh idle one; the archive is untouched. */
    method NewGame(gameId: int)
      modifies this
      ensures Valid() && fresh(currentGame) && pastGames == old(pastGames)
      ensures currentGame.Snapshot() == GameValue(gameId, GameDuration, false, false, [], Idle)
    {
      currentGame := new Game(gameId, GameDuration);
    }

    /** StartGame: records the start and moves to InProgress, whatever the state was. */
    method StartGame()
      requires Valid()
      modifies currentGame
      ensures Valid() && currentGame.startTimeSet && currentGame.state == InProgress
      ensures currentGame.id == old(currentGame.id) && currentGame.duration == old(currentGame.duration)
      ensures currentGame.endTimeSet == old(currentGame.endTimeSet) && currentGame.userBets == old(currentGame.userBets)
    {
      currentGame.startTimeSet := true;
      currentGame.SetState(InProgress);
    }

    /**
     * EndGame: records the end, archives a copy of the game under its id
     * (taken before the state changes), moves to Ended and draws the winner.
     */
    method EndGame(t: int) returns (outcome: Draw)
      requires Valid()
      requires TotalTickets(currentGame.userBets) > 0 ==> 0 <= t < TotalTickets(currentGame.userBets)
      modifies this, currentGame
      ensures Valid() && currentGame == old(currentGame)
      ensures pastGames == old(pastGames)[old(currentGame.id) := GameValue(old(currentGame.id), old(currentGame.duration),
        old(currentGame.startTimeSet), true, old(currentGame.userBets), old(currentGame.state))]
      ensures outcome == if TotalTickets(currentGame.userBets) <= 0 then EmptyTicketSpace else Drawn(Winners(currentGame.userBets, t))
      ensures currentGame.id == old(currentGame.id) && currentGame.duration == old(currentGame.duration)
      ensures currentGame.startTimeSet == old(currentGame.startTimeSet) && currentGame.endTimeSet
      ensures currentGame.userBets == old(currentGame.userBets)
      ensures currentGame.state == if outcome.Drawn? && outcome.winners != [] then WinnerPicked else Ended
    {
      currentGame.endTimeSet := true;
      pastGames := pastGames[currentGame.id := currentGame.Snapshot()];
      currentGame.SetState(Ended);
      outcome := currentGame.GetWinner(t);
    }
  }

  /**
   * Players A and B each bet 10 on a new game: the second bet triggers the
   * start, the draw space is 2000 tickets, the archived copy still says
   * InProgress, and since no range was ever written into the game, ticket 0
   * pays both players 10 while any other ticket pays no one.
   */
  method TwoPlayerRound(a: Player, b: Player, t: int) returns (triggered: bool, outcome: Draw, archived: GameValue)
    requires a.id != b.id && 0 <= t < 2000
    ensures triggered
    ensures archived.state == InProgress && archived.endTimeSet && |archived.userBets| == 2
    ensures t == 0 ==> outcome == Drawn([Win(a, 10.0), Win(b, 10.0)])
    ensures t != 0 ==> outcome == Drawn([])
  {
    ghost var one := [NewUserBet(Bet(10.0), a)];
    ghost var ubs := [NewUserBet(Bet(10.0), a), NewUserBet(Bet(10.0), b)];
    assert WithBet([], a, Bet(10.0)) == one;
    WithBetNewPlayer(one, b, Bet(10.0));
    assert WithBet(one, b, Bet(10.0)) == ubs;
    TwoPlayersZeroRangesExample(a, b);
    var gm := new GameManager();
    gm.NewGame(1);
    var first := gm.currentGame.PlaceBet(a, 10.0);
    triggered := gm.currentGame.PlaceBet(b, 10.0);
    gm.StartGame();
    outcome := gm.EndGame(t);
    archived := gm.pastGames[1];
  }

  /** Three bets of the same player on a fresh round: one position throughout, and the pot is three times the bet. */
  lemma ThreeBetsOnePosition(p: Player, b: Bet)
    ensures var r1 := WithBet([], p, b); var r2 := WithBet(r1, p, b); var r3 := WithBet(r2, p, b);
      |r1| == 1 && |r2| == 1 && |r3| == 1 && TotalPrice(r3) == 3.0 * b.amount
  {
    assert [b, b][..1] == [b] && [b, b, b][..2] == [b, b] && [b][..0] == [];
    RepeatBettorNoQuorum(p, [b], false);
    RepeatBettorNoQuorum(p, [b, b], false);
    RepeatBettorNoQuorum(p, [b, b, b], false);
    assert SumAmounts([b, b, b]) == 3.0 * b.amount by {
      assert [b, b, b][..2] == [b, b];
    }
  }

  /**
   * One player betting 5 three times on a new game: one position, a pot of
   * 15, and the start is never triggered.
   */
  method RepeatBettorRound(p: Player) returns (triggers: seq<bool>, pot: real)
    ensures triggers == [false, false, false]
    ensures pot == 15.0
  {
    ThreeBetsOnePosition(p, Bet(5.0));
    var g := new Game(1, GameDuration);
    var t1 := g.PlaceBet(p, 5.0);
    var t2 := g.PlaceBet(p, 5.0);
    var t3 := g.PlaceBet(p, 5.0);
    triggers := [t1, t2, t3];
    pot := g.GetTotalPrice();
  }
}
