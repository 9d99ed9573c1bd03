// The repository's test scenario, and concrete runs that show how the
// contract behaves on the edge cases of its accounting.

module LotteryScenario {
  import opened Michelson
  import opened LotterySpec
  import LotteryContract

  const Admin: Address := Address("admin")
  const Alice: Address := Address("alice")

  /**
   * The scenario of the test: the operator sets the price to 2 tez and the
   * maximum to 10, then alice buys two tickets with 10 tez and gets 8 back.
   */
  lemma TestScenario()
    ensures var s1 := Next(Init(Admin), ChangeCostCall(Admin, Tez(2)));
      var s2 := Next(s1, MaxTicketsCall(Admin, 10));
      && s2 == Init(Admin).(ticketCost := Tez(2))
      && BuyTicket(s2, Alice, Tez(10), 2) ==
           Ok(Storage(map[0 := Alice], Tez(2), 8, 10, Admin), [Transfer(Alice, Tez(8))])
  {
  }

  /** The same scenario run against the contract object. */
  method TestScenarioOnContract() returns (refund: LotteryContract.Receipt)
    ensures refund == LotteryContract.Applied([Transfer(Alice, Tez(8))])
  {
    var lottery := new LotteryContract.Lottery(Admin);
    var r := lottery.ChangeCost(Admin, Tez(2));
    assert r == LotteryContract.Applied([]);
    r := lottery.MaxTickets(Admin, 10);
    assert r == LotteryContract.Applied([]);
    refund := lottery.BuyTicket(Alice, Tez(10), 2);
    assert lottery.State() == Storage(map[0 := Alice], Tez(2), 8, 10, Admin);
  }

  /**
   * Buying all ten tickets in one call records a single player, so a draw
   * whose index is not 0 finds no winner and aborts.
   */
  lemma OnePurchaseOfTheWholeRound(randomNumber: nat)
    requires randomNumber % InitialMaxTickets != 0
    ensures var s := Next(Init(Admin), BuyTicketCall(Alice, Tez(1), 10));
      && s.ticketsAvailable == 0 && s.players == map[0 := Alice]
      && EndGame(s, Admin, Tez(1), randomNumber) == Fail(MissingKey(randomNumber % InitialMaxTickets))
  {
  }

  /**
   * Buying zero tickets records the buyer but leaves the round idle, so the
   * operator can still reprice it, and the player entries no longer match
   * the sold tickets.
   */
  lemma ZeroTicketPurchase()
    ensures var s := Next(Init(Admin), BuyTicketCall(Alice, Tez(1), 0));
      && s.players == map[0 := Alice] && Idle(s) && !Accounted(s)
      && ChangeCost(s, Admin, Tez(5)).Ok?
  {
  }

  /**
   * Raising the maximum leaves the counter where it was: the round is no
   * longer idle, and the operator cannot reconfigure until the next draw.
   */
  lemma RaisedMaximumEndsIdleness()
    ensures var s := Next(Init(Admin), MaxTicketsCall(Admin, 12));
      && s.maxTickets == 12 && s.ticketsAvailable == 10 && !Idle(s)
      && ChangeCost(s, Admin, Tez(2)) == Fail(Verify(GameIsStillOn))
      && SetMaxTickets(s, Admin, 12) == Fail(Verify(GameIsStillOn))
  {
  }

  /** A deposit of at least 1 tez but below the ticket cost aborts on the refund. */
  lemma DepositBelowCost()
    ensures var s := Init(Admin).(ticketCost := Tez(2));
      BuyTicket(s, Alice, Tez(1), 1) == Fail(MutezUnderflow)
  {
  }
}
