// The lottery contract as an object: the five storage fields are fields of
// the class, and each entry point updates them in place, in the order the
// contract does.  A call that aborts part-way is rolled back, as the chain
// discards every change of a failed operation; the queued transfers are
// returned to the caller, which stands for the chain executing them after the
// storage is committed.

module LotteryContract {
  import opened Michelson
  import Spec = LotterySpec

  /** What a call hands back to the chain: the queued transfers, or the abort. */
  datatype Receipt = Applied(ops: seq<Transfer>) | Aborted(abort: Abort)

  function ReceiptOf(o: Spec.Outcome): (r: Receipt)
    ensures r.Applied? <==> o.Ok?
  {
    match o
    case Ok(_, ops) => Applied(ops)
    case Fail(a) => Aborted(a)
  }

  class Lottery {
    var players: map<nat, Address>
    var ticketCost: Mutez
    var ticketsAvailable: nat
    var maxTickets: nat
    var operator: Address

    /** The storage as a value. */
    function State(): Spec.Storage
      reads this
    {
      Spec.Storage(players, ticketCost, ticketsAvailable, maxTickets, operator)
    }

    predicate Valid()
      reads this
    {
      Spec.Valid(State())
    }

    /** Origination; the operator is a parameter instead of a fixed test account. */
    constructor (operator: Address)
      ensures State() == Spec.Init(operator)
      ensures Valid() && Spec.Idle(State())
    {
      players := map[];
      ticketCost := Spec.InitialTicketCost;
      ticketsAvailable := Spec.InitialMaxTickets;
      maxTickets := Spec.InitialMaxTickets;
      this.operator := operator;
    }

    /** The chain's rollback of an aborted call: every field gets its value back. */
    method Rollback(s: Spec.Storage)
      modifies this
      ensures State() == s
    {
      players, ticketCost, ticketsAvailable, maxTickets, operator :=
        s.players, s.ticketCost, s.ticketsAvailable, s.maxTickets, s.operator;
    }

    method BuyTicket(sender: Address, amount: Mutez, numberTickets: nat) returns (r: Receipt)
      modifies this
      ensures var o := Spec.BuyTicket(old(State()), sender, amount, numberTickets);
        r == ReceiptOf(o) && State() == Spec.Commit(old(State()), o)
      ensures operator == old(operator)
      ensures old(Valid()) ==> Valid()
    {
      var before := State();
      if !(ticketsAvailable > 0) {
        return Aborted(Verify(Spec.NoTicketsAvailable));
      }
      if !(amount >= Tez(1)) {
        return Aborted(Verify(Spec.InvalidAmount));
      }
      players := players[|players| := sender];
      var available := AsNat(ticketsAvailable - numberTickets);
      if available.None? {
        Rollback(before);
        return Aborted(AsNatNegative);
      }
      ticketsAvailable := available.value;
      // the refund is a mutez subtraction, which aborts when the deposit is below the cost
      var extra := SubMutez(amount, ticketCost);
      if extra.None? {
        Rollback(before);
        return Aborted(MutezUnderflow);
      }
      r := Applied(if extra.value > 0 then [Transfer(sender, extra.value)] else []);
    }

    method EndGame(sender: Address, balance: Mutez, randomNumber: nat) returns (r: Receipt)
      modifies this
      ensures var o := Spec.EndGame(old(State()), sender, balance, randomNumber);
        r == ReceiptOf(o) && State() == Spec.Commit(old(State()), o)
      ensures operator == old(operator)
      ensures old(Valid()) ==> Valid()
    {
      if !(ticketsAvailable == 0) {
        return Aborted(Verify(Spec.GameIsStillOn));
      }
      if !(sender == operator) {
        return Aborted(Verify(Spec.NotAuthorized));
      }
      if maxTickets == 0 {
        return Aborted(DivisionByZero);
      }
      var winnerIndex := randomNumber % maxTickets;
      if winnerIndex !in players {
        return Aborted(MissingKey(winnerIndex));
      }
      var winnerAddress := players[winnerIndex];
      r := Applied([Transfer(winnerAddress, balance)]);
      players := map[];
      ticketsAvailable := maxTickets;
    }

    method ChangeCost(sender: Address, newCost: Mutez) returns (r: Receipt)
      modifies this
      ensures var o := Spec.ChangeCost(old(State()), sender, newCost);
        r == ReceiptOf(o) && State() == Spec.Commit(old(State()), o)
      ensures operator == old(operator)
      ensures old(Valid()) ==> Valid()
    {
      if !(ticketsAvailable == maxTickets) {
        return Aborted(Verify(Spec.GameIsStillOn));
      }
      if !(sender == operator) {
        return Aborted(Verify(Spec.NotAuthorized));
      }
      ticketCost := newCost;
      r := Applied([]);
    }

    /** The `max_tickets` entry point. */
    method MaxTickets(sender: Address, newMax: nat) returns (r: Receipt)
      modifies this
      ensures var o := Spec.SetMaxTickets(old(State()), sender, newMax);
        r == ReceiptOf(o) && State() == Spec.Commit(old(State()), o)
      ensures operator == old(operator) && maxTickets >= old(maxTickets)
      ensures old(Valid()) ==> Valid()
    {
      if !(ticketsAvailable == maxTickets) {
        return Aborted(Verify(Spec.GameIsStillOn));
      }
      if !(newMax >= ticketsAvailable) {
        return Aborted(Verify(Spec.InvalidValue));
      }
      if !(sender == operator) {
        return Aborted(Verify(Spec.NotAuthorized));
      }
      maxTickets := newMax;
      r := Applied([]);
    }
  }
}
