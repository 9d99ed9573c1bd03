# Lottery contract, modelled in Dafny

A model of the SmartPy (Tezos) contract `Lottery` in `lottery.py`: a ticket
lottery whose storage has five fields (`players`, `ticket_cost`,
`tickets_available`, `max_tickets`, `operator`) and four entry points.
`buy_ticket` records the caller under the next ticket index, lowers the
counter and refunds the excess deposit; `end_game` draws
`random_number % max_tickets`, pays the whole balance to the player under that
index and restarts the round; `change_cost` and `max_tickets` let the operator
reconfigure the next round while no ticket is sold.

Files:

- `michelson.dfy` (module `Michelson`): amounts in mutez, addresses, queued
  transfers, and the primitives that abort a call (`sp.verify`, `sp.as_nat`,
  mutez subtraction, `%` by zero, a missing map key).
- `lottery_spec.dfy` (module `LotterySpec`): the storage as a datatype, one
  function per entry point from the old storage and the call's inputs to an
  outcome (new storage and transfers, or an abort that leaves the storage as
  it was), the invariant `Valid`, runs of call sequences, and the lemmas.
- `lottery_contract.dfy` (module `LotteryContract`): class `Lottery` with the
  five storage fields. Each entry point is a method that checks the guards and
  updates the fields in the contract's own order. An abort after a field was
  written rolls the fields back, as the chain does. Each method's `ensures`
  ties the receipt and the new fields to the spec function of `LotterySpec`.
- `scenario.dfy` (module `LotteryScenario`): the repository's test scenario
  and concrete runs over the accounting edge cases.

Proved about the model:

- Every call, successful or not, keeps `tickets_available <= max_tickets`, keeps
  `max_tickets >= 10`, and keeps the keys of `players` exactly
  `0 .. |players| - 1`. This holds for every state reachable from
  origination, so the `%` of the draw never divides by zero.
- No call writes `operator`, and `max_tickets` never decreases.
- Every entry point aborts exactly when the contract's guards say, with the
  reason string of the first guard that fails.
- A successful `buy_ticket` adds exactly one player entry whatever
  `number_tickets` is. It lowers the counter by `number_tickets` and refunds
  `amount - ticket_cost` when that is positive.
- A successful `end_game` pays the whole balance to a recorded player. It
  leaves `players` empty and the round idle.
- Repeating a successful reconfiguration changes nothing more.
- If every purchase buys exactly one ticket and no call changes the maximum
  (a `max_tickets` call that aborts or keeps the value is allowed), each sold
  ticket has its own entry. In that case every draw of a sold-out
  round finds a winner.

Behaviours that follow from the code as written, and that the model keeps:

- The deposit guard compares with a fixed 1 tez, not with `ticket_cost`
  (lottery.py:20). A deposit of at least 1 tez but below `ticket_cost` passes
  the guard. It then aborts on the mutez subtraction of the refund
  (lottery.py:27).
- One entry per call: buying the whole round in one call leaves nine of the
  ten draw indices empty, and such a draw aborts (`OnePurchaseOfTheWholeRound`).
- `buy_ticket(0)` records a player and leaves the round idle, so the cost can
  still be changed (`ZeroTicketPurchase`).
- `max_tickets` writes only `max_tickets` (lottery.py:71). Raising it leaves
  the round non-idle until the next draw (`RaisedMaximumEndsIdleness`).

## Model

| member | source | states |
|---|---|---|
| Michelson.AsNat | lottery.py:24 | `sp.as_nat` yields the int itself exactly when it is not negative, and aborts otherwise |
| Michelson.SubMutez | lottery.py:27 | mutez subtraction succeeds exactly when it does not go below zero, and then adds back to the minuend |
| LotterySpec.Init | lottery.py:6-12 | origination: empty `players`, cost 1 tez, 10 of 10 tickets, the given operator; the state is valid and idle |
| LotterySpec.BuyTicket | lottery.py:15-29 | aborts exactly when no ticket is left, the deposit is below 1 tez, more tickets are asked than are left, or the deposit is below the cost, with the first failing reason; otherwise records the sender under key `len(players)` keeping all other entries, lowers the counter by `number_tickets`, keeps cost, maximum and operator, and sends back exactly the excess deposit when it is positive |
| LotterySpec.EndGame | lottery.py:32-48 | succeeds exactly when the round is sold out, the sender is the operator, the maximum is positive and `random_number % max_tickets` is a key; each failure gives its own abort; on success one transfer of the whole balance to a recorded player, `players` empty, round idle, cost, maximum and operator unchanged |
| LotterySpec.ChangeCost | lottery.py:51-59 | succeeds exactly in an idle round called by the operator (`GAME IS STILL ON` before `NOT AUTHORIZED`); on success only the cost changes and nothing is sent |
| LotterySpec.SetMaxTickets | lottery.py:62-71 | succeeds exactly in an idle round, with `new_max >= tickets_available`, called by the operator, failing in that order; on success only the maximum changes, it does not decrease, nothing is sent, and the round stays idle only if the maximum is unchanged |
| LotterySpec.AppendKeepsDense | lottery.py:23 | inserting at key `len(players)` into a map keyed `0..len-1` adds a fresh key and keeps the keys dense |
| LotterySpec.BuyTicketAddsOnePlayer | lottery.py:23 | in a valid state a successful purchase grows `players` by exactly one entry, mapping the next index to the sender and keeping every earlier entry |
| LotterySpec.NextPreservesValid | lottery.py:15-71 | every call, successful or aborted, keeps the counter within the maximum, the maximum at least 10 and the keys dense |
| LotterySpec.NextKeepsOperator | lottery.py:15-71 | no entry point changes the operator |
| LotterySpec.NextKeepsMaxTickets | lottery.py:62-71 | no call lowers the maximum, and only `max_tickets` can change it |
| LotterySpec.EndGameDividesSafely | lottery.py:40 | in a valid state the draw's modulo never aborts on a zero divisor |
| LotterySpec.DrawRestartsRound | lottery.py:36-48 | a sold-out round drawn by the operator on an occupied index returns to the initial configuration (with the current cost and maximum) and pays the whole balance to that player |
| LotterySpec.ReconfigurationIdempotent | lottery.py:51-71 | in an idle state, calling `change_cost` or `max_tickets` twice with the same arguments gives the state of one call |
| LotterySpec.RunPreservesValid | lottery.py:15-71 | the invariant holds after any sequence of calls |
| LotterySpec.RunKeepsOperator | lottery.py:11-71 | the operator is the one set at origination after any sequence of calls |
| LotterySpec.RunKeepsMaxTickets | lottery.py:66-71 | the maximum never decreases over any sequence of calls |
| LotterySpec.Reachable | lottery.py:6-71 | every state reachable from origination is valid, has the original operator and a maximum of at least 10 |
| LotterySpec.NextKeepsAccounted | lottery.py:23-24 | every call that is not a purchase, or buys exactly one ticket, and that leaves the maximum unchanged keeps `len(players) + tickets_available == max_tickets` |
| LotterySpec.RunKeepsAccounted | lottery.py:23-71 | that accounting holds after any sequence of single-ticket calls whose maximum ends where it started, which, as the maximum never decreases, means no call changed it |
| LotterySpec.AccountedDrawFindsWinner | lottery.py:40-41 | with one entry per sold ticket, the operator's draw of a sold-out round never misses a key |
| LotteryContract.Lottery.constructor | lottery.py:4-12 | the new object's storage is the origination storage, valid and idle |
| LotteryContract.Lottery.BuyTicket | lottery.py:15-29 | the in-place purchase returns the spec's transfers or abort, leaves the fields as the spec's outcome (untouched on abort), keeps the operator and the invariant |
| LotteryContract.Lottery.EndGame | lottery.py:32-48 | the in-place draw agrees with the spec, keeps the operator and the invariant |
| LotteryContract.Lottery.ChangeCost | lottery.py:51-59 | the in-place cost change agrees with the spec, keeps the operator and the invariant |
| LotteryContract.Lottery.MaxTickets | lottery.py:62-71 | the in-place maximum change agrees with the spec, never lowers the maximum, keeps the operator and the invariant |
| LotteryScenario.TestScenario | lottery.py:87-94 | after `change_cost(2 tez)` and `max_tickets(10)`, alice's `buy_ticket(2)` with 10 tez gives `players = {0: alice}`, cost 2 tez, 8 of 10 tickets left and an 8 tez refund to alice |
| LotteryScenario.TestScenarioOnContract | lottery.py:87-94 | the same scenario on the contract object ends with the 8 tez refund to alice |
| LotteryScenario.OnePurchaseOfTheWholeRound | lottery.py:23-41 | buying all ten tickets in one call sells out the round with one player; a draw on any index other than 0 aborts on the missing key |
| LotteryScenario.ZeroTicketPurchase | lottery.py:23-24 | `buy_ticket(0)` records the buyer yet leaves the round idle, so the cost can still be changed and the entries no longer match the sold tickets |
| LotteryScenario.RaisedMaximumEndsIdleness | lottery.py:66-71 | raising the maximum to 12 leaves 10 tickets available, so the round is not idle and both reconfigurations abort with `GAME IS STILL ON` |
| LotteryScenario.DepositBelowCost | lottery.py:20-27 | with the cost at 2 tez, a 1 tez deposit passes the deposit guard and aborts on the refund subtraction |

## Left out

- The SmartPy framework (`sp.Contract`, `sp.set_type`, the decorators): types are modelled directly, counts and amounts as `nat`, identities as `Address`; `sp.tez(n)` is the helper `Tez`, n times 1 000 000 mutez, with no contract of its own.
- The chain balance and value transfer: `end_game` takes the balance as a parameter, and `sp.send` is a `Transfer` record returned to the caller. Every `Address` is taken to accept tez: the abort of `sp.send` when the destination is a contract without a `unit` entry point (for the refund at line 29 and the payout at line 44) is not modelled, so `Ok` is not the chain's result when the buyer or the winner is such a contract.
- The 64-bit bound of mutez: no operation of the contract adds amounts, so mutez is an unbounded `nat`.
- Consensus, operation execution and reentrancy: transfers queued by a call run after its storage is committed, and an aborted call is modelled as leaving the storage as it was.
- Randomness: `random_number` is an input, and nothing is claimed about the fairness of the draw.
- The hard-coded operator `sp.test_account("admin")` at line 11 is a constructor parameter.
- The test harness (`sp.add_test`, the test accounts) is not executable here; its scenario is the lemma `TestScenario` and the method `TestScenarioOnContract`.
- The failure messages that SmartPy itself emits for `sp.as_nat`, mutez underflow, `%` by zero and a missing key are not modelled as strings: the aborts `AsNatNegative`, `MutezUnderflow`, `DivisionByZero` and `MissingKey` name them.
