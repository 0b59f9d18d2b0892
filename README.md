# Bank simulation: atomic withdrawals against one shared account

This project models the fixed bank simulation. One `BankAccount` holds an
integer balance. Several `WithdrawTask` actors call its `withdraw(amount, who)`
a fixed number of times each. `withdraw` is `synchronized`, so its check
`balance >= amount` and the decrement that follows form one indivisible step.
A concurrent run is therefore some order of whole steps. The model describes
that order as a *schedule*: the sequence of actor indices, in the order the
scheduler let their `withdraw` calls through.

Files and modules:

- `withdrawals.dfy`, module `Withdrawals`: the protocol as values. `Attempt`
  is one atomic step. `Final` and `Log` replay a sequence of requests from a
  starting balance. The lemmas cover conservation, non-negativity, balances
  that chain from step to step, repeated declines and oversubscription.
- `schedules.dfy`, module `Schedules`: actors, complete schedules (each
  actor takes exactly its `times` steps) and the requests they let through.
  It proves counting lemmas, a theorem covering every interleaving of any
  configuration, and the configuration of `main`.
- `bank_simulation.dfy`, module `BankSimulation`: the Java classes as Dafny
  classes. `BankAccount` has a mutable `balance` field of Java's 32-bit
  `int`. `WithdrawTask` keeps its final fields as `const`, and `Run` is the
  attempt loop. `RunInterleaved` runs the tasks' steps in a given schedule
  against the shared account. `Simulate` builds `main`'s account and five
  tasks and runs them under any complete schedule.
- `transaction_log.dfy`, module `TransactionLog`: the two balance figures on
  the success line of `withdraw`, both as written and as intended (see
  Findings).

The code validates no argument. The constructor accepts any `int`, so
non-negativity is stated for starts of at least 0. A negative `times` runs
the loop zero times. Withdrawal amounts are restricted to positive values
(see "Left out").

## Model

| member | source | states |
|---|---|---|
| `BankSimulation.BankAccount.constructor` | BankSimulationFixed.java:30-32 | the new account holds exactly the starting balance, for any 32-bit starting value |
| `BankSimulation.BankAccount.Withdraw` | BankSimulationFixed.java:36-57 | the success branch is taken exactly when the old balance is at least the amount; on success the balance drops by exactly the amount; on decline it is unchanged; a non-negative balance stays non-negative; no 32-bit overflow is possible; the outcome is the atomic step `Attempt` on the old balance |
| `BankSimulation.BankAccount.GetBalance` | BankSimulationFixed.java:59-61 | returns the current balance and changes nothing |
| `BankSimulation.WithdrawTask.constructor` | BankSimulationFixed.java:73-81 | the task keeps the account, name, amount and count it was given |
| `BankSimulation.WithdrawTask.Run` | BankSimulationFixed.java:86-101 | the loop makes exactly `times` calls (none if `times` is 0 or less), each `withdraw(amountPerWithdrawal, userName)`, one after another; the final balance and the outcomes are the replay of exactly those requests |
| `BankSimulation.RunInterleaved` | BankSimulationFixed.java:123-135 | the started threads, as one whole `withdraw` at a time from the task the schedule names; the account ends at the replay of the interleaved requests, and the outcomes are that replay's log |
| `BankSimulation.Simulate` | BankSimulationFixed.java:104-141 | under every complete interleaving of `main`'s five tasks against 1000: exactly 25 outcomes, the final balance reported is at least 0 and equals 1000 minus what succeeded, and at least one attempt is declined |
| `Withdrawals.Log` | BankSimulationFixed.java:36-57 | every request produces exactly one outcome, in the same order, with the same caller and amount |
| `Withdrawals.LogAt` | BankSimulationFixed.java:39-56 | the k-th outcome is the atomic step of the k-th request on the balance the first k steps left; it succeeds exactly when that balance is at least the amount |
| `Withdrawals.LogChains` | BankSimulationFixed.java:36-57 | the first step sees the start, each step sees exactly the balance the previous step left, and the last step leaves the final balance, so no step sees part of another |
| `Withdrawals.Conservation` | BankSimulationFixed.java:36-57 | after any sequence of atomic withdrawals, final balance = start − sum of the amounts that succeeded |
| `Withdrawals.FinalNonNegative` | BankSimulationFixed.java:39-42 | from a start of at least 0, the balance after any sequence of steps is at least 0 |
| `Withdrawals.NeverNegative` | BankSimulationFixed.java:36-57 | from a start of at least 0, every intermediate balance, and every balance an outcome reports before or after its step, is at least 0 |
| `Withdrawals.FinalAtMostStart` | BankSimulationFixed.java:42 | with positive amounts the balance never grows |
| `Withdrawals.SucceededWithinStart` | BankSimulationFixed.java:36-57 | from a start of at least 0 and with positive amounts, the sum that succeeded is between 0 and the start |
| `Withdrawals.NoDeclineDrawsDemand` | BankSimulationFixed.java:39-42 | if no attempt was declined, the sum that succeeded is the whole demand |
| `Withdrawals.Oversubscribed` | BankSimulationFixed.java:36-57 | from a start of at least 0, a demand above the start forces at least one decline |
| `Withdrawals.DeclinesRepeat` | BankSimulationFixed.java:50-56 | repeating a withdrawal larger than the balance n times declines every time with the same balance, and leaves the balance unchanged |
| `Schedules.Interleave` | BankSimulationFixed.java:124-126 | the interleaved run has one request per scheduled step, and step k is the request of the actor the schedule names |
| `Schedules.InterleaveTotals` | BankSimulationFixed.java:124-135 | every complete schedule lets through all configured attempts and asks for the whole configured demand |
| `Schedules.AnyInterleaving` | BankSimulationFixed.java:36-57 | for any actors and any complete interleaving from a start of at least 0: as many outcomes as configured attempts, a non-negative final balance equal to start − succeeded, and a decline whenever demand exceeds the start |
| `Schedules.SoloRun` | BankSimulationFixed.java:86-89 | one actor running alone is a complete schedule whose requests are exactly its loop's attempts |
| `Schedules.SequentialIsSchedule` | BankSimulationFixed.java:124-135 | running the threads one after another to completion is one of the complete interleavings |
| `Schedules.MainTotals` | BankSimulationFixed.java:111-117 | `main`'s five tasks make 25 attempts and ask for 1100 in total |
| `Schedules.MainScenario` | BankSimulationFixed.java:105-141 | every interleaving of the 25 attempts against 1000 gives 25 outcomes, a final balance of at least 0 equal to 1000 − succeeded, and at least one decline |
| `TransactionLog.AsWrittenMisreportsOld` | BankSimulationFixed.java:41-48 | for every successful positive withdrawal, the "old balance" printed is not the balance before the call |
| `TransactionLog.AsWrittenFirstLine` | BankSimulationFixed.java:41-48 | Alice's first 50 from 1000 is printed as old 950, new 950 |
| `TransactionLog.PrintedShowsStep` | BankSimulationFixed.java:45-49 | the intended line shows the balance before the call, and its two figures differ by exactly the amount |
| `TransactionLog.PrintedLinesChain` | BankSimulationFixed.java:45-49 | for two successes in a row, the intended old figure of the second is the new figure of the first |

## Left out

- Threads, `start`, `join` and `synchronized` (BankSimulationFixed.java:108-135): each `withdraw` is one atomic step, and a concurrent run is any complete schedule of whole steps. No lock or memory model is modelled.
- `Thread.sleep(1)` and the swallowed `InterruptedException` (BankSimulationFixed.java:93-99, :130-134): timing only, with no effect on the state. An interrupt never ends the loop early, so the attempt count does not change.
- Console output (BankSimulationFixed.java:45-55, :119, :139-142) as text. An `Outcome` carries the balances the step really saw and left. The printed figures are modelled only in `TransactionLog`.
- Wall-clock timing with `System.currentTimeMillis` (BankSimulationFixed.java:121, :137).
- `getBalance` is not synchronized. The model reads it between whole steps only, so a read that races a running `withdraw` is not modelled.
- BankSimulation.BankAccount.Withdraw: requires `amount > 0`, where the Java method accepts any `int`. A zero or negative amount, and the 32-bit wrap-around that a negative amount can cause in `addAndGet(-amount)`, are not modelled. With a positive amount the new balance lies between 0 and the old one, so no wrap-around is possible.
- BankSimulation.WithdrawTask.Run: requires `amountPerWithdrawal > 0`, for the same reason.
- BankSimulation.RunInterleaved: requires every task to hold a positive amount and to share the one account, as `main` sets them up.

## Findings

| source | as written | input that shows it | evidently intended | confidence | as-written member | corrected member |
|---|---|---|---|---|---|---|
| BankSimulationFixed.java:41-48 | `oldBalance` and `newBalance` both alias the account's one `AtomicInteger`, and both are read when the line is built, after `addAndGet(-amount)` | Alice withdraws 50 from 1000: the line reads "old balance = 950 -> new balance = 950" | "old balance" is the balance before the decrement (1000), so the two figures differ by the amount | not executed; read from the code | `TransactionLog.AsWrittenMisreportsOld` | `TransactionLog.PrintedShowsStep` |
