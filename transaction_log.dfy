/**
 * The two balances on the line `withdraw` prints after a success.
 *
 * In the code, `oldBalance` and `newBalance` are two references to the one
 * AtomicInteger that holds the balance, and both are turned into text only
 * when the line is built, after the decrement. The line therefore shows the
 * new balance twice. PrintedAsWritten models that line; Printed is the line the
 * labels describe.
 */
module TransactionLog {
  import opened Withdrawals

  /** The "old balance" and "new balance" figures of one success line. */
  datatype Shown = Shown(oldShown: int, newShown: int)

  /** The success line as the code builds it: both figures read the account after the decrement. */
  function PrintedAsWritten(o: Outcome): (s: Shown)
    requires o.Succeeded?
  {
    Shown(o.after, o.after)
  }

  /** For every successful positive withdrawal the line as written misreports the old balance. */
  lemma AsWrittenMisreportsOld(balance: int, r: Request)
    requires r.amount > 0 && balance >= r.amount
    ensures Attempt(balance, r).Succeeded?
    ensures PrintedAsWritten(Attempt(balance, r)).oldShown == balance - r.amount != balance
  {
  }

  /** The first withdrawal of `main`'s run, Alice's 50 from 1000, is printed as "old balance = 950 -> new balance = 950". */
  lemma AsWrittenFirstLine()
    ensures PrintedAsWritten(Attempt(1000, Request("Alice", 50))) == Shown(950, 950)
  {
  }

  /** The success line as intended: the balance the check saw, and the balance the decrement left. */
  function Printed(o: Outcome): (s: Shown)
    requires o.Succeeded?
  {
    Shown(o.before, o.after)
  }

  /**
   * The intended line tells the truth about the step: it shows the balance
   * before the withdrawal, and the two figures differ by exactly the amount.
   */
  lemma PrintedShowsStep(balance: int, r: Request)
    requires balance >= r.amount
    ensures Attempt(balance, r).Succeeded?
    ensures Printed(Attempt(balance, r)).oldShown == balance
    ensures Printed(Attempt(balance, r)).oldShown - Printed(Attempt(balance, r)).newShown == r.amount
  {
  }

  /**
   * Over a whole run the intended lines chain: when two successes follow
   * each other, the old figure of the second is the new figure of the first.
   */
  lemma {:induction false} PrintedLinesChain(start: int, reqs: seq<Request>, k: nat)
    requires k + 1 < |reqs|
    requires Log(start, reqs)[k].Succeeded? && Log(start, reqs)[k + 1].Succeeded?
    ensures Printed(Log(start, reqs)[k + 1]).oldShown == Printed(Log(start, reqs)[k]).newShown
  {
    LogChains(start, reqs);
  }
}
