/**
 * The withdrawal protocol of a single bank account, as values.
 *
 * `withdraw` is synchronized, so the check `balance >= amount` and the
 * decrement happen as one indivisible step. Any concurrent run is therefore a
 * sequence of whole steps, and it is enough to describe one step (Attempt)
 * and the replay of a sequence of steps (Final, Log).
 */
module Withdrawals {

  /** One call `withdraw(amount, who)`. */
  datatype Request = Request(who: string, amount: int)

  /**
   * What one call produced: the balance the check saw and the balance the
   * step left. The line the code prints differs (see TransactionLog).
   */
  datatype Outcome =
    | Succeeded(who: string, amount: int, before: int, after: int)
    | Declined(who: string, amount: int, current: int)
  {
    /** The balance the call saw when it made its check. */
    function Before(): int { if Succeeded? then before else current }
    /** The balance the call left behind. */
    function After(): int { if Succeeded? then after else current }
  }

  /** One atomic check-then-act step of `withdraw` against `balance`. */
  function Attempt(balance: int, r: Request): (o: Outcome) {
    if balance >= r.amount then Succeeded(r.who, r.amount, balance, balance - r.amount)
    else Declined(r.who, r.amount, balance)
  }

  /** `n` copies of `x`. */
  function Repeat<T>(x: T, n: nat): (r: seq<T>) {
    seq(n, _ => x)
  }

  /** Every request asks for a positive amount. */
  predicate Positive(reqs: seq<Request>) {
    forall k :: 0 <= k < |reqs| ==> reqs[k].amount > 0
  }

  /** The balance after the requests ran one whole step at a time. */
  function Final(start: int, reqs: seq<Request>): (balance: int)
    decreases |reqs|
  {
    if reqs == [] then start
    else Attempt(Final(start, reqs[..|reqs| - 1]), reqs[|reqs| - 1]).After()
  }

  /** The outcome each request produced, in the order the steps ran. */
  function Log(start: int, reqs: seq<Request>): (log: seq<Outcome>)
    decreases |reqs|
    ensures |log| == |reqs|
    ensures forall k :: 0 <= k < |reqs| ==>
      log[k].who == reqs[k].who && log[k].amount == reqs[k].amount
  {
    if reqs == [] then []
    else
      var prefix := reqs[..|reqs| - 1];
      Log(start, prefix) + [Attempt(Final(start, prefix), reqs[|reqs| - 1])]
  }

  /** The total amount the requests ask for. */
  function Demand(reqs: seq<Request>): (d: int)
    decreases |reqs|
  {
    if reqs == [] then 0
    else Demand(reqs[..|reqs| - 1]) + reqs[|reqs| - 1].amount
  }

  /** The sum of the amounts of the outcomes that succeeded. */
  function SucceededTotal(log: seq<Outcome>): (t: int)
    decreases |log|
  {
    if log == [] then 0
    else
      SucceededTotal(log[..|log| - 1])
      + (if log[|log| - 1].Succeeded? then log[|log| - 1].amount else 0)
  }

  predicate AnyDeclined(log: seq<Outcome>) {
    exists k :: 0 <= k < |log| && log[k].Declined?
  }

  /** The k-th outcome is the atomic step of the k-th request against the balance left by the first k. */
  lemma {:induction false} LogAt(start: int, reqs: seq<Request>, k: nat)
    requires k < |reqs|
    ensures Log(start, reqs)[k] == Attempt(Final(start, reqs[..k]), reqs[k])
    ensures Log(start, reqs)[k].Succeeded? <==> Final(start, reqs[..k]) >= reqs[k].amount
    decreases |reqs|
  {
    var prefix := reqs[..|reqs| - 1];
    if k < |reqs| - 1 {
      LogAt(start, prefix, k);
      assert prefix[..k] == reqs[..k];
    } else {
      assert reqs[..k] == prefix;
    }
  }

  /**
   * The reported balances chain: the first step sees the starting balance,
   * each step sees exactly what the previous one left, and the last one
   * leaves the final balance. No step observes part of another.
   */
  lemma {:induction false} LogChains(start: int, reqs: seq<Request>)
    ensures var log := Log(start, reqs);
      (|log| > 0 ==> log[0].Before() == start) &&
      (forall k :: 0 <= k < |log| - 1 ==> log[k].After() == log[k + 1].Before()) &&
      Final(start, reqs) == (if |log| == 0 then start else log[|log| - 1].After())
    decreases |reqs|
  {
    if reqs != [] {
      var prefix := reqs[..|reqs| - 1];
      LogChains(start, prefix);
      var log := Log(start, reqs);
      assert log[..|log| - 1] == Log(start, prefix);
    }
  }

  /** Conservation: the final balance is the start minus every amount that succeeded. */
  lemma {:induction false} Conservation(start: int, reqs: seq<Request>)
    ensures Final(start, reqs) == start - SucceededTotal(Log(start, reqs))
    decreases |reqs|
  {
    if reqs != [] {
      var prefix := reqs[..|reqs| - 1];
      Conservation(start, prefix);
      var log := Log(start, reqs);
      assert log[..|log| - 1] == Log(start, prefix);
    }
  }

  /** A non-negative balance stays non-negative after any sequence of steps. */
  lemma {:induction false} FinalNonNegative(start: int, reqs: seq<Request>)
    requires start >= 0
    ensures Final(start, reqs) >= 0
    decreases |reqs|
  {
    if reqs != [] {
      FinalNonNegative(start, reqs[..|reqs| - 1]);
    }
  }

  /** Non-negativity at every point of the run: every balance any step sees or leaves is at least 0. */
  lemma NeverNegative(start: int, reqs: seq<Request>)
    requires start >= 0
    ensures forall k :: 0 <= k <= |reqs| ==> Final(start, reqs[..k]) >= 0
    ensures forall k :: 0 <= k < |reqs| ==>
      Log(start, reqs)[k].Before() >= 0 && Log(start, reqs)[k].After() >= 0
  {
    forall k | 0 <= k <= |reqs| ensures Final(start, reqs[..k]) >= 0 {
      FinalNonNegative(start, reqs[..k]);
    }
    forall k | 0 <= k < |reqs|
      ensures Log(start, reqs)[k].Before() >= 0 && Log(start, reqs)[k].After() >= 0
    {
      LogAt(start, reqs, k);
      FinalNonNegative(start, reqs[..k]);
    }
  }

  /** With positive amounts the balance never grows. */
  lemma {:induction false} FinalAtMostStart(start: int, reqs: seq<Request>)
    requires Positive(reqs)
    ensures Final(start, reqs) <= start
    decreases |reqs|
  {
    if reqs != [] {
      FinalAtMostStart(start, reqs[..|reqs| - 1]);
    }
  }

  /** What succeeded never exceeds the starting balance, and is not negative. */
  lemma SucceededWithinStart(start: int, reqs: seq<Request>)
    requires start >= 0 && Positive(reqs)
    ensures 0 <= SucceededTotal(Log(start, reqs)) <= start
  {
    Conservation(start, reqs);
    FinalNonNegative(start, reqs);
    FinalAtMostStart(start, reqs);
  }

  /** When nothing was declined, what succeeded is everything that was asked for. */
  lemma {:induction false} NoDeclineDrawsDemand(start: int, reqs: seq<Request>)
    requires !AnyDeclined(Log(start, reqs))
    ensures SucceededTotal(Log(start, reqs)) == Demand(reqs)
    decreases |reqs|
  {
    if reqs != [] {
      var prefix := reqs[..|reqs| - 1];
      var log := Log(start, reqs);
      assert log[..|log| - 1] == Log(start, prefix);
      assert !AnyDeclined(Log(start, prefix)) by {
        forall k | 0 <= k < |prefix| ensures !Log(start, prefix)[k].Declined? {
          assert Log(start, prefix)[k] == log[k];
        }
      }
      NoDeclineDrawsDemand(start, prefix);
      assert !log[|log| - 1].Declined?;
    }
  }

  /** Contention: when the requests ask for more than a non-negative start holds, at least one is declined. */
  lemma Oversubscribed(start: int, reqs: seq<Request>)
    requires start >= 0 && Demand(reqs) > start
    ensures AnyDeclined(Log(start, reqs))
  {
    if !AnyDeclined(Log(start, reqs)) {
      NoDeclineDrawsDemand(start, reqs);
      Conservation(start, reqs);
      FinalNonNegative(start, reqs);
    }
  }

  /** Repeating a withdrawal larger than the balance declines every time and never changes the balance. */
  lemma {:induction false} DeclinesRepeat(start: int, r: Request, n: nat)
    requires r.amount > start
    ensures Final(start, Repeat(r, n)) == start
    ensures Log(start, Repeat(r, n)) == Repeat(Declined(r.who, r.amount, start), n)
  {
    if n > 0 {
      assert Repeat(r, n)[..n - 1] == Repeat(r, n - 1);
      DeclinesRepeat(start, r, n - 1);
      assert Repeat(Declined(r.who, r.amount, start), n - 1) + [Declined(r.who, r.amount, start)]
          == Repeat(Declined(r.who, r.amount, start), n);
    }
  }
}
