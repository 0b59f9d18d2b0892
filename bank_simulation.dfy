/**
 * BankSimulationFixed: the shared BankAccount, the WithdrawTask actors, and
 * the run that `main` sets up, with the threads replaced by the order in
 * which their atomic `withdraw` steps ran.
 */
module BankSimulation {
  import opened Withdrawals
  import opened Schedules

  /** Java's 32-bit `int`. */
  newtype int32 = x: int | -0x8000_0000 <= x < 0x8000_0000

  class BankAccount {
    var balance: int32

    constructor (startingBalance: int32)
      ensures balance == startingBalance
    {
      balance := startingBalance;
    }

    /**
     * The synchronized check-then-act step. The outcome carries the balance
     * the check saw and the balance the step left; the line the code prints
     * differs (see TransactionLog). A positive amount never overflows: the
     * new balance lies between 0 and the old one.
     */
    method Withdraw(amount: int32, who: string) returns (o: Outcome)
      requires amount > 0
      modifies this
      ensures o.Succeeded? <==> old(balance) >= amount
      ensures o.Succeeded? ==> balance == old(balance) - amount
      ensures o.Declined? ==> balance == old(balance)
      ensures old(balance) >= 0 ==> balance >= 0
      ensures o == Attempt(old(balance) as int, Request(who, amount as int))
      ensures balance as int == o.After()
    {
      if balance >= amount {
        var before := balance;
        balance := balance - amount;
        o := Succeeded(who, amount as int, before as int, balance as int);
      } else {
        o := Declined(who, amount as int, balance as int);
      }
    }

    /** Reads the balance and changes nothing. */
    method GetBalance() returns (b: int32)
      ensures b == balance
    {
      b := balance;
    }
  }

  class WithdrawTask {
    const account: BankAccount
    const userName: string
    const amountPerWithdrawal: int32
    const times: int32

    constructor (account: BankAccount, userName: string, amountPerWithdrawal: int32, times: int32)
      ensures this.account == account && this.userName == userName
      ensures this.amountPerWithdrawal == amountPerWithdrawal && this.times == times
    {
      this.account := account;
      this.userName := userName;
      this.amountPerWithdrawal := amountPerWithdrawal;
      this.times := times;
    }

    function Spec(): (a: Actor) {
      Actor(userName, amountPerWithdrawal as int, times as int)
    }

    /**
     * The attempt loop, run without other actors in between: exactly
     * `times` calls of `withdraw(amountPerWithdrawal, userName)` in a row.
     * `log` holds the outcome of each call, in order.
     */
    method Run() returns (log: seq<Outcome>)
      requires amountPerWithdrawal > 0
      modifies account
      ensures |log| == Times(Spec())
      ensures log == Log(old(account.balance) as int, Attempts(Spec()))
      ensures account.balance as int == Final(old(account.balance) as int, Attempts(Spec()))
    {
      ghost var start := account.balance as int;
      ghost var reqs := Attempts(Spec());
      log := [];
      var i: int32 := 0;
      while i < times
        invariant 0 <= i as int <= |reqs|
        invariant account.balance as int == Final(start, reqs[..i])
        invariant log == Log(start, reqs[..i])
      {
        var o := account.Withdraw(amountPerWithdrawal, userName);
        assert reqs[..i + 1][..i] == reqs[..i];
        log := log + [o];
        i := i + 1;
      }
      assert reqs == reqs[..i];
    }
  }

  /** The actor configurations behind a list of tasks. */
  function Specs(tasks: seq<WithdrawTask>): (actors: seq<Actor>) {
    seq(|tasks|, i requires 0 <= i < |tasks| => tasks[i].Spec())
  }

  /**
   * The threads of `main` running concurrently against one account: the
   * scheduler lets one whole `withdraw` through at a time, from the task
   * `schedule[k]` at step k.
   */
  method RunInterleaved(account: BankAccount, tasks: seq<WithdrawTask>, schedule: seq<nat>)
      returns (log: seq<Outcome>)
    requires forall i :: 0 <= i < |tasks| ==>
      tasks[i].account == account && tasks[i].amountPerWithdrawal > 0
    requires InRange(Specs(tasks), schedule)
    modifies account
    ensures log == Log(old(account.balance) as int, Interleave(Specs(tasks), schedule))
    ensures account.balance as int == Final(old(account.balance) as int, Interleave(Specs(tasks), schedule))
  {
    ghost var start := account.balance as int;
    ghost var reqs := Interleave(Specs(tasks), schedule);
    log := [];
    for k := 0 to |schedule|
      invariant account.balance as int == Final(start, reqs[..k])
      invariant log == Log(start, reqs[..k])
    {
      var task := tasks[schedule[k]];
      var o := task.account.Withdraw(task.amountPerWithdrawal, task.userName);
      assert reqs[..k + 1][..k] == reqs[..k];
      log := log + [o];
    }
    assert reqs == reqs[..|schedule|];
  }

  /**
   * The run `main` sets up: an account of 1000 and the five tasks, under
   * whichever interleaving the scheduler picks. Returns the final balance
   * `main` reports and the outcome of every attempt.
   */
  method Simulate(schedule: seq<nat>) returns (finalBalance: int32, log: seq<Outcome>)
    requires IsSchedule(MainActors(), schedule)
    ensures log == Log(MainStart, Interleave(MainActors(), schedule))
    ensures |log| == 25
    ensures finalBalance >= 0
    ensures finalBalance as int == MainStart - SucceededTotal(log)
    ensures AnyDeclined(log)
  {
    var shared := new BankAccount(1000);
    var alice := new WithdrawTask(shared, "Alice", 50, 5);
    var bob := new WithdrawTask(shared, "Bob", 50, 5);
    var charlie := new WithdrawTask(shared, "Charlie", 50, 5);
    var diana := new WithdrawTask(shared, "Diana", 50, 5);
    var kiosk := new WithdrawTask(shared, "ATM-Kiosk", 20, 5);
    var tasks := [alice, bob, charlie, diana, kiosk];
    assert Specs(tasks) == MainActors();
    log := RunInterleaved(shared, tasks, schedule);
    finalBalance := shared.GetBalance();
    MainScenario(schedule);
  }
}
