/**
 * Concurrent actors and the interleavings of their withdrawals.
 *
 * Each WithdrawTask issues `times` requests of `amountPerWithdrawal`, one
 * after another. Because each `withdraw` is atomic, a concurrent run is fixed
 * by the order in which the scheduler lets the actors take their steps: a
 * schedule, the sequence of actor indices in the order their steps ran.
 */
module Schedules {
  import opened Withdrawals

  /** The configuration of one WithdrawTask. */
  datatype Actor = Actor(name: string, amount: int, times: int)

  /** The number of iterations of `for (int i = 0; i < times; i++)`. */
  function Times(a: Actor): (n: nat) {
    if a.times > 0 then a.times else 0
  }

  function RequestOf(a: Actor): (r: Request) {
    Request(a.name, a.amount)
  }

  /** The requests one actor's loop issues, in order. */
  function Attempts(a: Actor): (reqs: seq<Request>) {
    Repeat(RequestOf(a), Times(a))
  }

  /** How many steps actor `i` takes in schedule `s`. */
  function Count(s: seq<nat>, i: nat): (c: nat)
    decreases |s|
  {
    if s == [] then 0
    else Count(s[..|s| - 1], i) + (if s[|s| - 1] == i then 1 else 0)
  }

  predicate InRange(actors: seq<Actor>, s: seq<nat>) {
    forall k :: 0 <= k < |s| ==> s[k] < |actors|
  }

  /** A complete schedule: every step belongs to an actor, and each actor takes exactly its `times` steps. */
  predicate IsSchedule(actors: seq<Actor>, s: seq<nat>) {
    InRange(actors, s) && forall i :: 0 <= i < |actors| ==> Count(s, i) == Times(actors[i])
  }

  /** The requests of a run, in the order the scheduler let them through. */
  function Interleave(actors: seq<Actor>, s: seq<nat>): (reqs: seq<Request>)
    requires InRange(actors, s)
    decreases |s|
    ensures |reqs| == |s|
    ensures forall k :: 0 <= k < |s| ==> reqs[k] == RequestOf(actors[s[k]])
  {
    if s == [] then []
    else Interleave(actors, s[..|s| - 1]) + [RequestOf(actors[s[|s| - 1]])]
  }

  function Amounts(actors: seq<Actor>): (w: seq<int>) {
    seq(|actors|, i requires 0 <= i < |actors| => actors[i].amount)
  }

  function Ones(n: nat): (w: seq<int>) {
    Repeat(1, n)
  }

  /** The sum over the first n actors of (steps taken in s) times (weight). */
  function Weighted(s: seq<nat>, w: seq<int>, n: nat): (r: int)
    requires n <= |w|
  {
    if n == 0 then 0 else Weighted(s, w, n - 1) + Count(s, n - 1) * w[n - 1]
  }

  /** The sum over the first n actors of (steps configured) times (weight). */
  function Planned(actors: seq<Actor>, w: seq<int>, n: nat): (r: int)
    requires n <= |actors| && n <= |w|
  {
    if n == 0 then 0 else Planned(actors, w, n - 1) + Times(actors[n - 1]) * w[n - 1]
  }

  /** What all actors together ask for. */
  function TotalDemand(actors: seq<Actor>): (r: int) {
    Planned(actors, Amounts(actors), |actors|)
  }

  /** How many attempts all actors together make. */
  function TotalAttempts(actors: seq<Actor>): (r: int) {
    Planned(actors, Ones(|actors|), |actors|)
  }

  /** One more step by actor j adds j's weight, if j is among the first n. */
  lemma {:induction false} WeightedSnoc(s: seq<nat>, j: nat, w: seq<int>, n: nat)
    requires n <= |w|
    ensures Weighted(s + [j], w, n) == Weighted(s, w, n) + (if j < n then w[j] else 0)
  {
    assert (s + [j])[..|s|] == s;
    if n > 0 {
      WeightedSnoc(s, j, w, n - 1);
    }
  }

  /** The demand of a run is each actor's amount times the steps it took. */
  lemma {:induction false} DemandOfInterleave(actors: seq<Actor>, s: seq<nat>)
    requires InRange(actors, s)
    ensures Demand(Interleave(actors, s)) == Weighted(s, Amounts(actors), |actors|)
    decreases |s|
  {
    if s == [] {
      ZeroWeighted(Amounts(actors), |actors|);
    } else {
      var p := s[..|s| - 1];
      DemandOfInterleave(actors, p);
      assert Interleave(actors, s)[..|s| - 1] == Interleave(actors, p);
      WeightedSnoc(p, s[|s| - 1], Amounts(actors), |actors|);
      assert p + [s[|s| - 1]] == s;
    }
  }

  lemma {:induction false} ZeroWeighted(w: seq<int>, n: nat)
    requires n <= |w|
    ensures Weighted([], w, n) == 0
  {
    if n > 0 {
      ZeroWeighted(w, n - 1);
    }
  }

  /** Counting every step once: a schedule in range has as many steps as its per-actor counts add up to. */
  lemma {:induction false} LengthIsWeighted(actors: seq<Actor>, s: seq<nat>)
    requires InRange(actors, s)
    ensures |s| == Weighted(s, Ones(|actors|), |actors|)
    decreases |s|
  {
    if s == [] {
      ZeroWeighted(Ones(|actors|), |actors|);
    } else {
      var p := s[..|s| - 1];
      LengthIsWeighted(actors, p);
      WeightedSnoc(p, s[|s| - 1], Ones(|actors|), |actors|);
      assert p + [s[|s| - 1]] == s;
    }
  }

  /** In a complete schedule the counted steps are the configured ones. */
  lemma {:induction false} WeightedIsPlanned(actors: seq<Actor>, s: seq<nat>, w: seq<int>, n: nat)
    requires IsSchedule(actors, s) && n <= |actors| && n <= |w|
    ensures Weighted(s, w, n) == Planned(actors, w, n)
  {
    if n > 0 {
      WeightedIsPlanned(actors, s, w, n - 1);
    }
  }

  /** Every complete schedule runs all configured attempts and asks for the whole configured demand. */
  lemma InterleaveTotals(actors: seq<Actor>, s: seq<nat>)
    requires IsSchedule(actors, s)
    ensures |Interleave(actors, s)| == TotalAttempts(actors)
    ensures Demand(Interleave(actors, s)) == TotalDemand(actors)
  {
    LengthIsWeighted(actors, s);
    WeightedIsPlanned(actors, s, Ones(|actors|), |actors|);
    DemandOfInterleave(actors, s);
    WeightedIsPlanned(actors, s, Amounts(actors), |actors|);
  }

  /**
   * Atomicity under contention, for any configuration: whatever the
   * interleaving, the balance ends non-negative, equals the start minus what
   * succeeded, and when the actors ask for more than there is, some attempt
   * is declined.
   */
  lemma AnyInterleaving(actors: seq<Actor>, s: seq<nat>, start: int)
    requires IsSchedule(actors, s) && start >= 0
    ensures var log := Log(start, Interleave(actors, s));
      |log| == TotalAttempts(actors) &&
      Final(start, Interleave(actors, s)) >= 0 &&
      Final(start, Interleave(actors, s)) == start - SucceededTotal(log) &&
      (TotalDemand(actors) > start ==> AnyDeclined(log))
  {
    var reqs := Interleave(actors, s);
    InterleaveTotals(actors, s);
    FinalNonNegative(start, reqs);
    Conservation(start, reqs);
    if TotalDemand(actors) > start {
      Oversubscribed(start, reqs);
    }
  }

  /** Steps of actor j, n times over, are steps of i only when i is j. */
  lemma {:induction false} CountRepeat(j: nat, n: nat, i: nat)
    ensures Count(Repeat(j, n), i) == if i == j then n else 0
  {
    if n > 0 {
      assert Repeat(j, n)[..n - 1] == Repeat(j, n - 1);
      CountRepeat(j, n - 1, i);
    }
  }

  lemma {:induction false} CountConcat(a: seq<nat>, b: seq<nat>, i: nat)
    ensures Count(a + b, i) == Count(a, i) + Count(b, i)
    decreases |b|
  {
    if b == [] {
      assert a + b == a;
    } else {
      var p := b[..|b| - 1];
      assert (a + b)[..|a + b| - 1] == a + p;
      CountConcat(a, p, i);
    }
  }

  /**
   * An actor running alone: its loop of `times` steps is a complete
   * schedule of that one actor, and the requests it lets through are
   * exactly its own attempts.
   */
  lemma SoloRun(a: Actor)
    ensures IsSchedule([a], Repeat(0, Times(a)))
    ensures Interleave([a], Repeat(0, Times(a))) == Attempts(a)
  {
    CountRepeat(0, Times(a), 0);
  }

  /** The schedule in which the first n actors run to completion one after another. */
  function Sequential(actors: seq<Actor>, n: nat): (s: seq<nat>)
    requires n <= |actors|
  {
    if n == 0 then [] else Sequential(actors, n - 1) + Repeat(n - 1, Times(actors[n - 1]))
  }

  lemma {:induction false} SequentialCounts(actors: seq<Actor>, n: nat)
    requires n <= |actors|
    ensures forall k :: 0 <= k < |Sequential(actors, n)| ==> Sequential(actors, n)[k] < n
    ensures forall i :: 0 <= i < |actors| ==>
      Count(Sequential(actors, n), i) == if i < n then Times(actors[i]) else 0
  {
    if n > 0 {
      SequentialCounts(actors, n - 1);
      forall i | 0 <= i < |actors|
        ensures Count(Sequential(actors, n), i) == if i < n then Times(actors[i]) else 0
      {
        var j: nat := n - 1;
        var last: seq<nat> := Repeat(j, Times(actors[j]));
        assert Sequential(actors, n) == Sequential(actors, j) + last;
        CountConcat(Sequential(actors, j), last, i);
        CountRepeat(j, Times(actors[j]), i);
        assert Count(last, i) == if i == j then Times(actors[j]) else 0;
        assert Count(Sequential(actors, j), i) == if i < j then Times(actors[i]) else 0;
      }
    }
  }

  /** The run in which the threads happen to go one after another is one of the interleavings. */
  lemma SequentialIsSchedule(actors: seq<Actor>)
    ensures IsSchedule(actors, Sequential(actors, |actors|))
  {
    SequentialCounts(actors, |actors|);
  }

  /** The starting balance `main` gives the shared account. */
  const MainStart: int := 1000

  /** The five tasks `main` starts against the shared account. */
  function MainActors(): (actors: seq<Actor>) {
    [ Actor("Alice", 50, 5), Actor("Bob", 50, 5), Actor("Charlie", 50, 5),
      Actor("Diana", 50, 5), Actor("ATM-Kiosk", 20, 5) ]
  }

  lemma MainTotals()
    ensures TotalAttempts(MainActors()) == 25
    ensures TotalDemand(MainActors()) == 1100
  {
  }

  /**
   * The configuration of `main`: every interleaving of the 25 attempts ends
   * with a non-negative balance that equals 1000 minus what succeeded, and
   * at least one attempt is declined, since 1100 is asked for.
   */
  lemma MainScenario(s: seq<nat>)
    requires IsSchedule(MainActors(), s)
    ensures var log := Log(MainStart, Interleave(MainActors(), s));
      |log| == 25 &&
      Final(MainStart, Interleave(MainActors(), s)) >= 0 &&
      Final(MainStart, Interleave(MainActors(), s)) == MainStart - SucceededTotal(log) &&
      AnyDeclined(log)
  {
    MainTotals();
    AnyInterleaving(MainActors(), s, MainStart);
  }
}
