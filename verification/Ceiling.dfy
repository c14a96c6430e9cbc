/** The resource ceiling (pipeline/ceiling.py): how one host's memory and processors are cut into container limits. */
module Ceiling {
  import opened Basics

  datatype Budget = Budget(ramMb: int, cpu: real, ramFloorMb: int, cpuFloor: real)

  datatype Limits = Limits(memoryMb: int, cpus: real, concurrency: int)

  /** The memory that was free when a count of containers was tried, if the host told. */
  type Readings = int -> Option<int>

  function Share(b: Budget, n: int): (r: int)
    requires n >= 1
    ensures r >= 1
  {
    if b.ramMb / n > 1 then b.ramMb / n else 1
  }

  function Part(cpu: real, n: int): real
    requires n >= 1
  {
    cpu / n as real
  }

  predicate Fits(b: Budget, free: Readings, n: int)
    requires n >= 1
  {
    && n * Share(b, n) <= b.ramMb
    && (n > 1 ==> Share(b, n) >= b.ramFloorMb && Part(b.cpu, n) + 0.000000000001 >= b.cpuFloor)
    && (free(n).Some? ==> free(n).value >= Share(b, n))
  }

  /** The largest count up to `k` that fits, or one. */
  ghost predicate LargestFit(b: Budget, free: Readings, k: int, n: int) {
    && 1 <= n && (n <= k || n == 1)
    && (n == 1 || Fits(b, free, n))
    && forall m :: n < m <= k ==> !Fits(b, free, m)
  }

  lemma LargestFitUnique(b: Budget, free: Readings, k: int, m: int, n: int)
    requires LargestFit(b, free, k, m) && LargestFit(b, free, k, n)
    ensures m == n
  {
    hide Fits;
  }

  function LimitsFor(b: Budget, n: int): Limits
    requires n >= 1
  {
    Limits(Share(b, n), Part(b.cpu, n), n)
  }

  function Max(a: int, b: int): int {
    if a > b then a else b
  }

  lemma PartBack(cpu: real, n: int)
    requires n >= 1
    ensures Part(cpu, n) * n as real == cpu
  {
  }

  /** What a plan hands out in all stays within the memory budget exactly when there is a budget of at least 1 MB. */
  lemma PlanWithinBudget(b: Budget, free: Readings, k: int, n: int)
    requires LargestFit(b, free, k, n)
    ensures n * LimitsFor(b, n).memoryMb <= b.ramMb <==> b.ramMb >= 1
    ensures LimitsFor(b, n).cpus * n as real == b.cpu
  {
    PartBack(b.cpu, n);
    if n == 1 {
      assert b.ramMb / 1 == b.ramMb;
    } else {
      assert n * Share(b, n) >= 1 by { assert (n - 1) * Share(b, n) >= 0; }
    }
  }

  class ResourceCeiling {
    const budget: Budget
    var running: nat

    constructor (budget: Budget)
      ensures this.budget == budget && running == 0
    {
      this.budget := budget;
      running := 0;
    }

    /** The loop of `plan` and `acquire`: down from `k` to something that fits. */
    method Lower(k: int, free: Readings) returns (n: int)
      requires k >= 1
      ensures LargestFit(budget, free, k, n)
    {
      hide Fits;
      n := k;
      while n > 1 && !Fits(budget, free, n)
        invariant 1 <= n <= k
        invariant forall m :: n < m <= k ==> !Fits(budget, free, m)
      {
        n := n - 1;
      }
    }

    method Plan(parallel: int, free: Readings) returns (limits: Limits)
      ensures LargestFit(budget, free, parallel, limits.concurrency)
      ensures limits == LimitsFor(budget, limits.concurrency)
    {
      var n := Lower(Max(1, parallel), free);
      limits := LimitsFor(budget, n);
    }

    method Acquire(planned: int, free: Readings) returns (limits: Limits)
      modifies this
      ensures running == old(running) + 1
      ensures Granted(budget, old(running), planned, free, limits)
    {
      var n := running + 1;
      var fit := Lower(Max(n, planned), free);
      assert LargestFit(budget, free, Wanted(running, planned), fit);
      if n > fit { n := fit; }
      running := running + 1;
      limits := LimitsFor(budget, n);
    }

    method Release()
      modifies this
      ensures running == if old(running) > 0 then old(running) - 1 else 0
    {
      if running > 0 { running := running - 1; }
    }
  }

  function Wanted(running: nat, planned: int): int {
    Max(running + 1, planned)
  }

  /** A grant is the share of as many containers as run with this one, or of the largest fitting count if that is less. */
  ghost predicate Granted(b: Budget, running: nat, planned: int, free: Readings, limits: Limits) {
    exists fit :: LargestFit(b, free, Wanted(running, planned), fit)
      && 1 <= limits.concurrency == (if running + 1 > fit then fit else running + 1)
      && limits == LimitsFor(b, limits.concurrency)
  }

  // ------------------------------------------------------------- runs of many containers

  datatype Event = Start(planned: int, free: Readings, limits: Limits) | End(which: nat)

  /** The grants alive after a run, where `End(i)` ends the i-th of them. */
  ghost function Live(es: seq<Event>): seq<Limits> {
    if es == [] then []
    else
      var before := Live(es[..|es| - 1]);
      match es[|es| - 1]
      case Start(_, _, l) => before + [l]
      case End(i) => if i < |before| then before[..i] + before[i + 1..] else before
  }

  /** Every start was granted by a ceiling that counts the containers alive. */
  ghost predicate Legal(b: Budget, es: seq<Event>) {
    es != [] ==>
      && Legal(b, es[..|es| - 1])
      && match es[|es| - 1]
         case Start(planned, free, l) => Granted(b, |Live(es[..|es| - 1])|, planned, free, l)
         case End(i) => i < |Live(es[..|es| - 1])|
  }

  ghost function Memory(ls: seq<Limits>): int {
    if ls == [] then 0 else Memory(ls[..|ls| - 1]) + ls[|ls| - 1].memoryMb
  }

  /** At every moment of the run the grants alive fit the budget together. */
  ghost predicate AlwaysWithin(b: Budget, es: seq<Event>) {
    Memory(Live(es)) <= b.ramMb && (es != [] ==> AlwaysWithin(b, es[..|es| - 1]))
  }

  ghost predicate NeverTwo(es: seq<Event>) {
    |Live(es)| <= 1 && (es != [] ==> NeverTwo(es[..|es| - 1]))
  }

  lemma FirstGrant(b: Budget, planned: int, free: Readings, l: Limits)
    requires b.ramMb >= 1 && Granted(b, 0, planned, free, l)
    ensures l.memoryMb == b.ramMb
  {
    assert l.concurrency == 1 && b.ramMb / 1 == b.ramMb;
  }

  lemma MemorySnoc(ls: seq<Limits>, l: Limits)
    ensures Memory(ls + [l]) == Memory(ls) + l.memoryMb
  {
    assert (ls + [l])[..|ls|] == ls;
  }

  /** The live grants keep to the budget together exactly in the runs that never have two containers alive: the first
      grant is the whole budget, so a second one beside it goes over it. */
  lemma {:induction false} BudgetExactly(b: Budget, es: seq<Event>)
    requires b.ramMb >= 1 && Legal(b, es)
    ensures AlwaysWithin(b, es) <==> NeverTwo(es)
    ensures NeverTwo(es) ==> Live(es) == [] || (|Live(es)| == 1 && Live(es)[0].memoryMb == b.ramMb)
  {
    if es != [] {
      var before := Live(es[..|es| - 1]);
      BudgetExactly(b, es[..|es| - 1]);
      if NeverTwo(es[..|es| - 1]) {
        match es[|es| - 1] {
          case Start(planned, free, l) =>
            MemorySnoc(before, l);
            if before == [] {
              FirstGrant(b, planned, free, l);
            } else {
              MemorySnoc([], before[0]);
              assert [] + [before[0]] == before;
              assert l.memoryMb >= 1;
            }
          case End(i) =>
            assert Live(es) == [];
        }
      }
    }
  }

  function Untold(n: int): Option<int> {
    None
  }

  lemma Halves(b: Budget)
    requires b == Budget(100, 1.0, 0, 0.0)
    ensures Granted(b, 0, 1, Untold, Limits(100, 1.0, 1)) && Granted(b, 1, 1, Untold, Limits(50, 0.5, 2))
  {
    assert Share(b, 1) == 100 && Share(b, 2) == 50;
    assert Part(b.cpu, 1) == 1.0 && Part(b.cpu, 2) == 0.5;
    hide Part;
    assert Fits(b, Untold, 2);
    hide Share, Fits;
    assert LargestFit(b, Untold, Wanted(0, 1), 1) && LargestFit(b, Untold, Wanted(1, 1), 2);
  }

  /** Two containers that overlap on a host with 100 MB: the first is granted all of it, and the second half of it. */
  lemma TwoOverlap()
    ensures var b := Budget(100, 1.0, 0, 0.0);
      var es := [Start(1, Untold, Limits(100, 1.0, 1)), Start(1, Untold, Limits(50, 0.5, 2))];
      Legal(b, es) && Memory(Live(es)) == 150 > b.ramMb
  {
    var b, l1, l2 := Budget(100, 1.0, 0, 0.0), Limits(100, 1.0, 1), Limits(50, 0.5, 2);
    var es := [Start(1, Untold, l1), Start(1, Untold, l2)];
    Halves(b);
    hide Granted, Untold;
    assert es[..1] == [es[0]] && [es[0]][..0] == [];
    assert Live([es[0]]) == [] + [l1] && Live(es) == [l1] + [l2];
    assert Legal(b, []) && Legal(b, [es[0]]);
    MemorySnoc([], l1);
    MemorySnoc([l1], l2);
    assert [] + [l1] == [l1];
  }
}
