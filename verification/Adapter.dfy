/** One tool invocation (pipeline/adapter.py): retries, backoff and fallback over the breaker, the ceiling and the pool. */
module Adapter {
  import opened Basics
  import Text
  import B = Breaker
  import C = Ceiling
  import P = ProxyPool

  datatype Tool = Tool(name: string, hooked: bool, fallback: Option<string>)

  /** What a container run came to, and when the breaker was told. */
  datatype Completed = Completed(code: int, started: real, ended: real, toldAt: real)

  /** One container run of an invocation. */
  datatype Run = Run(
    tool: string, moduleName: string, attempt: nat, probe: bool, index: int, url: string, limits: C.Limits, done: Completed)

  datatype Result = Done(code: int, attempts: nat, paused: bool, usedFallback: bool) | Raised

  const STOPPED := Done(130, 0, false, false)

  predicate IsProbe(asked: bool, tool: string) {
    asked || Text.EndsWith(tool, "-canary") || Text.EndsWith(tool, "-probe")
  }

  function Duration(c: Completed): real {
    if c.ended - c.started > 0.0 then c.ended - c.started else 0.0
  }

  /** What the breaker is told of a run. */
  function Telling(r: Run): B.Event {
    var code := r.done.code;
    if r.probe then B.Event(r.done.toldAt, code != 0, Some(Duration(r.done)))
    else B.Event(r.done.toldAt, code != 0 && code != 124 && code != 130, None)
  }

  function Told(runs: seq<Run>): (ops: seq<B.Op>)
    ensures |ops| == |runs|
  {
    seq(|runs|, k requires 0 <= k < |runs| => B.Record(Telling(runs[k])))
  }

  /** What the pool is told of a run. */
  function Outcomes(runs: seq<Run>): (os: seq<P.Outcome>)
    ensures |os| == |runs|
  {
    seq(|runs|, k requires 0 <= k < |runs| => OutcomeOf(runs[k]))
  }

  function OutcomeOf(r: Run): P.Outcome {
    P.Outcome(r.index, r.done.code == 0, Duration(r.done), r.tool, r.moduleName, Some(r.attempt))
  }

  // ------------------------------------------------------------- what a loop of attempts must look like

  /** Consecutive answers of the runner, numbered from one, with no run after a success. */
  ghost predicate Shape(runs: seq<Run>, tool: Tool, m: string, asked: bool, runner: nat -> Completed, first: nat) {
    && (forall k :: 0 <= k < |runs| ==>
         && runs[k].tool == tool.name && runs[k].moduleName == m && runs[k].attempt == k + 1
         && runs[k].probe == IsProbe(asked, tool.name) && runs[k].done == runner(first + k))
    && (forall k :: 0 <= k < |runs| - 1 ==> runs[k].done.code != 0)
  }

  ghost predicate Succeeded(runs: seq<Run>) {
    runs != [] && runs[|runs| - 1].done.code == 0
  }

  /** How an attempt loop ends: with a success, with the last failure, or refused by the breaker. */
  ghost function Verdict(runs: seq<Run>, retries: int): Result {
    if retries < 0 then Raised
    else if Succeeded(runs) then Done(0, |runs|, false, false)
    else if |runs| == retries + 1 then Done(runs[retries].done.code, |runs|, false, false)
    else Done(1, |runs|, true, false)
  }

  /** Failures followed by a sleep: all of them but the one of the last attempt. */
  ghost function Slept(runs: seq<Run>, retries: int): nat {
    var failures := if Succeeded(runs) then |runs| - 1 else |runs|;
    if failures <= retries then failures else if retries > 0 then retries else 0
  }

  function Pow2(n: nat): nat {
    if n == 0 then 1 else 2 * Pow2(n - 1)
  }

  /** The pause after the failure that `n` failures came before. */
  function Backoff(base: real, n: nat): real {
    base * Pow2(n) as real
  }

  function Backoffs(base: real, n: nat): seq<real> {
    if n == 0 then [] else Backoffs(base, n - 1) + [Backoff(base, n - 1)]
  }

  ghost predicate RowFor(row: P.Row, tool: Tool, m: string, index: int, attempt: nat) {
    row.tool == tool.name && row.moduleName == m && row.index == index && row.attempt == Some(attempt)
  }

  /** The ledger rows of a loop: one per attempt of a hooked tool, numbered from one; one DIRECT row otherwise. */
  ghost predicate Ledger(runs: seq<Run>, tool: Tool, m: string, entries: seq<string>, rows: seq<P.Row>) {
    if tool.hooked then
      && |rows| == |runs|
      && forall k :: 0 <= k < |runs| ==>
           && 0 <= runs[k].index < |entries| && runs[k].url == entries[runs[k].index]
           && RowFor(rows[k], tool, m, runs[k].index, k + 1)
    else
      && rows == (if runs == [] then [] else [P.Row(tool.name, m, -1, Some(1), [], false)])
      && forall k :: 0 <= k < |runs| ==> runs[k].index == -1 && runs[k].url == ""
  }

  ghost predicate Unproxied(runs: seq<Run>) {
    forall k :: 0 <= k < |runs| ==> runs[k].index == -1 && runs[k].url == ""
  }

  /** The breaker heard `ops` about `m`, in order, and nothing about any other module. */
  ghost predicate Heard(before: map<string, B.Life>, after: map<string, B.Life>, m: string, ops: seq<B.Op>) {
    && B.LifeIn(after, m) == B.Life(B.LifeIn(before, m).start, B.LifeIn(before, m).ops + ops)
    && forall k :: k != m ==> B.LifeIn(after, k) == B.LifeIn(before, k)
  }

  /** No run began on a paused module. */
  ghost predicate Permitted(cfg: B.Config, life: B.Life, runs: seq<Run>)
    requires B.Usable(cfg)
  {
    forall k :: 0 <= k < |runs| ==> !B.Replay(cfg, life.start, life.ops + Told(runs[..k])).paused
  }

  /** Every run held one grant of the ceiling, made while `running` others held theirs. */
  ghost predicate Granted(b: C.Budget, running: nat, planned: int, free: C.Readings, runs: seq<Run>) {
    forall k :: 0 <= k < |runs| ==> C.Granted(b, running, planned, free, runs[k].limits)
  }

  // ------------------------------------------------------------- one run more

  lemma ToldNext(runs: seq<Run>, r: Run)
    ensures Told(runs + [r]) == Told(runs) + [B.Record(Telling(r))]
    ensures Outcomes(runs + [r]) == Outcomes(runs) + [OutcomeOf(r)]
  {
  }

  lemma ShapeNext(runs: seq<Run>, r: Run, tool: Tool, m: string, asked: bool, runner: nat -> Completed, first: nat)
    requires Shape(runs, tool, m, asked, runner, first) && !Succeeded(runs)
    requires r.tool == tool.name && r.moduleName == m && r.attempt == |runs| + 1
    requires r.probe == IsProbe(asked, tool.name) && r.done == runner(first + |runs|)
    ensures Shape(runs + [r], tool, m, asked, runner, first)
  {
    hide IsProbe;
    forall k | 0 <= k < |runs| ensures runs[k].done.code != 0 {
      if k == |runs| - 1 { assert !Succeeded(runs); }
    }
  }

  lemma SleptNext(sleeps: seq<real>, base: real, runs: seq<Run>, r: Run, retries: int)
    requires !Succeeded(runs) && |runs| <= retries
    ensures sleeps + Backoffs(base, Slept(runs + [r], retries)) == sleeps + Backoffs(base, Slept(runs, retries))
      + if r.done.code != 0 && |runs| < retries then [Backoff(base, |runs|)] else []
  {
    assert (runs + [r])[|runs|] == r;
    assert Slept(runs, retries) == |runs|;
  }

  lemma GrantedNext(b: C.Budget, running: nat, planned: int, free: C.Readings, runs: seq<Run>, r: Run)
    requires Granted(b, running, planned, free, runs) && C.Granted(b, running, planned, free, r.limits)
    ensures Granted(b, running, planned, free, runs + [r])
  {
    hide C.Granted;
  }

  lemma UnproxiedNext(runs: seq<Run>, r: Run)
    requires Unproxied(runs) && r.index == -1 && r.url == ""
    ensures Unproxied(runs + [r])
  {
  }

  lemma NextRun(
    runs: seq<Run>, r: Run, tool: Tool, m: string, asked: bool, runner: nat -> Completed, first: nat,
    b: C.Budget, running: nat, planned: int, free: C.Readings)
    requires Shape(runs, tool, m, asked, runner, first) && !Succeeded(runs)
    requires r.tool == tool.name && r.moduleName == m && r.attempt == |runs| + 1
    requires r.probe == IsProbe(asked, tool.name) && r.done == runner(first + |runs|)
    requires Granted(b, running, planned, free, runs) && C.Granted(b, running, planned, free, r.limits)
    ensures Shape(runs + [r], tool, m, asked, runner, first)
    ensures Granted(b, running, planned, free, runs + [r])
    ensures Told(runs + [r]) == Told(runs) + [B.Record(Telling(r))]
    ensures Outcomes(runs + [r]) == Outcomes(runs) + [OutcomeOf(r)]
  {
    hide Shape, Granted, Told, Outcomes, Succeeded, OutcomeOf, Telling, IsProbe, C.Granted;
    ShapeNext(runs, r, tool, m, asked, runner, first);
    GrantedNext(b, running, planned, free, runs, r);
    ToldNext(runs, r);
  }

  lemma HeardNothing(lives: map<string, B.Life>, m: string)
    ensures Heard(lives, lives, m, [])
    ensures Heard(lives, lives[m := B.LifeIn(lives, m)], m, [])
  {
    var l := B.LifeIn(lives, m);
    assert l.ops + [] == l.ops;
    assert B.Life(l.start, l.ops + []) == l;
    forall k | k != m ensures B.LifeIn(lives[m := l], k) == B.LifeIn(lives, k) {
    }
  }

  lemma HeardNext(a: map<string, B.Life>, b: map<string, B.Life>, c: map<string, B.Life>, m: string, p: seq<B.Op>, q: seq<B.Op>)
    requires Heard(a, b, m, p) && Heard(b, c, m, q)
    ensures Heard(a, c, m, p + q)
  {
    hide B.LifeIn;
    var l := B.LifeIn(a, m);
    assert B.LifeIn(c, m) == B.Life(l.start, (l.ops + p) + q);
    assert (l.ops + p) + q == l.ops + (p + q);
    assert B.LifeIn(c, m) == B.Life(l.start, l.ops + (p + q));
  }

  lemma HeardAgain(a: map<string, B.Life>, b: map<string, B.Life>, m: string, p: seq<B.Op>)
    requires Heard(a, b, m, p)
    ensures Heard(a, b[m := B.LifeIn(b, m)], m, p)
    ensures B.LifeIn(b, m) == B.Life(B.LifeIn(a, m).start, B.LifeIn(a, m).ops + p)
  {
    HeardNothing(b, m);
    HeardNext(a, b, b[m := B.LifeIn(b, m)], m, p, []);
    assert p + [] == p;
  }

  lemma PermittedNext(cfg: B.Config, life: B.Life, runs: seq<Run>, r: Run)
    requires B.Usable(cfg) && Permitted(cfg, life, runs)
    requires !B.Replay(cfg, life.start, life.ops + Told(runs)).paused
    ensures Permitted(cfg, life, runs + [r])
  {
    hide B.Replay, Told;
    forall k | 0 <= k < |runs + [r]| ensures !B.Replay(cfg, life.start, life.ops + Told((runs + [r])[..k])).paused {
      assert (runs + [r])[..k] == if k < |runs| then runs[..k] else runs;
    }
  }

  lemma LedgerNext(runs: seq<Run>, tool: Tool, m: string, entries: seq<string>, rows: seq<P.Row>, r: Run,
                   added: seq<P.Row>)
    requires Ledger(runs, tool, m, entries, rows)
    requires tool.hooked ==> 0 <= r.index < |entries| && r.url == entries[r.index]
    requires tool.hooked ==> |added| == 1 && RowFor(added[0], tool, m, r.index, |runs| + 1)
    requires !tool.hooked ==> r.index == -1 && r.url == ""
    requires !tool.hooked ==> added == if runs == [] then [P.Row(tool.name, m, -1, Some(1), [], false)] else []
    ensures Ledger(runs + [r], tool, m, entries, rows + added)
  {
    hide RowFor;
    if tool.hooked {
      assert (rows + added)[|runs|] == added[0];
    }
  }

  /** The breaker heard `p` about `m` and then `q` about `f`, and nothing else. */
  ghost predicate HeardBoth(
    before: map<string, B.Life>, after: map<string, B.Life>, m: string, p: seq<B.Op>, f: string, q: seq<B.Op>)
  {
    exists mid :: Heard(before, mid, m, p) && Heard(mid, after, f, q)
  }

  lemma HeardOne(before: map<string, B.Life>, after: map<string, B.Life>, m: string, p: seq<B.Op>, f: string)
    requires Heard(before, after, m, p)
    ensures HeardBoth(before, after, m, p, f, [])
  {
    HeardNothing(after, f);
    hide Heard;
  }

  lemma BothHeard(
    a: map<string, B.Life>, b: map<string, B.Life>, c: map<string, B.Life>, m: string, p: seq<B.Op>, f: string, q: seq<B.Op>)
    requires Heard(a, b, m, p) && Heard(b, c, f, q)
    ensures HeardBoth(a, c, m, p, f, q)
  {
    hide Heard;
  }

  lemma HeardLater(
    a: map<string, B.Life>, b: map<string, B.Life>, c: map<string, B.Life>, m: string, p: seq<B.Op>, f: string, q: seq<B.Op>)
    requires Heard(a, b, m, []) && HeardBoth(b, c, m, p, f, q)
    ensures HeardBoth(a, c, m, p, f, q)
  {
    hide Heard;
    var mid :| Heard(b, mid, m, p) && Heard(mid, c, f, q);
    HeardNext(a, b, mid, m, [], p);
    assert [] + p == p;
  }

  /** The ledger and the telemetry after the runs `s` of `t` on `m`. */
  ghost predicate LedgerOne(
    s: seq<Run>, t: Tool, m: string, entries: seq<string>,
    rows0: seq<P.Row>, rows: seq<P.Row>, outcomes0: seq<P.Outcome>, outcomes: seq<P.Outcome>)
  {
    && |rows| >= |rows0| && rows[..|rows0|] == rows0
    && Ledger(s, t, m, entries, rows[|rows0|..])
    && outcomes == outcomes0 + Outcomes(s)
  }

  lemma LedgerOneNext(
    s: seq<Run>, t: Tool, m: string, entries: seq<string>, rows0: seq<P.Row>, rows: seq<P.Row>,
    outcomes0: seq<P.Outcome>, outcomes: seq<P.Outcome>, r: Run, added: seq<P.Row>)
    requires LedgerOne(s, t, m, entries, rows0, rows, outcomes0, outcomes)
    requires t.hooked ==> 0 <= r.index < |entries| && r.url == entries[r.index]
    requires t.hooked ==> |added| == 1 && RowFor(added[0], t, m, r.index, |s| + 1)
    requires !t.hooked ==> r.index == -1 && r.url == ""
    requires !t.hooked ==> added == if s == [] then [P.Row(t.name, m, -1, Some(1), [], false)] else []
    ensures LedgerOne(s + [r], t, m, entries, rows0, rows + added, outcomes0, outcomes + [OutcomeOf(r)])
  {
    hide Ledger, RowFor;
    LedgerNext(s, t, m, entries, rows[|rows0|..], r, added);
    ToldNext(s, r);
    hide Outcomes;
    assert (rows + added)[|rows0|..] == rows[|rows0|..] + added;
    assert (outcomes0 + Outcomes(s)) + [OutcomeOf(r)] == outcomes0 + (Outcomes(s) + [OutcomeOf(r)]);
  }

  lemma LedgerTwo(
    s1: seq<Run>, t: Tool, m: string, s2: seq<Run>, u: Tool, f: string, entries: seq<string>, rows0: seq<P.Row>,
    rows1: seq<P.Row>, rows2: seq<P.Row>, outcomes0: seq<P.Outcome>, outcomes1: seq<P.Outcome>, outcomes2: seq<P.Outcome>)
    requires LedgerOne(s1, t, m, entries, rows0, rows1, outcomes0, outcomes1)
    requires LedgerOne(s2, u, f, entries, rows1, rows2, outcomes1, outcomes2)
    ensures LedgerBoth(s1, t, m, s2, u, f, entries, rows0, rows2, outcomes0, outcomes2)
  {
    hide Ledger, Outcomes;
    var a, b := rows1[|rows0|..], rows2[|rows1|..];
    assert rows2 == rows0 + a + b;
  }

  lemma LedgerSame(s: seq<Run>, u: Tool, f: string, entries: seq<string>, rows: seq<P.Row>, outcomes: seq<P.Outcome>)
    requires s == []
    ensures LedgerOne(s, u, f, entries, rows, rows, outcomes, outcomes)
  {
    assert rows[|rows|..] == [] && outcomes + [] == outcomes && Outcomes(s) == [];
  }

  /** The ledger and the telemetry after the runs `s1` of `t` on `m` and then the runs `s2` of `u` on `f`. */
  ghost predicate LedgerBoth(
    s1: seq<Run>, t: Tool, m: string, s2: seq<Run>, u: Tool, f: string, entries: seq<string>,
    rows0: seq<P.Row>, rows: seq<P.Row>, outcomes0: seq<P.Outcome>, outcomes: seq<P.Outcome>)
  {
    && outcomes == outcomes0 + Outcomes(s1) + Outcomes(s2)
    && exists rows1, rows2 :: Ledger(s1, t, m, entries, rows1) && Ledger(s2, u, f, entries, rows2)
         && rows == rows0 + rows1 + rows2
  }

  class Adapter {
    const breaker: B.CircuitBreaker
    const ceiling: C.ResourceCeiling
    const pool: P.Pool?
    const tools: map<string, Tool>
    const retries: int
    const base: real
    /** The host and the containers: free memory, and the n-th run's result. */
    const free: C.Readings
    const runner: nat -> Completed
    var done: nat
    var sleeps: seq<real>
    ghost var runs: seq<Run>

    constructor (breaker: B.CircuitBreaker, ceiling: C.ResourceCeiling, pool: P.Pool?, tools: map<string, Tool>,
                 retries: int, base: real, free: C.Readings, runner: nat -> Completed)
      requires breaker.Valid() && (pool != null ==> pool.Valid() && "" !in pool.entries)
      requires forall n :: n in tools ==> tools[n].name == n
      ensures Valid() && runs == [] && sleeps == [] && done == 0
      ensures this.breaker == breaker && this.ceiling == ceiling && this.pool == pool && this.tools == tools
      ensures this.retries == retries && this.base == base && this.free == free && this.runner == runner
    {
      this.breaker, this.ceiling, this.pool, this.tools := breaker, ceiling, pool, tools;
      this.retries, this.base, this.free, this.runner := retries, base, free, runner;
      done, sleeps, runs := 0, [], [];
    }

    ghost predicate Valid()
      reads breaker, pool
    {
      && breaker.Valid() && (pool != null ==> pool.Valid() && "" !in pool.entries)
      && forall n :: n in tools ==> tools[n].name == n
    }

    /** What an attempt loop remembers of the pool between two attempts. */
    ghost predicate Idle(first: bool, index: int, url: string, tool: Tool)
    {
      if first then index == -1 && url == ""
      else if pool != null && tool.hooked then index >= 0
      else index == -1 && url == ""
    }

    /** `_once`: acquire, run, release, tell the breaker. */
    method Once(tool: Tool, m: string, asked: bool, planned: int, attempt: nat, index: int, url: string)
      returns (c: Completed, ghost r: Run)
      requires breaker.Valid()
      modifies this, breaker, ceiling
      ensures breaker.Valid() && ceiling.running == old(ceiling.running)
      ensures c == runner(old(done)) && done == old(done) + 1 && sleeps == old(sleeps)
      ensures r == Run(tool.name, m, attempt, IsProbe(asked, tool.name), index, url, r.limits, c)
      ensures C.Granted(ceiling.budget, old(ceiling.running), planned, free, r.limits)
      ensures runs == old(runs) + [r]
      ensures Heard(old(breaker.lives), breaker.lives, m, [B.Record(Telling(r))])
    {
      hide B.Apply, B.Consistent, C.Granted;
      var limits := ceiling.Acquire(planned, free);
      c := runner(done);
      done := done + 1;
      ceiling.Release();
      var success := c.code == 0;
      r := Run(tool.name, m, attempt, IsProbe(asked, tool.name), index, url, limits, c);
      if IsProbe(asked, tool.name) {
        breaker.Record(m, c.toldAt, success, Some(Duration(c)), c.code == 124);
      } else if c.code == 124 || c.code == 130 {
        breaker.Record(m, c.toldAt, true, None, false);
      } else {
        breaker.Record(m, c.toldAt, success, None, false);
      }
      runs := runs + [r];
    }

    /** The pool entry of an attempt: a fresh one for a hooked tool, nothing more after the DIRECT row otherwise. */
    method NextEntry(tool: Tool, m: string, attempt: nat, current: int, currentUrl: string)
      returns (index: int, url: string, ghost rows: seq<P.Row>)
      requires pool != null ==> pool.Valid()
      modifies pool
      ensures pool == null ==> index == current && url == currentUrl
      ensures pool != null ==> pool.Valid() && pool.rows == old(pool.rows) + rows && pool.outcomes == old(pool.outcomes)
      ensures pool != null && attempt > 1 && current < 0 ==> index == current && url == currentUrl && rows == []
      ensures pool != null && (attempt == 1 || current >= 0) && !tool.hooked ==>
        index == -1 && url == currentUrl && rows == [P.Row(tool.name, m, -1, Some(attempt), [], false)]
      ensures pool != null && (attempt == 1 || current >= 0) && tool.hooked && "" !in pool.entries ==>
        (|rows| == 1 && 0 <= index < |pool.entries| && url == pool.entries[index] && RowFor(rows[0], tool, m, index, attempt))
    {
      hide P.Remembers, P.PickOf, P.HealthySet, P.Cycle, P.Distance;
      index, url, rows := current, currentUrl, [];
      if pool != null && (attempt == 1 || current >= 0) {
        var given, i := pool.Assign(tool.name, m, tool.hooked, Some(attempt));
        if given != "" { url := given; }
        index := i;
        rows := pool.rows[|old(pool.rows)|..];
      }
    }

    method Report(index: int, c: Completed, tool: Tool, m: string, attempt: nat)
      requires pool != null ==> pool.Valid()
      modifies pool
      ensures pool != null ==> pool.Valid() && pool.rows == old(pool.rows)
      ensures pool != null ==>
        pool.outcomes == old(pool.outcomes) + [P.Outcome(index, c.code == 0, Duration(c), tool.name, m, Some(attempt))]
    {
      if pool != null {
        pool.RecordOutcome(P.Outcome(index, c.code == 0, Duration(c), tool.name, m, Some(attempt)));
      }
    }

    /** The body of one attempt behind the breaker's check. */
    method Attempt(tool: Tool, m: string, asked: bool, planned: int, attempt: nat, current: int, currentUrl: string)
      returns (c: Completed, index: int, url: string, ghost r: Run, ghost added: seq<P.Row>)
      requires Valid() && attempt >= 1
      requires Idle(attempt == 1, current, currentUrl, tool)
      modifies this, breaker, ceiling, pool
      ensures Valid() && ceiling.running == old(ceiling.running) && sleeps == old(sleeps)
      ensures c == runner(old(done)) && done == old(done) + 1 && runs == old(runs) + [r]
      ensures r == Run(tool.name, m, attempt, IsProbe(asked, tool.name), index, url, r.limits, c)
      ensures C.Granted(ceiling.budget, old(ceiling.running), planned, free, r.limits)
      ensures Heard(old(breaker.lives), breaker.lives, m, [B.Record(Telling(r))])
      ensures Idle(false, index, url, tool)
      ensures pool != null ==> pool.rows == old(pool.rows) + added && pool.outcomes == old(pool.outcomes) + [OutcomeOf(r)]
      ensures pool != null && tool.hooked ==>
        (|added| == 1 && 0 <= index < |pool.entries| && url == pool.entries[index] && RowFor(added[0], tool, m, index, attempt))
      ensures pool != null && !tool.hooked ==>
        added == if attempt == 1 then [P.Row(tool.name, m, -1, Some(1), [], false)] else []
    {
      hide Heard, C.Granted, IsProbe, Telling, B.Consistent, P.Remembers;
      index, url, added := NextEntry(tool, m, attempt, current, currentUrl);
      c, r := Once(tool, m, asked, planned, attempt, index, url);
      Report(index, c, tool, m, attempt);
    }

    /** What a loop of attempts has done since the breaker's lives were `lives` and the runner stood at `first`. */
    ghost predicate Progress(seg: seq<Run>, tool: Tool, m: string, asked: bool, planned: int, running: nat, first: nat,
                             lives: map<string, B.Life>)
      reads breaker
    {
      && Shape(seg, tool, m, asked, runner, first)
      && Granted(ceiling.budget, running, planned, free, seg)
      && Heard(lives, breaker.lives, m, Told(seg))
      && B.Usable(breaker.cfg) && Permitted(breaker.cfg, B.LifeIn(lives, m), seg)
    }

    ghost function Rows(): seq<P.Row>
      reads pool
    {
      if pool == null then [] else pool.rows
    }

    ghost function Telemetry(): seq<P.Outcome>
      reads pool
    {
      if pool == null then [] else pool.outcomes
    }

    /** What the pool holds after a loop of attempts that found `rows0` and `outcomes0` in it. */
    ghost predicate Pooled(seg: seq<Run>, tool: Tool, m: string, rows0: seq<P.Row>, outcomes0: seq<P.Outcome>)
      reads pool
    {
      if pool == null then Unproxied(seg)
      else LedgerOne(seg, tool, m, pool.entries, rows0, pool.rows, outcomes0, pool.outcomes)
    }

    /** One turn of the attempt loop, `seg` being the turns before. */
    method Turn(tool: Tool, m: string, asked: bool, planned: int, attempt: nat, current: int, currentUrl: string,
                ghost seg: seq<Run>, ghost first: nat, ghost lives: map<string, B.Life>, ghost rows0: seq<P.Row>,
                ghost outcomes0: seq<P.Outcome>)
      returns (ok: bool, c: Completed, index: int, url: string, ghost r: Run)
      requires Valid() && attempt == |seg| + 1 <= retries + 1 && !Succeeded(seg) && done == first + |seg|
      requires Idle(attempt == 1, current, currentUrl, tool)
      requires Progress(seg, tool, m, asked, planned, ceiling.running, first, lives)
      requires Pooled(seg, tool, m, rows0, outcomes0)
      modifies this, breaker, ceiling, pool
      ensures Valid() && ceiling.running == old(ceiling.running) && sleeps == old(sleeps)
      ensures !ok ==> B.RowIn(breaker.rows, m).paused && runs == old(runs) && done == old(done)
      ensures !ok ==> Progress(seg, tool, m, asked, planned, ceiling.running, first, lives)
      ensures !ok ==> Pooled(seg, tool, m, rows0, outcomes0)
      ensures ok ==> runs == old(runs) + [r] && done == old(done) + 1 && r.done == c && Idle(false, index, url, tool)
      ensures ok ==> Progress(seg + [r], tool, m, asked, planned, ceiling.running, first, lives)
      ensures ok ==> Pooled(seg + [r], tool, m, rows0, outcomes0)
    {
      hide B.Apply, B.Consistent, B.Replay, C.Granted, Granted, Heard, Permitted, Shape, Ledger, Told, Outcomes;
      hide Unproxied, RowFor, Telling, P.Remembers, Succeeded, IsProbe, LedgerOne;
      ghost var life := B.LifeIn(lives, m);
      HeardAgain(lives, breaker.lives, m, Told(seg));
      breaker.RowReplays(m);
      ok := breaker.Allow(m);
      c, index, url := Completed(1, 0.0, 0.0, 0.0), current, currentUrl;
      if !ok {
        r := Run(tool.name, m, attempt, false, -1, "", C.Limits(0, 0.0, 0), c);
        return;
      }
      ghost var lives1 := breaker.lives;
      ghost var added;
      c, index, url, r, added := Attempt(tool, m, asked, planned, attempt, current, currentUrl);
      HeardNext(lives, lives1, breaker.lives, m, Told(seg), [B.Record(Telling(r))]);
      NextRun(seg, r, tool, m, asked, runner, first, ceiling.budget, ceiling.running, planned, free);
      PermittedNext(breaker.cfg, life, seg, r);
      if pool == null {
        UnproxiedNext(seg, r);
      } else {
        LedgerOneNext(seg, tool, m, pool.entries, rows0, old(pool.rows), outcomes0, old(pool.outcomes), r, added);
      }
    }

    /** `_attempt_loop`. */
    method AttemptLoop(tool: Tool, m: string, asked: bool, planned: int) returns (result: Result, ghost seg: seq<Run>)
      requires Valid()
      modifies this, breaker, ceiling, pool
      ensures Valid() && ceiling.running == old(ceiling.running)
      ensures result == Verdict(seg, retries) && |seg| <= (if retries >= 0 then retries + 1 else 0)
      ensures runs == old(runs) + seg && done == old(done) + |seg|
      ensures Progress(seg, tool, m, asked, planned, ceiling.running, old(done), old(breaker.lives))
      ensures Pooled(seg, tool, m, old(Rows()), old(Telemetry()))
      ensures sleeps == old(sleeps) + Backoffs(base, Slept(seg, retries))
      ensures result.Done? && result.paused ==> B.RowIn(breaker.rows, m).paused
    {
      hide B.Apply, B.Consistent, B.Replay, Progress, Pooled, P.Remembers;
      seg := [];
      ghost var rows0, outcomes0 := Rows(), Telemetry();
      ghost var lives, first := breaker.lives, done;
      var index, url := -1, "";
      var attempt := 0;
      var last := None;
      Begin(tool, m, asked, planned);
      while attempt < retries + 1
        invariant Valid() && 0 <= attempt == |seg| <= (if retries >= 0 then retries + 1 else 0)
        invariant runs == old(runs) + seg && done == first + |seg| && !Succeeded(seg)
        invariant sleeps == old(sleeps) + Backoffs(base, Slept(seg, retries))
        invariant ceiling.running == old(ceiling.running)
        invariant Progress(seg, tool, m, asked, planned, ceiling.running, first, lives)
        invariant Pooled(seg, tool, m, rows0, outcomes0)
        invariant Idle(attempt == 0, index, url, tool)
        invariant last == if seg == [] then None else Some(seg[|seg| - 1].done)
      {
        var ok, c;
        ghost var r;
        ok, c, index, url, r := Turn(tool, m, asked, planned, attempt + 1, index, url, seg, first, lives, rows0, outcomes0);
        if !ok {
          return Done(1, attempt, true, false), seg;
        }
        SleptNext(old(sleeps), base, seg, r, retries);
        seg := seg + [r];
        last := Some(c);
        if c.code == 0 {
          return Done(0, attempt + 1, false, false), seg;
        }
        if attempt < retries {
          sleeps := sleeps + [Backoff(base, attempt)];
        }
        attempt := attempt + 1;
      }
      result := if last.None? then Raised else Done(last.value.code, attempt, false, false);
    }

    lemma Begin(tool: Tool, m: string, asked: bool, planned: int)
      requires Valid()
      ensures Progress([], tool, m, asked, planned, ceiling.running, done, breaker.lives)
      ensures Pooled([], tool, m, Rows(), Telemetry())
    {
      hide B.Replay, B.Consistent, P.Remembers, Heard;
      HeardNothing(breaker.lives, m);
      breaker.UsableNow();
      assert Told([]) == [];
      if pool != null { LedgerSame([], tool, m, pool.entries, pool.rows, pool.outcomes); }
    }

    /** The tool a failed invocation falls back to. */
    ghost function FallbackOf(tool: Tool, first: Result, allow: bool): Option<string> {
      if first.Done? && first.code != 0 && allow && tool.fallback.Some? && tool.fallback.value != "" then tool.fallback
      else None
    }

    ghost function Key(tool: Tool): string {
      if tool.fallback.Some? then tool.fallback.value else tool.name
    }

    ghost function Spare(tool: Tool): Tool {
      if Key(tool) in tools then tools[Key(tool)] else tool
    }

    /** `s1` and `s2` are the attempts of the tool and of its fallback, and `result` is what they come to. */
    ghost predicate Served(tool: Tool, m: string, asked: bool, allow: bool, first: nat,
                           result: Result, s1: seq<Run>, s2: seq<Run>)
    {
      && Shape(s1, tool, m, asked, runner, first)
      && match FallbackOf(tool, Verdict(s1, retries), allow)
         case None => s2 == [] && result == Verdict(s1, retries)
         case Some(f) =>
           if f !in tools then s2 == [] && result == Raised
           else
             && Shape(s2, tools[f], f, asked, runner, first + |s1|)
             && result == FromFallback(Verdict(s2, retries))
    }

    function FromFallback(r: Result): Result {
      match r case Raised => Raised case Done(code, attempts, paused, _) => Done(code, attempts, paused, true)
    }

    /** The ledger and the telemetry since the pool held `rows0` and `outcomes0`. */
    ghost predicate PooledBoth(tool: Tool, m: string, s1: seq<Run>, s2: seq<Run>, rows0: seq<P.Row>,
                               outcomes0: seq<P.Outcome>)
      reads pool
    {
      if pool == null then Unproxied(s1) && Unproxied(s2)
      else LedgerBoth(s1, tool, m, s2, Spare(tool), Key(tool), pool.entries, rows0, pool.rows, outcomes0, pool.outcomes)
    }

    /** The two attempt loops of `invoke`. */
    method Serve(tool: Tool, m: string, asked: bool, planned: int, allow: bool)
      returns (result: Result, ghost s1: seq<Run>, ghost s2: seq<Run>)
      requires Valid() && tool.name in tools && tools[tool.name] == tool
      modifies this, breaker, ceiling, pool
      ensures Valid() && ceiling.running == old(ceiling.running)
      ensures |s1| + |s2| <= if retries >= 0 then 2 * (retries + 1) else 0
      ensures runs == old(runs) + s1 + s2 && done == old(done) + |s1| + |s2|
      ensures sleeps == old(sleeps) + Backoffs(base, Slept(s1, retries)) + Backoffs(base, Slept(s2, retries))
      ensures Served(tool, m, asked, allow, old(done), result, s1, s2)
      ensures Granted(ceiling.budget, ceiling.running, planned, free, s1)
      ensures Granted(ceiling.budget, ceiling.running, planned, free, s2)
      ensures HeardBoth(old(breaker.lives), breaker.lives, m, Told(s1), Key(tool), Told(s2))
      ensures PooledBoth(tool, m, s1, s2, old(Rows()), old(Telemetry()))
    {
      hide Granted, C.Granted, Heard, HeardBoth, Shape, Permitted, B.Replay, Unproxied, Verdict, Slept, Backoffs;
      hide B.Consistent, B.RowIn, LedgerOne, LedgerBoth, P.Remembers, Told, Outcomes;
      ghost var lives0, rows0, outcomes0 := breaker.lives, Rows(), Telemetry();
      s2 := [];
      result, s1 := AttemptLoop(tool, m, asked, planned);
      ghost var lives1, rows1, outcomes1 := breaker.lives, Rows(), Telemetry();
      Nothing();
      if result.Raised? || result.code == 0 || !allow || tool.fallback.None? || tool.fallback.value == "" {
        HeardOne(lives0, lives1, m, Told(s1), Key(tool));
        Settle(tool, m, s1, s2, rows0, outcomes0, rows1, outcomes1);
        return;
      }
      if tool.fallback.value !in tools {
        HeardOne(lives0, lives1, m, Told(s1), Key(tool));
        Settle(tool, m, s1, s2, rows0, outcomes0, rows1, outcomes1);
        result := Raised;
        return;
      }
      var fb := tools[tool.fallback.value];
      result, s2 := AttemptLoop(fb, fb.name, asked, planned);
      BothHeard(lives0, lives1, breaker.lives, m, Told(s1), fb.name, Told(s2));
      Settle(tool, m, s1, s2, rows0, outcomes0, rows1, outcomes1);
      result := FromFallback(result);
    }

    lemma Nothing()
      ensures Told([]) == [] && Backoffs(base, Slept([], retries)) == []
      ensures forall b, running, planned :: Granted(b, running, planned, free, [])
    {
    }

    lemma Settle(tool: Tool, m: string, s1: seq<Run>, s2: seq<Run>, rows0: seq<P.Row>, outcomes0: seq<P.Outcome>,
                 rows1: seq<P.Row>, outcomes1: seq<P.Outcome>)
      requires if pool == null then Unproxied(s1)
               else LedgerOne(s1, tool, m, pool.entries, rows0, rows1, outcomes0, outcomes1)
      requires || (s2 == [] && rows1 == Rows() && outcomes1 == Telemetry())
               || Pooled(s2, Spare(tool), Key(tool), rows1, outcomes1)
      ensures PooledBoth(tool, m, s1, s2, rows0, outcomes0)
    {
      hide LedgerOne, LedgerBoth;
      if pool != null {
        if s2 == [] && rows1 == Rows() && outcomes1 == Telemetry() {
          LedgerSame(s2, Spare(tool), Key(tool), pool.entries, rows1, outcomes1);
        }
        LedgerTwo(s1, tool, m, s2, Spare(tool), Key(tool), pool.entries, rows0, rows1, pool.rows, outcomes0, outcomes1,
                  pool.outcomes);
      }
    }

    /** `invoke`; `stop` is what the operator's state says when it begins. */
    method Invoke(name: string, m: string, stop: bool, asked: bool, planned: int, allow: bool)
      returns (result: Result, ghost s1: seq<Run>, ghost s2: seq<Run>)
      requires Valid()
      modifies this, breaker, ceiling, pool
      ensures Valid() && ceiling.running == old(ceiling.running)
      ensures |s1| + |s2| <= if retries >= 0 then 2 * (retries + 1) else 0
      ensures runs == old(runs) + s1 + s2 && done == old(done) + |s1| + |s2|
      ensures stop ==> result == STOPPED
      ensures !stop && B.RowIn(old(breaker.rows), m).paused ==> result == Done(1, 0, true, false)
      ensures !stop && !B.RowIn(old(breaker.rows), m).paused && name !in tools ==> result == Raised
      ensures stop || B.RowIn(old(breaker.rows), m).paused || name !in tools ==>
        s1 == s2 == [] && sleeps == old(sleeps) && Rows() == old(Rows()) && Telemetry() == old(Telemetry())
        && forall k :: B.LifeIn(breaker.lives, k) == B.LifeIn(old(breaker.lives), k)
      ensures !stop && !B.RowIn(old(breaker.rows), m).paused && name in tools ==>
        && Served(tools[name], m, asked, allow, old(done), result, s1, s2)
        && sleeps == old(sleeps) + Backoffs(base, Slept(s1, retries)) + Backoffs(base, Slept(s2, retries))
        && Granted(ceiling.budget, ceiling.running, planned, free, s1)
        && Granted(ceiling.budget, ceiling.running, planned, free, s2)
        && HeardBoth(old(breaker.lives), breaker.lives, m, Told(s1), Key(tools[name]), Told(s2))
        && PooledBoth(tools[name], m, s1, s2, old(Rows()), old(Telemetry()))
    {
      hide Granted, C.Granted, Heard, HeardBoth, Served, PooledBoth, Slept, Backoffs, Told, B.Consistent, P.Remembers, B.Apply;
      s1, s2 := [], [];
      if stop { return STOPPED, s1, s2; }
      ghost var lives0 := breaker.lives;
      HeardNothing(lives0, m);
      var ok := breaker.Allow(m);
      ghost var lives1 := breaker.lives;
      if !ok { return Done(1, 0, true, false), s1, s2; }
      if name !in tools { return Raised, s1, s2; }
      result, s1, s2 := Serve(tools[name], m, asked, planned, allow);
      HeardLater(lives0, lives1, breaker.lives, m, Told(s1), Key(tools[name]), Told(s2));
    }
  }

  // ------------------------------------------------------------- what follows

  function Total(xs: seq<real>): real {
    if xs == [] then 0.0 else Total(xs[..|xs| - 1]) + xs[|xs| - 1]
  }

  lemma Doubling(base: real, p: int)
    ensures base * (p - 1) as real + base * p as real == base * (2 * p - 1) as real
  {
    assert (2 * p - 1) as real == (p - 1) as real + p as real;
  }

  /** All the sleeping of a loop with `n` slept failures. */
  lemma {:induction false} BackoffTotal(base: real, n: nat)
    ensures |Backoffs(base, n)| == n && Total(Backoffs(base, n)) == base * (Pow2(n) - 1) as real
  {
    if n > 0 {
      BackoffTotal(base, n - 1);
      Doubling(base, Pow2(n - 1));
      var xs := Backoffs(base, n - 1);
      assert (xs + [Backoff(base, n - 1)])[..|xs|] == xs;
      assert Total(Backoffs(base, n)) == Total(xs) + Backoff(base, n - 1);
    }
  }

  /** A run that is no probe and ends with 0, 124 or 130 is no error and no latency to the breaker. */
  predicate Quiet(r: Run) {
    !r.probe && r.done.code in {0, 124, 130}
  }

  ghost predicate QuietOp(op: B.Op) {
    op == B.Reset || (op.Record? && !op.event.error && op.event.latency.None?)
  }

  ghost predicate QuietOps(ops: seq<B.Op>) {
    forall k :: 0 <= k < |ops| ==> QuietOp(ops[k])
  }

  ghost predicate Unharmed(row: B.Row) {
    && !row.paused && row.throttle == 1.0 && row.baseline.None?
    && forall k :: 0 <= k < |row.events| ==> !row.events[k].error && row.events[k].latency.None?
  }

  lemma {:induction false} SinceMembers(events: seq<B.Event>, cutoff: real)
    ensures forall e :: e in B.Since(events, cutoff) ==> e in events
  {
    if events != [] { SinceMembers(events[..|events| - 1], cutoff); }
  }

  lemma {:induction false} NoErrors(events: seq<B.Event>)
    requires forall k :: 0 <= k < |events| ==> !events[k].error
    ensures B.Errors(events) == 0
  {
    if events != [] { NoErrors(events[..|events| - 1]); }
  }

  lemma {:induction false} NoLatencies(cfg: B.Config, events: seq<B.Event>)
    requires forall k :: 0 <= k < |events| ==> events[k].latency.None?
    ensures B.Latencies(cfg, events) == []
  {
    if events != [] { NoLatencies(cfg, events[..|events| - 1]); }
  }

  lemma QuietStep(cfg: B.Config, row: B.Row, op: B.Op)
    requires B.Usable(cfg) && cfg.errorRatio >= 0.0 && Unharmed(row) && QuietOp(op)
    ensures Unharmed(B.Apply(cfg, row, op))
  {
    if op.Record? {
      var all := row.events + [op.event];
      var kept := B.Since(all, op.event.ts - cfg.windowSec);
      SinceMembers(all, op.event.ts - cfg.windowSec);
      forall k | 0 <= k < |kept| ensures !kept[k].error && kept[k].latency.None? {
        assert kept[k] in kept;
      }
      NoErrors(kept);
      NoLatencies(cfg, kept);
      assert !B.TooManyErrors(cfg, kept);
    }
  }

  /** A module that only ever saw quiet runs, any number of them in any number of invocations, is neither throttled nor
      paused. */
  lemma {:induction false} QuietModule(cfg: B.Config, ops: seq<B.Op>)
    requires B.Usable(cfg) && cfg.errorRatio >= 0.0 && QuietOps(ops)
    ensures Unharmed(B.Replay(cfg, B.FRESH, ops)) && B.Raises(cfg, B.FRESH, ops) == 0
  {
    if ops != [] {
      var n := |ops| - 1;
      QuietModule(cfg, ops[..n]);
      QuietStep(cfg, B.Replay(cfg, B.FRESH, ops[..n]), ops[n]);
    }
  }

  lemma QuietRuns(runs: seq<Run>)
    requires forall k :: 0 <= k < |runs| ==> Quiet(runs[k])
    ensures QuietOps(Told(runs))
  {
  }

  const PAIR := B.Config(0.4, 10.0, 2, 2.0, 2.0)
  const FAILED := B.Event(9.0, true, None)
  const PASSED := B.Event(11.0, false, None)

  lemma Next(events: seq<B.Event>, e: B.Event, cutoff: real)
    ensures B.Since(events + [e], cutoff) == B.Since(events, cutoff) + if e.ts >= cutoff then [e] else []
    ensures B.Errors(events + [e]) == B.Errors(events) + if e.error then 1 else 0
  {
    assert (events + [e])[..|events|] == events;
  }

  lemma WindowIds()
    ensures B.WindowId(PAIR, 9.0) == 0 && B.WindowId(PAIR, 11.0) == 1
  {
  }

  lemma WindowFacts(first: seq<B.Event>, both: seq<B.Event>)
    requires first == [FAILED] && both == [FAILED, PASSED]
    ensures B.Since(first, 9.0 - 10.0) == first && B.Since(both, 11.0 - 10.0) == both
    ensures B.Errors(first) == 1 && B.Errors(both) == 1
    ensures B.WindowId(PAIR, 9.0) == 0 && B.WindowId(PAIR, 11.0) == 1
  {
    WindowIds();
    hide B.WindowId;
    assert B.Since([], -1.0) == [] && B.Since([], 1.0) == [] && B.Errors([]) == 0;
    hide B.Since, B.Errors;
    assert [] + [FAILED] == first && first + [PASSED] == both;
    Next([], FAILED, -1.0);
    Next([], FAILED, 1.0);
    Next(first, PASSED, 1.0);
  }

  lemma FailureCounts()
    ensures B.Apply(PAIR, B.FRESH, B.Record(FAILED))
         == B.FRESH.(events := [FAILED], consecutiveBad := 1, lastBad := Some(0), throttle := 1.0 / 2.0)
  {
    WindowFacts([FAILED], [FAILED, PASSED]);
    assert [] + [FAILED] == [FAILED];
    assert B.TooManyErrors(PAIR, [FAILED]);
    NoLatencies(PAIR, [FAILED]);
    hide B.Since, B.Errors, B.WindowId, B.Latencies, B.TooManyErrors;
  }

  lemma SuccessPauses(row: B.Row)
    requires row == B.FRESH.(events := [FAILED], consecutiveBad := 1, lastBad := Some(0), throttle := row.throttle)
    ensures B.Apply(PAIR, row, B.Record(PASSED)).paused
  {
    WindowFacts([FAILED], [FAILED, PASSED]);
    assert [FAILED] + [PASSED] == [FAILED, PASSED];
    assert B.TooManyErrors(PAIR, [FAILED, PASSED]);
    hide B.Since, B.Errors, B.WindowId, B.TooManyErrors;
    B.LatencyKeepsPause(PAIR, B.AfterErrors(PAIR, row.(events := [FAILED, PASSED]), 1), 1);
    hide B.AfterLatency;
  }

  /** Behind an earlier failure that is not so: the failure makes one window bad, and a run that exits 0 in the next
      window makes that bad too and raises the pause. */
  lemma SuccessMayPause()
    ensures !B.Replay(PAIR, B.FRESH, [B.Record(FAILED)]).paused
    ensures B.Replay(PAIR, B.FRESH, [B.Record(FAILED), B.Record(PASSED)]).paused
  {
    FailureCounts();
    SuccessPauses(B.Apply(PAIR, B.FRESH, B.Record(FAILED)));
    hide B.Apply;
    var one, two := [B.Record(FAILED)], [B.Record(FAILED), B.Record(PASSED)];
    assert two[..1] == one && one[..0] == [];
  }

  /** What the events still in the window would do at `e`: a share of errors, or a drift of the probes' latency, that has
      not been answered in this window yet. */
  predicate Harmful(cfg: B.Config, row: B.Row, e: B.Event)
    requires B.Usable(cfg)
  {
    var kept, w := B.Since(row.events + [e], e.ts - cfg.windowSec), B.WindowId(cfg, e.ts);
    || (B.TooManyErrors(cfg, kept) && (row.lastBad != Some(w) || row.consecutiveBad >= cfg.badWindows))
    || (Drift(cfg, row, B.Latencies(cfg, kept)) && row.lastLatencyBad != Some(w))
  }

  predicate Drift(cfg: B.Config, row: B.Row, ls: seq<real>) {
    ls != [] && row.baseline.Some? && B.Average(ls) > row.baseline.value * cfg.latencyMultiplier
  }

  lemma Divided(t: real, d: real)
    requires t > 0.0 && d > 1.0
    ensures 0.0 < t / d < t
  {
    assert t / d * d == t;
    assert t / d > 0.0;
    assert t / d * (d - 1.0) > 0.0;
  }

  lemma ErrorsHarm(cfg: B.Config, row: B.Row, w: int)
    requires B.Usable(cfg) && cfg.divisor > 1.0 && row.throttle > 0.0 && !row.paused
    ensures var r := B.AfterErrors(cfg, row, w);
      && r.events == row.events && r.baseline == row.baseline && r.lastLatencyBad == row.lastLatencyBad
      && 0.0 < r.throttle <= row.throttle
      && (r.throttle == row.throttle && !r.paused <==>
           !(B.TooManyErrors(cfg, row.events) && (row.lastBad != Some(w) || row.consecutiveBad >= cfg.badWindows)))
  {
    Divided(row.throttle, cfg.divisor);
    assert row.events == [] ==> !B.TooManyErrors(cfg, row.events);
    hide B.TooManyErrors;
  }

  lemma LatencyHarms(cfg: B.Config, row: B.Row, w: int)
    requires B.Usable(cfg) && cfg.divisor > 1.0 && row.throttle > 0.0
    ensures var r := B.AfterLatency(cfg, row, w);
      && r.paused == row.paused && 0.0 < r.throttle <= row.throttle
      && (r.throttle == row.throttle <==> !(Drift(cfg, row, B.Latencies(cfg, row.events)) && row.lastLatencyBad != Some(w)))
  {
    Divided(row.throttle, cfg.divisor);
    hide B.Latencies, B.Average;
  }

  /** Exactly when a record, of a quiet run or of any other, leaves throttle and pause alone. */
  lemma HarmlessExactly(cfg: B.Config, row: B.Row, e: B.Event)
    requires B.Usable(cfg) && cfg.divisor > 1.0 && row.throttle > 0.0 && !row.paused
    ensures var r := B.Apply(cfg, row, B.Record(e));
      r.throttle == row.throttle && !r.paused <==> !Harmful(cfg, row, e)
  {
    hide B.AfterErrors, B.AfterLatency, B.TooManyErrors, B.Latencies, B.Since, Drift;
    var fed := row.(events := B.Since(row.events + [e], e.ts - cfg.windowSec));
    var w := B.WindowId(cfg, e.ts);
    ErrorsHarm(cfg, fed, w);
    LatencyHarms(cfg, B.AfterErrors(cfg, fed, w), w);
    SameDrift(cfg, row, fed, B.AfterErrors(cfg, fed, w), B.Latencies(cfg, fed.events));
  }

  lemma SameDrift(cfg: B.Config, row: B.Row, a: B.Row, b: B.Row, ls: seq<real>)
    requires a.baseline == row.baseline && b.baseline == row.baseline
    ensures Drift(cfg, row, ls) == Drift(cfg, a, ls) == Drift(cfg, b, ls)
  {
  }

  /** With no other container running, every container of an invocation gets the whole memory budget. */
  lemma AloneGetsAll(b: C.Budget, planned: int, free: C.Readings, runs: seq<Run>, k: nat)
    requires b.ramMb >= 1 && Granted(b, 0, planned, free, runs) && k < |runs|
    ensures runs[k].limits.memoryMb == b.ramMb
  {
    C.FirstGrant(b, planned, free, runs[k].limits);
  }
}
