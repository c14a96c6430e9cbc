/** The ramp and canary of the DNS load balancer (pipeline/load_balance.py), on top of the breaker. */
module LoadBalance {
  import opened Basics
  import opened Breaker

  datatype RateConfig = RateConfig(
    startQps: real, stepQps: real, maxQps: real, intervalSec: real, canaryEverySec: real, badWindows: int, divisor: real,
    latencyMultiplier: real)

  datatype RateState = RateState(
    qps: real, badWindows: int, baseline: Option<real>, lastCanary: real, lastRamp: real, paused: bool)

  /** The time of a tick, what a canary answers if the tick runs one, and the records its containers leave in the
      breaker: none when the resolvers answered directly. */
  datatype Tick = Tick(now: real, answered: bool, latency: real, records: seq<Event>)

  function Initial(cfg: RateConfig, t0: real): RateState {
    RateState(cfg.startQps, 0, None, 0.0, t0, false)
  }

  function Ramped(cfg: RateConfig, s: RateState, now: real): RateState {
    if now - s.lastRamp >= cfg.intervalSec then
      s.(qps := if s.qps + cfg.stepQps < cfg.maxQps then s.qps + cfg.stepQps else cfg.maxQps, lastRamp := now)
    else s
  }

  predicate CanaryDue(cfg: RateConfig, s: RateState, now: real) {
    s.lastCanary == 0.0 || now - s.lastCanary >= cfg.canaryEverySec
  }

  function Eased(cfg: RateConfig, qps: real): real
    requires cfg.divisor != 0.0
  {
    if qps / cfg.divisor > 1.0 then qps / cfg.divisor else 1.0
  }

  /** `_canary`: an unanswered probe is a bad window, an answered one clears the count. */
  function AfterCanary(cfg: RateConfig, s: RateState, t: Tick): RateState
    requires cfg.divisor != 0.0
  {
    var latency := if t.latency > 0.0 then t.latency else 0.0;
    if t.answered then
      s.(baseline := if s.baseline.None? then Some(if latency > 0.0 then latency else 0.001) else s.baseline,
         badWindows := 0)
    else
      s.(qps := Eased(cfg, s.qps), badWindows := s.badWindows + 1,
         paused := s.paused || s.badWindows + 1 >= cfg.badWindows)
  }

  function AfterTick(cfg: RateConfig, s: RateState, t: Tick): RateState
    requires cfg.divisor != 0.0
  {
    var r := Ramped(cfg, s, t.now);
    if CanaryDue(cfg, r, t.now) then AfterCanary(cfg, r, t).(lastCanary := t.now) else r
  }

  function RunTicks(cfg: RateConfig, t0: real, ticks: seq<Tick>): RateState
    requires cfg.divisor != 0.0
  {
    if ticks == [] then Initial(cfg, t0)
    else AfterTick(cfg, RunTicks(cfg, t0, ticks[..|ticks| - 1]), ticks[|ticks| - 1])
  }

  /** `_current_qps_unlocked`, for a throttle factor of the breaker. */
  function CurrentQps(cfg: RateConfig, qps: real, factor: real): int {
    var capped := if qps < cfg.maxQps then qps else cfg.maxQps;
    var n := Truncate(capped * factor);
    if n < 1 then 1 else n
  }

  const CANARY_PAUSE := "LOAD BALANCE canary: 2 consecutive bad windows"

  class LoadBalancer {
    const cfg: RateConfig
    const breaker: CircuitBreaker
    const moduleName: string
    const t0: real
    var state: RateState
    ghost var ticks: seq<Tick>

    ghost predicate Valid()
      reads this, breaker
    {
      cfg.divisor != 0.0 && breaker.Valid() && state == RunTicks(cfg, t0, ticks)
    }

    constructor (cfg: RateConfig, breaker: CircuitBreaker, moduleName: string, now: real)
      requires cfg.divisor != 0.0 && breaker.Valid()
      ensures Valid() && ticks == [] && t0 == now
      ensures this.cfg == cfg && this.breaker == breaker && this.moduleName == moduleName
    {
      this.cfg, this.breaker, this.moduleName, this.t0 := cfg, breaker, moduleName, now;
      state := RateState(cfg.startQps, 0, None, 0.0, now, false);
      ticks := [];
    }

    /** `tick`: False tells the caller that the module is paused. */
    method DoTick(t: Tick) returns (go: bool)
      requires Valid()
      modifies this, breaker
      ensures Valid() && ticks == old(ticks) + [t]
      ensures state == AfterTick(cfg, old(state), t) && go == !state.paused
      ensures OnlyRow(breaker.cfg, old(breaker.rows), breaker.rows, moduleName,
                      if CanaryDue(cfg, old(state), t.now) then CanaryOps(t, PausesNow(cfg, old(state), t)) else [])
    {
      hide Consistent, RowIn, OnlyRow, CanaryOps;
      breaker.UsableNow();
      OnlyRowStart(breaker.cfg, breaker.rows, moduleName);
      if t.now - state.lastRamp >= cfg.intervalSec {
        state := state.(qps := if state.qps + cfg.stepQps < cfg.maxQps then state.qps + cfg.stepQps else cfg.maxQps);
        state := state.(lastRamp := t.now);
      }
      assert (ticks + [t])[..|ticks|] == ticks;
      ticks := ticks + [t];
      if state.lastCanary == 0.0 || t.now - state.lastCanary >= cfg.canaryEverySec {
        var ok := Canary(t);
        state := state.(lastCanary := t.now);
        if !ok { return false; }
      }
      go := !state.paused;
    }

    /** The container runs of a canary, as the breaker sees them. */
    method Probe(records: seq<Event>)
      requires breaker.Valid()
      modifies breaker
      ensures breaker.Valid()
      ensures OnlyRow(breaker.cfg, old(breaker.rows), breaker.rows, moduleName, RecordOps(records))
    {
      hide Consistent, Apply, RowIn, OnlyRow, RecordOps;
      breaker.UsableNow();
      OnlyRowStart(breaker.cfg, breaker.rows, moduleName);
      for i := 0 to |records|
        invariant breaker.Valid()
        invariant OnlyRow(breaker.cfg, old(breaker.rows), breaker.rows, moduleName, RecordOps(records[..i]))
      {
        var e := records[i];
        RecordOpsNext(records, i);
        OnlyRowNext(breaker.cfg, old(breaker.rows), breaker.rows, moduleName, RecordOps(records[..i]), Op.Record(e));
        breaker.Record(moduleName, e.ts, !e.error, e.latency, false);
      }
      assert records[..|records|] == records;
    }

    method Canary(t: Tick) returns (ok: bool)
      requires cfg.divisor != 0.0 && breaker.Valid()
      modifies this`state, breaker
      ensures breaker.Valid() && state == AfterCanary(cfg, old(state), t)
      ensures ok == (t.answered || old(state).badWindows + 1 < cfg.badWindows)
      ensures OnlyRow(breaker.cfg, old(breaker.rows), breaker.rows, moduleName, CanaryOps(t, !ok))
    {
      hide Consistent, Apply, RowIn, OnlyRow, RecordOps;
      breaker.UsableNow();
      Probe(t.records);
      assert RecordOps(t.records) + [] == RecordOps(t.records);
      var latency := if t.latency > 0.0 then t.latency else 0.0;
      var errors := !t.answered;
      var slow := false;
      if state.baseline.None? && !errors {
        state := state.(baseline := Some(if latency > 0.0 then latency else 0.001));
      } else if state.baseline.Some? && errors && latency > state.baseline.value * cfg.latencyMultiplier {
        slow := true;
      }
      if errors || slow {
        state := state.(qps := if state.qps / cfg.divisor > 1.0 then state.qps / cfg.divisor else 1.0);
        state := state.(badWindows := state.badWindows + 1);
        if state.badWindows >= cfg.badWindows {
          state := state.(paused := true);
          OnlyRowNext(breaker.cfg, old(breaker.rows), breaker.rows, moduleName, RecordOps(t.records), Force(CANARY_PAUSE));
          breaker.ForcePause(moduleName, CANARY_PAUSE);
          return false;
        }
        return true;
      }
      state := state.(badWindows := 0);
      ok := true;
    }
  }

  function RecordOps(records: seq<Event>): (r: seq<Op>)
    ensures |r| == |records|
  {
    seq(|records|, i requires 0 <= i < |records| => Op.Record(records[i]))
  }

  lemma RecordOpsNext(records: seq<Event>, i: nat)
    requires i < |records|
    ensures RecordOps(records[..i + 1]) == RecordOps(records[..i]) + [Op.Record(records[i])]
  {
  }

  /** What a canary does to its module's row: its records, and then the pause if it raises one. */
  function CanaryOps(t: Tick, pause: bool): seq<Op> {
    RecordOps(t.records) + if pause then [Force(CANARY_PAUSE)] else []
  }

  /** These calls moved one module's row, and no other row changed. */
  ghost predicate OnlyRow(cfg: Config, before: map<string, Row>, after: map<string, Row>, name: string, ops: seq<Op>)
    requires Usable(cfg)
  {
    && RowIn(after, name) == Replay(cfg, RowIn(before, name), ops)
    && forall m :: m != name ==> RowIn(after, m) == RowIn(before, m)
  }

  lemma OnlyRowStart(cfg: Config, rows: map<string, Row>, name: string)
    requires Usable(cfg)
    ensures OnlyRow(cfg, rows, rows, name, [])
  {
  }

  lemma OnlyRowNext(cfg: Config, before: map<string, Row>, rows: map<string, Row>, name: string, ops: seq<Op>, op: Op)
    requires Usable(cfg) && OnlyRow(cfg, before, rows, name, ops)
    ensures OnlyRow(cfg, before, rows[name := Apply(cfg, RowIn(rows, name), op)], name, ops + [op])
  {
    hide Apply;
    NextLife(cfg, RowIn(before, name), ops, op);
  }

  predicate PausesNow(cfg: RateConfig, s: RateState, t: Tick) {
    var r := Ramped(cfg, s, t.now);
    CanaryDue(cfg, r, t.now) && !t.answered && r.badWindows + 1 >= cfg.badWindows
  }

  // ------------------------------------------------------------- promises

  predicate Sane(cfg: RateConfig) {
    cfg.divisor >= 1.0 && cfg.stepQps >= 0.0 && cfg.intervalSec > 0.0
  }

  predicate TimeOrdered(t0: real, ticks: seq<Tick>) {
    && (forall i :: 0 <= i < |ticks| ==> t0 <= ticks[i].now)
    && (forall i, j :: 0 <= i < j < |ticks| ==> ticks[i].now <= ticks[j].now)
  }

  /** The ramp's ceiling when `steps` whole intervals have passed. */
  function Ceiling(cfg: RateConfig, steps: int): real {
    (if cfg.startQps > 1.0 then cfg.startQps else 1.0) + cfg.stepQps * steps as real
  }

  function Steps(cfg: RateConfig, elapsed: real): int
    requires cfg.intervalSec > 0.0
  {
    (elapsed / cfg.intervalSec).Floor
  }

  lemma StepsGrow(cfg: RateConfig, a: real, b: real)
    requires cfg.intervalSec > 0.0 && a <= b
    ensures Steps(cfg, a) <= Steps(cfg, b)
    ensures b - a >= cfg.intervalSec ==> Steps(cfg, a) + 1 <= Steps(cfg, b)
  {
    var d := cfg.intervalSec;
    assert b / d - a / d == (b - a) / d;
    assert (b - a) / d >= 0.0;
    if b - a >= d { assert (b - a) / d >= d / d == 1.0; }
  }

  lemma CeilingGrows(cfg: RateConfig, m: int, n: int)
    requires cfg.stepQps >= 0.0 && m <= n
    ensures Ceiling(cfg, m) <= Ceiling(cfg, n)
  {
    assert cfg.stepQps * (n - m) as real >= 0.0;
    assert cfg.stepQps * n as real == cfg.stepQps * m as real + cfg.stepQps * (n - m) as real;
  }

  lemma EasedSmaller(cfg: RateConfig, qps: real, top: real)
    requires cfg.divisor >= 1.0 && qps <= top && top >= 1.0
    ensures Eased(cfg, qps) <= top
  {
    if qps >= 0.0 {
      var q := qps / cfg.divisor;
      assert q * cfg.divisor == qps;
      assert q * cfg.divisor >= q || q < 0.0;
    } else {
      assert qps / cfg.divisor <= 0.0;
    }
  }

  ghost predicate UnderRamp(cfg: RateConfig, t0: real, s: RateState)
    requires Sane(cfg)
  {
    s.lastRamp >= t0 && s.qps <= Ceiling(cfg, Steps(cfg, s.lastRamp - t0))
  }

  lemma TickUnderRamp(cfg: RateConfig, t0: real, s: RateState, t: Tick)
    requires Sane(cfg) && UnderRamp(cfg, t0, s) && t0 <= t.now
    ensures UnderRamp(cfg, t0, AfterTick(cfg, s, t))
  {
    hide Steps, Ceiling, Eased;
    var r := Ramped(cfg, s, t.now);
    if t.now - s.lastRamp >= cfg.intervalSec {
      StepsGrow(cfg, s.lastRamp - t0, t.now - t0);
      CeilingStep(cfg, Steps(cfg, s.lastRamp - t0));
      CeilingGrows(cfg, Steps(cfg, s.lastRamp - t0) + 1, Steps(cfg, t.now - t0));
    }
    CeilingOne(cfg, t0, r.lastRamp);
    EasedSmaller(cfg, r.qps, Ceiling(cfg, Steps(cfg, r.lastRamp - t0)));
  }

  lemma CeilingStep(cfg: RateConfig, n: int)
    ensures Ceiling(cfg, n + 1) == Ceiling(cfg, n) + cfg.stepQps
  {
    assert cfg.stepQps * (n + 1) as real == cfg.stepQps * n as real + cfg.stepQps;
  }

  lemma CeilingOne(cfg: RateConfig, t0: real, t: real)
    requires Sane(cfg) && t >= t0
    ensures Ceiling(cfg, Steps(cfg, t - t0)) >= 1.0
  {
    assert (t - t0) / cfg.intervalSec >= 0.0;
    CeilingGrows(cfg, 0, Steps(cfg, t - t0));
  }

  lemma {:induction false} RampInvariant(cfg: RateConfig, t0: real, ticks: seq<Tick>)
    requires Sane(cfg) && TimeOrdered(t0, ticks)
    ensures UnderRamp(cfg, t0, RunTicks(cfg, t0, ticks))
    ensures RunTicks(cfg, t0, ticks).lastRamp <= if ticks == [] then t0 else ticks[|ticks| - 1].now
  {
    if ticks == [] {
      assert Steps(cfg, 0.0) == 0;
    } else {
      var n := |ticks| - 1;
      RampInvariant(cfg, t0, ticks[..n]);
      TickUnderRamp(cfg, t0, RunTicks(cfg, t0, ticks[..n]), ticks[n]);
      hide UnderRamp, Eased;
    }
  }

  /** The rate never outruns the ramp: start + step for every whole interval since the start. */
  lemma RampBound(cfg: RateConfig, t0: real, ticks: seq<Tick>)
    requires Sane(cfg) && TimeOrdered(t0, ticks) && ticks != []
    ensures RunTicks(cfg, t0, ticks).qps <= Ceiling(cfg, Steps(cfg, ticks[|ticks| - 1].now - t0))
  {
    RampInvariant(cfg, t0, ticks);
    var s := RunTicks(cfg, t0, ticks);
    StepsGrow(cfg, s.lastRamp - t0, ticks[|ticks| - 1].now - t0);
    CeilingGrows(cfg, Steps(cfg, s.lastRamp - t0), Steps(cfg, ticks[|ticks| - 1].now - t0));
  }

  /** The breaker's factor lies in (0, 1] on every run. */
  lemma {:induction false} FactorInUnit(cfg: Config, start: Row, ops: seq<Op>)
    requires Usable(cfg) && cfg.divisor >= 1.0 && Start(start)
    ensures 0.0 < Replay(cfg, start, ops).throttle <= 1.0
  {
    if ops != [] {
      FactorInUnit(cfg, start, ops[..|ops| - 1]);
      FactorStep(cfg, Replay(cfg, start, ops[..|ops| - 1]), ops[|ops| - 1]);
      hide Apply;
    }
  }

  lemma SlowerInUnit(cfg: Config, t: real)
    requires cfg.divisor >= 1.0 && cfg.windowSec >= 0.0 && 0.0 < t <= 1.0
    ensures 0.0 < Slower(cfg, t) <= 1.0
  {
    var q := t / cfg.divisor;
    assert q * cfg.divisor == t;
    assert q > 0.0;
    assert q * cfg.divisor >= q;
  }

  lemma FactorStep(cfg: Config, row: Row, op: Op)
    requires Usable(cfg) && cfg.divisor >= 1.0 && 0.0 < row.throttle <= 1.0
    ensures 0.0 < Apply(cfg, row, op).throttle <= 1.0
  {
    hide Slower, TooManyErrors, Latencies, Average, Since, WindowId;
    SlowerInUnit(cfg, row.throttle);
    SlowerInUnit(cfg, Slower(cfg, row.throttle));
  }

  /** Whatever the ramp and the breaker did, the live rate is at least one and at most the cap. */
  lemma CurrentQpsBounds(cfg: RateConfig, qps: real, factor: real)
    requires 0.0 < factor <= 1.0
    ensures 1 <= CurrentQps(cfg, qps, factor)
    ensures CurrentQps(cfg, qps, factor) as real <= if cfg.maxQps > 1.0 then cfg.maxQps else 1.0
  {
    var capped := if qps < cfg.maxQps then qps else cfg.maxQps;
    ScaledBetween(capped, factor);
    TruncateBelow(capped * factor);
  }

  lemma ScaledBetween(x: real, factor: real)
    requires 0.0 < factor <= 1.0
    ensures x >= 0.0 ==> 0.0 <= x * factor <= x
    ensures x < 0.0 ==> x * factor < 0.0
  {
    if x >= 0.0 { assert x * (1.0 - factor) >= 0.0; }
  }

  lemma TruncateBelow(x: real)
    ensures x >= 0.0 ==> Truncate(x) as real <= x
    ensures x < 0.0 ==> Truncate(x) <= 0
  {
  }

  /** How many canaries in a row went unanswered at the end of the run. */
  ghost function TrailingBad(cfg: RateConfig, t0: real, ticks: seq<Tick>): nat
    requires cfg.divisor != 0.0
  {
    if ticks == [] then 0
    else
      var n := |ticks| - 1;
      var r := Ramped(cfg, RunTicks(cfg, t0, ticks[..n]), ticks[n].now);
      if !CanaryDue(cfg, r, ticks[n].now) then TrailingBad(cfg, t0, ticks[..n])
      else if ticks[n].answered then 0
      else TrailingBad(cfg, t0, ticks[..n]) + 1
  }

  /** Tick `n` ran a canary that went unanswered and completed a run of `badWindows` of them. */
  ghost predicate Trips(cfg: RateConfig, t0: real, ticks: seq<Tick>, n: nat)
    requires cfg.divisor != 0.0
  {
    && n < |ticks|
    && !ticks[n].answered
    && CanaryDue(cfg, Ramped(cfg, RunTicks(cfg, t0, ticks[..n]), ticks[n].now), ticks[n].now)
    && TrailingBad(cfg, t0, ticks[..n + 1]) >= cfg.badWindows
  }

  lemma {:induction false} BadCount(cfg: RateConfig, t0: real, ticks: seq<Tick>)
    requires cfg.divisor != 0.0
    ensures RunTicks(cfg, t0, ticks).badWindows == TrailingBad(cfg, t0, ticks)
  {
    if ticks != [] {
      BadCount(cfg, t0, ticks[..|ticks| - 1]);
      hide Eased;
    }
  }

  /** Paused means exactly that some canary completed a run of `badWindows` unanswered ones; nothing un-pauses. */
  lemma {:induction false} PausedExactly(cfg: RateConfig, t0: real, ticks: seq<Tick>)
    requires cfg.divisor != 0.0
    ensures RunTicks(cfg, t0, ticks).paused <==> exists n: nat :: Trips(cfg, t0, ticks, n)
  {
    hide Eased, RunTicks, TrailingBad;
    if ticks == [] {
      RunNothing(cfg, t0);
    } else {
      var n := |ticks| - 1;
      PausedExactly(cfg, t0, ticks[..n]);
      BadCount(cfg, t0, ticks);
      BadCount(cfg, t0, ticks[..n]);
      RunLast(cfg, t0, ticks);
      assert ticks[..n + 1] == ticks;
      forall k: nat | k < n ensures Trips(cfg, t0, ticks, k) <==> Trips(cfg, t0, ticks[..n], k) {
        assert ticks[..n][..k] == ticks[..k] && ticks[..n][..k + 1] == ticks[..k + 1];
      }
      if RunTicks(cfg, t0, ticks[..n]).paused {
        var k: nat :| Trips(cfg, t0, ticks[..n], k);
        assert Trips(cfg, t0, ticks, k);
      } else if RunTicks(cfg, t0, ticks).paused {
        assert Trips(cfg, t0, ticks, n);
      }
    }
  }

  lemma RunNothing(cfg: RateConfig, t0: real)
    requires cfg.divisor != 0.0
    ensures !RunTicks(cfg, t0, []).paused
  {
  }

  lemma RunLast(cfg: RateConfig, t0: real, ticks: seq<Tick>)
    requires cfg.divisor != 0.0 && ticks != []
    ensures RunTicks(cfg, t0, ticks) == AfterTick(cfg, RunTicks(cfg, t0, ticks[..|ticks| - 1]), ticks[|ticks| - 1])
  {
    hide AfterTick;
  }

  /** Once paused, every further tick answers False. */
  lemma {:induction false} PausedForever(cfg: RateConfig, t0: real, ticks: seq<Tick>, more: seq<Tick>)
    requires cfg.divisor != 0.0 && RunTicks(cfg, t0, ticks).paused
    ensures RunTicks(cfg, t0, ticks + more).paused
  {
    if more == [] {
      assert ticks + more == ticks;
    } else {
      var n := |more| - 1;
      PausedForever(cfg, t0, ticks, more[..n]);
      assert (ticks + more)[..|ticks| + n] == ticks + more[..n];
    }
  }
}
