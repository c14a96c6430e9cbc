/** The per-module circuit breaker (pipeline/breaker.py): throttle on a bad window, pause after
    enough consecutive ones. BreakerTheorems.dfy relates the counters to the history of a run. */
module Breaker {
  import opened Basics

  datatype Config = Config(
    errorRatio: real, windowSec: real, badWindows: int, divisor: real, latencyMultiplier: real)

  /** What the program's own arithmetic needs: no division by zero, windows that do not run backwards. */
  predicate Usable(cfg: Config) {
    cfg.divisor != 0.0 && cfg.windowSec >= 0.0
  }

  datatype Event = Event(ts: real, error: bool, latency: Option<real>)

  datatype Row = Row(
    throttle: real, paused: bool, consecutiveBad: int, lastBad: Option<int>, lastOk: Option<int>, anomalySent: bool,
    events: seq<Event>, baseline: Option<real>, lastLatencyBad: Option<int>, consecutiveLatencyBad: int,
    reason: Option<string>)

  const FRESH := Row(1.0, false, 0, None, None, false, [], None, None, 0, None)

  function WindowId(cfg: Config, now: real): int {
    if cfg.windowSec == 0.0 then 0 else (now / cfg.windowSec).Floor
  }

  /** The events not older than `cutoff`, in order. */
  function Since(events: seq<Event>, cutoff: real): seq<Event> {
    if events == [] then []
    else
      var n := |events| - 1;
      Since(events[..n], cutoff) + if events[n].ts >= cutoff then [events[n]] else []
  }

  function Errors(events: seq<Event>): (n: nat)
    ensures n <= |events|
  {
    if events == [] then 0
    else Errors(events[..|events| - 1]) + if events[|events| - 1].error then 1 else 0
  }

  predicate TooManyErrors(cfg: Config, events: seq<Event>) {
    events != [] && Errors(events) as real / |events| as real > cfg.errorRatio
  }

  /** The latencies of an evaluation: present, and within one window. */
  function Latencies(cfg: Config, events: seq<Event>): seq<real> {
    if events == [] then []
    else
      var n := |events| - 1;
      var l := events[n].latency;
      Latencies(cfg, events[..n]) + if l.Some? && l.value <= cfg.windowSec then [l.value] else []
  }

  function Sum(xs: seq<real>): real {
    if xs == [] then 0.0 else Sum(xs[..|xs| - 1]) + xs[|xs| - 1]
  }

  function Average(xs: seq<real>): real
    requires xs != []
  {
    Sum(xs) / |xs| as real
  }

  // ------------------------------------------------------------- one module's row

  function Slower(cfg: Config, throttle: real): real
    requires Usable(cfg)
  {
    throttle / cfg.divisor
  }

  function Throttled(cfg: Config, row: Row): Row
    requires Usable(cfg)
  {
    row.(throttle := Slower(cfg, row.throttle))
  }

  function Paused(row: Row, reason: string): Row {
    row.(paused := true, reason := Some(reason), anomalySent := true)
  }

  const ERROR_PAUSE := "error ratio exceeded circuit breaker windows"

  /** `_evaluate_errors`. */
  function AfterErrors(cfg: Config, row: Row, w: int): Row
    requires Usable(cfg)
  {
    if row.events == [] then row
    else if TooManyErrors(cfg, row.events) then
      var r :=
        if row.lastBad == Some(w) then row
        else
          var c := if row.lastBad.Some? && w == row.lastBad.value + 1 then row.consecutiveBad + 1 else 1;
          Throttled(cfg, row.(consecutiveBad := c, lastBad := Some(w)));
      if r.consecutiveBad >= cfg.badWindows then Paused(r, ERROR_PAUSE) else r
    else row.(consecutiveBad := 0, lastOk := Some(w))
  }

  /** `_evaluate_latency`: throttles, never pauses. */
  function AfterLatency(cfg: Config, row: Row, w: int): Row
    requires Usable(cfg)
  {
    var ls := Latencies(cfg, row.events);
    if ls == [] then row
    else if row.baseline.None? then row.(baseline := Some(Average(ls)))
    else if Average(ls) > row.baseline.value * cfg.latencyMultiplier then
      if row.lastLatencyBad == Some(w) then row
      else
        Throttled(cfg, row.(consecutiveLatencyBad := row.consecutiveLatencyBad + 1, lastLatencyBad := Some(w)))
    else row.(consecutiveLatencyBad := 0)
  }

  datatype Op = Record(event: Event) | Force(why: string) | Reset

  /** One call on one module. */
  function Apply(cfg: Config, row: Row, op: Op): Row
    requires Usable(cfg)
  {
    match op
    case Record(e) =>
      if row.paused then row
      else
        var kept := Since(row.events + [e], e.ts - cfg.windowSec);
        var w := WindowId(cfg, e.ts);
        AfterLatency(cfg, AfterErrors(cfg, row.(events := kept), w), w)
    case Force(why) =>
      if row.paused then row else Paused(row, why)
    case Reset =>
      if !row.paused then row
      else row.(paused := false, reason := None, consecutiveBad := 0, anomalySent := false)
  }

  function Replay(cfg: Config, start: Row, ops: seq<Op>): Row
    requires Usable(cfg)
  {
    if ops == [] then start else Apply(cfg, Replay(cfg, start, ops[..|ops| - 1]), ops[|ops| - 1])
  }

  /** A row is born fresh, or paused by a pause persisted in an earlier run. */
  predicate Start(row: Row) {
    row == FRESH || (row.reason.Some? && row == FRESH.(paused := true, anomalySent := true, reason := row.reason))
  }

  // ------------------------------------------------------------- the breaker

  datatype Notice = Notice(moduleName: string, reason: string)

  /** Where a row started and what has been called on it. */
  datatype Life = Life(start: Row, ops: seq<Op>)

  function RowIn(rows: map<string, Row>, m: string): Row {
    if m in rows then rows[m] else FRESH
  }

  ghost function LifeIn(lives: map<string, Life>, m: string): Life {
    if m in lives then lives[m] else Life(FRESH, [])
  }

  /** Every row is what its life replays to, its notice is out exactly while it is paused, and one notice was sent
      per pause raised. */
  ghost predicate Consistent(cfg: Config, rows: map<string, Row>, lives: map<string, Life>, notices: seq<Notice>) {
    && Usable(cfg)
    && rows.Keys == lives.Keys
    && (forall m :: m in rows ==> Start(lives[m].start) && rows[m] == Replay(cfg, lives[m].start, lives[m].ops))
    && (forall m :: m in rows ==> rows[m].anomalySent == rows[m].paused)
    && (forall m :: Count(notices, m) == Raises(cfg, LifeIn(lives, m).start, LifeIn(lives, m).ops))
  }

  lemma TouchConsistent(cfg: Config, rows: map<string, Row>, lives: map<string, Life>, notices: seq<Notice>, m: string)
    requires Consistent(cfg, rows, lives, notices)
    ensures Consistent(cfg, rows[m := RowIn(rows, m)], lives[m := LifeIn(lives, m)], notices)
  {
  }

  lemma ApplyKeepsNotice(cfg: Config, row: Row, op: Op)
    requires Usable(cfg) && row.anomalySent == row.paused
    ensures Apply(cfg, row, op).anomalySent == Apply(cfg, row, op).paused
  {
  }

  lemma RecordIdle(cfg: Config, row: Row, e: Event)
    requires Usable(cfg) && row.paused
    ensures Apply(cfg, row, Record(e)) == row
  {
  }

  lemma ResetIdle(cfg: Config, row: Row)
    requires Usable(cfg)
    ensures !row.paused ==> Apply(cfg, row, Reset) == row
    ensures !Apply(cfg, row, Reset).paused
  {
  }

  /** The rows after a reset of each of these names. */
  function ResetRows(cfg: Config, rows: map<string, Row>, names: set<string>): map<string, Row>
    requires Usable(cfg)
  {
    map m | m in rows.Keys + names :: if m in names then Apply(cfg, RowIn(rows, m), Reset) else RowIn(rows, m)
  }

  function PausedIn(rows: map<string, Row>, names: set<string>): set<string> {
    set m | m in names && RowIn(rows, m).paused
  }

  lemma ResetNone(cfg: Config, rows: map<string, Row>)
    requires Usable(cfg)
    ensures ResetRows(cfg, rows, {}) == rows && PausedIn(rows, {}) == {}
  {
    hide Apply;
  }

  lemma ResetOne(cfg: Config, rows: map<string, Row>, names: set<string>, m: string)
    requires Usable(cfg) && m !in names
    ensures var after := ResetRows(cfg, rows, names);
      && RowIn(after, m) == RowIn(rows, m)
      && after[m := Apply(cfg, RowIn(rows, m), Reset)] == ResetRows(cfg, rows, names + {m})
    ensures PausedIn(rows, names + {m}) == PausedIn(rows, names) + if RowIn(rows, m).paused then {m} else {}
  {
    hide Apply;
  }

  /** A reset of every paused row is a reset of every row. */
  lemma ResetRest(cfg: Config, rows: map<string, Row>, names: set<string>, persisted: set<string>)
    requires Usable(cfg) && names == (set m | m in rows && rows[m].paused) + persisted - {""}
    ensures var after := ResetRows(cfg, rows, names);
      && after.Keys == rows.Keys + (persisted - {""})
      && forall m :: RowIn(after, m) == if m == "" then RowIn(rows, m) else Apply(cfg, RowIn(rows, m), Reset)
    ensures PausedIn(rows, names) == set m | m in rows && m != "" && rows[m].paused
  {
    hide Apply;
    forall m | m !in names && m != "" ensures Apply(cfg, RowIn(rows, m), Reset) == RowIn(rows, m) {
      ResetIdle(cfg, RowIn(rows, m));
    }
  }

  lemma LatencyKeepsPause(cfg: Config, row: Row, w: int)
    requires Usable(cfg)
    ensures AfterLatency(cfg, row, w).paused == row.paused
  {
  }

  lemma NoticesMatch(cfg: Config, rows: map<string, Row>, lives: map<string, Life>, notices: seq<Notice>, m: string)
    requires Consistent(cfg, rows, lives, notices)
    ensures Usable(cfg) && RowIn(rows, m).anomalySent == RowIn(rows, m).paused
  {
  }

  lemma ReplayNothing(cfg: Config, start: Row)
    requires Usable(cfg)
    ensures Replay(cfg, start, []) == start && Raises(cfg, start, []) == 0
  {
  }

  lemma StepConsistent(
    cfg: Config, rows: map<string, Row>, lives: map<string, Life>, notices: seq<Notice>, m: string, op: Op, why: string)
    requires Consistent(cfg, rows, lives, notices)
    ensures var before := RowIn(rows, m);
      var after := Apply(cfg, before, op);
      Consistent(cfg, rows[m := after],
                 lives[m := Life(LifeIn(lives, m).start, LifeIn(lives, m).ops + [op])],
                 notices + if !before.paused && after.paused then [Notice(m, why)] else [])
  {
    hide Apply, Replay, Raises, Count;
    var life := LifeIn(lives, m);
    var before := RowIn(rows, m);
    var after := Apply(cfg, before, op);
    ReplayNothing(cfg, FRESH);
    assert before == Replay(cfg, life.start, life.ops);
    ApplyKeepsNotice(cfg, before, op);
    NextLife(cfg, life.start, life.ops, op);
    CountNext(notices, Notice(m, why));
    assert notices + [] == notices;
    var lives1 := lives[m := Life(life.start, life.ops + [op])];
    forall k | k != m ensures LifeIn(lives1, k) == LifeIn(lives, k) {
    }
  }

  class CircuitBreaker {
    const cfg: Config
    var rows: map<string, Row>
    var notices: seq<Notice>
    ghost var lives: map<string, Life>

    ghost predicate Valid()
      reads this
    {
      Consistent(cfg, rows, lives, notices)
    }

    constructor (cfg: Config, persisted: map<string, string>)
      requires Usable(cfg)
      ensures Valid() && this.cfg == cfg && notices == []
      ensures rows.Keys == persisted.Keys
      ensures forall m :: m in persisted ==>
        rows[m] == FRESH.(paused := true, anomalySent := true, reason := Some(persisted[m]))
    {
      this.cfg := cfg;
      rows := map m | m in persisted :: FRESH.(paused := true, anomalySent := true, reason := Some(persisted[m]));
      notices := [];
      lives := map m | m in persisted ::
        Life(FRESH.(paused := true, anomalySent := true, reason := Some(persisted[m])), []);
    }

    /** `_state`: the row, made on first use. */
    method StateOf(m: string) returns (row: Row)
      requires Valid()
      modifies this
      ensures Valid() && row == RowIn(old(rows), m)
      ensures rows == old(rows)[m := row] && notices == old(notices) && lives == old(lives)[m := LifeIn(old(lives), m)]
    {
      TouchConsistent(cfg, rows, lives, notices, m);
      row := if m in rows then rows[m] else FRESH;
      rows, lives := rows[m := row], lives[m := LifeIn(lives, m)];
    }

    method Allow(m: string) returns (ok: bool)
      requires Valid()
      modifies this
      ensures Valid() && ok == !RowIn(old(rows), m).paused
      ensures rows == old(rows)[m := RowIn(old(rows), m)] && notices == old(notices)
      ensures lives == old(lives)[m := LifeIn(old(lives), m)]
    {
      var row := StateOf(m);
      ok := !row.paused;
    }

    /** `record` for a call that ended at `now`. */
    method Record(m: string, now: real, success: bool, latency: Option<real>, timeout: bool)
      requires Valid()
      modifies this
      ensures Valid()
      ensures var op := Op.Record(Event(now, !success || timeout, latency));
        && rows == old(rows)[m := Apply(cfg, RowIn(old(rows), m), op)]
        && lives == old(lives)[m := Life(LifeIn(old(lives), m).start, LifeIn(old(lives), m).ops + [op])]
      ensures notices == old(notices)
        + if !RowIn(old(rows), m).paused && rows[m].paused then [Notice(m, ERROR_PAUSE)] else []
    {
      hide Consistent, Apply;
      NoticesMatch(cfg, rows, lives, notices, m);
      var error := !success || timeout;
      ghost var op := Op.Record(Event(now, error, latency));
      StepConsistent(cfg, rows, lives, notices, m, op, ERROR_PAUSE);
      var row := StateOf(m);
      lives := lives[m := Life(LifeIn(lives, m).start, LifeIn(lives, m).ops + [op])];
      assert lives == old(lives)[m := lives[m]] && old(notices) + [] == notices;
      if row.paused {
        RecordIdle(cfg, row, Event(now, error, latency));
        return;
      }
      var raised;
      row, raised := Evaluate(row, Event(now, error, latency));
      rows := rows[m := row];
      assert rows == old(rows)[m := row] && lives == old(lives)[m := lives[m]];
      if raised { notices := notices + [Notice(m, ERROR_PAUSE)]; }
    }

    /** The body of `record` for a module that is not paused. */
    method Evaluate(row: Row, event: Event) returns (r: Row, raised: bool)
      requires Usable(cfg) && !row.paused && !row.anomalySent
      ensures r == Apply(cfg, row, Op.Record(event)) && raised == r.paused
    {
      hide AfterErrors, AfterLatency, Since;
      var kept := Retain(row.events + [event], event.ts - cfg.windowSec);
      r := row.(events := kept);
      var w := WindowId(cfg, event.ts);
      r, raised := EvaluateErrors(r, w);
      LatencyKeepsPause(cfg, r, w);
      r := EvaluateLatency(r, w);
    }

    method Retain(events: seq<Event>, cutoff: real) returns (kept: seq<Event>)
      ensures kept == Since(events, cutoff)
    {
      kept := [];
      for i := 0 to |events|
        invariant kept == Since(events[..i], cutoff)
      {
        assert events[..i + 1][..i] == events[..i];
        if events[i].ts >= cutoff { kept := kept + [events[i]]; }
      }
      assert events[..|events|] == events;
    }

    method CountErrors(events: seq<Event>) returns (n: nat)
      ensures n == Errors(events) && n <= |events|
    {
      n := 0;
      for i := 0 to |events|
        invariant n == Errors(events[..i])
      {
        assert events[..i + 1][..i] == events[..i];
        if events[i].error { n := n + 1; }
      }
      assert events[..|events|] == events;
    }

    /** `_evaluate_errors`; `raised` says that a pause was raised and its notice is due. */
    method EvaluateErrors(row: Row, w: int) returns (r: Row, raised: bool)
      requires Usable(cfg) && !row.paused && !row.anomalySent
      ensures r == AfterErrors(cfg, row, w) && raised == r.paused
    {
      r, raised := row, false;
      var total := |row.events|;
      if total == 0 { return; }
      var errors := CountErrors(row.events);
      var ratio := errors as real / total as real;
      if ratio > cfg.errorRatio {
        if r.lastBad != Some(w) {
          if r.lastBad.Some? && w == r.lastBad.value + 1 {
            r := r.(consecutiveBad := r.consecutiveBad + 1);
          } else {
            r := r.(consecutiveBad := 1);
          }
          r := r.(lastBad := Some(w));
          r := r.(throttle := r.throttle / cfg.divisor);
        }
        if r.consecutiveBad >= cfg.badWindows {
          r := r.(paused := true, reason := Some(ERROR_PAUSE));
          raised := !r.anomalySent;
          r := r.(anomalySent := true);
        }
      } else {
        r := r.(consecutiveBad := 0, lastOk := Some(w));
      }
    }

    method CollectLatencies(events: seq<Event>) returns (ls: seq<real>, sum: real)
      ensures ls == Latencies(cfg, events) && sum == Sum(ls)
    {
      ls, sum := [], 0.0;
      for i := 0 to |events|
        invariant ls == Latencies(cfg, events[..i]) && sum == Sum(ls)
      {
        assert events[..i + 1][..i] == events[..i];
        var l := events[i].latency;
        if l.Some? && l.value <= cfg.windowSec {
          assert (ls + [l.value])[..|ls|] == ls;
          ls, sum := ls + [l.value], sum + l.value;
        }
      }
      assert events[..|events|] == events;
    }

    method EvaluateLatency(row: Row, w: int) returns (r: Row)
      requires Usable(cfg)
      ensures r == AfterLatency(cfg, row, w)
    {
      r := row;
      var ls, sum := CollectLatencies(row.events);
      if ls == [] { return; }
      var avg := sum / |ls| as real;
      if r.baseline.None? {
        r := r.(baseline := Some(avg));
        return;
      }
      if avg > r.baseline.value * cfg.latencyMultiplier {
        if r.lastLatencyBad != Some(w) {
          r := r.(consecutiveLatencyBad := r.consecutiveLatencyBad + 1, lastLatencyBad := Some(w));
          r := r.(throttle := r.throttle / cfg.divisor);
        }
      } else {
        r := r.(consecutiveLatencyBad := 0);
      }
    }

    method ForcePause(m: string, reason: string)
      requires Valid()
      modifies this
      ensures Valid()
      ensures rows == old(rows)[m := Apply(cfg, RowIn(old(rows), m), Force(reason))]
      ensures lives == old(lives)[m := Life(LifeIn(old(lives), m).start, LifeIn(old(lives), m).ops + [Force(reason)])]
      ensures notices == old(notices) + if RowIn(old(rows), m).paused then [] else [Notice(m, reason)]
    {
      hide Consistent, AfterErrors, AfterLatency, Since;
      StepConsistent(cfg, rows, lives, notices, m, Force(reason), reason);
      var row := StateOf(m);
      lives := lives[m := Life(LifeIn(lives, m).start, LifeIn(lives, m).ops + [Force(reason)])];
      assert lives == old(lives)[m := lives[m]] && old(notices) + [] == notices;
      if row.paused { return; }
      rows := rows[m := row.(paused := true, reason := Some(reason), anomalySent := true)];
      assert rows == old(rows)[m := rows[m]] && lives == old(lives)[m := lives[m]];
      notices := notices + [Notice(m, reason)];
    }

    /** `reset_paused(module)` for a name that is not empty; an empty one stands for `ResetAll` without the state file. */
    method ResetModule(m: string) returns (cleared: bool)
      requires Valid()
      modifies this
      ensures Valid() && cleared == RowIn(old(rows), m).paused
      ensures rows == old(rows)[m := Apply(cfg, RowIn(old(rows), m), Reset)]
      ensures lives == old(lives)[m := Life(LifeIn(old(lives), m).start, LifeIn(old(lives), m).ops + [Reset])]
      ensures notices == old(notices)
    {
      hide Consistent, AfterErrors, AfterLatency, Since;
      StepConsistent(cfg, rows, lives, notices, m, Reset, "");
      var row := StateOf(m);
      lives := lives[m := Life(LifeIn(lives, m).start, LifeIn(lives, m).ops + [Reset])];
      assert lives == old(lives)[m := lives[m]] && old(notices) + [] == notices;
      cleared := row.paused;
      if !cleared { return; }
      rows := rows[m := row.(paused := false, reason := None, consecutiveBad := 0, anomalySent := false)];
      assert rows == old(rows)[m := rows[m]] && lives == old(lives)[m := lives[m]];
    }

    lemma UsableNow()
      requires Valid()
      ensures Usable(cfg)
    {
    }

    lemma RowReplays(m: string)
      requires Valid()
      ensures Usable(cfg)
      ensures RowIn(rows, m) == Replay(cfg, LifeIn(lives, m).start, LifeIn(lives, m).ops)
    {
      hide Apply;
    }

    /** The loop of `reset_paused`. */
    method ResetEach(names: set<string>) returns (cleared: set<string>)
      requires Valid()
      modifies this
      ensures Valid() && notices == old(notices)
      ensures Usable(cfg) && rows == ResetRows(cfg, old(rows), names) && cleared == PausedIn(old(rows), names)
    {
      UsableNow();
      hide Apply, Consistent, ResetRows, RowIn, PausedIn;
      ResetNone(cfg, rows);
      var left := names;
      cleared := {};
      while left != {}
        invariant Valid() && notices == old(notices) && left <= names
        invariant rows == ResetRows(cfg, old(rows), names - left) && cleared == PausedIn(old(rows), names - left)
      {
        var m :| m in left;
        ResetOne(cfg, old(rows), names - left, m);
        var was := ResetModule(m);
        if was { cleared := cleared + {m}; }
        assert names - (left - {m}) == names - left + {m};
        left := left - {m};
      }
      assert names - left == names;
    }

    /** `reset_paused()`, with the names that the state file holds as paused: every name of them and of the paused
        rows but the empty one gets a row, and exactly the paused ones are cleared. */
    method ResetAll(persisted: set<string>) returns (cleared: set<string>)
      requires Valid()
      modifies this
      ensures Valid() && notices == old(notices)
      ensures cleared == set m | m in old(rows) && m != "" && old(rows)[m].paused
      ensures Usable(cfg) && rows.Keys == old(rows).Keys + (persisted - {""})
      ensures forall m ::
        RowIn(rows, m) == if m == "" then RowIn(old(rows), m) else Apply(cfg, RowIn(old(rows), m), Reset)
    {
      UsableNow();
      hide Apply, Consistent, ResetRows, RowIn, PausedIn;
      var names := (set m | m in rows && rows[m].paused) + persisted - {""};
      ResetRest(cfg, rows, names, persisted);
      cleared := ResetEach(names);
    }

    /** `apply_limit` for a whole-number limit. */
    method ApplyIntLimit(m: string, value: int) returns (r: int)
      requires Valid()
      modifies this
      ensures Valid() && r == IntLimit(RowIn(old(rows), m).throttle, value)
      ensures rows == old(rows)[m := RowIn(old(rows), m)] && notices == old(notices)
      ensures lives == old(lives)[m := LifeIn(old(lives), m)]
    {
      hide Consistent, Truncate, Scaled;
      var row := StateOf(m);
      r := Truncate(Scaled(value, row.throttle));
      if r < 1 { r := 1; }
    }
  }

  /** Python's `int(x)`. */
  function Truncate(x: real): int {
    if x >= 0.0 then x.Floor else -((-x).Floor)
  }

  function Scaled(value: int, factor: real): real {
    value as real * factor
  }

  function IntLimit(factor: real, value: int): int {
    var n := Truncate(Scaled(value, factor));
    if n < 1 then 1 else n
  }

  function Count(notices: seq<Notice>, m: string): nat {
    if notices == [] then 0
    else Count(notices[..|notices| - 1], m) + if notices[|notices| - 1].moduleName == m then 1 else 0
  }

  lemma CountNext(notices: seq<Notice>, n: Notice)
    ensures forall m :: Count(notices + [n], m) == Count(notices, m) + if m == n.moduleName then 1 else 0
  {
    assert (notices + [n])[..|notices|] == notices;
  }

  /** How often the module went from running to paused. */
  function Raises(cfg: Config, start: Row, ops: seq<Op>): nat
    requires Usable(cfg)
  {
    if ops == [] then 0
    else
      var before := Replay(cfg, start, ops[..|ops| - 1]);
      Raises(cfg, start, ops[..|ops| - 1])
      + if !before.paused && Apply(cfg, before, ops[|ops| - 1]).paused then 1 else 0
  }

  lemma NextLife(cfg: Config, start: Row, ops: seq<Op>, op: Op)
    requires Usable(cfg)
    ensures Replay(cfg, start, ops + [op]) == Apply(cfg, Replay(cfg, start, ops), op)
    ensures Raises(cfg, start, ops + [op]) == Raises(cfg, start, ops)
      + if !Replay(cfg, start, ops).paused && Apply(cfg, Replay(cfg, start, ops), op).paused then 1 else 0
  {
    assert (ops + [op])[..|ops|] == ops;
  }
}
