/** The breaker's counters against the whole history of a module, on a clock that never runs back. */
module BreakerTheorems {
  import opened Basics
  import opened Breaker

  // ------------------------------------------------------------- histories

  ghost predicate ClockOrdered(ops: seq<Op>) {
    forall i, j :: 0 <= i < j < |ops| && ops[i].Record? && ops[j].Record? ==> ops[i].event.ts <= ops[j].event.ts
  }

  /** The events recorded while the module was not paused. */
  ghost function Accepted(cfg: Config, start: Row, ops: seq<Op>): seq<Event>
    requires Usable(cfg)
  {
    if ops == [] then []
    else
      var n := |ops| - 1;
      Accepted(cfg, start, ops[..n])
      + if ops[n].Record? && !Replay(cfg, start, ops[..n]).paused then [ops[n].event] else []
  }

  /** The accepted events of the window that ends with the last one. */
  ghost function Window(cfg: Config, acc: seq<Event>): seq<Event> {
    if acc == [] then [] else Since(acc, acc[|acc| - 1].ts - cfg.windowSec)
  }

  ghost function LastWindow(cfg: Config, acc: seq<Event>): int
    requires acc != []
  {
    WindowId(cfg, acc[|acc| - 1].ts)
  }

  /** One evaluation of the error ratio, or a reset that cleared a pause. */
  datatype Mark = Bad(window: int) | Healthy | Cleared

  ghost function Marks(cfg: Config, start: Row, ops: seq<Op>): seq<Mark>
    requires Usable(cfg)
  {
    if ops == [] then []
    else
      var n := |ops| - 1;
      var before := Replay(cfg, start, ops[..n]);
      Marks(cfg, start, ops[..n])
      + match ops[n]
        case Record(e) =>
          if before.paused then []
          else if TooManyErrors(cfg, Window(cfg, Accepted(cfg, start, ops[..n]) + [e])) then [Bad(WindowId(cfg, e.ts))]
          else [Healthy]
        case Force(_) => []
        case Reset => if before.paused then [Cleared] else []
  }

  // ------------------------------------------------------------- the retained events

  lemma AcceptedSnoc(cfg: Config, start: Row, ops: seq<Op>, op: Op)
    requires Usable(cfg)
    ensures Accepted(cfg, start, ops + [op]) == Accepted(cfg, start, ops)
      + if op.Record? && !Replay(cfg, start, ops).paused then [op.event] else []
  {
    assert (ops + [op])[..|ops|] == ops;
    hide Replay;
  }

  lemma MarksSnoc(cfg: Config, start: Row, ops: seq<Op>, op: Op)
    requires Usable(cfg)
    ensures var before := Replay(cfg, start, ops);
      Marks(cfg, start, ops + [op]) == Marks(cfg, start, ops)
      + match op
        case Record(e) =>
          if before.paused then []
          else if TooManyErrors(cfg, Window(cfg, Accepted(cfg, start, ops) + [e])) then [Bad(WindowId(cfg, e.ts))]
          else [Healthy]
        case Force(_) => []
        case Reset => if before.paused then [Cleared] else []
  {
    assert (ops + [op])[..|ops|] == ops;
    hide Replay, Accepted, Window, TooManyErrors, WindowId;
  }

  lemma ReplaySnoc(cfg: Config, start: Row, ops: seq<Op>, op: Op)
    requires Usable(cfg)
    ensures Replay(cfg, start, ops + [op]) == Apply(cfg, Replay(cfg, start, ops), op)
  {
    assert (ops + [op])[..|ops|] == ops;
    hide Apply;
  }

  lemma Unsnoc<T>(xs: seq<T>)
    requires xs != []
    ensures xs == xs[..|xs| - 1] + [xs[|xs| - 1]]
  {
  }

  lemma SinceSnoc(xs: seq<Event>, x: Event, cutoff: real)
    ensures Since(xs + [x], cutoff) == Since(xs, cutoff) + if x.ts >= cutoff then [x] else []
  {
    assert (xs + [x])[..|xs|] == xs;
  }

  lemma {:induction false} SinceTwice(xs: seq<Event>, c1: real, c2: real)
    requires c1 <= c2
    ensures Since(Since(xs, c1), c2) == Since(xs, c2)
  {
    if xs != [] {
      var n := |xs| - 1;
      SinceTwice(xs[..n], c1, c2);
      SinceSnoc(Since(xs[..n], c1), xs[n], c2);
      assert Since(xs[..n], c1) + [] == Since(xs[..n], c1);
    }
  }

  lemma WindowOf(cfg: Config, acc: seq<Event>, e: Event)
    ensures Window(cfg, acc + [e]) == Since(acc + [e], e.ts - cfg.windowSec)
    ensures acc == [] ==> Window(cfg, acc) == [] == Since(acc, e.ts - cfg.windowSec)
  {
    assert (acc + [e])[|acc|] == e;
  }

  lemma WindowAgain(cfg: Config, acc: seq<Event>, cutoff: real)
    requires acc != [] && acc[|acc| - 1].ts - cfg.windowSec <= cutoff
    ensures Since(Window(cfg, acc), cutoff) == Since(acc, cutoff)
  {
    hide Since;
    SinceTwice(acc, acc[|acc| - 1].ts - cfg.windowSec, cutoff);
  }

  lemma WindowStep(cfg: Config, acc: seq<Event>, e: Event)
    requires cfg.windowSec >= 0.0
    requires acc != [] ==> acc[|acc| - 1].ts <= e.ts
    ensures Since(Window(cfg, acc) + [e], e.ts - cfg.windowSec) == Window(cfg, acc + [e])
    ensures Window(cfg, acc + [e]) != []
  {
    hide Since, Window;
    var cutoff := e.ts - cfg.windowSec;
    WindowOf(cfg, acc, e);
    if acc != [] { WindowAgain(cfg, acc, cutoff); }
    SinceSnoc(Window(cfg, acc), e, cutoff);
    SinceSnoc(acc, e, cutoff);
  }

  lemma OrderedPrefix(ops: seq<Op>, n: nat)
    requires ClockOrdered(ops) && n <= |ops|
    ensures ClockOrdered(ops[..n])
  {
  }

  lemma AcceptedBefore(cfg: Config, start: Row, ops: seq<Op>, e: Event)
    requires Usable(cfg) && ClockOrdered(ops + [Record(e)])
    ensures var acc := Accepted(cfg, start, ops); acc != [] ==> acc[|acc| - 1].ts <= e.ts
  {
    hide Accepted, Replay;
    var acc := Accepted(cfg, start, ops);
    if acc != [] {
      var i := LastAccepted(cfg, start, ops);
      assert (ops + [Record(e)])[i] == ops[i] && (ops + [Record(e)])[|ops|] == Record(e);
    }
  }

  lemma {:induction false} LastAccepted(cfg: Config, start: Row, ops: seq<Op>) returns (i: nat)
    requires Usable(cfg) && Accepted(cfg, start, ops) != []
    ensures i < |ops| && ops[i] == Record(Accepted(cfg, start, ops)[|Accepted(cfg, start, ops)| - 1])
  {
    var n := |ops| - 1;
    Unsnoc(ops);
    AcceptedSnoc(cfg, start, ops[..n], ops[n]);
    hide Accepted, Replay;
    if ops[n].Record? && !Replay(cfg, start, ops[..n]).paused {
      i := n;
    } else {
      i := LastAccepted(cfg, start, ops[..n]);
    }
  }

  lemma EventsUntouched(cfg: Config, row: Row, w: int)
    requires Usable(cfg)
    ensures AfterLatency(cfg, AfterErrors(cfg, row, w), w).events == row.events
  {
  }

  lemma IdleOps(cfg: Config, row: Row, op: Op)
    requires Usable(cfg) && (row.paused || !op.Record?)
    ensures Apply(cfg, row, op).events == row.events && Apply(cfg, row, op).baseline == row.baseline
    ensures Apply(cfg, row, op).throttle == row.throttle && Apply(cfg, row, op).lastBad == row.lastBad
    ensures Apply(cfg, row, op).lastLatencyBad == row.lastLatencyBad
    ensures Apply(cfg, row, op).consecutiveBad == if op == Reset && row.paused then 0 else row.consecutiveBad
  {
  }

  lemma RecordShape(cfg: Config, row: Row, e: Event)
    requires Usable(cfg) && !row.paused
    ensures var kept := Since(row.events + [e], e.ts - cfg.windowSec);
      var w := WindowId(cfg, e.ts);
      Apply(cfg, row, Record(e)) == AfterLatency(cfg, AfterErrors(cfg, row.(events := kept), w), w)
  {
    hide AfterErrors, AfterLatency, Since, WindowId;
  }

  lemma RetainStep(cfg: Config, start: Row, ops: seq<Op>, op: Op)
    requires Usable(cfg) && Start(start) && ClockOrdered(ops + [op])
    requires Replay(cfg, start, ops).events == Window(cfg, Accepted(cfg, start, ops))
    ensures Replay(cfg, start, ops + [op]).events == Window(cfg, Accepted(cfg, start, ops + [op]))
  {
    var before := Replay(cfg, start, ops);
    var acc := Accepted(cfg, start, ops);
    ReplaySnoc(cfg, start, ops, op);
    AcceptedSnoc(cfg, start, ops, op);
    if op.Record? && !before.paused {
      var e := op.event;
      AcceptedBefore(cfg, start, ops, e);
      WindowStep(cfg, acc, e);
      RecordShape(cfg, before, e);
      EventsUntouched(cfg, before.(events := Window(cfg, acc + [e])), WindowId(cfg, e.ts));
    } else {
      IdleOps(cfg, before, op);
      assert acc + [] == acc;
    }
    hide *;
  }

  /** The events a row keeps are exactly the window filter of everything it ever accepted. */
  lemma {:induction false} RetainedEvents(cfg: Config, start: Row, ops: seq<Op>)
    requires Usable(cfg) && Start(start) && ClockOrdered(ops)
    ensures Replay(cfg, start, ops).events == Window(cfg, Accepted(cfg, start, ops))
  {
    if ops != [] {
      Unsnoc(ops);
      OrderedPrefix(ops, |ops| - 1);
      RetainedEvents(cfg, start, ops[..|ops| - 1]);
      RetainStep(cfg, start, ops[..|ops| - 1], ops[|ops| - 1]);
      hide *;
    }
  }

  // ------------------------------------------------------------- window ids

  lemma DivMonotone(a: real, b: real, d: real)
    requires a <= b && d > 0.0
    ensures a / d <= b / d
  {
    assert (b - a) / d >= 0.0;
    assert b / d - a / d == (b - a) / d;
  }

  lemma WindowMonotone(cfg: Config, a: real, b: real)
    requires cfg.windowSec >= 0.0 && a <= b
    ensures WindowId(cfg, a) <= WindowId(cfg, b)
  {
    if cfg.windowSec > 0.0 { DivMonotone(a, b, cfg.windowSec); }
  }

  // ------------------------------------------------------------- the consecutive-bad counter

  /** Where the run of bad evaluations since the last healthy one, or the last clearing reset, begins. */
  ghost function Tail(ms: seq<Mark>): (i: nat)
    ensures i <= |ms|
    ensures forall k :: i <= k < |ms| ==> ms[k].Bad?
    ensures i > 0 ==> !ms[i - 1].Bad?
  {
    if ms == [] then 0
    else if ms[|ms| - 1].Bad? then Tail(ms[..|ms| - 1])
    else |ms|
  }

  /** Window `w` had a bad evaluation, and all its bad evaluations lie in the current run. */
  ghost predicate Fresh(ms: seq<Mark>, w: int) {
    && (exists i :: Tail(ms) <= i < |ms| && ms[i] == Bad(w))
    && (forall i :: 0 <= i < Tail(ms) ==> ms[i] != Bad(w))
  }

  ghost predicate NoneAfter(ms: seq<Mark>, w: int) {
    forall i :: 0 <= i < |ms| && ms[i].Bad? ==> ms[i].window <= w
  }

  ghost predicate Seen(ms: seq<Mark>, w: int) {
    exists i :: 0 <= i < |ms| && ms[i] == Bad(w)
  }

  /** What the counter means: the fresh windows w, w - 1, ..., w - c + 1 and no longer a run. */
  ghost predicate Streak(ms: seq<Mark>, w: int, c: int) {
    c >= 0 && (forall v :: w - c < v <= w ==> Fresh(ms, v)) && !Fresh(ms, w - c)
  }

  ghost predicate Tracks(row: Row, ms: seq<Mark>) {
    match row.lastBad
    case None => row.consecutiveBad == 0 && forall i :: 0 <= i < |ms| ==> !ms[i].Bad?
    case Some(w) => NoneAfter(ms, w) && Seen(ms, w) && Streak(ms, w, row.consecutiveBad)
  }

  lemma TailBad(ms: seq<Mark>, v: int)
    ensures Tail(ms + [Bad(v)]) == Tail(ms)
  {
    assert (ms + [Bad(v)])[..|ms|] == ms;
  }

  lemma FreshAfterBad(ms: seq<Mark>, v: int, w: int)
    ensures w != v ==> (Fresh(ms + [Bad(v)], w) <==> Fresh(ms, w))
    ensures Fresh(ms + [Bad(v)], v) <==> (Fresh(ms, v) || !Seen(ms, v))
  {
    TailBad(ms, v);
    var ms' := ms + [Bad(v)];
    hide Tail;
    assert ms'[|ms|] == Bad(v);
    assert forall i :: 0 <= i < |ms| ==> ms'[i] == ms[i];
    if Fresh(ms, w) {
      var i :| Tail(ms) <= i < |ms| && ms[i] == Bad(w);
      assert ms'[i] == Bad(w);
    }
  }

  lemma NothingFresh(ms: seq<Mark>, m: Mark, w: int)
    requires !m.Bad?
    ensures !Fresh(ms + [m], w)
  {
  }

  lemma TracksQuiet(row: Row, row': Row, ms: seq<Mark>, m: Mark)
    requires Tracks(row, ms) && !m.Bad?
    requires row'.lastBad == row.lastBad && row'.consecutiveBad == 0
    ensures Tracks(row', ms + [m])
  {
    if row.lastBad.Some? {
      var w := row.lastBad.value;
      NothingFresh(ms, m, w);
      var i :| 0 <= i < |ms| && ms[i] == Bad(w);
      assert (ms + [m])[i] == Bad(w);
    }
  }

  lemma TracksBad(row: Row, row': Row, ms: seq<Mark>, v: int)
    requires Tracks(row, ms)
    requires row.lastBad.Some? ==> row.lastBad.value <= v
    requires row'.lastBad == Some(v)
    requires row'.consecutiveBad
          == if row.lastBad == Some(v) then row.consecutiveBad
             else if row.lastBad == Some(v - 1) then row.consecutiveBad + 1
             else 1
    ensures Tracks(row', ms + [Bad(v)])
  {
    var ms' := ms + [Bad(v)];
    hide Fresh;
    assert ms'[|ms|] == Bad(v);
    assert Seen(ms', v);
    assert NoneAfter(ms', v);
    forall w ensures w != v ==> (Fresh(ms', w) <==> Fresh(ms, w))
             ensures Fresh(ms', v) <==> (Fresh(ms, v) || !Seen(ms, v)) {
      FreshAfterBad(ms, v, w);
    }
    if row.lastBad == Some(v) {
      StreakSame(ms, ms', v, row.consecutiveBad);
    } else {
      assert !Seen(ms, v);
      if row.lastBad == Some(v - 1) {
        assert !Fresh(ms, (v - 1) - row.consecutiveBad);
      } else {
        NotSeenNotFresh(ms, v - 1);
      }
    }
  }

  lemma NotSeenNotFresh(ms: seq<Mark>, w: int)
    requires !Seen(ms, w)
    ensures !Fresh(ms, w)
  {
  }

  lemma StreakSame(ms: seq<Mark>, ms': seq<Mark>, v: int, c: int)
    requires Streak(ms, v, c) && Seen(ms, v)
    requires forall w :: w != v ==> (Fresh(ms', w) <==> Fresh(ms, w))
    requires Fresh(ms', v) <==> Fresh(ms, v)
    ensures Streak(ms', v, c)
  {
    hide Fresh;
  }

  lemma ErrorsCounters(cfg: Config, row: Row, w: int)
    requires Usable(cfg) && row.events != [] && !row.paused
    ensures var r := AfterLatency(cfg, AfterErrors(cfg, row, w), w);
      if TooManyErrors(cfg, row.events) then
        && r.lastBad == Some(w)
        && r.consecutiveBad == (if row.lastBad == Some(w) then row.consecutiveBad
                                else if row.lastBad == Some(w - 1) then row.consecutiveBad + 1 else 1)
        && (r.paused <==> r.consecutiveBad >= cfg.badWindows)
      else r.lastBad == row.lastBad && r.consecutiveBad == 0 && !r.paused
  {
    hide TooManyErrors, Latencies;
  }

  ghost predicate BoundedBy(cfg: Config, row: Row, acc: seq<Event>) {
    row.lastBad.Some? ==> acc != [] && row.lastBad.value <= LastWindow(cfg, acc)
  }

  /** An accepted record evaluates exactly the window of everything accepted so far. */
  lemma AcceptedStep(cfg: Config, start: Row, ops: seq<Op>, e: Event)
    requires Usable(cfg) && Start(start) && ClockOrdered(ops + [Record(e)]) && !Replay(cfg, start, ops).paused
    ensures var acc := Accepted(cfg, start, ops);
      var before := Replay(cfg, start, ops);
      var w := WindowId(cfg, e.ts);
      && (acc != [] ==> acc[|acc| - 1].ts <= e.ts)
      && Window(cfg, acc + [e]) != []
      && Accepted(cfg, start, ops + [Record(e)]) == acc + [e]
      && Replay(cfg, start, ops + [Record(e)])
         == AfterLatency(cfg, AfterErrors(cfg, before.(events := Window(cfg, acc + [e])), w), w)
  {
    assert (ops + [Record(e)])[..|ops|] == ops;
    OrderedPrefix(ops + [Record(e)], |ops|);
    RetainedEvents(cfg, start, ops);
    AcceptedBefore(cfg, start, ops, e);
    WindowStep(cfg, Accepted(cfg, start, ops), e);
    AcceptedSnoc(cfg, start, ops, Record(e));
    ReplaySnoc(cfg, start, ops, Record(e));
    RecordShape(cfg, Replay(cfg, start, ops), e);
    hide *;
  }

  lemma CounterStep(cfg: Config, start: Row, ops: seq<Op>, op: Op)
    requires Usable(cfg) && Start(start) && ClockOrdered(ops + [op])
    requires Tracks(Replay(cfg, start, ops), Marks(cfg, start, ops))
    requires BoundedBy(cfg, Replay(cfg, start, ops), Accepted(cfg, start, ops))
    ensures Tracks(Replay(cfg, start, ops + [op]), Marks(cfg, start, ops + [op]))
    ensures BoundedBy(cfg, Replay(cfg, start, ops + [op]), Accepted(cfg, start, ops + [op]))
  {
    hide Replay, Marks, Accepted, Apply, Tracks, Window, TooManyErrors, AfterErrors, AfterLatency, WindowId;
    var before := Replay(cfg, start, ops);
    var after := Replay(cfg, start, ops + [op]);
    var acc, ms := Accepted(cfg, start, ops), Marks(cfg, start, ops);
    ReplaySnoc(cfg, start, ops, op);
    AcceptedSnoc(cfg, start, ops, op);
    MarksSnoc(cfg, start, ops, op);
    if op.Record? && !before.paused {
      var e := op.event;
      var w := WindowId(cfg, e.ts);
      AcceptedStep(cfg, start, ops, e);
      var fed := before.(events := Window(cfg, acc + [e]));
      ErrorsCounters(cfg, fed, w);
      if acc != [] { WindowMonotone(cfg, acc[|acc| - 1].ts, e.ts); }
      if TooManyErrors(cfg, Window(cfg, acc + [e])) {
        TracksBad(before, after, ms, w);
      } else {
        TracksQuiet(before, after, ms, Healthy);
      }
    } else {
      IdleOps(cfg, before, op);
      assert acc + [] == acc && ms + [] == ms;
      if op == Reset && before.paused {
        TracksQuiet(before, after, ms, Cleared);
      } else {
        TracksSame(before, after, ms);
      }
    }
  }

  lemma TracksSame(row: Row, row': Row, ms: seq<Mark>)
    requires Tracks(row, ms) && row'.lastBad == row.lastBad && row'.consecutiveBad == row.consecutiveBad
    ensures Tracks(row', ms)
  {
    hide Streak, NoneAfter, Seen;
  }

  lemma TracksStart(cfg: Config, start: Row)
    requires Usable(cfg) && Start(start)
    ensures Tracks(Replay(cfg, start, []), Marks(cfg, start, []))
    ensures BoundedBy(cfg, Replay(cfg, start, []), Accepted(cfg, start, []))
  {
  }

  /** After every run, the counter is the exact length of the current streak of fresh bad windows. */
  lemma {:induction false} CounterIsStreak(cfg: Config, start: Row, ops: seq<Op>)
    requires Usable(cfg) && Start(start) && ClockOrdered(ops)
    ensures Tracks(Replay(cfg, start, ops), Marks(cfg, start, ops))
    ensures BoundedBy(cfg, Replay(cfg, start, ops), Accepted(cfg, start, ops))
  {
    hide Replay, Marks, Accepted, Tracks, BoundedBy;
    if ops == [] {
      TracksStart(cfg, start);
    } else {
      Unsnoc(ops);
      OrderedPrefix(ops, |ops| - 1);
      CounterIsStreak(cfg, start, ops[..|ops| - 1]);
      CounterStep(cfg, start, ops[..|ops| - 1], ops[|ops| - 1]);
    }
  }

  /** A record raises a pause exactly when its evaluation is bad and the last `badWindows` window ids are all fresh:
      each has a bad evaluation, and none of its bad evaluations precedes a healthy one or a clearing reset. */
  lemma PauseExactly(cfg: Config, start: Row, ops: seq<Op>, e: Event)
    requires Usable(cfg) && Start(start) && ClockOrdered(ops + [Record(e)]) && !Replay(cfg, start, ops).paused
    ensures var ms := Marks(cfg, start, ops + [Record(e)]);
      var w := WindowId(cfg, e.ts);
      Replay(cfg, start, ops + [Record(e)]).paused <==>
        ms != [] && ms[|ms| - 1] == Bad(w) && forall v :: w - cfg.badWindows < v <= w ==> Fresh(ms, v)
  {
    hide Replay, Marks, Accepted, Window, TooManyErrors, AfterErrors, AfterLatency, WindowId, Fresh;
    var ms := Marks(cfg, start, ops + [Record(e)]);
    var w := WindowId(cfg, e.ts);
    var before := Replay(cfg, start, ops);
    CounterIsStreak(cfg, start, ops + [Record(e)]);
    MarksSnoc(cfg, start, ops, Record(e));
    AcceptedStep(cfg, start, ops, e);
    ErrorsCounters(cfg, before.(events := Window(cfg, Accepted(cfg, start, ops) + [e])), w);
  }

  lemma {:induction false} MarksGrow(cfg: Config, start: Row, ops: seq<Op>, more: seq<Op>)
    requires Usable(cfg)
    ensures Marks(cfg, start, ops) <= Marks(cfg, start, ops + more)
  {
    hide Marks;
    if more == [] {
      assert ops + more == ops;
    } else {
      var n := |more| - 1;
      MarksGrow(cfg, start, ops, more[..n]);
      assert ops + more == (ops + more[..n]) + [more[n]];
      MarksSnoc(cfg, start, ops + more[..n], more[n]);
    }
  }

  lemma FreshIsLate(ms: seq<Mark>, k: nat, v: int)
    requires k < |ms| && !ms[k].Bad? && Fresh(ms, v)
    ensures exists i :: k < i < |ms| && ms[i] == Bad(v)
    ensures forall i :: 0 <= i < k ==> ms[i] != Bad(v)
  {
    assert Tail(ms) > k;
  }

  /** After a reset that cleared a pause, a new pause by `record` takes `badWindows` consecutive windows that are bad
      after the reset and were never bad before it. */
  lemma PauseAfterReset(cfg: Config, start: Row, before: seq<Op>, later: seq<Op>, e: Event, v: int)
    requires Usable(cfg) && Start(start) && ClockOrdered(before + [Reset] + later + [Record(e)])
    requires Replay(cfg, start, before).paused
    requires var ops := before + [Reset] + later;
      !Replay(cfg, start, ops).paused && Replay(cfg, start, ops + [Record(e)]).paused
    requires WindowId(cfg, e.ts) - cfg.badWindows < v <= WindowId(cfg, e.ts)
    ensures var k := |Marks(cfg, start, before)|;
      var ms := Marks(cfg, start, before + [Reset] + later + [Record(e)]);
      && k < |ms|
      && (exists i :: k < i < |ms| && ms[i] == Bad(v))
      && (forall i :: 0 <= i < k ==> ms[i] != Bad(v))
  {
    hide Replay, Marks, WindowId;
    var ops := before + [Reset] + later;
    var ms := Marks(cfg, start, ops + [Record(e)]);
    PauseExactly(cfg, start, ops, e);
    MarksSnoc(cfg, start, before, Reset);
    assert ops + [Record(e)] == (before + [Reset]) + (later + [Record(e)]);
    MarksGrow(cfg, start, before + [Reset], later + [Record(e)]);
    var k := |Marks(cfg, start, before)|;
    assert ms[k] == Marks(cfg, start, before + [Reset])[k] == Cleared;
    FreshIsLate(ms, k, v);
  }

  // ------------------------------------------------------------- the exact throttle

  /** The windows with an error-bad evaluation. */
  ghost function NoisyWindows(cfg: Config, start: Row, ops: seq<Op>): set<int>
    requires Usable(cfg)
  {
    var ms := Marks(cfg, start, ops);
    set i | 0 <= i < |ms| && ms[i].Bad? :: ms[i].window
  }

  /** The first average latency the module ever showed. */
  ghost function Baseline(cfg: Config, acc: seq<Event>): Option<real> {
    if acc == [] then None
    else
      Settle(Baseline(cfg, acc[..|acc| - 1]), Latencies(cfg, Window(cfg, acc)))
  }

  ghost predicate Drifted(cfg: Config, first: Option<real>, ls: seq<real>) {
    first.Some? && ls != [] && Average(ls) > first.value * cfg.latencyMultiplier
  }

  ghost function Settle(first: Option<real>, ls: seq<real>): Option<real> {
    if first.Some? then first else if ls == [] then None else Some(Average(ls))
  }

  /** The evaluation at the last accepted event finds the average latency drifted above the baseline. */
  ghost predicate Slow(cfg: Config, acc: seq<Event>) {
    acc != [] && Drifted(cfg, Baseline(cfg, acc[..|acc| - 1]), Latencies(cfg, Window(cfg, acc)))
  }

  /** The windows with a latency-bad evaluation. */
  ghost function SlowWindows(cfg: Config, acc: seq<Event>): set<int> {
    if acc == [] then {}
    else SlowWindows(cfg, acc[..|acc| - 1]) + if Slow(cfg, acc) then {LastWindow(cfg, acc)} else {}
  }

  function Pow(d: real, n: nat): real {
    if n == 0 then 1.0 else d * Pow(d, n - 1)
  }

  /** Throttle times divisor to the number of bad windows is one. */
  ghost predicate Rate(cfg: Config, throttle: real, n: nat) {
    throttle * Pow(cfg.divisor, n) == 1.0
  }

  lemma RateStep(cfg: Config, throttle: real, n: nat)
    requires Usable(cfg) && Rate(cfg, throttle, n)
    ensures Rate(cfg, Slower(cfg, throttle), n + 1)
  {
    var d, p := cfg.divisor, Pow(cfg.divisor, n);
    assert throttle / d * (d * p) == (throttle / d * d) * p;
    assert throttle / d * d == throttle;
  }

  lemma LatencyCounters(cfg: Config, row: Row, w: int)
    requires Usable(cfg)
    ensures var ls := Latencies(cfg, row.events);
      var r := AfterLatency(cfg, row, w);
      var bad := Drifted(cfg, row.baseline, ls);
      && r.baseline == Settle(row.baseline, ls)
      && r.lastLatencyBad == (if bad then Some(w) else row.lastLatencyBad)
      && r.throttle == (if bad && row.lastLatencyBad != Some(w) then Slower(cfg, row.throttle) else row.throttle)
  {
    hide Latencies, Average;
  }

  lemma ErrorRate(cfg: Config, row: Row, w: int)
    requires Usable(cfg) && row.events != []
    ensures var bad := TooManyErrors(cfg, row.events);
      var r := AfterErrors(cfg, row, w);
      && r.throttle == (if bad && row.lastBad != Some(w) then Slower(cfg, row.throttle) else row.throttle)
      && r.baseline == row.baseline && r.lastLatencyBad == row.lastLatencyBad && r.events == row.events
  {
    hide TooManyErrors;
  }

  /** The latency half of the row against the accepted events. */
  ghost predicate Drift(cfg: Config, row: Row, acc: seq<Event>) {
    && row.baseline == Baseline(cfg, acc)
    && (row.lastLatencyBad.Some? ==>
         acc != [] && row.lastLatencyBad.value in SlowWindows(cfg, acc)
         && row.lastLatencyBad.value <= LastWindow(cfg, acc))
    && forall v :: v in SlowWindows(cfg, acc) ==> row.lastLatencyBad.Some? && v <= row.lastLatencyBad.value
  }

  ghost predicate Law(cfg: Config, row: Row, noisy: set<int>, acc: seq<Event>) {
    Drift(cfg, row, acc) && Rate(cfg, row.throttle, |noisy| + |SlowWindows(cfg, acc)|)
  }

  lemma AddWindow(s: set<int>, last: Option<int>, w: int)
    requires forall v :: v in s ==> last.Some? && v <= last.value
    requires last.Some? ==> last.value in s && last.value <= w
    ensures w in s <==> last == Some(w)
    ensures |s + {w}| == |s| + if last == Some(w) then 0 else 1
  {
    if w in s { assert s + {w} == s; }
  }

  lemma SlowSnoc(cfg: Config, acc: seq<Event>, e: Event)
    ensures var bad := Drifted(cfg, Baseline(cfg, acc), Latencies(cfg, Window(cfg, acc + [e])));
      SlowWindows(cfg, acc + [e]) == SlowWindows(cfg, acc) + if bad then {WindowId(cfg, e.ts)} else {}
    ensures LastWindow(cfg, acc + [e]) == WindowId(cfg, e.ts)
    ensures Baseline(cfg, acc + [e]) == Settle(Baseline(cfg, acc), Latencies(cfg, Window(cfg, acc + [e])))
  {
    hide Latencies, Drifted, Settle, Window, WindowId;
    assert (acc + [e])[..|acc|] == acc && (acc + [e])[|acc|] == e;
  }

  lemma NoisySnoc(cfg: Config, start: Row, ops: seq<Op>, op: Op)
    requires Usable(cfg)
    ensures NoisyWindows(cfg, start, ops + [op])
         == NoisyWindows(cfg, start, ops)
            + (if op.Record? && !Replay(cfg, start, ops).paused
                  && TooManyErrors(cfg, Window(cfg, Accepted(cfg, start, ops) + [op.event]))
               then {WindowId(cfg, op.event.ts)} else {})
  {
    hide Marks, Replay, Accepted, TooManyErrors, Window, WindowId;
    MarksSnoc(cfg, start, ops, op);
    var ms, ms' := Marks(cfg, start, ops), Marks(cfg, start, ops + [op]);
    assert forall i :: 0 <= i < |ms| ==> ms'[i] == ms[i];
    if |ms'| > |ms| { assert ms'[|ms|] == ms'[|ms'| - 1]; }
    var a, b := NoisyWindows(cfg, start, ops), NoisyWindows(cfg, start, ops + [op]);
    forall v | v in a ensures v in b {
      var i :| 0 <= i < |ms| && ms[i].Bad? && ms[i].window == v;
      assert ms'[i].window == v;
    }
  }

  lemma NoisyTracks(row: Row, cfg: Config, start: Row, ops: seq<Op>)
    requires Usable(cfg) && Tracks(row, Marks(cfg, start, ops))
    ensures forall v :: v in NoisyWindows(cfg, start, ops) ==> row.lastBad.Some? && v <= row.lastBad.value
    ensures row.lastBad.Some? ==> row.lastBad.value in NoisyWindows(cfg, start, ops)
  {
    hide Marks, Streak;
    var ms := Marks(cfg, start, ops);
    if row.lastBad.Some? {
      var i :| 0 <= i < |ms| && ms[i] == Bad(row.lastBad.value);
      assert ms[i].window == row.lastBad.value;
    }
  }

  lemma RateAdvance(
    cfg: Config, t0: real, t1: real, t2: real, w: int, noisy: set<int>, lastBad: Option<int>, errBad: bool,
    slow: set<int>, lastSlow: Option<int>, slowBad: bool)
    requires Usable(cfg) && Rate(cfg, t0, |noisy| + |slow|)
    requires forall v :: v in noisy ==> lastBad.Some? && v <= lastBad.value
    requires lastBad.Some? ==> lastBad.value in noisy && lastBad.value <= w
    requires forall v :: v in slow ==> lastSlow.Some? && v <= lastSlow.value
    requires lastSlow.Some? ==> lastSlow.value in slow && lastSlow.value <= w
    requires t1 == if errBad && lastBad != Some(w) then Slower(cfg, t0) else t0
    requires t2 == if slowBad && lastSlow != Some(w) then Slower(cfg, t1) else t1
    ensures Rate(cfg, t2, |noisy + if errBad then {w} else {}| + |slow + if slowBad then {w} else {}|)
  {
    hide Rate, Slower;
    AddWindow(noisy, lastBad, w);
    AddWindow(slow, lastSlow, w);
    assert noisy + {} == noisy && slow + {} == slow;
    var n := |noisy| + |slow|;
    if errBad && lastBad != Some(w) {
      RateStep(cfg, t0, n);
      n := n + 1;
    }
    if slowBad && lastSlow != Some(w) { RateStep(cfg, t1, n); }
  }

  lemma DriftAdvance(cfg: Config, before: Row, after: Row, acc: seq<Event>, e: Event)
    requires Drift(cfg, before, acc)
    requires acc != [] ==> LastWindow(cfg, acc) <= WindowId(cfg, e.ts)
    requires var ls := Latencies(cfg, Window(cfg, acc + [e]));
      && after.baseline == Settle(before.baseline, ls)
      && after.lastLatencyBad
         == if Drifted(cfg, before.baseline, ls) then Some(WindowId(cfg, e.ts)) else before.lastLatencyBad
    ensures Drift(cfg, after, acc + [e])
    ensures var w := WindowId(cfg, e.ts);
      before.lastLatencyBad.Some? ==> before.lastLatencyBad.value in SlowWindows(cfg, acc) && before.lastLatencyBad.value <= w
    ensures forall v :: v in SlowWindows(cfg, acc) ==> before.lastLatencyBad.Some? && v <= before.lastLatencyBad.value
  {
    hide SlowWindows, Baseline, Window, WindowId, Latencies, Drifted, Settle, LastWindow;
    SlowSnoc(cfg, acc, e);
  }

  /** What one accepted record does to the throttle and to the latency half of the row. */
  lemma RecordFacts(cfg: Config, start: Row, ops: seq<Op>, e: Event) returns (t: real, errBad: bool, slowBad: bool)
    requires Usable(cfg) && Start(start) && ClockOrdered(ops + [Record(e)]) && !Replay(cfg, start, ops).paused
    ensures var before, after := Replay(cfg, start, ops), Replay(cfg, start, ops + [Record(e)]);
      var acc, w := Accepted(cfg, start, ops), WindowId(cfg, e.ts);
      var ls := Latencies(cfg, Window(cfg, acc + [e]));
      && Accepted(cfg, start, ops + [Record(e)]) == acc + [e]
      && slowBad == Drifted(cfg, before.baseline, ls)
      && after.baseline == Settle(before.baseline, ls)
      && after.lastLatencyBad == (if slowBad then Some(w) else before.lastLatencyBad)
      && t == (if errBad && before.lastBad != Some(w) then Slower(cfg, before.throttle) else before.throttle)
      && after.throttle == (if slowBad && before.lastLatencyBad != Some(w) then Slower(cfg, t) else t)
      && NoisyWindows(cfg, start, ops + [Record(e)]) == NoisyWindows(cfg, start, ops) + if errBad then {w} else {}
  {
    hide *;
    var before := Replay(cfg, start, ops);
    var acc := Accepted(cfg, start, ops);
    var w := WindowId(cfg, e.ts);
    AcceptedStep(cfg, start, ops, e);
    NoisyRecord(cfg, start, ops, e);
    var fed := before.(events := Window(cfg, acc + [e]));
    ErrorRate(cfg, fed, w);
    LatencyCounters(cfg, AfterErrors(cfg, fed, w), w);
    errBad := TooManyErrors(cfg, fed.events);
    slowBad := Drifted(cfg, before.baseline, Latencies(cfg, fed.events));
    t := AfterErrors(cfg, fed, w).throttle;
  }

  lemma LawRecord(cfg: Config, start: Row, ops: seq<Op>, e: Event)
    requires Usable(cfg) && Start(start) && ClockOrdered(ops + [Record(e)]) && !Replay(cfg, start, ops).paused
    requires Law(cfg, Replay(cfg, start, ops), NoisyWindows(cfg, start, ops), Accepted(cfg, start, ops))
    ensures Law(cfg, Replay(cfg, start, ops + [Record(e)]), NoisyWindows(cfg, start, ops + [Record(e)]),
                Accepted(cfg, start, ops + [Record(e)]))
  {
    hide *;
    var before, after := Replay(cfg, start, ops), Replay(cfg, start, ops + [Record(e)]);
    var acc := Accepted(cfg, start, ops);
    var w := WindowId(cfg, e.ts);
    var noisy, slow := NoisyWindows(cfg, start, ops), SlowWindows(cfg, acc);
    LawParts(cfg, before, noisy, acc);
    LawBounds(cfg, start, ops, e);
    var t, errBad, slowBad := RecordFacts(cfg, start, ops, e);
    DriftAdvance(cfg, before, after, acc, e);
    RateAdvance(cfg, before.throttle, t, after.throttle, w, noisy, before.lastBad, errBad, slow, before.lastLatencyBad,
                slowBad);
    SlowSnoc(cfg, acc, e);
    LawFrom(cfg, after, NoisyWindows(cfg, start, ops + [Record(e)]), acc + [e], noisy, errBad, slow, slowBad, w);
  }

  lemma LawParts(cfg: Config, row: Row, noisy: set<int>, acc: seq<Event>)
    requires Law(cfg, row, noisy, acc)
    ensures Drift(cfg, row, acc) && Rate(cfg, row.throttle, |noisy| + |SlowWindows(cfg, acc)|)
    ensures row.baseline == Baseline(cfg, acc)
  {
  }

  lemma LawFrom(cfg: Config, row: Row, noisy': set<int>, acc: seq<Event>,
                noisy: set<int>, errBad: bool, slow: set<int>, slowBad: bool, w: int)
    requires Drift(cfg, row, acc)
    requires noisy' == noisy + if errBad then {w} else {}
    requires SlowWindows(cfg, acc) == slow + if slowBad then {w} else {}
    requires Rate(cfg, row.throttle, |noisy + if errBad then {w} else {}| + |slow + if slowBad then {w} else {}|)
    ensures Law(cfg, row, noisy', acc)
  {
    hide Drift, Rate, SlowWindows;
  }

  lemma NoisyRecord(cfg: Config, start: Row, ops: seq<Op>, e: Event)
    requires Usable(cfg) && !Replay(cfg, start, ops).paused
    ensures var errBad := TooManyErrors(cfg, Window(cfg, Accepted(cfg, start, ops) + [e]));
      NoisyWindows(cfg, start, ops + [Record(e)])
      == NoisyWindows(cfg, start, ops) + if errBad then {WindowId(cfg, e.ts)} else {}
  {
    hide *;
    NoisySnoc(cfg, start, ops, Record(e));
  }

  lemma LawBounds(cfg: Config, start: Row, ops: seq<Op>, e: Event)
    requires Usable(cfg) && Start(start) && ClockOrdered(ops + [Record(e)])
    ensures var row, acc, w := Replay(cfg, start, ops), Accepted(cfg, start, ops), WindowId(cfg, e.ts);
      && (acc != [] ==> LastWindow(cfg, acc) <= w)
      && (forall v :: v in NoisyWindows(cfg, start, ops) ==> row.lastBad.Some? && v <= row.lastBad.value)
      && (row.lastBad.Some? ==> row.lastBad.value in NoisyWindows(cfg, start, ops) && row.lastBad.value <= w)
  {
    hide Replay, Accepted, NoisyWindows, WindowId, Marks, Tracks;
    assert (ops + [Record(e)])[..|ops|] == ops;
    OrderedPrefix(ops + [Record(e)], |ops|);
    CounterIsStreak(cfg, start, ops);
    AcceptedBefore(cfg, start, ops, e);
    var acc := Accepted(cfg, start, ops);
    if acc != [] { WindowMonotone(cfg, acc[|acc| - 1].ts, e.ts); }
    NoisyTracks(Replay(cfg, start, ops), cfg, start, ops);
  }

  /** The throttle is divisor ^ -(E + L), where E and L count the distinct windows with an error-bad and with a
      latency-bad evaluation; pauses and resets never touch it. */
  lemma {:induction false} ThrottleLaw(cfg: Config, start: Row, ops: seq<Op>)
    requires Usable(cfg) && Start(start) && ClockOrdered(ops)
    ensures Law(cfg, Replay(cfg, start, ops), NoisyWindows(cfg, start, ops), Accepted(cfg, start, ops))
  {
    hide Replay, Accepted, NoisyWindows, Law;
    if ops == [] {
      LawStart(cfg, start);
    } else {
      var n := |ops| - 1;
      Unsnoc(ops);
      OrderedPrefix(ops, n);
      ThrottleLaw(cfg, start, ops[..n]);
      if ops[n].Record? && !Replay(cfg, start, ops[..n]).paused {
        LawRecord(cfg, start, ops[..n], ops[n].event);
      } else {
        LawIdle(cfg, start, ops[..n], ops[n]);
      }
    }
  }

  lemma LawStart(cfg: Config, start: Row)
    requires Usable(cfg) && Start(start)
    ensures Law(cfg, Replay(cfg, start, []), NoisyWindows(cfg, start, []), Accepted(cfg, start, []))
  {
    assert NoisyWindows(cfg, start, []) == {};
    assert Rate(cfg, 1.0, 0);
  }

  lemma LawIdle(cfg: Config, start: Row, ops: seq<Op>, op: Op)
    requires Usable(cfg) && (Replay(cfg, start, ops).paused || !op.Record?)
    requires Law(cfg, Replay(cfg, start, ops), NoisyWindows(cfg, start, ops), Accepted(cfg, start, ops))
    ensures Law(cfg, Replay(cfg, start, ops + [op]), NoisyWindows(cfg, start, ops + [op]),
                Accepted(cfg, start, ops + [op]))
  {
    hide Replay, Accepted, NoisyWindows, SlowWindows, Baseline, Window, TooManyErrors, Apply, WindowId, Rate;
    var noisy, acc := NoisyWindows(cfg, start, ops), Accepted(cfg, start, ops);
    ReplaySnoc(cfg, start, ops, op);
    AcceptedSnoc(cfg, start, ops, op);
    NoisySnoc(cfg, start, ops, op);
    IdleOps(cfg, Replay(cfg, start, ops), op);
    assert noisy + {} == noisy && acc + [] == acc;
  }
}
