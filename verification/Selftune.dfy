/** The budget tuner (pipeline/selftune.py). A multiplier is kept with four decimals: here it is a whole number of
    0.0001, so that 1.0 is ONE, and `round` is rounding half to even on exact values. */
module Selftune {
  const ONE: int := 10000

  datatype Config = Config(low: real, high: real, growth: real, decay: real, cleanNeeded: int, cap: int)

  /** Bounds around 1.0 and a growth step that grows. */
  predicate Sane(cfg: Config) {
    cfg.low <= 1.0 <= cfg.high && cfg.growth >= 1.0
  }

  function Round(x: real): int {
    var f := x.Floor;
    if x - f as real < 0.5 then f
    else if x - f as real > 0.5 then f + 1
    else if f % 2 == 0 then f else f + 1
  }

  function Min(a: real, b: real): real {
    if a < b then a else b
  }

  function Max(a: real, b: real): real {
    if a > b then a else b
  }

  /** `_clamp` of a value given in units of 0.0001. */
  function Clamp(cfg: Config, x: real): int {
    Round(Min(cfg.high * 10000.0, Max(cfg.low * 10000.0, x)))
  }

  /** The largest multiplier. */
  function Top(cfg: Config): int {
    Round(cfg.high * 10000.0)
  }

  lemma RoundMonotone(x: real, y: real)
    requires x <= y
    ensures Round(x) <= Round(y)
  {
    assert x.Floor <= y.Floor;
  }

  lemma RoundWhole(n: int)
    ensures Round(n as real) == n
  {
  }

  /** A whole number that does not exceed a value does not exceed its rounding, and the other way round. */
  lemma RoundBetween(x: real, n: int)
    ensures n as real <= x ==> n <= Round(x)
    ensures x <= n as real ==> Round(x) <= n
  {
    RoundWhole(n);
    if n as real <= x { RoundMonotone(n as real, x); }
    if x <= n as real { RoundMonotone(x, n as real); }
  }

  lemma ClampRange(cfg: Config, x: real)
    requires Sane(cfg) && x >= 10000.0
    ensures ONE <= Clamp(cfg, x) <= Top(cfg)
  {
    var y := Min(cfg.high * 10000.0, Max(cfg.low * 10000.0, x));
    RoundBetween(y, ONE);
    RoundMonotone(y, cfg.high * 10000.0);
  }

  /** A multiplier in range is read back as it was written. */
  lemma ClampKeeps(cfg: Config, k: int)
    requires Sane(cfg) && ONE <= k <= Top(cfg)
    ensures Clamp(cfg, k as real) == k
  {
    RoundWhole(k);
    if cfg.high * 10000.0 < k as real {
      RoundBetween(cfg.high * 10000.0, k);
      assert Round(cfg.high * 10000.0) <= k;
    }
  }

  // ------------------------------------------------------------- one run

  datatype Signals = Signals(passive: bool, active: bool, failures: nat)

  datatype Row = Row(stamp: string, signals: Signals, passive: int, active: int, changed: bool)

  datatype State = State(passive: int, active: int, streak: int, ledger: seq<Row>)

  const FRESH := State(ONE, ONE, 0, [])

  /** `k` units scaled by a step. */
  function Times(k: int, step: real): real {
    k as real * step
  }

  function Grown(cfg: Config, k: int): int {
    Clamp(cfg, Times(k, cfg.growth))
  }

  function Decayed(cfg: Config, k: int): int {
    if k > ONE then Clamp(cfg, Max(10000.0, Times(k, cfg.decay))) else k
  }

  /** Python's `xs[-cap:]`: the last `cap` members, but all of them for 0 and all but the first ones below. */
  function LastOf<T>(xs: seq<T>, cap: int): seq<T> {
    if cap > 0 then if |xs| <= cap then xs else xs[|xs| - cap..]
    else if -cap >= |xs| then [] else xs[-cap..]
  }

  predicate Clean(s: Signals) {
    !s.passive && !s.active
  }

  /** The multiplier of one branch after a run, `mine` being its own exhaustion marker. */
  function Tuned(cfg: Config, k: int, mine: bool, s: Signals, streak: int): int {
    if mine then Grown(cfg, Clamp(cfg, k as real))
    else if Clean(s) && streak >= cfg.cleanNeeded then Decayed(cfg, Clamp(cfg, k as real))
    else Clamp(cfg, k as real)
  }

  function Updated(cfg: Config, st: State, s: Signals, stamp: string): State {
    var streak := if Clean(s) then st.streak + 1 else 0;
    var passive, active := Tuned(cfg, st.passive, s.passive, s, streak), Tuned(cfg, st.active, s.active, s, streak);
    var changed := (passive, active) != (Clamp(cfg, st.passive as real), Clamp(cfg, st.active as real));
    State(passive, active, streak, LastOf(st.ledger + [Row(stamp, s, passive, active, changed)], cfg.cap))
  }

  class Tuner {
    const cfg: Config
    const enabled: bool
    var state: State

    constructor (cfg: Config, enabled: bool)
      ensures this.cfg == cfg && this.enabled == enabled && state == FRESH
    {
      this.cfg, this.enabled, state := cfg, enabled, FRESH;
    }

    /** `update_tuning`. */
    method Update(s: Signals, stamp: string) returns (updated: bool)
      modifies this
      ensures state == if enabled then Updated(cfg, old(state), s, stamp) else old(state)
      ensures !enabled ==> !updated
      ensures enabled ==> (updated <==>
        state.passive != Clamp(cfg, old(state).passive as real) || state.active != Clamp(cfg, old(state).active as real))
    {
      hide Clamp, Times, LastOf;
      if !enabled { return false; }
      var passive := Clamp(cfg, state.passive as real);
      var active := Clamp(cfg, state.active as real);
      if s.passive { passive := Clamp(cfg, Times(passive, cfg.growth)); }
      if s.active { active := Clamp(cfg, Times(active, cfg.growth)); }
      var streak := state.streak;
      if !(s.passive || s.active) {
        streak := streak + 1;
        if streak >= cfg.cleanNeeded {
          if passive > ONE { passive := Clamp(cfg, Max(10000.0, Times(passive, cfg.decay))); }
          if active > ONE { active := Clamp(cfg, Max(10000.0, Times(active, cfg.decay))); }
        }
      } else {
        streak := 0;
      }
      updated := (passive, active) != (Clamp(cfg, state.passive as real), Clamp(cfg, state.active as real));
      var ledger := LastOf(state.ledger + [Row(stamp, s, passive, active, updated)], cfg.cap);
      state := State(passive, active, streak, ledger);
    }
  }

  // ------------------------------------------------------------- whole histories

  function History(cfg: Config, st: State, runs: seq<(Signals, string)>): State {
    if runs == [] then st
    else
      var last := runs[|runs| - 1];
      Updated(cfg, History(cfg, st, runs[..|runs| - 1]), last.0, last.1)
  }

  predicate InRange(cfg: Config, st: State) {
    ONE <= st.passive <= Top(cfg) && ONE <= st.active <= Top(cfg)
  }

  lemma TunedInRange(cfg: Config, k: int, mine: bool, s: Signals, streak: int)
    requires Sane(cfg) && ONE <= k <= Top(cfg)
    ensures ONE <= Tuned(cfg, k, mine, s, streak) <= Top(cfg)
  {
    ClampKeeps(cfg, k);
    Grows(k, cfg.growth);
    ClampRange(cfg, Times(k, cfg.growth));
    ClampRange(cfg, Max(10000.0, Times(k, cfg.decay)));
    hide Clamp, Top, Times;
  }

  lemma Grows(k: int, growth: real)
    requires k >= ONE && growth >= 1.0
    ensures Times(k, growth) >= 10000.0
  {
    assert k as real * (growth - 1.0) >= 0.0;
  }

  /** From the fresh state the multipliers stay between 1 and the maximum, whatever the runs showed. */
  lemma {:induction false} AlwaysInRange(cfg: Config, runs: seq<(Signals, string)>)
    requires Sane(cfg)
    ensures InRange(cfg, History(cfg, FRESH, runs))
  {
    if runs == [] {
      RoundBetween(cfg.high * 10000.0, ONE);
    } else {
      var n := |runs| - 1;
      AlwaysInRange(cfg, runs[..n]);
      var st, s := History(cfg, FRESH, runs[..n]), runs[n].0;
      var streak := if Clean(s) then st.streak + 1 else 0;
      TunedInRange(cfg, st.passive, s.passive, s, streak);
      TunedInRange(cfg, st.active, s.active, s, streak);
      hide Tuned, Top;
    }
  }

  lemma TunedAlike(cfg: Config, st: State, a: seq<(Signals, string)>, b: seq<(Signals, string)>, n: nat)
    requires n < |a| == |b| && a[n].0.passive == b[n].0.passive && a[n].0.active == b[n].0.active
    ensures forall k, mine, streak :: Tuned(cfg, k, mine, a[n].0, streak) == Tuned(cfg, k, mine, b[n].0, streak)
    ensures Clean(a[n].0) <==> Clean(b[n].0)
  {
    hide Clamp, Grown, Decayed;
  }

  /** Two histories that differ in module failures and stamps only tune alike. */
  lemma {:induction false} FailuresDoNotMatter(cfg: Config, st: State, a: seq<(Signals, string)>, b: seq<(Signals, string)>)
    requires |a| == |b| && forall i :: 0 <= i < |a| ==> a[i].0.passive == b[i].0.passive && a[i].0.active == b[i].0.active
    ensures var x, y := History(cfg, st, a), History(cfg, st, b);
      x.passive == y.passive && x.active == y.active && x.streak == y.streak
  {
    if a != [] {
      var n := |a| - 1;
      FailuresDoNotMatter(cfg, st, a[..n], b[..n]);
      hide Tuned, Clamp;
      TunedAlike(cfg, st, a, b, n);
    }
  }

  /** Every row a history ever wrote. */
  function AllRows(cfg: Config, st: State, runs: seq<(Signals, string)>): seq<Row> {
    if runs == [] then []
    else
      var n := |runs| - 1;
      var after := History(cfg, st, runs);
      var before := History(cfg, st, runs[..n]);
      AllRows(cfg, st, runs[..n])
      + [Row(runs[n].1, runs[n].0, after.passive, after.active,
             (after.passive, after.active) != (Clamp(cfg, before.passive as real), Clamp(cfg, before.active as real)))]
  }

  lemma LastAgain<T>(xs: seq<T>, x: T, cap: int)
    requires cap >= 0
    ensures LastOf(LastOf(xs, cap) + [x], cap) == LastOf(xs + [x], cap)
  {
  }

  /** The ledger is the newest `cap` rows; a cap of 0 keeps every row, and a negative one none. */
  lemma {:induction false} LedgerIsNewest(cfg: Config, runs: seq<(Signals, string)>)
    ensures History(cfg, FRESH, runs).ledger
         == if cfg.cap >= 0 then LastOf(AllRows(cfg, FRESH, runs), cfg.cap) else []
  {
    hide Tuned, Clamp, Clean;
    if runs != [] {
      LedgerIsNewest(cfg, runs[..|runs| - 1]);
      var rows := AllRows(cfg, FRESH, runs);
      if cfg.cap >= 0 { LastAgain(AllRows(cfg, FRESH, runs[..|runs| - 1]), rows[|rows| - 1], cfg.cap); }
    }
  }

  // ------------------------------------------------------------- convergence

  /** A decay step makes every multiplier above 1.0 smaller: 10001 units lose at least half a unit. */
  predicate Shrinks(cfg: Config) {
    20002.0 * (1.0 - cfg.decay) >= 1.0
  }

  lemma Loss(k: int, decay: real)
    requires k > ONE && 20002.0 * (1.0 - decay) >= 1.0
    ensures Times(k, decay) <= k as real - 0.5
    ensures k > ONE + 1 ==> Times(k, decay) < k as real - 0.5
  {
    var e := 1.0 - decay;
    assert Times(k, decay) == k as real - k as real * e;
    Scale(k as real, 10001.0, e);
    if k > ONE + 1 {
      Scale(k as real, 10002.0, e);
      assert 10002.0 * e == 10001.0 * e + e;
    }
  }

  lemma Scale(a: real, b: real, e: real)
    requires a >= b && e > 0.0
    ensures a * e >= b * e
  {
    assert (a - b) * e >= 0.0;
  }

  /** A value at least half a unit under a multiplier is clamped below it; half a unit under 10001 rounds to even. */
  lemma ClampBelow(cfg: Config, x: real, k: int)
    requires Sane(cfg) && 10000.0 <= x <= k as real - 0.5 && k > ONE && (k > ONE + 1 ==> x < k as real - 0.5)
    ensures Clamp(cfg, x) < k
  {
    var y := Min(cfg.high * 10000.0, Max(cfg.low * 10000.0, x));
    assert y <= x;
    if k == ONE + 1 {
      RoundMonotone(y, 10000.5);
    } else {
      RoundBelow(y, k);
    }
  }

  lemma RoundBelow(y: real, k: int)
    requires y < k as real - 0.5
    ensures Round(y) < k
  {
    if y.Floor >= k - 1 { assert y.Floor == k - 1; }
  }

  /** So every decay step takes at least one unit from a multiplier above 1.0, and none below. */
  lemma DecayShrinks(cfg: Config, k: int)
    requires Sane(cfg) && Shrinks(cfg) && ONE < k <= Top(cfg)
    ensures ONE <= Decayed(cfg, k) < k
  {
    Loss(k, cfg.decay);
    hide Times, Clamp, Top;
    var x := Max(10000.0, Times(k, cfg.decay));
    ClampRange(cfg, x);
    ClampBelow(cfg, x, k);
  }

  lemma RoundAbove(y: real)
    requires y > 10000.5
    ensures Round(y) >= 10001
  {
    if y.Floor <= 10000 { assert y.Floor == 10000; }
  }

  lemma TopAbove(cfg: Config)
    requires Top(cfg) > ONE
    ensures cfg.high * 10000.0 > 10000.5
  {
    if cfg.high * 10000.0 <= 10000.5 { RoundMonotone(cfg.high * 10000.0, 10000.5); }
  }

  /** Without that loss a multiplier above 1.0 never comes down to it. */
  lemma DecayStuck(cfg: Config, k: int)
    requires Sane(cfg) && !Shrinks(cfg) && Top(cfg) > ONE && k > ONE
    ensures Decayed(cfg, k) > ONE
  {
    TopAbove(cfg);
    Scale(k as real, 10001.0, cfg.decay);
    var x := Max(10000.0, Times(k, cfg.decay));
    assert x > 10000.5;
    var y := Min(cfg.high * 10000.0, Max(cfg.low * 10000.0, x));
    assert y > 10000.5;
    RoundAbove(y);
  }

  function CleanRuns(n: nat): (r: seq<(Signals, string)>)
    ensures |r| == n
  {
    seq(n, _ => (Signals(false, false, 0), ""))
  }

  lemma CleanNext(cfg: Config, st: State, n: nat)
    ensures History(cfg, st, CleanRuns(n + 1)) == Updated(cfg, History(cfg, st, CleanRuns(n)), Signals(false, false, 0), "")
  {
    assert CleanRuns(n + 1)[..n] == CleanRuns(n);
  }

  /** The clean runs before the first decay. */
  function Wait(cfg: Config, st: State): nat {
    if cfg.cleanNeeded > st.streak + 1 then cfg.cleanNeeded - st.streak - 1 else 0
  }

  /** After `n` clean runs a multiplier is at 1.0 or has lost a unit for each run behind the wait. */
  ghost predicate Shrunk(start: int, k: int, n: nat, wait: nat) {
    ONE <= k <= start && (k > ONE ==> k <= start - n + wait)
  }

  lemma CleanStep(cfg: Config, start: int, k: int, n: nat, wait: nat, streak: int)
    requires Sane(cfg) && Shrinks(cfg) && start <= Top(cfg) && Shrunk(start, k, n, wait)
    requires streak >= cfg.cleanNeeded <==> n + 1 > wait
    ensures Shrunk(start, Tuned(cfg, k, false, Signals(false, false, 0), streak), n + 1, wait)
  {
    ClampKeeps(cfg, k);
    if k > ONE { DecayShrinks(cfg, k); }
    hide Clamp, Decayed, Top;
  }

  lemma {:induction false} CleanRunsShrink(cfg: Config, st: State, n: nat)
    requires Sane(cfg) && Shrinks(cfg) && InRange(cfg, st)
    ensures var r := History(cfg, st, CleanRuns(n));
      r.streak == st.streak + n && Shrunk(st.passive, r.passive, n, Wait(cfg, st)) && Shrunk(st.active, r.active, n, Wait(cfg, st))
  {
    hide Tuned, Top, History, CleanRuns, Shrunk, LastOf;
    if n == 0 {
      NoRuns(cfg, st);
    } else {
      CleanRunsShrink(cfg, st, n - 1);
      CleanNext(cfg, st, n - 1);
      var before := History(cfg, st, CleanRuns(n - 1));
      CleanStep(cfg, st.passive, before.passive, n - 1, Wait(cfg, st), before.streak + 1);
      CleanStep(cfg, st.active, before.active, n - 1, Wait(cfg, st), before.streak + 1);
    }
  }

  lemma NoRuns(cfg: Config, st: State)
    requires InRange(cfg, st)
    ensures History(cfg, st, CleanRuns(0)) == st
    ensures Shrunk(st.passive, st.passive, 0, Wait(cfg, st)) && Shrunk(st.active, st.active, 0, Wait(cfg, st))
  {
  }

  predicate Settled(st: State) {
    st.passive == ONE && st.active == ONE
  }

  /** How many clean runs are enough: the wait, and then a run for every unit above 1.0. */
  function Enough(cfg: Config, st: State): int {
    Wait(cfg, st) + (if st.passive > st.active then st.passive else st.active) - ONE
  }

  /** Where a decay step loses half a unit, both multipliers are at exactly 1.0 after enough clean runs. */
  lemma CleanRunsSettle(cfg: Config, st: State, n: nat)
    requires Sane(cfg) && Shrinks(cfg) && InRange(cfg, st) && n >= Enough(cfg, st)
    ensures Settled(History(cfg, st, CleanRuns(n)))
  {
    CleanRunsShrink(cfg, st, n);
    hide History, CleanRuns, Top, Wait;
  }

  lemma {:induction false} NeverSettles(cfg: Config, st: State, n: nat)
    requires Sane(cfg) && !Shrinks(cfg) && ONE < st.passive <= Top(cfg) && ONE <= st.active <= Top(cfg)
    ensures var r := History(cfg, st, CleanRuns(n)); ONE < r.passive <= Top(cfg) && ONE <= r.active <= Top(cfg)
  {
    hide Tuned, Top, History, CleanRuns, LastOf;
    if n == 0 {
      NoRuns(cfg, st);
    } else {
      NeverSettles(cfg, st, n - 1);
      CleanNext(cfg, st, n - 1);
      var before := History(cfg, st, CleanRuns(n - 1));
      StuckStep(cfg, before.passive, before.streak + 1);
      TunedInRange(cfg, before.active, false, Signals(false, false, 0), before.streak + 1);
    }
  }

  lemma StuckStep(cfg: Config, k: int, streak: int)
    requires Sane(cfg) && !Shrinks(cfg) && ONE < k <= Top(cfg)
    ensures ONE < Tuned(cfg, k, false, Signals(false, false, 0), streak) <= Top(cfg)
  {
    TunedInRange(cfg, k, false, Signals(false, false, 0), streak);
    ClampKeeps(cfg, k);
    DecayStuck(cfg, k);
    hide Clamp, Decayed, Top;
  }

  /** From every state clean runs lead back to 1.0 exactly when 20002 * (1 - decay) >= 1. */
  lemma SettlesExactly(cfg: Config)
    requires Sane(cfg) && Top(cfg) > ONE
    ensures Shrinks(cfg) <==>
      forall st :: InRange(cfg, st) ==> exists n: nat :: Settled(History(cfg, st, CleanRuns(n)))
  {
    hide History, CleanRuns, Top, Shrinks;
    if Shrinks(cfg) {
      forall st | InRange(cfg, st) ensures exists n: nat :: Settled(History(cfg, st, CleanRuns(n))) {
        CleanRunsSettle(cfg, st, if Enough(cfg, st) > 0 then Enough(cfg, st) else 0);
      }
    } else {
      var st := State(ONE + 1, ONE, 0, []);
      assert InRange(cfg, st);
      forall n: nat ensures !Settled(History(cfg, st, CleanRuns(n))) {
        NeverSettles(cfg, st, n);
      }
    }
  }

  // ------------------------------------------------------------- the budgets

  /** A base budget in cents of a second under a multiplier, rounded to cents. */
  function Applied(base: int, k: int): int {
    Round(Times(k, base as real / 10000.0))
  }

  /** A budget of whole cents is never shrunk: at 1.0 it is the base, above it at least the base. */
  lemma BudgetNeverShrinks(base: nat, k: int)
    requires k >= ONE
    ensures Applied(base, k) >= base && Applied(base, ONE) == base
  {
    var b := base as real / 10000.0;
    Scale0(k as real, 10000.0, b);
    assert Times(ONE, b) == base as real;
    RoundBetween(Times(k, b), base);
    RoundWhole(base);
  }

  lemma Scale0(a: real, b: real, e: real)
    requires a >= b && e >= 0.0
    ensures a * e >= b * e
  {
    assert (a - b) * e >= 0.0;
  }
}
