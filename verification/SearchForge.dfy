/** The search-engine pool (pipeline/search_forge.py): cooldowns, isolation, pacing, key rotation and the dork cache. */
module SearchForge {
  import opened Arithmetic
  import opened Basics

  datatype Config = Config(base: real, max: real, window: real, ratio: real, ttl: real)

  datatype Status = Active | Cooldown | Isolated

  datatype Reply = Reply(ts: real, ok: bool)

  datatype Engine = Engine(
    name: string, keys: seq<string>, rate: real, status: Status, until: real, level: nat, events: seq<Reply>,
    last: real, keyIdx: nat, requests: nat)

  datatype Stats = Stats(used: nat, cooldown: nat, isolated: nat)

  predicate IsFresh(e: Engine) {
    e.status == Active && e.level == 0 && e.events == [] && e.requests == 0 && e.keyIdx == 0
  }

  // ------------------------------------------------------------- one engine

  /** A cooldown that is over at `now` ends. */
  function Probed(e: Engine, now: real): Engine {
    if e.status == Cooldown && now >= e.until then e.(status := Active) else e
  }

  function ProbedAll(es: seq<Engine>, now: real): (r: seq<Engine>)
    ensures |r| == |es| && forall i :: 0 <= i < |es| ==> r[i] == Probed(es[i], now)
  {
    seq(|es|, i requires 0 <= i < |es| => Probed(es[i], now))
  }

  /** The first active engine, the engines standing in the order of their priority. */
  function FirstActive(es: seq<Engine>): (k: nat)
    ensures k <= |es| && (forall i :: 0 <= i < k ==> es[i].status != Active) && (k < |es| ==> es[k].status == Active)
  {
    if es == [] || es[0].status == Active then 0
    else
      var k := FirstActive(es[1..]);
      assert forall i :: 1 <= i < |es| ==> es[i] == es[1..][i - 1];
      1 + k
  }

  function Pow2(n: nat): (r: nat)
    ensures r >= 1
  {
    if n == 0 then 1 else 2 * Pow2(n - 1)
  }

  /** The backoff of the k-th block before jitter. */
  function Backoff(cfg: Config, k: nat): real
    requires k >= 1
  {
    if cfg.base * Pow2(k - 1) as real <= cfg.max then cfg.base * Pow2(k - 1) as real else cfg.max
  }

  function Within(events: seq<Reply>, now: real, window: real): seq<Reply> {
    if events == [] then []
    else
      var e := events[|events| - 1];
      Within(events[..|events| - 1], now, window) + if now - e.ts <= window then [e] else []
  }

  function Failures(events: seq<Reply>): nat {
    if events == [] then 0 else Failures(events[..|events| - 1]) + if events[|events| - 1].ok then 0 else 1
  }

  datatype Answer = Answer(now: real, ok: bool, code: Option<int>, jitter: real)

  /** Only a failure with 429 or 403 is a block; a captcha page that came with another code is not. */
  predicate Blocked(a: Answer) {
    !a.ok && a.code in {Some(429), Some(403)}
  }

  predicate TooManyFailures(cfg: Config, events: seq<Reply>) {
    |events| >= 2 && Failures(events) as real / |events| as real > cfg.ratio
  }

  /** `record` on one engine. */
  function Recorded(cfg: Config, e: Engine, a: Answer): Engine {
    var events := Within(e.events, a.now, cfg.window) + [Reply(a.now, a.ok)];
    var counted := e.(requests := e.requests + 1, events := events);
    var cooled :=
      if Blocked(a) then
        counted.(level := e.level + 1, status := Cooldown, until := a.now + Backoff(cfg, e.level + 1) * (1.0 + a.jitter))
      else counted;
    if !a.ok && TooManyFailures(cfg, events) then cooled.(status := Isolated) else cooled
  }

  function StatsAfter(cfg: Config, s: Stats, e: Engine, a: Answer): Stats {
    var r := Recorded(cfg, e, a);
    Stats(
      if e.requests == 0 then s.used + 1 else s.used,
      if Blocked(a) then s.cooldown + 1 else s.cooldown,
      if r.status == Isolated && (Blocked(a) || e.status != Isolated) then s.isolated + 1 else s.isolated)
  }

  /** The shortest time between two requests. */
  function Interval(rate: real): (r: real)
    ensures r > 0.0
  {
    60.0 / if rate > 0.001 then rate else 0.001
  }

  // ------------------------------------------------------------- the pool

  class Forge {
    const cfg: Config
    var engines: seq<Engine>
    var stats: Stats
    var cache: map<string, (real, seq<string>)>

    constructor (cfg: Config, engines: seq<Engine>)
      requires forall i :: 0 <= i < |engines| ==> IsFresh(engines[i])
      ensures this.cfg == cfg && this.engines == engines && stats == Stats(0, 0, 0) && cache == map[]
      ensures Tallied(this.engines, stats)
    {
      this.cfg, this.engines, stats, cache := cfg, engines, Stats(0, 0, 0), map[];
      FreshTallied(engines);
    }

    /** `healthy`: expired cooldowns end, and the active engines are listed in order. */
    method Healthy(now: real) returns (out: seq<nat>)
      modifies `engines
      ensures engines == ProbedAll(old(engines), now)
      ensures forall i: nat :: i in out <==> i < |engines| && engines[i].status == Active
      ensures out == [] <==> FirstActive(engines) == |engines|
      ensures out != [] ==> out[0] == FirstActive(engines)
    {
      out := [];
      var es := engines;
      for i := 0 to |es|
        invariant |engines| == |es| && es == old(engines)
        invariant forall j :: 0 <= j < |es| ==> engines[j] == if j < i then Probed(es[j], now) else es[j]
        invariant forall j: nat :: j in out <==> j < i && engines[j].status == Active
        invariant out != [] ==> out[0] < i && engines[out[0]].status == Active
        invariant out != [] ==> forall j :: 0 <= j < out[0] ==> engines[j].status != Active
      {
        if engines[i].status == Cooldown && now >= engines[i].until {
          engines := engines[i := engines[i].(status := Active)];
        }
        if engines[i].status == Active { out := out + [i]; }
      }
      assert engines == ProbedAll(es, now);
      if out != [] { assert out[0] in out; }
    }

    method Pick(now: real) returns (picked: Option<nat>)
      modifies `engines
      ensures engines == ProbedAll(old(engines), now)
      ensures picked == if FirstActive(engines) < |engines| then Some(FirstActive(engines)) else None
    {
      var healthy := Healthy(now);
      picked := if healthy == [] then None else Some(healthy[0]);
    }

    method NextKey(i: nat) returns (key: string)
      requires i < |engines|
      modifies `engines
      ensures engines == old(engines)[i := Rotated(old(engines)[i])]
      ensures key == if engines[i].keys == [] then "" else engines[i].keys[old(engines)[i].keyIdx % |engines[i].keys|]
    {
      var e := engines[i];
      if e.keys == [] {
        key := "";
        return;
      }
      key := e.keys[e.keyIdx % |e.keys|];
      engines := engines[i := e.(keyIdx := e.keyIdx + 1)];
    }

    method Record(i: nat, a: Answer)
      requires i < |engines|
      modifies `engines, `stats
      ensures engines == old(engines)[i := Recorded(cfg, old(engines)[i], a)]
      ensures stats == StatsAfter(cfg, old(stats), old(engines)[i], a)
    {
      hide Within, Backoff, Failures, TooManyFailures;
      var e := engines[i];
      e := e.(requests := e.requests + 1);
      if e.requests == 1 { stats := stats.(used := stats.used + 1); }
      var events := Recent(e.events, a.now);
      e := e.(events := events + [Reply(a.now, a.ok)]);
      if !a.ok {
        if a.code == Some(429) || a.code == Some(403) {
          var level := e.level + 1;
          e := e.(level := level, status := Cooldown, until := a.now + Backoff(cfg, level) * (1.0 + a.jitter));
          stats := stats.(cooldown := stats.cooldown + 1);
        }
        var tooMany := Judge(e.events);
        if tooMany && e.status != Isolated {
          e := e.(status := Isolated);
          stats := stats.(isolated := stats.isolated + 1);
        }
      }
      assert e == Recorded(cfg, old(engines)[i], a);
      assert stats == StatsAfter(cfg, old(stats), old(engines)[i], a);
      engines := engines[i := e];
    }

    /** Whether the window condemns the engine. */
    method Judge(events: seq<Reply>) returns (tooMany: bool)
      ensures tooMany == TooManyFailures(cfg, events)
    {
      if |events| < 2 { return false; }
      var failures := CountFailures(events);
      tooMany := failures as real / |events| as real > cfg.ratio;
    }

    method Recent(events: seq<Reply>, now: real) returns (kept: seq<Reply>)
      ensures kept == Within(events, now, cfg.window)
    {
      kept := [];
      for i := 0 to |events|
        invariant kept == Within(events[..i], now, cfg.window)
      {
        assert events[..i + 1][..i] == events[..i];
        if now - events[i].ts <= cfg.window { kept := kept + [events[i]]; }
      }
      assert events[..|events|] == events;
    }

    method CountFailures(events: seq<Reply>) returns (n: nat)
      ensures n == Failures(events)
    {
      n := 0;
      for i := 0 to |events|
        invariant n == Failures(events[..i])
      {
        assert events[..i + 1][..i] == events[..i];
        if !events[i].ok { n := n + 1; }
      }
      assert events[..|events|] == events;
    }

    /** `pace`: the clock shows `now` before and `after` behind a sleep of at least the time asked for, if any. */
    method Pace(i: nat, now: real, after: real)
      requires i < |engines| && Slept(engines[i], now, after)
      modifies `engines
      ensures engines == old(engines)[i := old(engines)[i].(last := after)]
      ensures after - old(engines)[i].last >= Interval(engines[i].rate)
    {
      var e := engines[i];
      var wait := e.last + Interval(e.rate) - now;
      assert wait > 0.0 ==> after >= now + wait;
      engines := engines[i := e.(last := after)];
    }

    method CacheGet(dork: string, now: real) returns (hosts: Option<seq<string>>)
      modifies `cache
      ensures hosts == if dork in old(cache) && now <= old(cache)[dork].0 then Some(old(cache)[dork].1) else None
      ensures cache == if hosts.None? then old(cache) - {dork} else old(cache)
    {
      if dork !in cache {
        assert cache - {dork} == cache;
        return None;
      }
      var (expires, kept) := cache[dork];
      if now > expires {
        cache := cache - {dork};
        return None;
      }
      return Some(kept);
    }

    method CachePut(dork: string, now: real, hosts: seq<string>)
      modifies `cache
      ensures cache == old(cache)[dork := (now + cfg.ttl, hosts)]
    {
      cache := cache[dork := (now + cfg.ttl, hosts)];
    }
  }

  /** A clock that slept long enough. */
  predicate Slept(e: Engine, now: real, after: real) {
    after >= now && after >= e.last + Interval(e.rate)
  }

  function Rotated(e: Engine): Engine {
    if e.keys == [] then e else e.(keyIdx := e.keyIdx + 1)
  }

  // ------------------------------------------------------------- the statistics

  function Levels(es: seq<Engine>): nat {
    if es == [] then 0 else Levels(es[..|es| - 1]) + es[|es| - 1].level
  }

  function Used(es: seq<Engine>): nat {
    if es == [] then 0 else Used(es[..|es| - 1]) + if es[|es| - 1].requests > 0 then 1 else 0
  }

  function Isolateds(es: seq<Engine>): nat {
    if es == [] then 0 else Isolateds(es[..|es| - 1]) + if es[|es| - 1].status == Isolated then 1 else 0
  }

  ghost predicate Tallied(es: seq<Engine>, s: Stats) {
    s.used == Used(es) && s.cooldown == Levels(es) && s.isolated == Isolateds(es)
  }

  lemma {:induction false} FreshTallied(es: seq<Engine>)
    requires forall i :: 0 <= i < |es| ==> IsFresh(es[i])
    ensures Tallied(es, Stats(0, 0, 0))
  {
    if es != [] { FreshTallied(es[..|es| - 1]); }
  }

  lemma {:induction false} CountsUpdate(es: seq<Engine>, i: nat, e: Engine)
    requires i < |es|
    ensures Levels(es[i := e]) == Levels(es) - es[i].level + e.level
    ensures Used(es[i := e]) == Used(es) - (if es[i].requests > 0 then 1 else 0) + (if e.requests > 0 then 1 else 0)
    ensures Isolateds(es[i := e])
         == Isolateds(es) - (if es[i].status == Isolated then 1 else 0) + (if e.status == Isolated then 1 else 0)
  {
    var n := |es| - 1;
    if i == n {
      assert es[i := e][..n] == es[..n];
    } else {
      CountsUpdate(es[..n], i, e);
      assert es[i := e][..n] == es[..n][i := e];
    }
  }

  /** The statistics stay the true counts through a record exactly when it is not a block on an isolated engine. */
  lemma RecordTallied(cfg: Config, es: seq<Engine>, s: Stats, i: nat, a: Answer)
    requires i < |es| && Tallied(es, s)
    ensures Tallied(es[i := Recorded(cfg, es[i], a)], StatsAfter(cfg, s, es[i], a)) <==>
      !(es[i].status == Isolated && Blocked(a))
  {
    CountsUpdate(es, i, Recorded(cfg, es[i], a));
    hide Levels, Used, Isolateds, TooManyFailures, Within, Backoff;
  }

  /** The same exception decides whether isolation lasts: nothing else ever ends it, and such a record always counts it
      anew or ends it. */
  lemma IsolationEnds(cfg: Config, e: Engine, a: Answer)
    requires e.status == Isolated
    ensures !Blocked(a) ==> Recorded(cfg, e, a).status == Isolated
    ensures Blocked(a) ==>
      var events := Within(e.events, a.now, cfg.window) + [Reply(a.now, a.ok)];
      (Recorded(cfg, e, a).status == Isolated <==> TooManyFailures(cfg, events))
  {
    hide TooManyFailures, Within, Backoff;
  }

  /** The k-th block backs off for at least b = min(base * 2^(k-1), max) and at most 1.25 b. */
  lemma BackoffBounds(cfg: Config, e: Engine, a: Answer)
    requires cfg.base >= 0.0 && cfg.max >= 0.0 && Blocked(a) && 0.0 <= a.jitter <= 0.25
    ensures var r := Recorded(cfg, e, a);
      var b := Backoff(cfg, r.level);
      r.level == e.level + 1 && a.now + b <= r.until <= a.now + 1.25 * b
    ensures Backoff(cfg, e.level + 1) <= cfg.max
  {
    var b := Backoff(cfg, e.level + 1);
    assert 0.0 <= b <= cfg.max by { assert Pow2(e.level) >= 1; }
    Jitter(b, a.jitter);
    hide Backoff, TooManyFailures, Within;
    var r := Recorded(cfg, e, a);
    assert r.level == e.level + 1 && r.until == a.now + b * (1.0 + a.jitter);
  }

  lemma Jitter(b: real, j: real)
    requires b >= 0.0 && 0.0 <= j <= 0.25
    ensures b <= b * (1.0 + j) <= 1.25 * b
  {
    assert b * j >= 0.0 && b * (0.25 - j) >= 0.0;
  }

  // ------------------------------------------------------------- whole runs

  /** The pool as its one user drives it: an engine is picked, paced, given a key, and its answer recorded. */
  datatype Op = Probe(at: real) | Pick(at: real) | Pace(at: real, after: real) | Key(at: real) | Record(a: Answer)

  datatype Pool = Pool(engines: seq<Engine>, stats: Stats, picked: Option<nat>)

  function TimeOf(op: Op): real {
    match op
    case Probe(at) => at
    case Pick(at) => at
    case Pace(at, _) => at
    case Key(at) => at
    case Record(a) => a.now
  }

  ghost predicate Sound(p: Pool) {
    p.picked.Some? ==> p.picked.value < |p.engines| && p.engines[p.picked.value].status == Active
  }

  ghost function Apply(cfg: Config, p: Pool, op: Op): (r: Pool)
    requires Sound(p)
    ensures Sound(r) && |r.engines| == |p.engines|
  {
    match op
    case Probe(at) => Pool(ProbedAll(p.engines, at), p.stats, p.picked)
    case Pick(at) =>
      var es := ProbedAll(p.engines, at);
      Pool(es, p.stats, if FirstActive(es) < |es| then Some(FirstActive(es)) else None)
    case Pace(at, after) =>
      if p.picked.None? then p
      else
        var i := p.picked.value;
        p.(engines := p.engines[i := p.engines[i].(last := after)])
    case Key(_) =>
      if p.picked.None? then p
      else
        var i := p.picked.value;
        p.(engines := p.engines[i := Rotated(p.engines[i])])
    case Record(a) =>
      if p.picked.None? then p
      else
        var i := p.picked.value;
        Pool(p.engines[i := Recorded(cfg, p.engines[i], a)], StatsAfter(cfg, p.stats, p.engines[i], a), None)
  }

  ghost function Run(cfg: Config, p: Pool, ops: seq<Op>): (r: Pool)
    requires Sound(p)
    ensures Sound(r) && |r.engines| == |p.engines|
  {
    if ops == [] then p else Apply(cfg, Run(cfg, p, ops[..|ops| - 1]), ops[|ops| - 1])
  }

  lemma {:induction false} ProbedCounts(es: seq<Engine>, now: real)
    ensures Levels(ProbedAll(es, now)) == Levels(es) && Used(ProbedAll(es, now)) == Used(es)
    ensures Isolateds(ProbedAll(es, now)) == Isolateds(es)
  {
    if es != [] {
      var n := |es| - 1;
      ProbedCounts(es[..n], now);
      assert ProbedAll(es, now)[..n] == ProbedAll(es[..n], now);
    }
  }

  lemma ApplyTallied(cfg: Config, p: Pool, op: Op)
    requires Sound(p) && Tallied(p.engines, p.stats)
    ensures Tallied(Apply(cfg, p, op).engines, Apply(cfg, p, op).stats)
  {
    hide Levels, Used, Isolateds, Recorded, StatsAfter;
    match op {
      case Probe(at) => ProbedCounts(p.engines, at);
      case Pick(at) => ProbedCounts(p.engines, at);
      case Pace(at, after) =>
        if p.picked.Some? { CountsUpdate(p.engines, p.picked.value, p.engines[p.picked.value].(last := after)); }
      case Key(_) =>
        if p.picked.Some? { CountsUpdate(p.engines, p.picked.value, Rotated(p.engines[p.picked.value])); }
      case Record(a) =>
        if p.picked.Some? { RecordTallied(cfg, p.engines, p.stats, p.picked.value, a); }
    }
  }

  /** Recording only on the engine just picked, the statistics are the true counts after any run. */
  lemma {:induction false} StatsAreCounts(cfg: Config, es: seq<Engine>, ops: seq<Op>)
    requires forall i :: 0 <= i < |es| ==> IsFresh(es[i])
    ensures var p := Run(cfg, Pool(es, Stats(0, 0, 0), None), ops); Tallied(p.engines, p.stats)
  {
    hide Tallied, Apply;
    if ops == [] {
      FreshTallied(es);
    } else {
      StatsAreCounts(cfg, es, ops[..|ops| - 1]);
      ApplyTallied(cfg, Run(cfg, Pool(es, Stats(0, 0, 0), None), ops[..|ops| - 1]), ops[|ops| - 1]);
    }
  }

  /** An engine that is out of play until `t`. */
  predicate Resting(e: Engine, t: real) {
    e.status == Isolated || (e.status == Cooldown && t < e.until)
  }

  /** An isolated engine is never picked again, and a cooling one not before its time; neither changes in any way. */
  lemma {:induction false} RestingUntouched(cfg: Config, p: Pool, ops: seq<Op>, i: nat)
    requires Sound(p) && i < |p.engines| && p.picked != Some(i)
    requires p.engines[i].status != Active && forall k :: 0 <= k < |ops| ==> Resting(p.engines[i], TimeOf(ops[k]))
    ensures Run(cfg, p, ops).engines[i] == p.engines[i] && Run(cfg, p, ops).picked != Some(i)
  {
    if ops != [] {
      var n := |ops| - 1;
      RestingUntouched(cfg, p, ops[..n], i);
      var before := Run(cfg, p, ops[..n]);
      assert Resting(before.engines[i], TimeOf(ops[n]));
      hide Recorded, StatsAfter;
      assert Apply(cfg, before, ops[n]).engines[i] == before.engines[i];
    }
  }

  /** How often engine `i` was blocked in a run. */
  ghost function Blocks(cfg: Config, p: Pool, ops: seq<Op>, i: nat): nat
    requires Sound(p)
  {
    if ops == [] then 0
    else
      var n := |ops| - 1;
      Blocks(cfg, p, ops[..n], i)
      + if ops[n].Record? && Run(cfg, p, ops[..n]).picked == Some(i) && Blocked(ops[n].a) then 1 else 0
  }

  lemma ApplyLevel(cfg: Config, p: Pool, op: Op, i: nat)
    requires Sound(p) && i < |p.engines|
    ensures Apply(cfg, p, op).engines[i].level
         == p.engines[i].level + if op.Record? && p.picked == Some(i) && Blocked(op.a) then 1 else 0
  {
    hide Backoff, TooManyFailures, Within, StatsAfter;
  }

  /** The level an engine backs off with is the number of its blocks. */
  lemma {:induction false} LevelIsBlocks(cfg: Config, p: Pool, ops: seq<Op>, i: nat)
    requires Sound(p) && i < |p.engines|
    ensures Run(cfg, p, ops).engines[i].level == p.engines[i].level + Blocks(cfg, p, ops, i)
  {
    hide Apply, Blocked;
    if ops != [] {
      var n := |ops| - 1;
      LevelIsBlocks(cfg, p, ops[..n], i);
      ApplyLevel(cfg, Run(cfg, p, ops[..n]), ops[n], i);
    }
  }

  // ------------------------------------------------------------- pacing

  /** Every pace of the run slept as long as it was asked to. */
  ghost predicate Paced(cfg: Config, p: Pool, ops: seq<Op>)
    requires Sound(p)
  {
    ops != [] ==>
      var n := |ops| - 1;
      var before := Run(cfg, p, ops[..n]);
      && Paced(cfg, p, ops[..n])
      && (ops[n].Pace? && before.picked.Some? ==>
           Slept(before.engines[before.picked.value], ops[n].at, ops[n].after))
  }

  /** The times at which engine `i` was asked. */
  ghost function Requests(cfg: Config, p: Pool, ops: seq<Op>, i: nat): seq<real>
    requires Sound(p)
  {
    if ops == [] then []
    else
      var n := |ops| - 1;
      Requests(cfg, p, ops[..n], i)
      + if ops[n].Pace? && Run(cfg, p, ops[..n]).picked == Some(i) then [ops[n].after] else []
  }

  ghost predicate Spaced(times: seq<real>, interval: real) {
    forall k :: 0 < k < |times| ==> times[k] - times[k - 1] >= interval
  }

  lemma ApplyKeeps(cfg: Config, p: Pool, op: Op, i: nat)
    requires Sound(p) && i < |p.engines|
    ensures var e, e' := p.engines[i], Apply(cfg, p, op).engines[i];
      e'.rate == e.rate && e'.keys == e.keys && e'.last == if op.Pace? && p.picked == Some(i) then op.after else e.last
    ensures var e, e' := p.engines[i], Apply(cfg, p, op).engines[i];
      e'.keyIdx == e.keyIdx + if op.Key? && p.picked == Some(i) && e.keys != [] then 1 else 0
  {
    hide Backoff, TooManyFailures, Within, StatsAfter;
  }

  /** Two requests to one engine are at least its interval apart, in any run. */
  lemma {:induction false} RequestsSpaced(cfg: Config, p: Pool, ops: seq<Op>, i: nat)
    requires Sound(p) && i < |p.engines| && Paced(cfg, p, ops)
    ensures Spaced(Requests(cfg, p, ops, i), Interval(p.engines[i].rate))
    ensures var ts := Requests(cfg, p, ops, i); ts != [] ==> Run(cfg, p, ops).engines[i].last == ts[|ts| - 1]
    ensures Run(cfg, p, ops).engines[i].rate == p.engines[i].rate
  {
    hide Apply, Interval;
    if ops != [] {
      var n := |ops| - 1;
      RequestsSpaced(cfg, p, ops[..n], i);
      ApplyKeeps(cfg, Run(cfg, p, ops[..n]), ops[n], i);
    }
  }

  // ------------------------------------------------------------- key rotation

  /** How often the key at `j` of `n` is handed out in the first `m` calls. */
  function Uses(n: nat, m: nat, j: nat): nat
    requires n > 0
  {
    if m == 0 then 0 else Uses(n, m - 1, j) + if (m - 1) % n == j then 1 else 0
  }

  lemma {:induction false} UsesExactly(n: nat, m: nat, j: nat)
    requires j < n
    ensures Uses(n, m, j) == m / n + if j < m % n then 1 else 0
  {
    if m > 0 {
      UsesExactly(n, m - 1, j);
      NextDivision(m - 1, n);
    } else {
      assert 0 / n == 0 && 0 % n == 0;
    }
  }

  /** Over any stretch of calls two keys are handed out equally often, or one of them once more. */
  lemma UsesEven(n: nat, start: nat, m: nat, j: nat, k: nat)
    requires j < n && k < n
    ensures -1 <= (Uses(n, start + m, j) - Uses(n, start, j)) - (Uses(n, start + m, k) - Uses(n, start, k)) <= 1
  {
    UsesExactly(n, start, j);
    UsesExactly(n, start, k);
    UsesExactly(n, start + m, j);
    UsesExactly(n, start + m, k);
    hide Uses;
    var a, b := start % n, (start + m) % n;
    assert b >= a ==> 0 <= (if j < b then 1 else 0) - (if j < a then 1 else 0) <= 1;
    assert b <= a ==> -1 <= (if j < b then 1 else 0) - (if j < a then 1 else 0) <= 0;
  }

  /** The positions of the keys that engine `i` was handed in a run. */
  ghost function Handed(cfg: Config, p: Pool, ops: seq<Op>, i: nat): seq<nat>
    requires Sound(p) && i < |p.engines|
  {
    if ops == [] then []
    else
      var n := |ops| - 1;
      var before := Run(cfg, p, ops[..n]);
      Handed(cfg, p, ops[..n], i)
      + if ops[n].Key? && before.picked == Some(i) && before.engines[i].keys != []
        then [before.engines[i].keyIdx % |before.engines[i].keys|] else []
  }

  function Times(xs: seq<nat>, x: nat): nat {
    if xs == [] then 0 else Times(xs[..|xs| - 1], x) + if xs[|xs| - 1] == x then 1 else 0
  }

  lemma TimesSnoc(xs: seq<nat>, y: nat, x: nat)
    ensures Times(xs + [y], x) == Times(xs, x) + if y == x then 1 else 0
  {
    assert (xs + [y])[..|xs|] == xs;
  }

  /** The hand-outs of a run are consecutive turns of the rotation. */
  lemma {:induction false} HandedInTurn(cfg: Config, p: Pool, ops: seq<Op>, i: nat, j: nat)
    requires Sound(p) && i < |p.engines| && p.engines[i].keys != []
    ensures var e, out := Run(cfg, p, ops).engines[i], Handed(cfg, p, ops, i);
      var start, n := p.engines[i].keyIdx, |p.engines[i].keys|;
      && e.keys == p.engines[i].keys && e.keyIdx == start + |out|
      && Times(out, j) == Uses(n, start + |out|, j) - Uses(n, start, j)
  {
    hide Apply;
    if ops != [] {
      var n := |ops| - 1;
      var before := Run(cfg, p, ops[..n]);
      HandedInTurn(cfg, p, ops[..n], i, j);
      ApplyKeeps(cfg, before, ops[n], i);
      var out := Handed(cfg, p, ops[..n], i);
      TimesSnoc(out, before.engines[i].keyIdx % |before.engines[i].keys|, j);
      assert out + [] == out;
    }
  }

  /** In any run the keys of an engine are handed out evenly: any two counts differ by at most one. */
  lemma KeysEven(cfg: Config, p: Pool, ops: seq<Op>, i: nat, j: nat, k: nat)
    requires Sound(p) && i < |p.engines| && j < |p.engines[i].keys| && k < |p.engines[i].keys|
    ensures var out := Handed(cfg, p, ops, i); -1 <= Times(out, j) - Times(out, k) <= 1
  {
    HandedInTurn(cfg, p, ops, i, j);
    HandedInTurn(cfg, p, ops, i, k);
    UsesEven(|p.engines[i].keys|, p.engines[i].keyIdx, |Handed(cfg, p, ops, i)|, j, k);
    hide Handed, Times, Uses, Run;
  }
}
