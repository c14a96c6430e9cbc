/** The proxy pool (pipeline/ip_rotation.py): a health-aware round robin with a ledger, and the telemetry that feeds it. */
module ProxyPool {
  import opened Arithmetic
  import opened Basics

  const MAX_EVENTS: nat := 500

  /** One finished attempt, as `record_outcome` is told of it. */
  datatype Outcome = Outcome(index: int, ok: bool, duration: real, tool: string, moduleName: string, attempt: Option<int>)

  datatype Health = Health(ok: int, fail: int, consecutive: int)

  const UNTRIED := Health(0, 0, 0)

  /** One ledger row; index -1 is the DIRECT row of a tool without a proxy hook. */
  datatype Row = Row(
    tool: string, moduleName: string, index: int, attempt: Option<int>, skipped: seq<nat>, exhausted: bool)

  function HealthOf(health: map<nat, Health>, i: nat): Health {
    if i in health then health[i] else UNTRIED
  }

  predicate Unhealthy(health: map<nat, Health>, after: int, i: nat) {
    HealthOf(health, i).consecutive >= after
  }

  function HealthySet(health: map<nat, Health>, after: int, n: nat): set<nat> {
    set i: nat | 0 <= i < n && !Unhealthy(health, after, i)
  }

  // ------------------------------------------------------------- the pick

  /** The entry `k` places behind the cursor, cyclically. */
  function Place(cursor: nat, n: nat, k: nat): nat
    requires n > 0
  {
    (cursor + k) % n
  }

  /** How many entries the scan passes over, starting `k` behind the cursor. */
  function Steps(cursor: nat, n: nat, healthy: set<nat>, k: nat): nat
    requires n > 0
    decreases n - k
  {
    if k >= n || Place(cursor, n, k) in healthy then k else Steps(cursor, n, healthy, k + 1)
  }

  function PickOf(cursor: nat, n: nat, healthy: set<nat>): nat
    requires n > 0
  {
    if healthy == {} then cursor % n else Place(cursor, n, Steps(cursor, n, healthy, 0))
  }

  /** The `k` entries from the cursor on, cyclically. */
  function Cycle(cursor: nat, n: nat, k: nat): (r: seq<nat>)
    requires n > 0
    ensures |r| == k
  {
    seq(k, j requires 0 <= j => Place(cursor, n, j))
  }

  predicate Within(healthy: set<nat>, n: nat) {
    forall i :: i in healthy ==> i < n
  }

  /** How far entry `i` is from the cursor, cyclically. */
  function Distance(cursor: nat, i: nat, n: nat): nat
    requires n > 0
  {
    (i - cursor) % n
  }

  lemma DistanceReaches(cursor: nat, i: nat, n: nat)
    requires i < n
    ensures Distance(cursor, i, n) < n && Place(cursor, n, Distance(cursor, i, n)) == i
  {
    var d := Distance(cursor, i, n);
    var q := (i - cursor) / n;
    assert i - cursor == q * n + d;
    assert cursor + d == (-q) * n + i by { assert (-q) * n == -(q * n); }
    ModUnique(cursor + d, n, -q, i);
  }

  lemma DistanceUnique(cursor: nat, i: nat, n: nat, k: nat)
    requires i < n && k < n && Place(cursor, n, k) == i
    ensures k == Distance(cursor, i, n)
  {
    var p := (cursor + k) / n;
    assert cursor + k == p * n + i;
    assert i - cursor == (-p) * n + k by { assert (-p) * n == -(p * n); }
    ModUnique(i - cursor, n, -p, k);
  }

  lemma PlaceWithin(cursor: nat, n: nat, k: nat)
    requires n > 0
    ensures Place(cursor, n, k) < n && cursor % n < n && Place(cursor, n, 0) == cursor % n
  {
  }

  lemma PlaceIs(cursor: nat, n: nat, k: nat)
    requires n > 0
    ensures Place(cursor, n, k) == (cursor + k) % n
  {
  }

  lemma CycleNothing(cursor: nat, n: nat)
    requires n > 0
    ensures Cycle(cursor, n, 0) == []
  {
  }

  /** The scan stops at the nearest healthy entry. */
  lemma {:induction false} StepsNearest(cursor: nat, n: nat, healthy: set<nat>, k: nat)
    requires n > 0 && k <= n
    ensures k <= Steps(cursor, n, healthy, k) <= n
    ensures Steps(cursor, n, healthy, k) < n ==> Place(cursor, n, Steps(cursor, n, healthy, k)) in healthy
    ensures forall j: nat :: k <= j < Steps(cursor, n, healthy, k) ==> Place(cursor, n, j) !in healthy
    decreases n - k
  {
    hide Place;
    if k < n && Place(cursor, n, k) !in healthy { StepsNearest(cursor, n, healthy, k + 1); }
  }

  /** `_pick` takes the first healthy entry cyclically from the cursor, and the cursor's own entry if none is healthy. */
  lemma PickNearest(cursor: nat, n: nat, healthy: set<nat>)
    requires n > 0 && Within(healthy, n)
    ensures PickOf(cursor, n, healthy) < n
    ensures healthy != {} ==> PickOf(cursor, n, healthy) in healthy
    ensures forall i :: i in healthy ==>
      i == PickOf(cursor, n, healthy) || Distance(cursor, PickOf(cursor, n, healthy), n) < Distance(cursor, i, n)
    ensures healthy == {} ==> Distance(cursor, PickOf(cursor, n, healthy), n) == 0
    ensures healthy != {} ==> Distance(cursor, PickOf(cursor, n, healthy), n) == Steps(cursor, n, healthy, 0)
  {
    hide Place, Distance, Steps;
    var p, s := PickOf(cursor, n, healthy), Steps(cursor, n, healthy, 0);
    StepsNearest(cursor, n, healthy, 0);
    PlaceWithin(cursor, n, s);
    forall i | i in healthy ensures s <= Distance(cursor, i, n) < n && Place(cursor, n, Distance(cursor, i, n)) == i {
      DistanceReaches(cursor, i, n);
    }
    if healthy == {} {
      PlaceWithin(cursor, n, 0);
      DistanceUnique(cursor, p, n, 0);
    } else {
      var some :| some in healthy;
      assert s <= Distance(cursor, some, n);
      DistanceUnique(cursor, p, n, s);
    }
  }

  /** Behind a pick every other entry is nearer, by the same amount, and the picked one is last. */
  lemma DistanceAfter(cursor: nat, p: nat, i: nat, n: nat)
    requires p < n && i < n
    ensures i == p ==> Distance(p + 1, i, n) == n - 1
    ensures i != p && Distance(cursor, p, n) < Distance(cursor, i, n) ==>
      Distance(p + 1, i, n) == Distance(cursor, i, n) - Distance(cursor, p, n) - 1
  {
    if i == p {
      ModUnique(i - (p + 1), n, -1, n - 1);
    } else {
      var dp, di := Distance(cursor, p, n), Distance(cursor, i, n);
      var qp, qi := (p - cursor) / n, (i - cursor) / n;
      assert p - cursor == qp * n + dp && i - cursor == qi * n + di;
      if dp < di {
        assert i - (p + 1) == (qi - qp) * n + (di - dp - 1) by { assert (qi - qp) * n == qi * n - qp * n; }
        ModUnique(i - (p + 1), n, qi - qp, di - dp - 1);
      }
    }
  }

  /** The picks made while the healthy sets are `sets`, one after the other. */
  ghost function Picks(cursor: nat, n: nat, sets: seq<set<nat>>): (r: seq<nat>)
    requires n > 0
    ensures |r| == |sets|
    decreases |sets|
  {
    if sets == [] then []
    else
      var p := PickOf(cursor, n, sets[0]);
      [p] + Picks(p + 1, n, sets[1..])
  }

  /** Fairness: while the healthy set stays what it is, as many consecutive picks as it has members are a permutation
      of it, wherever the cursor stands. */
  lemma PicksArePermutation(cursor: nat, n: nat, healthy: set<nat>, sets: seq<set<nat>>)
    requires n > 0 && healthy != {} && Within(healthy, n)
    requires |sets| == |healthy| && forall k :: 0 <= k < |sets| ==> sets[k] == healthy
    ensures multiset(Picks(cursor, n, sets)) == multiset(healthy)
  {
    PicksExhaust(cursor, n, healthy, healthy, sets);
  }

  /** While some of the window's entries are left, a pick takes one of them, and leaves them nearer than all others. */
  lemma PickSeparates(cursor: nat, n: nat, healthy: set<nat>, left: set<nat>) returns (p: nat)
    requires n > 0 && Within(healthy, n) && left <= healthy && left != {}
    requires forall i, j :: i in left && j in healthy - left ==> Distance(cursor, i, n) < Distance(cursor, j, n)
    ensures p == PickOf(cursor, n, healthy) && p in left
    ensures forall i, j :: i in left - {p} && j in healthy - (left - {p}) ==>
      Distance(p + 1, i, n) < Distance(p + 1, j, n)
  {
    hide Distance, PickOf;
    p := PickOf(cursor, n, healthy);
    PickNearest(cursor, n, healthy);
    var some :| some in left;
    assert p in left;
    forall i | i in healthy
      ensures i == p ==> Distance(p + 1, i, n) == n - 1
      ensures i != p ==> Distance(p + 1, i, n) == Distance(cursor, i, n) - Distance(cursor, p, n) - 1
      ensures Distance(cursor, i, n) < n
    {
      DistanceAfter(cursor, p, i, n);
      DistanceReaches(cursor, i, n);
    }
  }

  lemma {:induction false} PicksExhaust(cursor: nat, n: nat, healthy: set<nat>, left: set<nat>, sets: seq<set<nat>>)
    requires n > 0 && Within(healthy, n) && left <= healthy
    requires |sets| == |left| && forall k :: 0 <= k < |sets| ==> sets[k] == healthy
    requires forall i, j :: i in left && j in healthy - left ==> Distance(cursor, i, n) < Distance(cursor, j, n)
    ensures multiset(Picks(cursor, n, sets)) == multiset(left)
    decreases |sets|
  {
    hide Distance, PickOf;
    if sets != [] {
      var p := PickSeparates(cursor, n, healthy, left);
      PicksExhaust(p + 1, n, healthy, left - {p}, sets[1..]);
      var rest := Picks(p + 1, n, sets[1..]);
      assert Picks(cursor, n, sets) == [p] + rest;
      assert multiset([p] + rest) == multiset{p} + multiset(rest);
      assert multiset(left) == multiset{p} + multiset(left - {p});
    }
  }

  /** No starvation: an entry that stays healthy is picked within as many picks as it is away from the cursor, so within
      one round, whatever happens to the others meanwhile. */
  lemma {:induction false} HealthyIsPicked(cursor: nat, n: nat, sets: seq<set<nat>>, i: nat)
    requires i < n && (forall k :: 0 <= k < |sets| ==> Within(sets[k], n) && i in sets[k])
    requires |sets| > Distance(cursor, i, n)
    ensures i in Picks(cursor, n, sets)[..Distance(cursor, i, n) + 1]
    decreases |sets|
  {
    var p := PickOf(cursor, n, sets[0]);
    PickNearest(cursor, n, sets[0]);
    assert Picks(cursor, n, sets)[0] == p;
    if p != i {
      DistanceAfter(cursor, p, i, n);
      HealthyIsPicked(p + 1, n, sets[1..], i);
      var d, d' := Distance(cursor, i, n), Distance(p + 1, i, n);
      assert Picks(cursor, n, sets)[1..] == Picks(p + 1, n, sets[1..]);
      var j :| 0 <= j < d' + 1 && Picks(p + 1, n, sets[1..])[j] == i;
      assert Picks(cursor, n, sets)[..d + 1][j + 1] == i;
    }
  }

  lemma PickAtCursor(cursor: nat, n: nat, healthy: set<nat>)
    requires n > 0 && (healthy == {} || forall i: nat :: i < n ==> i in healthy)
    ensures PickOf(cursor, n, healthy) == cursor % n
  {
    PlaceWithin(cursor, n, 0);
    hide Place;
  }

  /** With every entry unhealthy, or every entry healthy, the pool is a plain round robin. */
  lemma {:induction false} PlainRoundRobin(cursor: nat, n: nat, sets: seq<set<nat>>)
    requires n > 0
    requires forall k :: 0 <= k < |sets| ==> sets[k] == {} || forall i: nat :: i < n ==> i in sets[k]
    ensures forall k :: 0 <= k < |sets| ==> Picks(cursor, n, sets)[k] == Place(cursor, n, k)
    decreases |sets|
  {
    hide Place, Steps;
    if sets != [] {
      var p := cursor % n;
      PickAtCursor(cursor, n, sets[0]);
      PlaceWithin(cursor, n, 0);
      PlainRoundRobin(p + 1, n, sets[1..]);
      forall k | 0 < k < |sets| ensures Picks(cursor, n, sets)[k] == Place(cursor, n, k) {
        assert Picks(cursor, n, sets)[k] == Picks(p + 1, n, sets[1..])[k - 1];
        PlaceShift(cursor, n, k);
      }
    }
  }

  lemma PlaceShift(cursor: nat, n: nat, k: nat)
    requires n > 0 && k > 0
    ensures Place(cursor % n + 1, n, k - 1) == Place(cursor, n, k)
  {
    var q, x := cursor / n, cursor % n + k;
    assert cursor + k == q * n + x;
    var r := x / n;
    assert cursor + k == (q + r) * n + x % n by { assert (q + r) * n == q * n + r * n; }
    ModUnique(cursor + k, n, q + r, x % n);
  }

  // ------------------------------------------------------------- the outcomes

  /** The outcomes of pool entries; DIRECT and unknown ones are not proxy health. */
  function Kept(outcomes: seq<Outcome>, n: nat): seq<Outcome> {
    if outcomes == [] then []
    else
      var last := outcomes[|outcomes| - 1];
      Kept(outcomes[..|outcomes| - 1], n) + if 0 <= last.index < n then [last] else []
  }

  function Of(outcomes: seq<Outcome>, i: nat): seq<Outcome> {
    if outcomes == [] then []
    else
      var last := outcomes[|outcomes| - 1];
      Of(outcomes[..|outcomes| - 1], i) + if last.index == i then [last] else []
  }

  function Count(outcomes: seq<Outcome>, ok: bool): nat {
    if outcomes == [] then 0
    else Count(outcomes[..|outcomes| - 1], ok) + if outcomes[|outcomes| - 1].ok == ok then 1 else 0
  }

  /** The failures at the end of a history begin at `j`. */
  ghost predicate LastRun(mine: seq<Outcome>, j: nat) {
    j <= |mine| && (forall k :: j <= k < |mine| ==> !mine[k].ok) && (j > 0 ==> mine[j - 1].ok)
  }

  /** `h` is what `mine` makes of `seed`: both counts, and the length of the failure run that ends the history. */
  ghost predicate Tallies(h: Health, seed: Health, mine: seq<Outcome>) {
    && h.ok == seed.ok + Count(mine, true)
    && h.fail == seed.fail + Count(mine, false)
    && exists j: nat :: LastRun(mine, j) && h.consecutive == |mine| - j + if j == 0 then seed.consecutive else 0
  }

  function Next(h: Health, ok: bool): Health {
    if ok then Health(h.ok + 1, h.fail, 0) else Health(h.ok, h.fail + 1, h.consecutive + 1)
  }

  lemma TalliesNext(h: Health, seed: Health, mine: seq<Outcome>, o: Outcome)
    requires Tallies(h, seed, mine)
    ensures Tallies(Next(h, o.ok), seed, mine + [o])
  {
    var mine' := mine + [o];
    assert mine'[..|mine|] == mine;
    if o.ok {
      assert LastRun(mine', |mine'|);
    } else {
      var j: nat :| LastRun(mine, j) && h.consecutive == |mine| - j + if j == 0 then seed.consecutive else 0;
      assert LastRun(mine', j);
    }
  }

  lemma OfSnoc(outcomes: seq<Outcome>, o: Outcome, i: nat)
    ensures Of(outcomes + [o], i) == Of(outcomes, i) + if o.index == i then [o] else []
  {
    assert (outcomes + [o])[..|outcomes|] == outcomes;
  }

  /** The last `cap` members. */
  function Newest<T>(xs: seq<T>, cap: nat): seq<T> {
    if |xs| <= cap then xs else xs[|xs| - cap..]
  }

  lemma NewestSnoc<T>(xs: seq<T>, x: T, cap: nat)
    requires cap > 0
    ensures Newest(Newest(xs, cap) + [x], cap) == Newest(xs + [x], cap)
  {
  }

  /** The stored state of a pool of `n` entries is a function of what it was seeded with and of every outcome since. */
  ghost predicate Remembers(
    n: nat, seed: map<nat, Health>, health: map<nat, Health>, events: seq<Outcome>, outcomes: seq<Outcome>)
  {
    && events == Newest(Kept(outcomes, n), MAX_EVENTS)
    && (forall i: nat :: Tallies(HealthOf(health, i), HealthOf(seed, i), if i < n then Of(outcomes, i) else []))
  }

  lemma TalliesNothing(h: Health)
    ensures Tallies(h, h, [])
  {
    assert LastRun([], 0);
  }

  lemma RemembersNothing(n: nat, health: map<nat, Health>)
    ensures Remembers(n, health, health, [], [])
  {
    hide Tallies;
    forall i: nat ensures Tallies(HealthOf(health, i), HealthOf(health, i), []) {
      TalliesNothing(HealthOf(health, i));
    }
  }

  lemma RemembersNext(
    n: nat, seed: map<nat, Health>, health: map<nat, Health>, events: seq<Outcome>, outcomes: seq<Outcome>, o: Outcome)
    requires Remembers(n, seed, health, events, outcomes)
    ensures 0 <= o.index < n ==>
      Remembers(n, seed, health[o.index := Next(HealthOf(health, o.index), o.ok)],
                Newest(events + [o], MAX_EVENTS), outcomes + [o])
    ensures !(0 <= o.index < n) ==> Remembers(n, seed, health, events, outcomes + [o])
  {
    hide Tallies, Newest;
    assert (outcomes + [o])[..|outcomes|] == outcomes;
    NewestSnoc(Kept(outcomes, n), o, MAX_EVENTS);
    assert Kept(outcomes, n) + [] == Kept(outcomes, n);
    forall i: nat ensures i < n ==> Of(outcomes + [o], i) == Of(outcomes, i) + if o.index == i then [o] else [] {
      OfSnoc(outcomes, o, i);
    }
    forall i: nat | i != o.index ensures Of(outcomes, i) + [] == Of(outcomes, i) {
    }
    if 0 <= o.index < n {
      TalliesNext(HealthOf(health, o.index), HealthOf(seed, o.index), Of(outcomes, o.index), o);
    }
  }

  /** In a pool that starts without earlier telemetry an entry is skipped exactly when its newest `after` attempts all
      failed. */
  lemma UnhealthyExactly(
    n: nat, health: map<nat, Health>, events: seq<Outcome>, outcomes: seq<Outcome>, after: nat, i: nat)
    requires Remembers(n, map[], health, events, outcomes) && after >= 1 && i < n
    ensures Unhealthy(health, after, i) <==>
      |Of(outcomes, i)| >= after && forall k :: |Of(outcomes, i)| - after <= k < |Of(outcomes, i)| ==> !Of(outcomes, i)[k].ok
  {
    hide Of, Kept, Newest, Count;
    var mine := Of(outcomes, i);
    assert Tallies(HealthOf(health, i), UNTRIED, mine);
    var j: nat :| LastRun(mine, j) && HealthOf(health, i).consecutive == |mine| - j + if j == 0 then UNTRIED.consecutive else 0;
    if |mine| - j < after && |mine| >= after && j > 0 {
      assert |mine| - after <= j - 1;
    }
  }

  /** One attempt at a time: while some entry is healthy, an attempt never makes another entry healthy, and only a
      failure at the edge takes the picked one out. */
  lemma HealthyShrinks(health: map<nat, Health>, after: int, cursor: nat, n: nat, ok: bool)
    requires n > 0 && after >= 1 && HealthySet(health, after, n) != {}
    ensures var h := HealthySet(health, after, n);
      var p := PickOf(cursor, n, h);
      var h' := HealthySet(health[p := Next(HealthOf(health, p), ok)], after, n);
      p in h && h' == if !ok && HealthOf(health, p).consecutive + 1 >= after then h - {p} else h
  {
    var h := HealthySet(health, after, n);
    PickNearest(cursor, n, h);
    hide PickOf;
  }

  // ------------------------------------------------------------- the pool

  class Pool {
    const entries: seq<string>
    const unhealthyAfter: int
    var cursor: nat
    var rows: seq<Row>
    var health: map<nat, Health>
    var events: seq<Outcome>
    ghost var seed: map<nat, Health>
    ghost var outcomes: seq<Outcome>

    ghost predicate Valid()
      reads this
    {
      entries != [] && unhealthyAfter >= 1 && Remembers(|entries|, seed, health, events, outcomes)
    }

    constructor (entries: seq<string>, unhealthyAfter: int)
      requires entries != []
      ensures Valid() && this.entries == entries
      ensures this.unhealthyAfter == if unhealthyAfter > 1 then unhealthyAfter else 1
      ensures cursor == 0 && rows == [] && events == [] && outcomes == [] && health == map[] && seed == map[]
    {
      this.entries := entries;
      this.unhealthyAfter := if unhealthyAfter > 1 then unhealthyAfter else 1;
      cursor, rows, health, events, seed, outcomes := 0, [], map[], [], map[], [];
      RemembersNothing(|entries|, map[]);
      hide Remembers;
    }

    /** `load_health`, given the stored rows that name a pool entry. */
    method Seed(stored: map<nat, Health>)
      requires Valid() && outcomes == [] && forall i :: i in stored ==> i < |entries|
      modifies `health, `seed
      ensures Valid() && health == old(health) + stored && seed == health
    {
      health := health + stored;
      seed := health;
      RemembersNothing(|entries|, health);
    }

    method Pick() returns (idx: nat, skipped: seq<nat>, exhausted: bool)
      requires Valid()
      modifies `cursor
      ensures Valid() && idx < |entries| && cursor == idx + 1
      ensures idx == PickOf(old(cursor), |entries|, HealthySet(health, unhealthyAfter, |entries|))
      ensures exhausted <==> HealthySet(health, unhealthyAfter, |entries|) == {}
      ensures skipped == if exhausted then [] else Cycle(old(cursor), |entries|, Distance(old(cursor), idx, |entries|))
    {
      hide Remembers, Unhealthy, Place, PickOf, Distance, Steps, Cycle;
      var total := |entries|;
      var healthy := HealthySet(health, unhealthyAfter, total);
      PickNearest(cursor, total, healthy);
      if |healthy| == total {
        FullSet(healthy, total);
        idx := cursor % total;
        PickAtCursor(cursor, total, healthy);
        PlaceWithin(cursor, total, 0);
        assert Distance(cursor, idx, total) == 0 by { DistanceUnique(cursor, idx, total, 0); }
        cursor, skipped, exhausted := idx + 1, [], false;
        CycleNothing(old(cursor), total);
        return;
      }
      if healthy != {} {
        idx, skipped := Scan(healthy);
        cursor, exhausted := idx + 1, false;
        return;
      }
      idx := cursor % total;
      PlaceWithin(cursor, total, 0);
      PickAtCursor(cursor, total, healthy);
      cursor, skipped, exhausted := idx + 1, [], true;
    }

    /** The scan of `_pick` for an entry that is still healthy, with the entries it passes over. */
    method Scan(healthy: set<nat>) returns (idx: nat, skipped: seq<nat>)
      requires entries != [] && healthy != {} && Within(healthy, |entries|)
      ensures idx == PickOf(cursor, |entries|, healthy) && idx < |entries|
      ensures skipped == Cycle(cursor, |entries|, Distance(cursor, idx, |entries|))
      ensures forall i :: i in skipped ==> i !in healthy
    {
      var total := |entries|;
      PickNearest(cursor, total, healthy);
      StepsNearest(cursor, total, healthy, 0);
      hide Place, Distance;
      ghost var s := Steps(cursor, total, healthy, 0);
      skipped := [];
      var k := 0;
      while (cursor + k) % total !in healthy
        invariant k <= s && skipped == Cycle(cursor, total, k)
        invariant forall i :: i in skipped ==> i !in healthy
        decreases s - k
      {
        PlaceIs(cursor, total, k);
        skipped := skipped + [(cursor + k) % total];
        k := k + 1;
      }
      PlaceIs(cursor, total, k);
      idx := (cursor + k) % total;
    }

    method Assign(tool: string, moduleName: string, proxied: bool, attempt: Option<int>) returns (url: string, idx: int)
      requires Valid()
      modifies `cursor, `rows
      ensures Valid()
      ensures !proxied ==> url == "" && idx == -1 && cursor == old(cursor)
      ensures !proxied ==> rows == old(rows) + [Row(tool, moduleName, -1, attempt, [], false)]
      ensures proxied ==> (
        && 0 <= idx < |entries| && url == entries[idx] && cursor == idx + 1
        && idx == PickOf(old(cursor), |entries|, HealthySet(health, unhealthyAfter, |entries|))
        && |rows| == |old(rows)| + 1 && rows[..|old(rows)|] == old(rows)
        && var row := rows[|old(rows)|];
          && row == Row(tool, moduleName, idx, attempt, row.skipped, HealthySet(health, unhealthyAfter, |entries|) == {})
          && row.skipped == if row.exhausted then [] else Cycle(old(cursor), |entries|, Distance(old(cursor), idx, |entries|)))
    {
      hide Remembers, HealthySet, PickOf;
      if !proxied {
        rows := rows + [Row(tool, moduleName, -1, attempt, [], false)];
        return "", -1;
      }
      var i, skipped, exhausted := Pick();
      rows := rows + [Row(tool, moduleName, i, attempt, skipped, exhausted)];
      return entries[i], i;
    }

    method RecordOutcome(o: Outcome)
      requires Valid()
      modifies `health, `events, `outcomes
      ensures Valid() && outcomes == old(outcomes) + [o]
      ensures health == if 0 <= o.index < |entries| then old(health)[o.index := Next(HealthOf(old(health), o.index), o.ok)]
                        else old(health)
    {
      hide Remembers;
      RemembersNext(|entries|, seed, health, events, outcomes, o);
      outcomes := outcomes + [o];
      if o.index < 0 || o.index >= |entries| { return; }
      var stats := HealthOf(health, o.index);
      if o.ok {
        stats := stats.(ok := stats.ok + 1, consecutive := 0);
      } else {
        stats := stats.(fail := stats.fail + 1, consecutive := stats.consecutive + 1);
      }
      health := health[o.index := stats];
      events := events + [o];
      if |events| > MAX_EVENTS { events := events[|events| - MAX_EVENTS..]; }
    }
  }

  /** The constructor behind its check; None for the ValueError on an empty pool. */
  method NewPool(entries: seq<string>, unhealthyAfter: int) returns (pool: Pool?)
    ensures pool == null <==> entries == []
    ensures pool != null ==> fresh(pool) && pool.Valid() && pool.entries == entries && pool.cursor == 0 && pool.rows == []
  {
    if entries == [] { return null; }
    pool := new Pool(entries, unhealthyAfter);
  }

  lemma {:induction false} FullSet(s: set<nat>, n: nat)
    requires Within(s, n)
    ensures |s| <= n
    ensures |s| == n ==> forall i: nat :: i < n ==> i in s
  {
    if n > 0 {
      var t := s - {n - 1};
      FullSet(t, n - 1);
      if n - 1 !in s { assert t == s; }
    } else {
      assert s == {};
    }
  }
}
