/** The slot files of overlapping fleets (pipeline/fleet.py): worker threads of any number of processes share one
    directory, and the threads of one run share one slot object. Every file operation and every access of the object's
    token is a step of its own, and the threads interleave in any order. */
module Fleet {
  import opened Basics

  /** Where a worker stands in `_job`; a slot file is known by its number. */
  datatype Phase =
    | Idle
    | Scanning(i: nat)
    | Created(slot: nat)
    | Running
    | Releasing
    | Checked
    | Named(slot: nat)
    | Unlinked
    | Done
    | Refused
    | Crashed

  /** `owner` gives each thread its slot object, `limits` each object its limit. */
  datatype Setup = Setup(owner: seq<nat>, limits: seq<nat>)

  datatype State = State(files: set<nat>, tokens: seq<Option<nat>>, phases: seq<Phase>)

  ghost predicate Good(c: Setup) {
    && (forall t :: 0 <= t < |c.owner| ==> c.owner[t] < |c.limits|)
    && (forall o :: 0 <= o < |c.limits| ==> c.limits[o] >= 1)
  }

  ghost predicate Fits(c: Setup, s: State) {
    |s.phases| == |c.owner| && |s.tokens| == |c.limits|
  }

  function Start(c: Setup): State {
    State({}, seq(|c.limits|, _ => None), seq(|c.owner|, _ => Idle))
  }

  function Moved(s: State, t: nat, p: Phase): State
    requires t < |s.phases|
  {
    s.(phases := s.phases[t := p])
  }

  /** One step of thread `t`. */
  ghost function Step(c: Setup, s: State, t: nat): State
    requires Good(c) && Fits(c, s)
  {
    if t >= |s.phases| then s
    else
      var o := c.owner[t];
      match s.phases[t]
      case Idle => Moved(s, t, Scanning(0))
      case Scanning(i) =>
        if i >= c.limits[o] then Moved(s, t, Refused)
        else if i in s.files then Moved(s, t, Scanning(i + 1))
        else Moved(s.(files := s.files + {i}), t, Created(i))
      case Created(i) => Moved(s.(tokens := s.tokens[o := Some(i)]), t, Running)
      case Running => Moved(s, t, Releasing)
      case Releasing => Moved(s, t, if s.tokens[o].None? then Done else Checked)
      // With the token cleared in between, the path names the directory itself and removing that raises.
      case Checked => Moved(s, t, if s.tokens[o].None? then Crashed else Named(s.tokens[o].value))
      case Named(i) => Moved(s.(files := s.files - {i}), t, Unlinked)
      case Unlinked => Moved(s.(tokens := s.tokens[o := None]), t, Done)
      case _ => s
  }

  lemma StepFits(c: Setup, s: State, t: nat)
    requires Good(c) && Fits(c, s)
    ensures Fits(c, Step(c, s, t))
  {
  }

  /** The state after the threads moved in the order of the schedule. */
  ghost function Run(c: Setup, s: State, schedule: seq<nat>): (r: State)
    requires Good(c) && Fits(c, s)
    ensures Fits(c, r)
    decreases |schedule|
  {
    StepFits(c, s, if schedule == [] then 0 else schedule[0]);
    if schedule == [] then s else Run(c, Step(c, s, schedule[0]), schedule[1..])
  }

  lemma {:induction false} RunAppend(c: Setup, s: State, a: seq<nat>, b: seq<nat>)
    requires Good(c) && Fits(c, s)
    ensures Run(c, s, a + b) == Run(c, Run(c, s, a), b)
    decreases |a|
  {
    hide Step;
    if a == [] {
      assert a + b == b;
    } else {
      StepFits(c, s, a[0]);
      RunAppend(c, Step(c, s, a[0]), a[1..], b);
      assert (a + b)[1..] == a[1..] + b;
    }
  }

  // ------------------------------------------------------------- safety, however objects are shared

  /** A worker between the creation of its slot file and the removal of one. */
  predicate Holds(p: Phase) {
    p.Created? || p.Running? || p.Releasing? || p.Checked? || p.Named?
  }

  function Holders(ps: seq<Phase>): nat {
    if ps == [] then 0 else Holders(ps[..|ps| - 1]) + if Holds(ps[|ps| - 1]) then 1 else 0
  }

  /** The workers whose member process is alive. */
  function Live(ps: seq<Phase>): nat {
    if ps == [] then 0 else Live(ps[..|ps| - 1]) + if ps[|ps| - 1].Running? then 1 else 0
  }

  lemma {:induction false} HoldersMoved(ps: seq<Phase>, t: nat, p: Phase)
    requires t < |ps|
    ensures Holders(ps[t := p])
         == Holders(ps) - (if Holds(ps[t]) then 1 else 0) + (if Holds(p) then 1 else 0)
  {
    var n := |ps| - 1;
    if t == n {
      assert ps[t := p][..n] == ps[..n];
    } else {
      HoldersMoved(ps[..n], t, p);
      assert ps[t := p][..n] == ps[..n][t := p];
    }
  }

  lemma {:induction false} LiveHolds(ps: seq<Phase>)
    ensures Live(ps) <= Holders(ps) <= |ps|
  {
    if ps != [] { LiveHolds(ps[..|ps| - 1]); }
  }

  ghost predicate Below(files: set<nat>, bound: nat) {
    forall i :: i in files ==> i < bound
  }

  lemma {:induction false} BelowCount(files: set<nat>, bound: nat)
    requires Below(files, bound)
    ensures |files| <= bound
  {
    if bound == 0 {
      assert files == {};
    } else {
      BelowCount(files - {bound - 1}, bound - 1);
      assert files <= (files - {bound - 1}) + {bound - 1};
      if bound - 1 !in files { assert files - {bound - 1} == files; }
    }
  }

  ghost predicate Safe(s: State, bound: nat) {
    Below(s.files, bound) && Holders(s.phases) <= |s.files|
  }

  lemma StepSafe(c: Setup, s: State, t: nat, bound: nat)
    requires Good(c) && Fits(c, s) && Safe(s, bound)
    requires forall o :: 0 <= o < |c.limits| ==> c.limits[o] <= bound
    ensures Safe(Step(c, s, t), bound)
  {
    if t < |s.phases| {
      HoldersMoved(s.phases, t, Step(c, s, t).phases[t]);
      hide Holders;
      match s.phases[t] {
        case Named(i) => assert i in s.files ==> |s.files - {i}| == |s.files| - 1; assert i !in s.files ==> s.files - {i} == s.files;
        case _ =>
      }
    }
  }

  lemma {:induction false} NoHolders(ps: seq<Phase>)
    requires forall t :: 0 <= t < |ps| ==> ps[t] == Idle
    ensures Holders(ps) == 0
  {
    if ps != [] { NoHolders(ps[..|ps| - 1]); }
  }

  lemma {:induction false} RunSafe(c: Setup, s: State, schedule: seq<nat>, bound: nat)
    requires Good(c) && Fits(c, s) && Safe(s, bound)
    requires forall o :: 0 <= o < |c.limits| ==> c.limits[o] <= bound
    ensures Safe(Run(c, s, schedule), bound)
    decreases |schedule|
  {
    hide Safe, Step;
    if schedule != [] {
      StepFits(c, s, schedule[0]);
      StepSafe(c, s, schedule[0], bound);
      RunSafe(c, Step(c, s, schedule[0]), schedule[1..], bound);
    }
  }

  /** In every interleaving, and however the threads share their objects: live members <= slot files <= limit. */
  lemma LiveWithinLimit(c: Setup, schedule: seq<nat>, bound: nat)
    requires Good(c) && forall o :: 0 <= o < |c.limits| ==> c.limits[o] <= bound
    ensures var s := Run(c, Start(c), schedule); Live(s.phases) <= |s.files| <= bound
  {
    NoHolders(Start(c).phases);
    RunSafe(c, Start(c), schedule, bound);
    var s := Run(c, Start(c), schedule);
    LiveHolds(s.phases);
    BelowCount(s.files, bound);
  }

  // ------------------------------------------------------------- one object per holder

  ghost predicate Private(c: Setup) {
    forall t, u :: 0 <= t < u < |c.owner| ==> c.owner[t] != c.owner[u]
  }

  /** The slot a worker holds, if any. */
  function SlotOf(p: Phase, token: Option<nat>): Option<nat> {
    match p
    case Created(i) => Some(i)
    case Running => token
    case Releasing => token
    case Checked => token
    case Named(i) => Some(i)
    case _ => None
  }

  /** The token says what the phase needs it to say. */
  predicate Agrees(p: Phase, token: Option<nat>) {
    match p
    case Idle => token.None?
    case Scanning(_) => token.None?
    case Created(_) => token.None?
    case Running => token.Some?
    case Releasing => token.Some?
    case Checked => token.Some?
    case Named(i) => token == Some(i)
    case Unlinked => true
    case Done => token.None?
    case Refused => token.None?
    case Crashed => false
  }

  ghost function Held(c: Setup, s: State, t: nat): Option<nat>
    requires Good(c) && Fits(c, s) && t < |s.phases|
  {
    SlotOf(s.phases[t], s.tokens[c.owner[t]])
  }

  /** Files and holders are in bijection. */
  ghost predicate Matched(c: Setup, s: State)
    requires Good(c) && Fits(c, s)
  {
    && (forall t :: 0 <= t < |s.phases| ==> Agrees(s.phases[t], s.tokens[c.owner[t]]))
    && (forall t :: 0 <= t < |s.phases| && Held(c, s, t).Some? ==> Held(c, s, t).value in s.files)
    && (forall i :: i in s.files ==> exists t :: 0 <= t < |s.phases| && Held(c, s, t) == Some(i))
    && (forall t, u :: 0 <= t < u < |s.phases| && Held(c, s, t).Some? ==> Held(c, s, t) != Held(c, s, u))
  }

  /** A step of `t` touches no other thread's token or phase. */
  lemma StepOthers(c: Setup, s: State, t: nat)
    requires Good(c) && Private(c) && Fits(c, s) && t < |s.phases|
    ensures Fits(c, Step(c, s, t))
    ensures forall u :: 0 <= u < |s.phases| && u != t ==>
      Step(c, s, t).phases[u] == s.phases[u] && Step(c, s, t).tokens[c.owner[u]] == s.tokens[c.owner[u]]
      && Held(c, Step(c, s, t), u) == Held(c, s, u)
  {
  }

  /** What a step does to its own thread: takes a free slot, gives its slot back, or keeps what it holds. */
  lemma StepOwn(c: Setup, s: State, t: nat)
    requires Good(c) && Fits(c, s) && t < |s.phases| && Agrees(s.phases[t], s.tokens[c.owner[t]])
    ensures var s' := Step(c, s, t);
      && Fits(c, s') && Agrees(s'.phases[t], s'.tokens[c.owner[t]])
      && (|| (Held(c, s', t) == Held(c, s, t) && s'.files == s.files)
          || (Held(c, s, t).None? && Held(c, s', t).Some? && Held(c, s', t).value !in s.files
              && s'.files == s.files + {Held(c, s', t).value})
          || (Held(c, s, t).Some? && Held(c, s', t).None? && s'.files == s.files - {Held(c, s, t).value}))
  {
  }

  lemma StepMatched(c: Setup, s: State, t: nat)
    requires Good(c) && Private(c) && Fits(c, s) && Matched(c, s)
    ensures Fits(c, Step(c, s, t)) && Matched(c, Step(c, s, t))
  {
    if t < |s.phases| {
      StepOthers(c, s, t);
      StepOwn(c, s, t);
      var s' := Step(c, s, t);
      assert |s'.phases| == |s.phases|;
      hide Step, Held, Agrees;
      forall i | i in s'.files ensures exists u :: 0 <= u < |s'.phases| && Held(c, s', u) == Some(i) {
        if i in s.files {
          var u :| 0 <= u < |s.phases| && Held(c, s, u) == Some(i);
          assert Held(c, s', u) == Some(i);
        } else {
          assert Held(c, s', t) == Some(i);
        }
      }
    }
  }

  lemma {:induction false} RunMatched(c: Setup, s: State, schedule: seq<nat>)
    requires Good(c) && Private(c) && Fits(c, s) && Matched(c, s)
    ensures Matched(c, Run(c, s, schedule))
    decreases |schedule|
  {
    hide Matched, Step;
    if schedule != [] {
      StepMatched(c, s, schedule[0]);
      RunMatched(c, Step(c, s, schedule[0]), schedule[1..]);
    }
  }

  predicate Over(p: Phase) {
    p.Done? || p.Refused? || p.Crashed?
  }

  ghost predicate Complete(s: State) {
    forall t :: 0 <= t < |s.phases| ==> Over(s.phases[t])
  }

  /** With an object of its own per thread, files and holders match at every moment of every run, nothing crashes, and
      when all are done the directory is empty. */
  lemma PrivateObjects(c: Setup, schedule: seq<nat>)
    requires Good(c) && Private(c)
    ensures var s := Run(c, Start(c), schedule); Matched(c, s) && (Complete(s) ==> s.files == {})
  {
    RunMatched(c, Start(c), schedule);
    var s := Run(c, Start(c), schedule);
    assert Complete(s) ==> forall t :: 0 <= t < |s.phases| ==> Held(c, s, t).None?;
  }

  // ------------------------------------------------------------- shared objects leak

  ghost predicate Quiet(s: State) {
    forall o :: 0 <= o < |s.tokens| ==> s.tokens[o].None?
  }

  /** `s'` differs from `s` only in thread `t`, which is over. */
  ghost predicate Finished(s: State, s': State, t: nat) {
    && s'.files == s.files && s'.tokens == s.tokens
    && t < |s.phases| == |s'.phases| && Over(s'.phases[t])
    && forall u :: 0 <= u < |s.phases| && u != t ==> s'.phases[u] == s.phases[u]
  }

  lemma RunTwo(c: Setup, s: State, t: nat, u: nat)
    requires Good(c) && Fits(c, s)
    ensures Fits(c, Step(c, s, t)) && Run(c, s, [t, u]) == Step(c, Step(c, s, t), u)
  {
    StepFits(c, s, t);
    assert [t, u][1..] == [u] && [u][1..] == [];
    hide Step;
    assert Run(c, Step(c, s, t), [u]) == Step(c, Step(c, s, t), u);
  }

  /** From the creation of its file on, a thread alone gives back exactly what it took. */
  lemma AloneFrom(c: Setup, s: State, t: nat, i: nat) returns (schedule: seq<nat>)
    requires Good(c) && Fits(c, s) && Quiet(s) && t < |s.phases| && s.phases[t] == Created(i) && i in s.files
    ensures Finished(s.(files := s.files - {i}), Run(c, s, schedule), t)
  {
    var o := c.owner[t];
    var s1 := Moved(s.(tokens := s.tokens[o := Some(i)]), t, Running);
    var s3 := Moved(s1, t, Checked);
    var s5 := Moved(s1.(files := s.files - {i}), t, Unlinked);
    RunTwo(c, s, t, t);
    RunTwo(c, Moved(s1, t, Releasing), t, t);
    RunTwo(c, Moved(s1, t, Named(i)), t, t);
    assert Step(c, s, t) == s1 && Step(c, s1, t) == Moved(s1, t, Releasing);
    assert Step(c, Moved(s1, t, Releasing), t) == s3 && Step(c, s3, t) == Moved(s1, t, Named(i));
    assert Step(c, Moved(s1, t, Named(i)), t) == s5;
    var last := Moved(s5.(tokens := s5.tokens[o := None]), t, Done);
    assert Step(c, s5, t) == last;
    hide Step;
    assert last.tokens == s.tokens;
    RunAppend(c, s, [t, t], [t, t]);
    RunAppend(c, s, [t, t] + [t, t], [t, t]);
    schedule := [t, t] + [t, t] + [t, t];
  }

  /** A thread alone, among objects that hold no token, ends and leaves the directory as it found it. */
  lemma {:induction false} AloneScanning(c: Setup, s: State, t: nat, i: nat) returns (schedule: seq<nat>)
    requires Good(c) && Fits(c, s) && Quiet(s) && t < |s.phases| && s.phases[t] == Scanning(i) && i <= c.limits[c.owner[t]]
    ensures Finished(s, Run(c, s, schedule), t)
    decreases c.limits[c.owner[t]] - i
  {
    var s1 := Step(c, s, t);
    StepFits(c, s, t);
    assert [t][1..] == [];
    var rest: seq<nat> := [];
    if i < c.limits[c.owner[t]] {
      if i in s.files {
        rest := AloneScanning(c, s1, t, i + 1);
      } else {
        rest := AloneFrom(c, s1, t, i);
        assert s1.files - {i} == s.files;
      }
    }
    schedule := [t] + rest;
    assert schedule[1..] == rest;
  }

  lemma Alone(c: Setup, s: State, t: nat) returns (schedule: seq<nat>)
    requires Good(c) && Fits(c, s) && Quiet(s) && t < |s.phases| && (s.phases[t] == Idle || Over(s.phases[t]))
    ensures Finished(s, Run(c, s, schedule), t)
  {
    if s.phases[t] == Idle {
      StepFits(c, s, t);
      var rest := AloneScanning(c, Step(c, s, t), t, 0);
      schedule := [t] + rest;
      assert schedule[1..] == rest;
    } else {
      schedule := [];
    }
  }

  lemma {:induction false} RestAlone(c: Setup, s: State, t: nat) returns (schedule: seq<nat>)
    requires Good(c) && Fits(c, s) && Quiet(s) && t <= |s.phases|
    requires forall u :: 0 <= u < |s.phases| ==> Over(s.phases[u]) || (u >= t && s.phases[u] == Idle)
    ensures Complete(Run(c, s, schedule)) && Run(c, s, schedule).files == s.files
    decreases |s.phases| - t
  {
    if t == |s.phases| {
      schedule := [];
    } else {
      var first := Alone(c, s, t);
      hide Step;
      var rest := RestAlone(c, Run(c, s, first), t + 1);
      RunAppend(c, s, first, rest);
      schedule := first + rest;
    }
  }

  /** The state in which `t` has removed its file but not yet cleared the token, and `u` has begun. */
  function Overlap(c: Setup, t: nat, u: nat): State
    requires Good(c) && t < |c.owner| && u < |c.owner|
  {
    State({}, Start(c).tokens[c.owner[t] := Some(0)], Start(c).phases[t := Unlinked][u := Scanning(0)])
  }

  lemma OverlapReached(c: Setup, t: nat, u: nat) returns (schedule: seq<nat>)
    requires Good(c) && t < |c.owner| && u < |c.owner| && t != u
    ensures Run(c, Start(c), schedule) == Overlap(c, t, u)
  {
    var s0 := Start(c);
    RunTwo(c, s0, t, t);
    var s2 := State({0}, s0.tokens, s0.phases[t := Created(0)]);
    assert s0.files + {0} == {0} && s0.phases[t := Scanning(0)][t := Created(0)] == s2.phases;
    RunTwo(c, s2, t, t);
    var s4 := State({0}, s0.tokens[c.owner[t] := Some(0)], s0.phases[t := Releasing]);
    assert s2.phases[t := Running][t := Releasing] == s4.phases;
    RunTwo(c, s4, t, t);
    var s6 := State({0}, s4.tokens, s0.phases[t := Named(0)]);
    assert s4.phases[t := Checked][t := Named(0)] == s6.phases;
    RunTwo(c, s6, t, u);
    assert s6.files - {0} == {} && s6.phases[t := Unlinked] == s0.phases[t := Unlinked];
    assert Run(c, s6, [t, u]) == Overlap(c, t, u);
    hide Step;
    RunAppend(c, s0, [t, t], [t, t]);
    RunAppend(c, s0, [t, t] + [t, t], [t, t]);
    RunAppend(c, s0, [t, t] + [t, t] + [t, t], [t, u]);
    schedule := [t, t] + [t, t] + [t, t] + [t, u];
  }

  /** Two threads on one object: `t` removes its file, `u` takes the same slot and writes its token, `t` clears it, and
      `u` has nothing to release. */
  lemma LeakBegins(c: Setup, t: nat, u: nat) returns (schedule: seq<nat>)
    requires Good(c) && t < |c.owner| && u < |c.owner| && t != u && c.owner[t] == c.owner[u]
    ensures var s := Run(c, Start(c), schedule);
      && s.files == {0} && Quiet(s)
      && Over(s.phases[t]) && Over(s.phases[u])
      && forall v :: 0 <= v < |s.phases| && v != t && v != u ==> s.phases[v] == Idle
  {
    var first := OverlapReached(c, t, u);
    LeakEnds(c, t, u, Overlap(c, t, u));
    hide Run, Step;
    RunAppend(c, Start(c), first, [u, u] + [t, u] + [u]);
    schedule := first + ([u, u] + [t, u] + [u]);
  }

  lemma LeakEnds(c: Setup, t: nat, u: nat, s: State)
    requires Good(c) && Fits(c, s) && t < |c.owner| && u < |c.owner| && t != u && c.owner[t] == c.owner[u]
    requires s.phases[t] == Unlinked && s.phases[u] == Scanning(0) && s.files == {}
    requires forall o :: 0 <= o < |s.tokens| && o != c.owner[t] ==> s.tokens[o].None?
    ensures var s' := Run(c, s, [u, u] + [t, u] + [u]);
      && s'.files == {0} && Quiet(s') && s'.phases == s.phases[t := Done][u := Done]
  {
    var o := c.owner[t];
    RunTwo(c, s, u, u);
    assert s.files + {0} == {0};
    var s2 := Moved(State({0}, s.tokens[o := Some(0)], s.phases), u, Running);
    assert Run(c, s, [u, u]) == s2;
    RunTwo(c, s2, t, u);
    var s4 := State({0}, s.tokens[o := None], s.phases[t := Done][u := Releasing]);
    assert Run(c, s2, [t, u]) == s4;
    assert [u][1..] == [];
    assert Run(c, s4, [u]) == Step(c, s4, u);
    RunAppend(c, s, [u, u], [t, u]);
    RunAppend(c, s, [u, u] + [t, u], [u]);
  }

  ghost predicate AlwaysEmpties(c: Setup)
    requires Good(c)
  {
    forall schedule :: Complete(Run(c, Start(c), schedule)) ==> Run(c, Start(c), schedule).files == {}
  }

  /** Every complete run leaves the directory empty exactly when no two threads share a slot object. */
  lemma EmptiesExactly(c: Setup)
    requires Good(c)
    ensures AlwaysEmpties(c) <==> Private(c)
  {
    hide Run;
    if Private(c) {
      forall schedule | Complete(Run(c, Start(c), schedule)) ensures Run(c, Start(c), schedule).files == {} {
        PrivateObjects(c, schedule);
      }
    } else {
      var t, u :| 0 <= t < u < |c.owner| && c.owner[t] == c.owner[u];
      var first := LeakBegins(c, t, u);
      var rest := RestAlone(c, Run(c, Start(c), first), 0);
      RunAppend(c, Start(c), first, rest);
      assert Run(c, Start(c), first + rest).files == {0};
    }
  }
}
