/** The stage ladder of a run (pipeline/engine.py) as interleaved steps of two branch threads, a port-check worker,
    the main thread and an operator who may press STOP at any moment. The state file is one atomic register. */
module EngineStop {

  datatype RunStatus = Running | Completed | Partial | Failed | Anomaly | Stopped

  datatype ModuleStatus = InProgress | Done | Broken

  /** The branch threads and the port-check worker. */
  datatype Who = Passive | Active | Worker

  /** Where a thread stands in its list of modules. */
  datatype Pc =
    | Next(todo: seq<string>)
    | Checked(name: string, todo: seq<string>)
    | Admitted(name: string, todo: seq<string>)
    | Announced(name: string, todo: seq<string>)
    | Inside(name: string, todo: seq<string>)
    | Returned(name: string, todo: seq<string>)
    | Marking(name: string, todo: seq<string>)
    | Reloading(todo: seq<string>)
    | Joining(stopped: bool)
    | Ended(stopped: bool)

  /** Where the main thread stands; stage 0 is MERGE, 1 to 3 are PORT-SWEEP, FFUF-4 and OWASP-PASSIVE. */
  datatype MainPc =
    | Waiting
    | BranchCheck
    | MergeSkip
    | StageCheck(stage: nat)
    | StageSkip(stage: nat)
    | StageReady(stage: nat)
    | StageInside(stage: nat)
    | Final1
    | Final2
    | Write
    | Final3
    | Exit(code: int)

  datatype Event = StopLands | PauseWrites | Begins(who: Who, name: string) | StageBegins(stage: nat) | LastCheck

  /** `before` ends with dns-resolve; `after` is the rest of the ACTIVE list; `rows` are those of an earlier run that
      is resumed. */
  datatype Config = Config(
    passive: seq<string>, before: seq<string>, after: seq<string>, runners: set<string>, stageNames: seq<string>,
    rows: map<string, ModuleStatus>)

  predicate WellFormed(cfg: Config) {
    |cfg.stageNames| == 4
  }

  /** The last two fields are the copies of the module rows that the branches test for "already done"; the worker
      shares that of its branch. */
  datatype State = State(
    run: RunStatus, modules: map<string, ModuleStatus>, passive: Pc, active: Pc, forked: bool, worker: Pc, main: MainPc,
    log: seq<Event>, seenPassive: map<string, ModuleStatus>, seenActive: map<string, ModuleStatus>)

  datatype Action =
    | Pass(who: Who) | Check(who: Who) | Judge(who: Who) | GiveUp(who: Who) | Announce(who: Who) | Begin(who: Who)
    | Return(who: Who) | Crash(who: Who) | Abort(who: Who) | Recheck(who: Who) | MarkDone(who: Who) | Reload(who: Who)
    | Finish(who: Who)
    | Join
    | Main(skip: bool, verdict: RunStatus)
    | Stop
    | FailRunning
    | Pause(who: Who)
    | StagePause

  function Start(cfg: Config): State {
    State(Running, cfg.rows, Next(cfg.passive), Next(cfg.before), false, Ended(false), Waiting, [], cfg.rows, cfg.rows)
  }

  function At(s: State, who: Who): Pc {
    match who case Passive => s.passive case Active => s.active case Worker => s.worker
  }

  function Move(s: State, who: Who, pc: Pc): State {
    match who
    case Passive => s.(passive := pc)
    case Active => s.(active := pc)
    case Worker => s.(worker := pc)
  }

  function Seen(s: State, who: Who): map<string, ModuleStatus> {
    if who == Passive then s.seenPassive else s.seenActive
  }

  function Remember(s: State, who: Who): State {
    if who == Passive then s.(seenPassive := s.modules) else s.(seenActive := s.modules)
  }

  /** `skip_done`. */
  predicate SkipDone(rows: map<string, ModuleStatus>, name: string) {
    name in rows && rows[name] == Done
  }

  /** `set_status`: STOP refuses "running" and turns "done" into "failed". */
  function SetModule(run: RunStatus, ms: map<string, ModuleStatus>, name: string, status: ModuleStatus)
    : map<string, ModuleStatus>
  {
    if status == InProgress && run == Stopped then ms
    else if status == Done && run == Stopped then ms[name := Broken]
    else ms[name := status]
  }

  /** `fail_running_modules`. */
  function FailAll(ms: map<string, ModuleStatus>): map<string, ModuleStatus> {
    map m | m in ms :: if ms[m] == InProgress then Broken else ms[m]
  }

  /** `set_run_status` without `overwrite_stopped`. */
  function SetRun(run: RunStatus, status: RunStatus): RunStatus {
    if run == Stopped && status != Stopped then run else status
  }

  function Log(s: State, e: Event): State {
    s.(log := s.log + [e])
  }

  /** How a thread leaves its loop: the ACTIVE thread still has its worker to wait for. */
  function Leave(s: State, who: Who, stopped: bool): Pc {
    if who == Active && s.forked then Joining(stopped) else Ended(stopped)
  }

  predicate IsPort(name: string) {
    name == "port-check"
  }

  function VhostNames(names: seq<string>): seq<string> {
    if names == [] then []
    else if IsPort(names[0]) then VhostNames(names[1..])
    else [names[0]] + VhostNames(names[1..])
  }

  /** The end of a module list. */
  function FinishList(cfg: Config, s: State, who: Who): State {
    if who != Active || s.forked then Move(s, who, Leave(s, who, false))
    else if "port-check" in cfg.after && VhostNames(cfg.after) != [] then
      s.(forked := true, worker := Next(["port-check"]), active := Next(VhostNames(cfg.after)))
    else s.(forked := true, active := Next(cfg.after))
  }

  predicate IsThreadAction(a: Action) {
    !a.Join? && !a.Main? && !a.Stop? && !a.FailRunning? && !a.StagePause?
  }

  /** Where a thread goes next; an action that is not enabled leaves it where it is. */
  function PcAfter(cfg: Config, s: State, a: Action): Pc
    requires IsThreadAction(a)
  {
    var pc := At(s, a.who);
    match a
    case Pass(_) => if pc.Next? && pc.todo != [] && pc.todo[0] !in cfg.runners then Next(pc.todo[1..]) else pc
    case Check(who) =>
      if pc.Next? && pc.todo != [] && pc.todo[0] in cfg.runners then
        if s.run == Stopped then Leave(s, who, true) else Checked(pc.todo[0], pc.todo[1..])
      else pc
    case Judge(who) =>
      if pc.Checked? then if SkipDone(Seen(s, who), pc.name) then Next(pc.todo) else Admitted(pc.name, pc.todo) else pc
    case GiveUp(who) => if pc.Admitted? then Leave(s, who, false) else pc
    case Announce(_) => if pc.Admitted? then Announced(pc.name, pc.todo) else pc
    case Begin(_) => if pc.Announced? then Inside(pc.name, pc.todo) else pc
    case Return(_) => if pc.Inside? then Returned(pc.name, pc.todo) else pc
    case Crash(_) => if pc.Inside? then Next(pc.todo) else pc
    case Abort(who) => if pc.Inside? then Leave(s, who, false) else pc
    case Recheck(who) =>
      if pc.Returned? then if s.run == Stopped then Leave(s, who, true) else Marking(pc.name, pc.todo) else pc
    case MarkDone(_) => if pc.Marking? then Reloading(pc.todo) else pc
    case Reload(_) => if pc.Reloading? then Next(pc.todo) else pc
    case _ => pc
  }

  /** The module row a thread writes. */
  function ModulesAfter(s: State, a: Action): map<string, ModuleStatus>
    requires IsThreadAction(a)
  {
    var pc := At(s, a.who);
    match a
    case Announce(_) => if pc.Admitted? then SetModule(s.run, s.modules, pc.name, InProgress) else s.modules
    case Crash(_) => if pc.Inside? then SetModule(s.run, s.modules, pc.name, Broken) else s.modules
    case Abort(_) => if pc.Inside? then SetModule(s.run, s.modules, pc.name, Broken) else s.modules
    case Recheck(_) =>
      if pc.Returned? && s.run == Stopped then SetModule(s.run, s.modules, pc.name, Broken) else s.modules
    case MarkDone(_) => if pc.Marking? then SetModule(s.run, s.modules, pc.name, Done) else s.modules
    case _ => s.modules
  }

  /** One step of a branch thread or worker. */
  function ThreadStep(cfg: Config, s: State, a: Action): State
    requires IsThreadAction(a)
  {
    var pc := At(s, a.who);
    var moved := Move(s, a.who, PcAfter(cfg, s, a)).(modules := ModulesAfter(s, a));
    match a
    case Begin(who) => if pc.Announced? then Log(moved, Begins(who, pc.name)) else s
    case Reload(who) => if pc.Reloading? then Remember(moved, who) else s
    case Finish(who) => if pc == Next([]) then FinishList(cfg, s, who) else s
    case Pause(_) => if pc.Inside? then Log(s.(run := Anomaly), PauseWrites) else s
    case _ => moved
  }

  function ExitCode(status: RunStatus): int {
    match status
    case Completed => 0
    case Failed => 1
    case Anomaly => 2
    case Partial => 3
    case Stopped => 4
    case Running => 1
  }

  predicate AllEnded(s: State) {
    s.passive.Ended? && s.active.Ended? && s.worker.Ended?
  }

  /** The main thread looks at the run status here and finalizes if STOP is in it. */
  predicate StopChecks(cfg: Config, main: MainPc)
    requires WellFormed(cfg)
  {
    match main
    case BranchCheck => true
    case StageCheck(i) => i < 4 && (i == 0 || cfg.stageNames[i] in cfg.runners)
    case Final1 => true
    case Final2 => true
    case Final3 => true
    case _ => false
  }

  predicate FinalVerdict(v: RunStatus) {
    v != Stopped && v != Running
  }

  /** Where the main thread goes when STOP does not finalize it. */
  function MainAfter(cfg: Config, s: State, skip: bool, verdict: RunStatus): MainPc
    requires WellFormed(cfg)
  {
    match s.main
    case Waiting => if AllEnded(s) then BranchCheck else Waiting
    case BranchCheck => MergeSkip
    case MergeSkip => if skip then StageCheck(1) else StageCheck(0)
    case StageCheck(i) =>
      if i >= 4 then Final1 else if StopChecks(cfg, s.main) then StageSkip(i) else StageCheck(i + 1)
    case StageSkip(i) => if skip && i > 0 then StageCheck(i + 1) else StageReady(i)
    case StageReady(i) => StageInside(i)
    case StageInside(i) => StageCheck(i + 1)
    case Final1 => Final2
    case Final2 => Write
    case Write => if FinalVerdict(verdict) then Final3 else Write
    case Final3 => Exit(ExitCode(s.run))
    case Exit(_) => s.main
  }

  /** The module row the main thread writes. */
  function MainModules(cfg: Config, s: State, skip: bool): map<string, ModuleStatus>
    requires WellFormed(cfg)
  {
    match s.main
    case StageSkip(i) =>
      if i >= 4 || (skip && i > 0) then s.modules else SetModule(s.run, s.modules, cfg.stageNames[i], InProgress)
    case StageInside(i) =>
      if i >= 4 then s.modules
      else SetModule(s.run, s.modules, cfg.stageNames[i], if skip then Broken else Done)
    case _ => s.modules
  }

  function MainLog(main: MainPc): seq<Event> {
    match main
    case StageReady(i) => [StageBegins(i)]
    case Final3 => [LastCheck]
    case _ => []
  }

  /** One step of the main thread. `skip` chooses "already done" or a failure where the code can take either; the
      verdict is what `_classify_status` returns, which is never STOPPED. */
  function MainStep(cfg: Config, s: State, skip: bool, verdict: RunStatus): State
    requires WellFormed(cfg)
  {
    if StopChecks(cfg, s.main) && s.run == Stopped then
      // `_finalize_stopped`
      s.(modules := FailAll(s.modules), main := Exit(ExitCode(Stopped)), log := s.log + MainLog(s.main))
    else
      s.(modules := MainModules(cfg, s, skip),
         run := if s.main == Write && FinalVerdict(verdict) then SetRun(s.run, verdict) else s.run,
         main := MainAfter(cfg, s, skip, verdict),
         log := s.log + MainLog(s.main))
  }

  function Step(cfg: Config, s: State, a: Action): State
    requires WellFormed(cfg)
  {
    match a
    case Join =>
      if s.active.Joining? && s.worker.Ended? then s.(active := Ended(s.active.stopped || s.worker.stopped)) else s
    case Main(skip, verdict) => MainStep(cfg, s, skip, verdict)
    case Stop => if StopLands in s.log then s else Log(s.(run := Stopped), StopLands)
    case FailRunning => if StopLands in s.log then s.(modules := FailAll(s.modules)) else s
    case StagePause => if s.main.StageInside? then Log(s.(run := Anomaly), PauseWrites) else s
    case _ => ThreadStep(cfg, s, a)
  }

  /** Every interleaving is some sequence of actions. */
  function Run(cfg: Config, acts: seq<Action>): State
    requires WellFormed(cfg)
  {
    if acts == [] then Start(cfg) else Step(cfg, Run(cfg, acts[..|acts| - 1]), acts[|acts| - 1])
  }

  // ------------------------------------------------------------- what a log says

  predicate Starts(e: Event) {
    e.Begins? || e.StageBegins?
  }

  /** How many modules and stages began after STOP landed. */
  function BegunAfterStop(log: seq<Event>): nat {
    if log == [] then 0
    else
      var n := |log| - 1;
      BegunAfterStop(log[..n]) + if Starts(log[n]) && StopLands in log[..n] then 1 else 0
  }

  /** No pause was written to the run status after STOP landed. */
  predicate Sticky(log: seq<Event>) {
    forall i, j :: 0 <= i < j < |log| && log[i] == StopLands ==> log[j] != PauseWrites
  }

  predicate StopBeforeLastCheck(log: seq<Event>) {
    exists i :: 0 <= i < |log| && log[i] == StopLands && LastCheck !in log[..i]
  }

  lemma LogSnoc(log: seq<Event>, e: Event)
    ensures BegunAfterStop(log + [e]) == BegunAfterStop(log) + if Starts(e) && StopLands in log then 1 else 0
    ensures Sticky(log + [e]) ==> Sticky(log) && (e == PauseWrites ==> StopLands !in log)
    ensures StopLands in log + [e] <==> StopLands in log || e == StopLands
    ensures LastCheck in log + [e] <==> LastCheck in log || e == LastCheck
  {
    assert (log + [e])[..|log|] == log;
    if Sticky(log + [e]) {
      assert forall i :: 0 <= i < |log| ==> (log + [e])[i] == log[i];
      assert (log + [e])[|log|] == e;
    }
  }

  // ------------------------------------------------------------- at most three

  function Holds(pc: Pc): nat {
    if pc.Checked? || pc.Admitted? || pc.Announced? then 1 else 0
  }

  function MainHolds(main: MainPc): nat {
    if main.StageSkip? || main.StageReady? then 1 else 0
  }

  /** Threads that passed their stop check and may still begin a module. */
  function ReadyToBegin(s: State): nat {
    Holds(s.passive) + Holds(s.active) + Holds(s.worker) + MainHolds(s.main)
  }

  ghost predicate Bounded(s: State) {
    && (s.main != Waiting ==> AllEnded(s))
    && (!s.forked ==> s.worker == Ended(false))
    && (StopLands !in s.log ==> BegunAfterStop(s.log) == 0)
    && (Sticky(s.log) && StopLands in s.log ==> s.run == Stopped && BegunAfterStop(s.log) + ReadyToBegin(s) <= 3)
  }

  /** What a step may do to the log, the run status and the count of threads about to begin. */
  ghost predicate Effect(s: State, t: State) {
    || (t.log == s.log && (s.run == Stopped ==> t.run == Stopped && ReadyToBegin(t) <= ReadyToBegin(s)))
    || (exists e :: t.log == s.log + [e] && Starts(e) && t.run == s.run && ReadyToBegin(t) + 1 == ReadyToBegin(s))
    || (t.log == s.log + [PauseWrites] && t.run == Anomaly)
    || (t.log == s.log + [LastCheck] && (s.run == Stopped ==> t.run == Stopped) && ReadyToBegin(t) <= ReadyToBegin(s))
    || (t.log == s.log + [StopLands] && t.run == Stopped && StopLands !in s.log && ReadyToBegin(t) == ReadyToBegin(s))
  }

  lemma MoveEffect(s: State, who: Who, pc: Pc)
    ensures var t := Move(s, who, pc);
      && t.main == s.main && t.log == s.log && t.run == s.run && t.forked == s.forked && t.modules == s.modules
      && ReadyToBegin(t) + Holds(At(s, who)) == ReadyToBegin(s) + Holds(pc)
      && (pc == At(s, who) ==> t == s)
      && (who != Worker ==> t.worker == s.worker) && (who == Worker ==> t.worker == pc)
    ensures AllEnded(s) ==> At(s, who).Ended?
  {
  }

  lemma PcEffect(cfg: Config, s: State, a: Action)
    requires IsThreadAction(a)
    ensures var pc := PcAfter(cfg, s, a);
      && (At(s, a.who).Ended? ==> pc == At(s, a.who) && ModulesAfter(s, a) == s.modules)
      && (s.run == Stopped ==> Holds(pc) <= Holds(At(s, a.who)))
      && (a.Begin? && At(s, a.who).Announced? ==> Holds(pc) == 0)
  {
    hide SetModule, At;
  }

  lemma FinishEffect(cfg: Config, s: State, who: Who)
    requires At(s, who) == Next([])
    ensures var t := FinishList(cfg, s, who);
      && t.main == s.main && t.log == s.log && t.run == s.run && t.modules == s.modules
      && (s.forked ==> t.forked) && (s.worker.Ended? && !t.forked ==> t.worker == s.worker)
      && ReadyToBegin(t) <= ReadyToBegin(s)
    ensures !AllEnded(s)
  {
    MoveEffect(s, who, Leave(s, who, false));
    hide VhostNames;
  }

  lemma QuietThread(cfg: Config, s: State, a: Action)
    requires IsThreadAction(a) && !a.Begin? && !a.Pause?
    ensures var t := ThreadStep(cfg, s, a);
      && t.main == s.main && t.log == s.log && t.run == s.run
      && (AllEnded(s) ==> t == s)
      && (s.forked ==> t.forked) && (s.worker.Ended? && !t.forked ==> t.worker == s.worker)
      && (s.run == Stopped ==> ReadyToBegin(t) <= ReadyToBegin(s))
  {
    MoveEffect(s, a.who, PcAfter(cfg, s, a));
    PcEffect(cfg, s, a);
    if a.Finish? {
      if At(s, a.who) == Next([]) { FinishEffect(cfg, s, a.who); }
      hide FinishList, PcAfter, ModulesAfter, ReadyToBegin, AllEnded, At, Move;
    } else {
      hide Move, PcAfter, ModulesAfter, ReadyToBegin, AllEnded, At, Holds, Leave, FinishList;
      ReadySame(Move(s, a.who, PcAfter(cfg, s, a)), ModulesAfter(s, a), a.who);
    }
  }

  lemma ReadySame(s: State, ms: map<string, ModuleStatus>, who: Who)
    ensures ReadyToBegin(s.(modules := ms)) == ReadyToBegin(s)
    ensures ReadyToBegin(Remember(s.(modules := ms), who)) == ReadyToBegin(s)
    ensures AllEnded(Remember(s.(modules := ms), who)) <==> AllEnded(s)
  {
  }

  lemma LoudThread(cfg: Config, s: State, a: Action)
    requires a.Begin? || a.Pause?
    ensures var t := ThreadStep(cfg, s, a);
      && t.main == s.main && t.forked == s.forked
      && (AllEnded(s) ==> t == s)
      && (s.worker.Ended? ==> t.worker == s.worker)
      && Effect(s, t)
  {
    var t := ThreadStep(cfg, s, a);
    MoveEffect(s, a.who, PcAfter(cfg, s, a));
    PcEffect(cfg, s, a);
    if a.Begin? && At(s, a.who).Announced? {
      assert t.log == s.log + [Begins(a.who, At(s, a.who).name)];
    }
  }

  lemma MainPcEffect(cfg: Config, s: State, skip: bool, verdict: RunStatus)
    requires WellFormed(cfg)
    ensures var m := MainAfter(cfg, s, skip, verdict);
      && (s.main == Waiting && m != Waiting ==> AllEnded(s))
      && (!StopChecks(cfg, s.main) ==> MainHolds(m) <= MainHolds(s.main))
      && (s.main.StageReady? ==> MainHolds(s.main) == 1 && MainHolds(m) == 0)
      && (s.main == Final3 ==> MainHolds(m) == 0)
  {
    hide AllEnded;
  }

  lemma MainEffect(cfg: Config, s: State, skip: bool, verdict: RunStatus)
    requires WellFormed(cfg)
    ensures var t := MainStep(cfg, s, skip, verdict);
      && t.passive == s.passive && t.active == s.active && t.worker == s.worker && t.forked == s.forked
      && (s.main == Waiting && t.main != Waiting ==> AllEnded(s))
      && Effect(s, t)
  {
    var t := MainStep(cfg, s, skip, verdict);
    MainPcEffect(cfg, s, skip, verdict);
    hide MainAfter, MainModules, AllEnded, FailAll, StopChecks, MainHolds, Holds;
    assert s.log + [] == s.log;
    if s.main.StageReady? { assert t.log == s.log + [StageBegins(s.main.stage)]; }
  }

  lemma StepEffect(cfg: Config, s: State, a: Action)
    requires WellFormed(cfg) && Bounded(s)
    ensures var t := Step(cfg, s, a);
      && Effect(s, t)
      && (t.main != Waiting ==> AllEnded(t))
      && (!t.forked ==> t.worker == Ended(false))
  {
    hide MainStep, ThreadStep;
    if a.Main? {
      MainEffect(cfg, s, a.skip, a.verdict);
    } else if IsThreadAction(a) {
      if a.Begin? || a.Pause? { LoudThread(cfg, s, a); } else { QuietThread(cfg, s, a); }
    } else {
      OtherEffect(cfg, s, a);
    }
  }

  lemma OtherEffect(cfg: Config, s: State, a: Action)
    requires WellFormed(cfg) && Bounded(s) && !a.Main? && !IsThreadAction(a)
    ensures var t := Step(cfg, s, a);
      && Effect(s, t)
      && (t.main != Waiting ==> AllEnded(t))
      && (!t.forked ==> t.worker == Ended(false))
  {
    hide BegunAfterStop, Sticky;
  }

  lemma EffectKeepsBound(s: State, t: State)
    requires Bounded(s) && Effect(s, t)
    ensures StopLands !in t.log ==> BegunAfterStop(t.log) == 0
    ensures Sticky(t.log) && StopLands in t.log ==> t.run == Stopped && BegunAfterStop(t.log) + ReadyToBegin(t) <= 3
  {
    hide BegunAfterStop, Sticky;
    if t.log != s.log {
      var e := t.log[|s.log|];
      assert t.log == s.log + [e];
      LogSnoc(s.log, e);
    }
    assert ReadyToBegin(s) <= 3;
  }

  lemma BoundedStep(cfg: Config, s: State, a: Action)
    requires WellFormed(cfg) && Bounded(s)
    ensures Bounded(Step(cfg, s, a))
  {
    hide Step, Effect, BegunAfterStop, Sticky, ReadyToBegin;
    StepEffect(cfg, s, a);
    EffectKeepsBound(s, Step(cfg, s, a));
  }

  lemma {:induction false} BoundedRun(cfg: Config, acts: seq<Action>)
    requires WellFormed(cfg)
    ensures Bounded(Run(cfg, acts))
  {
    if acts != [] {
      BoundedRun(cfg, acts[..|acts| - 1]);
      BoundedStep(cfg, Run(cfg, acts[..|acts| - 1]), acts[|acts| - 1]);
      hide Step, Bounded;
    }
  }

  /** Over every interleaving in which no pause overwrites STOP, at most three modules begin after STOP lands. */
  lemma AtMostThreeAfterStop(cfg: Config, acts: seq<Action>)
    requires WellFormed(cfg)
    ensures Sticky(Run(cfg, acts).log) ==> BegunAfterStop(Run(cfg, acts).log) <= 3
  {
    BoundedRun(cfg, acts);
  }

  // ------------------------------------------------------------- the ladder

  /** Every stage begun so far is below this one. */
  function Level(main: MainPc): nat {
    match main
    case Waiting => 0
    case BranchCheck => 0
    case MergeSkip => 0
    case StageCheck(i) => i
    case StageSkip(i) => i
    case StageReady(i) => i
    case StageInside(i) => i + 1
    case _ => 4
  }

  /** Stages begin in ladder order, each at most once, and no branch module begins after one of them. */
  ghost predicate LadderOrder(log: seq<Event>) {
    forall i, j :: 0 <= i < j < |log| && log[i].StageBegins? ==>
      !log[j].Begins? && (log[j].StageBegins? ==> log[i].stage < log[j].stage)
  }

  ghost predicate Climbing(s: State) {
    && (s.main != Waiting ==> AllEnded(s))
    && LowStage(s.main)
    && LadderOrder(s.log)
    && (s.main == Waiting ==> NoStages(s.log))
    && StagesBelow(s.log, Level(s.main))
  }

  ghost predicate NoStages(log: seq<Event>) {
    forall e :: e in log ==> !e.StageBegins?
  }

  ghost predicate StagesBelow(log: seq<Event>, n: nat) {
    forall e :: e in log && e.StageBegins? ==> e.stage < n
  }

  lemma NoStagesSnoc(log: seq<Event>, e: Event)
    requires NoStages(log) && !e.StageBegins?
    ensures NoStages(log + [e])
  {
  }

  lemma StagesBelowSnoc(log: seq<Event>, e: Event, n: nat)
    requires StagesBelow(log, n) && (e.StageBegins? ==> e.stage < n)
    ensures StagesBelow(log + [e], n)
  {
  }

  lemma LadderSnoc(log: seq<Event>, e: Event)
    requires LadderOrder(log)
    requires e.Begins? ==> NoStages(log)
    requires e.StageBegins? ==> StagesBelow(log, e.stage)
    ensures LadderOrder(log + [e])
  {
    var l := log + [e];
    forall i, j | 0 <= i < j < |l| && l[i].StageBegins?
      ensures !l[j].Begins? && (l[j].StageBegins? ==> l[i].stage < l[j].stage)
    {
      assert l[i] == log[i] && log[i] in log;
      if j < |log| { assert l[j] == log[j]; }
    }
  }

  lemma ThreadLog(cfg: Config, s: State, a: Action)
    requires IsThreadAction(a)
    ensures var t := ThreadStep(cfg, s, a);
      && t.main == s.main
      && (AllEnded(s) ==> t == s)
      && (t.log == s.log
          || t.log == s.log + [PauseWrites]
          || (At(s, a.who).Announced? && t.log == s.log + [Begins(a.who, At(s, a.who).name)]))
  {
    MoveEffect(s, a.who, PcAfter(cfg, s, a));
    PcEffect(cfg, s, a);
    if a.Finish? && At(s, a.who) == Next([]) { FinishEffect(cfg, s, a.who); }
    hide FinishList, PcAfter, ModulesAfter, Holds, ReadyToBegin, AllEnded, At, Move;
  }

  lemma ClimbThread(cfg: Config, s: State, a: Action)
    requires Climbing(s) && IsThreadAction(a)
    ensures Climbing(ThreadStep(cfg, s, a))
  {
    ThreadLog(cfg, s, a);
    hide ThreadStep, LadderOrder, AllEnded, Level, LowStage, At, IsThreadAction, NoStages, StagesBelow;
    var t := ThreadStep(cfg, s, a);
    if t.log != s.log {
      var e := t.log[|s.log|];
      assert t.log == s.log + [e];
      assert t != s && s.main == Waiting;
      NoStagesSnoc(s.log, e);
      StagesBelowSnoc(s.log, e, Level(s.main));
      LadderSnoc(s.log, e);
    }
  }

  predicate LowStage(main: MainPc) {
    Level(main) <= 4 && (main.StageSkip? || main.StageReady? || main.StageInside? ==> main.stage < 4)
  }

  lemma ClimbPc(cfg: Config, s: State, skip: bool, verdict: RunStatus)
    requires WellFormed(cfg) && LowStage(s.main)
    ensures var m := MainAfter(cfg, s, skip, verdict);
      && Level(s.main) <= Level(m) && LowStage(m)
      && (s.main.StageReady? ==> s.main.stage < Level(m))
      && (m == Waiting ==> s.main == Waiting)
      && (s.main == Waiting && m != Waiting ==> AllEnded(s))
  {
    hide AllEnded;
  }

  lemma MainClimb(cfg: Config, s: State, skip: bool, verdict: RunStatus)
    requires WellFormed(cfg) && LowStage(s.main) && (s.main != Waiting ==> AllEnded(s))
    ensures var t := MainStep(cfg, s, skip, verdict);
      && Level(s.main) <= Level(t.main) && LowStage(t.main)
      && (t.main != Waiting ==> AllEnded(t))
      && (s.main.StageReady? ==> s.main.stage < Level(t.main))
      && (t.main == Waiting ==> s.main == Waiting)
  {
    ClimbPc(cfg, s, skip, verdict);
    hide MainAfter, MainModules, FailAll, SetRun;
  }

  lemma ClimbMain(cfg: Config, s: State, skip: bool, verdict: RunStatus)
    requires WellFormed(cfg) && Climbing(s)
    ensures Climbing(MainStep(cfg, s, skip, verdict))
  {
    MainClimb(cfg, s, skip, verdict);
    var t := MainStep(cfg, s, skip, verdict);
    hide LadderOrder, MainModules, FailAll, SetRun, MainAfter, AllEnded, Level, LowStage;
    assert s.log + [] == s.log;
    if s.main.StageReady? {
      LadderSnoc(s.log, StageBegins(s.main.stage));
    } else if s.main == Final3 {
      LadderSnoc(s.log, LastCheck);
    }
  }

  lemma {:induction false} ClimbRun(cfg: Config, acts: seq<Action>)
    requires WellFormed(cfg)
    ensures Climbing(Run(cfg, acts))
  {
    hide MainStep, ThreadStep, LadderOrder, Climbing;
    if acts == [] {
      ClimbStart(cfg);
    } else {
      var s := Run(cfg, acts[..|acts| - 1]);
      var a := acts[|acts| - 1];
      ClimbRun(cfg, acts[..|acts| - 1]);
      if a.Main? {
        ClimbMain(cfg, s, a.skip, a.verdict);
      } else if IsThreadAction(a) {
        ClimbThread(cfg, s, a);
      } else {
        ClimbOther(cfg, s, a);
      }
    }
  }

  lemma ClimbStart(cfg: Config)
    requires WellFormed(cfg)
    ensures Climbing(Run(cfg, []))
  {
  }

  lemma ClimbOther(cfg: Config, s: State, a: Action)
    requires WellFormed(cfg) && Climbing(s) && !a.Main? && !IsThreadAction(a)
    ensures Climbing(Step(cfg, s, a))
  {
    LadderSnoc(s.log, StopLands);
    LadderSnoc(s.log, PauseWrites);
    hide LadderOrder;
  }

  /** Over every interleaving, MERGE and the later stages begin in ladder order, only when both branch threads and the
      worker have ended, and no branch module begins after them. */
  lemma StagesFollowBranches(cfg: Config, acts: seq<Action>)
    requires WellFormed(cfg)
    ensures var s := Run(cfg, acts);
      LadderOrder(s.log) && ((exists e :: e in s.log && e.StageBegins?) ==> AllEnded(s))
  {
    ClimbRun(cfg, acts);
  }

  // ------------------------------------------------------------- the exit code

  ghost predicate Verdicts(s: State) {
    && (s.run == Stopped ==> StopLands in s.log)
    && (!s.main.Exit? ==> LastCheck !in s.log)
    && (s.main == Exit(4) ==> StopBeforeLastCheck(s.log) && forall m :: m in s.modules ==> s.modules[m] != InProgress)
    && (s.main.Exit? && s.main.code != 4 ==> LastCheck in s.log && (StopBeforeLastCheck(s.log) ==> !Sticky(s.log)))
  }

  lemma StopBeforeSnoc(log: seq<Event>, e: Event)
    ensures StopBeforeLastCheck(log) ==> StopBeforeLastCheck(log + [e])
    ensures StopBeforeLastCheck(log + [e]) ==> StopBeforeLastCheck(log) || (e == StopLands && LastCheck !in log)
    ensures StopLands in log && LastCheck !in log ==> StopBeforeLastCheck(log)
    ensures StopBeforeLastCheck(log) ==> StopLands in log
    ensures Sticky(log + [e]) ==> Sticky(log)
  {
    var l := log + [e];
    LogSnoc(log, e);
    if i :| 0 <= i < |log| && log[i] == StopLands && LastCheck !in log[..i] {
      assert l[i] == StopLands && l[..i] == log[..i];
    }
    if i :| 0 <= i < |l| && l[i] == StopLands && LastCheck !in l[..i] {
      assert l[..i] == log[..i];
      if i == |log| { assert log[..i] == log; }
    }
    if StopLands in log && LastCheck !in log {
      var i :| 0 <= i < |log| && log[i] == StopLands;
      assert LastCheck !in log[..i];
    }
  }

  lemma VerdictThread(cfg: Config, s: State, a: Action)
    requires IsThreadAction(a) && Verdicts(s) && (s.main != Waiting ==> AllEnded(s))
    ensures Verdicts(ThreadStep(cfg, s, a))
  {
    ThreadLog(cfg, s, a);
    ThreadRun(cfg, s, a);
    hide ThreadStep, StopBeforeLastCheck, Sticky;
    var t := ThreadStep(cfg, s, a);
    if t.log != s.log {
      var e := t.log[|s.log|];
      assert t.log == s.log + [e];
      LogSnoc(s.log, e);
    }
  }

  lemma ThreadRun(cfg: Config, s: State, a: Action)
    requires IsThreadAction(a)
    ensures ThreadStep(cfg, s, a).run == s.run || ThreadStep(cfg, s, a).run == Anomaly
  {
    MoveEffect(s, a.who, PcAfter(cfg, s, a));
    if a.Finish? && At(s, a.who) == Next([]) { FinishEffect(cfg, s, a.who); }
    hide FinishList, PcAfter, ModulesAfter, Holds, ReadyToBegin, AllEnded, At, Move;
  }

  lemma ExitIsFinal(cfg: Config, s: State, skip: bool, verdict: RunStatus)
    requires WellFormed(cfg)
    ensures s.main.Exit? ==> MainModules(cfg, s, skip) == s.modules && MainAfter(cfg, s, skip, verdict) == s.main
    ensures MainAfter(cfg, s, skip, verdict).Exit? ==> s.main.Exit? || s.main == Final3
    ensures s.main == Final3 ==> MainAfter(cfg, s, skip, verdict) == Exit(ExitCode(s.run))
    ensures ExitCode(s.run) == 4 <==> s.run == Stopped
  {
    hide AllEnded;
  }

  lemma VerdictFinalize(cfg: Config, s: State, skip: bool, verdict: RunStatus)
    requires WellFormed(cfg) && Verdicts(s) && StopChecks(cfg, s.main) && s.run == Stopped
    ensures Verdicts(MainStep(cfg, s, skip, verdict))
  {
    hide StopBeforeLastCheck, Sticky, MainModules, MainAfter;
    assert s.log + [] == s.log;
    StopBeforeSnoc(s.log, LastCheck);
    LogSnoc(s.log, LastCheck);
  }

  lemma VerdictLastCheck(cfg: Config, s: State, skip: bool, verdict: RunStatus)
    requires WellFormed(cfg) && Verdicts(s) && s.main == Final3 && s.run != Stopped
    requires Sticky(s.log) && StopLands in s.log ==> s.run == Stopped
    ensures Verdicts(MainStep(cfg, s, skip, verdict))
  {
    ExitIsFinal(cfg, s, skip, verdict);
    StopBeforeSnoc(s.log, LastCheck);
    LogSnoc(s.log, LastCheck);
    hide StopBeforeLastCheck, Sticky, MainModules, MainAfter, ExitCode, FailAll;
  }

  /** Away from the last check, an advancing step logs at most a stage begin and never sets STOPPED. */
  lemma AdvanceFacts(cfg: Config, s: State, skip: bool, verdict: RunStatus)
    requires WellFormed(cfg) && !(StopChecks(cfg, s.main) && s.run == Stopped) && s.main != Final3
    ensures var t := MainStep(cfg, s, skip, verdict);
      && (t.log == s.log || t.log == s.log + [StageBegins(if s.main.StageReady? then s.main.stage else 0)])
      && (t.run == Stopped ==> s.run == Stopped)
      && (s.main.Exit? ==> t == s)
      && (t.main.Exit? ==> s.main.Exit?)
  {
    ExitIsFinal(cfg, s, skip, verdict);
    hide MainModules, MainAfter, FailAll;
    assert s.log + [] == s.log;
  }

  lemma VerdictAdvance(cfg: Config, s: State, skip: bool, verdict: RunStatus)
    requires WellFormed(cfg) && Verdicts(s) && !(StopChecks(cfg, s.main) && s.run == Stopped) && s.main != Final3
    ensures Verdicts(MainStep(cfg, s, skip, verdict))
  {
    AdvanceFacts(cfg, s, skip, verdict);
    hide MainStep, StopBeforeLastCheck, Sticky;
    var e := StageBegins(if s.main.StageReady? then s.main.stage else 0);
    LogSnoc(s.log, e);
  }

  lemma VerdictMain(cfg: Config, s: State, skip: bool, verdict: RunStatus)
    requires WellFormed(cfg) && Verdicts(s) && Bounded(s)
    ensures Verdicts(MainStep(cfg, s, skip, verdict))
  {
    if StopChecks(cfg, s.main) && s.run == Stopped {
      VerdictFinalize(cfg, s, skip, verdict);
    } else if s.main == Final3 {
      VerdictLastCheck(cfg, s, skip, verdict);
    } else {
      VerdictAdvance(cfg, s, skip, verdict);
    }
    hide Verdicts, MainStep, Sticky, BegunAfterStop;
  }

  lemma VerdictOther(cfg: Config, s: State, a: Action)
    requires WellFormed(cfg) && Verdicts(s) && !a.Main? && !IsThreadAction(a)
    ensures Verdicts(Step(cfg, s, a))
  {
    hide StopBeforeLastCheck, Sticky, FailAll;
    if a.Stop? {
      StopBeforeSnoc(s.log, StopLands);
      LogSnoc(s.log, StopLands);
    } else if a.StagePause? {
      LogSnoc(s.log, PauseWrites);
    } else if a.FailRunning? {
      FailedAll(s.modules);
    }
  }

  lemma FailedAll(ms: map<string, ModuleStatus>)
    ensures forall m :: m in FailAll(ms) ==> FailAll(ms)[m] != InProgress
  {
  }

  lemma {:induction false} VerdictRun(cfg: Config, acts: seq<Action>)
    requires WellFormed(cfg)
    ensures Verdicts(Run(cfg, acts))
  {
    if acts == [] {
    } else {
      var s := Run(cfg, acts[..|acts| - 1]);
      var a := acts[|acts| - 1];
      VerdictRun(cfg, acts[..|acts| - 1]);
      BoundedRun(cfg, acts[..|acts| - 1]);
      if a.Main? {
        VerdictMain(cfg, s, a.skip, a.verdict);
      } else if IsThreadAction(a) {
        VerdictThread(cfg, s, a);
      } else {
        VerdictOther(cfg, s, a);
      }
      hide MainStep, ThreadStep, Verdicts, Bounded;
    }
  }

  /** Over every interleaving in which no pause overwrites STOP, the run exits with the stopped code exactly when STOP
      landed before the last check, and then no module row is left in progress. */
  lemma StoppedExitExactly(cfg: Config, acts: seq<Action>)
    requires WellFormed(cfg)
    ensures var s := Run(cfg, acts);
      s.main.Exit? && Sticky(s.log) ==>
        && (s.main.code == ExitCode(Stopped) <==> StopBeforeLastCheck(s.log))
        && (s.main.code == ExitCode(Stopped) ==> forall m :: m in s.modules ==> s.modules[m] != InProgress)
  {
    VerdictRun(cfg, acts);
  }

  /** After STOP no step makes a module row "running" or "done". */
  lemma FrozenAfterStop(cfg: Config, s: State, a: Action, m: string)
    requires WellFormed(cfg) && s.run == Stopped
    ensures var t := Step(cfg, s, a);
      m in t.modules && (t.modules[m] == InProgress || t.modules[m] == Done) ==>
        m in s.modules && t.modules[m] == s.modules[m]
  {
    if IsThreadAction(a) {
      FrozenThread(cfg, s, a, m);
      hide ThreadStep;
    } else if a.Main? {
      FrozenMain(cfg, s, a.skip, a.verdict, m);
      hide MainStep;
    }
  }

  lemma FrozenThread(cfg: Config, s: State, a: Action, m: string)
    requires IsThreadAction(a) && s.run == Stopped
    ensures var t := ThreadStep(cfg, s, a);
      m in t.modules && (t.modules[m] == InProgress || t.modules[m] == Done) ==>
        m in s.modules && t.modules[m] == s.modules[m]
  {
    MoveEffect(s, a.who, PcAfter(cfg, s, a));
    FrozenRows(s, a, m);
    if a.Finish? && At(s, a.who) == Next([]) { FinishEffect(cfg, s, a.who); }
    hide FinishList, PcAfter, ModulesAfter, At, Holds, Move, ReadyToBegin, AllEnded;
  }

  lemma FrozenRows(s: State, a: Action, m: string)
    requires IsThreadAction(a) && s.run == Stopped
    ensures var ms := ModulesAfter(s, a);
      m in ms && (ms[m] == InProgress || ms[m] == Done) ==> m in s.modules && ms[m] == s.modules[m]
  {
    hide At;
  }

  lemma FrozenMain(cfg: Config, s: State, skip: bool, verdict: RunStatus, m: string)
    requires WellFormed(cfg) && s.run == Stopped
    ensures var t := MainStep(cfg, s, skip, verdict);
      m in t.modules && (t.modules[m] == InProgress || t.modules[m] == Done) ==>
        m in s.modules && t.modules[m] == s.modules[m]
  {
    hide MainAfter, AllEnded, SetRun;
  }

  // ------------------------------------------------------------- without a sticky STOP there is no bound

  function OneModule(who: Who): seq<Action> {
    [Check(who), Judge(who), Announce(who), Begin(who)] + [Return(who), Recheck(who), MarkDone(who), Reload(who)]
  }

  function RunFrom(cfg: Config, s: State, acts: seq<Action>): State
    requires WellFormed(cfg)
    decreases |acts|
  {
    if acts == [] then s else RunFrom(cfg, Step(cfg, s, acts[0]), acts[1..])
  }

  lemma {:induction false} RunAppend(cfg: Config, acts: seq<Action>, more: seq<Action>)
    requires WellFormed(cfg)
    ensures Run(cfg, acts + more) == RunFrom(cfg, Run(cfg, acts), more)
    decreases |more|
  {
    hide Step;
    if more == [] {
      assert acts + more == acts;
    } else {
      assert acts + more == (acts + [more[0]]) + more[1..];
      assert (acts + [more[0]])[..|acts|] == acts;
      RunAppend(cfg, acts + [more[0]], more[1..]);
    }
  }

  lemma RunFromCons(cfg: Config, s: State, a: Action, acts: seq<Action>)
    requires WellFormed(cfg)
    ensures RunFrom(cfg, s, [a] + acts) == RunFrom(cfg, Step(cfg, s, a), acts)
  {
    hide Step;
    assert ([a] + acts)[1..] == acts;
  }

  /** Four actions in a row, and what follows them. */
  lemma FourSteps(cfg: Config, s: State, a0: Action, a1: Action, a2: Action, a3: Action, more: seq<Action>)
    requires WellFormed(cfg)
    ensures RunFrom(cfg, s, [a0, a1, a2, a3] + more)
      == RunFrom(cfg, Step(cfg, Step(cfg, Step(cfg, Step(cfg, s, a0), a1), a2), a3), more)
  {
    hide Step, RunFrom;
    var s1 := Step(cfg, s, a0);
    var s2 := Step(cfg, s1, a1);
    var s3 := Step(cfg, s2, a2);
    RunFromCons(cfg, s, a0, [a1, a2, a3] + more);
    RunFromCons(cfg, s1, a1, [a2, a3] + more);
    RunFromCons(cfg, s2, a2, [a3] + more);
    RunFromCons(cfg, s3, a3, more);
    assert [a0, a1, a2, a3] + more == [a0] + ([a1, a2, a3] + more);
    assert [a1, a2, a3] + more == [a1] + ([a2, a3] + more);
    assert [a2, a3] + more == [a2] + ([a3] + more);
  }

  lemma RunFromNothing(cfg: Config, s: State)
    requires WellFormed(cfg)
    ensures RunFrom(cfg, s, []) == s
  {
  }

  /** With a run status other than STOPPED, the PASSIVE thread takes a module it does not know as done up to its start. */
  lemma ModuleBegins(cfg: Config, s: State)
    requires WellFormed(cfg) && s.run != Stopped
    requires s.passive.Next? && s.passive.todo != [] && s.passive.todo[0] in cfg.runners
    requires !SkipDone(s.seenPassive, s.passive.todo[0])
    ensures var name, rest := s.passive.todo[0], s.passive.todo[1..];
      var t := Step(cfg, Step(cfg, Step(cfg, Step(cfg, s, Check(Passive)), Judge(Passive)), Announce(Passive)), Begin(Passive));
      t == s.(passive := Inside(name, rest), modules := s.modules[name := InProgress],
              log := s.log + [Begins(Passive, name)])
  {
    var name, rest := s.passive.todo[0], s.passive.todo[1..];
    var s1 := Step(cfg, s, Check(Passive));
    assert s1 == s.(passive := Checked(name, rest));
    var s2 := Step(cfg, s1, Judge(Passive));
    assert s2 == s.(passive := Admitted(name, rest));
    var s3 := Step(cfg, s2, Announce(Passive));
    assert s3 == s.(passive := Announced(name, rest), modules := s.modules[name := InProgress]);
  }

  /** And on to its end. */
  lemma ModuleEnds(cfg: Config, s: State)
    requires WellFormed(cfg) && s.run != Stopped && s.passive.Inside?
    ensures var name, rest := s.passive.name, s.passive.todo;
      var t := Step(cfg, Step(cfg, Step(cfg, Step(cfg, s, Return(Passive)), Recheck(Passive)), MarkDone(Passive)), Reload(Passive));
      t == s.(passive := Next(rest), modules := s.modules[name := Done], seenPassive := s.modules[name := Done])
  {
    var name, rest := s.passive.name, s.passive.todo;
    var s1 := Step(cfg, s, Return(Passive));
    assert s1 == s.(passive := Returned(name, rest));
    var s2 := Step(cfg, s1, Recheck(Passive));
    assert s2 == s.(passive := Marking(name, rest));
    var s3 := Step(cfg, s2, MarkDone(Passive));
    assert s3 == s.(passive := Reloading(rest), modules := s.modules[name := Done]);
  }

  lemma OneModuleRuns(cfg: Config, s: State)
    requires WellFormed(cfg) && s.run != Stopped && StopLands in s.log
    requires s.passive.Next? && s.passive.todo != [] && s.passive.todo[0] in cfg.runners
    requires !SkipDone(s.seenPassive, s.passive.todo[0])
    ensures var name := s.passive.todo[0];
      var t := RunFrom(cfg, s, OneModule(Passive));
      && t.run == s.run && StopLands in t.log && t.passive == Next(s.passive.todo[1..])
      && t.modules == t.seenPassive == s.modules[name := Done]
      && BegunAfterStop(t.log) == BegunAfterStop(s.log) + 1
  {
    hide BegunAfterStop, Step, RunFrom;
    var name := s.passive.todo[0];
    ModuleBegins(cfg, s);
    var half := s.(passive := Inside(name, s.passive.todo[1..]), modules := s.modules[name := InProgress],
                   log := s.log + [Begins(Passive, name)]);
    ModuleEnds(cfg, half);
    LogSnoc(s.log, Begins(Passive, name));
    var later := [Return(Passive), Recheck(Passive), MarkDone(Passive), Reload(Passive)];
    FourSteps(cfg, s, Check(Passive), Judge(Passive), Announce(Passive), Begin(Passive), later);
    FourSteps(cfg, half, Return(Passive), Recheck(Passive), MarkDone(Passive), Reload(Passive), []);
    assert later + [] == later;
    var t := RunFrom(cfg, s, OneModule(Passive));
    RunFromNothing(cfg, t);
    RunFromNothing(cfg, half.(passive := Next(s.passive.todo[1..]), modules := half.modules[name := Done],
                              seenPassive := half.modules[name := Done]));
    assert s.modules[name := InProgress][name := Done] == s.modules[name := Done];
  }

  /** Names that differ, the longest one first. */
  function Name(k: nat): (r: string)
    ensures |r| == k
  {
    seq(k, _ => 'm')
  }

  function Names(n: nat): (r: seq<string>)
    ensures |r| == n && forall i :: 0 <= i < n ==> r[i] == Name(n - i)
  {
    seq(n, i requires 0 <= i < n => Name(n - i))
  }

  function ManyModules(n: nat): Config {
    Config(Names(n + 1), [], [], set k | 0 < k <= n + 1 :: Name(k), ["merge", "port-sweep", "ffuf-4", "owasp-passive"], map[])
  }

  /** How many modules begin after STOP on the run `acts`. */
  ghost function Late(n: nat, acts: seq<Action>): nat {
    BegunAfterStop(Run(ManyModules(n), acts).log)
  }

  /** The names up to length `k` have no row yet. */
  ghost predicate Unknown(s: State, k: nat) {
    forall j :: 0 < j <= k ==> Name(j) !in s.modules && Name(j) !in s.seenPassive
  }

  ghost predicate UnStopped(n: nat, acts: seq<Action>, k: nat) {
    var s := Run(ManyModules(n), acts);
    k <= n && s.run == Anomaly && StopLands in s.log && s.passive == Next(Names(k)) && Unknown(s, k)
  }

  lemma NamesNext(k: nat)
    ensures Names(k + 1)[0] == Name(k + 1) && Names(k + 1)[1..] == Names(k)
  {
  }

  lemma StillUnknown(s: State, t: State, k: nat)
    requires Unknown(s, k + 1) && t.modules == t.seenPassive == s.modules[Name(k + 1) := Done]
    ensures Unknown(t, k)
  {
    assert forall j: nat :: j <= k ==> |Name(j)| != |Name(k + 1)|;
  }

  lemma Runnable(n: nat, k: nat)
    requires 0 < k <= n + 1
    ensures Name(k) in ManyModules(n).runners
  {
  }

  lemma OneMore(n: nat, acts: seq<Action>, k: nat)
    requires UnStopped(n, acts, k + 1)
    ensures UnStopped(n, acts + OneModule(Passive), k) && Late(n, acts + OneModule(Passive)) == Late(n, acts) + 1
  {
    hide Run, BegunAfterStop, RunFrom, OneModule;
    var s := Run(ManyModules(n), acts);
    NamesNext(k);
    assert Name(k + 1) !in s.seenPassive;
    Runnable(n, k + 1);
    hide Names, Name, ManyModules, Unknown;
    OneModuleRuns(ManyModules(n), s);
    RunAppend(ManyModules(n), acts, OneModule(Passive));
    StillUnknown(s, Run(ManyModules(n), acts + OneModule(Passive)), k);
  }

  lemma {:induction false} ModulesRunOn(n: nat, acts: seq<Action>, k: nat) returns (all: seq<Action>)
    requires UnStopped(n, acts, k)
    ensures Late(n, all) == Late(n, acts) + k
    decreases k
  {
    hide UnStopped, Late, OneModule;
    if k == 0 {
      all := acts;
    } else {
      OneMore(n, acts, k - 1);
      all := ModulesRunOn(n, acts + OneModule(Passive), k - 1);
    }
  }

  lemma PauseUnStops(cfg: Config, s: State)
    requires WellFormed(cfg) && s.passive.Inside? && StopLands !in s.log
    ensures var t := Step(cfg, Step(cfg, Step(cfg, s, Stop), Pause(Passive)), Crash(Passive));
      t.run == Anomaly && t.passive == Next(s.passive.todo) && StopLands in t.log
      && t.modules == s.modules[s.passive.name := Broken] && t.seenPassive == s.seenPassive
  {
  }

  lemma OnlyFirst(n: nat, t: State)
    requires t.modules.Keys == {Name(n + 1)} && t.seenPassive == map[]
    ensures Unknown(t, n)
  {
    assert forall j: nat :: j <= n ==> |Name(j)| != |Name(n + 1)|;
  }

  lemma PausedTail(cfg: Config, s: State)
    requires WellFormed(cfg) && s.passive.Inside? && StopLands !in s.log && s.passive.name in s.modules
    ensures var t := RunFrom(cfg, s, [Stop, Pause(Passive), Crash(Passive)]);
      && t.run == Anomaly && StopLands in t.log && t.passive == Next(s.passive.todo)
      && t.modules.Keys == s.modules.Keys && t.seenPassive == s.seenPassive
  {
    PauseUnStops(cfg, s);
    hide Step, RunFrom;
    var s1 := Step(cfg, s, Stop);
    var s2 := Step(cfg, s1, Pause(Passive));
    RunFromCons(cfg, s, Stop, [Pause(Passive), Crash(Passive)]);
    RunFromCons(cfg, s1, Pause(Passive), [Crash(Passive)]);
    RunFromCons(cfg, s2, Crash(Passive), []);
    RunFromNothing(cfg, Step(cfg, s2, Crash(Passive)));
    assert [Stop] + [Pause(Passive), Crash(Passive)] == [Stop, Pause(Passive), Crash(Passive)];
    assert [Pause(Passive)] + [Crash(Passive)] == [Pause(Passive), Crash(Passive)];
    assert [Crash(Passive)] + [] == [Crash(Passive)];
  }

  function PausedRun(): seq<Action> {
    [Check(Passive), Judge(Passive), Announce(Passive), Begin(Passive)] + [Stop, Pause(Passive), Crash(Passive)]
  }

  lemma PausedFrom(cfg: Config, s: State)
    requires WellFormed(cfg) && s.run != Stopped && StopLands !in s.log
    requires s.passive.Next? && s.passive.todo != [] && s.passive.todo[0] in cfg.runners
    requires !SkipDone(s.seenPassive, s.passive.todo[0])
    ensures var t := RunFrom(cfg, s, PausedRun());
      && t.run == Anomaly && StopLands in t.log && t.passive == Next(s.passive.todo[1..])
      && t.modules.Keys == s.modules.Keys + {s.passive.todo[0]} && t.seenPassive == s.seenPassive
  {
    hide Step, RunFrom;
    var name := s.passive.todo[0];
    ModuleBegins(cfg, s);
    var half := s.(passive := Inside(name, s.passive.todo[1..]), modules := s.modules[name := InProgress],
                   log := s.log + [Begins(Passive, name)]);
    FourSteps(cfg, s, Check(Passive), Judge(Passive), Announce(Passive), Begin(Passive),
              [Stop, Pause(Passive), Crash(Passive)]);
    PausedTail(cfg, half);
  }

  lemma RunIsFrom(cfg: Config, acts: seq<Action>)
    requires WellFormed(cfg)
    ensures Run(cfg, acts) == RunFrom(cfg, Start(cfg), acts)
  {
    hide RunFrom, Step;
    assert Run(cfg, []) == Start(cfg) && [] + acts == acts;
    RunAppend(cfg, [], acts);
  }

  lemma StartOf(n: nat)
    ensures var cfg, s := ManyModules(n), Start(ManyModules(n));
      && WellFormed(cfg) && s.run == Running && s.log == [] && s.modules == s.seenPassive == map[]
      && s.passive == Next(Names(n + 1)) && Names(n + 1)[0] in cfg.runners
  {
    NamesNext(n);
    Runnable(n, n + 1);
    hide Name, Names;
  }

  /** The first module pauses its breaker after STOP: the pause overwrites the stopped status. */
  lemma PausedAfterStop(n: nat)
    ensures UnStopped(n, PausedRun(), n)
  {
    StartOf(n);
    NamesNext(n);
    hide Run, RunFrom, Start, ManyModules, Names, Name, PausedRun, Unknown;
    PausedFrom(ManyModules(n), Start(ManyModules(n)));
    RunIsFrom(ManyModules(n), PausedRun());
    OnlyFirst(n, Run(ManyModules(n), PausedRun()));
  }

  /** A pause persisted after STOP (which the state store allows) un-stops the run: then any number of modules, all
      different, can begin after STOP. */
  lemma NoBoundWithoutSticky(n: nat)
    ensures exists acts :: BegunAfterStop(Run(ManyModules(n), acts).log) >= n
    ensures forall i, j :: 0 <= i < j < |ManyModules(n).passive| ==> ManyModules(n).passive[i] != ManyModules(n).passive[j]
  {
    assert forall i: nat, j: nat :: i != j ==> |Name(i)| != |Name(j)|;
    hide UnStopped;
    PausedAfterStop(n);
    var all := ModulesRunOn(n, PausedRun(), n);
    assert BegunAfterStop(Run(ManyModules(n), all).log) >= n;
  }
}
