/**
 The mock service manager of hook/hooktest/service.go as an interleaving transition system.

 Each `Step` is one section of code that runs under the mutex (or, for `WatchWait`, the part of
 a watcher goroutine before it takes the mutex). A run is any sequence of enabled steps, so it
 covers any number of clients and watchers and every way they can interleave.

 An installed service is named by its index in `insts`, a started command by the position of
 its Start event in the log: both are new each time, as the pointers they stand for are.
 */
module ServiceManager {
  import opened Wrappers

  datatype Kind = InstallEvent | StartEvent | ErrorEvent | StopEvent | RemoveEvent

  datatype Event = Event(kind: Kind, name: string, inst: nat, run: nat)

  datatype Inst = Inst(name: string, cmd: Option<nat>)

  /** A watcher goroutine of the given run; `waited` once its cmd.Wait has returned. */
  datatype Watcher = Watcher(inst: nat, run: nat, waited: bool)

  datatype World = World(installed: map<string, nat>, insts: seq<Inst>, watchers: set<Watcher>, log: seq<Event>)

  /** What RunCommand returns: an error, no command, or a command. */
  datatype Started = RunFails | RunsToEnd | Runs

  datatype Step =
    | Install(name: string)
    | Start(name: string, started: Started)
    | Stop(name: string, failed: bool)
    | Remove(name: string)
    | WatchWait(watcher: Watcher, failed: bool)
    | WatchEnd(watcher: Watcher)

  predicate IsClient(step: Step) {
    !step.WatchWait? && !step.WatchEnd?
  }

  const EMPTY := World(map[], [], {}, [])

  predicate Enabled(w: World, step: Step) {
    match step
    case WatchWait(t, _) => t in w.watchers && !t.waited
    case WatchEnd(t) => t in w.watchers && t.waited
    case _ => true
  }

  /** The map of installed services leads to services of that name. */
  ghost predicate Sane(w: World) {
    && (forall n :: n in w.installed ==> w.installed[n] < |w.insts| && w.insts[w.installed[n]].name == n)
    && (forall t :: t in w.watchers ==> t.inst < |w.insts|)
  }

  function Emit(w: World, kind: Kind, inst: nat, run: nat): World
    requires inst < |w.insts|
  {
    w.(log := w.log + [Event(kind, w.insts[inst].name, inst, run)])
  }

  function EmitIf(w: World, cond: bool, kind: Kind, inst: nat, run: nat): (r: World)
    requires inst < |w.insts|
    ensures r == w.(log := r.log)
  {
    if cond then Emit(w, kind, inst, run) else w
  }

  function SetCmd(w: World, inst: nat, cmd: Option<nat>): World
    requires inst < |w.insts|
  {
    w.(insts := w.insts[inst := w.insts[inst].(cmd := cmd)])
  }

  /** osService.install */
  function DoInstall(w: World, name: string): (r: World)
    requires Sane(w)
    ensures Sane(r) && w.log <= r.log && |w.insts| <= |r.insts|
  {
    if name in w.installed then w
    else
      var inst := |w.insts|;
      Emit(w.(installed := w.installed[name := inst], insts := w.insts + [Inst(name, None)]), InstallEvent, inst, 0)
  }

  /** osService.Start */
  function DoStart(w: World, name: string, started: Started): (r: World)
    requires Sane(w)
    ensures Sane(r) && w.log <= r.log && |w.insts| <= |r.insts|
  {
    if name !in w.installed then w
    else
      var inst := w.installed[name];
      if w.insts[inst].cmd.Some? then w
      else
        var run := |w.log|;
        match started
        case RunFails => Emit(w, ErrorEvent, inst, run)
        case RunsToEnd => Emit(Emit(w, StartEvent, inst, run), StopEvent, inst, run)
        case Runs =>
          SetCmd(Emit(w, StartEvent, inst, run).(watchers := w.watchers + {Watcher(inst, run, false)}), inst, Some(run))
  }

  /** osService.Stop; `failed` is whether the killed command's Wait returns an error. */
  function DoStop(w: World, name: string, failed: bool): (r: World)
    requires Sane(w)
    ensures Sane(r) && w.log <= r.log && |w.insts| <= |r.insts|
  {
    if name !in w.installed then w
    else
      var inst := w.installed[name];
      if w.insts[inst].cmd.None? then w
      else
        var run := w.insts[inst].cmd.value;
        SetCmd(Emit(EmitIf(w, failed, ErrorEvent, inst, run), StopEvent, inst, run), inst, None)
  }

  /** osService.StopAndRemove, after its call to Stop. */
  function DoRemove(w: World, name: string): (r: World)
    requires Sane(w)
    ensures Sane(r) && w.log <= r.log && |w.insts| <= |r.insts|
  {
    if name !in w.installed then w
    else Emit(w.(installed := w.installed - {name}), RemoveEvent, w.installed[name], 0)
  }

  /** A watcher, up to taking the mutex. */
  function DoWait(w: World, t: Watcher, failed: bool): (r: World)
    requires Sane(w) && t in w.watchers
    ensures Sane(r) && w.log <= r.log && |w.insts| <= |r.insts|
  {
    EmitIf(w.(watchers := w.watchers - {t} + {t.(waited := true)}), failed, ErrorEvent, t.inst, t.run)
  }

  /** A watcher, from taking the mutex to its end. */
  function DoEnd(w: World, t: Watcher): (r: World)
    requires Sane(w) && t in w.watchers
    ensures Sane(r) && w.log <= r.log && |w.insts| <= |r.insts|
  {
    var w1 := w.(watchers := w.watchers - {t});
    if w.insts[t.inst].cmd != Some(t.run) then w1
    else SetCmd(Emit(w1, StopEvent, t.inst, t.run), t.inst, None)
  }

  function Apply(w: World, step: Step): (r: World)
    requires Sane(w) && Enabled(w, step)
    ensures Sane(r) && w.log <= r.log && |w.insts| <= |r.insts|
  {
    match step
    case Install(name) => DoInstall(w, name)
    case Start(name, started) => DoStart(w, name, started)
    case Stop(name, failed) => DoStop(w, name, failed)
    case Remove(name) => DoRemove(w, name)
    case WatchWait(t, failed) => DoWait(w, t, failed)
    case WatchEnd(t) => DoEnd(w, t)
  }

  /** osService.Running */
  predicate Running(w: World, name: string)
    requires Sane(w)
  {
    name in w.installed && w.insts[w.installed[name]].cmd.Some?
  }

  /** A sequence of steps each of which is enabled when it comes. */
  ghost predicate IsRun(w: World, steps: seq<Step>)
    requires Sane(w)
    decreases |steps|
  {
    steps != [] ==> Enabled(w, steps[0]) && IsRun(Apply(w, steps[0]), steps[1..])
  }

  function Exec(w: World, steps: seq<Step>): (r: World)
    requires Sane(w) && IsRun(w, steps)
    ensures Sane(r)
    decreases |steps|
  {
    if steps == [] then w else Exec(Apply(w, steps[0]), steps[1..])
  }

  // ---- Any number of clients: the ledger of runs ----

  /** How many Stop events a run has had. */
  function Stops(log: seq<Event>, run: nat): nat {
    if log == [] then 0
    else
      var e := log[|log| - 1];
      Stops(log[..|log| - 1], run) + Bit(e.kind.StopEvent? && e.run == run)
  }

  /** Start events minus Stop events of an installed service. */
  function Balance(log: seq<Event>, inst: nat): int {
    if log == [] then 0
    else
      var e := log[|log| - 1];
      Balance(log[..|log| - 1], inst)
      + Bit(e.kind.StartEvent? && e.inst == inst) - Bit(e.kind.StopEvent? && e.inst == inst)
  }

  predicate IsStart(log: seq<Event>, run: nat, inst: nat) {
    run < |log| && log[run].kind.StartEvent? && log[run].inst == inst && log[run].run == run
  }

  predicate Live(w: World, inst: nat, run: nat) {
    inst < |w.insts| && w.insts[inst].cmd == Some(run)
  }

  predicate Watched(w: World, inst: nat, run: nat) {
    Watcher(inst, run, false) in w.watchers || Watcher(inst, run, true) in w.watchers
  }

  /** A live run has had no Stop event; every other run has had exactly one. */
  ghost predicate RunsBalanced(w: World) {
    forall k: nat :: k < |w.log| && w.log[k].kind.StartEvent? ==>
      && IsStart(w.log, k, w.log[k].inst) && w.log[k].inst < |w.insts|
      && Stops(w.log, k) == Bit(!Live(w, w.log[k].inst, k))
  }

  ghost predicate Ledger(w: World) {
    && Sane(w)
    && RunsBalanced(w)
    && (forall i :: 0 <= i < |w.insts| && w.insts[i].cmd.Some? ==>
          IsStart(w.log, w.insts[i].cmd.value, i) && Watched(w, i, w.insts[i].cmd.value))
    && (forall t :: t in w.watchers ==> IsStart(w.log, t.run, t.inst))
    && (forall k :: 0 <= k < |w.log| && w.log[k].kind.StopEvent? ==>
          w.log[k].run < k && IsStart(w.log, w.log[k].run, w.log[k].inst))
  }

  ghost predicate Balanced(w: World) {
    && (forall i: nat :: i < |w.insts| ==> Balance(w.log, i) == Bit(w.insts[i].cmd.Some?))
    && (forall i: nat :: i >= |w.insts| ==> Balance(w.log, i) == 0)
  }

  lemma Snoc(log: seq<Event>, e: Event)
    ensures forall run: nat :: Stops(log + [e], run) == Stops(log, run) + Bit(e.kind.StopEvent? && e.run == run)
    ensures forall i: nat :: Balance(log + [e], i)
              == Balance(log, i) + Bit(e.kind.StartEvent? && e.inst == i) - Bit(e.kind.StopEvent? && e.inst == i)
  {
    assert (log + [e])[..|log|] == log;
  }

  lemma {:induction false} NoStopsYet(log: seq<Event>, run: nat)
    requires forall k :: 0 <= k < |log| && log[k].kind.StopEvent? ==> log[k].run != run
    ensures Stops(log, run) == 0
  {
    if log != [] {
      NoStopsYet(log[..|log| - 1], run);
    }
  }

  /** Events that are neither Start nor Stop leave both ledgers alone. */
  lemma NeutralKeeps(w: World, kind: Kind, inst: nat, run: nat)
    requires Ledger(w) && Balanced(w) && inst < |w.insts| && !kind.StartEvent? && !kind.StopEvent?
    ensures Ledger(Emit(w, kind, inst, run)) && Balanced(Emit(w, kind, inst, run))
  {
    Snoc(w.log, Event(kind, w.insts[inst].name, inst, run));
  }

  /** Ending the live run of a service, whoever does it. */
  lemma EndKeeps(w: World, inst: nat, run: nat)
    requires Ledger(w) && Balanced(w) && Live(w, inst, run)
    ensures var r := SetCmd(Emit(w, StopEvent, inst, run), inst, None); Ledger(r) && Balanced(r)
  {
    Snoc(w.log, Event(StopEvent, w.insts[inst].name, inst, run));
  }

  /** A new run of an idle service, with its watcher. */
  function Begin(w: World, inst: nat): World
    requires inst < |w.insts|
  {
    var run := |w.log|;
    SetCmd(Emit(w, StartEvent, inst, run).(watchers := w.watchers + {Watcher(inst, run, false)}), inst, Some(run))
  }

  lemma BeginKeepsLedger(w: World, inst: nat)
    requires Ledger(w) && inst < |w.insts| && w.insts[inst].cmd.None?
    ensures Ledger(Begin(w, inst))
  {
    var r := Begin(w, inst);
    var e := Event(StartEvent, w.insts[inst].name, inst, |w.log|);
    NoStopsYet(w.log, |w.log|);
    Snoc(w.log, e);
    forall k: nat | k < |r.log| && r.log[k].kind.StartEvent?
      ensures IsStart(r.log, k, r.log[k].inst) && r.log[k].inst < |r.insts|
      ensures Stops(r.log, k) == Bit(!Live(r, r.log[k].inst, k))
    {
      if k < |w.log| {
        assert r.log[k] == w.log[k];
        assert IsStart(w.log, k, w.log[k].inst);
      }
    }
    forall i | 0 <= i < |r.insts| && r.insts[i].cmd.Some?
      ensures IsStart(r.log, r.insts[i].cmd.value, i) && Watched(r, i, r.insts[i].cmd.value)
    {
      if i != inst {
        assert IsStart(w.log, w.insts[i].cmd.value, i) && Watched(w, i, w.insts[i].cmd.value);
      }
    }
  }

  lemma BeginKeepsBalance(w: World, inst: nat)
    requires Balanced(w) && inst < |w.insts| && w.insts[inst].cmd.None?
    ensures Balanced(Begin(w, inst))
  {
    Snoc(w.log, Event(StartEvent, w.insts[inst].name, inst, |w.log|));
  }

  /** A watcher whose run is over may go. */
  lemma DropWatcherKeeps(w: World, t: Watcher)
    requires Ledger(w) && Balanced(w) && !Live(w, t.inst, t.run)
    ensures Ledger(w.(watchers := w.watchers - {t})) && Balanced(w.(watchers := w.watchers - {t}))
  {
    var r := w.(watchers := w.watchers - {t});
    forall i | 0 <= i < |w.insts| && w.insts[i].cmd.Some? ensures Watched(r, i, w.insts[i].cmd.value) {
      assert Watched(w, i, w.insts[i].cmd.value);
    }
  }

  lemma StartKeeps(w: World, name: string, started: Started)
    requires Ledger(w) && Balanced(w) && name in w.installed && w.insts[w.installed[name]].cmd.None?
    ensures Ledger(DoStart(w, name, started)) && Balanced(DoStart(w, name, started))
  {
    var inst, run := w.installed[name], |w.log|;
    if started.RunFails? {
      NeutralKeeps(w, ErrorEvent, inst, run);
    } else {
      BeginKeepsLedger(w, inst);
      BeginKeepsBalance(w, inst);
      if started.RunsToEnd? {
        // A command that is over at once is one that was stopped before its watcher came to be.
        var t := Watcher(inst, run, false);
        var ended := SetCmd(Emit(Begin(w, inst), StopEvent, inst, run), inst, None);
        EndKeeps(Begin(w, inst), inst, run);
        DropWatcherKeeps(ended, t);
        assert t !in w.watchers;
        assert ended.(watchers := ended.watchers - {t}) == DoStart(w, name, started);
      }
    }
  }

  lemma WaitKeeps(w: World, t: Watcher)
    requires Ledger(w) && Balanced(w) && t in w.watchers && !t.waited
    ensures var r := w.(watchers := w.watchers - {t} + {t.(waited := true)}); Ledger(r) && Balanced(r)
  {
    var r := w.(watchers := w.watchers - {t} + {t.(waited := true)});
    forall i | 0 <= i < |w.insts| && w.insts[i].cmd.Some? ensures Watched(r, i, w.insts[i].cmd.value) {
      assert Watched(w, i, w.insts[i].cmd.value);
    }
  }

  lemma InstallKeeps(w: World, name: string)
    requires Ledger(w) && Balanced(w)
    ensures Ledger(DoInstall(w, name)) && Balanced(DoInstall(w, name))
  {
    if name !in w.installed {
      var w1 := w.(installed := w.installed[name := |w.insts|], insts := w.insts + [Inst(name, None)]);
      assert Ledger(w1) && Balanced(w1);
      NeutralKeeps(w1, InstallEvent, |w.insts|, 0);
    }
  }

  lemma StopKeeps(w: World, name: string, failed: bool)
    requires Ledger(w) && Balanced(w)
    ensures Ledger(DoStop(w, name, failed)) && Balanced(DoStop(w, name, failed))
  {
    if Running(w, name) {
      var inst := w.installed[name];
      var run := w.insts[inst].cmd.value;
      if failed { NeutralKeeps(w, ErrorEvent, inst, run); }
      EndKeeps(EmitIf(w, failed, ErrorEvent, inst, run), inst, run);
    }
  }

  lemma RemoveKeeps(w: World, name: string)
    requires Ledger(w) && Balanced(w)
    ensures Ledger(DoRemove(w, name)) && Balanced(DoRemove(w, name))
  {
    if name in w.installed {
      NeutralKeeps(w.(installed := w.installed - {name}), RemoveEvent, w.installed[name], 0);
    }
  }

  lemma WatchEndKeeps(w: World, t: Watcher)
    requires Ledger(w) && Balanced(w) && t in w.watchers
    ensures Ledger(DoEnd(w, t)) && Balanced(DoEnd(w, t))
  {
    if Live(w, t.inst, t.run) {
      EndKeeps(w, t.inst, t.run);
      var ended := SetCmd(Emit(w, StopEvent, t.inst, t.run), t.inst, None);
      DropWatcherKeeps(ended, t);
      assert ended.(watchers := ended.watchers - {t}) == DoEnd(w, t);
    } else {
      DropWatcherKeeps(w, t);
    }
  }

  /** Every step, of any client or watcher, keeps both ledgers. */
  lemma StepKeeps(w: World, step: Step)
    requires Ledger(w) && Balanced(w) && Enabled(w, step)
    ensures Ledger(Apply(w, step)) && Balanced(Apply(w, step))
  {
    match step
    case Install(name) => InstallKeeps(w, name);
    case Start(name, started) =>
      if name in w.installed && !Running(w, name) { StartKeeps(w, name, started); }
    case Stop(name, failed) => StopKeeps(w, name, failed);
    case Remove(name) => RemoveKeeps(w, name);
    case WatchWait(t, failed) =>
      WaitKeeps(w, t);
      if failed { NeutralKeeps(w.(watchers := w.watchers - {t} + {t.(waited := true)}), ErrorEvent, t.inst, t.run); }
    case WatchEnd(t) => WatchEndKeeps(w, t);
  }

  lemma {:induction false} RunKeeps(w: World, steps: seq<Step>)
    requires Ledger(w) && Balanced(w) && IsRun(w, steps)
    ensures Ledger(Exec(w, steps)) && Balanced(Exec(w, steps))
    decreases |steps|
  {
    if steps != [] {
      StepKeeps(w, steps[0]);
      RunKeeps(Apply(w, steps[0]), steps[1..]);
    }
  }

  /**
   Under any interleaving of any number of clients and watchers, Start events minus Stop events
   of a service is 1 if it has a command and 0 otherwise; a run has had one Stop event unless
   it is still live, and then none; and once no watcher is left every run has had exactly one.
   */
  lemma EveryRunStopsOnce(steps: seq<Step>)
    requires IsRun(EMPTY, steps)
    ensures var w := Exec(EMPTY, steps);
            && (forall i: nat :: i < |w.insts| ==> Balance(w.log, i) == Bit(w.insts[i].cmd.Some?))
            && RunsBalanced(w)
            && (w.watchers == {} ==>
                  forall k: nat :: k < |w.log| && w.log[k].kind.StartEvent? ==> Stops(w.log, k) == 1)
  {
    RunKeeps(EMPTY, steps);
    var w := Exec(EMPTY, steps);
    if w.watchers == {} {
      forall k: nat | k < |w.log| && w.log[k].kind.StartEvent? ensures Stops(w.log, k) == 1 {
        assert !Live(w, w.log[k].inst, k);
      }
    }
  }

  lemma EndsOnlyItsRun(w: World, t: Watcher, inst: nat, run: nat)
    requires Ledger(w) && Balanced(w) && t in w.watchers && run != t.run
    ensures var r := DoEnd(w, t);
            && IsStart(w.log, t.run, t.inst) && !Live(r, t.inst, t.run) && Stops(r.log, t.run) == 1
            && Stops(r.log, run) == Stops(w.log, run) && Live(r, inst, run) == Live(w, inst, run)
  {
    assert IsStart(w.log, t.run, t.inst);
    assert Stops(w.log, t.run) == Bit(!Live(w, t.inst, t.run));
    Snoc(w.log, Event(StopEvent, w.insts[t.inst].name, t.inst, t.run));
  }

  /** A watcher only ever ends the run it was started for, and leaves every other run as it was. */
  lemma WatcherEndsOnlyItsRun(steps: seq<Step>, t: Watcher, inst: nat, run: nat)
    requires IsRun(EMPTY, steps)
    requires Enabled(Exec(EMPTY, steps), WatchEnd(t)) && run != t.run
    ensures var w := Exec(EMPTY, steps);
            var r := Apply(w, WatchEnd(t));
            && IsStart(w.log, t.run, t.inst) && !Live(r, t.inst, t.run) && Stops(r.log, t.run) == 1
            && Stops(r.log, run) == Stops(w.log, run) && Live(r, inst, run) == Live(w, inst, run)
  {
    RunKeeps(EMPTY, steps);
    EndsOnlyItsRun(Exec(EMPTY, steps), t, inst, run);
  }

  // ---- What is announced ----

  /** How many events of a kind there have been for a service. */
  function Count(log: seq<Event>, kind: Kind, inst: nat): nat {
    if log == [] then 0
    else Count(log[..|log| - 1], kind, inst) + Bit(log[|log| - 1].kind == kind && log[|log| - 1].inst == inst)
  }

  /** Whether the service is the one that goes by the name, and has no command. */
  predicate IsIdle(w: World, name: string, inst: nat) {
    name in w.installed && w.installed[name] == inst < |w.insts| && w.insts[inst].cmd.None?
  }

  /** Whether the service is the one that goes by the name, and has a command. */
  predicate IsRunning(w: World, name: string, inst: nat) {
    name in w.installed && w.installed[name] == inst < |w.insts| && w.insts[inst].cmd.Some?
  }

  /** Whether a step is a reason to announce an event of the given kind for the service. */
  predicate Causes(w: World, step: Step, kind: Kind, inst: nat) {
    match kind
    case InstallEvent => step.Install? && step.name !in w.installed && inst == |w.insts|
    case StartEvent => step.Start? && IsIdle(w, step.name, inst) && !step.started.RunFails?
    case ErrorEvent =>
      || (step.Start? && IsIdle(w, step.name, inst) && step.started.RunFails?)
      || (step.Stop? && IsRunning(w, step.name, inst) && step.failed)
      || (step.WatchWait? && step.watcher.inst == inst && step.failed)
    case StopEvent =>
      || (step.Start? && IsIdle(w, step.name, inst) && step.started.RunsToEnd?)
      || (step.Stop? && IsRunning(w, step.name, inst))
      || (step.WatchEnd? && step.watcher.inst == inst && Live(w, inst, step.watcher.run))
    case RemoveEvent => step.Remove? && step.name in w.installed && w.installed[step.name] == inst
  }

  /** How many steps of a run were reason to. */
  ghost function Reasons(w: World, steps: seq<Step>, kind: Kind, inst: nat): nat
    requires Sane(w) && IsRun(w, steps)
    decreases |steps|
  {
    if steps == [] then 0
    else Bit(Causes(w, steps[0], kind, inst)) + Reasons(Apply(w, steps[0]), steps[1..], kind, inst)
  }

  lemma CountSnoc(log: seq<Event>, e: Event, kind: Kind, inst: nat)
    ensures Count(log + [e], kind, inst) == Count(log, kind, inst) + Bit(e.kind == kind && e.inst == inst)
  {
    assert (log + [e])[..|log|] == log;
  }

  lemma CountEmit(w: World, emitted: Kind, i: nat, run: nat, kind: Kind, inst: nat)
    requires i < |w.insts|
    ensures Count(Emit(w, emitted, i, run).log, kind, inst)
            == Count(w.log, kind, inst) + Bit(emitted == kind && i == inst)
  {
    CountSnoc(w.log, Event(emitted, w.insts[i].name, i, run), kind, inst);
  }

  lemma StartAnnounces(w: World, name: string, started: Started, kind: Kind, inst: nat)
    requires Sane(w)
    ensures Count(DoStart(w, name, started).log, kind, inst)
            == Count(w.log, kind, inst) + Bit(Causes(w, Start(name, started), kind, inst))
  {
    hide Count;
    if name in w.installed && !Running(w, name) {
      var i, run := w.installed[name], |w.log|;
      CountEmit(w, if started.RunFails? then ErrorEvent else StartEvent, i, run, kind, inst);
      CountEmit(Emit(w, StartEvent, i, run), StopEvent, i, run, kind, inst);
    }
  }

  lemma StopAnnounces(w: World, name: string, failed: bool, kind: Kind, inst: nat)
    requires Sane(w)
    ensures Count(DoStop(w, name, failed).log, kind, inst)
            == Count(w.log, kind, inst) + Bit(Causes(w, Stop(name, failed), kind, inst))
  {
    hide Count;
    if Running(w, name) {
      var i := w.installed[name];
      var run := w.insts[i].cmd.value;
      CountEmit(w, ErrorEvent, i, run, kind, inst);
      CountEmit(EmitIf(w, failed, ErrorEvent, i, run), StopEvent, i, run, kind, inst);
    }
  }

  /** A step announces an event exactly if it is a reason to; and an Error of a Stop before the Stop itself. */
  lemma StepAnnounces(w: World, step: Step, kind: Kind, inst: nat)
    requires Sane(w) && Enabled(w, step)
    ensures Count(Apply(w, step).log, kind, inst) == Count(w.log, kind, inst) + Bit(Causes(w, step, kind, inst))
    ensures step.Stop? && Running(w, step.name) ==>
              Apply(w, step).log != [] && Apply(w, step).log[|Apply(w, step).log| - 1].kind.StopEvent?
  {
    hide Count;
    match step
    case Install(name) =>
      if name !in w.installed {
        var w1 := w.(installed := w.installed[name := |w.insts|], insts := w.insts + [Inst(name, None)]);
        CountEmit(w1, InstallEvent, |w.insts|, 0, kind, inst);
      }
    case Start(name, started) =>
      StartAnnounces(w, name, started, kind, inst);
    case Stop(name, failed) =>
      StopAnnounces(w, name, failed, kind, inst);
    case Remove(name) =>
      if name in w.installed {
        CountEmit(w.(installed := w.installed - {name}), RemoveEvent, w.installed[name], 0, kind, inst);
      }
    case WatchWait(t, failed) =>
      CountEmit(w.(watchers := w.watchers - {t} + {t.(waited := true)}), ErrorEvent, t.inst, t.run, kind, inst);
    case WatchEnd(t) =>
      CountEmit(w.(watchers := w.watchers - {t}), StopEvent, t.inst, t.run, kind, inst);
  }

  lemma {:induction false} RunAnnounces(w: World, steps: seq<Step>, kind: Kind, inst: nat)
    requires Sane(w) && IsRun(w, steps)
    ensures Count(Exec(w, steps).log, kind, inst) == Count(w.log, kind, inst) + Reasons(w, steps, kind, inst)
    decreases |steps|
  {
    if steps != [] {
      StepAnnounces(w, steps[0], kind, inst);
      RunAnnounces(Apply(w, steps[0]), steps[1..], kind, inst);
    }
  }

  /**
   Under any interleaving of any number of clients and watchers, a service has had exactly the
   events that there was reason for: a Start for each Start of it without a command whose
   RunCommand did not fail; an Error for each that did, for each failed Stop of a command and
   each watcher that saw one fail; a Stop for each command that ended at once, was stopped, or
   was found ended by its watcher; an Install when it came, and a Remove when it went.
   */
  lemma AnnouncesExactly(steps: seq<Step>, kind: Kind, inst: nat)
    requires IsRun(EMPTY, steps)
    ensures Count(Exec(EMPTY, steps).log, kind, inst) == Reasons(EMPTY, steps, kind, inst)
  {
    RunAnnounces(EMPTY, steps, kind, inst);
  }

  // ---- A single client: the order of events ----

  datatype Phase = Absent | Idle | Active | OutOfOrder

  /** The checker for (Install (Start Stop)* Remove)*, which skips Error events. */
  function Next(q: Phase, kind: Kind): Phase {
    match (q, kind)
    case (_, ErrorEvent) => q
    case (Absent, InstallEvent) => Idle
    case (Idle, StartEvent) => Active
    case (Active, StopEvent) => Idle
    case (Idle, RemoveEvent) => Absent
    case _ => OutOfOrder
  }

  /** The checker run over the events of one service name. */
  function Order(log: seq<Event>, name: string): Phase {
    if log == [] then Absent
    else
      var e := log[|log| - 1];
      var q := Order(log[..|log| - 1], name);
      if e.name == name then Next(q, e.kind) else q
  }

  function PhaseOf(w: World, name: string): Phase
    requires Sane(w)
  {
    if name !in w.installed then Absent else if Running(w, name) then Active else Idle
  }

  /**
   The client steps of one client that only removes a service as StopAndRemove does: right
   after stopping it. Watchers may come in between. `last` is the client's last step.
   */
  ghost predicate OneClient(steps: seq<Step>, last: Option<Step>) {
    steps != [] ==>
      && (steps[0].Remove? ==> last.Some? && last.value.Stop? && last.value.name == steps[0].name)
      && OneClient(steps[1..], if IsClient(steps[0]) then Some(steps[0]) else last)
  }

  /** No event is out of order, and services that were removed have no command. */
  ghost predicate Ordered(w: World, last: Option<Step>) {
    && Sane(w)
    && (forall name :: Order(w.log, name) == PhaseOf(w, name))
    && (forall i :: 0 <= i < |w.insts| && w.insts[i].cmd.Some? ==>
          w.insts[i].name in w.installed && w.installed[w.insts[i].name] == i)
    && (last.Some? && last.value.Stop? ==> !Running(w, last.value.name))
  }

  lemma OrderSnoc(log: seq<Event>, e: Event)
    ensures forall name :: Order(log + [e], name)
              == if e.name == name then Next(Order(log, name), e.kind) else Order(log, name)
  {
    assert (log + [e])[..|log|] == log;
  }

  lemma ErrorKeepsOrder(w: World, last: Option<Step>, inst: nat, run: nat)
    requires Ordered(w, last) && inst < |w.insts|
    ensures Ordered(Emit(w, ErrorEvent, inst, run), last)
  {
    OrderSnoc(w.log, Event(ErrorEvent, w.insts[inst].name, inst, run));
  }

  lemma EndKeepsOrder(w: World, last: Option<Step>, inst: nat, run: nat)
    requires Ordered(w, last) && Live(w, inst, run)
    ensures Ordered(SetCmd(Emit(w, StopEvent, inst, run), inst, None), last)
    ensures !Running(SetCmd(Emit(w, StopEvent, inst, run), inst, None), w.insts[inst].name)
  {
    OrderSnoc(w.log, Event(StopEvent, w.insts[inst].name, inst, run));
  }

  lemma InstallKeepsOrder(w: World, last: Option<Step>, name: string)
    requires Ordered(w, last)
    ensures Ordered(DoInstall(w, name), Some(Install(name)))
  {
    OrderSnoc(w.log, Event(InstallEvent, name, |w.insts|, 0));
  }

  lemma BeginKeepsOrder(w: World, last: Option<Step>, name: string)
    requires Ordered(w, last) && name in w.installed && !Running(w, name)
    ensures Ordered(Begin(w, w.installed[name]), None)
  {
    OrderSnoc(w.log, Event(StartEvent, name, w.installed[name], |w.log|));
  }

  lemma StartKeepsOrder(w: World, last: Option<Step>, name: string, started: Started)
    requires Ordered(w, last)
    ensures Ordered(DoStart(w, name, started), Some(Start(name, started)))
  {
    if name in w.installed && !Running(w, name) {
      var inst, run := w.installed[name], |w.log|;
      if started.RunFails? {
        ErrorKeepsOrder(w, last, inst, run);
      } else {
        BeginKeepsOrder(w, last, name);
        if started.RunsToEnd? {
          EndKeepsOrder(Begin(w, inst), None, inst, run);
          var ended := SetCmd(Emit(Begin(w, inst), StopEvent, inst, run), inst, None);
          assert ended.(watchers := w.watchers) == DoStart(w, name, started);
        }
      }
    }
  }

  lemma StopKeepsOrder(w: World, last: Option<Step>, name: string, failed: bool)
    requires Ordered(w, last)
    ensures Ordered(DoStop(w, name, failed), Some(Stop(name, failed)))
  {
    if Running(w, name) {
      var inst := w.installed[name];
      var run := w.insts[inst].cmd.value;
      if failed { ErrorKeepsOrder(w, last, inst, run); }
      EndKeepsOrder(EmitIf(w, failed, ErrorEvent, inst, run), last, inst, run);
    }
  }

  lemma RemoveKeepsOrder(w: World, last: Option<Step>, name: string)
    requires Ordered(w, last) && !Running(w, name)
    ensures Ordered(DoRemove(w, name), Some(Remove(name)))
  {
    if name in w.installed {
      OrderSnoc(w.log, Event(RemoveEvent, name, w.installed[name], 0));
    }
  }

  lemma ClientKeepsOrder(w: World, last: Option<Step>, step: Step)
    requires Ordered(w, last) && IsClient(step)
    requires step.Remove? ==> !Running(w, step.name)
    ensures Ordered(Apply(w, step), Some(step))
  {
    match step
    case Install(name) => InstallKeepsOrder(w, last, name);
    case Start(name, started) => StartKeepsOrder(w, last, name, started);
    case Stop(name, failed) => StopKeepsOrder(w, last, name, failed);
    case Remove(name) => RemoveKeepsOrder(w, last, name);
  }

  lemma WatcherKeepsOrder(w: World, last: Option<Step>, step: Step)
    requires Ordered(w, last) && Enabled(w, step) && !IsClient(step)
    ensures Ordered(Apply(w, step), last)
  {
    match step
    case WatchWait(t, failed) =>
      var w1 := w.(watchers := w.watchers - {t} + {t.(waited := true)});
      assert Ordered(w1, last);
      if failed { ErrorKeepsOrder(w1, last, t.inst, t.run); }
    case WatchEnd(t) =>
      var w1 := w.(watchers := w.watchers - {t});
      assert Ordered(w1, last);
      if Live(w, t.inst, t.run) { EndKeepsOrder(w1, last, t.inst, t.run); }
  }

  lemma {:induction false} RunKeepsOrder(w: World, steps: seq<Step>, last: Option<Step>)
    requires Ordered(w, last) && IsRun(w, steps) && OneClient(steps, last)
    ensures forall name :: Order(Exec(w, steps).log, name) == PhaseOf(Exec(w, steps), name)
    decreases |steps|
  {
    if steps != [] {
      if IsClient(steps[0]) {
        ClientKeepsOrder(w, last, steps[0]);
        RunKeepsOrder(Apply(w, steps[0]), steps[1..], Some(steps[0]));
      } else {
        WatcherKeepsOrder(w, last, steps[0]);
        RunKeepsOrder(Apply(w, steps[0]), steps[1..], last);
      }
    }
  }

  /**
   With a single client and any interleaving of watchers, the events of each service name form
   a prefix of (Install (Start Stop)* Remove)*: it is never removed while it is running.
   */
  lemma OneClientIsOrdered(steps: seq<Step>, name: string)
    requires IsRun(EMPTY, steps) && OneClient(steps, None)
    ensures !Order(Exec(EMPTY, steps).log, name).OutOfOrder?
    ensures Order(Exec(EMPTY, steps).log, name) == PhaseOf(Exec(EMPTY, steps), name)
  {
    RunKeepsOrder(EMPTY, steps, None);
  }

  /** With several clients, removing breaks the order exactly when another got the service running again. */
  lemma RemoveBreaksOrderExactly(w: World, name: string)
    requires Sane(w) && Order(w.log, name) == PhaseOf(w, name)
    ensures Order(Apply(w, Remove(name)).log, name).OutOfOrder? <==> Running(w, name)
  {
    if name in w.installed {
      OrderSnoc(w.log, Event(RemoveEvent, name, w.installed[name], 0));
    }
  }

  lemma {:induction false} ExecSnoc(w: World, steps: seq<Step>, step: Step)
    requires Sane(w) && IsRun(w, steps) && Enabled(Exec(w, steps), step)
    ensures IsRun(w, steps + [step]) && Exec(w, steps + [step]) == Apply(Exec(w, steps), step)
    decreases |steps|
  {
    if steps == [] {
      assert [step][1..] == [];
      assert steps + [step] == [step];
    } else {
      ExecSnoc(Apply(w, steps[0]), steps[1..], step);
      assert (steps + [step])[1..] == steps[1..] + [step];
    }
  }

  lemma {:induction false} NoRemovals(steps: seq<Step>, last: Option<Step>)
    requires forall k :: 0 <= k < |steps| ==> !steps[k].Remove?
    ensures OneClient(steps, last)
    decreases |steps|
  {
    if steps != [] {
      NoRemovals(steps[1..], if IsClient(steps[0]) then Some(steps[0]) else last);
    }
  }

  /** Two clients: one starts the service between the other's Stop and its removal. */
  lemma TwoClientsRemoveWhileRunning(name: string)
    ensures var steps := [Install(name), Start(name, Runs), Stop(name, false), Start(name, Runs), Remove(name)];
            IsRun(EMPTY, steps) && Order(Exec(EMPTY, steps).log, name).OutOfOrder?
  {
    var before := [Install(name), Start(name, Runs), Stop(name, false), Start(name, Runs)];
    assert [] + [Install(name)] == before[..1];
    ExecSnoc(EMPTY, [], Install(name));
    assert before[..1] + [Start(name, Runs)] == before[..2];
    ExecSnoc(EMPTY, before[..1], Start(name, Runs));
    assert before[..2] + [Stop(name, false)] == before[..3];
    ExecSnoc(EMPTY, before[..2], Stop(name, false));
    assert before[..3] + [Start(name, Runs)] == before;
    ExecSnoc(EMPTY, before[..3], Start(name, Runs));
    ExecSnoc(EMPTY, before, Remove(name));
    assert before + [Remove(name)]
        == [Install(name), Start(name, Runs), Stop(name, false), Start(name, Runs), Remove(name)];
    NoRemovals(before, None);
    OneClientIsOrdered(before, name);
    RemoveBreaksOrderExactly(Exec(EMPTY, before), name);
  }
}
