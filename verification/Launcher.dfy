/** The plugin launcher: a list of started commands in startup order that exit handlers shrink
    in place while other operations run. */
module Launcher {

  /** A started process: the order in which it was started, its plugin and its executable. */
  datatype Cmd = Cmd(id: nat, plugin: string, path: string)
  datatype Plugin = Plugin(path: string, running: bool)

  // ----- one function per locked section

  /** `waiting` holds the processes whose exit handler has not run yet. */
  datatype State = State(plugins: map<string, Plugin>, cmds: seq<Cmd>, waiting: set<Cmd>, nextId: nat)

  /** What the operating system makes of a start: it fails, the process runs, or it ends with an
      error before the launcher looks again 100 ms later. */
  datatype Launch = Fails | Runs | EndsEarly

  /** `ExitedEarly` reports the early error; the process is listed until its exit handler runs. */
  datatype Outcome = Unknown | AlreadyRunning | PathInUse | StartFailed | ExitedEarly | Started

  predicate PathTaken(cmds: seq<Cmd>, path: string) {
    exists i :: 0 <= i < |cmds| && cmds[i].path == path
  }

  function StartOutcome(st: State, name: string, launch: Launch): Outcome {
    if name !in st.plugins then Unknown
    else if st.plugins[name].running then AlreadyRunning
    else if PathTaken(st.cmds, st.plugins[name].path) then PathInUse
    else if launch.Fails? then StartFailed
    else if launch.EndsEarly? then ExitedEarly
    else Started
  }

  predicate Launched(outcome: Outcome) {
    outcome.Started? || outcome.ExitedEarly?
  }

  function Start(st: State, name: string, launch: Launch): State {
    if !Launched(StartOutcome(st, name, launch)) then st
    else
      var plugin := st.plugins[name];
      var c := Cmd(st.nextId, name, plugin.path);
      State(st.plugins[name := plugin.(running := true)], st.cmds + [c], st.waiting + {c}, st.nextId + 1)
  }

  function Halted(plugins: map<string, Plugin>, name: string): map<string, Plugin> {
    if name in plugins then plugins[name := plugins[name].(running := false)] else plugins
  }

  function RemoveAt(cmds: seq<Cmd>, i: nat): (r: seq<Cmd>)
    requires i < |cmds|
    ensures |r| == |cmds| - 1
    ensures forall k :: 0 <= k < |r| ==> r[k] == cmds[if k < i then k else k + 1]
  {
    cmds[..i] + cmds[i + 1..]
  }

  /** lo.IndexOf: -1 if the command is not listed. */
  function IndexOf(cmds: seq<Cmd>, c: Cmd): (i: int)
    ensures -1 <= i < |cmds|
    ensures i >= 0 ==> cmds[i] == c && c !in cmds[..i]
    ensures i == -1 <==> c !in cmds
  {
    if cmds == [] then -1
    else if cmds[0] == c then 0
    else
      var i := IndexOf(cmds[1..], c);
      assert cmds == [cmds[0]] + cmds[1..];
      assert i >= 0 ==> cmds[..i + 1] == [cmds[0]] + cmds[1..][..i];
      if i < 0 then -1 else i + 1
  }

  /** The exit handler; slicing at index -1 would be a panic. */
  function Exit(st: State, c: Cmd): State
    requires c in st.cmds
  {
    State(Halted(st.plugins, c.plugin), RemoveAt(st.cmds, IndexOf(st.cmds, c)), st.waiting - {c}, st.nextId)
  }

  // ----- runs

  datatype Step =
    | AddPlugin(name: string, path: string)
    | StartPlugin(name: string, launch: Launch)
    | ProcessExit(cmd: Cmd)
    | StopPluginEnd(name: string)

  /** An exit handler runs once for each started process. The second phase of StopPlugin can come
      any time after the first, which changes nothing. */
  predicate Enabled(st: State, step: Step) {
    step.ProcessExit? ==> step.cmd in st.waiting
  }

  predicate Panics(st: State, step: Step) {
    step.ProcessExit? && IndexOf(st.cmds, step.cmd) == -1
  }

  function Apply(st: State, step: Step): State
    requires Enabled(st, step) && !Panics(st, step)
  {
    match step
    case AddPlugin(name, path) =>
      if name in st.plugins then st else st.(plugins := st.plugins[name := Plugin(path, false)])
    case StartPlugin(name, launch) => Start(st, name, launch)
    case ProcessExit(c) => Exit(st, c)
    case StopPluginEnd(name) => st.(plugins := Halted(st.plugins, name))
  }

  const Init: State := State(map[], [], {}, 0)

  ghost predicate Run(st: State, steps: seq<Step>, end: State)
    decreases |steps|
  {
    if steps == [] then end == st
    else Enabled(st, steps[0]) && !Panics(st, steps[0]) && Run(Apply(st, steps[0]), steps[1..], end)
  }

  // ----- the invariant

  ghost predicate HasProcess(st: State, name: string) {
    name in st.plugins &&
    exists i :: 0 <= i < |st.cmds| && st.cmds[i].plugin == name && st.cmds[i].path == st.plugins[name].path
  }

  ghost predicate Inv(st: State) {
    && (forall i, j :: 0 <= i < j < |st.cmds| ==> st.cmds[i].path != st.cmds[j].path && st.cmds[i].id < st.cmds[j].id)
    && (forall i :: 0 <= i < |st.cmds| ==> st.cmds[i].id < st.nextId)
    && (forall c :: c in st.waiting <==> c in st.cmds)
    && (forall name :: name in st.plugins && st.plugins[name].running ==> HasProcess(st, name))
  }

  lemma {:induction false} StartKeepsInv(st: State, name: string, launch: Launch)
    requires Inv(st)
    ensures Inv(Start(st, name, launch))
  {
    var st' := Start(st, name, launch);
    if Launched(StartOutcome(st, name, launch)) {
      var n := |st.cmds|;
      assert st'.cmds[n].plugin == name && st'.cmds[n].path == st'.plugins[name].path;
      forall p | p in st'.plugins && st'.plugins[p].running ensures HasProcess(st', p) {
        if p != name {
          var i :| 0 <= i < n && st.cmds[i].plugin == p && st.cmds[i].path == st.plugins[p].path;
          assert st'.cmds[i] == st.cmds[i];
        }
      }
    }
  }

  lemma {:induction false} Remains(cmds: seq<Cmd>, k: nat, i: nat)
    requires k < |cmds| && i < |cmds| && i != k
    ensures RemoveAt(cmds, k)[if i < k then i else i - 1] == cmds[i]
  {
  }

  lemma {:induction false} ExitKeepsList(st: State, c: Cmd)
    requires Inv(st) && c in st.waiting
    ensures forall d :: d in Exit(st, c).waiting <==> d in Exit(st, c).cmds
    ensures var cmds := Exit(st, c).cmds;
            forall i, j :: 0 <= i < j < |cmds| ==> cmds[i].path != cmds[j].path && cmds[i].id < cmds[j].id
  {
  }

  lemma {:induction false} ExitKeepsInv(st: State, c: Cmd)
    requires Inv(st) && c in st.waiting
    ensures Inv(Exit(st, c))
  {
    var st', k := Exit(st, c), IndexOf(st.cmds, c);
    ExitKeepsList(st, c);
    forall p | p in st'.plugins && st'.plugins[p].running ensures HasProcess(st', p) {
      assert p != c.plugin && st'.plugins[p] == st.plugins[p];
      var i :| 0 <= i < |st.cmds| && st.cmds[i].plugin == p && st.cmds[i].path == st.plugins[p].path;
      Remains(st.cmds, k, i);
    }
  }

  lemma {:induction false} HaltKeepsInv(st: State, plugins: map<string, Plugin>)
    requires Inv(st)
    requires forall p :: p in plugins && plugins[p].running ==> p in st.plugins && st.plugins[p] == plugins[p]
    ensures Inv(st.(plugins := plugins))
  {
  }

  lemma {:induction false} StepKeepsInv(st: State, step: Step)
    requires Inv(st) && Enabled(st, step)
    ensures !Panics(st, step) && Inv(Apply(st, step))
  {
    match step {
      case AddPlugin(name, path) => HaltKeepsInv(st, Apply(st, step).plugins);
      case StartPlugin(name, launch) => StartKeepsInv(st, name, launch);
      case ProcessExit(c) => ExitKeepsInv(st, c);
      case StopPluginEnd(name) => HaltKeepsInv(st, Halted(st.plugins, name));
    }
  }

  /** Over every interleaving of discovery, start, exit and stop: no two commands share an
      executable, the list is in startup order, it holds each unreaped process exactly once,
      and a plugin marked running has its process listed. */
  lemma {:induction false} RunKeepsInv(st: State, steps: seq<Step>, end: State)
    requires Inv(st) && Run(st, steps, end)
    ensures Inv(end)
    decreases |steps|
  {
    if steps == [] {
    } else {
      StepKeepsInv(st, steps[0]);
      RunKeepsInv(Apply(st, steps[0]), steps[1..], end);
    }
  }

  /** No exit handler of any run slices out of range, and what it removes is the only listing of
      its process. */
  lemma {:induction false} ExitsInRange(steps: seq<Step>, st: State, c: Cmd)
    requires Run(Init, steps, st) && c in st.waiting
    ensures 0 <= IndexOf(st.cmds, c) < |st.cmds|
    ensures forall i :: 0 <= i < |st.cmds| && st.cmds[i] == c ==> i == IndexOf(st.cmds, c)
    ensures c !in Exit(st, c).cmds
  {
    RunKeepsInv(Init, steps, st);
    ExitKeepsInv(st, c);
  }
}
