/** What the launcher knows at the end of a run, told from the history of the run alone. */
module LauncherHistory {
  import opened Text
  import opened Launcher

  // ----- the history

  /** The path under which a plugin was first discovered. */
  function PathOf(steps: seq<Step>, name: string): Option<string> {
    if steps == [] then None
    else
      var before, last := PathOf(steps[..|steps| - 1], name), steps[|steps| - 1];
      if before.None? && last.AddPlugin? && last.name == name then Some(last.path) else before
  }

  /** Of the plugin's starts that launched a process, the exits of its processes and the ends of
      its StopPlugin calls, the last one is a start. */
  ghost predicate IsRunning(steps: seq<Step>, name: string)
    decreases |steps|, 0
  {
    if steps == [] then false
    else
      var before, last := steps[..|steps| - 1], steps[|steps| - 1];
      if last.StartPlugin? && last.name == name && Launches(before, name, last.launch) then true
      else if last.ProcessExit? && last.cmd.plugin == name then false
      else if last.StopPluginEnd? && last.name == name then false
      else IsRunning(before, name)
  }

  /** All processes launched, in order; a process is identified by its number. */
  ghost function Processes(steps: seq<Step>): seq<Cmd>
    decreases |steps|, 0
  {
    if steps == [] then []
    else
      var before, last := steps[..|steps| - 1], steps[|steps| - 1];
      if last.StartPlugin? && Launches(before, last.name, last.launch) then
        Processes(before) + [Cmd(|Processes(before)|, last.name, PathOf(before, last.name).value)]
      else Processes(before)
  }

  ghost predicate Alive(steps: seq<Step>, c: Cmd)
    decreases |steps|, 1
  {
    c in Processes(steps) && ProcessExit(c) !in steps
  }

  ghost predicate InUse(steps: seq<Step>, path: string)
    decreases |steps|, 2
  {
    exists c :: Alive(steps, c) && c.path == path
  }

  /** A start after these steps launches a process. */
  ghost predicate Launches(steps: seq<Step>, name: string, launch: Launch)
    decreases |steps|, 3
  {
    && PathOf(steps, name).Some? && !IsRunning(steps, name)
    && !InUse(steps, PathOf(steps, name).value) && launch != Fails
  }

  // ----- the state tells the history

  ghost predicate PluginsTell(steps: seq<Step>, st: State) {
    forall name ::
      && (name in st.plugins <==> PathOf(steps, name).Some?)
      && (IsRunning(steps, name) ==> name in st.plugins)
      && (name in st.plugins ==> st.plugins[name] == Plugin(PathOf(steps, name).value, IsRunning(steps, name)))
  }

  ghost predicate CommandsTell(steps: seq<Step>, st: State) {
    && (forall c :: c in st.cmds <==> Alive(steps, c))
    && st.nextId == |Processes(steps)|
    && (forall c :: c in Processes(steps) ==> c.id < st.nextId)
    && (forall c :: ProcessExit(c) in steps ==> c in Processes(steps))
  }

  ghost predicate Tells(steps: seq<Step>, st: State) {
    Inv(st) && PluginsTell(steps, st) && CommandsTell(steps, st)
  }

  lemma {:induction false} TakenIsInUse(steps: seq<Step>, st: State, path: string)
    requires CommandsTell(steps, st)
    ensures PathTaken(st.cmds, path) <==> InUse(steps, path)
  {
    if PathTaken(st.cmds, path) {
      var i :| 0 <= i < |st.cmds| && st.cmds[i].path == path;
      assert st.cmds[i] in st.cmds;
    }
    if InUse(steps, path) {
      var c :| Alive(steps, c) && c.path == path;
      assert c in st.cmds;
      var i :| 0 <= i < |st.cmds| && st.cmds[i] == c;
    }
  }

  lemma {:induction false} LaunchedIsLaunches(steps: seq<Step>, st: State, name: string, launch: Launch)
    requires PluginsTell(steps, st) && CommandsTell(steps, st)
    ensures Launched(StartOutcome(st, name, launch)) <==> Launches(steps, name, launch)
  {
    if name in st.plugins {
      TakenIsInUse(steps, st, st.plugins[name].path);
    }
  }

  lemma {:induction false} More(steps: seq<Step>, step: Step, name: string, c: Cmd)
    ensures var all := steps + [step];
            && all[..|all| - 1] == steps && all[|all| - 1] == step
            && (ProcessExit(c) in all <==> ProcessExit(c) in steps || step == ProcessExit(c))
  {
  }

  lemma {:induction false} StartTellsPlugins(steps: seq<Step>, st: State, name: string, launch: Launch)
    requires Tells(steps, st)
    ensures PluginsTell(steps + [StartPlugin(name, launch)], Start(st, name, launch))
  {
    LaunchedIsLaunches(steps, st, name, launch);
    var all := steps + [StartPlugin(name, launch)];
    assert all[..|all| - 1] == steps;
  }

  lemma {:induction false} StartTellsCommands(steps: seq<Step>, st: State, name: string, launch: Launch)
    requires Tells(steps, st)
    ensures CommandsTell(steps + [StartPlugin(name, launch)], Start(st, name, launch))
  {
    LaunchedIsLaunches(steps, st, name, launch);
    var all, st' := steps + [StartPlugin(name, launch)], Start(st, name, launch);
    assert all[..|all| - 1] == steps;
    forall c ensures ProcessExit(c) in all <==> ProcessExit(c) in steps { More(steps, StartPlugin(name, launch), name, c); }
    if Launches(steps, name, launch) {
      var added := Cmd(st.nextId, name, st.plugins[name].path);
      assert Processes(all) == Processes(steps) + [added];
      assert st'.cmds == st.cmds + [added] && added !in Processes(steps);
    } else {
      assert Processes(all) == Processes(steps);
    }
  }

  lemma {:induction false} ExitTells(steps: seq<Step>, st: State, c: Cmd)
    requires Tells(steps, st) && c in st.waiting
    ensures Tells(steps + [ProcessExit(c)], Exit(st, c))
  {
    var all, st' := steps + [ProcessExit(c)], Exit(st, c);
    assert all[..|all| - 1] == steps;
    ExitKeepsInv(st, c);
    assert Processes(all) == Processes(steps);
    forall d ensures ProcessExit(d) in all <==> ProcessExit(d) in steps || d == c { More(steps, ProcessExit(c), "", d); }
    assert forall d :: d in st'.cmds <==> d in st.cmds && d != c;
  }

  /** A step that only touches the plugins. */
  lemma {:induction false} OtherTells(steps: seq<Step>, st: State, step: Step)
    requires Tells(steps, st) && (step.AddPlugin? || step.StopPluginEnd?)
    ensures Tells(steps + [step], Apply(st, step))
  {
    var all := steps + [step];
    assert all[..|all| - 1] == steps;
    StepKeepsInv(st, step);
    assert Processes(all) == Processes(steps);
    forall c ensures ProcessExit(c) in all <==> ProcessExit(c) in steps { More(steps, step, "", c); }
  }

  lemma {:induction false} StepTells(steps: seq<Step>, st: State, step: Step)
    requires Tells(steps, st) && Enabled(st, step) && !Panics(st, step)
    ensures Tells(steps + [step], Apply(st, step))
  {
    match step {
      case StartPlugin(name, launch) =>
        StartKeepsInv(st, name, launch);
        StartTellsPlugins(steps, st, name, launch);
        StartTellsCommands(steps, st, name, launch);
      case ProcessExit(c) => ExitTells(steps, st, c);
      case AddPlugin(_, _) => OtherTells(steps, st, step);
      case StopPluginEnd(_) => OtherTells(steps, st, step);
    }
  }

  lemma {:induction false} TellsOn(before: seq<Step>, st: State, steps: seq<Step>, end: State)
    requires Tells(before, st) && Run(st, steps, end)
    ensures Tells(before + steps, end)
    decreases |steps|
  {
    if steps == [] {
      assert before + steps == before;
    } else {
      StepTells(before, st, steps[0]);
      TellsOn(before + [steps[0]], Apply(st, steps[0]), steps[1..], end);
      assert before + [steps[0]] + steps[1..] == before + steps;
    }
  }

  /** Over every run: a plugin is known if and only if it was discovered, under its first path, and
      it is marked running if and only if the last of its launches, exits and stops is a launch; the
      commands listed are exactly the processes launched and not exited. */
  lemma {:induction false} RunTells(steps: seq<Step>, st: State)
    requires Run(Init, steps, st)
    ensures Tells(steps, st)
  {
    TellsOn([], Init, steps, st);
    assert [] + steps == steps;
  }

  /** What a start answers, from the history alone. */
  lemma {:induction false} OutcomeExactly(steps: seq<Step>, st: State, name: string, launch: Launch)
    requires Run(Init, steps, st)
    ensures StartOutcome(st, name, launch)
         == if PathOf(steps, name).None? then Unknown
            else if IsRunning(steps, name) then AlreadyRunning
            else if InUse(steps, PathOf(steps, name).value) then PathInUse
            else match launch case Fails => StartFailed case EndsEarly => ExitedEarly case Runs => Started
  {
    RunTells(steps, st);
    if PathOf(steps, name).Some? {
      TakenIsInUse(steps, st, PathOf(steps, name).value);
    }
  }

  /** A start that launches lists one new process of the plugin's path and nothing else, changes no
      other plugin, and makes the next start answer that the plugin is running. */
  lemma {:induction false} StartTwice(steps: seq<Step>, st: State, name: string, launch: Launch, again: Launch)
    requires Run(Init, steps, st) && Launches(steps, name, launch)
    ensures var st', c := Start(st, name, launch), Cmd(|Processes(steps)|, name, PathOf(steps, name).value);
            && c !in st.cmds && st'.cmds == st.cmds + [c]
            && (forall other :: other != name ==>
                  (other in st'.plugins <==> other in st.plugins)
                  && (other in st.plugins ==> st'.plugins[other] == st.plugins[other]))
            && StartOutcome(st', name, again) == AlreadyRunning
  {
    RunTells(steps, st);
    LaunchedIsLaunches(steps, st, name, launch);
  }

  /** Any other start changes nothing. */
  lemma {:induction false} NoLaunchChangesNothing(steps: seq<Step>, st: State, name: string, launch: Launch)
    requires Run(Init, steps, st) && !Launches(steps, name, launch)
    ensures Start(st, name, launch) == st
  {
    RunTells(steps, st);
    LaunchedIsLaunches(steps, st, name, launch);
  }
}
