/** The launcher on its real data: a slice `cmds` over a backing array that exit handlers shift
    in place, and that StopAllPlugins walks through an alias rather than a copy. */
module LauncherService {
  import opened Launcher

  /** The array after deleting index p of a slice of length n: the tail moves down and the last
      slot keeps its old content. */
  function Shifted(a: seq<Cmd>, p: nat, n: nat): (s: seq<Cmd>)
    requires p < n <= |a|
    ensures |s| == |a|
    ensures forall k :: 0 <= k < |a| ==> s[k] == if p <= k < n - 1 then a[k + 1] else a[k]
  {
    a[..p] + a[p + 1..n] + a[n - 1..]
  }

  predicate HasSuffix(s: string, suffix: string) {
    |suffix| <= |s| && s[|s| - |suffix|..] == suffix
  }

  /** Commands that StopAllPlugins leaves alone. */
  predicate Spared(c: Cmd, includingCore: bool, coreBin: string) {
    !includingCore && coreBin != "" && HasSuffix(c.path, coreBin)
  }

  /** The path ends in the name of the core, which is configured and was not asked for. */
  ghost predicate ExcludedCore(c: Cmd, includingCore: bool, coreBin: string) {
    !includingCore && coreBin != "" && exists p :: c.path == p + coreBin
  }

  lemma {:induction false} SparedExactly(c: Cmd, includingCore: bool, coreBin: string)
    ensures Spared(c, includingCore, coreBin) <==> ExcludedCore(c, includingCore, coreBin)
  {
    if HasSuffix(c.path, coreBin) {
      assert c.path == c.path[..|c.path| - |coreBin|] + coreBin;
    }
  }

  // ----- the walk from the end of an array that is shifted meanwhile

  /** In startup order, repetitions being the same command. */
  ghost predicate Ordered(a: seq<Cmd>) {
    forall j, k :: 0 <= j < k < |a| ==> a[j].id < a[k].id || a[j] == a[k]
  }

  /** The walk is about to look at index i: every later slot holds a visited command, and of the
      commands in the array those started after a visited one are visited too. */
  ghost predicate Walk(a: seq<Cmd>, i: int, visited: set<Cmd>) {
    && Ordered(a)
    && (forall k :: i < k < |a| && 0 <= k ==> a[k] in visited)
    && (forall k, v :: 0 <= k < |a| && v in visited && v.id <= a[k].id ==> a[k] in visited)
  }

  lemma {:induction false} ShiftKeepsOrder(a: seq<Cmd>, p: nat, n: nat)
    requires p < n <= |a| && Ordered(a)
    ensures Ordered(Shifted(a, p, n))
  {
    var s := Shifted(a, p, n);
    forall j, k | 0 <= j < k < |s| ensures s[j].id < s[k].id || s[j] == s[k] {
      var j', k' := (if p <= j < n - 1 then j + 1 else j), if p <= k < n - 1 then k + 1 else k;
      assert s[j] == a[j'] && s[k] == a[k'] && j' <= k';
    }
  }

  lemma {:induction false} ShiftKeepsWalk(a: seq<Cmd>, p: nat, n: nat, i: int, visited: set<Cmd>)
    requires p < n <= |a| && Walk(a, i, visited)
    ensures Walk(Shifted(a, p, n), i, visited)
  {
    var s := Shifted(a, p, n);
    ShiftKeepsOrder(a, p, n);
    forall k | i < k < |s| && 0 <= k ensures s[k] in visited {
      assert s[k] == a[if p <= k < n - 1 then k + 1 else k];
    }
    forall k, v | 0 <= k < |s| && v in visited && v.id <= s[k].id ensures s[k] in visited {
      assert s[k] == a[if p <= k < n - 1 then k + 1 else k];
    }
  }

  /** The same for the part of the array that the walk covers; no command appears in it anew. */
  lemma {:induction false} ShiftKeepsPrefix(a: seq<Cmd>, p: nat, n: nat, length: nat, i: int, visited: set<Cmd>)
    requires p < n <= length <= |a| && Walk(a[..length], i, visited)
    ensures Walk(Shifted(a, p, n)[..length], i, visited)
    ensures forall c :: c in Shifted(a, p, n)[..length] ==> c in a[..length]
  {
    ShiftKeepsWalk(a[..length], p, n, i, visited);
    assert a[..length][..p] == a[..p] && a[..length][p + 1..n] == a[p + 1..n];
    assert a[n - 1..][..length - n + 1] == a[..length][n - 1..];
    assert Shifted(a, p, n)[..length] == Shifted(a[..length], p, n);
  }

  lemma {:induction false} VisitKeepsWalk(a: seq<Cmd>, i: nat, visited: set<Cmd>)
    requires i < |a| && Walk(a, i, visited)
    ensures Walk(a, i - 1, visited + {a[i]})
    ensures a[i] in visited || forall v :: v in visited ==> a[i].id < v.id
  {
  }

  /** Each command is stopped for the first time only after all commands started later than it
      that are stopped at all. */
  ghost predicate ReverseOrder(stops: seq<Cmd>) {
    forall i, j :: 0 <= i < j < |stops| && stops[j] !in stops[..j] ==> stops[j].id < stops[i].id
  }

  lemma {:induction false} ReverseOrderMore(stops: seq<Cmd>, c: Cmd)
    requires ReverseOrder(stops) && (c in stops || forall d :: d in stops ==> c.id < d.id)
    ensures ReverseOrder(stops + [c])
  {
    var all := stops + [c];
    forall i, j | 0 <= i < j < |all| && all[j] !in all[..j] ensures all[j].id < all[i].id {
      assert all[..j] == stops[..j];
      if j == |stops| { assert all[..j] == stops && stops[i] in stops; }
    }
  }

  // ----- what happens between two iterations

  datatype Event = Exits(cmd: Cmd) | Starts(name: string, launch: Launch)

  ghost predicate OnlyExits(events: seq<Event>) {
    forall e :: e in events ==> e.Exits?
  }

  ghost predicate OnlyStarts(events: seq<Event>) {
    forall e :: e in events ==> e.Starts?
  }

  ghost predicate NothingStarts(events: seq<seq<Event>>) {
    forall t :: 0 <= t < |events| ==> OnlyExits(events[t])
  }

  ghost predicate NothingExits(events: seq<seq<Event>>) {
    forall t :: 0 <= t < |events| ==> OnlyStarts(events[t])
  }

  /** A walk from the end of an array: it is about to look at index i, has visited and stopped
      some commands, and began when `listed` were the commands and `startId` the next id. What is
      known of the events during the walk is in the two flags. */
  datatype Tour = Tour(i: int, visited: set<Cmd>, stops: seq<Cmd>, listed: seq<Cmd>, startId: nat,
                       noStarts: bool, noExits: bool)

  /** The commands from `listed` that are still in `cmds` are not missed. While the walked array
      is shared with the list, those behind the walk are visited; once the list has moved to a new
      array, they are visited or still ahead. */
  ghost predicate Covered(cmds: seq<Cmd>, shared: bool, ahead: seq<Cmd>, w: Tour) {
    forall p :: 0 <= p < |cmds| && cmds[p].id < w.startId ==>
      cmds[p] in w.visited || (if shared then p < |ahead| else cmds[p] in ahead)
  }

  /** While nothing starts: the stops are in order, and all the walk has seen or can see was listed. */
  ghost predicate InOrder(cmds: seq<Cmd>, shared: bool, a: seq<Cmd>, w: Tour) {
    && shared && |cmds| <= |a| && Walk(a, w.i, w.visited) && ReverseOrder(w.stops)
    && (forall c :: c in a || c in w.visited ==> c in w.listed)
  }

  /** While nothing exits: the array is as it was and the walk has seen exactly its end. */
  ghost predicate SeenEnd(cmds: seq<Cmd>, shared: bool, a: seq<Cmd>, w: Tour)
    requires -1 <= w.i < |a|
  {
    && (shared ==> |a| <= |cmds|) && a == w.listed
    && (forall c :: c in w.visited <==> c in a[w.i + 1..])
  }

  /** `a` is what the walk goes through and `cmds` is the current list. */
  ghost predicate Progress(cmds: seq<Cmd>, shared: bool, a: seq<Cmd>, w: Tour) {
    && -1 <= w.i < |a|
    && (shared ==> forall k :: 0 <= k < |a| && k < |cmds| ==> cmds[k] == a[k])
    && Covered(cmds, shared, a[..w.i + 1], w)
    && (w.noStarts ==> InOrder(cmds, shared, a, w))
    && (w.noExits ==> SeenEnd(cmds, shared, a, w))
  }

  ghost predicate Allows(w: Tour, events: seq<Event>) {
    (w.noStarts ==> OnlyExits(events)) && (w.noExits ==> OnlyStarts(events))
  }

  /** Index i is visited, and stopped unless it is spared. */
  function Visit(w: Tour, c: Cmd, spared: bool): Tour {
    w.(i := w.i - 1, visited := w.visited + {c}, stops := if spared then w.stops else w.stops + [c])
  }

  /** What was stopped of the visited commands. */
  ghost predicate StopsOf(w: Tour, includingCore: bool, coreBin: string) {
    forall c :: c in w.stops <==> c in w.visited && !Spared(c, includingCore, coreBin)
  }

  lemma {:induction false} VisitKeepsCovered(cmds: seq<Cmd>, shared: bool, a: seq<Cmd>, w: Tour, spared: bool)
    requires Progress(cmds, shared, a, w) && w.i >= 0
    ensures Covered(cmds, shared, a[..w.i], Visit(w, a[w.i], spared))
  {
    assert a[..w.i + 1] == a[..w.i] + [a[w.i]];
  }

  lemma {:induction false} VisitKeepsOrder(cmds: seq<Cmd>, shared: bool, a: seq<Cmd>, w: Tour, includingCore: bool, coreBin: string)
    requires Progress(cmds, shared, a, w) && w.i >= 0 && w.noStarts && StopsOf(w, includingCore, coreBin)
    ensures InOrder(cmds, shared, a, Visit(w, a[w.i], Spared(a[w.i], includingCore, coreBin)))
  {
    var c := a[w.i];
    VisitKeepsWalk(a, w.i, w.visited);
    if !Spared(c, includingCore, coreBin) {
      ReverseOrderMore(w.stops, c);
    }
  }

  lemma {:induction false} VisitKeepsProgress(cmds: seq<Cmd>, shared: bool, a: seq<Cmd>, w: Tour, includingCore: bool, coreBin: string)
    requires Progress(cmds, shared, a, w) && w.i >= 0 && StopsOf(w, includingCore, coreBin)
    ensures var w' := Visit(w, a[w.i], Spared(a[w.i], includingCore, coreBin));
            Progress(cmds, shared, a, w') && StopsOf(w', includingCore, coreBin)
  {
    VisitKeepsCovered(cmds, shared, a, w, Spared(a[w.i], includingCore, coreBin));
    if w.noStarts {
      VisitKeepsOrder(cmds, shared, a, w, includingCore, coreBin);
    }
    assert a[w.i..] == [a[w.i]] + a[w.i + 1..];
  }

  /** An exit handler on the shared array `before`. */
  lemma {:induction false} ExitKeepsProgress(before: seq<Cmd>, p: nat, n: nat, length: nat, w: Tour)
    requires p < n <= |before| && length <= |before| && Progress(before[..n], true, before[..length], w) && !w.noExits
    ensures Progress(Shifted(before, p, n)[..n - 1], true, Shifted(before, p, n)[..length], w)
  {
    if w.noStarts {
      ShiftKeepsPrefix(before, p, n, length, w.i, w.visited);
    }
  }

  /** An exit handler on another array than the walked one. */
  lemma {:induction false} ExitElsewhere(cmds: seq<Cmd>, p: nat, a: seq<Cmd>, w: Tour)
    requires p < |cmds| && Progress(cmds, false, a, w) && !w.noExits
    ensures Progress(RemoveAt(cmds, p), false, a, w)
  {
  }

  /** A start appends to the shared array, or moves the list to a new one and leaves the old one
      to the walk. */
  lemma {:induction false} StartKeepsProgress(st: State, name: string, launch: Launch, shared: bool, shared': bool,
                                              a: seq<Cmd>, a': seq<Cmd>, w: Tour)
    requires Progress(st.cmds, shared, a, w) && !w.noStarts && w.startId <= st.nextId && |a'| == |a|
    requires !Launched(StartOutcome(st, name, launch)) ==> a' == a && shared' == shared
    requires !shared' ==> a' == a
    requires shared' ==> shared
    requires shared' ==> forall k :: 0 <= k < |a| ==>
      a'[k] == if k < |Start(st, name, launch).cmds| then Start(st, name, launch).cmds[k] else a[k]
    ensures Progress(Start(st, name, launch).cmds, shared', a', w)
  {
    var cmds', ahead := Start(st, name, launch).cmds, a'[..w.i + 1];
    forall p | 0 <= p < |cmds'| && cmds'[p].id < w.startId
      ensures cmds'[p] in w.visited || (if shared' then p < |ahead| else cmds'[p] in ahead)
    {
      assert cmds'[p] == st.cmds[p];
      if shared && p <= w.i { assert ahead[p] == a'[p]; }
    }
  }

  lemma {:induction false} WalkBegins(cmds: seq<Cmd>, w: Tour)
    requires w.i == |cmds| - 1 && w.visited == {} && w.stops == [] && w.listed == cmds
    requires forall j, k :: 0 <= j < k < |cmds| ==> cmds[j].id < cmds[k].id
    ensures Progress(cmds, true, cmds, w)
  {
  }

  lemma {:induction false} WalkEnds(cmds: seq<Cmd>, shared: bool, a: seq<Cmd>, w: Tour, includingCore: bool, coreBin: string)
    requires Progress(cmds, shared, a, w) && w.i == -1 && StopsOf(w, includingCore, coreBin)
    requires forall c :: c in w.listed ==> c.id < w.startId
    ensures forall c :: c in cmds && c in w.listed ==> c in w.stops || Spared(c, includingCore, coreBin)
    ensures w.noStarts ==> ReverseOrder(w.stops) && forall c :: c in cmds || c in w.stops ==> c in w.listed
    ensures w.noExits ==> forall c :: c in w.stops <==> c in w.listed && !Spared(c, includingCore, coreBin)
  {
    assert a[..0] == [] && a[0..] == a;
    forall c | c in cmds && c in w.listed ensures c in w.visited {
      var p :| 0 <= p < |cmds| && cmds[p] == c;
    }
    if w.noStarts {
      forall c | c in cmds ensures c in a {
        var p :| 0 <= p < |cmds| && cmds[p] == c;
        assert a[p] == c;
      }
    }
  }

  class LauncherService {
    var plugins: map<string, Plugin>
    var backing: array<Cmd>
    var count: nat
    var nextId: nat
    ghost var waiting: set<Cmd>

    ghost predicate Valid()
      reads this
    {
      count <= backing.Length
    }

    ghost function View(): State
      requires Valid()
      reads this, backing
    {
      State(plugins, backing[..count], waiting, nextId)
    }

    constructor ()
      ensures Valid() && fresh(backing) && View() == Init
    {
      plugins, count, nextId, waiting := map[], 0, 0, {};
      backing := new Cmd[0];
    }

    /** Go's append: in the shared array if it has room, else in a new one of any greater size. */
    method Append(c: Cmd)
      requires Valid()
      modifies this`backing, this`count, backing
      ensures Valid() && count == old(count) + 1 && backing[..count] == old(backing[..count]) + [c]
      ensures backing == old(backing) || fresh(backing)
      ensures forall k :: 0 <= k < old(backing.Length) && k != old(count) ==> old(backing)[k] == old(backing[k])
      ensures backing != old(backing) ==> old(backing)[..] == old(backing[..])
    {
      if count == backing.Length {
        var content := backing[..count];
        var size :| size > count;
        backing := new Cmd[size](i => if 0 <= i < |content| then content[i] else c);
      }
      backing[count] := c;
      count := count + 1;
    }

    method StartPlugin(name: string, launch: Launch) returns (outcome: Outcome)
      requires Valid()
      modifies this, backing
      ensures Valid() && View() == Start(old(View()), name, launch)
      ensures outcome == StartOutcome(old(View()), name, launch)
      ensures backing == old(backing) || (Launched(outcome) && fresh(backing))
      ensures forall k :: 0 <= k < old(backing.Length) && k != old(count) ==> old(backing)[k] == old(backing[k])
      ensures backing != old(backing) || !Launched(outcome) ==> old(backing)[..] == old(backing[..])
    {
      if name !in plugins {
        return Unknown;
      }
      var plugin := plugins[name];
      if plugin.running {
        return AlreadyRunning;
      }
      for i := 0 to count
        invariant forall k :: 0 <= k < i ==> backing[k].path != plugin.path
      {
        if backing[i].path == plugin.path {
          assert View().cmds[i].path == plugin.path;
          return PathInUse;
        }
      }
      if launch.Fails? {
        return StartFailed;
      }
      var c := Cmd(nextId, name, plugin.path);
      Append(c);
      nextId, waiting := nextId + 1, waiting + {c};
      plugins := plugins[name := plugin.(running := true)];
      return if launch.EndsEarly? then ExitedEarly else Started;
    }

    /** The deletion in the exit handler: it shifts the shared array. */
    method DeleteAt(i: nat)
      requires Valid() && i < count
      modifies this`count, backing
      ensures Valid() && count == old(count) - 1
      ensures backing[..] == Shifted(old(backing[..]), i, old(count))
      ensures backing[..count] == RemoveAt(old(backing[..count]), i)
    {
      var k := i;
      while k < count - 1
        invariant count == old(count) && i <= k <= count - 1
        invariant forall m :: 0 <= m < backing.Length ==> backing[m] == if i <= m < k then old(backing[m + 1]) else old(backing[m])
      {
        backing[k] := backing[k + 1];
        k := k + 1;
      }
      count := count - 1;
    }

    method FindCmd(c: Cmd) returns (i: nat)
      requires Valid() && c in backing[..count]
      ensures i < count && i == IndexOf(backing[..count], c)
    {
      i := IndexOf(backing[..count], c);
    }

    /** The exit handler of a process that is still listed; p is the index it removes. */
    method HandleExit(c: Cmd) returns (ghost p: nat)
      requires Valid() && c in backing[..count]
      modifies this, backing
      ensures Valid() && backing == old(backing) && View() == Exit(old(View()), c)
      ensures p < old(count) && backing[..] == Shifted(old(backing[..]), p, old(count))
    {
      if c.plugin in plugins {
        plugins := plugins[c.plugin := plugins[c.plugin].(running := false)];
      }
      waiting := waiting - {c};
      var i := FindCmd(c);
      p := i;
      DeleteAt(i);
    }

    /** The second phase of StopPlugin, after the process was signalled. */
    method StopPlugin(name: string) returns (found: bool)
      requires Valid()
      modifies this
      ensures Valid() && View() == old(View()).(plugins := Halted(old(plugins), name))
      ensures found <==> name in old(plugins)
    {
      found := name in plugins;
      if found {
        plugins := plugins[name := plugins[name].(running := false)];
      }
    }

    /** The state of a walk through the first `length` slots of `alias`. */
    ghost predicate Walking(alias: array<Cmd>, length: nat, w: Tour)
      reads this, backing, alias
    {
      && Valid() && Inv(View()) && length <= alias.Length && w.startId <= nextId
      && Progress(backing[..count], backing == alias, alias[..length], w)
    }

    lemma {:induction false} VisitKeepsWalking(alias: array<Cmd>, length: nat, w: Tour, includingCore: bool, coreBin: string)
      requires Walking(alias, length, w) && 0 <= w.i < length && StopsOf(w, includingCore, coreBin)
      ensures var w' := Visit(w, alias[w.i], Spared(alias[w.i], includingCore, coreBin));
              Walking(alias, length, w') && StopsOf(w', includingCore, coreBin)
    {
      VisitKeepsProgress(backing[..count], backing == alias, alias[..length], w, includingCore, coreBin);
    }

    /** The exit handler of one process, if it is still listed. */
    method RunExit(c: Cmd, ghost alias: array<Cmd>, ghost length: nat, ghost w: Tour)
      requires Walking(alias, length, w) && !w.noExits
      modifies this, backing
      ensures Walking(alias, length, w) && backing == old(backing)
    {
      if c in backing[..count] {
        ghost var before, cmds, n := backing[..], backing[..count], count;
        ExitKeepsInv(View(), c);
        ghost var p := HandleExit(c);
        if backing == alias {
          assert before[..n] == cmds && before[..length] == old(alias[..length]);
          ExitKeepsProgress(before, p, n, length, w);
          assert backing[..count] == backing[..][..n - 1] && alias[..length] == backing[..][..length];
        } else {
          ExitElsewhere(cmds, IndexOf(cmds, c), alias[..length], w);
        }
      }
    }

    method RunStart(name: string, launch: Launch, ghost alias: array<Cmd>, ghost length: nat, ghost w: Tour)
      requires Walking(alias, length, w) && !w.noStarts
      modifies this, backing
      ensures Walking(alias, length, w) && (backing == old(backing) || fresh(backing))
    {
      ghost var st, a := View(), alias[..length];
      StartKeepsInv(st, name, launch);
      var _ := StartPlugin(name, launch);
      StartKeepsProgress(st, name, launch, old(backing) == alias, backing == alias, a, alias[..length], w);
    }

    method RunEvents(events: seq<Event>, ghost alias: array<Cmd>, ghost length: nat, ghost w: Tour)
      requires Walking(alias, length, w) && Allows(w, events)
      modifies this, backing
      ensures Walking(alias, length, w) && (backing == old(backing) || fresh(backing))
    {
      for k := 0 to |events|
        invariant Walking(alias, length, w) && (backing == old(backing) || fresh(backing))
      {
        assert events[k] in events;
        match events[k] {
          case Exits(c) => RunExit(c, alias, length, w);
          case Starts(name, launch) => RunStart(name, launch, alias, length, w);
        }
      }
    }

    /** The loop of StopAllPlugins, from the last index down. */
    method StopEach(includingCore: bool, coreBin: string, events: seq<seq<Event>>, cmdsToStop: array<Cmd>, length: nat, ghost start: Tour)
      returns (stops: seq<Cmd>, ghost w: Tour)
      requires Walking(cmdsToStop, length, start) && start.i == length - 1 && start.stops == [] && start.visited == {}
      requires start.noStarts ==> NothingStarts(events)
      requires start.noExits ==> NothingExits(events)
      modifies this, backing
      ensures Walking(cmdsToStop, length, w) && (backing == old(backing) || fresh(backing))
      ensures StopsOf(w, includingCore, coreBin) && w == start.(i := -1, visited := w.visited, stops := stops)
    {
      stops, w := [], start;
      var i: int := length - 1;
      while i >= 0
        invariant Walking(cmdsToStop, length, w) && (backing == old(backing) || fresh(backing))
        invariant StopsOf(w, includingCore, coreBin) && w == start.(i := i, visited := w.visited, stops := stops)
      {
        var t := length - 1 - i;
        if t < |events| {
          RunEvents(events[t], cmdsToStop, length, w);
        }
        var c := cmdsToStop[i];
        VisitKeepsWalking(cmdsToStop, length, w, includingCore, coreBin);
        w := Visit(w, c, Spared(c, includingCore, coreBin));
        if !Spared(c, includingCore, coreBin) {
          stops := stops + [c];
        }
        i := i - 1;
      }
    }

    /** Stops the commands from the last started to the first, while `events[t]` lists what exit
        handlers and starts do before iteration t. Every command listed at the start and still
        listed at the end was stopped, unless it is the core and that is excluded. If nothing is
        started nothing else is listed, and first stops come in reverse startup order. If nothing
        exits, exactly the commands listed at the start are stopped, so all started since are missed. */
    method StopAllPlugins(includingCore: bool, coreBin: string, events: seq<seq<Event>>) returns (stops: seq<Cmd>)
      requires Valid() && Inv(View())
      modifies this, backing
      ensures Valid() && Inv(View())
      ensures forall c :: c in View().cmds && c in old(View().cmds) ==> c in stops || ExcludedCore(c, includingCore, coreBin)
      ensures forall c :: c in stops ==> !ExcludedCore(c, includingCore, coreBin)
      ensures NothingStarts(events) ==>
                && ReverseOrder(stops)
                && forall c :: c in View().cmds || c in stops ==> c in old(View().cmds)
      ensures NothingExits(events) ==>
                forall c :: c in stops <==> c in old(View().cmds) && !ExcludedCore(c, includingCore, coreBin)
    {
      var length := count;
      var cmdsToStop := backing;
      ghost var w := Tour(length as int - 1, {}, [], backing[..count], nextId, NothingStarts(events), NothingExits(events));
      WalkBegins(backing[..count], w);
      stops, w := StopEach(includingCore, coreBin, events, cmdsToStop, length, w);
      forall c ensures Spared(c, includingCore, coreBin) <==> ExcludedCore(c, includingCore, coreBin) {
        SparedExactly(c, includingCore, coreBin);
      }
      WalkEnds(View().cmds, backing == cmdsToStop, cmdsToStop[..length], w, includingCore, coreBin);
    }
  }
}
