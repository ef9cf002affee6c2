/** Saving the latest-properties cache while values keep arriving. Each lock section of the
    source is one atomic step; the steps of the savers and of the adders interleave freely. */
module WriteBack {
  import opened Messages
  import opened HistoryCodec
  import opened LatestProperties

  /** A save in progress: between its lock sections it holds the things still to do, and while
      it writes it holds one serialized record. */
  datatype Saver = Idle | Saving(todo: seq<string>) | InFlight(addr: string, record: Props, todo: seq<string>)

  datatype State = State(store: Store, savers: seq<Saver>)

  datatype Step =
    | LoadProps(thing: string)
    | AddValue(tv: ThingValue)
    | Collect(saver: nat, addrs: seq<string>)
    | Marshal(saver: nat)
    | Write(saver: nat)

  function Init(records: map<string, Props>, n: nat): State {
    State(Store(map[], map[], records), seq(n, _ => Idle))
  }

  /** AddValue follows a LoadProps of the same thing; Collect sees the flagged things in any order. */
  ghost predicate Enabled(st: State, step: Step) {
    match step
    case LoadProps(_) => true
    case AddValue(tv) => Address(tv) in st.store.cache
    case Collect(i, addrs) =>
      i < |st.savers| && st.savers[i].Idle? && forall a :: a in addrs <==> st.store.Flagged(a)
    case Marshal(i) => i < |st.savers| && st.savers[i].Saving? && st.savers[i].todo != []
    case Write(i) => i < |st.savers| && st.savers[i].InFlight?
  }

  function Resume(todo: seq<string>): Saver {
    if todo == [] then Idle else Saving(todo)
  }

  function Apply(unpack: Unpacker, st: State, step: Step): State
    requires Enabled(st, step)
  {
    match step
    case LoadProps(addr) => st.(store := st.store.Load(addr))
    case AddValue(tv) => st.(store := st.store.Update(unpack, tv))
    case Collect(i, addrs) => st.(savers := st.savers[i := Resume(addrs)])
    case Marshal(i) =>
      var addr, rest := st.savers[i].todo[0], st.savers[i].todo[1..];
      var next := if addr in st.store.cache then InFlight(addr, st.store.cache[addr], rest) else Resume(rest);
      State(st.store.(changed := st.store.changed[addr := false]), st.savers[i := next])
    case Write(i) =>
      var saver := st.savers[i];
      State(st.store.(records := st.store.records[saver.addr := saver.record]), st.savers[i := Resume(saver.todo)])
  }

  ghost predicate Run(unpack: Unpacker, st: State, steps: seq<Step>, end: State)
    decreases |steps|
  {
    if steps == [] then end == st
    else Enabled(st, steps[0]) && Run(unpack, Apply(unpack, st, steps[0]), steps[1..], end)
  }

  // ----- safety

  ghost predicate HasInFlight(st: State, addr: string) {
    exists i :: 0 <= i < |st.savers| && st.savers[i].InFlight? && st.savers[i].addr == addr
                && addr in st.store.cache && st.savers[i].record == st.store.cache[addr]
  }

  /** Nothing can be lost: a cached thing without a change flag is either persisted as it is
      cached, or a save holds exactly its cached record. Flagged things are cached. */
  ghost predicate Safe(st: State) {
    && (forall a :: st.store.Flagged(a) ==> a in st.store.cache)
    && (forall a :: a in st.store.cache && !st.store.Flagged(a)
                    ==> st.store.cache[a] == st.store.Recorded(a) || HasInFlight(st, a))
  }

  /** What one saver keeps beside safety: its things are cached, and the record it holds is the
      cached one unless the thing was flagged again. */
  ghost predicate SaverInv(st: State, s: Saver) {
    match s
    case Idle => true
    case Saving(todo) => forall a :: a in todo ==> a in st.store.cache
    case InFlight(addr, record, todo) =>
      && (forall a :: a in todo ==> a in st.store.cache)
      && addr in st.store.cache
      && (st.store.Flagged(addr) || record == st.store.cache[addr])
  }

  ghost predicate Inv(st: State) {
    Safe(st) && |st.savers| <= 1 && forall i :: 0 <= i < |st.savers| ==> SaverInv(st, st.savers[i])
  }

  lemma {:induction false} KeepInFlight(st: State, st': State, a: string)
    requires HasInFlight(st, a) && st'.savers == st.savers
    requires a in st'.store.cache && st'.store.cache[a] == st.store.cache[a]
    ensures HasInFlight(st', a)
  {
  }

  lemma {:induction false} LoadKeepsInv(unpack: Unpacker, st: State, addr: string)
    requires Inv(st)
    ensures Inv(Apply(unpack, st, LoadProps(addr)))
  {
    var st' := Apply(unpack, st, LoadProps(addr));
    forall a | a in st'.store.cache && !st'.store.Flagged(a)
      ensures st'.store.cache[a] == st'.store.Recorded(a) || HasInFlight(st', a)
    {
      if a in st.store.cache && HasInFlight(st, a) { KeepInFlight(st, st', a); }
    }
  }

  lemma {:induction false} AddKeepsInv(unpack: Unpacker, st: State, tv: ThingValue)
    requires Inv(st) && Enabled(st, AddValue(tv))
    ensures Inv(Apply(unpack, st, AddValue(tv)))
  {
    var st' := Apply(unpack, st, AddValue(tv));
    forall a | a in st'.store.cache && !st'.store.Flagged(a)
      ensures st'.store.cache[a] == st'.store.Recorded(a) || HasInFlight(st', a)
    {
      if HasInFlight(st, a) { KeepInFlight(st, st', a); }
    }
  }

  lemma {:induction false} MarshalKeepsInv(unpack: Unpacker, st: State, i: nat)
    requires Inv(st) && Enabled(st, Marshal(i))
    ensures Inv(Apply(unpack, st, Marshal(i)))
  {
    var st' := Apply(unpack, st, Marshal(i));
    var addr := st.savers[i].todo[0];
    assert SaverInv(st, st.savers[i]);
    assert st'.savers[i].InFlight? && st'.savers[i].addr == addr;
    assert HasInFlight(st', addr);
    forall a | a in st'.store.cache && !st'.store.Flagged(a) && a != addr
      ensures st'.store.cache[a] == st'.store.Recorded(a)
    {
      assert !HasInFlight(st, a);
    }
  }

  lemma {:induction false} WriteKeepsInv(unpack: Unpacker, st: State, i: nat)
    requires Inv(st) && Enabled(st, Write(i))
    ensures Inv(Apply(unpack, st, Write(i)))
  {
    var st' := Apply(unpack, st, Write(i));
    assert SaverInv(st, st.savers[i]);
    assert st'.savers[i] == Resume(st.savers[i].todo);
  }

  lemma {:induction false} StepKeepsInv(unpack: Unpacker, st: State, step: Step)
    requires Inv(st) && Enabled(st, step)
    ensures Inv(Apply(unpack, st, step))
  {
    match step {
      case LoadProps(addr) => LoadKeepsInv(unpack, st, addr);
      case AddValue(tv) => AddKeepsInv(unpack, st, tv);
      case Collect(i, addrs) => assert forall a :: !HasInFlight(st, a);
      case Marshal(i) => MarshalKeepsInv(unpack, st, i);
      case Write(i) => WriteKeepsInv(unpack, st, i);
    }
  }

  /** Safety over all interleavings: with one saver every reachable state is safe. */
  lemma {:induction false} OneSaverIsSafe(unpack: Unpacker, st: State, steps: seq<Step>, end: State)
    requires Inv(st) && Run(unpack, st, steps, end)
    ensures Inv(end)
    decreases |steps|
  {
    if steps == [] {
    } else {
      StepKeepsInv(unpack, st, steps[0]);
      OneSaverIsSafe(unpack, Apply(unpack, st, steps[0]), steps[1..], end);
    }
  }

  /** The branch for a flagged thing without cached properties is never entered. */
  lemma {:induction false} MissingPropertiesUnreachable(
    unpack: Unpacker, records: map<string, Props>, n: nat, steps: seq<Step>, st: State, i: nat)
    requires n <= 1 && Run(unpack, Init(records, n), steps, st) && Enabled(st, Marshal(i))
    ensures st.savers[i].todo[0] in st.store.cache
  {
    OneSaverIsSafe(unpack, Init(records, n), steps, st);
    assert SaverInv(st, st.savers[i]);
  }

  /** At rest nothing is lost: a fresh load of any cached thing reproduces the cache. */
  lemma {:induction false} QuietMeansPersisted(
    unpack: Unpacker, records: map<string, Props>, n: nat, steps: seq<Step>, st: State, addr: string)
    requires n <= 1 && Run(unpack, Init(records, n), steps, st)
    requires (forall i :: 0 <= i < |st.savers| ==> !st.savers[i].InFlight?)
    requires addr in st.store.cache && !st.store.Flagged(addr)
    ensures Store(map[], map[], st.store.records).Load(addr).cache[addr] == st.store.cache[addr]
  {
    OneSaverIsSafe(unpack, Init(records, n), steps, st);
    assert !HasInFlight(st, addr);
  }

  // ----- an uninterrupted save

  function SaveSteps(count: nat): seq<Step> {
    if count == 0 then [] else [Marshal(0), Write(0)] + SaveSteps(count - 1)
  }

  function Elements(s: seq<string>): set<string> {
    set a | a in s
  }

  function Unflag(changed: map<string, bool>, addrs: set<string>): map<string, bool> {
    map a | a in changed.Keys + addrs :: if a in addrs then false else changed[a]
  }

  /** The steps of one save with nothing in between persist all its things at once. */
  lemma {:induction false} SaveAlone(unpack: Unpacker, store: Store, todo: seq<string>)
    requires forall a :: a in todo ==> a in store.cache
    ensures Run(unpack, State(store, [Resume(todo)]), SaveSteps(|todo|),
                State(Store(store.cache, Unflag(store.changed, Elements(todo)),
                            Saved(store.records, store.cache, Elements(todo))), [Idle]))
    decreases |todo|
  {
    if todo == [] {
      assert Unflag(store.changed, {}) == store.changed;
      assert Saved(store.records, store.cache, {}) == store.records;
    } else {
      var a, rest := todo[0], todo[1..];
      var after := SaveOne(unpack, store, todo);
      SaveAlone(unpack, after, rest);
      SaveRest(store, todo);
      var end := Store(store.cache, Unflag(store.changed, Elements(todo)),
                       Saved(store.records, store.cache, Elements(todo)));
      RunTwo(unpack, State(store, [Saving(todo)]), Marshal(0), Write(0), SaveSteps(|rest|), State(end, [Idle]));
    }
  }

  /** Marshalling and writing the first thing of a save. */
  lemma {:induction false} SaveOne(unpack: Unpacker, store: Store, todo: seq<string>) returns (after: Store)
    requires todo != [] && todo[0] in store.cache
    ensures after == Store(store.cache, store.changed[todo[0] := false],
                           store.records[todo[0] := store.cache[todo[0]]])
    ensures var st := State(store, [Saving(todo)]);
            && Enabled(st, Marshal(0)) && Enabled(Apply(unpack, st, Marshal(0)), Write(0))
            && Apply(unpack, Apply(unpack, st, Marshal(0)), Write(0)) == State(after, [Resume(todo[1..])])
  {
    after := Store(store.cache, store.changed[todo[0] := false], store.records[todo[0] := store.cache[todo[0]]]);
    var mid := Apply(unpack, State(store, [Saving(todo)]), Marshal(0));
    assert mid.savers == [InFlight(todo[0], store.cache[todo[0]], todo[1..])];
    assert Apply(unpack, mid, Write(0)).savers == [Resume(todo[1..])];
  }

  lemma {:induction false} RunTwo(unpack: Unpacker, st: State, a: Step, b: Step, rest: seq<Step>, end: State)
    requires Enabled(st, a) && Enabled(Apply(unpack, st, a), b)
    requires Run(unpack, Apply(unpack, Apply(unpack, st, a), b), rest, end)
    ensures Run(unpack, st, [a, b] + rest, end)
  {
  }

  lemma {:induction false} SaveRest(store: Store, todo: seq<string>)
    requires todo != [] && todo[0] in store.cache
    ensures var a, rest := todo[0], Elements(todo[1..]);
            && Unflag(store.changed[a := false], rest) == Unflag(store.changed, Elements(todo))
            && Saved(store.records[a := store.cache[a]], store.cache, rest)
               == Saved(store.records, store.cache, Elements(todo))
  {
    var a, rest := todo[0], Elements(todo[1..]);
    assert Elements(todo) == {a} + rest;
    UnflagRest(store.changed, a, rest);
    SavedRest(store.records, store.cache, a, rest);
  }

  lemma {:induction false} UnflagRest(changed: map<string, bool>, a: string, rest: set<string>)
    ensures Unflag(changed[a := false], rest) == Unflag(changed, {a} + rest)
  {
  }

  lemma {:induction false} SavedRest(records: map<string, Props>, cache: map<string, Props>, a: string, rest: set<string>)
    requires a in cache
    ensures Saved(records[a := cache[a]], cache, rest) == Saved(records, cache, {a} + rest)
  {
  }

  lemma {:induction false} SavedReloads(store: Store, todo: seq<string>, addr: string)
    requires Safe(State(store, [Idle])) && addr in store.cache
    requires forall a :: a in todo <==> store.Flagged(a)
    ensures Store(map[], map[], Saved(store.records, store.cache, Elements(todo))).Load(addr).cache[addr]
         == store.cache[addr]
  {
    assert !HasInFlight(State(store, [Idle]), addr);
  }

  /** From any state of any run, an uninterrupted save ends with the same cache, no flag and no save
      in progress, and with records from which a fresh load reproduces the cache of every thing. */
  lemma {:induction false} SaveThenReload(
    unpack: Unpacker, records: map<string, Props>, steps: seq<Step>, st: State, addrs: seq<string>)
    returns (end: State)
    requires Run(unpack, Init(records, 1), steps, st) && st.savers == [Idle] && Enabled(st, Collect(0, addrs))
    ensures Run(unpack, st, [Collect(0, addrs)] + SaveSteps(|addrs|), end)
    ensures end.store.cache == st.store.cache && end.savers == [Idle]
    ensures forall a :: !end.store.Flagged(a)
    ensures forall a :: a in st.store.cache ==>
              Store(map[], map[], end.store.records).Load(a).cache[a] == st.store.cache[a]
  {
    OneSaverIsSafe(unpack, Init(records, 1), steps, st);
    var store := st.store;
    assert st == State(store, [Idle]);
    assert Apply(unpack, st, Collect(0, addrs)) == State(store, [Resume(addrs)]);
    SaveAlone(unpack, store, addrs);
    end := State(Store(store.cache, Unflag(store.changed, Elements(addrs)),
                       Saved(store.records, store.cache, Elements(addrs))), [Idle]);
    var save := [Collect(0, addrs)] + SaveSteps(|addrs|);
    assert save[0] == Collect(0, addrs) && save[1..] == SaveSteps(|addrs|);
    forall a | a in store.cache
      ensures Store(map[], map[], end.store.records).Load(a).cache[a] == store.cache[a]
    {
      SavedReloads(store, addrs, a);
    }
  }

  // ----- why one saver

  lemma {:induction false} RunMore(unpack: Unpacker, st: State, steps: seq<Step>, mid: State, step: Step)
    requires Run(unpack, st, steps, mid) && Enabled(mid, step)
    ensures Run(unpack, st, steps + [step], Apply(unpack, mid, step))
    decreases |steps|
  {
    if steps == [] {
      assert [step][1..] == [];
    } else {
      RunMore(unpack, Apply(unpack, st, steps[0]), steps[1..], mid, step);
      assert (steps + [step])[1..] == steps[1..] + [step];
    }
  }

  ghost predicate Reachable(unpack: Unpacker, start: State, end: State) {
    exists steps :: Run(unpack, start, steps, end)
  }

  lemma {:induction false} Extend(unpack: Unpacker, start: State, mid: State, step: Step) returns (end: State)
    requires Reachable(unpack, start, mid) && Enabled(mid, step)
    ensures Reachable(unpack, start, end) && end == Apply(unpack, mid, step)
  {
    var steps :| Run(unpack, start, steps, mid);
    RunMore(unpack, start, steps, mid, step);
    end := Apply(unpack, mid, step);
  }

  /** A value arrives and a save takes its record: the record is in flight, the flag is down. */
  lemma {:induction false} AddAndMarshal(unpack: Unpacker, start: State, before: State, i: nat, v: ThingValue)
    returns (end: State)
    requires Reachable(unpack, start, before)
    requires Address(v) in before.store.cache && before.store.changed.Keys <= {Address(v)}
    requires v.name != EventNameProps && i < |before.savers| && before.savers[i].Idle?
    ensures Reachable(unpack, start, end)
    ensures var addr := Address(v);
            var record := Merge(before.store.cache[addr], map[v.name := v]);
            && end.store == Store(before.store.cache[addr := record], map[addr := false], before.store.records)
            && end.savers == before.savers[i := InFlight(addr, record, [])]
  {
    var addr := Address(v);
    end := Extend(unpack, start, before, AddValue(v));
    assert end.store.changed == map[addr := true] && end.store.Flagged(addr);
    assert end.savers == before.savers;
    end := Extend(unpack, start, end, Collect(i, [addr]));
    assert [addr][1..] == [];
    end := Extend(unpack, start, end, Marshal(i));
    assert end.store.changed == map[addr := false];
    var record := Merge(before.store.cache[addr], map[v.name := v]);
    assert Offered(unpack, v) == map[v.name := v];
    assert end.savers == before.savers[i := InFlight(addr, record, [])];
  }

  /** The newer record is written before the older one. */
  lemma {:induction false} WriteOutOfOrder(unpack: Unpacker, start: State, before: State, addr: string, older: Props, newer: Props)
    returns (end: State)
    requires Reachable(unpack, start, before) && older != newer && |before.savers| >= 2
    requires before.store == Store(map[addr := newer], map[addr := false], map[])
    requires before.savers[0] == InFlight(addr, older, []) && before.savers[1] == InFlight(addr, newer, [])
    requires forall i :: 2 <= i < |before.savers| ==> before.savers[i].Idle?
    ensures Reachable(unpack, start, end) && !Safe(end)
  {
    end := Extend(unpack, start, before, Write(1));
    end := Extend(unpack, start, end, Write(0));
    assert end.store.Recorded(addr) == older && end.store.cache[addr] == newer;
    assert !end.store.Flagged(addr) && !HasInFlight(end, addr);
  }

  /** The first saver holds the first value of a thing. */
  lemma {:induction false} FirstTaken(unpack: Unpacker, n: nat, v: ThingValue) returns (end: State)
    requires n >= 1 && v.name != EventNameProps
    ensures Reachable(unpack, Init(map[], n), end)
    ensures var addr, record := Address(v), map[v.name := v];
            && end.store == Store(map[addr := record], map[addr := false], map[])
            && end.savers == Init(map[], n).savers[0 := InFlight(addr, record, [])]
  {
    var addr, start := Address(v), Init(map[], n);
    var none: Props, record: Props := map[], map[v.name := v];
    assert Run(unpack, start, [], start);
    end := Extend(unpack, start, start, LoadProps(addr));
    assert end.store == Store(map[addr := none], map[], map[]);
    assert Merge(none, record) == record;
    end := AddAndMarshal(unpack, start, end, 0, v);
    assert end.store == Store(map[addr := record], map[addr := false], map[]);
  }

  /** Two savers can lose an update: the second one persists a newer record, then the first one
      overwrites it with the older record it was still holding. */
  lemma {:induction false} TwoSaversLoseAnUpdate(unpack: Unpacker, n: nat, v1: ThingValue, v2: ThingValue) returns (end: State)
    requires n >= 2 && Address(v1) == Address(v2) && v1.name == v2.name != EventNameProps
    requires v1.createdMSec < v2.createdMSec
    ensures Reachable(unpack, Init(map[], n), end) && !Safe(end)
  {
    var addr, start := Address(v1), Init(map[], n);
    var older: Props, newer: Props := map[v1.name := v1], map[v1.name := v2];
    end := FirstTaken(unpack, n, v1);
    assert Merge(older, newer) == newer;
    end := AddAndMarshal(unpack, start, end, 1, v2);
    assert end.store == Store(map[addr := newer], map[addr := false], map[]);
    assert older[v1.name] != newer[v1.name];
    end := WriteOutOfOrder(unpack, start, end, addr, older, newer);
  }

  /** The saving protocol is safe in every run if and only if at most one save runs at a time. */
  lemma {:induction false} SafeIffOneSaver(unpack: Unpacker, n: nat)
    ensures (forall records, end :: Reachable(unpack, Init(records, n), end) ==> Safe(end)) <==> n <= 1
  {
    if n <= 1 {
      forall records, end | Reachable(unpack, Init(records, n), end) ensures Safe(end) {
        var steps :| Run(unpack, Init(records, n), steps, end);
        OneSaverIsSafe(unpack, Init(records, n), steps, end);
      }
    } else {
      var v := ThingValue("agent", "thing", "level", [], 1, "agent", MessageTypeEvent);
      var end := TwoSaversLoseAnUpdate(unpack, n, v, v.(createdMSec := 2));
    }
  }
}
