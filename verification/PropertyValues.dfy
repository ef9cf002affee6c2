/** Property values with change tracking: consumers read the values changed since last time. */
module PropertyValues {
  import opened Text

  type Values = map<string, string>

  datatype Tracked = Tracked(latest: Values, changed: Values) {
    /** Only a new name or a different value counts as a change. */
    function Set(key: string, value: string): Tracked {
      if key in latest && latest[key] == value then this
      else Tracked(latest[key := value], changed[key := value])
    }

    function Cleared(): Tracked {
      this.(changed := map[])
    }
  }

  class PropertyValues {
    var latest: Values
    var changed: Values

    constructor ()
      ensures View() == Tracked(map[], map[])
    {
      latest, changed := map[], map[];
    }

    function View(): Tracked
      reads this
    {
      Tracked(latest, changed)
    }

    method SetValue(key: string, newValue: string)
      modifies this
      ensures View() == old(View()).Set(key, newValue)
    {
      if key !in latest || latest[key] != newValue {
        latest := latest[key := newValue];
        changed := changed[key := newValue];
      }
    }

    method GetLatest() returns (v: Values)
      ensures v == latest
    {
      v := latest;
    }

    method GetChanged(clear: bool) returns (v: Values)
      modifies this`changed
      ensures v == old(changed)
      ensures View() == if clear then old(View()).Cleared() else old(View())
    {
      v := changed;
      if clear {
        changed := map[];
      }
    }

    method GetValues(onlyChanges: bool) returns (v: Values)
      modifies this`changed
      ensures v == if onlyChanges then old(changed) else old(latest)
      ensures View() == old(View()).Cleared()
    {
      if onlyChanges {
        v := GetChanged(true);
      } else {
        v := GetLatest();
      }
      changed := map[];
    }
  }

  // ----- a consumer that overlays what it reads onto its own map

  datatype State = State(pv: Tracked, consumer: Values)

  datatype Step = SetStep(key: string, value: string) | TakeChanges | TakeAll | Peek

  function Apply(st: State, step: Step): State {
    match step
    case SetStep(key, value) => st.(pv := st.pv.Set(key, value))
    case TakeChanges => State(st.pv.Cleared(), st.consumer + st.pv.changed)
    case TakeAll => State(st.pv.Cleared(), st.consumer + st.pv.latest)
    case Peek => st
  }

  function After(steps: seq<Step>): State {
    if steps == [] then State(Tracked(map[], map[]), map[])
    else Apply(After(steps[..|steps| - 1]), steps[|steps| - 1])
  }

  /** Nothing is lost or invented: what the consumer has, overlaid with the pending changes, is
      the latest; and each pending change is the latest value of its name. */
  ghost predicate Conserved(st: State) {
    && st.consumer + st.pv.changed == st.pv.latest
    && forall k :: k in st.pv.changed ==> k in st.pv.latest && st.pv.changed[k] == st.pv.latest[k]
  }

  /** Conservation over every run of atomic operations. */
  lemma {:induction false} RunConserves(steps: seq<Step>)
    ensures Conserved(After(steps))
  {
    if steps == [] {
    } else {
      var st, step := After(steps[..|steps| - 1]), steps[|steps| - 1];
      RunConserves(steps[..|steps| - 1]);
      match step {
        case SetStep(key, value) =>
          assert Apply(st, step).consumer + Apply(st, step).pv.changed == Apply(st, step).pv.latest;
        case TakeChanges =>
        case TakeAll =>
          assert st.consumer + st.pv.latest == st.pv.latest;
        case Peek =>
      }
    }
  }

  /** The value last set for a name. */
  function LastSet(steps: seq<Step>, k: string): Option<string> {
    if steps == [] then None
    else
      var last := steps[|steps| - 1];
      if last.SetStep? && last.key == k then Some(last.value) else LastSet(steps[..|steps| - 1], k)
  }

  /** Since the changes were last taken, the name was set to another value than it had. */
  predicate ChangedSince(steps: seq<Step>, k: string) {
    steps != [] &&
    var before, last := steps[..|steps| - 1], steps[|steps| - 1];
    match last
    case SetStep(key, value) => ChangedSince(before, k) || (key == k && LastSet(before, k) != Some(value))
    case TakeChanges => false
    case TakeAll => false
    case Peek => ChangedSince(before, k)
  }

  /** Over every run the latest value of a name is the last one set, and it is pending if and only
      if the name changed since the changes were last taken; setting an equal value is no change. */
  lemma {:induction false} RunTracks(steps: seq<Step>, k: string)
    ensures var pv := After(steps).pv;
            && (if k in pv.latest then LastSet(steps, k) == Some(pv.latest[k]) else LastSet(steps, k) == None)
            && (k in pv.changed <==> ChangedSince(steps, k))
            && (k in pv.changed ==> LastSet(steps, k) == Some(pv.changed[k]))
  {
    if steps == [] {
    } else {
      RunTracks(steps[..|steps| - 1], k);
    }
  }

  // ----- GetValues is not atomic: it drops the changes in a second, unlocked step

  function SetAll(pv: Tracked, sets: seq<(string, string)>): Tracked {
    if sets == [] then pv
    else SetAll(pv, sets[..|sets| - 1]).Set(sets[|sets| - 1].0, sets[|sets| - 1].1)
  }

  /** The last value set for each name. */
  function Written(sets: seq<(string, string)>): Values {
    if sets == [] then map[]
    else Written(sets[..|sets| - 1])[sets[|sets| - 1].0 := sets[|sets| - 1].1]
  }

  lemma {:induction false} SetAllWrites(pv: Tracked, sets: seq<(string, string)>)
    ensures SetAll(pv, sets).latest == pv.latest + Written(sets)
  {
    if sets == [] {
      assert pv.latest + map[] == pv.latest;
    } else {
      SetAllWrites(pv, sets[..|sets| - 1]);
    }
  }

  /** The state after a GetValues of either kind with values set between its two steps. */
  function SplitGetValues(st: State, sets: seq<(string, string)>, onlyChanges: bool): State {
    var pv := SetAll(if onlyChanges then st.pv.Cleared() else st.pv, sets);
    State(pv.Cleared(), st.consumer + if onlyChanges then st.pv.changed else st.pv.latest)
  }

  /** Nothing is lost if and only if every name set in between ends with the value it had. */
  lemma {:induction false} SplitGetValuesExact(st: State, sets: seq<(string, string)>, onlyChanges: bool)
    requires Conserved(st)
    ensures Conserved(SplitGetValues(st, sets, onlyChanges))
       <==> forall k :: k in Written(sets) ==> k in st.pv.latest && Written(sets)[k] == st.pv.latest[k]
  {
    var end, w := SplitGetValues(st, sets, onlyChanges), Written(sets);
    SetAllWrites(if onlyChanges then st.pv.Cleared() else st.pv, sets);
    assert end.pv.latest == st.pv.latest + w;
    assert st.consumer + st.pv.latest == st.pv.latest;
    assert end.consumer + end.pv.changed == st.pv.latest;
    if st.pv.latest == st.pv.latest + w {
      forall k | k in w ensures k in st.pv.latest && w[k] == st.pv.latest[k] {
        assert (st.pv.latest + w)[k] == w[k];
      }
    }
  }

  /** A change that is lost: the value is 1 when all values are read, becomes 2, and the changes
      are dropped; the consumer keeps 1 and nothing is pending. */
  lemma {:induction false} ChangeIsLost()
    ensures var st := After([SetStep("level", "1")]);
            var end := SplitGetValues(st, [("level", "2")], false);
            && end.pv.latest == map["level" := "2"] && end.pv.changed == map[]
            && end.consumer == map["level" := "1"] && !Conserved(end)
  {
    var one, two: Values := map["level" := "1"], map["level" := "2"];
    var start, sets := State(Tracked(map[], map[]), map[]), [("level", "2")];
    assert [SetStep("level", "1")][..0] == [] && sets[..0] == [];
    assert After([]) == start && Apply(start, SetStep("level", "1")) == State(Tracked(one, one), map[]);
    assert SetAll(Tracked(one, one), []) == Tracked(one, one);
    assert SetAll(Tracked(one, one), sets) == Tracked(two, two);
    assert map[] + one == one && one + map[] == one && one["level"] != two["level"];
  }
}
