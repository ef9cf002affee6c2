/** The cache of remote cursors: handed out under generated keys, released by their owner or
    by a background sweep. */
module CursorCache {
  import opened Text

  /** `cursor` identifies the cursor object; times and durations are in nanoseconds. */
  datatype Info = Info(key: string, cursor: nat, owner: string, lastUsed: int, lifespan: Int64)

  /** The zero time.Time, which Add leaves in lastUsed. */
  const ZeroTime: int := -62135596800 * 1_000_000_000

  /** The counter is a uint64 and wraps around. */
  const TwoTo64: nat := 0x1_0000_0000_0000_0000

  /** time.Time.Sub, which saturates at the largest and smallest duration. */
  function Sub(a: int, b: int): int {
    if a - b > MaxInt64 then MaxInt64 else if a - b < MinInt64 then MinInt64 else a - b
  }

  /** Last used longer ago than the lifespan; the longest lifespan never ends. */
  predicate Expired(ci: Info, now: int): (expired: bool)
    ensures expired <==> now - ci.lastUsed > ci.lifespan && ci.lifespan < MaxInt64
  {
    Sub(now, ci.lastUsed) > ci.lifespan
  }

  datatype GetResult = Cursor(cursor: nat) | NotFound | OtherOwner

  // ----- the guarded table, one function per locked section

  datatype Table = Table(byKey: map<string, Info>, counter: nat) {
    function NextCounter(): nat {
      (counter + 1) % TwoTo64
    }

    function Fresh(cursor: nat, owner: string, lifespan: Int64): Info {
      Info(FormatUint(NextCounter(), 16), cursor, owner, ZeroTime, lifespan)
    }

    function Add(cursor: nat, owner: string, lifespan: Int64): Table {
      var ci := Fresh(cursor, owner, lifespan);
      Table(byKey[ci.key := ci], NextCounter())
    }

    function Get(key: string, client: string): GetResult {
      if key !in byKey then NotFound
      else if byKey[key].owner != client then OtherOwner
      else Cursor(byKey[key].cursor)
    }

    function Touch(key: string, client: string, update: bool, now: int): Table {
      if Get(key, client).Cursor? && update then this.(byKey := byKey[key := byKey[key].(lastUsed := now)]) else this
    }

    ghost predicate Holds(ci: Info) {
      exists k :: k in byKey && byKey[k] == ci
    }

    predicate Releases(client: string, key: string) {
      key in byKey && byKey[key].owner == client
    }

    function Release(client: string, key: string): Table {
      if Releases(client, key) then this.(byKey := byKey - {key}) else this
    }
  }

  ghost predicate OwnKeys(byKey: map<string, Info>) {
    forall k :: k in byKey ==> byKey[k].key == k
  }

  ghost predicate DifferentKeys(cursors: seq<Info>) {
    forall i, j :: 0 <= i < j < |cursors| ==> cursors[i].key != cursors[j].key
  }

  class CursorCache {
    var cursorsByKey: map<string, Info>
    var cursorCounter: nat

    constructor ()
      ensures View() == Table(map[], 1)
    {
      cursorsByKey, cursorCounter := map[], 1;
    }

    function View(): Table
      reads this
    {
      Table(cursorsByKey, cursorCounter)
    }

    method Add(cursor: nat, owner: string, lifespan: Int64) returns (key: string)
      modifies this
      ensures View() == old(View()).Add(cursor, owner, lifespan)
      ensures key == old(View()).Fresh(cursor, owner, lifespan).key && key in cursorsByKey
    {
      cursorCounter := (cursorCounter + 1) % TwoTo64;
      key := FormatUint(cursorCounter, 16);
      cursorsByKey := cursorsByKey[key := Info(key, cursor, owner, ZeroTime, lifespan)];
    }

    method Get(key: string, client: string, update: bool, now: int) returns (r: GetResult)
      modifies this
      ensures r == old(View()).Get(key, client)
      ensures View() == old(View()).Touch(key, client, update, now)
    {
      if key !in cursorsByKey {
        return NotFound;
      }
      var ci := cursorsByKey[key];
      if ci.owner != client {
        return OtherOwner;
      }
      if update {
        cursorsByKey := cursorsByKey[key := ci.(lastUsed := now)];
      }
      return Cursor(ci.cursor);
    }

    /** The expired cursors in no particular order; each once, if every cursor is held under its own
        key. */
    method GetExpiredCursors(now: int) returns (expired: seq<Info>)
      ensures forall ci :: ci in expired <==> View().Holds(ci) && Expired(ci, now)
      ensures OwnKeys(cursorsByKey) ==> DifferentKeys(expired)
    {
      expired := [];
      var todo := cursorsByKey.Keys;
      while todo != {}
        invariant todo <= cursorsByKey.Keys
        invariant forall ci :: ci in expired <==>
                    exists k :: k in cursorsByKey && k !in todo && cursorsByKey[k] == ci && Expired(ci, now)
        invariant OwnKeys(cursorsByKey) ==> DifferentKeys(expired)
        decreases todo
      {
        var k :| k in todo;
        if Expired(cursorsByKey[k], now) {
          assert forall i :: 0 <= i < |expired| ==> expired[i] in expired;
          expired := expired + [cursorsByKey[k]];
        }
        todo := todo - {k};
      }
    }

    method Release(client: string, key: string) returns (ok: bool, freed: Option<Info>)
      modifies this
      ensures View() == old(View()).Release(client, key)
      ensures freed == if old(View()).Releases(client, key) then Some(old(cursorsByKey)[key]) else None
      ensures ok <==> key !in old(cursorsByKey) || old(cursorsByKey)[key].owner == client
    {
      if key !in cursorsByKey {
        return true, None;
      }
      var ci := cursorsByKey[key];
      if ci.owner != client {
        return false, None;
      }
      cursorsByKey := cursorsByKey - {key};
      return true, Some(ci);
    }
  }

  // ----- runs: clients and the sweeper interleave between locked sections

  /** `added` and `released` log the run; `sweep` is what the sweeper has still to release from
      the snapshot it took at time `sweptAt`, when `sweptBefore` cursors had been added. */
  datatype State = State(
    table: Table, added: seq<Info>, released: seq<Info>, sweep: seq<Info>, sweptBefore: nat, sweptAt: int)

  datatype Step =
    | AddCursor(cursor: nat, owner: string, lifespan: Int64)
    | GetCursor(key: string, client: string, update: bool, now: int)
    | ReleaseCursor(client: string, key: string)
    | Snapshot(now: int, expired: seq<Info>)
    | SweepOne

  const Init: State := State(Table(map[], 1), [], [], [], 0, 0)

  ghost predicate Enabled(st: State, step: Step) {
    match step
    case AddCursor(_, _, _) => true
    case GetCursor(_, _, _, _) => true
    case ReleaseCursor(_, _) => true
    case Snapshot(now, expired) =>
      st.sweep == [] && forall ci :: ci in expired <==> st.table.Holds(ci) && Expired(ci, now)
    case SweepOne => st.sweep != []
  }

  function ReleaseIn(st: State, client: string, key: string): State {
    st.(table := st.table.Release(client, key),
        released := if st.table.Releases(client, key) then st.released + [st.table.byKey[key]] else st.released)
  }

  function Apply(st: State, step: Step): State
    requires Enabled(st, step)
  {
    match step
    case AddCursor(cursor, owner, lifespan) =>
      st.(table := st.table.Add(cursor, owner, lifespan),
          added := st.added + [st.table.Fresh(cursor, owner, lifespan)])
    case GetCursor(key, client, update, now) => st.(table := st.table.Touch(key, client, update, now))
    case ReleaseCursor(client, key) => ReleaseIn(st, client, key)
    case Snapshot(now, expired) => st.(sweep := expired, sweptBefore := |st.added|, sweptAt := now)
    case SweepOne =>
      var st' := ReleaseIn(st, st.sweep[0].owner, st.sweep[0].key);
      st'.(sweep := st.sweep[1..])
  }

  ghost predicate Run(st: State, steps: seq<Step>, end: State)
    decreases |steps|
  {
    if steps == [] then end == st
    else Enabled(st, steps[0]) && Run(Apply(st, steps[0]), steps[1..], end)
  }

  // ----- generated keys

  /** The key of the j-th cursor added. */
  function KeyOf(j: nat): string {
    FormatUint((j + 2) % TwoTo64, 16)
  }

  lemma {:induction false} ShiftedMod(i: nat, j: nat)
    ensures (i + 2) % TwoTo64 == (j + 2) % TwoTo64 <==> i % TwoTo64 == j % TwoTo64
  {
  }

  /** Two keys of a run coincide if and only if a multiple of 2^64 adds lies between them. */
  lemma {:induction false} KeysRepeat(i: nat, j: nat)
    ensures KeyOf(i) == KeyOf(j) <==> i % TwoTo64 == j % TwoTo64
  {
    ShiftedMod(i, j);
    if KeyOf(i) == KeyOf(j) {
      FormatUintInjective((i + 2) % TwoTo64, (j + 2) % TwoTo64, 16);
    }
  }

  lemma {:induction false} KeysDiffer(i: nat, j: nat)
    requires i < TwoTo64 && j < TwoTo64 && i != j
    ensures KeyOf(i) != KeyOf(j)
  {
    KeysRepeat(i, j);
  }

  // ----- the invariant

  predicate SameCursor(a: Info, b: Info) {
    a.key == b.key && a.cursor == b.cursor && a.owner == b.owner && a.lifespan == b.lifespan
  }

  /** `ci` is one of the first n cursors added. */
  ghost predicate AddedAmong(added: seq<Info>, ci: Info, n: nat) {
    exists j :: 0 <= j < n && j < |added| && SameCursor(added[j], ci)
  }

  ghost predicate WasReleased(released: seq<Info>, key: string) {
    exists i :: 0 <= i < |released| && released[i].key == key
  }

  ghost predicate KeysIssued(counter: nat, added: seq<Info>) {
    && |added| <= TwoTo64 && counter == (|added| + 1) % TwoTo64
    && forall j :: 0 <= j < |added| ==> added[j].key == KeyOf(j)
  }

  ghost predicate HeldAdded(byKey: map<string, Info>, added: seq<Info>) {
    OwnKeys(byKey) && forall k :: k in byKey ==> AddedAmong(added, byKey[k], |added|)
  }

  ghost predicate ReleasedOnce(released: seq<Info>, byKey: map<string, Info>, added: seq<Info>) {
    && (forall i :: 0 <= i < |released| ==> AddedAmong(added, released[i], |added|) && released[i].key !in byKey)
    && DifferentKeys(released)
  }

  ghost predicate NoneLost(added: seq<Info>, byKey: map<string, Info>, released: seq<Info>) {
    forall j :: 0 <= j < |added| ==> added[j].key in byKey || WasReleased(released, added[j].key)
  }

  /** What the sweeper has still to release was added, and expired, when it looked. */
  ghost predicate SweepSeen(sweep: seq<Info>, added: seq<Info>, before: nat, at: int) {
    forall i :: 0 <= i < |sweep| ==> AddedAmong(added, sweep[i], before) && Expired(sweep[i], at)
  }

  ghost predicate Inv(st: State) {
    && KeysIssued(st.table.counter, st.added)
    && HeldAdded(st.table.byKey, st.added)
    && ReleasedOnce(st.released, st.table.byKey, st.added)
    && NoneLost(st.added, st.table.byKey, st.released)
    && SweepSeen(st.sweep, st.added, st.sweptBefore, st.sweptAt)
  }

  // ----- adding

  lemma {:induction false} FreshKey(st: State, cursor: nat, owner: string, lifespan: Int64)
    requires KeysIssued(st.table.counter, st.added) && |st.added| < TwoTo64
    ensures st.table.Fresh(cursor, owner, lifespan).key == KeyOf(|st.added|)
    ensures st.table.NextCounter() == (|st.added| + 2) % TwoTo64
  {
  }

  lemma {:induction false} StillAdded(added: seq<Info>, more: Info, ci: Info, m: nat)
    requires AddedAmong(added, ci, m)
    ensures AddedAmong(added + [more], ci, m) && AddedAmong(added + [more], ci, |added| + 1)
  {
    var j :| 0 <= j < m && j < |added| && SameCursor(added[j], ci);
    assert (added + [more])[j] == added[j];
  }

  /** The key of a new cursor is not the key of any cursor added before. */
  lemma {:induction false} NewKey(added: seq<Info>, ci: Info)
    requires |added| < TwoTo64 && (forall j :: 0 <= j < |added| ==> added[j].key == KeyOf(j))
    requires AddedAmong(added, ci, |added|)
    ensures ci.key != KeyOf(|added|)
  {
    var j :| 0 <= j < |added| && SameCursor(added[j], ci);
    KeysDiffer(j, |added|);
  }

  lemma {:induction false} AddKeepsInv(st: State, cursor: nat, owner: string, lifespan: Int64)
    requires Inv(st) && |st.added| < TwoTo64
    ensures Inv(Apply(st, AddCursor(cursor, owner, lifespan)))
  {
    FreshKey(st, cursor, owner, lifespan);
    AddInfoKeepsInv(st, st.table.Fresh(cursor, owner, lifespan));
  }

  lemma {:induction false} AddInfoKeepsInv(st: State, ci: Info)
    requires Inv(st) && |st.added| < TwoTo64 && ci.key == KeyOf(|st.added|)
    ensures Inv(st.(table := Table(st.table.byKey[ci.key := ci], (|st.added| + 2) % TwoTo64), added := st.added + [ci]))
  {
    var n, added, byKey := |st.added|, st.added + [ci], st.table.byKey[ci.key := ci];
    assert added[n] == ci && AddedAmong(added, ci, n + 1);
    forall k | k in byKey ensures byKey[k].key == k && AddedAmong(added, byKey[k], n + 1) {
      if k != ci.key { StillAdded(st.added, ci, st.table.byKey[k], n); }
    }
    forall i | 0 <= i < |st.released|
      ensures AddedAmong(added, st.released[i], n + 1) && st.released[i].key !in byKey
    {
      StillAdded(st.added, ci, st.released[i], n);
      NewKey(st.added, st.released[i]);
    }
    forall i | 0 <= i < |st.sweep| ensures AddedAmong(added, st.sweep[i], st.sweptBefore) {
      StillAdded(st.added, ci, st.sweep[i], st.sweptBefore);
    }
  }

  // ----- releasing and using

  lemma {:induction false} StillReleased(released: seq<Info>, ci: Info, key: string)
    requires WasReleased(released, key) || key == ci.key
    ensures WasReleased(released + [ci], key)
  {
    if WasReleased(released, key) {
      var i :| 0 <= i < |released| && released[i].key == key;
      assert (released + [ci])[i] == released[i];
    } else {
      assert (released + [ci])[|released|] == ci;
    }
  }

  lemma {:induction false} ReleaseKeepsInv(st: State, client: string, key: string)
    requires Inv(st)
    ensures Inv(ReleaseIn(st, client, key))
  {
    if st.table.Releases(client, key) {
      var ci := st.table.byKey[key];
      forall j | 0 <= j < |st.added|
        ensures st.added[j].key in st.table.byKey - {key} || WasReleased(st.released + [ci], st.added[j].key)
      {
        if st.added[j].key == key || st.added[j].key !in st.table.byKey {
          StillReleased(st.released, ci, st.added[j].key);
        }
      }
    }
  }

  lemma {:induction false} TouchKeepsInv(st: State, key: string, client: string, update: bool, now: int)
    requires Inv(st)
    ensures Inv(Apply(st, GetCursor(key, client, update, now)))
  {
    var byKey := st.table.Touch(key, client, update, now).byKey;
    forall k | k in byKey ensures byKey[k].key == k && AddedAmong(st.added, byKey[k], |st.added|) {
      var j :| 0 <= j < |st.added| && SameCursor(st.added[j], st.table.byKey[k]);
      assert SameCursor(st.added[j], byKey[k]);
    }
  }

  lemma {:induction false} StepKeepsInv(st: State, step: Step)
    requires Inv(st) && Enabled(st, step) && (step.AddCursor? ==> |st.added| < TwoTo64)
    ensures Inv(Apply(st, step))
  {
    match step {
      case AddCursor(cursor, owner, lifespan) => AddKeepsInv(st, cursor, owner, lifespan);
      case GetCursor(key, client, update, now) => TouchKeepsInv(st, key, client, update, now);
      case ReleaseCursor(client, key) => ReleaseKeepsInv(st, client, key);
      case Snapshot(now, expired) =>
        forall i | 0 <= i < |expired| ensures AddedAmong(st.added, expired[i], |st.added|) && Expired(expired[i], now) {
          assert expired[i] in expired;
          var k :| k in st.table.byKey && st.table.byKey[k] == expired[i];
        }
      case SweepOne =>
        ReleaseKeepsInv(st, st.sweep[0].owner, st.sweep[0].key);
        assert forall i :: 0 <= i < |st.sweep[1..]| ==> st.sweep[1..][i] == st.sweep[i + 1];
    }
  }

  lemma {:induction false} AddedGrows(st: State, steps: seq<Step>, end: State)
    requires Run(st, steps, end)
    ensures |st.added| <= |end.added|
    decreases |steps|
  {
    if steps == [] {
    } else {
      AddedGrows(Apply(st, steps[0]), steps[1..], end);
    }
  }

  lemma {:induction false} RunKeepsInv(st: State, steps: seq<Step>, end: State)
    requires Inv(st) && Run(st, steps, end) && |end.added| <= TwoTo64
    ensures Inv(end)
    decreases |steps|
  {
    if steps == [] {
    } else {
      AddedGrows(Apply(st, steps[0]), steps[1..], end);
      StepKeepsInv(st, steps[0]);
      RunKeepsInv(Apply(st, steps[0]), steps[1..], end);
    }
  }

  // ----- what the runs guarantee

  /** Conservation: in every run of at most 2^64 adds the generated keys are all different, and
      each cursor added is either in the table or was released exactly once. */
  lemma {:induction false} Conservation(steps: seq<Step>, end: State)
    requires Run(Init, steps, end) && |end.added| <= TwoTo64
    ensures forall i, j :: 0 <= i < j < |end.added| ==> end.added[i].key != end.added[j].key
    ensures forall j :: 0 <= j < |end.added| ==>
              (end.added[j].key in end.table.byKey <==> !WasReleased(end.released, end.added[j].key))
    ensures forall i, j :: 0 <= i < j < |end.released| ==> end.released[i].key != end.released[j].key
    ensures forall i :: 0 <= i < |end.released| ==> AddedAmong(end.added, end.released[i], |end.added|)
  {
    assert Inv(Init);
    RunKeepsInv(Init, steps, end);
    forall i, j | 0 <= i < j < |end.added| ensures end.added[i].key != end.added[j].key {
      KeysDiffer(i, j);
    }
  }

  // ----- the log against the calls

  /** The calls of Add in a run. */
  function Adds(steps: seq<Step>): (adds: seq<Step>)
    ensures forall j :: 0 <= j < |adds| ==> adds[j].AddCursor?
  {
    if steps == [] then [] else (if steps[0].AddCursor? then [steps[0]] else []) + Adds(steps[1..])
  }

  /** A logged cursor is what the call added, not yet used. */
  predicate LoggedAs(ci: Info, add: Step) {
    add.AddCursor? && ci.cursor == add.cursor && ci.owner == add.owner && ci.lifespan == add.lifespan && ci.lastUsed == ZeroTime
  }

  lemma {:induction false} AddedLog(st: State, steps: seq<Step>, end: State)
    requires Run(st, steps, end)
    ensures |end.added| == |st.added| + |Adds(steps)| && st.added <= end.added
    ensures forall j :: 0 <= j < |Adds(steps)| ==> LoggedAs(end.added[|st.added| + j], Adds(steps)[j])
    decreases |steps|
  {
    if steps == [] {
    } else {
      var next, rest := Apply(st, steps[0]), Adds(steps[1..]);
      AddedLog(next, steps[1..], end);
      if steps[0].AddCursor? {
        forall j | 0 <= j < |Adds(steps)| ensures LoggedAs(end.added[|st.added| + j], Adds(steps)[j]) {
          if j == 0 {
            assert end.added[|st.added|] == next.added[|st.added|];
          } else {
            assert Adds(steps)[j] == rest[j - 1] && end.added[|next.added| + (j - 1)] == end.added[|st.added| + j];
          }
        }
      }
    }
  }

  /** The j-th call of Add was answered with this key, and nobody released that cursor since. */
  ghost predicate HeldUnder(steps: seq<Step>, st: State, key: string, j: int) {
    0 <= j < |Adds(steps)| && KeyOf(j) == key && !WasReleased(st.released, key)
  }

  lemma {:induction false} HeldIsAdded(steps: seq<Step>, st: State, key: string) returns (j: nat)
    requires Run(Init, steps, st) && |st.added| <= TwoTo64 && key in st.table.byKey
    ensures HeldUnder(steps, st, key, j)
    ensures st.table.byKey[key].cursor == Adds(steps)[j].cursor && st.table.byKey[key].owner == Adds(steps)[j].owner
  {
    assert Inv(Init);
    RunKeepsInv(Init, steps, st);
    AddedLog(Init, steps, st);
    j :| 0 <= j < |st.added| && SameCursor(st.added[j], st.table.byKey[key]);
    assert LoggedAs(st.added[|Init.added| + j], Adds(steps)[j]);
  }

  lemma {:induction false} AddedIsHeld(steps: seq<Step>, st: State, key: string, j: int)
    requires Run(Init, steps, st) && |st.added| <= TwoTo64 && HeldUnder(steps, st, key, j)
    ensures key in st.table.byKey
  {
    assert Inv(Init);
    RunKeepsInv(Init, steps, st);
    AddedLog(Init, steps, st);
    assert st.added[j].key == key;
  }

  /** What Get answers, from the calls of the run: the cursor that the client added under that key,
      a refusal if another client added it, and not found if it was never added or was released. */
  lemma {:induction false} GetOnlyByOwner(steps: seq<Step>, st: State, key: string, client: string)
    requires Run(Init, steps, st) && |st.added| <= TwoTo64
    ensures match st.table.Get(key, client)
            case Cursor(cursor) =>
              exists j :: HeldUnder(steps, st, key, j) && Adds(steps)[j].owner == client && Adds(steps)[j].cursor == cursor
            case OtherOwner => exists j :: HeldUnder(steps, st, key, j) && Adds(steps)[j].owner != client
            case NotFound => forall j :: !HeldUnder(steps, st, key, j)
  {
    if key in st.table.byKey {
      var j := HeldIsAdded(steps, st, key);
    } else {
      forall j ensures !HeldUnder(steps, st, key, j) {
        if HeldUnder(steps, st, key, j) { AddedIsHeld(steps, st, key, j); }
      }
    }
  }

  /** A client's Release frees a cursor if and only if the client added it under that key and it
      was not released before. */
  lemma {:induction false} ReleaseOnlyByOwner(steps: seq<Step>, st: State, client: string, key: string)
    requires Run(Init, steps, st) && |st.added| <= TwoTo64
    ensures var released := Apply(st, ReleaseCursor(client, key)).released;
            var mine := exists j :: 0 <= j < |st.added| && st.added[j].key == key && st.added[j].owner == client;
            && (mine && !WasReleased(st.released, key) <==> |released| == |st.released| + 1)
            && (released == st.released || (released[..|st.released|] == st.released && released[|st.released|].key == key))
  {
    assert Inv(Init);
    RunKeepsInv(Init, steps, st);
    if j: nat :| j < |st.added| && st.added[j].key == key && st.added[j].owner == client {
      if !WasReleased(st.released, key) { SameKeySameCursor(st, key, j); }
    }
    if st.table.Releases(client, key) {
      assert AddedAmong(st.added, st.table.byKey[key], |st.added|);
    }
  }

  /** The sweeper releases nothing but the cursor it saw in its snapshot: never one that was
      added later, even though it releases by key. */
  lemma {:induction false} SweepReleasesOnlySeen(steps: seq<Step>, st: State) returns (j: nat)
    requires Run(Init, steps, st) && |st.added| <= TwoTo64 && st.sweep != []
    ensures j < st.sweptBefore && j < |st.added| && SameCursor(st.added[j], st.sweep[0])
    ensures var released := Apply(st, SweepOne).released;
            || released == st.released
            || exists ci :: released == st.released + [ci] && SameCursor(st.added[j], ci)
  {
    assert Inv(Init);
    RunKeepsInv(Init, steps, st);
    var seen := st.sweep[0];
    assert AddedAmong(st.added, seen, st.sweptBefore);
    j :| 0 <= j < st.sweptBefore && j < |st.added| && SameCursor(st.added[j], seen);
    if st.table.Releases(seen.owner, seen.key) {
      SameKeySameCursor(st, seen.key, j);
    }
  }

  /** Whatever the table holds under the key of the j-th cursor is that cursor. */
  lemma {:induction false} SameKeySameCursor(st: State, key: string, j: nat)
    requires Inv(st) && key in st.table.byKey && j < |st.added| && st.added[j].key == key
    ensures SameCursor(st.added[j], st.table.byKey[key])
  {
    var ci := st.table.byKey[key];
    assert AddedAmong(st.added, ci, |st.added|);
    var i :| 0 <= i < |st.added| && SameCursor(st.added[i], ci);
    if i != j { KeysDiffer(i, j); }
  }

  // ----- when a swept cursor is expired

  /** A cursor that was never used is expired at any time after 1970, so the next sweep takes it
      even if it was just added, unless its lifespan is the longest there is. */
  lemma {:induction false} NeverUsedIsExpired(t: Table, cursor: nat, owner: string, lifespan: Int64, now: int)
    requires now >= 0
    ensures Expired(t.Fresh(cursor, owner, lifespan), now) <==> lifespan < MaxInt64
  {
  }

  /** Once expired, a cursor stays so until it is used. */
  lemma {:induction false} StaysExpired(ci: Info, now: int, t: int)
    requires Expired(ci, now) && now <= t
    ensures Expired(ci, t)
  {
  }

  /** In every reachable state: the cursor that the sweeper is about to free is expired at a time
      since its snapshot if and only if it was not used since, or that use is longer ago than its
      lifespan. */
  lemma {:induction false} SweptIsExpired(steps: seq<Step>, st: State, t: int)
    requires Run(Init, steps, st) && |st.added| <= TwoTo64 && st.sweep != [] && t >= st.sweptAt
    requires st.table.Releases(st.sweep[0].owner, st.sweep[0].key)
    ensures var seen, freed := st.sweep[0], st.table.byKey[st.sweep[0].key];
            Expired(freed, t) <==> freed.lastUsed == seen.lastUsed || t - freed.lastUsed > seen.lifespan
  {
    assert Inv(Init);
    RunKeepsInv(Init, steps, st);
    var seen := st.sweep[0];
    assert AddedAmong(st.added, seen, st.sweptBefore);
    var j :| 0 <= j < st.sweptBefore && j < |st.added| && SameCursor(st.added[j], seen);
    SameKeySameCursor(st, seen.key, j);
    StaysExpired(seen, st.sweptAt, t);
  }

  /** When the owner last used the cursor in a run, if it did. */
  function LastUse(steps: seq<Step>, key: string, owner: string): Option<int> {
    if steps == [] then None
    else
      var later := LastUse(steps[1..], key, owner);
      if later.Some? then later
      else if steps[0].GetCursor? && steps[0].key == key && steps[0].client == owner && steps[0].update then Some(steps[0].now)
      else None
  }

  lemma {:induction false} ReleasedStays(st: State, steps: seq<Step>, end: State, key: string)
    requires Run(st, steps, end) && WasReleased(st.released, key)
    ensures WasReleased(end.released, key)
    decreases |steps|
  {
    if steps == [] {
    } else {
      var next := Apply(st, steps[0]);
      if next.released != st.released {
        StillReleased(st.released, next.released[|st.released|], key);
      }
      ReleasedStays(next, steps[1..], end, key);
    }
  }

  /** One step leaves a held cursor as it is, records its use, or releases it. */
  lemma {:induction false} HeldStep(st: State, step: Step, key: string)
    requires Inv(st) && Enabled(st, step) && key in st.table.byKey && (step.AddCursor? ==> |st.added| < TwoTo64)
    ensures var ci, next := st.table.byKey[key], Apply(st, step);
            if key !in next.table.byKey then WasReleased(next.released, key)
            else
              var use := LastUse([step], key, ci.owner);
              next.table.byKey[key] == if use.Some? then ci.(lastUsed := use.value) else ci
  {
    assert [step][1..] == [];
    match step {
      case AddCursor(cursor, owner, lifespan) =>
        FreshKey(st, cursor, owner, lifespan);
        NewKey(st.added, st.table.byKey[key]);
      case GetCursor(_, _, _, _) =>
      case ReleaseCursor(client, k) =>
        if st.table.Releases(client, k) { StillReleased(st.released, st.table.byKey[k], k); }
      case Snapshot(_, _) =>
      case SweepOne =>
        var k := st.sweep[0].key;
        if st.table.Releases(st.sweep[0].owner, k) { StillReleased(st.released, st.table.byKey[k], k); }
    }
  }

  /** A cursor held all along is the same one, last used when its owner last used it. */
  lemma {:induction false} HeldSince(st: State, steps: seq<Step>, end: State, key: string)
    requires Inv(st) && Run(st, steps, end) && |end.added| <= TwoTo64
    requires key in st.table.byKey && key in end.table.byKey
    ensures var ci := st.table.byKey[key];
            var use := LastUse(steps, key, ci.owner);
            end.table.byKey[key] == if use.Some? then ci.(lastUsed := use.value) else ci
    decreases |steps|
  {
    if steps == [] {
    } else {
      var next, rest := Apply(st, steps[0]), steps[1..];
      AddedGrows(next, rest, end);
      StepKeepsInv(st, steps[0]);
      HeldStep(st, steps[0], key);
      HeldNow(next, rest, end, key);
      HeldSince(next, rest, end, key);
      UseFirst(steps[0], rest, key, st.table.byKey[key].owner);
      assert [steps[0]] + rest == steps;
    }
  }

  /** What is held at the end of a run was not released at its start. */
  lemma {:induction false} HeldNow(st: State, steps: seq<Step>, end: State, key: string)
    requires Inv(st) && Run(st, steps, end) && |end.added| <= TwoTo64 && key in end.table.byKey
    ensures !WasReleased(st.released, key)
  {
    RunKeepsInv(st, steps, end);
    if WasReleased(st.released, key) { ReleasedStays(st, steps, end, key); }
  }

  lemma {:induction false} UseFirst(step: Step, rest: seq<Step>, key: string, owner: string)
    ensures var later := LastUse(rest, key, owner);
            LastUse([step] + rest, key, owner) == if later.Some? then later else LastUse([step], key, owner)
  {
    assert ([step] + rest)[1..] == rest && [step][1..] == [];
  }

  ghost predicate NoSnapshot(steps: seq<Step>) {
    forall i :: 0 <= i < |steps| ==> !steps[i].Snapshot?
  }

  lemma {:induction false} SweepShrinks(st: State, steps: seq<Step>, end: State)
    requires Run(st, steps, end) && NoSnapshot(steps)
    ensures forall ci :: ci in end.sweep ==> ci in st.sweep
    decreases |steps|
  {
    if steps == [] {
    } else {
      assert NoSnapshot(steps[1..]);
      SweepShrinks(Apply(st, steps[0]), steps[1..], end);
    }
  }

  /** Over every run: the cursor that a sweep frees is expired at a time since the snapshot if and
      only if its owner did not use it between the snapshot and the release, or last used it longer
      ago than its lifespan. */
  lemma {:induction false} SweptIsExpiredExactly(
    before: seq<Step>, mid: State, now: int, expired: seq<Info>, between: seq<Step>, st: State, t: int)
    requires Run(Init, before, mid) && Enabled(mid, Snapshot(now, expired)) && NoSnapshot(between)
    requires Run(Apply(mid, Snapshot(now, expired)), between, st) && |st.added| <= TwoTo64
    requires st.sweep != [] && st.table.Releases(st.sweep[0].owner, st.sweep[0].key) && t >= now
    ensures var seen := st.sweep[0];
            var use := LastUse(between, seen.key, seen.owner);
            Expired(st.table.byKey[seen.key], t) <==> use.None? || t - use.value > seen.lifespan
  {
    var snap, seen := Apply(mid, Snapshot(now, expired)), st.sweep[0];
    assert Inv(Init);
    AddedGrows(snap, between, st);
    RunKeepsInv(Init, before, mid);
    StepKeepsInv(mid, Snapshot(now, expired));
    SweepShrinks(snap, between, st);
    assert seen in st.sweep;
    var k :| k in mid.table.byKey && mid.table.byKey[k] == seen;
    HeldSince(snap, between, st, seen.key);
    StaysExpired(seen, now, t);
  }

  /** A run in which the sweep frees a cursor that is not expired at that moment: it was used after
      the snapshot, and the sweep does not look again. */
  lemma {:induction false} UsedCursorCanBeSwept(owner: string, lifespan: Int64, now: int) returns (steps: seq<Step>, st: State)
    requires now >= 0 && 0 <= lifespan < MaxInt64
    ensures Run(Init, steps, st) && st.sweep != []
    ensures st.table.Releases(st.sweep[0].owner, st.sweep[0].key)
    ensures !Expired(st.table.byKey[st.sweep[0].key], now)
  {
    var add := AddCursor(0, owner, lifespan);
    var s1 := Apply(Init, add);
    var ci := Init.table.Fresh(0, owner, lifespan);
    assert s1.table.byKey == map[ci.key := ci];
    assert ci.key in s1.table.byKey;
    NeverUsedIsExpired(Init.table, 0, owner, lifespan, now);
    var s2 := Apply(s1, Snapshot(now, [ci]));
    var use := GetCursor(ci.key, owner, true, now);
    st := Apply(s2, use);
    steps := [add, Snapshot(now, [ci]), use];
    assert Run(s2, [use], st) by { assert [use][1..] == []; }
    assert Run(s1, [Snapshot(now, [ci]), use], st) by { assert [Snapshot(now, [ci]), use][1..] == [use]; }
    assert steps[1..] == [Snapshot(now, [ci]), use];
  }
}
