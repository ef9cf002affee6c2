/** Adding values to the history: the retention gate, single and bulk adds. */
module AddHistory {
  import opened Text
  import opened HistoryCodec
  import opened Buckets
  import opened LatestProperties

  // ----- retention rules

  datatype Rule = Rule(agentID: string, thingID: string, retain: bool)

  /** Rules by value name; the empty name holds the rules for any name. */
  type Rules = map<string, seq<Rule>>

  predicate Applies(rule: Rule, tv: ThingValue) {
    (rule.agentID == "" || rule.agentID == tv.agentID) && (rule.thingID == "" || rule.thingID == tv.thingID)
  }

  function FirstApplicable(rules: seq<Rule>, tv: ThingValue): (r: Option<Rule>)
    ensures r.None? <==> forall i :: 0 <= i < |rules| ==> !Applies(rules[i], tv)
    ensures r.Some? ==> exists i :: 0 <= i < |rules| && rules[i] == r.value && Applies(rules[i], tv)
                                    && forall j :: 0 <= j < i ==> !Applies(rules[j], tv)
  {
    if rules == [] then None
    else if Applies(rules[0], tv) then Some(rules[0])
    else
      var r := FirstApplicable(rules[1..], tv);
      assert forall i :: 1 <= i < |rules| ==> rules[i] == rules[1..][i - 1];
      assert r.Some? ==>
          exists i :: 1 <= i < |rules| && rules[i] == r.value && Applies(rules[i], tv)
                      && forall j :: 0 <= j < i ==> !Applies(rules[j], tv) by {
        if r.Some? {
          var i :| 0 <= i < |rules[1..]| && rules[1..][i] == r.value && Applies(rules[1..][i], tv)
                   && forall j :: 0 <= j < i ==> !Applies(rules[1..][j], tv);
          assert rules[i + 1] == r.value;
        }
      }
      r
  }

  function RulesFor(rules: Rules, name: string): seq<Rule> {
    if name in rules then rules[name] else []
  }

  /** Rules that name the value come before those for any name. */
  function FindFirstRule(rules: Rules, tv: ThingValue): Option<Rule> {
    var named := FirstApplicable(RulesFor(rules, tv.name), tv);
    if named.Some? then named else FirstApplicable(RulesFor(rules, ""), tv)
  }

  /** Without rules all is kept; with rules a value needs one that says so. */
  predicate IsRetained(rules: Rules, tv: ThingValue) {
    rules == map[] || (var rule := FindFirstRule(rules, tv); rule.Some? && rule.value.retain)
  }

  /** The rule at index i of a list decides: it is the first whose agent and thing are the value's
      or left open. */
  ghost predicate Decides(rules: seq<Rule>, i: int, tv: ThingValue) {
    && 0 <= i < |rules|
    && rules[i].agentID in {"", tv.agentID} && rules[i].thingID in {"", tv.thingID}
    && forall j :: 0 <= j < i ==> !(rules[j].agentID in {"", tv.agentID} && rules[j].thingID in {"", tv.thingID})
  }

  ghost predicate Undecided(rules: seq<Rule>, tv: ThingValue) {
    forall i :: !Decides(rules, i, tv)
  }

  /** There are no rules, or the deciding rule of the value's name retains it, or no rule of its
      name decides and the deciding rule for any name retains it. */
  ghost predicate Retains(rules: Rules, tv: ThingValue) {
    || rules == map[]
    || (tv.name in rules && exists i :: Decides(rules[tv.name], i, tv) && rules[tv.name][i].retain)
    || ((tv.name in rules ==> Undecided(rules[tv.name], tv))
        && "" in rules && exists i :: Decides(rules[""], i, tv) && rules[""][i].retain)
  }

  lemma {:induction false} RetainedExactly(rules: Rules, tv: ThingValue)
    ensures IsRetained(rules, tv) <==> Retains(rules, tv)
  {
    DecidedBy(RulesFor(rules, tv.name), tv);
    DecidedBy(RulesFor(rules, ""), tv);
  }

  lemma {:induction false} DecidedBy(rules: seq<Rule>, tv: ThingValue)
    ensures var r := FirstApplicable(rules, tv);
            && (r.None? <==> Undecided(rules, tv))
            && forall i :: Decides(rules, i, tv) ==> r == Some(rules[i])
  {
    var r := FirstApplicable(rules, tv);
    if r.Some? {
      var i :| 0 <= i < |rules| && rules[i] == r.value && Applies(rules[i], tv)
               && forall j :: 0 <= j < i ==> !Applies(rules[j], tv);
      assert Decides(rules, i, tv);
    }
  }

  // ----- adding, as a function

  /** The clock readings taken while one value is added, by the step that takes them. */
  datatype Clock = Clock(validated: Int64, encoded: Int64, cached: Int64)
  datatype Arrival = Arrival(tv: ThingValue, clock: Clock)
  datatype Config = Config(rules: Rules, unpack: Unpacker)
  datatype History = History(buckets: map<string, Bucket>, latest: Store)

  datatype Verdict = Refused | Dropped | Kept(tv: ThingValue)

  predicate Complete(tv: ThingValue) {
    tv.thingID != "" && tv.agentID != "" && tv.name != ""
  }

  function Validate(rules: Rules, tv: ThingValue, now: Int64): Verdict {
    if !Complete(tv) then Refused
    else
      var dated := if tv.createdMSec == 0 then tv.(createdMSec := now) else tv;
      if IsRetained(rules, dated) then Kept(dated) else Dropped
  }

  /** What is asked of a value that is kept. */
  ghost predicate Keeps(rules: Rules, tv: ThingValue) {
    tv.agentID != "" && tv.thingID != "" && tv.name != "" && Retains(rules, tv)
  }

  /** The gate is exact: a value is kept if and only if its address and name are complete and the
      rules retain it. It is refused if they are not, and kept values differ at most in their time. */
  lemma {:induction false} KeptExactly(rules: Rules, tv: ThingValue, now: Int64)
    ensures var verdict := Validate(rules, tv, now);
            && (verdict.Kept? <==> Keeps(rules, tv))
            && (verdict.Refused? <==> tv.agentID == "" || tv.thingID == "" || tv.name == "")
            && (verdict.Kept? ==> verdict.tv == tv.(createdMSec := if tv.createdMSec == 0 then now else tv.createdMSec))
  {
    RetainedExactly(rules, if tv.createdMSec == 0 then tv.(createdMSec := now) else tv);
    RetainsAnyTime(rules, tv, now);
  }

  lemma {:induction false} RetainsAnyTime(rules: Rules, tv: ThingValue, t: Int64)
    ensures Retains(rules, tv.(createdMSec := t)) <==> Retains(rules, tv)
  {
    forall rs: seq<Rule>, i ensures Decides(rs, i, tv.(createdMSec := t)) <==> Decides(rs, i, tv) {
    }
  }

  function BucketOf(buckets: map<string, Bucket>, addr: string): Bucket {
    if addr in buckets then buckets[addr] else map[]
  }

  function AddOne(cfg: Config, h: History, a: Arrival): History {
    match Validate(cfg.rules, a.tv, a.clock.validated)
    case Refused => h
    case Dropped => h
    case Kept(tv) =>
      var addr, key := Address(tv), EncodeKey(tv, a.clock.encoded);
      History(h.buckets[addr := BucketOf(h.buckets, addr)[key := tv.data]],
              h.latest.Add(cfg.unpack, Dated(tv, a.clock.cached)))
  }

  /** A value that is not kept changes neither a bucket nor the cache. */
  lemma {:induction false} NotKeptChangesNothing(cfg: Config, h: History, a: Arrival)
    requires !Keeps(cfg.rules, a.tv)
    ensures AddOne(cfg, h, a) == h
  {
    KeptExactly(cfg.rules, a.tv, a.clock.validated);
  }

  /** Adding one value after the other. */
  function AddSeq(cfg: Config, h: History, arrivals: seq<Arrival>): History {
    if arrivals == [] then h
    else AddOne(cfg, AddSeq(cfg, h, arrivals[..|arrivals| - 1]), arrivals[|arrivals| - 1])
  }

  lemma {:induction false} AddSeqNext(cfg: Config, h: History, arrivals: seq<Arrival>, i: nat)
    requires i < |arrivals|
    ensures AddSeq(cfg, h, arrivals[..i + 1]) == AddOne(cfg, AddSeq(cfg, h, arrivals[..i]), arrivals[i])
  {
    assert arrivals[..i + 1][..i] == arrivals[..i];
  }

  /** How many values come before the first incomplete one. */
  function CompletePrefix(arrivals: seq<Arrival>): (n: nat)
    ensures n <= |arrivals|
    ensures forall i :: 0 <= i < n ==> Complete(arrivals[i].tv)
    ensures n < |arrivals| ==> !Complete(arrivals[n].tv)
  {
    if arrivals == [] || !Complete(arrivals[0].tv) then 0
    else
      var n := CompletePrefix(arrivals[1..]) + 1;
      assert forall i :: 1 <= i < |arrivals| ==> arrivals[i] == arrivals[1..][i - 1];
      n
  }

  ghost predicate AllOverlay(start: map<string, Bucket>, groups: map<string, Bucket>, end: map<string, Bucket>) {
    forall addr :: BucketOf(end, addr) == BucketOf(start, addr) + BucketOf(groups, addr)
  }

  ghost predicate SameBuckets(x: map<string, Bucket>, y: map<string, Bucket>) {
    forall addr :: BucketOf(x, addr) == BucketOf(y, addr)
  }

  /** A thing without a group is as good as one with an empty group. */
  lemma {:induction false} OverlayOpen(start: map<string, Bucket>, groups: map<string, Bucket>, end: map<string, Bucket>, addr: string)
    requires AllOverlay(start, groups, end)
    ensures AllOverlay(start, groups[addr := BucketOf(groups, addr)], end)
  {
  }

  lemma {:induction false} OverlayPut(start: map<string, Bucket>, groups: map<string, Bucket>, end: map<string, Bucket>,
                   addr: string, key: string, data: Bytes)
    requires AllOverlay(start, groups, end)
    ensures AllOverlay(start, groups[addr := BucketOf(groups, addr)[key := data]],
                       end[addr := BucketOf(end, addr)[key := data]])
  {
  }

  class AddHistory {
    const rules: Rules
    const latest: LatestPropertiesStore
    var buckets: map<string, Bucket>

    constructor (rules: Rules, latest: LatestPropertiesStore)
      ensures this.rules == rules && this.latest == latest && buckets == map[]
    {
      this.rules := rules;
      this.latest := latest;
      buckets := map[];
    }

    function Settings(): Config {
      Config(rules, latest.unpack)
    }

    function View(): History
      reads this, latest
    {
      History(buckets, latest.View())
    }

    method AddMessage(a: Arrival) returns (ok: bool)
      modifies this, latest
      ensures View() == AddOne(Settings(), old(View()), a)
      ensures ok <==> a.tv.agentID != "" && a.tv.thingID != "" && a.tv.name != ""
      ensures !Keeps(rules, a.tv) ==> View() == old(View())
    {
      KeptExactly(rules, a.tv, a.clock.validated);
      var verdict := Validate(rules, a.tv, a.clock.validated);
      if !verdict.Kept? {
        return !verdict.Refused?;
      }
      var tv := verdict.tv;
      var addr, key := Address(tv), EncodeKey(tv, a.clock.encoded);
      var bucket := BucketOf(buckets, addr);
      buckets := buckets[addr := bucket[key := tv.data]];
      latest.HandleAddValue(tv, a.clock.cached);
      return true;
    }

    /** Bulk adding equals adding one by one, although the documents are first grouped by thing
        and then written thing by thing in any order. An incomplete value stops the grouping:
        then no bucket is written, yet the values before it are in the cache. */
    method AddMessages(list: seq<Arrival>) returns (ok: bool)
      modifies this, latest
      ensures var n, start := CompletePrefix(list), old(View());
              && (ok <==> n == |list|)
              && latest.View() == AddSeq(Settings(), start, list[..n]).latest
              && SameBuckets(buckets, if ok then AddSeq(Settings(), start, list).buckets else start.buckets)
    {
      assert list[..|list|] == list;
      if |list| == 0 {
        return true;
      }
      if |list| == 1 {
        ok := AddMessage(list[0]);
        assert list[..0] == [] && AddSeq(Settings(), old(View()), []) == old(View());
        return;
      }
      var groups: map<string, Bucket>;
      groups, ok := GroupByThing(list);
      if ok {
        WriteGroups(groups);
      }
    }

    method GroupByThing(list: seq<Arrival>) returns (groups: map<string, Bucket>, ok: bool)
      modifies latest
      ensures var n, start := CompletePrefix(list), old(View());
              && (ok <==> n == |list|)
              && latest.View() == AddSeq(Settings(), start, list[..n]).latest
              && (ok ==> AllOverlay(buckets, groups, AddSeq(Settings(), start, list).buckets))
    {
      groups := map[];
      ghost var cfg, start := Settings(), View();
      ghost var h, n := start, CompletePrefix(list);
      assert list[..0] == [];
      var i := 0;
      ok := true;
      while i < |list|
        invariant 0 <= i <= n && h == AddSeq(cfg, start, list[..i])
        invariant latest.View() == h.latest && AllOverlay(buckets, groups, h.buckets)
      {
        groups, ok := GroupOne(groups, list[i], h);
        if !ok {
          assert i == n;
          return;
        }
        AddSeqNext(cfg, start, list, i);
        h := AddOne(cfg, h, list[i]);
        i := i + 1;
      }
      assert list[..|list|] == list;
    }

    method GroupOne(groups: map<string, Bucket>, a: Arrival, ghost h: History)
      returns (groups': map<string, Bucket>, ok: bool)
      requires latest.View() == h.latest && AllOverlay(buckets, groups, h.buckets)
      modifies latest
      ensures var h' := AddOne(Settings(), h, a);
              latest.View() == h'.latest && AllOverlay(buckets, groups', h'.buckets)
      ensures ok <==> Complete(a.tv)
    {
      var addr := Address(a.tv);
      groups' := if addr in groups then groups else groups[addr := map[]];
      OverlayOpen(buckets, groups, h.buckets, addr);
      assert groups' == groups[addr := BucketOf(groups, addr)];
      var verdict := Validate(rules, a.tv, a.clock.validated);
      if verdict.Kept? {
        var tv, key := verdict.tv, EncodeKey(verdict.tv, a.clock.encoded);
        OverlayPut(buckets, groups', h.buckets, addr, key, tv.data);
        groups' := groups'[addr := groups'[addr][key := tv.data]];
        latest.HandleAddValue(tv, a.clock.cached);
      }
      ok := !verdict.Refused?;
    }

    method WriteGroups(groups: map<string, Bucket>)
      modifies this
      ensures AllOverlay(old(buckets), groups, buckets)
    {
      var todo := groups.Keys;
      while todo != {}
        invariant todo <= groups.Keys
        invariant forall addr :: BucketOf(buckets, addr)
                    == if addr in groups && addr !in todo then BucketOf(old(buckets), addr) + groups[addr]
                       else BucketOf(old(buckets), addr)
        decreases todo
      {
        var addr :| addr in todo;
        buckets := buckets[addr := BucketOf(buckets, addr) + groups[addr]];
        todo := todo - {addr};
      }
      assert forall b: Bucket :: b + map[] == b;
    }
  }
}
