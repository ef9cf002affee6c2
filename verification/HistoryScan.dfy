/** What a history cursor yields, as functions of the listing and the cursor position. */
module HistoryScan {
  /** The zero time.Time in milliseconds, used as the limit of every backward scan. */
  const BeginningOfTime: int := -62135596800000

  /** One entry of the listing: a key with four parts; a key with three or more than four, which
      a single step shows but a scan skips; or a key without a slash, which cannot be decoded. */
  datatype Row = Row(name: string, time: int) | Odd(name: string, time: int) | Blank

  predicate Named(r: Row, name: string) {
    r.Row? && r.name == name
  }

  /** A row that a filtered listing shows; the empty filter shows all. */
  predicate Selected(r: Row, filter: string) {
    r.Row? && (filter == "" || r.name == filter)
  }

  /** What a single step shows without scanning on. */
  predicate Shown(r: Row, filter: string) {
    !r.Blank? && (filter == "" || r.name == filter)
  }

  ghost predicate AllRows(rows: seq<Row>) {
    forall i :: 0 <= i < |rows| ==> rows[i].Row?
  }

  ghost predicate AllDated(rows: seq<Row>) {
    forall i :: 0 <= i < |rows| && rows[i].Row? ==> rows[i].time >= BeginningOfTime
  }

  /** `Unread` is a step onto a key that cannot be decoded. */
  datatype Scan = Hit(at: int) | Limit(at: int) | Unread(at: int) | Exhausted

  // ----- findNextName and findPrevName: from index i on, up to a match or a time limit

  function ScanNext(rows: seq<Row>, name: string, until: int, i: nat): (s: Scan)
    ensures !s.Exhausted? ==> i <= s.at < |rows|
    ensures !s.Unread? && (s.Hit? ==> rows[s.at].Row?)
    decreases |rows| - i
  {
    if i >= |rows| then Exhausted
    else if rows[i].Row? && rows[i].time > until then Limit(i)
    else if Named(rows[i], name) then Hit(i)
    else ScanNext(rows, name, until, i + 1)
  }

  function ScanPrev(rows: seq<Row>, name: string, until: int, i: int): (s: Scan)
    requires i < |rows|
    ensures !s.Exhausted? ==> 0 <= s.at <= i
    ensures !s.Unread? && (s.Hit? ==> rows[s.at].Row?)
    decreases i
  {
    if i < 0 then Exhausted
    else if rows[i].Row? && rows[i].time < until then Limit(i)
    else if Named(rows[i], name) then Hit(i)
    else ScanPrev(rows, name, until, i - 1)
  }

  /** Where the cursor is left: on the match, one step short of the limit, or off the end. */
  function PosAfterNext(s: Scan, count: nat): int {
    match s case Hit(i) => i case Limit(i) => i - 1 case Unread(i) => i case Exhausted => count
  }

  function PosAfterPrev(s: Scan): int {
    match s case Hit(i) => i case Limit(i) => i + 1 case Unread(i) => i case Exhausted => -1
  }

  // ----- one service call. First and Seek are a Next from the position before; Last is a
  // ----- Prev from the position after the last entry

  function NextScan(rows: seq<Row>, filter: string, now: int, pos: int): (s: Scan)
    requires -1 <= pos
    ensures !s.Exhausted? ==> pos < s.at < |rows|
    ensures (s.Limit? ==> pos + 1 < s.at) && (s.Hit? ==> !rows[s.at].Blank?)
  {
    if pos + 1 >= |rows| then Exhausted
    else if rows[pos + 1].Blank? then Unread(pos + 1)
    else if Shown(rows[pos + 1], filter) then Hit(pos + 1)
    else ScanNext(rows, filter, now, pos + 2)
  }

  function PrevScan(rows: seq<Row>, filter: string, pos: int): (s: Scan)
    requires pos <= |rows|
    ensures (!s.Exhausted? ==> 0 <= s.at < pos) && (s.Hit? ==> !rows[s.at].Blank?)
  {
    if pos - 1 < 0 then Exhausted
    else if rows[pos - 1].Blank? then Unread(pos - 1)
    else if Shown(rows[pos - 1], filter) then Hit(pos - 1)
    else ScanPrev(rows, filter, BeginningOfTime, pos - 2)
  }

  // ----- a batch: up to n calls, the k-th of them at clock(k)

  datatype Batch = Batch(hits: seq<int>, pos: int)

  function NextBatch(rows: seq<Row>, filter: string, clock: nat -> int, k: nat, pos: int, n: nat): (b: Batch)
    requires -1 <= pos <= |rows|
    ensures -1 <= b.pos <= |rows| && |b.hits| <= n
    ensures forall i :: 0 <= i < |b.hits| ==> 0 <= b.hits[i] < |rows| && !rows[b.hits[i]].Blank?
    decreases n
  {
    if n == 0 then Batch([], pos)
    else
      var s := NextScan(rows, filter, clock(k), pos);
      if s.Hit? then
        var rest := NextBatch(rows, filter, clock, k + 1, s.at, n - 1);
        Batch([s.at] + rest.hits, rest.pos)
      else Batch([], PosAfterNext(s, |rows|))
  }

  function PrevBatch(rows: seq<Row>, filter: string, pos: int, n: nat): (b: Batch)
    requires -1 <= pos <= |rows|
    ensures -1 <= b.pos <= |rows| && |b.hits| <= n
    ensures forall k :: 0 <= k < |b.hits| ==> 0 <= b.hits[k] < |rows|
    decreases n
  {
    if n == 0 then Batch([], pos)
    else
      var s := PrevScan(rows, filter, pos);
      if s.Hit? then
        var rest := PrevBatch(rows, filter, s.at, n - 1);
        Batch([s.at] + rest.hits, rest.pos)
      else Batch([], PosAfterPrev(s))
  }

  // ----- reference: plain filtering of the listing

  /** Indices from `i` up that the filter selects. */
  function Matches(rows: seq<Row>, filter: string, i: nat): seq<int>
    decreases |rows| - i
  {
    if i >= |rows| then []
    else if Selected(rows[i], filter) then [i] + Matches(rows, filter, i + 1)
    else Matches(rows, filter, i + 1)
  }

  /** Indices from `i` down that the filter selects. */
  function MatchesDown(rows: seq<Row>, filter: string, i: int): seq<int>
    requires i < |rows|
    decreases i
  {
    if i < 0 then []
    else if Selected(rows[i], filter) then [i] + MatchesDown(rows, filter, i - 1)
    else MatchesDown(rows, filter, i - 1)
  }

  function Reverse(s: seq<int>): seq<int> {
    if s == [] then [] else Reverse(s[1..]) + [s[0]]
  }

  function Take(s: seq<int>, n: nat): seq<int> {
    if n <= |s| then s[..n] else s
  }

  // ----- the scans meet their meaning

  predicate PassedNext(r: Row, name: string, until: int) {
    !Named(r, name) && (r.Row? ==> r.time <= until)
  }

  predicate PassedPrev(r: Row, name: string, until: int) {
    !Named(r, name) && (r.Row? ==> r.time >= until)
  }

  /** A scan hits the first entry of that name, provided every four-part key up to it is
      within the limit; it stops on the first key past the limit, if no match comes before. */
  lemma {:induction false} ScanNextExact(rows: seq<Row>, name: string, until: int, i: nat)
    ensures var s := ScanNext(rows, name, until, i);
            var stop := if s.Exhausted? then |rows| else s.at;
            && (forall j :: i <= j < stop ==> PassedNext(rows[j], name, until))
            && (s.Hit? ==> Named(rows[stop], name) && rows[stop].time <= until)
            && (s.Limit? ==> rows[stop].Row? && rows[stop].time > until)
    decreases |rows| - i
  {
    if i >= |rows| {
    } else {
      ScanNextExact(rows, name, until, i + 1);
    }
  }

  lemma {:induction false} ScanPrevExact(rows: seq<Row>, name: string, until: int, i: int)
    requires i < |rows|
    ensures var s := ScanPrev(rows, name, until, i);
            var stop := if s.Exhausted? then -1 else s.at;
            && (forall j :: stop < j <= i ==> PassedPrev(rows[j], name, until))
            && (s.Hit? ==> Named(rows[stop], name) && rows[stop].time >= until)
            && (s.Limit? ==> rows[stop].Row? && rows[stop].time < until)
    decreases i
  {
    if i < 0 {
    } else {
      ScanPrevExact(rows, name, until, i - 1);
    }
  }

  /** A scan that stopped on a limit resumes without loss: the next call, from where the undo
      step left the cursor and with any later limit, ends as one call with that later limit
      would have ended from the original position. */
  lemma {:induction false} ResumeNext(rows: seq<Row>, name: string, u1: int, u2: int, pos: int)
    requires -1 <= pos && u1 <= u2
    requires ScanNext(rows, name, u1, pos + 1).Limit?
    ensures var left := PosAfterNext(ScanNext(rows, name, u1, pos + 1), |rows|);
            pos <= left && ScanNext(rows, name, u2, left + 1) == ScanNext(rows, name, u2, pos + 1)
    decreases |rows| - pos
  {
    if ScanNext(rows, name, u1, pos + 1) != Limit(pos + 1) {
      ResumeNext(rows, name, u1, u2, pos + 1);
    }
  }

  lemma {:induction false} ResumePrev(rows: seq<Row>, name: string, u1: int, u2: int, pos: int)
    requires pos <= |rows| && u2 <= u1
    requires ScanPrev(rows, name, u1, pos - 1).Limit?
    ensures var left := PosAfterPrev(ScanPrev(rows, name, u1, pos - 1));
            left <= pos && ScanPrev(rows, name, u2, left - 1) == ScanPrev(rows, name, u2, pos - 1)
    decreases pos
  {
    if ScanPrev(rows, name, u1, pos - 1) != Limit(pos - 1) {
      ResumePrev(rows, name, u1, u2, pos - 1);
    }
  }

  /** The position after scanning in turn with each of the given limits. */
  function ScanAll(rows: seq<Row>, name: string, limits: seq<int>, pos: int): int
    requires -1 <= pos <= |rows|
    decreases |limits|
  {
    if limits == [] then pos
    else ScanAll(rows, name, limits[1..], PosAfterNext(ScanNext(rows, name, limits[0], pos + 1), |rows|))
  }

  ghost predicate Rising(us: seq<int>) {
    forall i, j :: 0 <= i < j < |us| ==> us[i] <= us[j]
  }

  /** Scanning first with a smaller limit changes neither that a larger one stops the scan nor
      where a still larger one ends it. */
  lemma {:induction false} WindowFirst(rows: seq<Row>, name: string, u0: int, u: int, last: int, pos: int)
    requires -1 <= pos <= |rows| && u0 <= u <= last && ScanNext(rows, name, u, pos + 1).Limit?
    ensures var left := PosAfterNext(ScanNext(rows, name, u0, pos + 1), |rows|);
            && -1 <= left <= |rows| && ScanNext(rows, name, u, left + 1).Limit?
            && ScanNext(rows, name, last, left + 1) == ScanNext(rows, name, last, pos + 1)
  {
    EarlierLimit(rows, name, u0, u, pos + 1);
    ResumeNext(rows, name, u0, last, pos);
    ResumeNext(rows, name, u0, u, pos);
  }

  /** Reading an hour, a day or a week at a time: while no window holds a match, any rising
      sequence of limits is as good as its last one. */
  lemma {:induction false} ResumeWindows(rows: seq<Row>, name: string, us: seq<int>, last: int, pos: int)
    requires -1 <= pos <= |rows| && Rising(us)
    requires us != [] ==> us[|us| - 1] <= last && ScanNext(rows, name, us[|us| - 1], pos + 1).Limit?
    ensures ScanAll(rows, name, us + [last], pos)
         == PosAfterNext(ScanNext(rows, name, last, pos + 1), |rows|)
    decreases |us|
  {
    if us == [] {
      assert (us + [last])[1..] == [];
    } else {
      var rest := us[1..];
      assert (us + [last])[1..] == rest + [last];
      WindowFirst(rows, name, us[0], us[|us| - 1], last, pos);
      ResumeWindows(rows, name, rest, last, PosAfterNext(ScanNext(rows, name, us[0], pos + 1), |rows|));
    }
  }

  /** If a scan stops on a limit, it also does on every smaller limit. */
  lemma {:induction false} EarlierLimit(rows: seq<Row>, name: string, u1: int, u2: int, i: nat)
    requires u1 <= u2 && ScanNext(rows, name, u2, i).Limit?
    ensures ScanNext(rows, name, u1, i).Limit?
    decreases |rows| - i
  {
    if ScanNext(rows, name, u2, i) != Limit(i) { EarlierLimit(rows, name, u1, u2, i + 1); }
  }

  // ----- one call against the reference

  lemma {:induction false} MatchesMeaning(rows: seq<Row>, filter: string, i: nat)
    ensures forall j :: j in Matches(rows, filter, i)
                   <==> i <= j < |rows| && rows[j].Row? && (filter == "" || rows[j].name == filter)
    ensures forall a, b :: 0 <= a < b < |Matches(rows, filter, i)|
                           ==> Matches(rows, filter, i)[a] < Matches(rows, filter, i)[b]
    decreases |rows| - i
  {
    if i >= |rows| {
    } else {
      MatchesMeaning(rows, filter, i + 1);
      var ms, rest := Matches(rows, filter, i), Matches(rows, filter, i + 1);
      if Selected(rows[i], filter) {
        forall a, b | 0 <= a < b < |ms| ensures ms[a] < ms[b] {
          assert ms[b] == rest[b - 1] && rest[b - 1] in rest;
          if a > 0 { assert ms[a] == rest[a - 1]; }
        }
      }
    }
  }

  /** The matches after the first one are those from the next index on. */
  lemma {:induction false} MatchesTail(rows: seq<Row>, filter: string, i: nat)
    requires Matches(rows, filter, i) != []
    ensures var m := Matches(rows, filter, i)[0];
            i <= m < |rows| && Matches(rows, filter, i)[1..] == Matches(rows, filter, m + 1)
    decreases |rows| - i
  {
    if !Selected(rows[i], filter) { MatchesTail(rows, filter, i + 1); }
  }

  lemma {:induction false} MatchesDownTail(rows: seq<Row>, filter: string, i: int)
    requires i < |rows| && MatchesDown(rows, filter, i) != []
    ensures var m := MatchesDown(rows, filter, i)[0];
            0 <= m <= i && MatchesDown(rows, filter, i)[1..] == MatchesDown(rows, filter, m - 1)
    decreases i
  {
    if !Selected(rows[i], filter) { MatchesDownTail(rows, filter, i - 1); }
  }

  ghost predicate InTime(rows: seq<Row>, lo: int, hi: int, now: int) {
    forall j :: lo <= j <= hi && 0 <= j < |rows| && rows[j].Row? ==> rows[j].time <= now
  }

  /** What Next does, whatever the keys look like. It takes the adjacent entry if it can be decoded
      and its name is the filter's, even if a scan would skip that key; it fails on an adjacent key
      that cannot be decoded. Otherwise it moves to the next match if and only if nothing up to
      there is later than the call, and else stops on the time limit. */
  lemma {:induction false} NextExact(rows: seq<Row>, filter: string, now: int, pos: int)
    requires -1 <= pos
    ensures var ms := Matches(rows, filter, pos + 2);
            var s := NextScan(rows, filter, now, pos);
            if pos + 1 >= |rows| then s == Exhausted
            else if rows[pos + 1].Blank? then s == Unread(pos + 1)
            else if filter == "" || rows[pos + 1].name == filter then s == Hit(pos + 1)
            else
              && (ms == [] ==> !s.Hit?)
              && (ms != [] ==> (s == Hit(ms[0]) <==> InTime(rows, pos + 2, ms[0], now)))
              && (ms != [] ==> s == Hit(ms[0]) || s.Limit?)
  {
    if pos + 1 < |rows| && !rows[pos + 1].Blank? && !Shown(rows[pos + 1], filter) {
      var ms, s := Matches(rows, filter, pos + 2), ScanNext(rows, filter, now, pos + 2);
      MatchesMeaning(rows, filter, pos + 2);
      ScanNextExact(rows, filter, now, pos + 2);
      if s.Hit? { assert s.at in ms; }
      if ms != [] {
        assert ms[0] in ms && Named(rows[ms[0]], filter);
        MatchesTail(rows, filter, pos + 2);
      }
    }
  }

  lemma {:induction false} MatchesDownMeaning(rows: seq<Row>, filter: string, i: int)
    requires i < |rows|
    ensures forall j :: j in MatchesDown(rows, filter, i)
                   <==> 0 <= j <= i && rows[j].Row? && (filter == "" || rows[j].name == filter)
    ensures forall j :: j in MatchesDown(rows, filter, i) ==> j <= MatchesDown(rows, filter, i)[0]
    decreases i
  {
    if i < 0 {
    } else {
      MatchesDownMeaning(rows, filter, i - 1);
    }
  }

  /** The same for Prev: its time limit is year 1, so only keys dated before that stop it. */
  lemma {:induction false} PrevExact(rows: seq<Row>, filter: string, pos: int)
    requires 0 <= pos <= |rows|
    ensures var ms := if pos > 1 then MatchesDown(rows, filter, pos - 2) else [];
            var s := PrevScan(rows, filter, pos);
            if pos == 0 then s == Exhausted
            else if rows[pos - 1].Blank? then s == Unread(pos - 1)
            else if filter == "" || rows[pos - 1].name == filter then s == Hit(pos - 1)
            else
              && (ms == [] ==> !s.Hit?)
              && (ms != [] ==>
                    (s == Hit(ms[0]) <==>
                     forall j :: ms[0] <= j < pos - 1 && 0 <= j && rows[j].Row? ==> rows[j].time >= -62135596800000))
              && (ms != [] ==> s == Hit(ms[0]) || s.Limit?)
  {
    if pos > 1 && !rows[pos - 1].Blank? && !Shown(rows[pos - 1], filter) {
      var ms, s := MatchesDown(rows, filter, pos - 2), ScanPrev(rows, filter, BeginningOfTime, pos - 2);
      MatchesDownMeaning(rows, filter, pos - 2);
      ScanPrevExact(rows, filter, BeginningOfTime, pos - 2);
      if s.Hit? { assert s.at in ms; }
      if ms != [] {
        assert ms[0] in ms && Named(rows[ms[0]], filter);
      }
    }
  }

  /** A listing of one such key: stepping onto it shows it, scanning from it skips it. */
  lemma {:induction false} OddKeyIsSkipped(name: string, time: int, now: int)
    ensures var rows := [Odd(name, time)];
            NextScan(rows, name, now, -1) == Hit(0) && ScanNext(rows, name, now, 0) == Exhausted
  {
    assert ScanNext([Odd(name, time)], name, now, 1) == Exhausted;
  }

  /** When nothing selected is missed for time, a scan and Next hit the first match. */
  lemma {:induction false} ScanNextHits(rows: seq<Row>, filter: string, now: int, i: nat)
    requires filter != "" && AllRows(rows) && InTime(rows, 0, |rows|, now)
    ensures ScanNext(rows, filter, now, i)
         == var ms := Matches(rows, filter, i); if ms == [] then Exhausted else Hit(ms[0])
    decreases |rows| - i
  {
    if i >= |rows| {
    } else {
      ScanNextHits(rows, filter, now, i + 1);
    }
  }

  lemma {:induction false} NextHitsFirstMatch(rows: seq<Row>, filter: string, now: int, pos: int)
    requires -1 <= pos && AllRows(rows) && InTime(rows, 0, |rows|, now)
    ensures NextScan(rows, filter, now, pos)
         == var ms := Matches(rows, filter, pos + 1); if ms == [] then Exhausted else Hit(ms[0])
  {
    if filter != "" && pos + 1 < |rows| { ScanNextHits(rows, filter, now, pos + 2); }
  }

  /** Backward scans have no effective limit: Prev always hits the previous match. */
  lemma {:induction false} ScanPrevHits(rows: seq<Row>, filter: string, i: int)
    requires i < |rows| && filter != ""
    requires AllRows(rows) && AllDated(rows)
    ensures ScanPrev(rows, filter, BeginningOfTime, i)
         == var ms := MatchesDown(rows, filter, i); if ms == [] then Exhausted else Hit(ms[0])
    decreases i
  {
    if i < 0 {
    } else {
      ScanPrevHits(rows, filter, i - 1);
    }
  }

  lemma {:induction false} PrevHitsFirstMatch(rows: seq<Row>, filter: string, pos: int)
    requires pos <= |rows|
    requires AllRows(rows) && AllDated(rows)
    ensures PrevScan(rows, filter, pos)
         == var ms := MatchesDown(rows, filter, pos - 1); if ms == [] then Exhausted else Hit(ms[0])
  {
    if filter != "" && pos >= 1 { ScanPrevHits(rows, filter, pos - 2); }
  }

  // ----- batches

  /** Where the call after k hits of a batch starts: at the hit before, at first at pos. */
  function HitBefore(pos: int, hits: seq<int>, k: nat): int
    requires k <= |hits|
  {
    if k == 0 then pos else hits[k - 1]
  }

  /** A batch is its calls: the i-th hit is the hit of the i-th call, made from the hit before. */
  lemma {:induction false} NextBatchCall(rows: seq<Row>, filter: string, clock: nat -> int, k: nat, pos: int, n: nat, i: nat)
    requires -1 <= pos <= |rows| && i < |NextBatch(rows, filter, clock, k, pos, n).hits|
    ensures var hits := NextBatch(rows, filter, clock, k, pos, n).hits;
            var from := HitBefore(pos, hits, i);
            from >= -1 && NextScan(rows, filter, clock(k + i), from) == Hit(hits[i])
    decreases i
  {
    if i > 0 {
      var at := NextScan(rows, filter, clock(k), pos).at;
      NextBatchHit(rows, filter, clock, k, pos, n);
      NextBatchCall(rows, filter, clock, k + 1, at, n - 1, i - 1);
      assert k + 1 + (i - 1) == k + i;
    }
  }

  /** A full batch leaves the cursor on its last hit; a shorter one ends with a call that fails,
      which leaves the cursor where such a call does. */
  ghost predicate NextEnds(rows: seq<Row>, filter: string, clock: nat -> int, k: nat, pos: int, n: nat, b: Batch) {
    var last := HitBefore(pos, b.hits, |b.hits|);
    && last >= -1 && |b.hits| <= n
    && if |b.hits| == n then b.pos == last
       else
         var s := NextScan(rows, filter, clock(k + |b.hits|), last);
         !s.Hit? && b.pos == PosAfterNext(s, |rows|)
  }

  lemma {:induction false} NextEndsMore(rows: seq<Row>, filter: string, clock: nat -> int, k: nat, pos: int, n: nat, at: int, rest: Batch)
    requires n > 0 && NextEnds(rows, filter, clock, k + 1, at, n - 1, rest)
    ensures NextEnds(rows, filter, clock, k, pos, n, Batch([at] + rest.hits, rest.pos))
  {
    var hits := [at] + rest.hits;
    assert HitBefore(pos, hits, |hits|) == HitBefore(at, rest.hits, |rest.hits|);
    assert k + 1 + |rest.hits| == k + |hits|;
  }

  lemma {:induction false} NextBatchEnd(rows: seq<Row>, filter: string, clock: nat -> int, k: nat, pos: int, n: nat)
    requires -1 <= pos <= |rows|
    ensures NextEnds(rows, filter, clock, k, pos, n, NextBatch(rows, filter, clock, k, pos, n))
    decreases n
  {
    if n == 0 {
    } else {
      var s := NextScan(rows, filter, clock(k), pos);
      if s.Hit? {
        NextBatchHit(rows, filter, clock, k, pos, n);
        NextBatchEnd(rows, filter, clock, k + 1, s.at, n - 1);
        NextEndsMore(rows, filter, clock, k, pos, n, s.at, NextBatch(rows, filter, clock, k + 1, s.at, n - 1));
      } else {
        NextBatchMisses(rows, filter, clock, k, pos, n);
      }
    }
  }

  lemma {:induction false} PrevBatchCall(rows: seq<Row>, filter: string, pos: int, n: nat, i: nat)
    requires -1 <= pos <= |rows| && i < |PrevBatch(rows, filter, pos, n).hits|
    ensures var hits := PrevBatch(rows, filter, pos, n).hits;
            var from := HitBefore(pos, hits, i);
            from <= |rows| && PrevScan(rows, filter, from) == Hit(hits[i])
    decreases i
  {
    if i > 0 {
      PrevBatchHit(rows, filter, pos, n);
      PrevBatchCall(rows, filter, PrevScan(rows, filter, pos).at, n - 1, i - 1);
    }
  }

  lemma {:induction false} PrevBatchEnd(rows: seq<Row>, filter: string, pos: int, n: nat)
    requires -1 <= pos <= |rows|
    ensures var b := PrevBatch(rows, filter, pos, n);
            var last := HitBefore(pos, b.hits, |b.hits|);
            && last <= |rows| && |b.hits| <= n
            && if |b.hits| == n then b.pos == last
               else
                 var s := PrevScan(rows, filter, last);
                 !s.Hit? && b.pos == PosAfterPrev(s)
    decreases n
  {
    if n == 0 {
    } else {
      var s := PrevScan(rows, filter, pos);
      if s.Hit? {
        PrevBatchHit(rows, filter, pos, n);
        PrevBatchEnd(rows, filter, s.at, n - 1);
      }
    }
  }

  /** Two batches in a row are one large batch whenever the first was full: same values in the
      same order, same final position, whatever the clock and the time limits do. */
  lemma {:induction false} NextBatchCompose(
    rows: seq<Row>, filter: string, clock: nat -> int, k: nat, pos: int, a: nat, b: nat)
    requires -1 <= pos <= |rows|
    requires |NextBatch(rows, filter, clock, k, pos, a).hits| == a
    ensures var first := NextBatch(rows, filter, clock, k, pos, a);
            var second := NextBatch(rows, filter, clock, k + a, first.pos, b);
            NextBatch(rows, filter, clock, k, pos, a + b) == Batch(first.hits + second.hits, second.pos)
    decreases a
  {
    if a == 0 {
    } else {
      var at := NextScan(rows, filter, clock(k), pos).at;
      NextBatchHit(rows, filter, clock, k, pos, a);
      NextBatchHit(rows, filter, clock, k, pos, a + b);
      NextBatchCompose(rows, filter, clock, k + 1, at, a - 1, b);
      var rest := NextBatch(rows, filter, clock, k + 1, at, a - 1);
      var second := NextBatch(rows, filter, clock, k + a, rest.pos, b);
      JoinHits(at, rest.hits, second.hits);
    }
  }

  lemma {:induction false} JoinHits(at: int, xs: seq<int>, ys: seq<int>)
    ensures [at] + (xs + ys) == ([at] + xs) + ys
  {
  }

  lemma {:induction false} NextBatchHit(rows: seq<Row>, filter: string, clock: nat -> int, k: nat, pos: int, n: nat)
    requires -1 <= pos <= |rows| && n > 0 && NextScan(rows, filter, clock(k), pos).Hit?
    ensures var at := NextScan(rows, filter, clock(k), pos).at;
            var rest := NextBatch(rows, filter, clock, k + 1, at, n - 1);
            NextBatch(rows, filter, clock, k, pos, n) == Batch([at] + rest.hits, rest.pos)
  {
  }

  lemma {:induction false} NextBatchMisses(rows: seq<Row>, filter: string, clock: nat -> int, k: nat, pos: int, n: nat)
    requires -1 <= pos <= |rows| && n > 0 && !NextScan(rows, filter, clock(k), pos).Hit?
    ensures NextBatch(rows, filter, clock, k, pos, n)
         == Batch([], PosAfterNext(NextScan(rows, filter, clock(k), pos), |rows|))
  {
  }

  lemma {:induction false} PrevBatchHit(rows: seq<Row>, filter: string, pos: int, n: nat)
    requires -1 <= pos <= |rows| && n > 0 && PrevScan(rows, filter, pos).Hit?
    ensures var at := PrevScan(rows, filter, pos).at;
            var rest := PrevBatch(rows, filter, at, n - 1);
            PrevBatch(rows, filter, pos, n) == Batch([at] + rest.hits, rest.pos)
  {
  }

  lemma {:induction false} TakeFirst(ms: seq<int>, n: nat)
    requires ms != [] && n > 0
    ensures Take(ms, n) == [ms[0]] + Take(ms[1..], n - 1)
  {
  }

  /** A batch depends on the clock only through the readings it takes. */
  lemma {:induction false} NextBatchClock(
    rows: seq<Row>, filter: string, c: nat -> int, k: nat, d: nat -> int, l: nat, pos: int, n: nat)
    requires -1 <= pos <= |rows| && forall j: nat :: k <= j < k + n ==> c(j) == d(j - k + l)
    ensures NextBatch(rows, filter, c, k, pos, n) == NextBatch(rows, filter, d, l, pos, n)
    decreases n
  {
    if n == 0 {
    } else {
      var s := NextScan(rows, filter, c(k), pos);
      if s.Hit? {
        assert forall j: nat :: k + 1 <= j < k + n ==> c(j) == d(j - (k + 1) + (l + 1));
        NextBatchClock(rows, filter, c, k + 1, d, l + 1, s.at, n - 1);
      }
    }
  }

  /** NextN(a) and then NextN(b), each with its own clock, against NextN(a+b) with both readings
      one after the other. */
  lemma {:induction false} NextNCompose(rows: seq<Row>, filter: string, c: nat -> int, d: nat -> int, all: nat -> int,
                     pos: int, a: nat, b: nat)
    requires -1 <= pos <= |rows|
    requires (forall j: nat :: j < a ==> all(j) == c(j)) && (forall j: nat :: a <= j < a + b ==> all(j) == d(j - a))
    requires |NextBatch(rows, filter, c, 0, pos, a).hits| == a
    ensures var first := NextBatch(rows, filter, c, 0, pos, a);
            var second := NextBatch(rows, filter, d, 0, first.pos, b);
            NextBatch(rows, filter, all, 0, pos, a + b) == Batch(first.hits + second.hits, second.pos)
  {
    var first := NextBatch(rows, filter, c, 0, pos, a);
    assert NextBatch(rows, filter, all, 0, pos, a) == first by { NextBatchClock(rows, filter, all, 0, c, 0, pos, a); }
    assert NextBatch(rows, filter, all, a, first.pos, b) == NextBatch(rows, filter, d, 0, first.pos, b) by {
      NextBatchClock(rows, filter, all, a, d, 0, first.pos, b);
    }
    NextBatchCompose(rows, filter, all, 0, pos, a, b);
  }

  lemma {:induction false} PrevBatchCompose(rows: seq<Row>, filter: string, pos: int, a: nat, b: nat)
    requires -1 <= pos <= |rows|
    requires |PrevBatch(rows, filter, pos, a).hits| == a
    ensures var first := PrevBatch(rows, filter, pos, a);
            var second := PrevBatch(rows, filter, first.pos, b);
            PrevBatch(rows, filter, pos, a + b) == Batch(first.hits + second.hits, second.pos)
    decreases a
  {
    if a == 0 {
    } else {
      var at := PrevScan(rows, filter, pos).at;
      PrevBatchHit(rows, filter, pos, a);
      PrevBatchHit(rows, filter, pos, a + b);
      PrevBatchCompose(rows, filter, at, a - 1, b);
      var rest := PrevBatch(rows, filter, at, a - 1);
      var second := PrevBatch(rows, filter, rest.pos, b);
      JoinHits(at, rest.hits, second.hits);
    }
  }

  /** After i of the calls of a batch: the hits so far and a batch for the remaining calls from
      the current position make up the whole batch. */
  ghost predicate NextUnderway(
    rows: seq<Row>, filter: string, clock: nat -> int, limit: nat, whole: Batch, i: nat, hits: seq<int>, pos: int)
  {
    -1 <= pos <= |rows| && i <= limit &&
    var rest := NextBatch(rows, filter, clock, i, pos, limit - i);
    whole == Batch(hits + rest.hits, rest.pos)
  }

  lemma {:induction false} NextUnderwayStep(
    rows: seq<Row>, filter: string, clock: nat -> int, limit: nat, whole: Batch, i: nat, hits: seq<int>, pos: int)
    requires i < limit && NextUnderway(rows, filter, clock, limit, whole, i, hits, pos)
    ensures var s := NextScan(rows, filter, clock(i), pos);
            if s.Hit? then NextUnderway(rows, filter, clock, limit, whole, i + 1, hits + [s.at], s.at)
            else whole == Batch(hits, PosAfterNext(s, |rows|))
  {
  }

  ghost predicate PrevUnderway(
    rows: seq<Row>, filter: string, limit: nat, whole: Batch, i: nat, hits: seq<int>, pos: int)
  {
    -1 <= pos <= |rows| && i <= limit &&
    var rest := PrevBatch(rows, filter, pos, limit - i);
    whole == Batch(hits + rest.hits, rest.pos)
  }

  lemma {:induction false} PrevUnderwayStep(
    rows: seq<Row>, filter: string, limit: nat, whole: Batch, i: nat, hits: seq<int>, pos: int)
    requires i < limit && PrevUnderway(rows, filter, limit, whole, i, hits, pos)
    ensures var s := PrevScan(rows, filter, pos);
            if s.Hit? then PrevUnderway(rows, filter, limit, whole, i + 1, hits + [s.at], s.at)
            else whole == Batch(hits, PosAfterPrev(s))
  {
  }

  /** No entry is later than any of the calls. */
  ghost predicate NothingLater(rows: seq<Row>, clock: nat -> int) {
    forall k: nat {:trigger InTime(rows, 0, |rows|, clock(k))} :: InTime(rows, 0, |rows|, clock(k))
  }

  /** One call of a batch, given what the calls after it return. */
  lemma {:induction false} NextBatchTakes(
    rows: seq<Row>, filter: string, clock: nat -> int, k: nat, pos: int, n: nat, ms: seq<int>)
    requires -1 <= pos <= |rows| && n > 0
    requires NextScan(rows, filter, clock(k), pos) == if ms == [] then Exhausted else Hit(ms[0])
    requires ms != [] ==> NextBatch(rows, filter, clock, k + 1, ms[0], n - 1).hits == Take(ms[1..], n - 1)
    ensures NextBatch(rows, filter, clock, k, pos, n).hits == Take(ms, n)
  {
    if ms == [] {
      NextBatchMisses(rows, filter, clock, k, pos, n);
    } else {
      NextBatchHit(rows, filter, clock, k, pos, n);
      TakeFirst(ms, n);
    }
  }

  /** A forward batch is the head of the filtered listing. */
  lemma {:induction false} NextBatchFilters(
    rows: seq<Row>, filter: string, clock: nat -> int, k: nat, pos: int, n: nat)
    requires -1 <= pos <= |rows| && NothingLater(rows, clock)
    requires AllRows(rows)
    ensures NextBatch(rows, filter, clock, k, pos, n).hits == Take(Matches(rows, filter, pos + 1), n)
    decreases n
  {
    if n == 0 {
      assert Take(Matches(rows, filter, pos + 1), 0) == [];
    } else {
      var ms := Matches(rows, filter, pos + 1);
      assert InTime(rows, 0, |rows|, clock(k));
      NextHitsFirstMatch(rows, filter, clock(k), pos);
      if ms == [] {
        NextBatchTakes(rows, filter, clock, k, pos, n, ms);
      } else {
        var at := FirstMatch(rows, filter, pos + 1);
        NextBatchFilters(rows, filter, clock, k + 1, at, n - 1);
        assert ms[1..] == Matches(rows, filter, at + 1);
        NextBatchTakes(rows, filter, clock, k, pos, n, ms);
      }
    }
  }

  /** A backward batch is the head of the filtered listing read downwards. */
  lemma {:induction false} PrevBatchFilters(rows: seq<Row>, filter: string, pos: int, n: nat)
    requires -1 <= pos <= |rows|
    requires AllRows(rows) && AllDated(rows)
    ensures PrevBatch(rows, filter, pos, n).hits == Take(MatchesDown(rows, filter, pos - 1), n)
    decreases n
  {
    if n == 0 {
    } else {
      PrevHitsFirstMatch(rows, filter, pos);
      var ms := MatchesDown(rows, filter, pos - 1);
      if ms != [] {
        MatchesDownTail(rows, filter, pos - 1);
        PrevBatchHit(rows, filter, pos, n);
        PrevBatchFilters(rows, filter, ms[0], n - 1);
        TakeFirst(ms, n);
      }
    }
  }

  lemma {:induction false} MatchesCount(rows: seq<Row>, filter: string, i: nat)
    requires i <= |rows|
    ensures |Matches(rows, filter, i)| <= |rows| - i
    decreases |rows| - i
  {
    if i >= |rows| {
    } else {
      MatchesCount(rows, filter, i + 1);
    }
  }

  /** Reading downwards is the reverse of reading upwards. */
  lemma {:induction false} DownIsReverse(rows: seq<Row>, filter: string, i: nat)
    requires i <= |rows|
    ensures Reverse(Matches(rows, filter, i)) + MatchesDown(rows, filter, i - 1)
         == MatchesDown(rows, filter, |rows| - 1)
    decreases |rows| - i
  {
    if i >= |rows| {
    } else {
      DownIsReverse(rows, filter, i + 1);
      if Selected(rows[i], filter) {
        assert MatchesDown(rows, filter, i) == [i] + MatchesDown(rows, filter, i - 1);
        ReverseCons(i, Matches(rows, filter, i + 1), MatchesDown(rows, filter, i - 1));
      }
    }
  }

  lemma {:induction false} ReverseCons(i: int, up: seq<int>, down: seq<int>)
    ensures Reverse([i] + up) + down == Reverse(up) + ([i] + down)
  {
    assert ([i] + up)[1..] == up;
  }

  // ----- whole traversals

  /** One step forward from a position at time `now`, and a batch as long as the listing after it.
      From position -1 this is First and NextN. */
  function ReadForward(rows: seq<Row>, filter: string, now: int, clock: nat -> int, pos: int): seq<int>
    requires -1 <= pos <= |rows|
  {
    var s := NextScan(rows, filter, now, pos);
    if s.Hit? then [s.at] + NextBatch(rows, filter, clock, 0, s.at, |rows|).hits else []
  }

  /** From position |rows| this is Last and PrevN. */
  function ReadBackward(rows: seq<Row>, filter: string, pos: int): seq<int>
    requires -1 <= pos <= |rows|
  {
    var s := PrevScan(rows, filter, pos);
    if s.Hit? then [s.at] + PrevBatch(rows, filter, s.at, |rows|).hits else []
  }

  lemma {:induction false} NextBatchAll(rows: seq<Row>, filter: string, clock: nat -> int, pos: int)
    requires AllRows(rows) && NothingLater(rows, clock) && -1 <= pos < |rows|
    ensures NextBatch(rows, filter, clock, 0, pos, |rows|).hits == Matches(rows, filter, pos + 1)
  {
    NextBatchFilters(rows, filter, clock, 0, pos, |rows|);
    MatchesCount(rows, filter, pos + 1);
  }

  /** First and then NextN yields exactly the selected rows, in key order, each once, when no
      row is later than the calls; and so from any other position. */
  lemma {:induction false} ForwardTraversal(rows: seq<Row>, filter: string, now: int, clock: nat -> int, pos: int)
    requires AllRows(rows) && InTime(rows, 0, |rows|, now) && NothingLater(rows, clock) && -1 <= pos <= |rows|
    ensures ReadForward(rows, filter, now, clock, pos) == Matches(rows, filter, pos + 1)
  {
    NextHitsFirstMatch(rows, filter, now, pos);
    if Matches(rows, filter, pos + 1) != [] {
      var at := FirstMatch(rows, filter, pos + 1);
      NextBatchAll(rows, filter, clock, at);
    }
  }

  lemma {:induction false} FirstMatch(rows: seq<Row>, filter: string, i: nat) returns (at: int)
    requires Matches(rows, filter, i) != []
    ensures 0 <= at < |rows| && at == Matches(rows, filter, i)[0]
    ensures Matches(rows, filter, i) == [at] + Matches(rows, filter, at + 1)
  {
    var ms := Matches(rows, filter, i);
    at := ms[0];
    MatchesTail(rows, filter, i);
    assert ms == [at] + ms[1..];
  }

  /** The hits are the filtered listing from p on, and they are exactly the selected rows from t on. */
  ghost predicate FromTimeOn(rows: seq<Row>, filter: string, hits: seq<int>, p: nat, t: int) {
    && AllRows(rows) && hits == Matches(rows, filter, p)
    && forall i :: 0 <= i < |rows| ==>
         (i in hits <==> (filter == "" || rows[i].name == filter) && rows[i].time >= t)
  }

  /** The rows from p on are exactly those at or after t. */
  ghost predicate CutsInTime(rows: seq<Row>, p: nat, t: int) {
    AllRows(rows) && p <= |rows| && forall i :: 0 <= i < |rows| ==> (p <= i <==> rows[i].time >= t)
  }

  /** If p cuts the rows in time at t, the traversal from there yields
      exactly the selected rows from t on. */
  lemma {:induction false} TraversalFromTime(rows: seq<Row>, filter: string, now: int, clock: nat -> int, p: int, t: int)
    requires InTime(rows, 0, |rows|, now) && NothingLater(rows, clock) && p >= 0 && CutsInTime(rows, p, t)
    ensures p <= |rows| && FromTimeOn(rows, filter, ReadForward(rows, filter, now, clock, p - 1), p, t)
  {
    ForwardTraversal(rows, filter, now, clock, p - 1);
    MatchesMeaning(rows, filter, p);
  }

  /** Last and then PrevN yields the exact reverse, with no condition on the clock. */
  lemma {:induction false} BackwardTraversal(rows: seq<Row>, filter: string)
    requires AllRows(rows) && AllDated(rows)
    ensures ReadBackward(rows, filter, |rows|) == Reverse(Matches(rows, filter, 0))
  {
    PrevHitsFirstMatch(rows, filter, |rows|);
    DownIsReverse(rows, filter, 0);
    MatchesCount(rows, filter, 0);
    ReverseLength(Matches(rows, filter, 0));
    var ms := MatchesDown(rows, filter, |rows| - 1);
    assert Reverse(Matches(rows, filter, 0)) + [] == ms;
    if ms != [] {
      MatchesDownTail(rows, filter, |rows| - 1);
      PrevBatchFilters(rows, filter, ms[0], |rows|);
      assert ms == [ms[0]] + ms[1..];
    }
  }

  lemma {:induction false} ReverseLength(s: seq<int>)
    ensures |Reverse(s)| == |s|
  {
    if s == [] {
    } else {
      ReverseLength(s[1..]);
    }
  }
}
