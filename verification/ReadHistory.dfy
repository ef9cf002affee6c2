/** The history reading service: cursor operations with a name filter and a time limit. The
    clock readings the source takes are parameters. */
module ReadHistory {
  import opened Text
  import opened HistoryCodec
  import opened Buckets
  import opened HistoryScan

  /** A nil response, or one holding a value and its validity. */
  datatype Reply = NoReply | Reply(value: Option<ThingValue>, valid: bool)

  function RowOf(e: Entry): Row {
    var parts := Split(e.key, '/');
    if |parts| == 4 then Row(parts[1], ParseInt(parts[0]))
    else if |parts| > 2 then Odd(parts[1], ParseInt(parts[0]))
    else Blank
  }

  /** How an encoded key is listed: with its name and time if name and sender are free of slashes,
      so that the key has four parts, and else as a key that scans skip. */
  lemma {:induction false} EncodedRow(tv: ThingValue, now: Int64, data: Bytes)
    ensures var t := if tv.createdMSec > 0 then tv.createdMSec else now;
            RowOf(Entry(EncodeKey(tv, now), data))
            == if '/' !in tv.name && '/' !in tv.senderID then Row(tv.name, t) else Odd(Split(tv.name, '/')[0], t)
  {
    EncodedKeyShape(tv, now);
    KeyFields(tv, now);
    SplitPlain(tv.name, '/');
  }

  /** A key whose sender is omitted is skipped by scans too; one without any slash cannot be read. */
  lemma {:induction false} ShortRow(stamp: string, name: string, mark: string, data: Bytes)
    requires '/' !in stamp && '/' !in name && '/' !in mark
    ensures RowOf(Entry(stamp + "/" + name + "/" + mark, data)) == Odd(name, ParseInt(stamp))
    ensures RowOf(Entry(stamp, data)) == Blank
  {
    SplitPlain(stamp, '/');
    SplitPlain(name, '/');
    SplitPlain(mark, '/');
    SplitAppend(stamp, name, '/');
    SplitAppend(stamp + "/" + name, mark, '/');
  }

  function Rows(es: seq<Entry>): (rows: seq<Row>)
    ensures |rows| == |es|
  {
    if es == [] then [] else Rows(es[..|es| - 1]) + [RowOf(es[|es| - 1])]
  }

  lemma {:induction false} RowsAt(es: seq<Entry>, i: nat)
    requires i < |es|
    ensures Rows(es)[i] == RowOf(es[i])
    decreases |es|
  {
    if i < |es| - 1 { RowsAt(es[..|es| - 1], i); }
  }

  /** What the service relies on: it opened the cursor on agentID/thingID, and no stored key has
      exactly two parts, on which decodeValue would panic. */
  ghost predicate Readable(c: BucketCursor) {
    && |Split(c.bucketID, '/')| >= 2
    && forall i :: 0 <= i < |c.entries| ==> |Split(c.entries[i].key, '/')| != 2
  }

  /** The value an entry of the bucket carries: its data, and the fields its key and the bucket's
      ID spell out. A missing sender is empty, an unknown type mark means event. */
  ghost predicate Carried(bucketID: string, e: Entry, tv: ThingValue) {
    var parts, addr := Split(e.key, '/'), Split(bucketID, '/');
    && |parts| > 2 && |addr| > 1
    && tv.agentID == addr[0] && tv.thingID == addr[1] && tv.data == e.data
    && tv.createdMSec == ParseInt(parts[0]) && tv.name == parts[1]
    && tv.valueType == (if parts[2] == "a" then "action" else if parts[2] == "c" then "config" else "event")
    && tv.senderID == if |parts| > 3 then parts[3] else ""
  }

  lemma {:induction false} DecodeCarries(bucketID: string, e: Entry)
    ensures var d := Decode(bucketID, e.key, e.data);
            && (d.Decoded? <==> |Split(e.key, '/')| > 2 && |Split(bucketID, '/')| > 1)
            && (d.Decoded? ==> Carried(bucketID, e, d.tv))
  {
  }

  /** The reply of a call that took the scan `s`: a hit shows what the entry there carries. */
  ghost predicate Answers(c: BucketCursor, s: Scan, found: Option<ThingValue>) {
    && (found.Some? <==> s.Hit?)
    && (s.Hit? ==> 0 <= s.at < |c.entries| && Carried(c.bucketID, c.entries[s.at], found.value))
  }

  ghost predicate Replies(c: BucketCursor, s: Scan, r: Reply) {
    r.Reply? && r.valid == s.Hit? && Answers(c, s, r.value)
  }

  /** The values that the entries at the given positions carry. */
  ghost predicate CarriedAt(es: seq<Entry>, bucketID: string, hits: seq<int>, values: seq<ThingValue>) {
    && |values| == |hits|
    && forall k :: 0 <= k < |hits| ==> 0 <= hits[k] < |es| && Carried(bucketID, es[hits[k]], values[k])
  }

  lemma {:induction false} CarriedMore(es: seq<Entry>, bucketID: string, hits: seq<int>, values: seq<ThingValue>, h: int, tv: ThingValue)
    requires CarriedAt(es, bucketID, hits, values) && 0 <= h < |es| && Carried(bucketID, es[h], tv)
    ensures CarriedAt(es, bucketID, hits + [h], values + [tv])
  {
  }

  /** Index of the first entry not below the search key. */
  function SeekIndex(es: seq<Entry>, searchKey: string): (p: nat)
    ensures p <= |es|
    ensures forall i :: 0 <= i < p ==> Less(es[i].key, searchKey)
    ensures p < |es| ==> !Less(es[p].key, searchKey)
  {
    if es == [] || !Less(es[0].key, searchKey) then 0
    else
      var p := SeekIndex(es[1..], searchKey) + 1;
      assert forall i :: 1 <= i < p ==> es[i] == es[1..][i - 1];
      p
  }

  // ----- the scanning loops

  /** The loop of findNextName: the entry it decodes, if any. */
  method NextNamed(c: BucketCursor, name: string, until: int) returns (hit: Option<Entry>)
    requires c.Valid() && 0 <= c.pos
    modifies c
    ensures c.Valid()
    ensures var s := ScanNext(Rows(c.entries), name, until, old(c.pos) + 1);
            && c.pos == PosAfterNext(s, |c.entries|)
            && hit == if s.Hit? then Some(c.entries[s.at]) else None
    ensures hit.Some? ==> |Split(hit.value.key, '/')| == 4
  {
    ghost var rows, from := Rows(c.entries), c.pos + 1;
    while true
      invariant c.Valid() && 0 <= c.pos
      invariant ScanNext(rows, name, until, c.pos + 1) == ScanNext(rows, name, until, from)
      invariant c.pos == |c.entries| ==> c.pos + 1 == from
      decreases |c.entries| - c.pos
    {
      hit := c.Next();
      if hit.None? {
        return;
      }
      var row := RowOf(hit.value);
      RowsAt(c.entries, c.pos);
      if row.Row? {
        if row.time > until {
          // undo the last step so that a call with a later limit can include this entry
          var _ := c.Prev();
          return None;
        }
        if name == row.name {
          return;
        }
      }
    }
  }

  method FindNextName(c: BucketCursor, name: string, until: int) returns (found: Option<ThingValue>)
    requires c.Valid() && 0 <= c.pos && |Split(c.bucketID, '/')| >= 2
    modifies c
    ensures c.Valid()
    ensures var s := ScanNext(Rows(c.entries), name, until, old(c.pos) + 1);
            c.pos == PosAfterNext(s, |c.entries|) && Answers(c, s, found)
  {
    var hit := NextNamed(c, name, until);
    if hit.None? {
      return None;
    }
    DecodeCarries(c.bucketID, hit.value);
    found := Some(Decode(c.bucketID, hit.value.key, hit.value.data).tv);
  }

  method PrevNamed(c: BucketCursor, name: string, until: int) returns (hit: Option<Entry>)
    requires c.Valid() && c.pos < |c.entries|
    modifies c
    ensures c.Valid()
    ensures var s := ScanPrev(Rows(c.entries), name, until, old(c.pos) - 1);
            && c.pos == PosAfterPrev(s)
            && hit == if s.Hit? then Some(c.entries[s.at]) else None
    ensures hit.Some? ==> |Split(hit.value.key, '/')| == 4
  {
    ghost var rows := Rows(c.entries);
    while true
      invariant c.Valid() && c.pos < |c.entries|
      invariant ScanPrev(rows, name, until, c.pos - 1) == ScanPrev(rows, name, until, old(c.pos) - 1)
      invariant c.pos == -1 ==> c.pos == old(c.pos)
      decreases c.pos
    {
      hit := c.Prev();
      if hit.None? {
        return;
      }
      var row := RowOf(hit.value);
      RowsAt(c.entries, c.pos);
      if row.Row? {
        if row.time < until {
          var _ := c.Next();
          return None;
        }
        if name == row.name {
          return;
        }
      }
    }
  }

  method FindPrevName(c: BucketCursor, name: string, until: int) returns (found: Option<ThingValue>)
    requires c.Valid() && c.pos < |c.entries| && |Split(c.bucketID, '/')| >= 2
    modifies c
    ensures c.Valid()
    ensures var s := ScanPrev(Rows(c.entries), name, until, old(c.pos) - 1);
            c.pos == PosAfterPrev(s) && Answers(c, s, found)
  {
    var hit := PrevNamed(c, name, until);
    if hit.None? {
      return None;
    }
    DecodeCarries(c.bucketID, hit.value);
    found := Some(Decode(c.bucketID, hit.value.key, hit.value.data).tv);
  }

  // ----- single steps

  /** decodeValue of the entry under the cursor. */
  method CurrentValue(c: BucketCursor, e: Entry) returns (tv: Option<ThingValue>)
    requires Readable(c) && 0 <= c.pos < |c.entries| && e == c.entries[c.pos]
    ensures tv.None? <==> |Split(e.key, '/')| < 3
    ensures tv.Some? ==> Carried(c.bucketID, e, tv.value)
    ensures tv.None? <==> RowOf(e).Blank?
    ensures tv.Some? ==> tv.value.name == RowOf(e).name && tv.value.createdMSec == RowOf(e).time
  {
    DecodeCarries(c.bucketID, e);
    var d := Decode(c.bucketID, e.key, e.data);
    tv := if d.Decoded? then Some(d.tv) else None;
  }

  /** The entry under the cursor, or the next one of the filter's name. */
  method ShowForward(c: BucketCursor, e: Entry, now: int) returns (r: Reply)
    requires c.Valid() && Readable(c) && 0 <= c.pos < |c.entries| && e == c.entries[c.pos]
    modifies c
    ensures c.Valid() && 0 <= c.pos
    ensures var s := NextScan(Rows(c.entries), c.filter, now, old(c.pos) - 1);
            c.pos == PosAfterNext(s, |c.entries|) && Replies(c, s, r)
  {
    ghost var s := NextScan(Rows(c.entries), c.filter, now, c.pos - 1);
    RowsAt(c.entries, c.pos);
    var v := CurrentValue(c, e);
    if v.Some? && c.filter != "" && v.value.name != c.filter {
      assert s == ScanNext(Rows(c.entries), c.filter, now, c.pos + 1);
      v := FindNextName(c, c.filter, now);
    } else {
      assert s == if v.Some? then Hit(c.pos) else Unread(c.pos);
    }
    r := Reply(v, v.Some?);
  }

  /** The entry under the cursor, or the previous one of the filter's name. */
  method ShowBackward(c: BucketCursor, e: Entry) returns (r: Reply)
    requires c.Valid() && Readable(c) && 0 <= c.pos < |c.entries| && e == c.entries[c.pos]
    modifies c
    ensures c.Valid() && c.pos < |c.entries|
    ensures var s := PrevScan(Rows(c.entries), c.filter, old(c.pos) + 1);
            c.pos == PosAfterPrev(s) && Replies(c, s, r)
  {
    ghost var s := PrevScan(Rows(c.entries), c.filter, c.pos + 1);
    RowsAt(c.entries, c.pos);
    var v := CurrentValue(c, e);
    if v.Some? && c.filter != "" && v.value.name != c.filter {
      assert s == ScanPrev(Rows(c.entries), c.filter, BeginningOfTime, c.pos - 1);
      v := FindPrevName(c, c.filter, BeginningOfTime);
    } else {
      assert s == if v.Some? then Hit(c.pos) else Unread(c.pos);
    }
    r := Reply(v, v.Some?);
  }

  method First(c: BucketCursor, now: int) returns (r: Reply)
    requires c.Valid() && Readable(c)
    modifies c
    ensures c.Valid() && 0 <= c.pos
    ensures var s := NextScan(Rows(c.entries), c.filter, now, -1);
            && c.pos == PosAfterNext(s, |c.entries|)
            && if c.entries == [] then r == NoReply else Replies(c, s, r)
  {
    var e := c.First();
    if e.None? {
      return NoReply;
    }
    r := ShowForward(c, e.value, now);
  }

  method Last(c: BucketCursor) returns (r: Reply)
    requires c.Valid() && Readable(c)
    modifies c
    ensures c.Valid() && c.pos < |c.entries|
    ensures var s := PrevScan(Rows(c.entries), c.filter, |c.entries|);
            c.pos == PosAfterPrev(s) && Replies(c, s, r)
  {
    var e := c.Last();
    if e.None? {
      return Reply(None, false);
    }
    r := ShowBackward(c, e.value);
  }

  /** Next; First or Seek must have been called before. */
  method Next(c: BucketCursor, now: int) returns (r: Reply)
    requires c.Valid() && Readable(c) && 0 <= c.pos
    modifies c
    ensures c.Valid() && 0 <= c.pos
    ensures var s := NextScan(Rows(c.entries), c.filter, now, old(c.pos));
            c.pos == PosAfterNext(s, |c.entries|) && Replies(c, s, r)
  {
    var e := c.Next();
    if e.None? {
      return Reply(None, false);
    }
    r := ShowForward(c, e.value, now);
  }

  /** Prev; Last or Seek must have been called before. */
  method Prev(c: BucketCursor) returns (r: Reply)
    requires c.Valid() && Readable(c) && c.pos < |c.entries|
    modifies c
    ensures c.Valid() && c.pos < |c.entries|
    ensures var s := PrevScan(Rows(c.entries), c.filter, old(c.pos));
            c.pos == PosAfterPrev(s) && Replies(c, s, r)
  {
    var e := c.Prev();
    if e.None? {
      return Reply(None, false);
    }
    r := ShowBackward(c, e.value);
  }

  method Seek(c: BucketCursor, timestamp: Int64, now: int) returns (r: Reply)
    requires c.Valid() && Readable(c)
    modifies c
    ensures c.Valid() && 0 <= c.pos
    ensures var p: int := SeekIndex(c.entries, FormatInt(timestamp));
            var s := NextScan(Rows(c.entries), c.filter, now, p - 1);
            c.pos == PosAfterNext(s, |c.entries|) && Replies(c, s, r)
  {
    var e := c.Seek(FormatInt(timestamp));
    assert c.pos == SeekIndex(c.entries, FormatInt(timestamp));
    if e.None? {
      return Reply(None, false);
    }
    r := ShowForward(c, e.value, now);
  }

  // ----- batches

  method NextN(c: BucketCursor, limit: nat, clock: nat -> int)
    returns (values: seq<ThingValue>, itemsRemaining: bool)
    requires c.Valid() && Readable(c) && 0 <= c.pos
    modifies c
    ensures c.Valid() && 0 <= c.pos
    ensures var b := NextBatch(Rows(c.entries), c.filter, clock, 0, old(c.pos), limit);
            c.pos == b.pos && CarriedAt(c.entries, c.bucketID, b.hits, values)
    ensures itemsRemaining <==> |values| == limit
  {
    ghost var rows := Rows(c.entries);
    ghost var all := NextBatch(rows, c.filter, clock, 0, c.pos, limit);
    ghost var hits: seq<int> := [];
    values := [];
    itemsRemaining := true;
    var i := 0;
    while i < limit
      invariant 0 <= i <= limit && c.Valid() && 0 <= c.pos
      invariant |hits| == i && CarriedAt(c.entries, c.bucketID, hits, values)
      invariant NextUnderway(rows, c.filter, clock, limit, all, i, hits, c.pos)
    {
      NextUnderwayStep(rows, c.filter, clock, limit, all, i, hits, c.pos);
      var r := Next(c, clock(i));
      if !r.valid {
        return values, false;
      }
      CarriedMore(c.entries, c.bucketID, hits, values, c.pos, r.value.value);
      hits := hits + [c.pos];
      values := values + [r.value.value];
      i := i + 1;
    }
    assert hits + [] == hits;
  }

  method PrevN(c: BucketCursor, limit: nat)
    returns (values: seq<ThingValue>, itemsRemaining: bool)
    requires c.Valid() && Readable(c) && c.pos < |c.entries|
    modifies c
    ensures c.Valid() && c.pos < |c.entries|
    ensures var b := PrevBatch(Rows(c.entries), c.filter, old(c.pos), limit);
            c.pos == b.pos && CarriedAt(c.entries, c.bucketID, b.hits, values)
    ensures itemsRemaining <==> |values| == limit
  {
    ghost var rows := Rows(c.entries);
    ghost var all := PrevBatch(rows, c.filter, c.pos, limit);
    ghost var hits: seq<int> := [];
    values := [];
    itemsRemaining := true;
    var i := 0;
    while i < limit
      invariant 0 <= i <= limit && c.Valid() && c.pos < |c.entries|
      invariant |hits| == i && CarriedAt(c.entries, c.bucketID, hits, values)
      invariant PrevUnderway(rows, c.filter, limit, all, i, hits, c.pos)
    {
      PrevUnderwayStep(rows, c.filter, limit, all, i, hits, c.pos);
      var r := Prev(c);
      if !r.valid {
        return values, false;
      }
      CarriedMore(c.entries, c.bucketID, hits, values, c.pos, r.value.value);
      hits := hits + [c.pos];
      values := values + [r.value.value];
      i := i + 1;
    }
    assert hits + [] == hits;
  }

  // ----- whole traversals

  /** First and then NextN with a limit that is never reached. */
  method ReadAll(c: BucketCursor, now: int, clock: nat -> int) returns (values: seq<ThingValue>)
    requires c.Valid() && Readable(c)
    modifies c
    ensures CarriedAt(c.entries, c.bucketID, ReadForward(Rows(c.entries), c.filter, now, clock, -1), values)
  {
    var r := First(c, now);
    values := [];
    if r.Reply? && r.valid {
      var more, _ := NextN(c, |c.entries|, clock);
      values := [r.value.value] + more;
    }
  }

  /** Last and then PrevN. */
  method ReadAllBack(c: BucketCursor) returns (values: seq<ThingValue>)
    requires c.Valid() && Readable(c)
    modifies c
    ensures CarriedAt(c.entries, c.bucketID, ReadBackward(Rows(c.entries), c.filter, |c.entries|), values)
  {
    var r := Last(c);
    values := [];
    if r.valid {
      var more, _ := PrevN(c, |c.entries|);
      values := [r.value.value] + more;
    }
  }

  // ----- time order

  ghost predicate AllStamped(es: seq<Entry>, w: nat) {
    forall i :: 0 <= i < |es| ==> StampedKey(es[i].key, w)
  }

  lemma {:induction false} LaterIndexLaterTime(es: seq<Entry>, i: nat, j: nat, w: nat)
    requires Sorted(es) && AllStamped(es, w) && i <= j < |es|
    ensures KeyTime(es[i].key) <= KeyTime(es[j].key)
  {
    if i < j { KeyOrderFollowsTime(es[i].key, es[j].key, w); }
  }

  lemma {:induction false} BeforeSeekIndex(es: seq<Entry>, t: Int64, w: nat, i: nat)
    requires AllStamped(es, w) && t > 0 && Width(t) == w && i < |es|
    ensures var p := SeekIndex(es, FormatInt(t));
            (i < p ==> KeyTime(es[i].key) < t) && (i == p ==> KeyTime(es[i].key) >= t)
  {
    SeekKeyOrder(es[i].key, t, w);
  }

  lemma {:induction false} SeekCutsAt(es: seq<Entry>, t: Int64, w: nat, i: nat)
    requires Sorted(es) && AllStamped(es, w) && t > 0 && Width(t) == w && i < |es|
    ensures SeekIndex(es, FormatInt(t)) <= i <==> KeyTime(es[i].key) >= t
  {
    var p := SeekIndex(es, FormatInt(t));
    BeforeSeekIndex(es, t, w, i);
    if p < i {
      BeforeSeekIndex(es, t, w, p);
      LaterIndexLaterTime(es, p, i, w);
    }
  }

  lemma {:induction false} StampedRows(es: seq<Entry>, w: nat)
    requires AllStamped(es, w)
    ensures AllRows(Rows(es))
    ensures forall i :: 0 <= i < |es| ==> Rows(es)[i].time == KeyTime(es[i].key)
  {
    forall i | 0 <= i < |es| ensures Rows(es)[i].Row? && Rows(es)[i].time == KeyTime(es[i].key) {
      RowsAt(es, i);
    }
  }

  /** In a listing whose timestamps have one width, Seek cuts it in time: the entries from the
      found position on are exactly those at or after t. */
  lemma {:induction false} SeekCutsInTime(es: seq<Entry>, t: Int64, w: nat)
    requires Sorted(es) && AllStamped(es, w) && t > 0 && Width(t) == w
    ensures CutsInTime(Rows(es), SeekIndex(es, FormatInt(t)), t)
  {
    StampedRows(es, w);
    forall i | 0 <= i < |es| ensures SeekIndex(es, FormatInt(t)) <= i <==> Rows(es)[i].time >= t {
      SeekCutsAt(es, t, w, i);
    }
  }

  /** A sorted listing whose timestamps have the width of the positive time t. */
  ghost predicate OneWidthAs(es: seq<Entry>, t: Int64, w: nat) {
    Sorted(es) && AllStamped(es, w) && t > 0 && Width(t) == w
  }

  /** Seek(t) and then NextN enumerates exactly the selected entries from t on, in key order. */
  lemma {:induction false} SeekTraversal(es: seq<Entry>, filter: string, now: int, clock: nat -> int, t: Int64, w: nat)
    requires OneWidthAs(es, t, w)
    requires InTime(Rows(es), 0, |Rows(es)|, now) && NothingLater(Rows(es), clock)
    ensures var rows, p: int := Rows(es), SeekIndex(es, FormatInt(t));
            FromTimeOn(rows, filter, ReadForward(rows, filter, now, clock, p - 1), p, t)
  {
    var rows, p: int := Rows(es), SeekIndex(es, FormatInt(t));
    assert p >= 0 && CutsInTime(rows, p, t) by { SeekCutsInTime(es, t, w); }
    TraversalFromTime(rows, filter, now, clock, p, t);
  }
}
