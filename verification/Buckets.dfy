/** The bucket contract: a set of keys with documents, and a positioned cursor over a snapshot
    of them in key order. */
module Buckets {
  import opened Text
  import opened HistoryCodec

  type Bucket = map<string, Bytes>
  datatype Entry = Entry(key: string, data: Bytes)

  ghost predicate Sorted(es: seq<Entry>) {
    forall i, j :: 0 <= i < j < |es| ==> Less(es[i].key, es[j].key)
  }

  ghost predicate HasKey(es: seq<Entry>, key: string) {
    exists i :: 0 <= i < |es| && es[i].key == key
  }

  /** `es` lists the bucket: every document once, in key order. */
  ghost predicate IsSnapshot(es: seq<Entry>, b: Bucket) {
    && Sorted(es)
    && (forall i :: 0 <= i < |es| ==> es[i].key in b && b[es[i].key] == es[i].data)
    && (forall k :: k in b ==> HasKey(es, k))
  }

  /** Insertion of a new key in front of the first larger one. */
  function Insert(es: seq<Entry>, e: Entry): seq<Entry> {
    if es == [] || Less(e.key, es[0].key) then [e] + es
    else [es[0]] + Insert(es[1..], e)
  }

  lemma {:induction false} InsertPlace(es: seq<Entry>, e: Entry) returns (p: nat)
    requires Sorted(es) && !HasKey(es, e.key)
    ensures p <= |es| && Insert(es, e) == es[..p] + [e] + es[p..]
    ensures forall i :: 0 <= i < p ==> Less(es[i].key, e.key)
    ensures forall i :: p <= i < |es| ==> Less(e.key, es[i].key)
  {
    if es == [] {
      p := 0;
    } else if Less(e.key, es[0].key) {
      p := 0;
      forall i | 0 < i < |es| ensures Less(e.key, es[i].key) {
        LessTransitive(e.key, es[0].key, es[i].key);
      }
    } else {
      var rest := es[1..];
      assert forall i :: 0 <= i < |rest| ==> rest[i] == es[i + 1];
      var q := InsertPlace(rest, e);
      p := q + 1;
      LessTotal(e.key, es[0].key);
      assert es[p..] == rest[q..];
      assert es[..p] == [es[0]] + rest[..q];
      forall i | 0 <= i < |es| ensures i < p ==> Less(es[i].key, e.key)
                               ensures i >= p ==> Less(e.key, es[i].key)
      {
        if i > 0 { assert es[i] == rest[i - 1]; }
      }
    }
  }

  lemma {:induction false} SortedAround(es: seq<Entry>, e: Entry, p: nat, r: seq<Entry>)
    requires Sorted(es) && p <= |es| && |r| == |es| + 1 && r[p] == e
    requires forall i :: 0 <= i < p ==> r[i] == es[i] && Less(es[i].key, e.key)
    requires forall i :: p < i < |r| ==> r[i] == es[i - 1] && Less(e.key, r[i].key)
    ensures Sorted(r)
  {
  }

  lemma {:induction false} InsertAt(es: seq<Entry>, e: Entry) returns (p: nat)
    requires Sorted(es) && !HasKey(es, e.key)
    ensures p <= |es| && |Insert(es, e)| == |es| + 1 && Insert(es, e)[p] == e
    ensures forall i :: 0 <= i < |es| ==> Insert(es, e)[if i < p then i else i + 1] == es[i]
    ensures Sorted(Insert(es, e))
  {
    p := InsertPlace(es, e);
    PutAt(es, e, p);
    SortedAround(es, e, p, es[..p] + [e] + es[p..]);
  }

  lemma {:induction false} PutAt(es: seq<Entry>, e: Entry, p: nat)
    requires p <= |es|
    ensures var r := es[..p] + [e] + es[p..];
            && r[p] == e && (forall i :: 0 <= i < p ==> r[i] == es[i])
            && (forall i :: p < i < |r| ==> r[i] == es[i - 1])
            && forall i :: 0 <= i < |es| ==> r[if i < p then i else i + 1] == es[i]
  {
  }

  lemma {:induction false} InsertHolds(es: seq<Entry>, e: Entry, p: nat, r: seq<Entry>, k: string)
    requires p <= |es| && |r| == |es| + 1 && r[p] == e
    requires forall i :: 0 <= i < |es| ==> r[if i < p then i else i + 1] == es[i]
    ensures HasKey(r, k) <==> k == e.key || HasKey(es, k)
  {
    forall i | 0 <= i < |r| && i != p ensures r[i] == es[if i < p then i else i - 1] {
      var j := if i < p then i else i - 1;
      assert r[if j < p then j else j + 1] == es[j];
    }
    if HasKey(es, k) {
      var i :| 0 <= i < |es| && es[i].key == k;
      assert r[if i < p then i else i + 1] == es[i];
    }
  }

  lemma {:induction false} InsertSnapshot(es: seq<Entry>, b: Bucket, e: Entry)
    requires IsSnapshot(es, b) && e.key !in b
    ensures IsSnapshot(Insert(es, e), b[e.key := e.data])
  {
    var p := InsertAt(es, e);
    var r, b' := Insert(es, e), b[e.key := e.data];
    forall i | 0 <= i < |r| ensures r[i].key in b' && b'[r[i].key] == r[i].data {
      var j := if i < p then i else i - 1;
      if i != p { assert r[if j < p then j else j + 1] == es[j]; }
    }
    forall k | k in b' ensures HasKey(r, k) {
      InsertHolds(es, e, p, r, k);
    }
  }

  /** A bucket has only one listing, so a cursor's view is fixed by the bucket's contents. */
  lemma {:induction false} SnapshotUnique(xs: seq<Entry>, ys: seq<Entry>, b: Bucket)
    requires IsSnapshot(xs, b) && IsSnapshot(ys, b)
    ensures xs == ys
    decreases |xs|
  {
    if xs == [] {
      assert b.Keys == {};
      assert |ys| == 0;
    } else {
      assert b[xs[0].key] == xs[0].data;
      SameFirst(xs, ys, b);
      TailSnapshot(xs, b);
      TailSnapshot(ys, b);
      SnapshotUnique(xs[1..], ys[1..], b - {xs[0].key});
      assert xs == [xs[0]] + xs[1..] && ys == [ys[0]] + ys[1..];
    }
  }

  lemma {:induction false} SameFirst(xs: seq<Entry>, ys: seq<Entry>, b: Bucket)
    requires IsSnapshot(xs, b) && IsSnapshot(ys, b) && xs != []
    ensures ys != [] && xs[0] == ys[0]
  {
    assert HasKey(ys, xs[0].key);
    var i :| 0 <= i < |ys| && ys[i].key == xs[0].key;
    assert HasKey(xs, ys[0].key);
    var j :| 0 <= j < |xs| && xs[j].key == ys[0].key;
    if i > 0 && j > 0 {
      LessAsymmetric(ys[0].key, ys[i].key);
    }
  }

  lemma {:induction false} TailSnapshot(es: seq<Entry>, b: Bucket)
    requires IsSnapshot(es, b) && es != []
    ensures IsSnapshot(es[1..], b - {es[0].key})
  {
    var rest, c := es[1..], b - {es[0].key};
    forall i | 0 <= i < |rest| ensures rest[i].key in c && c[rest[i].key] == rest[i].data {
      assert rest[i] == es[i + 1];
      LessAsymmetric(es[0].key, es[i + 1].key);
    }
    forall k | k in c ensures HasKey(rest, k) {
      assert HasKey(es, k);
      var i :| 0 <= i < |es| && es[i].key == k;
      assert rest[i - 1] == es[i];
    }
  }

  /** The cursor of a bucket. Position -1 is before the first entry, |entries| past the last. */
  class BucketCursor {
    const bucketID: string
    const filter: string
    const entries: seq<Entry>
    var pos: int

    ghost predicate Valid()
      reads this
    {
      -1 <= pos <= |entries|
    }

    constructor (bucketID: string, filter: string, bucket: Bucket)
      ensures Valid() && pos == -1
      ensures this.bucketID == bucketID && this.filter == filter
      ensures IsSnapshot(entries, bucket)
    {
      var es: seq<Entry> := [];
      var done: Bucket := map[];
      var todo := bucket.Keys;
      while todo != {}
        invariant todo <= bucket.Keys
        invariant done == map k | k in bucket.Keys - todo :: bucket[k]
        invariant IsSnapshot(es, done)
        decreases todo
      {
        var k :| k in todo;
        InsertSnapshot(es, done, Entry(k, bucket[k]));
        es := Insert(es, Entry(k, bucket[k]));
        done := done[k := bucket[k]];
        todo := todo - {k};
      }
      assert done == bucket;
      this.bucketID := bucketID;
      this.filter := filter;
      this.entries := es;
      this.pos := -1;
    }

    function At(i: int): (e: Option<Entry>)
    {
      if 0 <= i < |entries| then Some(entries[i]) else None
    }

    method First() returns (e: Option<Entry>)
      requires Valid()
      modifies this
      ensures Valid() && pos == 0 && e == At(0)
    {
      pos := 0;
      e := At(pos);
    }

    method Last() returns (e: Option<Entry>)
      requires Valid()
      modifies this
      ensures Valid() && pos == |entries| - 1 && e == At(pos)
    {
      pos := |entries| - 1;
      e := At(pos);
    }

    method Next() returns (e: Option<Entry>)
      requires Valid()
      modifies this
      ensures Valid() && e == At(pos)
      ensures pos == if old(pos) < |entries| then old(pos) + 1 else old(pos)
    {
      if pos < |entries| { pos := pos + 1; }
      e := At(pos);
    }

    method Prev() returns (e: Option<Entry>)
      requires Valid()
      modifies this
      ensures Valid() && e == At(pos)
      ensures pos == if old(pos) >= 0 then old(pos) - 1 else old(pos)
    {
      if pos >= 0 { pos := pos - 1; }
      e := At(pos);
    }

    /** Positions at the first key that is not below the search key. */
    method Seek(searchKey: string) returns (e: Option<Entry>)
      requires Valid()
      modifies this
      ensures Valid() && 0 <= pos && e == At(pos)
      ensures forall i :: 0 <= i < pos ==> Less(entries[i].key, searchKey)
      ensures pos < |entries| ==> !Less(entries[pos].key, searchKey)
    {
      pos := 0;
      while pos < |entries| && Less(entries[pos].key, searchKey)
        invariant 0 <= pos <= |entries|
        invariant forall i :: 0 <= i < pos ==> Less(entries[i].key, searchKey)
      {
        pos := pos + 1;
      }
      e := At(pos);
    }
  }
}
