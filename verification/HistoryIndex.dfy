/** The two views of the history agree: what the latest-value cache holds for a name is what
    a cursor filtered on that name finds last, and what it finds in all is what was kept. */
module HistoryIndex {
  import opened Messages
  import opened Text
  import opened HistoryCodec
  import opened Buckets
  import opened HistoryScan
  import opened ReadHistory
  import opened LatestProperties
  import opened AddHistory

  const Empty: History := History(map[], Store(map[], map[], map[]))

  ghost predicate IsKept(cfg: Config, a: Arrival) {
    Keeps(cfg.rules, a.tv)
  }

  /** The time a kept value is given on validation. */
  function TimeGiven(a: Arrival): Int64 {
    if a.tv.createdMSec == 0 then a.clock.validated else a.tv.createdMSec
  }

  /** The values that were kept, dated, in order of arrival. */
  ghost function KeptValues(cfg: Config, arrivals: seq<Arrival>): seq<ThingValue> {
    if arrivals == [] then []
    else
      var before, a := KeptValues(cfg, arrivals[..|arrivals| - 1]), arrivals[|arrivals| - 1];
      if IsKept(cfg, a) then before + [a.tv.(createdMSec := TimeGiven(a))] else before
  }

  predicate SlashFree(tv: ThingValue) {
    '/' !in tv.name && '/' !in tv.senderID
  }

  // ----- which keys a run stores

  ghost predicate KeptSlashFree(cfg: Config, arrivals: seq<Arrival>) {
    forall a :: a in arrivals && IsKept(cfg, a) ==> SlashFree(a.tv)
  }

  /** Every key in every bucket of every run has four parts, so no reader can panic on one,
      provided names and senders are free of slashes. */
  lemma {:induction false} StoredKeysReadable(cfg: Config, arrivals: seq<Arrival>, addr: string, key: string)
    requires KeptSlashFree(cfg, arrivals) && key in BucketOf(AddSeq(cfg, Empty, arrivals).buckets, addr)
    ensures FourParts(key)
    decreases |arrivals|
  {
    var rest, a := arrivals[..|arrivals| - 1], arrivals[|arrivals| - 1];
    assert forall x :: x in rest ==> x in arrivals;
    KeptExactly(cfg.rules, a.tv, a.clock.validated);
    if key in BucketOf(AddSeq(cfg, Empty, rest).buckets, addr) {
      StoredKeysReadable(cfg, rest, addr, key);
    } else {
      var tv := Validate(cfg.rules, a.tv, a.clock.validated).tv;
      assert a in arrivals && key == EncodeKey(tv, a.clock.encoded);
      EncodedKeyShape(tv, a.clock.encoded);
    }
  }

  /** In every state, whatever it holds: the key of an added value and the value offered to the
      cache carry the same time if and only if the value did not come with a negative time, or the
      two clock readings happen to coincide. */
  lemma {:induction false} StampsAgreeExactly(cfg: Config, h: History, a: Arrival)
    requires IsKept(cfg, a) && a.clock.validated > 0
    ensures var tv := a.tv.(createdMSec := TimeGiven(a));
            var key, offered := EncodeKey(tv, a.clock.encoded), Dated(tv, a.clock.cached);
            && key in BucketOf(AddOne(cfg, h, a).buckets, Address(a.tv))
            && AddOne(cfg, h, a).latest == h.latest.Add(cfg.unpack, offered)
            && (KeyTime(key) == offered.createdMSec
                <==> a.tv.createdMSec >= 0 || a.clock.encoded == a.clock.cached)
  {
    KeptExactly(cfg.rules, a.tv, a.clock.validated);
    EncodedKeyShape(a.tv.(createdMSec := TimeGiven(a)), a.clock.encoded);
  }

  /** A value at -1 ms that is added while the clock moves from 1 to 2 gets the key of 1 ms and is
      offered to the cache at 2 ms. */
  lemma {:induction false} NegativeTimeDisagrees(unpack: Unpacker, h: History, v: ThingValue) returns (key: string)
    requires Complete(v) && v.createdMSec == -1
    ensures var h' := AddOne(Config(map[], unpack), h, Arrival(v, Clock(1, 1, 2)));
            && key in BucketOf(h'.buckets, Address(v)) && KeyTime(key) == 1
            && h'.latest == h.latest.Add(unpack, v.(createdMSec := 2))
  {
    key := EncodeKey(v, 1);
    EncodedKeyShape(v, 1);
    StampsAgreeExactly(Config(map[], unpack), h, Arrival(v, Clock(1, 1, 2)));
  }

  // ----- buckets and cache mirror the kept values

  /** What is needed of a kept value: no slash in name and sender, and a positive time, its own
      or, if it has none, the one it is given on validation. */
  predicate Storable(a: Arrival) {
    SlashFree(a.tv) && TimeGiven(a) > 0
  }

  ghost predicate AllStorable(cfg: Config, arrivals: seq<Arrival>) {
    forall a :: a in arrivals && IsKept(cfg, a) ==> Storable(a)
  }

  predicate Sound(v: ThingValue) {
    SlashFree(v) && v.createdMSec > 0
  }

  /** The key of a value with its own timestamp does not depend on the clock. */
  function KeyOf(v: ThingValue): string {
    EncodeKey(v, 1)
  }

  /** The last kept value of a thing under a key: a later one with the same key replaces it. */
  function LastWith(vs: seq<ThingValue>, addr: string, key: string): (r: Option<ThingValue>)
    ensures r.Some? ==> r.value in vs && Address(r.value) == addr && KeyOf(r.value) == key
  {
    if vs == [] then None
    else
      var v := vs[|vs| - 1];
      if Address(v) == addr && KeyOf(v) == key then Some(v) else LastWith(vs[..|vs| - 1], addr, key)
  }

  lemma {:induction false} LastWithSome(vs: seq<ThingValue>, v: ThingValue)
    requires v in vs
    ensures LastWith(vs, Address(v), KeyOf(v)).Some?
  {
    var last := vs[|vs| - 1];
    if Address(last) != Address(v) || KeyOf(last) != KeyOf(v) {
      assert vs == vs[..|vs| - 1] + [last];
      LastWithSome(vs[..|vs| - 1], v);
    }
  }

  lemma {:induction false} LastWithMore(vs: seq<ThingValue>, v: ThingValue, addr: string, key: string)
    ensures LastWith(vs + [v], addr, key)
         == if Address(v) == addr && KeyOf(v) == key then Some(v) else LastWith(vs, addr, key)
  {
    assert (vs + [v])[..|vs|] == vs;
  }

  /** A bucket holds exactly the keys of the kept values of its thing, each with its last data. */
  ghost predicate Holds(b: Bucket, vs: seq<ThingValue>, addr: string, key: string) {
    var last := LastWith(vs, addr, key);
    (key in b <==> last.Some?) && (key in b ==> b[key] == last.value.data)
  }

  ghost predicate Mirrors(cfg: Config, h: History, vs: seq<ThingValue>) {
    && (forall v :: v in vs ==> Sound(v))
    && (forall addr, key :: Holds(BucketOf(h.buckets, addr), vs, addr, key))
    && h.latest.cache == AddAll(cfg.unpack, vs) && h.latest.records == map[]
  }

  lemma {:induction false} AddKeepsMirror(cfg: Config, h: History, vs: seq<ThingValue>, a: Arrival)
    requires Mirrors(cfg, h, vs) && Storable(a) && IsKept(cfg, a)
    ensures Mirrors(cfg, AddOne(cfg, h, a), vs + [a.tv.(createdMSec := TimeGiven(a))])
  {
    var h', tv := AddOne(cfg, h, a), a.tv.(createdMSec := TimeGiven(a));
    KeptExactly(cfg.rules, a.tv, a.clock.validated);
    assert Dated(tv, a.clock.cached) == tv;
    assert Sound(tv) && EncodeKey(tv, a.clock.encoded) == KeyOf(tv);
    AddIsAddAll(cfg.unpack, h.latest, vs, tv);
    forall addr, key ensures Holds(BucketOf(h'.buckets, addr), vs + [tv], addr, key) {
      LastWithMore(vs, tv, addr, key);
      assert Holds(BucketOf(h.buckets, addr), vs, addr, key);
    }
  }

  /** Over every run from empty stores the buckets and the cache mirror the kept values. */
  lemma {:induction false} RunMirrors(cfg: Config, arrivals: seq<Arrival>)
    requires AllStorable(cfg, arrivals)
    ensures Mirrors(cfg, AddSeq(cfg, Empty, arrivals), KeptValues(cfg, arrivals))
  {
    if arrivals == [] {
    } else {
      var rest, a := arrivals[..|arrivals| - 1], arrivals[|arrivals| - 1];
      assert forall x :: x in rest ==> x in arrivals;
      RunMirrors(cfg, rest);
      if IsKept(cfg, a) {
        assert a in arrivals;
        AddKeepsMirror(cfg, AddSeq(cfg, Empty, rest), KeptValues(cfg, rest), a);
      } else {
        NotKeptChangesNothing(cfg, AddSeq(cfg, Empty, rest), a);
      }
    }
  }

  // ----- the listing of a mirrored bucket

  /** `es` lists the bucket of `addr` in a state that mirrors `vs`. */
  ghost predicate Listing(cfg: Config, h: History, vs: seq<ThingValue>, addr: string, es: seq<Entry>) {
    Mirrors(cfg, h, vs) && IsSnapshot(es, BucketOf(h.buckets, addr))
  }

  lemma {:induction false} SoundKey(v: ThingValue)
    requires Sound(v)
    ensures StampedKey(KeyOf(v), Width(v.createdMSec)) && KeyTime(KeyOf(v)) == v.createdMSec
    ensures forall data :: RowOf(Entry(KeyOf(v), data)) == Row(v.name, v.createdMSec)
  {
    EncodedKeyShape(v, 1);
  }

  /** Every listed entry is the encoding of the last value kept under its key. */
  lemma {:induction false} EntryIsKept(cfg: Config, h: History, vs: seq<ThingValue>, addr: string, es: seq<Entry>, i: nat)
    returns (v: ThingValue)
    requires Listing(cfg, h, vs, addr, es) && i < |es|
    ensures LastWith(vs, addr, es[i].key) == Some(v) && es[i] == Entry(KeyOf(v), v.data) && Sound(v)
    ensures RowOf(es[i]) == Row(v.name, v.createdMSec)
  {
    assert Holds(BucketOf(h.buckets, addr), vs, addr, es[i].key);
    v := LastWith(vs, addr, es[i].key).value;
    SoundKey(v);
  }

  /** Every kept value of the thing is listed, under its key. */
  lemma {:induction false} KeptIsListed(cfg: Config, h: History, vs: seq<ThingValue>, v: ThingValue, es: seq<Entry>)
    returns (i: nat)
    requires Listing(cfg, h, vs, Address(v), es) && v in vs
    ensures i < |es| && es[i].key == KeyOf(v) && RowOf(es[i]) == Row(v.name, v.createdMSec)
  {
    LastWithSome(vs, v);
    assert Holds(BucketOf(h.buckets, Address(v)), vs, Address(v), KeyOf(v));
    assert HasKey(es, KeyOf(v));
    i :| 0 <= i < |es| && es[i].key == KeyOf(v);
    SoundKey(v);
  }

  lemma {:induction false} ListingReadable(cfg: Config, h: History, vs: seq<ThingValue>, addr: string, es: seq<Entry>)
    requires Listing(cfg, h, vs, addr, es)
    ensures AllRows(Rows(es)) && AllDated(Rows(es))
  {
    forall i | 0 <= i < |es| ensures Rows(es)[i].Row? && Rows(es)[i].time > 0 {
      var v := EntryIsKept(cfg, h, vs, addr, es, i);
      RowsAt(es, i);
    }
  }

  /** The first match of a downward reading is the last match. */
  lemma {:induction false} DownStartsAtLast(rows: seq<Row>, filter: string, i: int)
    requires i < |rows|
    ensures var ms := MatchesDown(rows, filter, i);
            if ms == [] then forall j :: 0 <= j <= i ==> !Selected(rows[j], filter)
            else && 0 <= ms[0] <= i && Selected(rows[ms[0]], filter)
                 && forall j :: ms[0] < j <= i ==> !Selected(rows[j], filter)
    decreases i
  {
    if i < 0 {
    } else {
      DownStartsAtLast(rows, filter, i - 1);
    }
  }

  /** Last finds the last selected row, if there is one. */
  lemma {:induction false} LastScan(rows: seq<Row>, n: string)
    requires AllRows(rows) && AllDated(rows)
    ensures var s := PrevScan(rows, n, |rows|);
            && !s.Limit? && !s.Unread? && (s.Hit? ==> Selected(rows[s.at], n))
            && forall i :: 0 <= i < |rows| && Selected(rows[i], n) ==> s.Hit? && i <= s.at
  {
    PrevHitsFirstMatch(rows, n, |rows|);
    DownStartsAtLast(rows, n, |rows| - 1);
  }

  /** One of the kept values of a thing and a name. */
  predicate Of(vs: seq<ThingValue>, addr: string, n: string, v: ThingValue) {
    v in vs && Address(v) == addr && v.name == n
  }

  predicate NotAfter(a: string, b: string) {
    a == b || Less(a, b)
  }

  lemma {:induction false} IndexOrder(es: seq<Entry>, i: nat, j: nat)
    requires Sorted(es) && i <= j < |es|
    ensures NotAfter(es[i].key, es[j].key)
  {
  }

  /** A kept value of the name is not listed after what Last finds. */
  lemma {:induction false} NoneIsListedLater(cfg: Config, h: History, vs: seq<ThingValue>, n: string, es: seq<Entry>, v: ThingValue)
    requires Listing(cfg, h, vs, Address(v), es) && n != "" && v in vs && v.name == n
    ensures var s := PrevScan(Rows(es), n, |es|);
            s.Hit? && NotAfter(KeyOf(v), es[s.at].key)
  {
    ListingReadable(cfg, h, vs, Address(v), es);
    LastScan(Rows(es), n);
    var i := KeptIsListed(cfg, h, vs, v, es);
    RowsAt(es, i);
    IndexOrder(es, i, PrevScan(Rows(es), n, |es|).at);
  }

  /** What Last finds in a mirrored bucket: the kept value of that name with the greatest key, and
      nothing only if there is none. */
  lemma {:induction false} LastIsGreatestKey(cfg: Config, h: History, vs: seq<ThingValue>, addr: string, n: string, es: seq<Entry>)
    returns (found: Option<ThingValue>)
    requires Listing(cfg, h, vs, addr, es) && n != ""
    ensures var s := PrevScan(Rows(es), n, |es|);
            && (s.Hit? <==> found.Some?)
            && (s.Hit? ==> es[s.at] == Entry(KeyOf(found.value), found.value.data))
    ensures found.Some? ==> Of(vs, addr, n, found.value) && Sound(found.value)
    ensures forall v :: Of(vs, addr, n, v) ==> found.Some? && NotAfter(KeyOf(v), KeyOf(found.value))
  {
    ListingReadable(cfg, h, vs, addr, es);
    LastScan(Rows(es), n);
    var s := PrevScan(Rows(es), n, |es|);
    found := None;
    if s.Hit? {
      var last := EntryIsKept(cfg, h, vs, addr, es, s.at);
      found := Some(last);
      RowsAt(es, s.at);
    }
    forall v | Of(vs, addr, n, v) ensures found.Some? && NotAfter(KeyOf(v), KeyOf(found.value)) {
      NoneIsListedLater(cfg, h, vs, n, es, v);
    }
  }

  // ----- the cache against the listing

  /** The name never occurs inside a property payload of the thing. */
  ghost predicate NeverUnpacked(cfg: Config, vs: seq<ThingValue>, addr: string, n: string) {
    forall v :: v in vs && Address(v) == addr && v.name == "$properties" && cfg.unpack(v.data).Some?
                ==> n !in cfg.unpack(v.data).value
  }

  /** Then the offers to the name are exactly the kept values of that name. */
  lemma {:induction false} OffersAreNamed(cfg: Config, vs: seq<ThingValue>, addr: string, n: string, u: ThingValue)
    requires n != EventNameProps && NeverUnpacked(cfg, vs, addr, n)
    ensures u in Offers(cfg.unpack, vs, addr, n) <==> Of(vs, addr, n, u)
  {
    OffersMeaning(cfg.unpack, vs, addr, n, u);
    if Of(vs, addr, n, u) {
      assert Offered(cfg.unpack, u)[n] == u;
    }
  }

  /** The cached value of the name is a kept one that none of that name is later than. */
  lemma {:induction false} CacheIsNewest(cfg: Config, vs: seq<ThingValue>, addr: string, n: string)
    requires n != EventNameProps && NeverUnpacked(cfg, vs, addr, n)
    ensures var props := Cached(AddAll(cfg.unpack, vs), addr);
            && (n in props ==> Of(vs, addr, n, props[n]))
            && (forall v :: Of(vs, addr, n, v) ==> n in props && v.createdMSec <= props[n].createdMSec)
  {
    var props := Cached(AddAll(cfg.unpack, vs), addr);
    NewestWins(cfg.unpack, vs, addr, n);
    if n in props {
      OffersAreNamed(cfg, vs, addr, n, props[n]);
    }
    forall v | Of(vs, addr, n, v) ensures n in props && v.createdMSec <= props[n].createdMSec {
      OffersAreNamed(cfg, vs, addr, n, v);
    }
  }

  /** Key order of two kept values of different times, whatever the width of their timestamps. */
  lemma {:induction false} SoundKeyOrder(u: ThingValue, v: ThingValue)
    requires Sound(u) && Sound(v) && u.createdMSec < v.createdMSec
    ensures Less(KeyOf(u), KeyOf(v)) <==> u.createdMSec <= Leading(v.createdMSec, Width(u.createdMSec))
    ensures KeyOf(u) != KeyOf(v)
  {
    SoundKey(u);
    SoundKey(v);
    KeyOrderExact(KeyOf(u), KeyOf(v));
  }

  /** The keys of the earlier values of the name sort before those of time t. */
  ghost predicate SortBefore(vs: seq<ThingValue>, addr: string, n: string, t: int) {
    forall u :: Of(vs, addr, n, u) && 0 < u.createdMSec < t ==> u.createdMSec <= Leading(t, Width(u.createdMSec))
  }

  /** Of the kept values, `last` has the greatest key and `newest` the greatest time: they have
      the same time exactly when no earlier value sorts after the newest. */
  lemma {:induction false} GreatestKeyIsNewest(vs: seq<ThingValue>, addr: string, n: string, last: ThingValue, newest: ThingValue)
    requires forall v :: v in vs ==> Sound(v)
    requires Of(vs, addr, n, last) && Of(vs, addr, n, newest)
    requires forall v :: Of(vs, addr, n, v) ==> NotAfter(KeyOf(v), KeyOf(last))
    requires forall v :: Of(vs, addr, n, v) ==> v.createdMSec <= newest.createdMSec
    ensures last.createdMSec == newest.createdMSec <==> SortBefore(vs, addr, n, newest.createdMSec)
  {
    if last.createdMSec < newest.createdMSec {
      SoundKeyOrder(last, newest);
      if Less(KeyOf(last), KeyOf(newest)) { LessAsymmetric(KeyOf(last), KeyOf(newest)); }
    } else {
      forall u | Of(vs, addr, n, u) && 0 < u.createdMSec < newest.createdMSec
        ensures u.createdMSec <= Leading(newest.createdMSec, Width(u.createdMSec))
      {
        SoundKeyOrder(u, last);
      }
    }
  }

  /** No two kept values of the thing share that name and a timestamp. */
  ghost predicate OnePerTime(vs: seq<ThingValue>, addr: string, n: string) {
    forall a, b :: Of(vs, addr, n, a) && Of(vs, addr, n, b) && a.createdMSec == b.createdMSec ==> a == b
  }

  /** Index agrees with scan. After any run of adds on empty stores, for a name that is not
      `$properties` and never occurs in a payload: the cache holds it if and only if Last with
      that filter is valid. What it then returns and the cached value carry the same timestamp if
      and only if the keys of the earlier values sort before the newest. Then they are the same value, when no two kept values share
      that name and a timestamp, if and only if the key format can carry that value. */
  lemma {:induction false} IndexAgreesWithScan(cfg: Config, arrivals: seq<Arrival>, addr: string, n: string, es: seq<Entry>)
    requires AllStorable(cfg, arrivals)
    requires n != "" && n != EventNameProps && NeverUnpacked(cfg, KeptValues(cfg, arrivals), addr, n)
    requires IsSnapshot(es, BucketOf(AddSeq(cfg, Empty, arrivals).buckets, addr))
    ensures var vs, props := KeptValues(cfg, arrivals), Cached(AddSeq(cfg, Empty, arrivals).latest.cache, addr);
            var s := PrevScan(Rows(es), n, |es|);
            && (n in props <==> s.Hit?)
            && (s.Hit? ==> forall tv :: Carried(addr, es[s.at], tv) ==> Agree(vs, addr, n, tv, props[n]))
  {
    var h, vs := AddSeq(cfg, Empty, arrivals), KeptValues(cfg, arrivals);
    RunMirrors(cfg, arrivals);
    var found := LastIsGreatestKey(cfg, h, vs, addr, n, es);
    CacheIsNewest(cfg, vs, addr, n);
    if found.Some? {
      var newest := Cached(h.latest.cache, addr)[n];
      GreatestKeyIsNewest(vs, addr, n, found.value, newest);
      var e := es[PrevScan(Rows(es), n, |es|).at];
      forall tv | Carried(addr, e, tv) ensures Agree(vs, addr, n, tv, newest) {
        CarriedAgree(vs, addr, n, found.value, e, tv, newest);
      }
    }
  }

  /** What Last returns against what the cache holds. */
  ghost predicate Agree(vs: seq<ThingValue>, addr: string, n: string, last: ThingValue, newest: ThingValue) {
    && last.name == n
    && (last.createdMSec == newest.createdMSec <==> SortBefore(vs, addr, n, newest.createdMSec))
    && (SortBefore(vs, addr, n, newest.createdMSec) && OnePerTime(vs, addr, n) ==> (last == newest <==> Plain(newest)))
  }

  lemma {:induction false} CarriedAgree(vs: seq<ThingValue>, addr: string, n: string, last: ThingValue, e: Entry, tv: ThingValue, newest: ThingValue)
    requires Of(vs, addr, n, last) && Of(vs, addr, n, newest) && Sound(last)
    requires last.createdMSec == newest.createdMSec <==> SortBefore(vs, addr, n, newest.createdMSec)
    requires e == Entry(KeyOf(last), last.data) && Carried(addr, e, tv)
    ensures Agree(vs, addr, n, tv, newest)
  {
    CarriedFields(last, e, tv);
  }

  /** The value that the entry of a sound value carries: the same but for what the key cannot hold. */
  ghost predicate SameButUnplain(v: ThingValue, tv: ThingValue) {
    && tv.name == v.name && tv.data == v.data && tv.createdMSec == v.createdMSec && tv.senderID == v.senderID
    && tv.valueType == (if v.valueType in {"action", "config"} then v.valueType else "event")
    && ('/' !in v.agentID ==> tv.agentID == v.agentID && ('/' !in v.thingID ==> tv.thingID == v.thingID))
    && (tv == v <==> Plain(v))
  }

  lemma {:induction false} CarriedFields(v: ThingValue, e: Entry, tv: ThingValue)
    requires Sound(v) && e == Entry(KeyOf(v), v.data) && Carried(Address(v), e, tv)
    ensures SameButUnplain(v, tv)
  {
    DecodeCarries(Address(v), e);
    assert Decode(Address(v), e.key, e.data) == Decoded(tv);
    DecodedFields(v, 1);
    SplitPlain(v.name, '/');
    SplitPlain(v.senderID, '/');
    SplitPlain(v.agentID, '/');
    SplitPlain(v.thingID, '/');
    RoundTrip(v, 1);
  }

  ghost predicate OneWidth(vs: seq<ThingValue>, w: nat) {
    forall v :: v in vs ==> v.createdMSec > 0 && Width(v.createdMSec) == w
  }

  /** Timestamps of one width are always in order; 9 and 10 are the smallest that are not. */
  lemma {:induction false} OneWidthSortsBefore(vs: seq<ThingValue>, w: nat, addr: string, n: string, newest: ThingValue)
    requires OneWidth(vs, w) && newest in vs
    ensures SortBefore(vs, addr, n, newest.createdMSec)
  {
  }

  /** A run in which they disagree: of two values at 9 and 10 ms the cache holds the later one and
      Last returns the earlier one. */
  lemma {:induction false} MixedWidthsDisagree(unpack: Unpacker, clock: Clock, v: ThingValue, es: seq<Entry>, tv: ThingValue)
    requires v.createdMSec == 9 && Complete(v) && SlashFree(v) && v.name != "$properties"
    requires var arrivals := [Arrival(v, clock), Arrival(v.(createdMSec := 10), clock)];
             IsSnapshot(es, BucketOf(AddSeq(Config(map[], unpack), Empty, arrivals).buckets, Address(v)))
    ensures var arrivals := [Arrival(v, clock), Arrival(v.(createdMSec := 10), clock)];
            var props := Cached(AddSeq(Config(map[], unpack), Empty, arrivals).latest.cache, Address(v));
            var s := PrevScan(Rows(es), v.name, |es|);
            && s.Hit? && v.name in props
            && (Carried(Address(v), es[s.at], tv) ==> tv.createdMSec != props[v.name].createdMSec)
  {
    var cfg, later := Config(map[], unpack), v.(createdMSec := 10);
    var a, b, vs := Arrival(v, clock), Arrival(later, clock), [v, later];
    KeptPair(unpack, a, b);
    IndexAgreesWithScan(cfg, [a, b], Address(v), v.name, es);
    RunMirrors(cfg, [a, b]);
    CacheIsNewest(cfg, vs, Address(v), v.name);
    assert Of(vs, Address(v), v.name, later);
    var s := PrevScan(Rows(es), v.name, |es|);
    var props := Cached(AddSeq(cfg, Empty, [a, b]).latest.cache, Address(v));
    if Carried(Address(v), es[s.at], tv) {
      TenSortsFirst(v, tv, props[v.name]);
    }
  }

  lemma {:induction false} TenSortsFirst(v: ThingValue, last: ThingValue, newest: ThingValue)
    requires v.createdMSec == 9 && newest in [v, v.(createdMSec := 10)] && newest.createdMSec >= 10
    requires Agree([v, v.(createdMSec := 10)], Address(v), v.name, last, newest)
    ensures last.createdMSec != newest.createdMSec
  {
    NineAndTen();
    assert Of([v, v.(createdMSec := 10)], Address(v), v.name, v);
  }

  lemma {:induction false} NineAndTen()
    ensures Leading(10, Width(9)) == 1
  {
    assert Width(9) == 1 && Width(10) == 2 && Width(1) == 1;
  }

  lemma {:induction false} KeptPair(unpack: Unpacker, a: Arrival, b: Arrival)
    requires Complete(a.tv) && Complete(b.tv) && a.tv.createdMSec > 0 && b.tv.createdMSec > 0
    ensures KeptValues(Config(map[], unpack), [a, b]) == [a.tv, b.tv]
  {
    var cfg := Config(map[], unpack);
    assert [a, b][..1] == [a] && [a][..0] == [];
    assert KeptValues(cfg, [a]) == [a.tv];
  }

  // ----- the whole history of a name

  /** The values, read under the given keys, are the kept values of the name: each is the last one
      kept under its key, and every kept one appears under its key. */
  ghost predicate ReturnsKept(vs: seq<ThingValue>, addr: string, n: string, keys: seq<string>, values: seq<ThingValue>) {
    && |keys| == |values|
    && (forall k :: 0 <= k < |keys| ==> ReturnsLast(vs, addr, n, keys[k], values[k]))
    && (forall v :: Of(vs, addr, n, v) ==> KeyOf(v) in keys)
  }

  ghost predicate ReturnsLast(vs: seq<ThingValue>, addr: string, n: string, key: string, tv: ThingValue) {
    var last := LastWith(vs, addr, key);
    last.Some? && Of(vs, addr, n, last.value) && SameButUnplain(last.value, tv)
  }

  ghost predicate Ascending(keys: seq<string>) {
    forall a, b :: 0 <= a < b < |keys| ==> Less(keys[a], keys[b])
  }

  ghost predicate Descending(keys: seq<string>) {
    forall a, b :: 0 <= a < b < |keys| ==> Less(keys[b], keys[a])
  }

  function KeysAt(es: seq<Entry>, hits: seq<int>): (keys: seq<string>)
    requires forall k :: 0 <= k < |hits| ==> 0 <= hits[k] < |es|
    ensures |keys| == |hits| && forall k :: 0 <= k < |hits| ==> keys[k] == es[hits[k]].key
  {
    seq(|hits|, k requires 0 <= k < |hits| => es[hits[k]].key)
  }

  lemma {:induction false} HitReturnsLast(cfg: Config, h: History, vs: seq<ThingValue>, addr: string, n: string,
                                          es: seq<Entry>, i: nat, tv: ThingValue)
    requires Listing(cfg, h, vs, addr, es) && i < |es| && n != "" && Selected(RowOf(es[i]), n) && Carried(addr, es[i], tv)
    ensures ReturnsLast(vs, addr, n, es[i].key, tv)
  {
    var v := EntryIsKept(cfg, h, vs, addr, es, i);
    CarriedFields(v, es[i], tv);
  }

  lemma {:induction false} KeptIsHit(cfg: Config, h: History, vs: seq<ThingValue>, es: seq<Entry>, v: ThingValue) returns (i: nat)
    requires Listing(cfg, h, vs, Address(v), es) && v in vs
    ensures i < |es| && es[i].key == KeyOf(v) && i in Matches(Rows(es), v.name, 0)
  {
    i := KeptIsListed(cfg, h, vs, v, es);
    RowsAt(es, i);
    MatchesMeaning(Rows(es), v.name, 0);
  }

  /** Hits that are exactly the filtered listing, in either direction, return the kept values. */
  lemma {:induction false} MatchesReturnKept(cfg: Config, h: History, vs: seq<ThingValue>, addr: string, n: string,
                                             es: seq<Entry>, hits: seq<int>, values: seq<ThingValue>)
    requires Listing(cfg, h, vs, addr, es) && n != "" && CarriedAt(es, addr, hits, values)
    requires forall i :: i in hits <==> i in Matches(Rows(es), n, 0)
    ensures ReturnsKept(vs, addr, n, KeysAt(es, hits), values)
  {
    var keys := KeysAt(es, hits);
    MatchesMeaning(Rows(es), n, 0);
    forall k | 0 <= k < |hits| ensures ReturnsLast(vs, addr, n, keys[k], values[k]) {
      assert hits[k] in hits;
      RowsAt(es, hits[k]);
      HitReturnsLast(cfg, h, vs, addr, n, es, hits[k], values[k]);
    }
    forall v | Of(vs, addr, n, v) ensures KeyOf(v) in keys {
      var i := KeptIsHit(cfg, h, vs, es, v);
      var k :| 0 <= k < |hits| && hits[k] == i;
      assert keys[k] == KeyOf(v);
    }
  }

  /** After any run of adds on empty stores: the values carried by what First and then NextN hits,
      filtered on a name, are the kept values of that name in key order. */
  lemma {:induction false} HistoryReturnsKept(
    cfg: Config, arrivals: seq<Arrival>, addr: string, n: string, es: seq<Entry>, now: int, clock: nat -> int,
    values: seq<ThingValue>)
    requires AllStorable(cfg, arrivals) && n != ""
    requires IsSnapshot(es, BucketOf(AddSeq(cfg, Empty, arrivals).buckets, addr))
    requires InTime(Rows(es), 0, |es|, now) && NothingLater(Rows(es), clock)
    requires CarriedAt(es, addr, ReadForward(Rows(es), n, now, clock, -1), values)
    ensures var keys := KeysAt(es, ReadForward(Rows(es), n, now, clock, -1));
            ReturnsKept(KeptValues(cfg, arrivals), addr, n, keys, values) && Ascending(keys)
  {
    var h, vs, hits := AddSeq(cfg, Empty, arrivals), KeptValues(cfg, arrivals), ReadForward(Rows(es), n, now, clock, -1);
    RunMirrors(cfg, arrivals);
    ListingReadable(cfg, h, vs, addr, es);
    ForwardTraversal(Rows(es), n, now, clock, -1);
    MatchesMeaning(Rows(es), n, 0);
    MatchesReturnKept(cfg, h, vs, addr, n, es, hits, values);
  }

  lemma {:induction false} ReverseAt(s: seq<int>)
    ensures |Reverse(s)| == |s| && forall k :: 0 <= k < |s| ==> Reverse(s)[k] == s[|s| - 1 - k]
  {
    if s == [] {
    } else {
      ReverseAt(s[1..]);
    }
  }

  lemma {:induction false} ReverseHolds(s: seq<int>)
    ensures forall i :: i in Reverse(s) <==> i in s
  {
    ReverseAt(s);
    forall i | i in s ensures i in Reverse(s) {
      var k :| 0 <= k < |s| && s[k] == i;
      assert Reverse(s)[|s| - 1 - k] == i;
    }
  }

  /** The same for Last and then PrevN, in descending key order and whatever the clock. */
  lemma {:induction false} HistoryReturnsKeptBack(
    cfg: Config, arrivals: seq<Arrival>, addr: string, n: string, es: seq<Entry>, values: seq<ThingValue>)
    requires AllStorable(cfg, arrivals) && n != ""
    requires IsSnapshot(es, BucketOf(AddSeq(cfg, Empty, arrivals).buckets, addr))
    requires CarriedAt(es, addr, ReadBackward(Rows(es), n, |es|), values)
    ensures var keys := KeysAt(es, ReadBackward(Rows(es), n, |es|));
            ReturnsKept(KeptValues(cfg, arrivals), addr, n, keys, values) && Descending(keys)
  {
    var h, vs, hits := AddSeq(cfg, Empty, arrivals), KeptValues(cfg, arrivals), ReadBackward(Rows(es), n, |es|);
    RunMirrors(cfg, arrivals);
    ListingReadable(cfg, h, vs, addr, es);
    BackwardTraversal(Rows(es), n);
    ReverseHolds(Matches(Rows(es), n, 0));
    ReverseAt(Matches(Rows(es), n, 0));
    MatchesMeaning(Rows(es), n, 0);
    MatchesReturnKept(cfg, h, vs, addr, n, es, hits, values);
  }

  // ----- what a client reads

  /** A filtered cursor opened on a thing after a run of adds. */
  ghost predicate Opened(c: BucketCursor, cfg: Config, arrivals: seq<Arrival>) {
    && AllStorable(cfg, arrivals) && c.filter != "" && |Split(c.bucketID, '/')| >= 2
    && IsSnapshot(c.entries, BucketOf(AddSeq(cfg, Empty, arrivals).buckets, c.bucketID))
  }

  lemma {:induction false} OpenedReadable(c: BucketCursor, cfg: Config, arrivals: seq<Arrival>)
    requires Opened(c, cfg, arrivals)
    ensures Readable(c)
  {
    RunMirrors(cfg, arrivals);
    ListingReadable(cfg, AddSeq(cfg, Empty, arrivals), KeptValues(cfg, arrivals), c.bucketID, c.entries);
    forall i | 0 <= i < |c.entries| ensures |Split(c.entries[i].key, '/')| != 2 {
      RowsAt(c.entries, i);
    }
  }

  /** First and then NextN: what the calls return is the whole history of the name, each value once
      per key, in key order. */
  method ReadHistoryOf(c: BucketCursor, now: int, clock: nat -> int, ghost cfg: Config, ghost arrivals: seq<Arrival>)
    returns (values: seq<ThingValue>, ghost keys: seq<string>)
    requires c.Valid() && Opened(c, cfg, arrivals)
    requires InTime(Rows(c.entries), 0, |c.entries|, now) && NothingLater(Rows(c.entries), clock)
    modifies c
    ensures ReturnsKept(KeptValues(cfg, arrivals), c.bucketID, c.filter, keys, values) && Ascending(keys)
  {
    OpenedReadable(c, cfg, arrivals);
    ghost var hits := ReadForward(Rows(c.entries), c.filter, now, clock, -1);
    values := ReadAll(c, now, clock);
    keys := KeysAt(c.entries, hits);
    HistoryReturnsKept(cfg, arrivals, c.bucketID, c.filter, c.entries, now, clock, values);
  }

  /** Last and then PrevN: the same in descending key order. */
  method ReadHistoryBack(c: BucketCursor, ghost cfg: Config, ghost arrivals: seq<Arrival>)
    returns (values: seq<ThingValue>, ghost keys: seq<string>)
    requires c.Valid() && Opened(c, cfg, arrivals)
    modifies c
    ensures ReturnsKept(KeptValues(cfg, arrivals), c.bucketID, c.filter, keys, values) && Descending(keys)
  {
    OpenedReadable(c, cfg, arrivals);
    ghost var hits := ReadBackward(Rows(c.entries), c.filter, |c.entries|);
    values := ReadAllBack(c);
    keys := KeysAt(c.entries, hits);
    HistoryReturnsKeptBack(cfg, arrivals, c.bucketID, c.filter, c.entries, values);
  }

  /** Last, against the cached value of the same name. */
  method ReadLast(c: BucketCursor, ghost cfg: Config, ghost arrivals: seq<Arrival>) returns (last: Option<ThingValue>)
    requires c.Valid() && Opened(c, cfg, arrivals)
    requires c.filter != "$properties" && NeverUnpacked(cfg, KeptValues(cfg, arrivals), c.bucketID, c.filter)
    modifies c
    ensures var props := Cached(AddSeq(cfg, Empty, arrivals).latest.cache, c.bucketID);
            && (last.Some? <==> c.filter in props)
            && (last.Some? ==> Agree(KeptValues(cfg, arrivals), c.bucketID, c.filter, last.value, props[c.filter]))
  {
    OpenedReadable(c, cfg, arrivals);
    IndexAgreesWithScan(cfg, arrivals, c.bucketID, c.filter, c.entries);
    var r := Last(c);
    last := r.value;
  }

  /** With timestamps of one width every stored key carries a stamp of that width. */
  lemma {:induction false} KeptStamped(cfg: Config, arrivals: seq<Arrival>, w: nat, addr: string, es: seq<Entry>, i: nat)
    requires AllStorable(cfg, arrivals) && OneWidth(KeptValues(cfg, arrivals), w)
    requires IsSnapshot(es, BucketOf(AddSeq(cfg, Empty, arrivals).buckets, addr)) && i < |es|
    ensures StampedKey(es[i].key, w)
  {
    RunMirrors(cfg, arrivals);
    var v := EntryIsKept(cfg, AddSeq(cfg, Empty, arrivals), KeptValues(cfg, arrivals), addr, es, i);
    SoundKey(v);
  }

  /** The key order of the history is then time order. */
  lemma {:induction false} HistoryInTimeOrder(cfg: Config, arrivals: seq<Arrival>, w: nat, addr: string, es: seq<Entry>, i: nat, j: nat)
    requires AllStorable(cfg, arrivals) && OneWidth(KeptValues(cfg, arrivals), w)
    requires IsSnapshot(es, BucketOf(AddSeq(cfg, Empty, arrivals).buckets, addr)) && i <= j < |es|
    ensures StampedKey(es[i].key, w) && KeyTime(es[i].key) <= KeyTime(es[j].key)
  {
    KeptStamped(cfg, arrivals, w, addr, es, i);
    if i < j {
      KeptStamped(cfg, arrivals, w, addr, es, j);
      KeyOrderFollowsTime(es[i].key, es[j].key, w);
    }
  }
}
