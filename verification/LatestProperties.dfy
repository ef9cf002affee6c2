/** The write-back cache of the newest value per thing and name. */
module LatestProperties {
  import opened Messages
  import opened Text
  import opened HistoryCodec

  type Props = map<string, ThingValue>

  /** json.Unmarshal of a property payload with each value printed; None if it is not valid. */
  type Unpacker = Bytes -> Option<map<string, Bytes>>

  // ----- what one message offers to the cache

  /** The values a message offers, by name: its own, or one event per property of a
      `$properties` payload. */
  function Offered(unpack: Unpacker, tv: ThingValue): Props {
    if tv.name != EventNameProps then map[tv.name := tv]
    else
      match unpack(tv.data)
      case None => map[]
      case Some(ps) => map n | n in ps :: tv.(name := n, data := ps[n], valueType := MessageTypeEvent)
  }

  predicate Unreadable(unpack: Unpacker, tv: ThingValue) {
    tv.name == EventNameProps && unpack(tv.data).None?
  }

  /** An offer is taken if the name is new or the offer is strictly newer. */
  predicate Taken(props: Props, n: string, offer: ThingValue) {
    n !in props || offer.createdMSec > props[n].createdMSec
  }

  function Merge(props: Props, offers: Props): Props {
    map n | n in props.Keys + offers.Keys ::
      if n in offers && Taken(props, n, offers[n]) then offers[n] else props[n]
  }

  /** Taking one more of the offers. */
  lemma {:induction false} MergeStep(props: Props, offers: Props, todo: set<string>, n: string)
    requires n in todo && n in offers
    ensures var r := Merge(props, offers - todo);
            Merge(props, offers - (todo - {n})) == if Taken(r, n, offers[n]) then r[n := offers[n]] else r
  {
  }

  function Dated(tv: ThingValue, now: Int64): ThingValue {
    if tv.createdMSec <= 0 then tv.(createdMSec := now) else tv
  }

  // ----- the store: cache, change flags and persisted records

  datatype Store = Store(cache: map<string, Props>, changed: map<string, bool>, records: map<string, Props>) {
    predicate Flagged(addr: string) {
      addr in changed && changed[addr]
    }

    /** The persisted record; a missing one counts as empty. */
    function Recorded(addr: string): Props {
      if addr in records then records[addr] else map[]
    }

    function Load(addr: string): Store {
      if addr in cache then this else this.(cache := cache[addr := Recorded(addr)])
    }

    function Update(unpack: Unpacker, tv: ThingValue): Store
      requires Address(tv) in cache
    {
      var addr := Address(tv);
      if Unreadable(unpack, tv) then this
      else this.(cache := cache[addr := Merge(cache[addr], Offered(unpack, tv))],
                 changed := changed[addr := true])
    }

    function Add(unpack: Unpacker, tv: ThingValue): Store {
      Load(Address(tv)).Update(unpack, tv)
    }
  }

  // ----- what adding one value does, field by field

  /** A name of the thing holds the new value if it was absent or older, and else what it held. */
  ghost predicate TakesNewer(before: Props, after: Props, n: string, offer: ThingValue) {
    && n in after
    && after[n] == if n !in before || before[n].createdMSec < offer.createdMSec then offer else before[n]
  }

  ghost predicate Untouched(before: Props, after: Props, n: string) {
    (n in after <==> n in before) && (n in after ==> after[n] == before[n])
  }

  /** The properties of the thing after the value was added at time t. */
  ghost predicate PropsAfter(unpack: Unpacker, before: Props, tv: ThingValue, t: Int64, after: Props) {
    if tv.name != "$properties" then
      && TakesNewer(before, after, tv.name, tv.(createdMSec := t))
      && forall n :: n != tv.name ==> Untouched(before, after, n)
    else
      match unpack(tv.data)
      case None => after == before
      case Some(ps) =>
        && (forall n :: n in ps ==>
              TakesNewer(before, after, n, ThingValue(tv.agentID, tv.thingID, n, ps[n], t, tv.senderID, "event")))
        && forall n :: n !in ps ==> Untouched(before, after, n)
  }

  /** The store after a value was added. It is dated `now` if it has no positive time. The thing's
      record is loaded if it was not cached. Only that thing changes, and it is flagged unless the
      payload could not be read. */
  ghost predicate Added(unpack: Unpacker, before: Store, tv: ThingValue, now: Int64, after: Store) {
    var addr := tv.agentID + "/" + tv.thingID;
    var held := if addr in before.cache then before.cache[addr]
               else if addr in before.records then before.records[addr] else map[];
    && after.records == before.records && after.cache.Keys == before.cache.Keys + {addr}
    && PropsAfter(unpack, held, tv, if tv.createdMSec > 0 then tv.createdMSec else now, after.cache[addr])
    && (forall a :: a in before.cache && a != addr ==> after.cache[a] == before.cache[a])
    && after.changed == if tv.name == "$properties" && unpack(tv.data).None? then before.changed
                        else before.changed[addr := true]
  }

  lemma {:induction false} MergeOne(before: Props, offer: ThingValue)
    ensures var after := Merge(before, map[offer.name := offer]);
            && TakesNewer(before, after, offer.name, offer)
            && forall n :: n != offer.name ==> Untouched(before, after, n)
  {
  }

  lemma {:induction false} MergeAll(unpack: Unpacker, before: Props, tv: ThingValue, ps: map<string, Bytes>)
    requires tv.name == "$properties" && unpack(tv.data) == Some(ps)
    ensures PropsAfter(unpack, before, tv, tv.createdMSec, Merge(before, Offered(unpack, tv)))
  {
    var after, offers := Merge(before, Offered(unpack, tv)), Offered(unpack, tv);
    forall n | n in ps
      ensures TakesNewer(before, after, n, ThingValue(tv.agentID, tv.thingID, n, ps[n], tv.createdMSec, tv.senderID, "event"))
    {
      assert n in offers && offers[n] == ThingValue(tv.agentID, tv.thingID, n, ps[n], tv.createdMSec, tv.senderID, "event");
    }
  }

  /** The props of the thing after an update, whatever was held before. */
  lemma {:induction false} UpdatedProps(unpack: Unpacker, before: Props, tv: ThingValue, now: Int64)
    ensures var dated := Dated(tv, now);
            PropsAfter(unpack, before, tv, if tv.createdMSec > 0 then tv.createdMSec else now,
                       if Unreadable(unpack, dated) then before else Merge(before, Offered(unpack, dated)))
  {
    var dated := Dated(tv, now);
    if tv.name != "$properties" {
      MergeOne(before, dated);
    } else if unpack(tv.data).Some? {
      MergeAll(unpack, before, dated, unpack(tv.data).value);
    }
  }

  lemma {:induction false} AddExactly(unpack: Unpacker, s: Store, tv: ThingValue, now: Int64)
    ensures Added(unpack, s, tv, now, s.Add(unpack, Dated(tv, now)))
  {
    var addr, end := Address(tv), s.Add(unpack, Dated(tv, now));
    UpdatedProps(unpack, s.Load(addr).cache[addr], tv, now);
    assert end.cache.Keys == s.cache.Keys + {addr};
  }

  function FlaggedIn(changed: map<string, bool>): set<string> {
    set a | a in changed && changed[a]
  }

  /** The records after persisting those of the given things that are cached. */
  function Saved(records: map<string, Props>, cache: map<string, Props>, addrs: set<string>): map<string, Props> {
    records + (map a | a in addrs && a in cache :: cache[a])
  }

  lemma {:induction false} SavedStep(records: map<string, Props>, cache: map<string, Props>, addrs: set<string>, addr: string)
    ensures var r := Saved(records, cache, addrs);
            Saved(records, cache, addrs + {addr}) == if addr in cache then r[addr := cache[addr]] else r
  {
  }

  class LatestPropertiesStore {
    const unpack: Unpacker
    var cache: map<string, Props>
    var changed: map<string, bool>
    var records: map<string, Props>

    constructor (unpack: Unpacker, records: map<string, Props>)
      ensures this.unpack == unpack && View() == Store(map[], map[], records)
    {
      this.unpack := unpack;
      this.records := records;
      cache, changed := map[], map[];
    }

    function View(): Store
      reads this
    {
      Store(cache, changed, records)
    }

    method LoadProps(addr: string) returns (found: bool)
      modifies this
      ensures View() == old(View()).Load(addr)
      ensures found <==> addr in old(cache)
      ensures addr in cache
    {
      found := addr in cache;
      if found {
        return;
      }
      var props: Props := if addr in records then records[addr] else map[];
      cache := cache[addr := props];
    }

    method GetProperties(addr: string, names: seq<string>) returns (props: Props)
      modifies this
      ensures View() == old(View()).Load(addr)
      ensures names == [] ==> props == cache[addr]
      ensures names != [] ==> props == map n | n in names && n in cache[addr] :: cache[addr][n]
    {
      var _ := LoadProps(addr);
      if names == [] {
        return cache[addr];
      }
      props := map[];
      for i := 0 to |names|
        invariant props == map n | n in names[..i] && n in cache[addr] :: cache[addr][n]
      {
        assert names[..i + 1] == names[..i] + [names[i]];
        if names[i] in cache[addr] {
          props := props[names[i] := cache[addr][names[i]]];
        }
      }
      assert names[..|names|] == names;
    }

    /** The properties of a payload are taken one by one, in no particular order. */
    static method TakeEach(start: Props, offers: Props) returns (props: Props)
      ensures props == Merge(start, offers)
    {
      props := start;
      var todo := offers.Keys;
      assert Merge(start, offers - todo) == start;
      while todo != {}
        invariant todo <= offers.Keys && props == Merge(start, offers - todo)
        decreases todo
      {
        var n :| n in todo;
        MergeStep(start, offers, todo, n);
        if n !in props || offers[n].createdMSec > props[n].createdMSec {
          props := props[n := offers[n]];
        }
        todo := todo - {n};
      }
      assert offers - {} == offers;
    }

    method HandleAddValue(tv: ThingValue, now: Int64)
      modifies this
      ensures View() == old(View()).Add(unpack, Dated(tv, now))
      ensures Added(unpack, old(View()), tv, now, View())
    {
      AddExactly(unpack, View(), tv, now);
      var addtv := Dated(tv, now);
      var _ := LoadProps(Address(addtv));
      UpdateCache(addtv);
    }

    /** The locked section of HandleAddValue. */
    method UpdateCache(addtv: ThingValue)
      requires Address(addtv) in cache
      modifies this
      ensures View() == old(View()).Update(unpack, addtv)
    {
      var addr := Address(addtv);
      var props := cache[addr];
      if addtv.name == EventNameProps {
        var unpacked := unpack(addtv.data);
        if unpacked.None? {
          return;
        }
        props := TakeEach(props, Offered(unpack, addtv));
      } else {
        if addtv.name !in props || addtv.createdMSec > props[addtv.name].createdMSec {
          props := props[addtv.name := addtv];
        }
        assert props == Merge(cache[addr], Offered(unpack, addtv));
      }
      cache := cache[addr := props];
      changed := changed[addr := true];
    }

    /** A save that nothing interrupts: every flagged thing that is cached is persisted and no
        flag remains; `ok` is false if a flagged thing was not cached. */
    method SaveChanges() returns (ok: bool)
      modifies this
      ensures cache == old(cache)
      ensures changed.Keys == old(changed).Keys && forall a :: a in changed ==> !changed[a]
      ensures records == Saved(old(records), cache, FlaggedIn(old(changed)))
      ensures ok <==> FlaggedIn(old(changed)) <= cache.Keys
    {
      ok := true;
      var todo := FlaggedIn(changed);
      ghost var flagged := todo;
      assert Saved(records, cache, flagged - todo) == records;
      while todo != {}
        invariant todo <= flagged && cache == old(cache)
        invariant changed.Keys == old(changed).Keys
        invariant forall a :: a in changed ==> (changed[a] <==> a in todo)
        invariant records == Saved(old(records), cache, flagged - todo)
        invariant ok <==> flagged - todo <= cache.Keys
        decreases todo
      {
        var addr :| addr in todo;
        if addr !in cache {
          ok := false;
        } else {
          records := records[addr := cache[addr]];
        }
        changed := changed[addr := false];
        assert flagged - (todo - {addr}) == (flagged - todo) + {addr};
        SavedStep(old(records), cache, flagged - todo, addr);
        todo := todo - {addr};
      }
      assert flagged - {} == flagged;
    }
  }

  // ----- newest wins

  function Cached(cache: map<string, Props>, addr: string): Props {
    if addr in cache then cache[addr] else map[]
  }

  /** The cache after the given arrivals, on stores that were empty. */
  function AddAll(unpack: Unpacker, vs: seq<ThingValue>): map<string, Props> {
    if vs == [] then map[]
    else
      var before, tv := AddAll(unpack, vs[..|vs| - 1]), vs[|vs| - 1];
      before[Address(tv) := Merge(Cached(before, Address(tv)), Offered(unpack, tv))]
  }

  /** All offers to one name of one thing, in order of arrival. */
  function Offers(unpack: Unpacker, vs: seq<ThingValue>, addr: string, n: string): seq<ThingValue> {
    if vs == [] then []
    else
      var before, tv := Offers(unpack, vs[..|vs| - 1], addr, n), vs[|vs| - 1];
      if Address(tv) == addr && n in Offered(unpack, tv) then before + [Offered(unpack, tv)[n]] else before
  }

  /** The earliest arrival among those with the greatest timestamp. */
  ghost predicate IsNewest(us: seq<ThingValue>, v: ThingValue) {
    exists i :: 0 <= i < |us| && us[i] == v
                && (forall j :: 0 <= j < |us| ==> us[j].createdMSec <= v.createdMSec)
                && (forall j :: 0 <= j < i ==> us[j].createdMSec < v.createdMSec)
  }

  lemma {:induction false} IsNewestAppend(us: seq<ThingValue>, v: ThingValue, u: ThingValue)
    requires IsNewest(us, v)
    ensures IsNewest(us + [u], if u.createdMSec > v.createdMSec then u else v)
  {
    var all := us + [u];
    var i :| 0 <= i < |us| && us[i] == v
             && (forall j :: 0 <= j < |us| ==> us[j].createdMSec <= v.createdMSec)
             && (forall j :: 0 <= j < i ==> us[j].createdMSec < v.createdMSec);
    assert all[i] == v && all[|us|] == u;
  }

  lemma {:induction false} AddAllMore(unpack: Unpacker, vs: seq<ThingValue>, tv: ThingValue)
    ensures var before, addr := AddAll(unpack, vs), Address(tv);
            AddAll(unpack, vs + [tv]) == before[addr := Merge(Cached(before, addr), Offered(unpack, tv))]
  {
  }

  lemma {:induction false} AddToCache(unpack: Unpacker, s: Store, tv: ThingValue)
    requires s.records == map[]
    ensures s.Add(unpack, tv).records == map[]
    ensures var addr := Address(tv);
            s.Add(unpack, tv).cache == s.cache[addr := Merge(Cached(s.cache, addr), Offered(unpack, tv))]
  {
    if Unreadable(unpack, tv) {
      var props := Cached(s.cache, Address(tv));
      assert Merge(props, map[]) == props;
    }
  }

  /** The adding method, run on empty stores, builds this cache. */
  lemma {:induction false} AddIsAddAll(unpack: Unpacker, s: Store, vs: seq<ThingValue>, tv: ThingValue)
    requires s.cache == AddAll(unpack, vs) && s.records == map[]
    ensures s.Add(unpack, tv).cache == AddAll(unpack, vs + [tv]) && s.Add(unpack, tv).records == map[]
  {
    AddAllMore(unpack, vs, tv);
    AddToCache(unpack, s, tv);
  }

  /** Newest wins: a name is cached if and only if something was offered to it, and then it
      holds the earliest-arriving of the offers with the greatest timestamp. */
  lemma {:induction false} NewestWins(unpack: Unpacker, vs: seq<ThingValue>, addr: string, n: string)
    ensures var us, props := Offers(unpack, vs, addr, n), Cached(AddAll(unpack, vs), addr);
            (n in props <==> us != []) && (n in props ==> IsNewest(us, props[n]))
    decreases |vs|
  {
    if vs == [] {
    } else {
      var rest, tv := vs[..|vs| - 1], vs[|vs| - 1];
      NewestWins(unpack, rest, addr, n);
      var us, props := Offers(unpack, rest, addr, n), Cached(AddAll(unpack, rest), addr);
      var offers := Offered(unpack, tv);
      if Address(tv) == addr && n in offers {
        if n in props {
          IsNewestAppend(us, props[n], offers[n]);
        } else {
          var all := Offers(unpack, vs, addr, n);
          assert all == [] + [offers[n]] && all[0] == offers[n];
          assert IsNewest(all, offers[n]);
        }
      }
    }
  }

  lemma {:induction false} CachedThings(unpack: Unpacker, vs: seq<ThingValue>, addr: string)
    ensures addr in AddAll(unpack, vs) <==> exists tv :: tv in vs && Address(tv) == addr
  {
    if vs == [] {
    } else {
      var rest, tv := vs[..|vs| - 1], vs[|vs| - 1];
      CachedThings(unpack, rest, addr);
      assert vs == rest + [tv];
    }
  }

  /** Membership in the list of offers. */
  lemma {:induction false} OffersMeaning(unpack: Unpacker, vs: seq<ThingValue>, addr: string, n: string, u: ThingValue)
    ensures u in Offers(unpack, vs, addr, n)
       <==> exists tv :: tv in vs && Address(tv) == addr && n in Offered(unpack, tv) && Offered(unpack, tv)[n] == u
  {
    if vs == [] {
    } else {
      var rest, last := vs[..|vs| - 1], vs[|vs| - 1];
      OffersMeaning(unpack, rest, addr, n, u);
      assert vs == rest + [last];
    }
  }

  /** Two arrivals that offer to the same name of the same thing at the same time offer the
      same value; in particular distinct timestamps satisfy this. */
  ghost predicate TimesIdentify(unpack: Unpacker, vs: seq<ThingValue>) {
    forall a, b, n ::
      a in vs && b in vs && Address(a) == Address(b) && a.createdMSec == b.createdMSec
      && n in Offered(unpack, a) && n in Offered(unpack, b)
      ==> Offered(unpack, a)[n] == Offered(unpack, b)[n]
  }

  lemma {:induction false} OfferedTime(unpack: Unpacker, tv: ThingValue, n: string)
    requires n in Offered(unpack, tv)
    ensures Offered(unpack, tv)[n].createdMSec == tv.createdMSec
  {
  }

  /** The newest of two lists with the same members is the same value if times identify. */
  lemma {:induction false} SameNewest(unpack: Unpacker, vs: seq<ThingValue>, ws: seq<ThingValue>, addr: string, n: string,
                   v: ThingValue, w: ThingValue)
    requires (forall tv :: tv in vs <==> tv in ws) && TimesIdentify(unpack, vs)
    requires IsNewest(Offers(unpack, vs, addr, n), v) && IsNewest(Offers(unpack, ws, addr, n), w)
    ensures v == w
  {
    OffersMeaning(unpack, vs, addr, n, v);
    OffersMeaning(unpack, ws, addr, n, w);
    OffersMeaning(unpack, vs, addr, n, w);
    OffersMeaning(unpack, ws, addr, n, v);
    var a :| a in vs && Address(a) == addr && n in Offered(unpack, a) && Offered(unpack, a)[n] == v;
    var b :| b in ws && Address(b) == addr && n in Offered(unpack, b) && Offered(unpack, b)[n] == w;
    OfferedTime(unpack, a, n);
    OfferedTime(unpack, b, n);
  }

  /** Order-free: arrivals in any order, and with any repetitions, build the same cache. */
  lemma {:induction false} OrderFree(unpack: Unpacker, vs: seq<ThingValue>, ws: seq<ThingValue>)
    requires (forall tv :: tv in vs <==> tv in ws) && TimesIdentify(unpack, vs)
    ensures AddAll(unpack, vs) == AddAll(unpack, ws)
  {
    var x, y := AddAll(unpack, vs), AddAll(unpack, ws);
    forall addr ensures addr in x <==> addr in y {
      CachedThings(unpack, vs, addr);
      CachedThings(unpack, ws, addr);
    }
    forall addr | addr in x ensures x[addr] == y[addr] {
      forall n ensures n in x[addr] <==> n in y[addr]
               ensures n in x[addr] ==> x[addr][n] == y[addr][n]
      {
        NewestWins(unpack, vs, addr, n);
        NewestWins(unpack, ws, addr, n);
        var us, ts := Offers(unpack, vs, addr, n), Offers(unpack, ws, addr, n);
        if us != [] { OffersMeaning(unpack, vs, addr, n, us[0]); OffersMeaning(unpack, ws, addr, n, us[0]); }
        if ts != [] { OffersMeaning(unpack, vs, addr, n, ts[0]); OffersMeaning(unpack, ws, addr, n, ts[0]); }
        if n in x[addr] {
          SameNewest(unpack, vs, ws, addr, n, x[addr][n], y[addr][n]);
        }
      }
    }
  }

  lemma {:induction false} AddTwo(unpack: Unpacker, a: ThingValue, b: ThingValue)
    requires Address(a) == Address(b) && a.name == b.name != EventNameProps
    requires a.createdMSec == b.createdMSec
    ensures AddAll(unpack, [a, b]) == map[Address(a) := map[a.name := a]]
  {
    var one := AddAll(unpack, [a]);
    var none: Props := map[];
    assert [a][..0] == [] && [a, b][..1] == [a];
    assert AddAll(unpack, []) == map[];
    assert Merge(none, map[a.name := a]) == map[a.name := a];
    assert Offered(unpack, a) == map[a.name := a];
    assert one == map[Address(a) := map[a.name := a]];
    assert Merge(map[a.name := a], map[b.name := b]) == map[a.name := a];
  }

  /** On a tie the first arrival stays, so there the order does matter. */
  lemma {:induction false} TieKeepsFirst(unpack: Unpacker, a: ThingValue, b: ThingValue)
    requires a != b && Address(a) == Address(b) && a.name == b.name != EventNameProps
    requires a.createdMSec == b.createdMSec
    ensures AddAll(unpack, [a, b]) != AddAll(unpack, [b, a])
  {
    AddTwo(unpack, a, b);
    AddTwo(unpack, b, a);
    var x, y := AddAll(unpack, [a, b]), AddAll(unpack, [b, a]);
    assert x[Address(a)][a.name] == a && y[Address(a)][a.name] == b;
  }
}
