/** The storage encoding of history values: a value is kept under the key
    timestamp/name/a|c|e/sender in the bucket agentID/thingID. */
module HistoryCodec {
  import opened Messages
  import opened Text

  newtype byte = x: int | 0 <= x < 256
  type Bytes = seq<byte>

  datatype ThingValue = ThingValue(
    agentID: string, thingID: string, name: string, data: Bytes,
    createdMSec: Int64, senderID: string, valueType: string)

  /** Names and IDs the key format can carry, and the three types it can tell apart. */
  predicate Plain(tv: ThingValue) {
    && '/' !in tv.agentID && '/' !in tv.thingID && '/' !in tv.name && '/' !in tv.senderID
    && tv.valueType in {"action", "config", "event"}
  }

  function Address(tv: ThingValue): string {
    tv.agentID + "/" + tv.thingID
  }

  // ----- encodeValue

  function TypeMark(valueType: string): string {
    if valueType == MessageTypeAction then "a"
    else if valueType == MessageTypeConfig then "c"
    else "e"
  }

  /** The timestamp in the key: the value's own if it is positive, else the clock's. */
  function KeyStamp(tv: ThingValue, now: Int64): Int64 {
    if tv.createdMSec > 0 then tv.createdMSec else now
  }

  function EncodeKey(tv: ThingValue, now: Int64): string {
    FormatInt(KeyStamp(tv, now)) + "/" + tv.name + "/" + TypeMark(tv.valueType) + "/" + tv.senderID
  }

  // ----- decodeValue

  /** `IndexPanic` is the access to the third part of a key that has only two. */
  datatype Decoding = Decoded(tv: ThingValue) | Invalid | IndexPanic

  function Decode(bucketID: string, key: string, data: Bytes): Decoding {
    var parts := Split(key, '/');
    if |parts| < 2 then Invalid
    else if |parts| == 2 then IndexPanic
    else
      var addr := Split(bucketID, '/');
      if |addr| < 2 then Invalid
      else
        Decoded(ThingValue(
                  addr[0], addr[1], parts[1], data, ParseInt(parts[0]),
                  if |parts| > 3 then parts[3] else "",
                  if parts[2] == "a" then MessageTypeAction
                  else if parts[2] == "c" then MessageTypeConfig
                  else MessageTypeEvent))
  }

  // ----- reading a key

  predicate FourParts(key: string) {
    |Split(key, '/')| == 4
  }

  function KeyTime(key: string): Int64 {
    ParseInt(Split(key, '/')[0])
  }

  function KeyName(key: string): string
    requires FourParts(key)
  {
    Split(key, '/')[1]
  }

  /** A key as the encoder writes it: four parts, led by a positive timestamp of `w` digits. */
  predicate StampedKey(key: string, w: nat) {
    var t := KeyTime(key);
    FourParts(key) && t > 0 && Width(t) == w && Split(key, '/')[0] == FormatInt(t)
  }

  // ----- properties

  /** How an encoded key splits, whatever the fields hold. */
  lemma {:induction false} EncodedParts(tv: ThingValue, now: Int64)
    ensures Split(EncodeKey(tv, now), '/')
         == [FormatInt(KeyStamp(tv, now))] + Split(tv.name, '/')
            + [TypeMark(tv.valueType)] + Split(tv.senderID, '/')
  {
    var stamp := FormatInt(KeyStamp(tv, now));
    var mark := TypeMark(tv.valueType);
    var n: int := KeyStamp(tv, now);
    if n < 0 { n := 0 - n; }
    FormatUintHasNo(n, 10, '/');
    SplitPlain(stamp, '/');
    SplitPlain(mark, '/');
    SplitAppend(stamp, tv.name, '/');
    SplitAppend(stamp + "/" + tv.name, mark, '/');
    SplitAppend(stamp + "/" + tv.name + "/" + mark, tv.senderID, '/');
  }

  /** An encoded key never makes the decoder panic, and it has exactly four parts if and
      only if its name and sender are free of slashes. */
  lemma {:induction false} EncodedKeyShape(tv: ThingValue, now: Int64)
    ensures |Split(EncodeKey(tv, now), '/')| >= 4
    ensures FourParts(EncodeKey(tv, now)) <==> '/' !in tv.name && '/' !in tv.senderID
    ensures KeyTime(EncodeKey(tv, now)) == KeyStamp(tv, now)
    ensures FourParts(EncodeKey(tv, now)) ==> KeyName(EncodeKey(tv, now)) == tv.name
    ensures '/' !in tv.name ==>
              Split(EncodeKey(tv, now), '/')[2]
              == if tv.valueType == "action" then "a" else if tv.valueType == "config" then "c" else "e"
    ensures '/' !in tv.name && '/' !in tv.senderID && KeyStamp(tv, now) > 0
            ==> StampedKey(EncodeKey(tv, now), Width(KeyStamp(tv, now)))
  {
    EncodedParts(tv, now);
    ParseFormat(KeyStamp(tv, now));
    SplitPlain(tv.name, '/');
    SplitPlain(tv.senderID, '/');
  }

  function DecodedType(valueType: string): string {
    if valueType == MessageTypeAction || valueType == MessageTypeConfig then valueType
    else MessageTypeEvent
  }

  /** The fields any encoded value decodes to. */
  lemma {:induction false} DecodedFields(tv: ThingValue, now: Int64)
    ensures Decode(Address(tv), EncodeKey(tv, now), tv.data).Decoded?
    ensures
      var v := Decode(Address(tv), EncodeKey(tv, now), tv.data).tv;
      && v.createdMSec == KeyStamp(tv, now) && v.data == tv.data
      && v.name == Split(tv.name, '/')[0] && v.agentID == Split(tv.agentID, '/')[0]
      && ('/' !in tv.agentID ==> v.thingID == Split(tv.thingID, '/')[0])
      && ('/' !in tv.name ==> v.senderID == Split(tv.senderID, '/')[0] && v.valueType == DecodedType(tv.valueType))
  {
    KeyFields(tv, now);
    ParseFormat(KeyStamp(tv, now));
    SplitAppend(tv.agentID, tv.thingID, '/');
    SplitPlain(tv.agentID, '/');
  }

  lemma {:induction false} KeyFields(tv: ThingValue, now: Int64)
    ensures
      var parts := Split(EncodeKey(tv, now), '/');
      && |parts| >= 4 && parts[0] == FormatInt(KeyStamp(tv, now)) && parts[1] == Split(tv.name, '/')[0]
      && ('/' !in tv.name ==> parts[2] == TypeMark(tv.valueType) && parts[3] == Split(tv.senderID, '/')[0])
  {
    EncodedParts(tv, now);
    SplitPlain(tv.name, '/');
    var names := Split(tv.name, '/');
    var parts := Split(EncodeKey(tv, now), '/');
    assert parts[1] == names[0];
    if '/' !in tv.name {
      assert names == [tv.name];
      assert parts[2] == TypeMark(tv.valueType) && parts[3] == Split(tv.senderID, '/')[0];
    }
  }

  /** Decoding undoes encoding for a positive timestamp if and only if the value is plain. */
  lemma {:induction false} RoundTrip(tv: ThingValue, now: Int64)
    requires tv.createdMSec > 0
    ensures Decode(Address(tv), EncodeKey(tv, now), tv.data) == Decoded(tv) <==> Plain(tv)
  {
    DecodedFields(tv, now);
    SplitPlain(tv.agentID, '/');
    SplitPlain(tv.thingID, '/');
    SplitPlain(tv.name, '/');
    SplitPlain(tv.senderID, '/');
    var v := Decode(Address(tv), EncodeKey(tv, now), tv.data).tv;
    if Plain(tv) {
      assert v == tv;
    }
  }

  /** A name with a slash comes back cut off at the first one. */
  lemma {:induction false} NameIsCut(tv: ThingValue, now: Int64, x: string, y: string)
    requires tv.name == x + "/" + y && '/' !in x
    ensures Decode(Address(tv), EncodeKey(tv, now), tv.data).Decoded?
    ensures Decode(Address(tv), EncodeKey(tv, now), tv.data).tv.name == x
  {
    DecodedFields(tv, now);
    SplitPlain(x, '/');
    SplitAppend(x, y, '/');
  }

  /** What a plain value stored without a positive timestamp reads back as: itself, dated by
      the clock at the time it was encoded. */
  lemma {:induction false} RoundTripStamped(tv: ThingValue, now: Int64)
    requires Plain(tv) && tv.createdMSec <= 0 && now > 0
    ensures Decode(Address(tv), EncodeKey(tv, now), tv.data) == Decoded(tv.(createdMSec := now))
  {
    RoundTrip(tv.(createdMSec := now), now);
  }

  /** Two slash-free values share a key only if they agree on all four fields. */
  lemma {:induction false} KeyInjective(a: ThingValue, b: ThingValue, nowA: Int64, nowB: Int64)
    requires '/' !in a.name && '/' !in a.senderID && '/' !in b.name && '/' !in b.senderID
    ensures EncodeKey(a, nowA) == EncodeKey(b, nowB)
       <==> && KeyStamp(a, nowA) == KeyStamp(b, nowB) && a.name == b.name
            && TypeMark(a.valueType) == TypeMark(b.valueType) && a.senderID == b.senderID
  {
    EncodedParts(a, nowA);
    EncodedParts(b, nowB);
    EncodedKeyShape(a, nowA);
    EncodedKeyShape(b, nowB);
    SplitPlain(a.name, '/');
    SplitPlain(b.name, '/');
    SplitPlain(a.senderID, '/');
    SplitPlain(b.senderID, '/');
    if EncodeKey(a, nowA) == EncodeKey(b, nowB) {
      var parts := Split(EncodeKey(a, nowA), '/');
      assert parts == [FormatInt(KeyStamp(a, nowA)), a.name, TypeMark(a.valueType), a.senderID];
      assert parts == [FormatInt(KeyStamp(b, nowB)), b.name, TypeMark(b.valueType), b.senderID];
    }
  }

  /** A stamped key is its timestamp, a slash and a rest. */
  lemma {:induction false} StampedKeySplit(key: string, w: nat) returns (rest: string)
    requires StampedKey(key, w)
    ensures key == FormatUint(KeyTime(key), 10) + "/" + rest
  {
    JoinSplit(key, '/');
    rest := Join(Split(key, '/')[1..], '/');
  }

  /** Key order refines time order: among keys of one timestamp width, an earlier key is
      never later in time. */
  lemma {:induction false} KeyOrderFollowsTime(a: string, b: string, w: nat)
    requires StampedKey(a, w) && StampedKey(b, w)
    ensures KeyTime(a) < KeyTime(b) ==> Less(a, b)
    ensures Less(a, b) ==> KeyTime(a) <= KeyTime(b)
  {
    var x := StampedKeySplit(a, w);
    var y := StampedKeySplit(b, w);
    if KeyTime(a) < KeyTime(b) {
      StampOrder(KeyTime(a), KeyTime(b), x, y);
    } else if KeyTime(b) < KeyTime(a) {
      StampOrder(KeyTime(b), KeyTime(a), y, x);
      LessAsymmetric(b, a);
    }
  }

  /** Without the width condition key order follows time for a pair of timestamps exactly
      when the earlier one is at most the equally long prefix of the later one. */
  lemma {:induction false} KeyOrderExact(a: string, b: string)
    requires StampedKey(a, Width(if KeyTime(a) > 0 then KeyTime(a) else 0))
    requires StampedKey(b, Width(if KeyTime(b) > 0 then KeyTime(b) else 0))
    requires KeyTime(a) < KeyTime(b)
    ensures Less(a, b) <==> KeyTime(a) <= Leading(KeyTime(b), Width(KeyTime(a)))
  {
    var x := StampedKeySplit(a, Width(KeyTime(a)));
    var y := StampedKeySplit(b, Width(KeyTime(b)));
    StampOrder(KeyTime(a), KeyTime(b), x, y);
  }

  /** The smallest failing pair: 9 ms is before 10 ms, but its key sorts after. */
  lemma {:induction false} KeyOrderFailsAcrossWidths(tv: ThingValue)
    requires tv.createdMSec == 9
    ensures Less(EncodeKey(tv.(createdMSec := 10), 1), EncodeKey(tv, 1))
    ensures !Less(EncodeKey(tv, 1), EncodeKey(tv.(createdMSec := 10), 1))
  {
  }

  /** The key searched for by Seek: a stamped key is at or after the bare printed time `t`
      if and only if its timestamp is. */
  lemma {:induction false} SeekKeyOrder(key: string, t: Int64, w: nat)
    requires StampedKey(key, w) && t > 0 && Width(t) == w
    ensures !Less(key, FormatInt(t)) <==> KeyTime(key) >= t
  {
    var rest := StampedKeySplit(key, w);
    var f, g := FormatUint(KeyTime(key), 10), FormatUint(t, 10);
    assert key == f + ("/" + rest) && g == g + "";
    if f == g {
      FormatUintInjective(KeyTime(key), t, 10);
      LessPrefix(f, "/" + rest, "");
    } else {
      LessDecided(f, g, "/" + rest, "");
      EqualWidthOrder(KeyTime(key), t);
    }
  }
}
