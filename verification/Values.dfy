/** The values of bolt 12 message fields, and the bytes they are written as. */
module Values {
  import opened Wrappers
  import opened Bytes
  import opened BigSize
  import opened Keys
  import opened Tlv
  import opened TU64
  import opened MerkleTree
  import opened Fields

  const ZERO_HASH: Hash := ToBE(0, 32)

  type int64 = x: int | -0x8000_0000_0000_0000 <= x < 0x8000_0000_0000_0000 witness 0

  type Signature = s: seq<byte> | |s| == 64 witness ToBE(0, 64)

  /** A time as seconds since the Unix epoch, which may be negative, and nanoseconds. */
  datatype Time = Time(seconds: int64, nanos: nat)

  /** The first instant of year one, which counts as no time. */
  const ZERO_TIME: Time := Time(-62135596800, 0)

  /** Conversions between signed and unsigned 64-bit integers keep the bits. */
  function Unsigned(x: int64): uint64 {
    if x < 0 then x + 0x1_0000_0000_0000_0000 else x
  }

  function Signed64(u: uint64): int64 {
    if u >= 0x8000_0000_0000_0000 then u - 0x1_0000_0000_0000_0000 else u
  }

  // ---------- written values, for fields that are set ----------

  function HashValue(h: Hash): Option<Text> {
    if h == ZERO_HASH then None else Some(h)
  }

  function Truncated64(n: uint64): Text {
    TU64RoundTrip(n, []);
    EncodeTU64(n)
  }

  function NumberValue(n: uint64): Option<Text> {
    if n == 0 then None else Some(Truncated64(n))
  }

  /** Eight bytes, for the integers that are not truncated. */
  function WideValue(n: uint64): Option<Text> {
    if n == 0 then None else Some(ToBE(n, 8))
  }

  function TextValue(t: Text): Option<Text> {
    if t == [] then None else Some(t)
  }

  function FeaturesValue(lib: Lib, features: Option<set<Feature>>): Option<Text> {
    if features.None? || features.value == {} then None else Some(lib.encodeFeatures(features.value))
  }

  function TimeValue(t: Time): Option<Text> {
    if t == ZERO_TIME then None else Some(Truncated64(Unsigned(t.seconds)))
  }

  function WideTimeValue(t: Time): Option<Text> {
    if t == ZERO_TIME then None else Some(ToBE(Unsigned(t.seconds), 8))
  }

  /** A duration in nanoseconds is written in seconds. */
  function DurationValue(lib: Lib, nanos: int64): Option<Text> {
    if nanos == 0 then None else Some(ToBE(lib.seconds(nanos), 8))
  }

  function XOnlyValue(key: Option<PubKey>): Option<Text>
    requires key.Some? ==> |key.value.x| == 32
  {
    if key.None? then None else Some(key.value.x)
  }

  function PointValue(key: Option<PubKey>): Option<Text>
    requires key.Some? ==> |key.value.x| == 32
  {
    if key.None? then None else Some(key.value.Compressed())
  }

  function SignatureValue(s: Option<Signature>): Option<Text> {
    if s.None? then None else Some(s.value)
  }

  /** Which values are written. */
  lemma ValueSet(h: Hash, n: uint64, t: Text, time: Time)
    ensures HashValue(h).Some? <==> h != ZERO_HASH
    ensures NumberValue(n).Some? <==> n != 0
    ensures WideValue(n).Some? <==> n != 0
    ensures TextValue(t).Some? <==> t != []
    ensures TimeValue(time).Some? <==> time != ZERO_TIME
    ensures WideTimeValue(time).Some? <==> time != ZERO_TIME
  {
  }

  lemma LibValueSet(lib: Lib, features: Option<set<Feature>>, key: Option<PubKey>, nanos: int64)
    requires key.Some? ==> |key.value.x| == 32
    ensures FeaturesValue(lib, features).Some? <==> features.GetOr({}) != {}
    ensures PointValue(key).Some? <==> key.Some?
    ensures DurationValue(lib, nanos).Some? <==> nanos != 0
  {
  }

  // ---------- what a decode makes of them ----------

  function HashOf(v: Option<seq<byte>>): Hash {
    if v.Some? && |v.value| == 32 then v.value else ZERO_HASH
  }

  function NumberOf(v: Option<seq<byte>>): uint64 {
    if v.Some? && |v.value| <= 8 then EightBytes(v.value); FromBE(v.value) else 0
  }

  function TextOf(v: Option<seq<byte>>): Text {
    if v.Some? && |v.value| <= MAX_UINT64 then v.value else []
  }

  function FeaturesOf(lib: Lib, v: Option<seq<byte>>): Result<set<Feature>, MessageError> {
    match v
    case None => Ok({})
    case Some(bs) =>
      match lib.decodeFeatures(bs)
      case None => Err(BadStream(BadFeatures))
      case Some(features) => Ok(features)
  }

  function TimeOf(v: Option<seq<byte>>): Time {
    if v.None? then ZERO_TIME else Time(Signed64(NumberOf(v)), 0)
  }

  const NANOS_PER_SECOND: int := 1_000_000_000

  /** Multiplying seconds into nanoseconds wraps around. */
  function SecondsAsNanos(n: uint64): int64 {
    Signed64(n * NANOS_PER_SECOND % 0x1_0000_0000_0000_0000)
  }

  function DurationOf(v: Option<seq<byte>>): int64 {
    if v.None? then 0 else SecondsAsNanos(NumberOf(v))
  }

  function XOnlyOf(curve: Curve, v: Option<seq<byte>>): (r: Result<Option<PubKey>, MessageError>)
    ensures r.Ok? && r.value.Some? ==> r.value.value.Valid(curve)
  {
    match v
    case None => Ok(None)
    case Some(bs) =>
      match ParseXOnly(curve, bs)
      case Err(e) => Err(BadStream(e))
      case Ok(key) => Ok(Some(key))
  }

  function PointOf(curve: Curve, v: Option<seq<byte>>): (r: Option<PubKey>)
    ensures r.Some? ==> r.value.Valid(curve)
  {
    if v.Some? && ParseCompressed(curve, v.value).Ok? then
      CompressedUnique(curve, v.value);
      Some(ParseCompressed(curve, v.value).value)
    else None
  }

  function SignatureOf(v: Option<seq<byte>>): Option<Signature> {
    if v.Some? && |v.value| == 64 then Some(v.value) else None
  }

  /** What is not on the wire is not set. */
  lemma DefaultsOfNone(curve: Curve)
    ensures HashOf(None) == ZERO_HASH && NumberOf(None) == 0 && TextOf(None) == [] && TimeOf(None) == ZERO_TIME
    ensures XOnlyOf(curve, None) == Ok(None) && PointOf(curve, None) == None && SignatureOf(None) == None
            && DurationOf(None) == 0
  {
  }

  // ---------- written values come back ----------

  lemma NumberComesBack(n: uint64)
    ensures NumberOf(NumberValue(n)) == n
    ensures NumberValue(n).Some? ==> 1 <= |NumberValue(n).value| <= 8 && NumberValue(n).value[0] != 0
  {
    TU64RoundTrip(n, []);
    FromMinBE(n);
  }

  lemma WideComesBack(n: uint64)
    ensures NumberOf(Some(ToBE(n, 8))) == n && NumberOf(WideValue(n)) == n
  {
    Pow256Values();
    FromToBE(n, 8);
  }

  lemma HashComesBack(h: Hash)
    ensures HashOf(HashValue(h)) == h
    ensures HashValue(h).Some? ==> |HashValue(h).value| == 32
  {
  }

  lemma TextComesBack(t: Text)
    ensures TextOf(TextValue(t)) == t
  {
  }

  lemma SignatureComesBack(s: Option<Signature>)
    ensures SignatureOf(SignatureValue(s)) == s
    ensures SignatureValue(s).Some? ==> |SignatureValue(s).value| == 64
  {
  }

  /** An x-only key comes back as the key with that x and even y. */
  lemma XOnlyComesBack(curve: Curve, key: Option<PubKey>)
    requires key.Some? ==> key.value.Valid(curve)
    ensures XOnlyOf(curve, XOnlyValue(key)) == Ok(if key.Some? then Some(key.value.EvenY()) else None)
    ensures XOnlyValue(key).Some? ==> |XOnlyValue(key).value| == 32
  {
  }

  lemma FeaturesComeBack(lib: Lib, features: Option<set<Feature>>)
    requires lib.Sound()
    ensures FeaturesOf(lib, FeaturesValue(lib, features)) == Ok(features.GetOr({}))
  {
  }

  /** A time comes back to the second. At the epoch it is written as no bytes, which no reader takes. */
  lemma TimeComesBack(t: Time)
    ensures TimeOf(TimeValue(t)) == t.(nanos := 0)
    ensures TimeValue(t).Some? ==>
              (t.seconds != 0 <==> 1 <= |TimeValue(t).value| <= 8 && TimeValue(t).value[0] != 0)
    ensures t.seconds == 0 ==> TimeValue(t).Some?
  {
    TU64RoundTrip(Unsigned(t.seconds), []);
    FromMinBE(Unsigned(t.seconds));
  }

  lemma WideTimeComesBack(t: Time)
    ensures TimeOf(WideTimeValue(t)) == t.(nanos := 0)
  {
    WideComesBack(Unsigned(t.seconds));
  }

  lemma WrittenSeconds(lib: Lib, nanos: int64)
    ensures NumberOf(Some(ToBE(lib.seconds(nanos), 8))) == lib.seconds(nanos)
    ensures DurationOf(DurationValue(lib, nanos)) == if nanos == 0 then 0 else SecondsAsNanos(lib.seconds(nanos))
  {
    WideComesBack(lib.seconds(nanos));
  }

  /** Up to 9223372036 seconds nothing wraps; one more second wraps into a negative duration. */
  lemma SecondsWrap(n: uint64)
    ensures n <= 9223372036 ==> SecondsAsNanos(n) == n * NANOS_PER_SECOND
    ensures n == 9223372037 ==> SecondsAsNanos(n) < 0
  {
  }

  lemma SecondsBounds(lib: Lib, nanos: int64)
    requires lib.SoundSeconds() && nanos >= 0
    ensures lib.seconds(nanos) <= 9223372037
    ensures nanos % NANOS_PER_SECOND == 0 ==>
            lib.seconds(nanos) <= 9223372036 && lib.seconds(nanos) * NANOS_PER_SECOND == nanos
  {
  }

  /** A duration that is not negative comes back exactly when it is in whole seconds. */
  lemma DurationComesBack(lib: Lib, nanos: int64)
    requires lib.SoundSeconds() && nanos >= 0
    ensures DurationOf(DurationValue(lib, nanos)) == nanos <==> nanos % NANOS_PER_SECOND == 0
  {
    hide DurationOf, DurationValue, SecondsAsNanos;
    var n := lib.seconds(nanos);
    WrittenSeconds(lib, nanos);
    SecondsBounds(lib, nanos);
    SecondsWrap(n);
    WholeSeconds(n);
  }

  lemma WholeSeconds(n: uint64)
    ensures n * NANOS_PER_SECOND % NANOS_PER_SECOND == 0
  {
  }

  lemma PointComesBack(curve: Curve, key: Option<PubKey>)
    requires key.Some? ==> key.value.Valid(curve)
    ensures PointOf(curve, PointValue(key)) == key
    ensures PointValue(key).Some? ==> ValidValue(curve, Point, PointValue(key).value)
  {
    if key.Some? {
      CompressedRoundTrip(curve, key.value);
    }
  }

  // ---------- read values are written the same ----------

  /** Truncated integers are written as they were read. */
  lemma NumberKept(v: Option<seq<byte>>)
    requires v.Some? ==> 1 <= |v.value| <= 8 && v.value[0] != 0
    ensures NumberValue(NumberOf(v)) == v
  {
    if v.Some? {
      MinFromBE(v.value);
    }
  }

  /** So are times, unless the bits are those of the first instant of year one. */
  lemma TimeKept(v: Option<seq<byte>>)
    requires v.Some? ==> 1 <= |v.value| <= 8 && v.value[0] != 0
    ensures TimeValue(TimeOf(v)) == v <==> v.None? || NumberOf(v) != Unsigned(ZERO_TIME.seconds)
  {
    if v.Some? {
      MinFromBE(v.value);
    }
  }

  lemma HashKept(v: Option<seq<byte>>)
    requires v.Some? ==> |v.value| == 32
    ensures HashValue(HashOf(v)) == v <==> v.None? || v.value != ZERO_HASH
  {
  }

  lemma TextKept(v: Option<seq<byte>>)
    requires v.Some? ==> |v.value| <= MAX_UINT64
    ensures TextValue(TextOf(v)) == v <==> v.None? || v.value != []
  {
  }

  /** The bytes are those of a non-empty feature vector, as it is encoded. */
  predicate FeaturesCanonical(lib: Lib, bs: seq<byte>) {
    match lib.decodeFeatures(bs)
    case None => false
    case Some(features) => features != {} && lib.encodeFeatures(features) == bs
  }

  lemma FeaturesKept(lib: Lib, v: Option<seq<byte>>)
    requires FeaturesOf(lib, v).Ok?
    ensures FeaturesValue(lib, Some(FeaturesOf(lib, v).value)) == v <==> v.None? || FeaturesCanonical(lib, v.value)
  {
  }

  lemma XOnlyKept(curve: Curve, v: Option<seq<byte>>)
    requires XOnlyOf(curve, v).Ok?
    ensures XOnlyValue(XOnlyOf(curve, v).value) == v
  {
  }

  lemma PointKept(curve: Curve, v: Option<seq<byte>>)
    requires v.Some? ==> ValidValue(curve, Point, v.value)
    ensures PointValue(PointOf(curve, v)) == v
  {
    if v.Some? {
      CompressedUnique(curve, v.value);
    }
  }

  /** Eight bytes are what their number is written as. */
  lemma EightBytesKept(bs: seq<byte>, n: uint64)
    requires |bs| == 8
    ensures ToBE(n, 8) == bs <==> NumberOf(Some(bs)) == n
  {
    ToFromBE(bs);
    WideComesBack(n);
  }

  lemma WideKept(v: Option<seq<byte>>)
    requires v.Some? ==> |v.value| == 8
    ensures WideValue(NumberOf(v)) == v <==> v.None? || NumberOf(v) != 0
  {
    hide ToBE;
    if v.Some? {
      EightBytesKept(v.value, NumberOf(v));
    }
  }

  lemma WideTimeKept(v: Option<seq<byte>>)
    requires v.Some? ==> |v.value| == 8
    ensures WideTimeValue(TimeOf(v)) == v <==> v.None? || NumberOf(v) != Unsigned(ZERO_TIME.seconds)
  {
    hide ToBE;
    if v.Some? {
      EightBytesKept(v.value, NumberOf(v));
    }
  }

  /** The seconds of an expiry are written as they were read: from one second to all that do not wrap. */
  predicate SecondsKept(lib: Lib, bs: seq<byte>) {
    var n, nanos := NumberOf(Some(bs)), DurationOf(Some(bs));
    if nanos >= 0 then 1 <= n <= 9223372036 else lib.seconds(nanos) == n
  }

  lemma DurationKept(lib: Lib, v: Option<seq<byte>>)
    requires lib.SoundSeconds() && (v.Some? ==> |v.value| == 8)
    ensures DurationValue(lib, DurationOf(v)) == v <==> v.None? || SecondsKept(lib, v.value)
  {
    hide ToBE, SecondsAsNanos;
    if v.Some? {
      var n, nanos := NumberOf(v), DurationOf(v);
      EightBytesKept(v.value, lib.seconds(nanos));
      SecondsWrap(n);
      if nanos >= 0 {
        SecondsBounds(lib, nanos);
      }
    }
  }

  // ---------- what is written, a type's decoder takes ----------

  lemma HashFieldOk(curve: Curve, schema: Schema, t: uint64, h: Hash)
    requires t in schema && schema[t] == Exact(32)
    ensures FieldOk(curve, schema, Field(t, HashValue(h)))
  {
    hide HashValue;
    HashComesBack(h);
  }

  lemma NumberFieldOk(curve: Curve, schema: Schema, t: uint64, n: uint64)
    requires t in schema && schema[t] == Trunc64
    ensures FieldOk(curve, schema, Field(t, NumberValue(n)))
  {
    hide NumberValue;
    NumberComesBack(n);
  }

  /** A time at the epoch is the one value that is written and not taken. */
  lemma TimeFieldOk(curve: Curve, schema: Schema, t: uint64, time: Time)
    requires t in schema && schema[t] == Trunc64
    ensures FieldOk(curve, schema, Field(t, TimeValue(time))) <==> time.seconds != 0
  {
    hide TimeValue;
    TimeComesBack(time);
  }

  lemma BlobFieldOk(curve: Curve, schema: Schema, t: uint64, value: Option<Text>)
    requires t in schema && schema[t] == Blob
    ensures FieldOk(curve, schema, Field(t, value))
  {
  }

  lemma XOnlyFieldOk(curve: Curve, schema: Schema, t: uint64, key: Option<PubKey>)
    requires t in schema && schema[t] == Exact(32) && (key.Some? ==> key.value.Valid(curve))
    ensures FieldOk(curve, schema, Field(t, XOnlyValue(key)))
  {
    hide XOnlyValue;
    XOnlyComesBack(curve, key);
  }

  lemma PointFieldOk(curve: Curve, schema: Schema, t: uint64, key: Option<PubKey>)
    requires t in schema && schema[t] == Point && (key.Some? ==> key.value.Valid(curve))
    ensures FieldOk(curve, schema, Field(t, PointValue(key)))
  {
    hide PointValue;
    PointComesBack(curve, key);
  }

  lemma SignatureFieldOk(curve: Curve, schema: Schema, t: uint64, s: Option<Signature>)
    requires t in schema && schema[t] == Exact(64)
    ensures FieldOk(curve, schema, Field(t, SignatureValue(s)))
  {
    hide SignatureValue;
    SignatureComesBack(s);
  }
}
