/**
 * Offers, invoice requests and invoices spelled out: the bytes they are written as, and what is read
 * from a stream of records by type number.
 */
module MessageLayouts {
  import opened Wrappers
  import opened Bytes
  import opened BigSize
  import opened Keys
  import opened Tlv
  import opened TU64
  import opened MerkleTree
  import Merkle
  import opened Fields
  import opened Values
  import opened Signatures
  import opened Layouts
  import Offer
  import InvoiceRequest
  import Invoice

  function Zeros(n: nat): (bs: seq<byte>)
    ensures |bs| == n
  {
    seq(n, i requires 0 <= i < n => 0)
  }

  lemma {:induction false} ZeroBytes(width: nat)
    ensures ToBE(0, width) == Zeros(width)
  {
    if width > 0 {
      ZeroBytes(width - 1);
    }
  }

  // ---------- fields ----------

  /** A field on the wire: nothing if it is not set. */
  function FieldSpelled(typ: uint64, value: Option<Text>): seq<byte> {
    if value.None? then [] else Entry(typ, value.value)
  }

  function FieldsSpelled(fs: seq<Field>): seq<byte> {
    if fs == [] then [] else FieldSpelled(fs[0].typ, fs[0].value) + FieldsSpelled(fs[1..])
  }

  lemma PresentNext(fs: seq<Field>, k: nat)
    requires 0 < k <= |fs|
    ensures Entries(PresentTo(fs, k)) == Entries(PresentTo(fs, k - 1)) + FieldSpelled(fs[k - 1].typ, fs[k - 1].value)
  {
    hide Entry, Entries;
    var f := fs[k - 1];
    if f.value.Some? {
      EntriesOfOne(f.typ, f.value.value);
      EntriesConcat(PresentTo(fs, k - 1), [Record(f.typ, f.value.value)]);
    } else {
      assert PresentTo(fs, k) == PresentTo(fs, k - 1);
    }
  }

  lemma {:induction false} PresentToSpelled(fs: seq<Field>, k: nat)
    requires k <= |fs|
    ensures Entries(PresentTo(fs, k)) == FieldsSpelled(fs[..k])
  {
    if k == 0 {
      assert fs[..0] == [];
    } else {
      hide Entries, PresentTo, FieldsSpelled, FieldSpelled;
      PresentToSpelled(fs, k - 1);
      PresentNext(fs, k);
      FieldsSnoc(fs[..k - 1], fs[k - 1]);
      assert fs[..k] == fs[..k - 1] + [fs[k - 1]];
    }
  }

  lemma {:induction false} FieldsSnoc(fs: seq<Field>, f: Field)
    ensures FieldsSpelled(fs + [f]) == FieldsSpelled(fs) + FieldSpelled(f.typ, f.value)
  {
    hide FieldSpelled;
    if fs == [] {
      assert fs + [f] == [f] && [f][1..] == [];
    } else {
      FieldsSnoc(fs[1..], f);
      assert (fs + [f])[1..] == fs[1..] + [f];
    }
  }

  lemma PresentSpelled(fs: seq<Field>)
    ensures StreamBytes(Present(fs)) == FieldsSpelled(fs)
  {
    hide StreamBytes, Entries, FieldsSpelled;
    StreamSpelled(Present(fs));
    PresentToSpelled(fs, |fs|);
    assert fs[..|fs|] == fs;
  }

  lemma FieldsUpTo(fs: seq<Field>, k: nat)
    requires k < |fs|
    ensures FieldsSpelled(fs[..0]) == [] && fs[..|fs|] == fs
    ensures FieldsSpelled(fs[..k + 1]) == FieldsSpelled(fs[..k]) + FieldSpelled(fs[k].typ, fs[k].value)
  {
    FieldsSnoc(fs[..k], fs[k]);
    assert fs[..k + 1] == fs[..k] + [fs[k]];
  }

  // ---------- values, left out when they are not set ----------

  function HashEntry(typ: uint64, h: Hash): seq<byte> {
    if h == Zeros(32) then [] else Entry(typ, h)
  }

  /** Integers are written without leading zero bytes. */
  function NumberEntry(typ: uint64, n: uint64): seq<byte> {
    TU64RoundTrip(n, []);
    if n == 0 then [] else Entry(typ, MinBE(n))
  }

  /** Or in eight bytes. */
  function WideEntry(typ: uint64, n: uint64): seq<byte> {
    if n == 0 then [] else Entry(typ, ToBE(n, 8))
  }

  function TextEntry(typ: uint64, text: Text): seq<byte> {
    if text == [] then [] else Entry(typ, text)
  }

  function FeaturesEntry(lib: Lib, typ: uint64, features: Option<set<Feature>>): seq<byte> {
    if features.None? || features.value == {} then [] else Entry(typ, lib.encodeFeatures(features.value))
  }

  /** The seconds of a time since 1970, negative ones modulo 2^64; the first instant of year one is no time. */
  function Seconds(t: Time): uint64 {
    if t.seconds < 0 then t.seconds + 0x1_0000_0000_0000_0000 else t.seconds
  }

  function TimeEntry(typ: uint64, t: Time): seq<byte> {
    TU64RoundTrip(Seconds(t), []);
    if t == Time(-62135596800, 0) then [] else Entry(typ, MinBE(Seconds(t)))
  }

  function WideTimeEntry(typ: uint64, t: Time): seq<byte> {
    if t == Time(-62135596800, 0) then [] else Entry(typ, ToBE(Seconds(t), 8))
  }

  function DurationEntry(lib: Lib, typ: uint64, nanos: int64): seq<byte> {
    if nanos == 0 then [] else Entry(typ, ToBE(lib.seconds(nanos), 8))
  }

  function XOnlyEntry(typ: uint64, key: Option<PubKey>): seq<byte>
    requires key.Some? ==> |key.value.x| == 32
  {
    if key.None? then [] else Entry(typ, key.value.x)
  }

  function PointEntry(typ: uint64, key: Option<PubKey>): seq<byte>
    requires key.Some? ==> |key.value.x| == 32
  {
    if key.None? then [] else Entry(typ, [if key.value.odd then 3 else 2] + key.value.x)
  }

  function SignatureEntry(typ: uint64, s: Option<Signature>): seq<byte> {
    if s.None? then [] else Entry(typ, s.value)
  }

  lemma ValuesSpelled(typ: uint64, h: Hash, n: uint64, text: Text, t: Time)
    ensures FieldSpelled(typ, HashValue(h)) == HashEntry(typ, h)
    ensures FieldSpelled(typ, NumberValue(n)) == NumberEntry(typ, n)
    ensures FieldSpelled(typ, WideValue(n)) == WideEntry(typ, n)
    ensures FieldSpelled(typ, TextValue(text)) == TextEntry(typ, text)
    ensures FieldSpelled(typ, TimeValue(t)) == TimeEntry(typ, t)
    ensures FieldSpelled(typ, WideTimeValue(t)) == WideTimeEntry(typ, t)
  {
    hide Entry, MinBE;
    ZeroBytes(32);
    hide ToBE;
  }

  lemma KeysSpelled(lib: Lib, typ: uint64, features: Option<set<Feature>>, nanos: int64, key: Option<PubKey>,
                    s: Option<Signature>)
    requires key.Some? ==> |key.value.x| == 32
    ensures FieldSpelled(typ, FeaturesValue(lib, features)) == FeaturesEntry(lib, typ, features)
    ensures FieldSpelled(typ, DurationValue(lib, nanos)) == DurationEntry(lib, typ, nanos)
    ensures FieldSpelled(typ, XOnlyValue(key)) == XOnlyEntry(typ, key)
    ensures FieldSpelled(typ, PointValue(key)) == PointEntry(typ, key)
    ensures FieldSpelled(typ, SignatureValue(s)) == SignatureEntry(typ, s)
  {
    hide Entry, ToBE;
  }

  // ---------- offers ----------

  /** The bytes of an offer. */
  function OfferSpelled(lib: Lib, o: Offer.Offer): seq<byte>
    requires o.Valid(lib.curve)
  {
    HashEntry(2, o.chainhash) + NumberEntry(8, o.minimumAmount) + TextEntry(10, o.description)
    + FeaturesEntry(lib, 12, o.features) + TimeEntry(14, o.expiry) + TextEntry(20, o.issuer)
    + NumberEntry(22, o.quantityMin) + NumberEntry(24, o.quantityMax) + XOnlyEntry(30, o.nodeID)
    + SignatureEntry(240, o.signature)
  }

  lemma OfferIsSpelled(lib: Lib, o: Offer.Offer)
    requires o.Valid(lib.curve)
    ensures StreamBytes(Offer.OfferRecords(lib, o)) == OfferSpelled(lib, o)
  {
    hide HashEntry, NumberEntry, TextEntry, FeaturesEntry, TimeEntry, XOnlyEntry, SignatureEntry, HashValue,
         NumberValue, TextValue, FeaturesValue, TimeValue, XOnlyValue, SignatureValue, FieldSpelled, FieldsSpelled,
         StreamBytes, Present;
    Offer.FieldAt(lib, o);
    hide Offer.OfferFields;
    var fs := Offer.OfferFields(lib, o);
    PresentSpelled(fs);
    OfferValuesSpelled(lib, o);
    FieldsUpTo(fs, 0);
    FieldsUpTo(fs, 1);
    FieldsUpTo(fs, 2);
    FieldsUpTo(fs, 3);
    FieldsUpTo(fs, 4);
    FieldsUpTo(fs, 5);
    FieldsUpTo(fs, 6);
    FieldsUpTo(fs, 7);
    FieldsUpTo(fs, 8);
    FieldsUpTo(fs, 9);
  }

  lemma OfferValuesSpelled(lib: Lib, o: Offer.Offer)
    requires o.Valid(lib.curve)
    ensures FieldSpelled(2, HashValue(o.chainhash)) == HashEntry(2, o.chainhash)
    ensures FieldSpelled(8, NumberValue(o.minimumAmount)) == NumberEntry(8, o.minimumAmount)
    ensures FieldSpelled(10, TextValue(o.description)) == TextEntry(10, o.description)
    ensures FieldSpelled(12, FeaturesValue(lib, o.features)) == FeaturesEntry(lib, 12, o.features)
    ensures FieldSpelled(14, TimeValue(o.expiry)) == TimeEntry(14, o.expiry)
    ensures FieldSpelled(20, TextValue(o.issuer)) == TextEntry(20, o.issuer)
    ensures FieldSpelled(22, NumberValue(o.quantityMin)) == NumberEntry(22, o.quantityMin)
    ensures FieldSpelled(24, NumberValue(o.quantityMax)) == NumberEntry(24, o.quantityMax)
    ensures FieldSpelled(30, XOnlyValue(o.nodeID)) == XOnlyEntry(30, o.nodeID)
    ensures FieldSpelled(240, SignatureValue(o.signature)) == SignatureEntry(240, o.signature)
  {
    hide HashEntry, NumberEntry, TextEntry, FeaturesEntry, TimeEntry, XOnlyEntry, SignatureEntry, HashValue,
         NumberValue, TextValue, FeaturesValue, TimeValue, XOnlyValue, SignatureValue, FieldSpelled;
    ValuesSpelled(2, o.chainhash, 0, [], ZERO_TIME);
    ValuesSpelled(8, ZERO_HASH, o.minimumAmount, [], ZERO_TIME);
    ValuesSpelled(10, ZERO_HASH, 0, o.description, ZERO_TIME);
    KeysSpelled(lib, 12, o.features, 0, None, None);
    ValuesSpelled(14, ZERO_HASH, 0, [], o.expiry);
    ValuesSpelled(20, ZERO_HASH, 0, o.issuer, ZERO_TIME);
    ValuesSpelled(22, ZERO_HASH, o.quantityMin, [], ZERO_TIME);
    ValuesSpelled(24, ZERO_HASH, o.quantityMax, [], ZERO_TIME);
    KeysSpelled(lib, 30, None, 0, o.nodeID, None);
    KeysSpelled(lib, 240, None, 0, None, o.signature);
  }

  // ---------- invoice requests ----------

  /** The bytes of an invoice request. */
  function RequestSpelled(lib: Lib, i: InvoiceRequest.InvoiceRequest): seq<byte>
    requires i.Valid(lib.curve)
  {
    HashEntry(3, i.chainhash) + HashEntry(4, i.offerID) + NumberEntry(8, i.amount)
    + FeaturesEntry(lib, 12, i.features) + NumberEntry(32, i.quantity) + XOnlyEntry(38, i.payerKey)
    + TextEntry(39, i.payerNote) + TextEntry(50, i.payerInfo) + SignatureEntry(240, i.signature)
  }

  lemma RequestIsSpelled(lib: Lib, i: InvoiceRequest.InvoiceRequest)
    requires i.Valid(lib.curve)
    ensures StreamBytes(InvoiceRequest.RequestRecords(lib, i)) == RequestSpelled(lib, i)
  {
    hide HashEntry, NumberEntry, FeaturesEntry, XOnlyEntry, TextEntry, SignatureEntry, HashValue, NumberValue,
         FeaturesValue, XOnlyValue, TextValue, SignatureValue, FieldSpelled, FieldsSpelled, StreamBytes, Present;
    InvoiceRequest.FieldAt(lib, i);
    hide InvoiceRequest.RequestFields;
    var fs := InvoiceRequest.RequestFields(lib, i);
    PresentSpelled(fs);
    RequestValuesSpelled(lib, i);
    FieldsUpTo(fs, 0);
    FieldsUpTo(fs, 1);
    FieldsUpTo(fs, 2);
    FieldsUpTo(fs, 3);
    FieldsUpTo(fs, 4);
    FieldsUpTo(fs, 5);
    FieldsUpTo(fs, 6);
    FieldsUpTo(fs, 7);
    FieldsUpTo(fs, 8);
  }

  lemma RequestValuesSpelled(lib: Lib, i: InvoiceRequest.InvoiceRequest)
    requires i.Valid(lib.curve)
    ensures FieldSpelled(3, HashValue(i.chainhash)) == HashEntry(3, i.chainhash)
    ensures FieldSpelled(4, HashValue(i.offerID)) == HashEntry(4, i.offerID)
    ensures FieldSpelled(8, NumberValue(i.amount)) == NumberEntry(8, i.amount)
    ensures FieldSpelled(12, FeaturesValue(lib, i.features)) == FeaturesEntry(lib, 12, i.features)
    ensures FieldSpelled(32, NumberValue(i.quantity)) == NumberEntry(32, i.quantity)
    ensures FieldSpelled(38, XOnlyValue(i.payerKey)) == XOnlyEntry(38, i.payerKey)
    ensures FieldSpelled(39, TextValue(i.payerNote)) == TextEntry(39, i.payerNote)
    ensures FieldSpelled(50, TextValue(i.payerInfo)) == TextEntry(50, i.payerInfo)
    ensures FieldSpelled(240, SignatureValue(i.signature)) == SignatureEntry(240, i.signature)
  {
    hide HashEntry, NumberEntry, FeaturesEntry, XOnlyEntry, TextEntry, SignatureEntry, HashValue, NumberValue,
         FeaturesValue, XOnlyValue, TextValue, SignatureValue, FieldSpelled;
    ValuesSpelled(3, i.chainhash, 0, [], ZERO_TIME);
    ValuesSpelled(4, i.offerID, 0, [], ZERO_TIME);
    ValuesSpelled(8, ZERO_HASH, i.amount, [], ZERO_TIME);
    KeysSpelled(lib, 12, i.features, 0, None, None);
    ValuesSpelled(32, ZERO_HASH, i.quantity, [], ZERO_TIME);
    KeysSpelled(lib, 38, None, 0, i.payerKey, None);
    ValuesSpelled(39, ZERO_HASH, 0, i.payerNote, ZERO_TIME);
    ValuesSpelled(50, ZERO_HASH, 0, i.payerInfo, ZERO_TIME);
    KeysSpelled(lib, 240, None, 0, None, i.signature);
  }

  // ---------- invoices ----------

  /** The bytes of an invoice. */
  function InvoiceSpelled(lib: Lib, i: Invoice.Invoice): seq<byte>
    requires i.Valid(lib.curve)
  {
    HashEntry(3, i.chainhash) + HashEntry(4, i.offerID) + NumberEntry(8, i.amount) + TextEntry(10, i.description)
    + FeaturesEntry(lib, 12, i.features) + PointEntry(30, i.nodeID) + NumberEntry(32, i.quantity)
    + PointEntry(38, i.payerKey) + TextEntry(39, i.payerNote) + WideTimeEntry(40, i.createdAt)
    + HashEntry(42, i.paymentHash) + DurationEntry(lib, 44, i.relativeExpiry) + WideEntry(46, i.cltvExpiry)
    + TextEntry(50, i.payerInfo) + SignatureEntry(240, i.signature)
  }

  /** The first eight fields. */
  lemma InvoiceBegins(lib: Lib, i: Invoice.Invoice)
    requires i.Valid(lib.curve)
    ensures |Invoice.InvoiceFields(lib, i)| == 15
    ensures FieldsSpelled(Invoice.InvoiceFields(lib, i)[..8]) ==
            HashEntry(3, i.chainhash) + HashEntry(4, i.offerID) + NumberEntry(8, i.amount)
            + TextEntry(10, i.description) + FeaturesEntry(lib, 12, i.features) + PointEntry(30, i.nodeID)
            + NumberEntry(32, i.quantity) + PointEntry(38, i.payerKey)
  {
    hide HashEntry, NumberEntry, TextEntry, FeaturesEntry, PointEntry, WideTimeEntry, DurationEntry, WideEntry,
         SignatureEntry, HashValue, NumberValue, TextValue, FeaturesValue, PointValue, WideTimeValue, DurationValue,
         WideValue, SignatureValue, FieldSpelled, FieldsSpelled, StreamBytes, Present;
    Invoice.FieldAt(lib, i);
    hide Invoice.InvoiceFields;
    var fs := Invoice.InvoiceFields(lib, i);
    InvoiceValuesSpelled(lib, i);
    FieldsUpTo(fs, 0);
    FieldsUpTo(fs, 1);
    FieldsUpTo(fs, 2);
    FieldsUpTo(fs, 3);
    FieldsUpTo(fs, 4);
    FieldsUpTo(fs, 5);
    FieldsUpTo(fs, 6);
    FieldsUpTo(fs, 7);
  }

  lemma InvoiceIsSpelled(lib: Lib, i: Invoice.Invoice)
    requires i.Valid(lib.curve)
    ensures StreamBytes(Invoice.InvoiceRecords(lib, i)) == InvoiceSpelled(lib, i)
  {
    hide HashEntry, NumberEntry, TextEntry, FeaturesEntry, PointEntry, WideTimeEntry, DurationEntry, WideEntry,
         SignatureEntry, HashValue, NumberValue, TextValue, FeaturesValue, PointValue, WideTimeValue, DurationValue,
         WideValue, SignatureValue, FieldSpelled, FieldsSpelled, StreamBytes, Present;
    InvoiceBegins(lib, i);
    Invoice.FieldAt(lib, i);
    hide Invoice.InvoiceFields;
    var fs := Invoice.InvoiceFields(lib, i);
    PresentSpelled(fs);
    InvoiceValuesSpelled(lib, i);
    FieldsUpTo(fs, 8);
    FieldsUpTo(fs, 9);
    FieldsUpTo(fs, 10);
    FieldsUpTo(fs, 11);
    FieldsUpTo(fs, 12);
    FieldsUpTo(fs, 13);
    FieldsUpTo(fs, 14);
  }

  lemma InvoiceValuesSpelled(lib: Lib, i: Invoice.Invoice)
    requires i.Valid(lib.curve)
    ensures FieldSpelled(3, HashValue(i.chainhash)) == HashEntry(3, i.chainhash)
    ensures FieldSpelled(4, HashValue(i.offerID)) == HashEntry(4, i.offerID)
    ensures FieldSpelled(8, NumberValue(i.amount)) == NumberEntry(8, i.amount)
    ensures FieldSpelled(10, TextValue(i.description)) == TextEntry(10, i.description)
    ensures FieldSpelled(12, FeaturesValue(lib, i.features)) == FeaturesEntry(lib, 12, i.features)
    ensures FieldSpelled(30, PointValue(i.nodeID)) == PointEntry(30, i.nodeID)
    ensures FieldSpelled(32, NumberValue(i.quantity)) == NumberEntry(32, i.quantity)
    ensures FieldSpelled(38, PointValue(i.payerKey)) == PointEntry(38, i.payerKey)
    ensures FieldSpelled(39, TextValue(i.payerNote)) == TextEntry(39, i.payerNote)
    ensures FieldSpelled(40, WideTimeValue(i.createdAt)) == WideTimeEntry(40, i.createdAt)
    ensures FieldSpelled(42, HashValue(i.paymentHash)) == HashEntry(42, i.paymentHash)
    ensures FieldSpelled(44, DurationValue(lib, i.relativeExpiry)) == DurationEntry(lib, 44, i.relativeExpiry)
    ensures FieldSpelled(46, WideValue(i.cltvExpiry)) == WideEntry(46, i.cltvExpiry)
    ensures FieldSpelled(50, TextValue(i.payerInfo)) == TextEntry(50, i.payerInfo)
    ensures FieldSpelled(240, SignatureValue(i.signature)) == SignatureEntry(240, i.signature)
  {
    hide HashEntry, NumberEntry, TextEntry, FeaturesEntry, PointEntry, WideTimeEntry, DurationEntry, WideEntry,
         SignatureEntry, HashValue, NumberValue, TextValue, FeaturesValue, PointValue, WideTimeValue, DurationValue,
         WideValue, SignatureValue, FieldSpelled;
    ValuesSpelled(3, i.chainhash, 0, [], ZERO_TIME);
    ValuesSpelled(4, i.offerID, 0, [], ZERO_TIME);
    ValuesSpelled(8, ZERO_HASH, i.amount, [], ZERO_TIME);
    ValuesSpelled(10, ZERO_HASH, 0, i.description, ZERO_TIME);
    KeysSpelled(lib, 12, i.features, 0, None, None);
    KeysSpelled(lib, 30, None, 0, i.nodeID, None);
    ValuesSpelled(32, ZERO_HASH, i.quantity, [], ZERO_TIME);
    KeysSpelled(lib, 38, None, 0, i.payerKey, None);
    ValuesSpelled(39, ZERO_HASH, 0, i.payerNote, ZERO_TIME);
    ValuesSpelled(40, ZERO_HASH, 0, [], i.createdAt);
    ValuesSpelled(42, i.paymentHash, 0, [], ZERO_TIME);
    KeysSpelled(lib, 44, None, i.relativeExpiry, None, None);
    ValuesSpelled(46, ZERO_HASH, i.cltvExpiry, [], ZERO_TIME);
    ValuesSpelled(50, ZERO_HASH, 0, i.payerInfo, ZERO_TIME);
    KeysSpelled(lib, 240, None, 0, None, i.signature);
  }
}
