/** Bolt 12 offers. */
module Offer {
  import opened Wrappers
  import opened Bytes
  import opened BigSize
  import opened Keys
  import opened Tlv
  import opened TU64
  import opened MerkleTree
  import opened Merkle
  import opened Fields
  import opened Values
  import opened Signatures

  const CHAIN_TYPE: uint64 := 2
  const AMOUNT_TYPE: uint64 := 8
  const DESCRIPTION_TYPE: uint64 := 10
  const FEATURES_TYPE: uint64 := 12
  const EXPIRY_TYPE: uint64 := 14
  const ISSUER_TYPE: uint64 := 20
  const QUANTITY_MIN_TYPE: uint64 := 22
  const QUANTITY_MAX_TYPE: uint64 := 24
  const NODE_ID_TYPE: uint64 := 30
  const SIGNATURE_TYPE: uint64 := 240

  const TYPES: seq<uint64> := [
    CHAIN_TYPE, AMOUNT_TYPE, DESCRIPTION_TYPE, FEATURES_TYPE, EXPIRY_TYPE,
    ISSUER_TYPE, QUANTITY_MIN_TYPE, QUANTITY_MAX_TYPE, NODE_ID_TYPE, SIGNATURE_TYPE
  ]

  const SCHEMA: FlatSchema := map[
    CHAIN_TYPE := Exact(32),
    AMOUNT_TYPE := Trunc64,
    DESCRIPTION_TYPE := Blob,
    FEATURES_TYPE := Blob,
    EXPIRY_TYPE := Trunc64,
    ISSUER_TYPE := Blob,
    QUANTITY_MIN_TYPE := Trunc64,
    QUANTITY_MAX_TYPE := Trunc64,
    NODE_ID_TYPE := Exact(32),
    SIGNATURE_TYPE := Exact(64)
  ]

  /** The zero hash, zero, the empty text and the zero time stand for fields that are not set. */
  datatype Offer = Offer(
    chainhash: Hash,
    minimumAmount: uint64,
    description: Text,
    features: Option<set<Feature>>,
    expiry: Time,
    issuer: Text,
    quantityMin: uint64,
    quantityMax: uint64,
    nodeID: Option<PubKey>,
    signature: Option<Signature>,
    merkleRoot: Hash) {

    predicate Valid(curve: Curve) {
      nodeID.Some? ==> nodeID.value.Valid(curve)
    }
  }

  const EMPTY: Offer := Offer(ZERO_HASH, 0, [], None, ZERO_TIME, [], 0, 0, None, None, ZERO_HASH)

  // ---------- specification ----------

  function OfferValues(lib: Lib, o: Offer): (vs: seq<Option<Text>>)
    requires o.Valid(lib.curve)
    ensures |vs| == 10
  {
    [ HashValue(o.chainhash), NumberValue(o.minimumAmount), TextValue(o.description), FeaturesValue(lib, o.features),
      TimeValue(o.expiry), TextValue(o.issuer), NumberValue(o.quantityMin), NumberValue(o.quantityMax),
      XOnlyValue(o.nodeID), SignatureValue(o.signature) ]
  }

  function OfferFields(lib: Lib, o: Offer): seq<Field>
    requires o.Valid(lib.curve)
  {
    Zip(TYPES, OfferValues(lib, o))
  }

  function OfferRecords(lib: Lib, o: Offer): seq<Record>
    requires o.Valid(lib.curve)
  {
    Present(OfferFields(lib, o))
  }

  /** The offer that a stream's records describe, its root aside. */
  function FieldsOf(lib: Lib, rs: seq<Record>): (r: Result<Offer, MessageError>)
    ensures r.Ok? ==> r.value.Valid(lib.curve)
  {
    var features :- FeaturesOf(lib, Lookup(rs, FEATURES_TYPE));
    var nodeID :- XOnlyOf(lib.curve, Lookup(rs, NODE_ID_TYPE));
    Ok(Offer(HashOf(Lookup(rs, CHAIN_TYPE)), NumberOf(Lookup(rs, AMOUNT_TYPE)), TextOf(Lookup(rs, DESCRIPTION_TYPE)),
             Some(features), TimeOf(Lookup(rs, EXPIRY_TYPE)), TextOf(Lookup(rs, ISSUER_TYPE)),
             NumberOf(Lookup(rs, QUANTITY_MIN_TYPE)), NumberOf(Lookup(rs, QUANTITY_MAX_TYPE)),
             nodeID, SignatureOf(Lookup(rs, SIGNATURE_TYPE)), ZERO_HASH))
  }

  function OfferOf(lib: Lib, rs: seq<Record>, last: seq<byte>): (r: Result<Offer, MessageError>)
    requires Sized(rs)
    ensures r.Ok? ==> r.value.Valid(lib.curve)
  {
    var o :- FieldsOf(lib, rs);
    match RootOfDecoded(lib.hash, SCHEMA, OfferFields(lib, o), rs, last)
    case Err(e) => Err(BadRoot(e))
    case Ok(root) => Ok(o.(merkleRoot := root))
  }

  function ReadOffer(lib: Lib, bs: seq<byte>, order: seq<uint64>): (r: Result<Offer, MessageError>)
    requires Visited(lib, SCHEMA, bs, order)
    ensures r.Ok? ==> r.value.Valid(lib.curve)
  {
    match Parse(lib, SCHEMA, bs)
    case Err(e) => Err(BadStream(e))
    case Ok(rs) =>
      OfferOf(lib, rs, LastBytes(order, TlvMap(SCHEMA, rs)))
  }

  // ---------- the code ----------

  lemma OfferSchema(lib: Lib, o: Offer)
    requires o.Valid(lib.curve)
    ensures SchemaFields(SCHEMA, OfferFields(lib, o))
  {
    ZipIsSchema(SCHEMA, TYPES, OfferValues(lib, o));
  }

  lemma FieldAt(lib: Lib, o: Offer)
    requires o.Valid(lib.curve)
    ensures var fs := OfferFields(lib, o);
            && |fs| == 10
            && fs[0] == Field(CHAIN_TYPE, HashValue(o.chainhash))
            && fs[1] == Field(AMOUNT_TYPE, NumberValue(o.minimumAmount))
            && fs[2] == Field(DESCRIPTION_TYPE, TextValue(o.description))
            && fs[3] == Field(FEATURES_TYPE, FeaturesValue(lib, o.features))
            && fs[4] == Field(EXPIRY_TYPE, TimeValue(o.expiry))
            && fs[5] == Field(ISSUER_TYPE, TextValue(o.issuer))
            && fs[6] == Field(QUANTITY_MIN_TYPE, NumberValue(o.quantityMin))
            && fs[7] == Field(QUANTITY_MAX_TYPE, NumberValue(o.quantityMax))
            && fs[8] == Field(NODE_ID_TYPE, XOnlyValue(o.nodeID))
            && fs[9] == Field(SIGNATURE_TYPE, SignatureValue(o.signature))
  {
    hide HashValue, NumberValue, TextValue, FeaturesValue, TimeValue, XOnlyValue, SignatureValue;
  }

  method Records(lib: Lib, o: Offer) returns (records: seq<Record>)
    requires o.Valid(lib.curve)
    ensures records == OfferRecords(lib, o)
  {
    FieldAt(lib, o);
    ghost var fs := OfferFields(lib, o);
    records := [];
    assert records == PresentTo(fs, 0);
    hide PresentTo, OfferFields, HashValue, NumberValue, TextValue, FeaturesValue, TimeValue, XOnlyValue,
         SignatureValue;
    records := Append(records, CHAIN_TYPE, HashValue(o.chainhash), fs, 0);
    records := Append(records, AMOUNT_TYPE, NumberValue(o.minimumAmount), fs, 1);
    records := Append(records, DESCRIPTION_TYPE, TextValue(o.description), fs, 2);
    records := Append(records, FEATURES_TYPE, FeaturesValue(lib, o.features), fs, 3);
    records := Append(records, EXPIRY_TYPE, TimeValue(o.expiry), fs, 4);
    records := Append(records, ISSUER_TYPE, TextValue(o.issuer), fs, 5);
    records := Append(records, QUANTITY_MIN_TYPE, NumberValue(o.quantityMin), fs, 6);
    records := Append(records, QUANTITY_MAX_TYPE, NumberValue(o.quantityMax), fs, 7);
    records := Append(records, NODE_ID_TYPE, XOnlyValue(o.nodeID), fs, 8);
    records := Append(records, SIGNATURE_TYPE, SignatureValue(o.signature), fs, 9);
  }

  method EncodeOffer(lib: Lib, o: Offer) returns (r: Result<seq<byte>, TlvError>)
    requires o.Valid(lib.curve)
    ensures r == Ok(StreamBytes(OfferRecords(lib, o)))
  {
    hide StreamBytes, Present, OfferFields, Ascending;
    var records := Records(lib, o);
    OfferSchema(lib, o);
    PresentAscends(OfferFields(lib, o));
    return EncodeStream(records);
  }

  /** Fills an offer's fields from the parsed types. */
  method FillFields(lib: Lib, rs: seq<Record>, tlvMap: map<uint64, seq<byte>>) returns (r: Result<Offer, MessageError>)
    requires Distinct(rs) && tlvMap == TlvMap(SCHEMA, rs)
    ensures r == FieldsOf(lib, rs)
  {
    hide SCHEMA, TlvMap, Lookup, HashOf, NumberOf, TextOf, XOnlyOf, SignatureOf, FeaturesOf;
    DefaultsOfNone(lib.curve);
    var offer := EMPTY.(quantityMin := NumberOf(Lookup(rs, QUANTITY_MIN_TYPE)),
                        quantityMax := NumberOf(Lookup(rs, QUANTITY_MAX_TYPE)));
    var ok := IsParsed(tlvMap, CHAIN_TYPE, SCHEMA, rs);
    if ok {
      offer := offer.(chainhash := HashOf(Lookup(rs, CHAIN_TYPE)));
    }
    ok := IsParsed(tlvMap, AMOUNT_TYPE, SCHEMA, rs);
    if ok {
      offer := offer.(minimumAmount := NumberOf(Lookup(rs, AMOUNT_TYPE)));
    }
    ok := IsParsed(tlvMap, EXPIRY_TYPE, SCHEMA, rs);
    if ok {
      offer := offer.(expiry := Time(Signed64(NumberOf(Lookup(rs, EXPIRY_TYPE))), 0));
    }
    var features :- FeaturesOf(lib, Lookup(rs, FEATURES_TYPE));
    offer := offer.(features := Some(features));
    ok := IsParsed(tlvMap, DESCRIPTION_TYPE, SCHEMA, rs);
    if ok {
      offer := offer.(description := TextOf(Lookup(rs, DESCRIPTION_TYPE)));
    }
    ok := IsParsed(tlvMap, ISSUER_TYPE, SCHEMA, rs);
    if ok {
      offer := offer.(issuer := TextOf(Lookup(rs, ISSUER_TYPE)));
    }
    ok := IsParsed(tlvMap, NODE_ID_TYPE, SCHEMA, rs);
    if ok {
      var key :- XOnlyOf(lib.curve, Lookup(rs, NODE_ID_TYPE));
      offer := offer.(nodeID := key);
    }
    ok := IsParsed(tlvMap, SIGNATURE_TYPE, SCHEMA, rs);
    if ok {
      offer := offer.(signature := SignatureOf(Lookup(rs, SIGNATURE_TYPE)));
    }
    return Ok(offer);
  }

  method DecodeOffer(lib: Lib, bs: seq<byte>, order: seq<uint64>) returns (r: Result<Offer, MessageError>)
    requires Visited(lib, SCHEMA, bs, order)
    ensures r == ReadOffer(lib, bs, order)
  {
    hide Parse, StreamBytes, ValidRecords, Lookup, FieldsOf, RootOfDecoded, OfferFields, TlvMap;
    var stream := Parse(lib, SCHEMA, bs);
    if stream.Err? {
      return Err(BadStream(stream.error));
    }
    var rs := stream.value;
    var tlvMap := TlvMap(SCHEMA, rs);
    var offer :- FillFields(lib, rs, tlvMap);
    var records := Records(lib, offer);
    OfferSchema(lib, offer);
    var root := DecodeMerkleRoot(lib.hash, SCHEMA, records, tlvMap, order, OfferFields(lib, offer), rs);
    if root.Err? {
      return Err(BadRoot(root.error));
    }
    offer := offer.(merkleRoot := root.value);
    return Ok(offer);
  }

  // ---------- round trip ----------

  /** Some field beside the signature is set. */
  predicate HasField(o: Offer) {
    || o.chainhash != ZERO_HASH || o.minimumAmount != 0 || o.description != [] || o.features.GetOr({}) != {}
    || o.expiry != ZERO_TIME || o.issuer != [] || o.quantityMin != 0 || o.quantityMax != 0 || o.nodeID.Some?
  }

  /** An offer as decoding gives it back: features never nil, an even node key, and its root. */
  function Restored(lib: Lib, o: Offer): Offer
    requires o.Valid(lib.curve)
  {
    o.(features := Some(o.features.GetOr({})),
       nodeID := if o.nodeID.Some? then Some(o.nodeID.value.EvenY()) else None,
       merkleRoot := RootOf(lib.hash, Own(OfferRecords(lib, o))).GetOr(ZERO_HASH))
  }

  /** What the records of an offer give each type. */
  lemma OfferLookups(lib: Lib, o: Offer)
    requires o.Valid(lib.curve)
    ensures var rs := OfferRecords(lib, o);
            && Lookup(rs, CHAIN_TYPE) == HashValue(o.chainhash)
            && Lookup(rs, AMOUNT_TYPE) == NumberValue(o.minimumAmount)
            && Lookup(rs, DESCRIPTION_TYPE) == TextValue(o.description)
            && Lookup(rs, FEATURES_TYPE) == FeaturesValue(lib, o.features)
            && Lookup(rs, EXPIRY_TYPE) == TimeValue(o.expiry)
            && Lookup(rs, ISSUER_TYPE) == TextValue(o.issuer)
            && Lookup(rs, QUANTITY_MIN_TYPE) == NumberValue(o.quantityMin)
            && Lookup(rs, QUANTITY_MAX_TYPE) == NumberValue(o.quantityMax)
            && Lookup(rs, NODE_ID_TYPE) == XOnlyValue(o.nodeID)
            && Lookup(rs, SIGNATURE_TYPE) == SignatureValue(o.signature)
  {
    hide Present, Lookup, HashValue, NumberValue, TextValue, FeaturesValue, TimeValue, XOnlyValue, SignatureValue;
    FieldAt(lib, o);
    OfferSchema(lib, o);
    hide OfferFields, SchemaFields, InOrder;
    var fs := OfferFields(lib, o);
    LookupField(fs, 0);
    LookupField(fs, 1);
    LookupField(fs, 2);
    LookupField(fs, 3);
    LookupField(fs, 4);
    LookupField(fs, 5);
    LookupField(fs, 6);
    LookupField(fs, 7);
    LookupField(fs, 8);
    LookupField(fs, 9);
  }

  lemma FieldsComeBack(lib: Lib, o: Offer)
    requires lib.Sound() && o.Valid(lib.curve)
    ensures FieldsOf(lib, OfferRecords(lib, o))
            == Ok(Restored(lib, o).(expiry := o.expiry.(nanos := 0), merkleRoot := ZERO_HASH))
  {
    hide OfferRecords, HashValue, HashOf, NumberValue, NumberOf, TextValue, TextOf, TimeValue, TimeOf, FeaturesValue,
         FeaturesOf, XOnlyValue, XOnlyOf, SignatureValue, SignatureOf, Lookup, RootOf;
    OfferLookups(lib, o);
    HashComesBack(o.chainhash);
    NumberComesBack(o.minimumAmount);
    TextComesBack(o.description);
    FeaturesComeBack(lib, o.features);
    TimeComesBack(o.expiry);
    TextComesBack(o.issuer);
    NumberComesBack(o.quantityMin);
    NumberComesBack(o.quantityMax);
    XOnlyComesBack(lib.curve, o.nodeID);
    SignatureComesBack(o.signature);
  }

  /** The types' decoders take every value that is written, but for an expiry at the epoch. */
  lemma OfferSendable(lib: Lib, o: Offer)
    requires o.Valid(lib.curve)
    ensures Sendable(lib.curve, SCHEMA, OfferFields(lib, o)) <==> o.expiry.seconds != 0
  {
    hide HashValue, NumberValue, TextValue, FeaturesValue, TimeValue, XOnlyValue, SignatureValue, FieldOk;
    FieldAt(lib, o);
    HashFieldOk(lib.curve, SCHEMA, CHAIN_TYPE, o.chainhash);
    NumberFieldOk(lib.curve, SCHEMA, AMOUNT_TYPE, o.minimumAmount);
    BlobFieldOk(lib.curve, SCHEMA, DESCRIPTION_TYPE, TextValue(o.description));
    BlobFieldOk(lib.curve, SCHEMA, FEATURES_TYPE, FeaturesValue(lib, o.features));
    TimeFieldOk(lib.curve, SCHEMA, EXPIRY_TYPE, o.expiry);
    BlobFieldOk(lib.curve, SCHEMA, ISSUER_TYPE, TextValue(o.issuer));
    NumberFieldOk(lib.curve, SCHEMA, QUANTITY_MIN_TYPE, o.quantityMin);
    NumberFieldOk(lib.curve, SCHEMA, QUANTITY_MAX_TYPE, o.quantityMax);
    XOnlyFieldOk(lib.curve, SCHEMA, NODE_ID_TYPE, o.nodeID);
    SignatureFieldOk(lib.curve, SCHEMA, SIGNATURE_TYPE, o.signature);
    hide OfferFields, SCHEMA;
    assert OfferFields(lib, o)[4].typ == EXPIRY_TYPE;
  }

  lemma OfferFieldSet(lib: Lib, o: Offer)
    requires o.Valid(lib.curve)
    ensures HasField(o) <==> exists i :: 0 <= i < 9 && OfferValues(lib, o)[i].Some?
  {
    var vs := OfferValues(lib, o);
    ValueSet(o.chainhash, o.minimumAmount, o.description, o.expiry);
    ValueSet(o.chainhash, o.quantityMin, o.issuer, o.expiry);
    ValueSet(o.chainhash, o.quantityMax, o.issuer, o.expiry);
    hide HashValue, NumberValue, TextValue, TimeValue;
    assert HasField(o) <==> (|| vs[0].Some? || vs[1].Some? || vs[2].Some? || vs[3].Some? || vs[4].Some?
                             || vs[5].Some? || vs[6].Some? || vs[7].Some? || vs[8].Some?);
  }

  /** The root of an offer's own records is there exactly when a field beside the signature is set. */
  lemma OfferHasRoot(lib: Lib, o: Offer)
    requires o.Valid(lib.curve)
    ensures RootOf(lib.hash, Own(OfferRecords(lib, o))).Ok? <==> HasField(o)
  {
    hide RootOf, Present, OfferValues, HasField;
    var fs := OfferFields(lib, o);
    OfferFieldSet(lib, o);
    FieldsHaveRoot(lib.hash, fs);
    if RootOf(lib.hash, Own(OfferRecords(lib, o))).Ok? {
      var f :| f in fs && f.value.Some? && !InSignatureRange(f.typ);
      var i :| 0 <= i < 10 && fs[i] == f;
    }
    if i :| 0 <= i < 9 && OfferValues(lib, o)[i].Some? {
      assert fs[i] in fs;
    }
  }

  /** Restoring an offer does not change what is written, if its expiry is in whole seconds. */
  lemma RestoredRecords(lib: Lib, o: Offer, root: Hash)
    requires o.Valid(lib.curve) && o.expiry.nanos == 0
    ensures OfferFields(lib, Restored(lib, o).(expiry := o.expiry.(nanos := 0), merkleRoot := root))
            == OfferFields(lib, o)
  {
    hide HashValue, NumberValue, TextValue, TimeValue, SignatureValue, RootOf, Zip;
  }

  lemma OfferOfRecords(lib: Lib, o: Offer, last: seq<byte>)
    requires lib.Sound() && o.Valid(lib.curve) && o.expiry.nanos == 0
    ensures HasField(o) ==> OfferOf(lib, OfferRecords(lib, o), last) == Ok(Restored(lib, o))
    ensures !HasField(o) ==> OfferOf(lib, OfferRecords(lib, o), last) == Err(BadRoot(NoTlvs))
  {
    hide FieldsOf, RootOf, HasField, OfferFields, Present, Own, Committed;
    FieldsComeBack(lib, o);
    RestoredRecords(lib, o, ZERO_HASH);
    OfferSchema(lib, o);
    CommittedFields(SCHEMA, OfferFields(lib, o), last);
    OfferHasRoot(lib, o);
    RootFails(lib.hash, Own(OfferRecords(lib, o)));
  }

  /**
   * An offer comes back from its encoding if and only if its expiry is in whole seconds and
   * not at the Unix epoch, and some field beside the signature is set.
   */
  lemma OfferRoundTrip(lib: Lib, o: Offer, order: seq<uint64>)
    requires lib.Sound() && o.Valid(lib.curve)
    requires Visited(lib, SCHEMA, StreamBytes(OfferRecords(lib, o)), order)
    ensures ReadOffer(lib, StreamBytes(OfferRecords(lib, o)), order) == Ok(Restored(lib, o))
            <==> o.expiry.nanos == 0 && o.expiry.seconds != 0 && HasField(o)
  {
    hide OfferOf, FieldsOf, HasField, OfferFields, Present, Parse, StreamBytes, Sendable, RootOf, Visits, TlvMap,
         LastBytes;
    OfferSchema(lib, o);
    OfferSendable(lib, o);
    FieldsRoundTrip(lib, SCHEMA, OfferFields(lib, o));
    if o.expiry.seconds != 0 {
      var last := LastBytes(order, TlvMap(SCHEMA, OfferRecords(lib, o)));
      if o.expiry.nanos == 0 {
        OfferOfRecords(lib, o, last);
      } else {
        WholeExpiry(lib, OfferRecords(lib, o), last);
      }
    }
  }

  /** Decoding gives an expiry in whole seconds. */
  lemma WholeExpiry(lib: Lib, rs: seq<Record>, last: seq<byte>)
    requires Sized(rs)
    ensures OfferOf(lib, rs, last).Ok? ==> OfferOf(lib, rs, last).value.expiry.nanos == 0
  {
    hide RootOfDecoded, OfferFields;
  }

  // ---------- the root agrees with the wire ----------

  /**
   * A known record is written as it was read: it is not its field's default, and features are encoded as
   * they would be.
   */
  predicate Kept(lib: Lib, r: Record) {
    if r.typ == CHAIN_TYPE then r.value != ZERO_HASH
    else if r.typ == DESCRIPTION_TYPE || r.typ == ISSUER_TYPE then r.value != []
    else if r.typ == FEATURES_TYPE then FeaturesCanonical(lib, r.value)
    else if r.typ == EXPIRY_TYPE then NumberOf(Some(r.value)) != Unsigned(ZERO_TIME.seconds)
    else true
  }

  function Keeps(lib: Lib): Record -> bool {
    r => Kept(lib, r)
  }

  predicate Canonical(lib: Lib, rs: seq<Record>) {
    KnownKept(SCHEMA, rs, Keeps(lib))
  }

  lemma NumberFieldKept(lib: Lib, rs: seq<Record>, t: uint64)
    requires ValidRecords(lib.curve, SCHEMA, rs) && Sized(rs)
    requires t == AMOUNT_TYPE || t == QUANTITY_MIN_TYPE || t == QUANTITY_MAX_TYPE
    ensures FieldKept(Field(t, NumberValue(NumberOf(Lookup(rs, t)))), rs, Keeps(lib))
  {
    hide Lookup, NumberValue, NumberOf, ValidRecords, FeaturesCanonical;
    ValidLookup(lib.curve, SCHEMA, rs, t);
    NumberKept(Lookup(rs, t));
  }

  lemma TextFieldKept(lib: Lib, rs: seq<Record>, t: uint64)
    requires ValidRecords(lib.curve, SCHEMA, rs) && Sized(rs) && (t == DESCRIPTION_TYPE || t == ISSUER_TYPE)
    ensures FieldKept(Field(t, TextValue(TextOf(Lookup(rs, t)))), rs, Keeps(lib))
  {
    hide Lookup, TextValue, TextOf, ValidRecords, FeaturesCanonical, NumberOf;
    ValidLookup(lib.curve, SCHEMA, rs, t);
    TextKept(Lookup(rs, t));
  }

  lemma ChainKept(lib: Lib, rs: seq<Record>)
    requires ValidRecords(lib.curve, SCHEMA, rs) && Sized(rs)
    ensures FieldKept(Field(CHAIN_TYPE, HashValue(HashOf(Lookup(rs, CHAIN_TYPE)))), rs, Keeps(lib))
  {
    hide Lookup, HashValue, HashOf, ValidRecords, FeaturesCanonical, NumberOf;
    ValidLookup(lib.curve, SCHEMA, rs, CHAIN_TYPE);
    HashKept(Lookup(rs, CHAIN_TYPE));
  }

  lemma ExpiryKept(lib: Lib, rs: seq<Record>)
    requires ValidRecords(lib.curve, SCHEMA, rs) && Sized(rs)
    ensures FieldKept(Field(EXPIRY_TYPE, TimeValue(TimeOf(Lookup(rs, EXPIRY_TYPE)))), rs, Keeps(lib))
  {
    hide Lookup, TimeValue, TimeOf, ValidRecords, FeaturesCanonical, NumberOf;
    ValidLookup(lib.curve, SCHEMA, rs, EXPIRY_TYPE);
    TimeKept(Lookup(rs, EXPIRY_TYPE));
  }

  lemma FeaturesFieldKept(lib: Lib, rs: seq<Record>)
    requires ValidRecords(lib.curve, SCHEMA, rs) && Sized(rs) && FeaturesOf(lib, Lookup(rs, FEATURES_TYPE)).Ok?
    ensures var features := FeaturesOf(lib, Lookup(rs, FEATURES_TYPE)).value;
            FieldKept(Field(FEATURES_TYPE, FeaturesValue(lib, Some(features))), rs, Keeps(lib))
  {
    hide Lookup, FeaturesValue, FeaturesOf, ValidRecords, FeaturesCanonical, NumberOf;
    FeaturesKept(lib, Lookup(rs, FEATURES_TYPE));
  }

  lemma NodeIDKept(lib: Lib, rs: seq<Record>)
    requires ValidRecords(lib.curve, SCHEMA, rs) && Sized(rs) && XOnlyOf(lib.curve, Lookup(rs, NODE_ID_TYPE)).Ok?
    ensures FieldKept(Field(NODE_ID_TYPE, XOnlyValue(XOnlyOf(lib.curve, Lookup(rs, NODE_ID_TYPE)).value)), rs,
                      Keeps(lib))
  {
    hide Lookup, XOnlyValue, XOnlyOf, ValidRecords, FeaturesCanonical, NumberOf;
    XOnlyKept(lib.curve, Lookup(rs, NODE_ID_TYPE));
  }

  /** Field by field, the decoded offer writes what it read exactly where the record is kept. */
  lemma OfferFieldsKept(lib: Lib, rs: seq<Record>)
    requires ValidRecords(lib.curve, SCHEMA, rs) && Sized(rs) && FieldsOf(lib, rs).Ok?
    ensures var fs := OfferFields(lib, FieldsOf(lib, rs).value);
            forall i :: 0 <= i < |fs| && !InSignatureRange(fs[i].typ) ==> FieldKept(fs[i], rs, Keeps(lib))
  {
    hide Lookup, HashValue, HashOf, NumberValue, NumberOf, TextValue, TextOf, TimeValue, TimeOf, FeaturesValue,
         FeaturesOf, XOnlyValue, XOnlyOf, SignatureValue, SignatureOf, ValidRecords, FieldKept, Keeps;
    FieldAt(lib, FieldsOf(lib, rs).value);
    hide OfferFields;
    ChainKept(lib, rs);
    NumberFieldKept(lib, rs, AMOUNT_TYPE);
    TextFieldKept(lib, rs, DESCRIPTION_TYPE);
    FeaturesFieldKept(lib, rs);
    ExpiryKept(lib, rs);
    TextFieldKept(lib, rs, ISSUER_TYPE);
    NumberFieldKept(lib, rs, QUANTITY_MIN_TYPE);
    NumberFieldKept(lib, rs, QUANTITY_MAX_TYPE);
    NodeIDKept(lib, rs);
  }

  lemma MatchIsCanonical(lib: Lib, rs: seq<Record>)
    requires ValidRecords(lib.curve, SCHEMA, rs) && Sized(rs) && Ascending(rs) && FieldsOf(lib, rs).Ok?
    ensures FieldsMatch(OfferFields(lib, FieldsOf(lib, rs).value), rs) <==> Canonical(lib, rs)
  {
    hide FieldsOf, OfferFields, ValidRecords, FieldKept, KnownKept, FieldsMatch;
    OfferSchema(lib, FieldsOf(lib, rs).value);
    OfferFieldsKept(lib, rs);
    KeptIsMatch(SCHEMA, OfferFields(lib, FieldsOf(lib, rs).value), rs, Keeps(lib));
  }

  /** Every known record is kept, and every unknown one holds the bytes of the entry visited last. */
  predicate Faithful(lib: Lib, rs: seq<Record>, order: seq<uint64>)
    requires Ascending(rs) && Visits(order, TlvMap(SCHEMA, rs))
  {
    Canonical(lib, rs) && UnknownWrites(SCHEMA, rs, LastBytes(order, TlvMap(SCHEMA, rs)))
  }

  /** Visited in this order, decoding recomputes the root over the stream's own records. */
  predicate TrueRoot(lib: Lib, bs: seq<byte>, order: seq<uint64>)
    requires Visited(lib, SCHEMA, bs, order) && Parse(lib, SCHEMA, bs).Ok?
  {
    var read := ReadOffer(lib, bs, order);
    read.Ok? && RootOf(lib.hash, Own(Parse(lib, SCHEMA, bs).value)) == Ok(read.value.merkleRoot)
  }

  /** Two of the queries made for the recomputed root and for the stream's own collide. */
  ghost predicate RootsCollide(lib: Lib, bs: seq<byte>, order: seq<uint64>)
    requires Visited(lib, SCHEMA, bs, order) && Parse(lib, SCHEMA, bs).Ok?
    requires FieldsOf(lib, Parse(lib, SCHEMA, bs).value).Ok?
  {
    var rs := Parse(lib, SCHEMA, bs).value;
    Collides(lib.hash, SCHEMA, OfferFields(lib, FieldsOf(lib, rs).value), rs, order)
  }

  /**
   * With the parsed types visited in a given order, the root that decoding an offer recomputes is the
   * root over the stream's own records when the records are faithful to that order; and only then,
   * unless two of the hash queries collide.
   */
  lemma OfferRootAgreement(lib: Lib, bs: seq<byte>, order: seq<uint64>)
    requires Visited(lib, SCHEMA, bs, order) && Parse(lib, SCHEMA, bs).Ok?
    requires FieldsOf(lib, Parse(lib, SCHEMA, bs).value).Ok? && RootOf(lib.hash, Own(Parse(lib, SCHEMA, bs).value)).Ok?
    ensures Faithful(lib, Parse(lib, SCHEMA, bs).value, order) ==> TrueRoot(lib, bs, order)
    ensures TrueRoot(lib, bs, order) ==>
              Faithful(lib, Parse(lib, SCHEMA, bs).value, order) || RootsCollide(lib, bs, order)
  {
    hide FieldsOf, Canonical, Present, Parse, RootOf, RootQueries, FieldsMatch, UnknownWrites, ValidRecords, TlvMap,
         Visits, Committed, Own, Collision, LastBytes, OfferFields;
    var rs := Parse(lib, SCHEMA, bs).value;
    var o := FieldsOf(lib, rs).value;
    OfferSchema(lib, o);
    MatchIsCanonical(lib, rs);
    RootAgreement(lib.hash, SCHEMA, OfferFields(lib, o), rs, LastBytes(order, TlvMap(SCHEMA, rs)));
  }

  /** Decoding's root is the wire's own where the root over the decoded fields and unknown records is. */
  lemma TrueRootAgrees(lib: Lib, bs: seq<byte>, order: seq<uint64>)
    requires Visited(lib, SCHEMA, bs, order) && Parse(lib, SCHEMA, bs).Ok?
    requires FieldsOf(lib, Parse(lib, SCHEMA, bs).value).Ok? && RootOf(lib.hash, Own(Parse(lib, SCHEMA, bs).value)).Ok?
    ensures var rs := Parse(lib, SCHEMA, bs).value;
            TrueRoot(lib, bs, order) <==>
              Agrees(lib.hash, SCHEMA, OfferFields(lib, FieldsOf(lib, rs).value), rs, order)
  {
    hide FieldsOf, Parse, RootOf, RootOfDecoded, TlvMap, Visits, Own, LastBytes, OfferFields;
  }

  /**
   * Decoding recomputes the wire's root in every order of visiting when every known record is kept and
   * either no unknown record counts or all parsed entries hold the same bytes; and only then, unless two
   * of the queries made in some order collide.
   */
  lemma OfferRootInEveryOrder(lib: Lib, bs: seq<byte>)
    requires Parse(lib, SCHEMA, bs).Ok?
    requires FieldsOf(lib, Parse(lib, SCHEMA, bs).value).Ok? && RootOf(lib.hash, Own(Parse(lib, SCHEMA, bs).value)).Ok?
    ensures Canonical(lib, Parse(lib, SCHEMA, bs).value) && OrderFree(SCHEMA, Parse(lib, SCHEMA, bs).value) ==>
              forall order :: Visited(lib, SCHEMA, bs, order) ==> TrueRoot(lib, bs, order)
    ensures (forall order :: Visited(lib, SCHEMA, bs, order) ==> TrueRoot(lib, bs, order)) ==>
              || (Canonical(lib, Parse(lib, SCHEMA, bs).value) && OrderFree(SCHEMA, Parse(lib, SCHEMA, bs).value))
              || exists order :: Visited(lib, SCHEMA, bs, order) && RootsCollide(lib, bs, order)
  {
    hide FieldsOf, Canonical, Parse, RootOf, ValidRecords, OrderFree, TlvMap, Visits, TrueRoot, Agrees, Collides, Own,
         FieldsMatch, OfferFields;
    var rs := Parse(lib, SCHEMA, bs).value;
    var fs := OfferFields(lib, FieldsOf(lib, rs).value);
    OfferSchema(lib, FieldsOf(lib, rs).value);
    MatchIsCanonical(lib, rs);
    EveryOrderAgreement(lib.hash, SCHEMA, fs, rs);
    forall order | Visited(lib, SCHEMA, bs, order)
      ensures TrueRoot(lib, bs, order) <==> Agrees(lib.hash, SCHEMA, fs, rs, order)
    {
      TrueRootAgrees(lib, bs, order);
    }
    assert forall order :: Visits(order, TlvMap(SCHEMA, rs)) ==> Visited(lib, SCHEMA, bs, order);
  }

  /** A description, and a record that offers do not know. */
  const EXAMPLE: seq<Record> := [Record(DESCRIPTION_TYPE, [0x78]), Record(33, [0xaa])]

  lemma ExampleParses(lib: Lib)
    ensures Sized(EXAMPLE) && Parse(lib, SCHEMA, StreamBytes(EXAMPLE)) == Ok(EXAMPLE)
    ensures Ascending(EXAMPLE) && TlvMap(SCHEMA, EXAMPLE) == map[DESCRIPTION_TYPE := [], 33 := [0xaa]]
  {
    hide ReadStream, StreamBytes, TlvMap;
    StreamRoundTrip(lib.curve, SCHEMA, EXAMPLE, 0);
    ExampleMap();
  }

  lemma ExampleMap()
    requires Distinct(EXAMPLE)
    ensures TlvMap(SCHEMA, EXAMPLE) == map[DESCRIPTION_TYPE := [], 33 := [0xaa]]
  {
    var m := TlvMap(SCHEMA, EXAMPLE);
    MapEntry(SCHEMA, EXAMPLE, DESCRIPTION_TYPE);
    MapEntry(SCHEMA, EXAMPLE, 33);
    assert forall t :: t in m <==> t == DESCRIPTION_TYPE || t == 33;
  }

  lemma ExampleFields(lib: Lib)
    ensures Lookup(EXAMPLE, DESCRIPTION_TYPE) == Some([0x78])
    ensures FieldsOf(lib, EXAMPLE) == Ok(EMPTY.(description := [0x78], features := Some({})))
    ensures Canonical(lib, EXAMPLE)
  {
    hide ToBE, FeaturesCanonical, NumberOf;
    DefaultsOfNone(lib.curve);
    assert EXAMPLE[1..] == [EXAMPLE[1]] && EXAMPLE[1..][1..] == [];
    assert forall t: uint64 :: t != DESCRIPTION_TYPE && t != 33 ==> Lookup(EXAMPLE[1..], t) == None;
    assert forall t: uint64 :: t != DESCRIPTION_TYPE && t != 33 ==> Lookup(EXAMPLE, t) == None;
  }

  lemma ExampleWrites()
    ensures UnknownWrites(SCHEMA, EXAMPLE, [0xaa]) && !UnknownWrites(SCHEMA, EXAMPLE, [])
  {
    assert EXAMPLE[1] in EXAMPLE;
  }

  /**
   * The order does matter: if the unknown record is visited last the recomputed root is the wire's, and
   * if the description is, it is not, unless two of the hash queries collide.
   */
  lemma OrderMatters(lib: Lib)
    ensures Sized(EXAMPLE) && Parse(lib, SCHEMA, StreamBytes(EXAMPLE)) == Ok(EXAMPLE) && FieldsOf(lib, EXAMPLE).Ok?
    ensures var bs, unknownLast, unknownFirst := StreamBytes(EXAMPLE), [DESCRIPTION_TYPE, 33], [33, DESCRIPTION_TYPE];
            && Visited(lib, SCHEMA, bs, unknownLast) && TrueRoot(lib, bs, unknownLast)
            && Visited(lib, SCHEMA, bs, unknownFirst) && ReadOffer(lib, bs, unknownFirst).Ok?
            && (TrueRoot(lib, bs, unknownFirst) ==>
                  RootsCollide(lib, bs, unknownFirst))
  {
    hide Parse, StreamBytes, RootOf, OfferOf, TlvMap, FieldsOf, UnknownWrites, Canonical, RootsCollide, Own, EXAMPLE,
         TrueRoot, SCHEMA;
    ExampleParses(lib);
    ExampleFields(lib);
    ExampleWrites();
    ExampleVisits();
    var bs, unknownLast, unknownFirst := StreamBytes(EXAMPLE), [DESCRIPTION_TYPE, 33], [33, DESCRIPTION_TYPE];
    ExampleHasRoot(lib, []);
    OfferRootAgreement(lib, bs, unknownLast);
    OfferRootAgreement(lib, bs, unknownFirst);
  }

  lemma ExampleVisits()
    requires TlvMap(SCHEMA, EXAMPLE) == map[DESCRIPTION_TYPE := [], 33 := [0xaa]]
    ensures var m, unknownLast, unknownFirst := TlvMap(SCHEMA, EXAMPLE), [DESCRIPTION_TYPE, 33], [33, DESCRIPTION_TYPE];
            && Visits(unknownLast, m) && LastBytes(unknownLast, m) == [0xaa]
            && Visits(unknownFirst, m) && LastBytes(unknownFirst, m) == []
  {
    hide TlvMap;
  }

  lemma ExampleHasRoot(lib: Lib, last: seq<byte>)
    ensures Sized(EXAMPLE) && OfferOf(lib, EXAMPLE, last).Ok? && RootOf(lib.hash, Own(EXAMPLE)).Ok?
  {
    hide RootOf, Present, UnknownWritten, Own;
    ExampleFields(lib);
    var o := FieldsOf(lib, EXAMPLE).value;
    var committed := Committed(SCHEMA, OfferFields(lib, o), EXAMPLE, last);
    var w := Record(DESCRIPTION_TYPE, Content(1, [0x78]));
    FieldAt(lib, o);
    assert OfferFields(lib, o)[2] in OfferFields(lib, o);
    PresentElements(OfferFields(lib, o), Record(DESCRIPTION_TYPE, [0x78]));
    OwnElements(Present(OfferFields(lib, o)), w);
    assert w in committed;
    RootFails(lib.hash, committed);
    OwnElements(EXAMPLE, w);
    RootFails(lib.hash, Own(EXAMPLE));
  }

  // ---------- validation ----------

  datatype Validation = Accepted | NodeIDRequired | DescriptionRequired | QuantityRange | InvalidSignature

  function Validate(hash: Hasher, verify: Verifier, o: Offer): Validation {
    if o.nodeID.None? then NodeIDRequired
    else if o.description == [] then DescriptionRequired
    else if o.quantityMin != 0 && o.quantityMax != 0 && o.quantityMin > o.quantityMax then QuantityRange
    else if o.signature.Some?
        && !verify(o.signature.value, o.nodeID.value.x, RootDigest(hash, OFFER_TAG, o.merkleRoot)) then InvalidSignature
    else Accepted
  }

  /**
   * An offer is valid exactly with a node key, a description, bounds in order if both are given, and a
   * signature, if any, over its root under the tag spelled here. The checks come in this order.
   */
  lemma ValidateExactly(hash: Hasher, verify: Verifier, o: Offer)
    ensures var signed := o.signature.Some? && o.nodeID.Some? ==>
                verify(o.signature.value, o.nodeID.value.x, hash(Ascii("lightningoffersignature"), o.merkleRoot));
            var bounded := o.quantityMin == 0 || o.quantityMax == 0 || o.quantityMin <= o.quantityMax;
            Validate(hash, verify, o) ==
              if o.nodeID.None? then NodeIDRequired
              else if o.description == [] then DescriptionRequired
              else if !bounded then QuantityRange
              else if !signed then InvalidSignature
              else Accepted
  {
    OfferTagSpelled();
  }
}
