/** Bolt 12 invoices. */
module Invoice {
  import opened Wrappers
  import opened Bytes
  import opened BigSize
  import opened Keys
  import opened Tlv
  import opened MerkleTree
  import opened Merkle
  import opened Fields
  import opened Values

  const CHAIN_TYPE: uint64 := 3
  const OFFER_ID_TYPE: uint64 := 4
  const AMOUNT_TYPE: uint64 := 8
  const DESCRIPTION_TYPE: uint64 := 10
  const FEATURES_TYPE: uint64 := 12
  const NODE_ID_TYPE: uint64 := 30
  const QUANTITY_TYPE: uint64 := 32
  const PAYER_KEY_TYPE: uint64 := 38
  const PAYER_NOTE_TYPE: uint64 := 39
  const CREATED_AT_TYPE: uint64 := 40
  const PAYMENT_HASH_TYPE: uint64 := 42
  const RELATIVE_EXPIRY_TYPE: uint64 := 44
  const CLTV_TYPE: uint64 := 46
  const PAYER_INFO_TYPE: uint64 := 50
  const SIGNATURE_TYPE: uint64 := 240

  const TYPES: seq<uint64> := [
    CHAIN_TYPE, OFFER_ID_TYPE, AMOUNT_TYPE, DESCRIPTION_TYPE, FEATURES_TYPE,
    NODE_ID_TYPE, QUANTITY_TYPE, PAYER_KEY_TYPE, PAYER_NOTE_TYPE, CREATED_AT_TYPE,
    PAYMENT_HASH_TYPE, RELATIVE_EXPIRY_TYPE, CLTV_TYPE, PAYER_INFO_TYPE, SIGNATURE_TYPE
  ]

  const SCHEMA: FlatSchema := map[
    CHAIN_TYPE := Exact(32),
    OFFER_ID_TYPE := Exact(32),
    AMOUNT_TYPE := Trunc64,
    DESCRIPTION_TYPE := Blob,
    FEATURES_TYPE := Blob,
    NODE_ID_TYPE := Point,
    QUANTITY_TYPE := Trunc64,
    PAYER_KEY_TYPE := Point,
    PAYER_NOTE_TYPE := Blob,
    CREATED_AT_TYPE := Exact(8),
    PAYMENT_HASH_TYPE := Exact(32),
    RELATIVE_EXPIRY_TYPE := Exact(8),
    CLTV_TYPE := Exact(8),
    PAYER_INFO_TYPE := Blob,
    SIGNATURE_TYPE := Exact(64)
  ]

  /** `relativeExpiry` is a duration in nanoseconds. */
  datatype Invoice = Invoice(
    chainhash: Hash,
    offerID: Hash,
    amount: uint64,
    description: Text,
    features: Option<set<Feature>>,
    nodeID: Option<PubKey>,
    quantity: uint64,
    payerKey: Option<PubKey>,
    payerNote: Text,
    createdAt: Time,
    paymentHash: Hash,
    relativeExpiry: int64,
    cltvExpiry: uint64,
    payerInfo: Text,
    signature: Option<Signature>,
    merkleRoot: Hash) {

    predicate Valid(curve: Curve) {
      && (nodeID.Some? ==> nodeID.value.Valid(curve))
      && (payerKey.Some? ==> payerKey.value.Valid(curve))
    }
  }

  // ---------- specification ----------

  function InvoiceValues(lib: Lib, i: Invoice): (vs: seq<Option<Text>>)
    requires i.Valid(lib.curve)
    ensures |vs| == 15
  {
    [ HashValue(i.chainhash), HashValue(i.offerID), NumberValue(i.amount), TextValue(i.description),
      FeaturesValue(lib, i.features), PointValue(i.nodeID), NumberValue(i.quantity), PointValue(i.payerKey),
      TextValue(i.payerNote), WideTimeValue(i.createdAt), HashValue(i.paymentHash),
      DurationValue(lib, i.relativeExpiry), WideValue(i.cltvExpiry), TextValue(i.payerInfo),
      SignatureValue(i.signature) ]
  }

  function InvoiceFields(lib: Lib, i: Invoice): seq<Field>
    requires i.Valid(lib.curve)
  {
    Zip(TYPES, InvoiceValues(lib, i))
  }

  function InvoiceRecords(lib: Lib, i: Invoice): seq<Record>
    requires i.Valid(lib.curve)
  {
    Present(InvoiceFields(lib, i))
  }

  function FieldsOf(lib: Lib, rs: seq<Record>): (r: Result<Invoice, MessageError>)
    ensures r.Ok? ==> r.value.Valid(lib.curve)
  {
    var features :- FeaturesOf(lib, Lookup(rs, FEATURES_TYPE));
    Ok(Invoice(HashOf(Lookup(rs, CHAIN_TYPE)), HashOf(Lookup(rs, OFFER_ID_TYPE)), NumberOf(Lookup(rs, AMOUNT_TYPE)),
               TextOf(Lookup(rs, DESCRIPTION_TYPE)), Some(features), PointOf(lib.curve, Lookup(rs, NODE_ID_TYPE)),
               NumberOf(Lookup(rs, QUANTITY_TYPE)), PointOf(lib.curve, Lookup(rs, PAYER_KEY_TYPE)),
               TextOf(Lookup(rs, PAYER_NOTE_TYPE)), TimeOf(Lookup(rs, CREATED_AT_TYPE)),
               HashOf(Lookup(rs, PAYMENT_HASH_TYPE)), DurationOf(Lookup(rs, RELATIVE_EXPIRY_TYPE)),
               NumberOf(Lookup(rs, CLTV_TYPE)), TextOf(Lookup(rs, PAYER_INFO_TYPE)),
               SignatureOf(Lookup(rs, SIGNATURE_TYPE)), ZERO_HASH))
  }

  function InvoiceOf(lib: Lib, rs: seq<Record>, last: seq<byte>): (r: Result<Invoice, MessageError>)
    requires Sized(rs)
    ensures r.Ok? ==> r.value.Valid(lib.curve)
  {
    var i :- FieldsOf(lib, rs);
    match RootOfDecoded(lib.hash, SCHEMA, InvoiceFields(lib, i), rs, last)
    case Err(e) => Err(BadRoot(e))
    case Ok(root) => Ok(i.(merkleRoot := root))
  }

  function ReadInvoice(lib: Lib, bs: seq<byte>, order: seq<uint64>): (r: Result<Invoice, MessageError>)
    requires Visited(lib, SCHEMA, bs, order)
    ensures r.Ok? ==> r.value.Valid(lib.curve)
  {
    match Parse(lib, SCHEMA, bs)
    case Err(e) => Err(BadStream(e))
    case Ok(rs) =>
      InvoiceOf(lib, rs, LastBytes(order, TlvMap(SCHEMA, rs)))
  }

  // ---------- the code ----------

  lemma TypesAscend()
    ensures |TYPES| == 15
    ensures forall i, j :: 0 <= i < j < |TYPES| ==> TYPES[i] < TYPES[j]
  {
  }

  lemma TypesOfSchema()
    ensures forall t: uint64 :: t in SCHEMA <==> t in TYPES
  {
  }

  lemma InvoiceSchema(lib: Lib, i: Invoice)
    requires i.Valid(lib.curve)
    ensures SchemaFields(SCHEMA, InvoiceFields(lib, i))
  {
    TypesAscend();
    TypesOfSchema();
    hide InvoiceValues, TYPES, SCHEMA;
    ZipIsSchema(SCHEMA, TYPES, InvoiceValues(lib, i));
  }

  lemma FieldAt(lib: Lib, i: Invoice)
    requires i.Valid(lib.curve)
    ensures var fs := InvoiceFields(lib, i);
            && |fs| == 15
            && fs[0] == Field(CHAIN_TYPE, HashValue(i.chainhash))
            && fs[1] == Field(OFFER_ID_TYPE, HashValue(i.offerID))
            && fs[2] == Field(AMOUNT_TYPE, NumberValue(i.amount))
            && fs[3] == Field(DESCRIPTION_TYPE, TextValue(i.description))
            && fs[4] == Field(FEATURES_TYPE, FeaturesValue(lib, i.features))
            && fs[5] == Field(NODE_ID_TYPE, PointValue(i.nodeID))
            && fs[6] == Field(QUANTITY_TYPE, NumberValue(i.quantity))
            && fs[7] == Field(PAYER_KEY_TYPE, PointValue(i.payerKey))
            && fs[8] == Field(PAYER_NOTE_TYPE, TextValue(i.payerNote))
            && fs[9] == Field(CREATED_AT_TYPE, WideTimeValue(i.createdAt))
            && fs[10] == Field(PAYMENT_HASH_TYPE, HashValue(i.paymentHash))
            && fs[11] == Field(RELATIVE_EXPIRY_TYPE, DurationValue(lib, i.relativeExpiry))
            && fs[12] == Field(CLTV_TYPE, WideValue(i.cltvExpiry))
            && fs[13] == Field(PAYER_INFO_TYPE, TextValue(i.payerInfo))
            && fs[14] == Field(SIGNATURE_TYPE, SignatureValue(i.signature))
  {
    hide HashValue, NumberValue, TextValue, FeaturesValue, PointValue, WideTimeValue, DurationValue, WideValue,
         SignatureValue;
  }

  method Records(lib: Lib, i: Invoice) returns (records: seq<Record>)
    requires i.Valid(lib.curve)
    ensures records == InvoiceRecords(lib, i)
  {
    FieldAt(lib, i);
    ghost var fs := InvoiceFields(lib, i);
    records := [];
    assert records == PresentTo(fs, 0);
    hide PresentTo, InvoiceFields, HashValue, NumberValue, TextValue, FeaturesValue, PointValue, WideTimeValue,
         DurationValue, WideValue, SignatureValue;
    records := Append(records, CHAIN_TYPE, HashValue(i.chainhash), fs, 0);
    records := Append(records, OFFER_ID_TYPE, HashValue(i.offerID), fs, 1);
    records := Append(records, AMOUNT_TYPE, NumberValue(i.amount), fs, 2);
    records := Append(records, DESCRIPTION_TYPE, TextValue(i.description), fs, 3);
    records := Append(records, FEATURES_TYPE, FeaturesValue(lib, i.features), fs, 4);
    records := Append(records, NODE_ID_TYPE, PointValue(i.nodeID), fs, 5);
    records := Append(records, QUANTITY_TYPE, NumberValue(i.quantity), fs, 6);
    records := Append(records, PAYER_KEY_TYPE, PointValue(i.payerKey), fs, 7);
    records := Append(records, PAYER_NOTE_TYPE, TextValue(i.payerNote), fs, 8);
    records := Append(records, CREATED_AT_TYPE, WideTimeValue(i.createdAt), fs, 9);
    records := Append(records, PAYMENT_HASH_TYPE, HashValue(i.paymentHash), fs, 10);
    records := Append(records, RELATIVE_EXPIRY_TYPE, DurationValue(lib, i.relativeExpiry), fs, 11);
    records := Append(records, CLTV_TYPE, WideValue(i.cltvExpiry), fs, 12);
    records := Append(records, PAYER_INFO_TYPE, TextValue(i.payerInfo), fs, 13);
    records := Append(records, SIGNATURE_TYPE, SignatureValue(i.signature), fs, 14);
  }

  method EncodeInvoice(lib: Lib, i: Invoice) returns (r: Result<seq<byte>, TlvError>)
    requires i.Valid(lib.curve)
    ensures r == Ok(StreamBytes(InvoiceRecords(lib, i)))
  {
    hide StreamBytes, Present, InvoiceFields, Ascending;
    var records := Records(lib, i);
    InvoiceSchema(lib, i);
    PresentAscends(InvoiceFields(lib, i));
    return EncodeStream(records);
  }

  /** The payment's hash and times from the parsed types. */
  method FillPayment(rs: seq<Record>, tlvMap: map<uint64, seq<byte>>)
    returns (paymentHash: Hash, createdAt: Time, relativeExpiry: int64)
    requires Distinct(rs) && tlvMap == TlvMap(SCHEMA, rs)
    ensures paymentHash == HashOf(Lookup(rs, PAYMENT_HASH_TYPE)) && createdAt == TimeOf(Lookup(rs, CREATED_AT_TYPE))
    ensures relativeExpiry == DurationOf(Lookup(rs, RELATIVE_EXPIRY_TYPE))
  {
    hide SCHEMA, TlvMap, Lookup, HashOf, NumberOf, TimeOf, DurationOf, ToBE, ZERO_HASH;
    DefaultsOfNone(_ => true);
    paymentHash, createdAt, relativeExpiry := ZERO_HASH, ZERO_TIME, 0;
    var ok := IsParsed(tlvMap, CREATED_AT_TYPE, SCHEMA, rs);
    if ok {
      createdAt := TimeOf(Lookup(rs, CREATED_AT_TYPE));
    }
    ok := IsParsed(tlvMap, PAYMENT_HASH_TYPE, SCHEMA, rs);
    if ok {
      paymentHash := HashOf(Lookup(rs, PAYMENT_HASH_TYPE));
    }
    ok := IsParsed(tlvMap, RELATIVE_EXPIRY_TYPE, SCHEMA, rs);
    if ok {
      relativeExpiry := DurationOf(Lookup(rs, RELATIVE_EXPIRY_TYPE));
    }
  }

  /** Fills an invoice's fields from the parsed types. */
  method FillFields(lib: Lib, rs: seq<Record>, tlvMap: map<uint64, seq<byte>>)
    returns (r: Result<Invoice, MessageError>)
    requires Distinct(rs) && tlvMap == TlvMap(SCHEMA, rs)
    ensures r == FieldsOf(lib, rs)
  {
    hide SCHEMA, TlvMap, Lookup, HashOf, NumberOf, TextOf, TimeOf, DurationOf, PointOf, SignatureOf, FeaturesOf, ToBE,
         ZERO_HASH;
    DefaultsOfNone(lib.curve);
    var chainhash, offerID := ZERO_HASH, ZERO_HASH;
    var amount: uint64 := 0;
    var description: Text, payerNote: Text := [], [];
    var signature := None;
    var ok := IsParsed(tlvMap, CHAIN_TYPE, SCHEMA, rs);
    if ok {
      chainhash := HashOf(Lookup(rs, CHAIN_TYPE));
    }
    ok := IsParsed(tlvMap, OFFER_ID_TYPE, SCHEMA, rs);
    if ok {
      offerID := HashOf(Lookup(rs, OFFER_ID_TYPE));
    }
    ok := IsParsed(tlvMap, AMOUNT_TYPE, SCHEMA, rs);
    if ok {
      amount := NumberOf(Lookup(rs, AMOUNT_TYPE));
    }
    var features :- FeaturesOf(lib, Lookup(rs, FEATURES_TYPE));
    ok := IsParsed(tlvMap, DESCRIPTION_TYPE, SCHEMA, rs);
    if ok {
      description := TextOf(Lookup(rs, DESCRIPTION_TYPE));
    }
    ok := IsParsed(tlvMap, PAYER_NOTE_TYPE, SCHEMA, rs);
    if ok {
      payerNote := TextOf(Lookup(rs, PAYER_NOTE_TYPE));
    }
    var paymentHash, createdAt, relativeExpiry := FillPayment(rs, tlvMap);
    ok := IsParsed(tlvMap, SIGNATURE_TYPE, SCHEMA, rs);
    if ok {
      signature := SignatureOf(Lookup(rs, SIGNATURE_TYPE));
    }
    // The other fields are decoded in place.
    return Ok(Invoice(chainhash, offerID, amount, description, Some(features),
                      PointOf(lib.curve, Lookup(rs, NODE_ID_TYPE)), NumberOf(Lookup(rs, QUANTITY_TYPE)),
                      PointOf(lib.curve, Lookup(rs, PAYER_KEY_TYPE)), payerNote, createdAt, paymentHash, relativeExpiry,
                      NumberOf(Lookup(rs, CLTV_TYPE)), TextOf(Lookup(rs, PAYER_INFO_TYPE)), signature, ZERO_HASH));
  }

  method DecodeInvoice(lib: Lib, bs: seq<byte>, order: seq<uint64>) returns (r: Result<Invoice, MessageError>)
    requires Visited(lib, SCHEMA, bs, order)
    ensures r == ReadInvoice(lib, bs, order)
  {
    hide Parse, StreamBytes, ValidRecords, Lookup, FieldsOf, RootOfDecoded, InvoiceFields, TlvMap;
    var stream := Parse(lib, SCHEMA, bs);
    if stream.Err? {
      return Err(BadStream(stream.error));
    }
    var rs := stream.value;
    var tlvMap := TlvMap(SCHEMA, rs);
    var i :- FillFields(lib, rs, tlvMap);
    var records := Records(lib, i);
    InvoiceSchema(lib, i);
    var root := DecodeMerkleRoot(lib.hash, SCHEMA, records, tlvMap, order, InvoiceFields(lib, i), rs);
    if root.Err? {
      return Err(BadRoot(root.error));
    }
    i := i.(merkleRoot := root.value);
    return Ok(i);
  }

  // ---------- round trip ----------

  /** Some field beside the signature is set. */
  predicate HasField(i: Invoice) {
    || i.chainhash != ZERO_HASH || i.offerID != ZERO_HASH || i.amount != 0 || i.description != []
        || i.features.GetOr({}) != {}
    || i.nodeID.Some? || i.quantity != 0 || i.payerKey.Some? || i.payerNote != [] || i.createdAt != ZERO_TIME
    || i.paymentHash != ZERO_HASH || i.relativeExpiry != 0 || i.cltvExpiry != 0 || i.payerInfo != []
  }

  /** An invoice as decoding gives it back: features never nil, and its root. */
  function Restored(lib: Lib, i: Invoice): Invoice
    requires i.Valid(lib.curve)
  {
    i.(features := Some(i.features.GetOr({})),
       merkleRoot := RootOf(lib.hash, Own(InvoiceRecords(lib, i))).GetOr(ZERO_HASH))
  }

  /** The same with the two times as the seconds on the wire leave them. */
  function Rounded(lib: Lib, i: Invoice): Invoice {
    i.(createdAt := i.createdAt.(nanos := 0), relativeExpiry := DurationOf(DurationValue(lib, i.relativeExpiry)))
  }

  lemma InvoiceLookups(lib: Lib, i: Invoice)
    requires i.Valid(lib.curve)
    ensures var rs := InvoiceRecords(lib, i);
            && Lookup(rs, CHAIN_TYPE) == HashValue(i.chainhash)
            && Lookup(rs, OFFER_ID_TYPE) == HashValue(i.offerID)
            && Lookup(rs, AMOUNT_TYPE) == NumberValue(i.amount)
            && Lookup(rs, DESCRIPTION_TYPE) == TextValue(i.description)
            && Lookup(rs, FEATURES_TYPE) == FeaturesValue(lib, i.features)
            && Lookup(rs, NODE_ID_TYPE) == PointValue(i.nodeID)
            && Lookup(rs, QUANTITY_TYPE) == NumberValue(i.quantity)
            && Lookup(rs, PAYER_KEY_TYPE) == PointValue(i.payerKey)
            && Lookup(rs, PAYER_NOTE_TYPE) == TextValue(i.payerNote)
            && Lookup(rs, CREATED_AT_TYPE) == WideTimeValue(i.createdAt)
            && Lookup(rs, PAYMENT_HASH_TYPE) == HashValue(i.paymentHash)
            && Lookup(rs, RELATIVE_EXPIRY_TYPE) == DurationValue(lib, i.relativeExpiry)
            && Lookup(rs, CLTV_TYPE) == WideValue(i.cltvExpiry)
            && Lookup(rs, PAYER_INFO_TYPE) == TextValue(i.payerInfo)
            && Lookup(rs, SIGNATURE_TYPE) == SignatureValue(i.signature)
  {
    hide Present, Lookup, HashValue, NumberValue, TextValue, FeaturesValue, PointValue, WideTimeValue, DurationValue,
         WideValue, SignatureValue;
    FieldAt(lib, i);
    InvoiceSchema(lib, i);
    hide InvoiceFields, SchemaFields, InOrder;
    var fs := InvoiceFields(lib, i);
    LookupField(fs, 0);
    LookupField(fs, 1);
    LookupField(fs, 2);
    LookupField(fs, 3);
    LookupField(fs, 4);
    LookupField(fs, 5);
    LookupField(fs, 6);
    LookupField(fs, 7);
    LookupField(fs, 8);
    LookupField(fs, 9);
    LookupField(fs, 10);
    LookupField(fs, 11);
    LookupField(fs, 12);
    LookupField(fs, 13);
    LookupField(fs, 14);
  }

  lemma FieldsComeBack(lib: Lib, i: Invoice)
    requires lib.Sound() && i.Valid(lib.curve)
    ensures FieldsOf(lib, InvoiceRecords(lib, i)) == Ok(Rounded(lib, Restored(lib, i)).(merkleRoot := ZERO_HASH))
  {
    hide InvoiceRecords, HashValue, NumberValue, TextValue, FeaturesValue, PointValue, WideTimeValue, DurationValue,
         WideValue, SignatureValue, HashOf, NumberOf, TextOf, TimeOf, DurationOf, FeaturesOf, PointOf, SignatureOf,
         Lookup, RootOf;
    InvoiceLookups(lib, i);
    HashComesBack(i.chainhash);
    HashComesBack(i.offerID);
    NumberComesBack(i.amount);
    TextComesBack(i.description);
    FeaturesComeBack(lib, i.features);
    PointComesBack(lib.curve, i.nodeID);
    NumberComesBack(i.quantity);
    PointComesBack(lib.curve, i.payerKey);
    TextComesBack(i.payerNote);
    WideTimeComesBack(i.createdAt);
    HashComesBack(i.paymentHash);
    WideComesBack(i.cltvExpiry);
    TextComesBack(i.payerInfo);
    SignatureComesBack(i.signature);
  }

  lemma WideFieldsOk(lib: Lib, i: Invoice)
    ensures FieldOk(lib.curve, SCHEMA, Field(CREATED_AT_TYPE, WideTimeValue(i.createdAt)))
    ensures FieldOk(lib.curve, SCHEMA, Field(RELATIVE_EXPIRY_TYPE, DurationValue(lib, i.relativeExpiry)))
    ensures FieldOk(lib.curve, SCHEMA, Field(CLTV_TYPE, WideValue(i.cltvExpiry)))
    ensures FieldOk(lib.curve, SCHEMA, Field(SIGNATURE_TYPE, SignatureValue(i.signature)))
  {
    hide ToBE;
  }

  lemma InvoiceSendable(lib: Lib, i: Invoice)
    requires i.Valid(lib.curve)
    ensures Sendable(lib.curve, SCHEMA, InvoiceFields(lib, i))
  {
    hide HashValue, NumberValue, TextValue, FeaturesValue, PointValue, WideTimeValue, DurationValue, WideValue,
         SignatureValue, FieldOk;
    FieldAt(lib, i);
    HashFieldOk(lib.curve, SCHEMA, CHAIN_TYPE, i.chainhash);
    HashFieldOk(lib.curve, SCHEMA, OFFER_ID_TYPE, i.offerID);
    NumberFieldOk(lib.curve, SCHEMA, AMOUNT_TYPE, i.amount);
    BlobFieldOk(lib.curve, SCHEMA, DESCRIPTION_TYPE, TextValue(i.description));
    BlobFieldOk(lib.curve, SCHEMA, FEATURES_TYPE, FeaturesValue(lib, i.features));
    PointFieldOk(lib.curve, SCHEMA, NODE_ID_TYPE, i.nodeID);
    NumberFieldOk(lib.curve, SCHEMA, QUANTITY_TYPE, i.quantity);
    PointFieldOk(lib.curve, SCHEMA, PAYER_KEY_TYPE, i.payerKey);
    BlobFieldOk(lib.curve, SCHEMA, PAYER_NOTE_TYPE, TextValue(i.payerNote));
    HashFieldOk(lib.curve, SCHEMA, PAYMENT_HASH_TYPE, i.paymentHash);
    BlobFieldOk(lib.curve, SCHEMA, PAYER_INFO_TYPE, TextValue(i.payerInfo));
    WideFieldsOk(lib, i);
    hide InvoiceFields, SCHEMA;
  }

  lemma InvoiceFieldSet(lib: Lib, i: Invoice)
    requires i.Valid(lib.curve)
    ensures HasField(i) <==> exists k :: 0 <= k < 14 && InvoiceValues(lib, i)[k].Some?
  {
    var vs := InvoiceValues(lib, i);
    ValuesSet(lib, i);
    hide InvoiceValues;
    assert HasField(i) <==> (|| vs[0].Some? || vs[1].Some? || vs[2].Some? || vs[3].Some? || vs[4].Some?
                             || vs[5].Some? || vs[6].Some? || vs[7].Some? || vs[8].Some? || vs[9].Some?
                             || vs[10].Some? || vs[11].Some? || vs[12].Some? || vs[13].Some?);
  }

  lemma ValuesSet(lib: Lib, i: Invoice)
    requires i.Valid(lib.curve)
    ensures var vs := InvoiceValues(lib, i);
            && (vs[0].Some? <==> i.chainhash != ZERO_HASH) && (vs[1].Some? <==> i.offerID != ZERO_HASH)
            && (vs[2].Some? <==> i.amount != 0) && (vs[3].Some? <==> i.description != [])
            && (vs[4].Some? <==> i.features.GetOr({}) != {}) && (vs[5].Some? <==> i.nodeID.Some?)
            && (vs[6].Some? <==> i.quantity != 0) && (vs[7].Some? <==> i.payerKey.Some?)
            && (vs[8].Some? <==> i.payerNote != []) && (vs[9].Some? <==> i.createdAt != ZERO_TIME)
            && (vs[10].Some? <==> i.paymentHash != ZERO_HASH) && (vs[11].Some? <==> i.relativeExpiry != 0)
            && (vs[12].Some? <==> i.cltvExpiry != 0) && (vs[13].Some? <==> i.payerInfo != [])
  {
    hide HashValue, NumberValue, TextValue, FeaturesValue, PointValue, WideTimeValue, DurationValue, WideValue,
         SignatureValue;
    var vs := InvoiceValues(lib, i);
    assert vs[0] == HashValue(i.chainhash) && vs[1] == HashValue(i.offerID) && vs[10] == HashValue(i.paymentHash);
    assert vs[2] == NumberValue(i.amount) && vs[6] == NumberValue(i.quantity);
    assert vs[3] == TextValue(i.description) && vs[8] == TextValue(i.payerNote) && vs[13] == TextValue(i.payerInfo);
    assert vs[4] == FeaturesValue(lib, i.features) && vs[5] == PointValue(i.nodeID) && vs[7] == PointValue(i.payerKey);
    assert vs[9] == WideTimeValue(i.createdAt) && vs[11] == DurationValue(lib, i.relativeExpiry);
    assert vs[12] == WideValue(i.cltvExpiry);
    hide InvoiceValues;
    ValueSet(i.chainhash, i.amount, i.description, i.createdAt);
    ValueSet(i.offerID, i.quantity, i.payerNote, i.createdAt);
    ValueSet(i.paymentHash, i.cltvExpiry, i.payerInfo, i.createdAt);
    LibValueSet(lib, i.features, i.nodeID, i.relativeExpiry);
    LibValueSet(lib, i.features, i.payerKey, i.relativeExpiry);
  }

  lemma InvoiceHasRoot(lib: Lib, i: Invoice)
    requires i.Valid(lib.curve)
    ensures RootOf(lib.hash, Own(InvoiceRecords(lib, i))).Ok? <==> HasField(i)
  {
    hide RootOf, Present, InvoiceValues, HasField;
    var fs := InvoiceFields(lib, i);
    TypesAscend();
    InvoiceFieldSet(lib, i);
    FieldsHaveRoot(lib.hash, fs);
    assert forall k :: 0 <= k < 14 ==> TYPES[k] <= TYPES[13] == PAYER_INFO_TYPE;
    assert TYPES[14] == SIGNATURE_TYPE;
    hide TYPES;
    if RootOf(lib.hash, Own(InvoiceRecords(lib, i))).Ok? {
      var f :| f in fs && f.value.Some? && !InSignatureRange(f.typ);
      var k :| 0 <= k < 15 && fs[k] == f;
    }
    if k :| 0 <= k < 14 && InvoiceValues(lib, i)[k].Some? {
      assert fs[k] in fs;
    }
  }

  lemma RestoredRecords(lib: Lib, i: Invoice, root: Hash)
    requires i.Valid(lib.curve)
    ensures InvoiceFields(lib, Restored(lib, i).(merkleRoot := root)) == InvoiceFields(lib, i)
  {
    hide HashValue, NumberValue, TextValue, PointValue, WideTimeValue, DurationValue, WideValue, SignatureValue,
         RootOf, Zip;
  }

  lemma InvoiceOfRecords(lib: Lib, i: Invoice, last: seq<byte>)
    requires lib.Sound() && i.Valid(lib.curve) && Rounded(lib, i) == i
    ensures HasField(i) ==> InvoiceOf(lib, InvoiceRecords(lib, i), last) == Ok(Restored(lib, i))
    ensures !HasField(i) ==> InvoiceOf(lib, InvoiceRecords(lib, i), last) == Err(BadRoot(NoTlvs))
  {
    hide FieldsOf, RootOf, HasField, InvoiceFields, Present, Own, Committed, DurationOf, DurationValue;
    FieldsComeBack(lib, i);
    RestoredRecords(lib, i, ZERO_HASH);
    InvoiceSchema(lib, i);
    CommittedFields(SCHEMA, InvoiceFields(lib, i), last);
    InvoiceHasRoot(lib, i);
    RootFails(lib.hash, Own(InvoiceRecords(lib, i)));
  }

  /** Decoding leaves the times as the seconds on the wire do. */
  lemma RoundedInvoice(lib: Lib, i: Invoice, last: seq<byte>)
    requires lib.Sound() && i.Valid(lib.curve) && InvoiceOf(lib, InvoiceRecords(lib, i), last).Ok?
    ensures InvoiceOf(lib, InvoiceRecords(lib, i), last).value.createdAt == Rounded(lib, i).createdAt
    ensures InvoiceOf(lib, InvoiceRecords(lib, i), last).value.relativeExpiry == Rounded(lib, i).relativeExpiry
  {
    hide FieldsOf, RootOfDecoded, RootOf, InvoiceFields, Present, DurationOf, DurationValue;
    FieldsComeBack(lib, i);
  }

  /**
   * An invoice whose relative expiry is not negative comes back from its encoding if and only if
   * both its times are in whole seconds and some field beside the signature is set.
   */
  lemma InvoiceRoundTrip(lib: Lib, i: Invoice, order: seq<uint64>)
    requires lib.Sound() && lib.SoundSeconds() && i.Valid(lib.curve) && i.relativeExpiry >= 0
    requires Visited(lib, SCHEMA, StreamBytes(InvoiceRecords(lib, i)), order)
    ensures ReadInvoice(lib, StreamBytes(InvoiceRecords(lib, i)), order) == Ok(Restored(lib, i))
            <==> i.createdAt.nanos == 0 && i.relativeExpiry % NANOS_PER_SECOND == 0 && HasField(i)
  {
    hide InvoiceOf, FieldsOf, HasField, InvoiceFields, Present, Parse, StreamBytes, Sendable, RootOf, DurationOf,
         DurationValue, Visits, TlvMap, LastBytes;
    InvoiceSchema(lib, i);
    InvoiceSendable(lib, i);
    FieldsRoundTrip(lib, SCHEMA, InvoiceFields(lib, i));
    DurationComesBack(lib, i.relativeExpiry);
    var last := LastBytes(order, TlvMap(SCHEMA, InvoiceRecords(lib, i)));
    if Rounded(lib, i) == i {
      InvoiceOfRecords(lib, i, last);
    } else if InvoiceOf(lib, InvoiceRecords(lib, i), last).Ok? {
      RoundedInvoice(lib, i, last);
    }
  }

  // ---------- the root agrees with the wire ----------

  /**
   * A known record is written as it was read: it is not its field's default, features are encoded as they
   * would be, and an expiry is one that survives its conversion to nanoseconds.
   */
  predicate Kept(lib: Lib, r: Record) {
    if r.typ == CHAIN_TYPE || r.typ == OFFER_ID_TYPE || r.typ == PAYMENT_HASH_TYPE then r.value != ZERO_HASH
    else if r.typ == DESCRIPTION_TYPE || r.typ == PAYER_NOTE_TYPE || r.typ == PAYER_INFO_TYPE then r.value != []
    else if r.typ == FEATURES_TYPE then FeaturesCanonical(lib, r.value)
    else if r.typ == CREATED_AT_TYPE then NumberOf(Some(r.value)) != Unsigned(ZERO_TIME.seconds)
    else if r.typ == RELATIVE_EXPIRY_TYPE then SecondsKept(lib, r.value)
    else if r.typ == CLTV_TYPE then NumberOf(Some(r.value)) != 0
    else true
  }

  function Keeps(lib: Lib): Record -> bool {
    r => Kept(lib, r)
  }

  predicate Canonical(lib: Lib, rs: seq<Record>) {
    KnownKept(SCHEMA, rs, Keeps(lib))
  }

  lemma HashFieldKept(lib: Lib, rs: seq<Record>, t: uint64)
    requires ValidRecords(lib.curve, SCHEMA, rs) && Sized(rs)
    requires t == CHAIN_TYPE || t == OFFER_ID_TYPE || t == PAYMENT_HASH_TYPE
    ensures FieldKept(Field(t, HashValue(HashOf(Lookup(rs, t)))), rs, Keeps(lib))
  {
    hide Lookup, HashValue, HashOf, ValidRecords, FeaturesCanonical, SecondsKept, NumberOf;
    ValidLookup(lib.curve, SCHEMA, rs, t);
    HashKept(Lookup(rs, t));
  }

  lemma NumberFieldKept(lib: Lib, rs: seq<Record>, t: uint64)
    requires ValidRecords(lib.curve, SCHEMA, rs) && Sized(rs)
    requires t == AMOUNT_TYPE || t == QUANTITY_TYPE
    ensures FieldKept(Field(t, NumberValue(NumberOf(Lookup(rs, t)))), rs, Keeps(lib))
  {
    hide Lookup, NumberValue, NumberOf, ValidRecords, FeaturesCanonical, SecondsKept;
    ValidLookup(lib.curve, SCHEMA, rs, t);
    NumberKept(Lookup(rs, t));
  }

  lemma TextFieldKept(lib: Lib, rs: seq<Record>, t: uint64)
    requires ValidRecords(lib.curve, SCHEMA, rs) && Sized(rs)
    requires t == DESCRIPTION_TYPE || t == PAYER_NOTE_TYPE || t == PAYER_INFO_TYPE
    ensures FieldKept(Field(t, TextValue(TextOf(Lookup(rs, t)))), rs, Keeps(lib))
  {
    hide Lookup, TextValue, TextOf, ValidRecords, FeaturesCanonical, SecondsKept, NumberOf;
    ValidLookup(lib.curve, SCHEMA, rs, t);
    TextKept(Lookup(rs, t));
  }

  lemma FeaturesFieldKept(lib: Lib, rs: seq<Record>)
    requires ValidRecords(lib.curve, SCHEMA, rs) && Sized(rs) && FeaturesOf(lib, Lookup(rs, FEATURES_TYPE)).Ok?
    ensures var features := FeaturesOf(lib, Lookup(rs, FEATURES_TYPE)).value;
            FieldKept(Field(FEATURES_TYPE, FeaturesValue(lib, Some(features))), rs, Keeps(lib))
  {
    hide Lookup, FeaturesValue, FeaturesOf, ValidRecords, FeaturesCanonical, SecondsKept, NumberOf;
    FeaturesKept(lib, Lookup(rs, FEATURES_TYPE));
  }

  lemma PointFieldKept(lib: Lib, rs: seq<Record>, t: uint64)
    requires ValidRecords(lib.curve, SCHEMA, rs) && Sized(rs)
    requires t == NODE_ID_TYPE || t == PAYER_KEY_TYPE
    ensures FieldKept(Field(t, PointValue(PointOf(lib.curve, Lookup(rs, t)))), rs, Keeps(lib))
  {
    hide Lookup, PointValue, PointOf, ValidRecords, FeaturesCanonical, SecondsKept, NumberOf;
    ValidLookup(lib.curve, SCHEMA, rs, t);
    PointKept(lib.curve, Lookup(rs, t));
  }

  lemma CreatedAtKept(lib: Lib, rs: seq<Record>)
    requires ValidRecords(lib.curve, SCHEMA, rs) && Sized(rs)
    ensures FieldKept(Field(CREATED_AT_TYPE, WideTimeValue(TimeOf(Lookup(rs, CREATED_AT_TYPE)))), rs, Keeps(lib))
  {
    hide Lookup, WideTimeValue, TimeOf, ValidRecords, FeaturesCanonical, SecondsKept, NumberOf;
    ValidLookup(lib.curve, SCHEMA, rs, CREATED_AT_TYPE);
    WideTimeKept(Lookup(rs, CREATED_AT_TYPE));
  }

  lemma ExpiryKept(lib: Lib, rs: seq<Record>)
    requires lib.SoundSeconds() && ValidRecords(lib.curve, SCHEMA, rs) && Sized(rs)
    ensures FieldKept(Field(RELATIVE_EXPIRY_TYPE, DurationValue(lib, DurationOf(Lookup(rs, RELATIVE_EXPIRY_TYPE)))),
                      rs, Keeps(lib))
  {
    hide Lookup, DurationValue, DurationOf, ValidRecords, FeaturesCanonical, SecondsKept, NumberOf;
    ValidLookup(lib.curve, SCHEMA, rs, RELATIVE_EXPIRY_TYPE);
    DurationKept(lib, Lookup(rs, RELATIVE_EXPIRY_TYPE));
  }

  lemma CLTVKept(lib: Lib, rs: seq<Record>)
    requires ValidRecords(lib.curve, SCHEMA, rs) && Sized(rs)
    ensures FieldKept(Field(CLTV_TYPE, WideValue(NumberOf(Lookup(rs, CLTV_TYPE)))), rs, Keeps(lib))
  {
    hide Lookup, WideValue, ValidRecords, FeaturesCanonical, SecondsKept, NumberOf;
    ValidLookup(lib.curve, SCHEMA, rs, CLTV_TYPE);
    WideKept(Lookup(rs, CLTV_TYPE));
  }

  /** Field by field, the decoded invoice writes what it read exactly where the record is kept. */
  lemma FieldsAreKept(lib: Lib, rs: seq<Record>)
    requires lib.SoundSeconds() && ValidRecords(lib.curve, SCHEMA, rs) && Sized(rs) && FieldsOf(lib, rs).Ok?
    ensures var fs := InvoiceFields(lib, FieldsOf(lib, rs).value);
            forall k :: 0 <= k < |fs| && !InSignatureRange(fs[k].typ) ==> FieldKept(fs[k], rs, Keeps(lib))
  {
    hide Lookup, HashValue, HashOf, NumberValue, NumberOf, TextValue, TextOf, FeaturesValue, FeaturesOf, PointValue,
         PointOf, WideTimeValue, TimeOf, DurationValue, DurationOf, WideValue, SignatureValue, SignatureOf,
         ValidRecords, FieldKept, Keeps;
    FieldAt(lib, FieldsOf(lib, rs).value);
    hide InvoiceFields;
    HashFieldKept(lib, rs, CHAIN_TYPE);
    HashFieldKept(lib, rs, OFFER_ID_TYPE);
    NumberFieldKept(lib, rs, AMOUNT_TYPE);
    TextFieldKept(lib, rs, DESCRIPTION_TYPE);
    FeaturesFieldKept(lib, rs);
    PointFieldKept(lib, rs, NODE_ID_TYPE);
    NumberFieldKept(lib, rs, QUANTITY_TYPE);
    PointFieldKept(lib, rs, PAYER_KEY_TYPE);
    TextFieldKept(lib, rs, PAYER_NOTE_TYPE);
    CreatedAtKept(lib, rs);
    HashFieldKept(lib, rs, PAYMENT_HASH_TYPE);
    ExpiryKept(lib, rs);
    CLTVKept(lib, rs);
    TextFieldKept(lib, rs, PAYER_INFO_TYPE);
  }

  lemma MatchIsCanonical(lib: Lib, rs: seq<Record>)
    requires lib.SoundSeconds() && ValidRecords(lib.curve, SCHEMA, rs) && Sized(rs) && Ascending(rs)
            && FieldsOf(lib, rs).Ok?
    ensures FieldsMatch(InvoiceFields(lib, FieldsOf(lib, rs).value), rs) <==> Canonical(lib, rs)
  {
    hide FieldsOf, InvoiceFields, ValidRecords, FieldKept, KnownKept, FieldsMatch;
    InvoiceSchema(lib, FieldsOf(lib, rs).value);
    FieldsAreKept(lib, rs);
    KeptIsMatch(SCHEMA, InvoiceFields(lib, FieldsOf(lib, rs).value), rs, Keeps(lib));
  }

  /** Every known record is kept, and every unknown one holds the bytes of the entry visited last. */
  predicate Faithful(lib: Lib, rs: seq<Record>, order: seq<uint64>)
    requires Ascending(rs) && Visits(order, TlvMap(SCHEMA, rs))
  {
    Canonical(lib, rs) && UnknownWrites(SCHEMA, rs, LastBytes(order, TlvMap(SCHEMA, rs)))
  }

  /** Visited in this order, decoding recomputes the root over the stream's own records. */
  predicate TrueRoot(lib: Lib, bs: seq<byte>, order: seq<uint64>)
    requires Visited(lib, SCHEMA, bs, order) && Parse(lib, SCHEMA, bs).Ok?
  {
    var read := ReadInvoice(lib, bs, order);
    read.Ok? && RootOf(lib.hash, Own(Parse(lib, SCHEMA, bs).value)) == Ok(read.value.merkleRoot)
  }

  /** Two of the queries made for the recomputed root and for the stream's own collide. */
  ghost predicate RootsCollide(lib: Lib, bs: seq<byte>, order: seq<uint64>)
    requires Visited(lib, SCHEMA, bs, order) && Parse(lib, SCHEMA, bs).Ok?
    requires FieldsOf(lib, Parse(lib, SCHEMA, bs).value).Ok?
  {
    var rs := Parse(lib, SCHEMA, bs).value;
    Collides(lib.hash, SCHEMA, InvoiceFields(lib, FieldsOf(lib, rs).value), rs, order)
  }

  /**
   * With the parsed types visited in a given order, the root that decoding an invoice recomputes is the
   * root over the stream's own records when the records are faithful to that order; and only then,
   * unless two of the hash queries collide.
   */
  lemma InvoiceRootAgreement(lib: Lib, bs: seq<byte>, order: seq<uint64>)
    requires lib.SoundSeconds() && Visited(lib, SCHEMA, bs, order) && Parse(lib, SCHEMA, bs).Ok?
    requires FieldsOf(lib, Parse(lib, SCHEMA, bs).value).Ok? && RootOf(lib.hash, Own(Parse(lib, SCHEMA, bs).value)).Ok?
    ensures Faithful(lib, Parse(lib, SCHEMA, bs).value, order) ==> TrueRoot(lib, bs, order)
    ensures TrueRoot(lib, bs, order) ==>
              Faithful(lib, Parse(lib, SCHEMA, bs).value, order) || RootsCollide(lib, bs, order)
  {
    hide FieldsOf, Canonical, Present, Parse, RootOf, RootQueries, FieldsMatch, UnknownWrites, ValidRecords, TlvMap,
         Visits, Committed, Own, Collision, LastBytes, InvoiceFields;
    var rs := Parse(lib, SCHEMA, bs).value;
    var i := FieldsOf(lib, rs).value;
    InvoiceSchema(lib, i);
    MatchIsCanonical(lib, rs);
    RootAgreement(lib.hash, SCHEMA, InvoiceFields(lib, i), rs, LastBytes(order, TlvMap(SCHEMA, rs)));
  }

  /** Decoding's root is the wire's own where the root over the decoded fields and unknown records is. */
  lemma TrueRootAgrees(lib: Lib, bs: seq<byte>, order: seq<uint64>)
    requires Visited(lib, SCHEMA, bs, order) && Parse(lib, SCHEMA, bs).Ok?
    requires FieldsOf(lib, Parse(lib, SCHEMA, bs).value).Ok? && RootOf(lib.hash, Own(Parse(lib, SCHEMA, bs).value)).Ok?
    ensures var rs := Parse(lib, SCHEMA, bs).value;
            TrueRoot(lib, bs, order) <==>
              Agrees(lib.hash, SCHEMA, InvoiceFields(lib, FieldsOf(lib, rs).value), rs, order)
  {
    hide FieldsOf, Parse, RootOf, RootOfDecoded, TlvMap, Visits, Own, LastBytes, InvoiceFields;
  }

  /**
   * Decoding recomputes the wire's root in every order of visiting when every known record is kept and
   * either no unknown record counts or all parsed entries hold the same bytes; and only then, unless two
   * of the queries made in some order collide.
   */
  lemma InvoiceRootInEveryOrder(lib: Lib, bs: seq<byte>)
    requires lib.SoundSeconds() && Parse(lib, SCHEMA, bs).Ok?
    requires FieldsOf(lib, Parse(lib, SCHEMA, bs).value).Ok? && RootOf(lib.hash, Own(Parse(lib, SCHEMA, bs).value)).Ok?
    ensures Canonical(lib, Parse(lib, SCHEMA, bs).value) && OrderFree(SCHEMA, Parse(lib, SCHEMA, bs).value) ==>
              forall order :: Visited(lib, SCHEMA, bs, order) ==> TrueRoot(lib, bs, order)
    ensures (forall order :: Visited(lib, SCHEMA, bs, order) ==> TrueRoot(lib, bs, order)) ==>
              || (Canonical(lib, Parse(lib, SCHEMA, bs).value) && OrderFree(SCHEMA, Parse(lib, SCHEMA, bs).value))
              || exists order :: Visited(lib, SCHEMA, bs, order) && RootsCollide(lib, bs, order)
  {
    hide FieldsOf, Canonical, Parse, RootOf, ValidRecords, OrderFree, TlvMap, Visits, TrueRoot, Agrees, Collides, Own,
         FieldsMatch, InvoiceFields;
    var rs := Parse(lib, SCHEMA, bs).value;
    var fs := InvoiceFields(lib, FieldsOf(lib, rs).value);
    InvoiceSchema(lib, FieldsOf(lib, rs).value);
    MatchIsCanonical(lib, rs);
    EveryOrderAgreement(lib.hash, SCHEMA, fs, rs);
    forall order | Visited(lib, SCHEMA, bs, order)
      ensures TrueRoot(lib, bs, order) <==> Agrees(lib.hash, SCHEMA, fs, rs, order)
    {
      TrueRootAgrees(lib, bs, order);
    }
    assert forall order :: Visits(order, TlvMap(SCHEMA, rs)) ==> Visited(lib, SCHEMA, bs, order);
  }
}
