/** Bolt 12 requests for an invoice. */
module InvoiceRequest {
  import opened Wrappers
  import opened Bytes
  import opened BigSize
  import opened Keys
  import opened Tlv
  import opened MerkleTree
  import opened Merkle
  import opened Fields
  import opened Values
  import opened Signatures
  import Offer

  const CHAIN_TYPE: uint64 := 3
  const OFFER_ID_TYPE: uint64 := 4
  const AMOUNT_TYPE: uint64 := 8
  const FEATURES_TYPE: uint64 := 12
  const QUANTITY_TYPE: uint64 := 32
  const PAYER_KEY_TYPE: uint64 := 38
  const PAYER_NOTE_TYPE: uint64 := 39
  const PAYER_INFO_TYPE: uint64 := 50
  const SIGNATURE_TYPE: uint64 := 240

  const TYPES: seq<uint64> := [
    CHAIN_TYPE, OFFER_ID_TYPE, AMOUNT_TYPE, FEATURES_TYPE, QUANTITY_TYPE,
    PAYER_KEY_TYPE, PAYER_NOTE_TYPE, PAYER_INFO_TYPE, SIGNATURE_TYPE
  ]

  const SCHEMA: FlatSchema := map[
    CHAIN_TYPE := Exact(32),
    OFFER_ID_TYPE := Exact(32),
    AMOUNT_TYPE := Trunc64,
    FEATURES_TYPE := Blob,
    QUANTITY_TYPE := Trunc64,
    PAYER_KEY_TYPE := Exact(32),
    PAYER_NOTE_TYPE := Blob,
    PAYER_INFO_TYPE := Blob,
    SIGNATURE_TYPE := Exact(64)
  ]

  datatype InvoiceRequest = InvoiceRequest(
    chainhash: Hash,
    offerID: Hash,
    amount: uint64,
    features: Option<set<Feature>>,
    quantity: uint64,
    payerKey: Option<PubKey>,
    payerNote: Text,
    payerInfo: Text,
    signature: Option<Signature>,
    merkleRoot: Hash) {

    predicate Valid(curve: Curve) {
      payerKey.Some? ==> payerKey.value.Valid(curve)
    }
  }

  const EMPTY: InvoiceRequest := InvoiceRequest(ZERO_HASH, ZERO_HASH, 0, None, 0, None, [], [], None, ZERO_HASH)

  // ---------- specification ----------

  function RequestValues(lib: Lib, i: InvoiceRequest): (vs: seq<Option<Text>>)
    requires i.Valid(lib.curve)
    ensures |vs| == 9
  {
    [ HashValue(i.chainhash), HashValue(i.offerID), NumberValue(i.amount), FeaturesValue(lib, i.features),
      NumberValue(i.quantity), XOnlyValue(i.payerKey), TextValue(i.payerNote), TextValue(i.payerInfo),
      SignatureValue(i.signature) ]
  }

  function RequestFields(lib: Lib, i: InvoiceRequest): seq<Field>
    requires i.Valid(lib.curve)
  {
    Zip(TYPES, RequestValues(lib, i))
  }

  function RequestRecords(lib: Lib, i: InvoiceRequest): seq<Record>
    requires i.Valid(lib.curve)
  {
    Present(RequestFields(lib, i))
  }

  function FieldsOf(lib: Lib, rs: seq<Record>): (r: Result<InvoiceRequest, MessageError>)
    ensures r.Ok? ==> r.value.Valid(lib.curve)
  {
    var features :- FeaturesOf(lib, Lookup(rs, FEATURES_TYPE));
    var payerKey :- XOnlyOf(lib.curve, Lookup(rs, PAYER_KEY_TYPE));
    Ok(InvoiceRequest(HashOf(Lookup(rs, CHAIN_TYPE)), HashOf(Lookup(rs, OFFER_ID_TYPE)),
                      NumberOf(Lookup(rs, AMOUNT_TYPE)), Some(features), NumberOf(Lookup(rs, QUANTITY_TYPE)), payerKey,
                      TextOf(Lookup(rs, PAYER_NOTE_TYPE)), TextOf(Lookup(rs, PAYER_INFO_TYPE)),
                      SignatureOf(Lookup(rs, SIGNATURE_TYPE)), ZERO_HASH))
  }

  function RequestOf(lib: Lib, rs: seq<Record>, last: seq<byte>): (r: Result<InvoiceRequest, MessageError>)
    requires Sized(rs)
    ensures r.Ok? ==> r.value.Valid(lib.curve)
  {
    var i :- FieldsOf(lib, rs);
    match RootOfDecoded(lib.hash, SCHEMA, RequestFields(lib, i), rs, last)
    case Err(e) => Err(BadRoot(e))
    case Ok(root) => Ok(i.(merkleRoot := root))
  }

  function ReadInvoiceRequest(lib: Lib, bs: seq<byte>, order: seq<uint64>): (r: Result<InvoiceRequest, MessageError>)
    requires Visited(lib, SCHEMA, bs, order)
    ensures r.Ok? ==> r.value.Valid(lib.curve)
  {
    match Parse(lib, SCHEMA, bs)
    case Err(e) => Err(BadStream(e))
    case Ok(rs) =>
      RequestOf(lib, rs, LastBytes(order, TlvMap(SCHEMA, rs)))
  }

  // ---------- the code ----------

  lemma RequestSchema(lib: Lib, i: InvoiceRequest)
    requires i.Valid(lib.curve)
    ensures SchemaFields(SCHEMA, RequestFields(lib, i))
  {
    ZipIsSchema(SCHEMA, TYPES, RequestValues(lib, i));
  }

  lemma FieldAt(lib: Lib, i: InvoiceRequest)
    requires i.Valid(lib.curve)
    ensures var fs := RequestFields(lib, i);
            && |fs| == 9
            && fs[0] == Field(CHAIN_TYPE, HashValue(i.chainhash))
            && fs[1] == Field(OFFER_ID_TYPE, HashValue(i.offerID))
            && fs[2] == Field(AMOUNT_TYPE, NumberValue(i.amount))
            && fs[3] == Field(FEATURES_TYPE, FeaturesValue(lib, i.features))
            && fs[4] == Field(QUANTITY_TYPE, NumberValue(i.quantity))
            && fs[5] == Field(PAYER_KEY_TYPE, XOnlyValue(i.payerKey))
            && fs[6] == Field(PAYER_NOTE_TYPE, TextValue(i.payerNote))
            && fs[7] == Field(PAYER_INFO_TYPE, TextValue(i.payerInfo))
            && fs[8] == Field(SIGNATURE_TYPE, SignatureValue(i.signature))
  {
    hide HashValue, NumberValue, TextValue, FeaturesValue, XOnlyValue, SignatureValue;
  }

  method Records(lib: Lib, i: InvoiceRequest) returns (records: seq<Record>)
    requires i.Valid(lib.curve)
    ensures records == RequestRecords(lib, i)
  {
    FieldAt(lib, i);
    ghost var fs := RequestFields(lib, i);
    records := [];
    assert records == PresentTo(fs, 0);
    hide PresentTo, RequestFields, HashValue, NumberValue, TextValue, FeaturesValue, XOnlyValue, SignatureValue;
    records := Append(records, CHAIN_TYPE, HashValue(i.chainhash), fs, 0);
    records := Append(records, OFFER_ID_TYPE, HashValue(i.offerID), fs, 1);
    records := Append(records, AMOUNT_TYPE, NumberValue(i.amount), fs, 2);
    records := Append(records, FEATURES_TYPE, FeaturesValue(lib, i.features), fs, 3);
    records := Append(records, QUANTITY_TYPE, NumberValue(i.quantity), fs, 4);
    records := Append(records, PAYER_KEY_TYPE, XOnlyValue(i.payerKey), fs, 5);
    records := Append(records, PAYER_NOTE_TYPE, TextValue(i.payerNote), fs, 6);
    records := Append(records, PAYER_INFO_TYPE, TextValue(i.payerInfo), fs, 7);
    records := Append(records, SIGNATURE_TYPE, SignatureValue(i.signature), fs, 8);
  }

  method EncodeInvoiceRequest(lib: Lib, i: InvoiceRequest) returns (r: Result<seq<byte>, TlvError>)
    requires i.Valid(lib.curve)
    ensures r == Ok(StreamBytes(RequestRecords(lib, i)))
  {
    hide StreamBytes, Present, RequestFields, Ascending;
    var records := Records(lib, i);
    RequestSchema(lib, i);
    PresentAscends(RequestFields(lib, i));
    return EncodeStream(records);
  }

  /** Fills a request's fields from the parsed types. */
  method FillFields(lib: Lib, rs: seq<Record>, tlvMap: map<uint64, seq<byte>>)
    returns (r: Result<InvoiceRequest, MessageError>)
    requires Distinct(rs) && tlvMap == TlvMap(SCHEMA, rs)
    ensures r == FieldsOf(lib, rs)
  {
    hide SCHEMA, TlvMap, Lookup, HashOf, NumberOf, TextOf, XOnlyOf, SignatureOf, FeaturesOf;
    DefaultsOfNone(lib.curve);
    var i := EMPTY.(quantity := NumberOf(Lookup(rs, QUANTITY_TYPE)), payerInfo := TextOf(Lookup(rs, PAYER_INFO_TYPE)));
    var ok := IsParsed(tlvMap, CHAIN_TYPE, SCHEMA, rs);
    if ok {
      i := i.(chainhash := HashOf(Lookup(rs, CHAIN_TYPE)));
    }
    ok := IsParsed(tlvMap, OFFER_ID_TYPE, SCHEMA, rs);
    if ok {
      i := i.(offerID := HashOf(Lookup(rs, OFFER_ID_TYPE)));
    }
    ok := IsParsed(tlvMap, AMOUNT_TYPE, SCHEMA, rs);
    if ok {
      i := i.(amount := NumberOf(Lookup(rs, AMOUNT_TYPE)));
    }
    var features :- FeaturesOf(lib, Lookup(rs, FEATURES_TYPE));
    i := i.(features := Some(features));
    ok := IsParsed(tlvMap, PAYER_KEY_TYPE, SCHEMA, rs);
    if ok {
      var key :- XOnlyOf(lib.curve, Lookup(rs, PAYER_KEY_TYPE));
      i := i.(payerKey := key);
    }
    ok := IsParsed(tlvMap, PAYER_NOTE_TYPE, SCHEMA, rs);
    if ok {
      i := i.(payerNote := TextOf(Lookup(rs, PAYER_NOTE_TYPE)));
    }
    ok := IsParsed(tlvMap, SIGNATURE_TYPE, SCHEMA, rs);
    if ok {
      i := i.(signature := SignatureOf(Lookup(rs, SIGNATURE_TYPE)));
    }
    return Ok(i);
  }

  method DecodeInvoiceRequest(lib: Lib, bs: seq<byte>, order: seq<uint64>)
    returns (r: Result<InvoiceRequest, MessageError>)
    requires Visited(lib, SCHEMA, bs, order)
    ensures r == ReadInvoiceRequest(lib, bs, order)
  {
    hide Parse, StreamBytes, ValidRecords, Lookup, FieldsOf, RootOfDecoded, RequestFields, TlvMap;
    var stream := Parse(lib, SCHEMA, bs);
    if stream.Err? {
      return Err(BadStream(stream.error));
    }
    var rs := stream.value;
    var tlvMap := TlvMap(SCHEMA, rs);
    var i :- FillFields(lib, rs, tlvMap);
    var records := Records(lib, i);
    RequestSchema(lib, i);
    var root := DecodeMerkleRoot(lib.hash, SCHEMA, records, tlvMap, order, RequestFields(lib, i), rs);
    if root.Err? {
      return Err(BadRoot(root.error));
    }
    i := i.(merkleRoot := root.value);
    return Ok(i);
  }

  // ---------- round trip ----------

  /** Some field beside the signature is set. */
  predicate HasField(i: InvoiceRequest) {
    || i.chainhash != ZERO_HASH || i.offerID != ZERO_HASH || i.amount != 0 || i.features.GetOr({}) != {}
    || i.quantity != 0 || i.payerKey.Some? || i.payerNote != [] || i.payerInfo != []
  }

  /** A request as decoding gives it back: features never nil, an even payer key, and its root. */
  function Restored(lib: Lib, i: InvoiceRequest): InvoiceRequest
    requires i.Valid(lib.curve)
  {
    i.(features := Some(i.features.GetOr({})),
       payerKey := if i.payerKey.Some? then Some(i.payerKey.value.EvenY()) else None,
       merkleRoot := RootOf(lib.hash, Own(RequestRecords(lib, i))).GetOr(ZERO_HASH))
  }

  lemma RequestLookups(lib: Lib, i: InvoiceRequest)
    requires i.Valid(lib.curve)
    ensures var rs := RequestRecords(lib, i);
            && Lookup(rs, CHAIN_TYPE) == HashValue(i.chainhash)
            && Lookup(rs, OFFER_ID_TYPE) == HashValue(i.offerID)
            && Lookup(rs, AMOUNT_TYPE) == NumberValue(i.amount)
            && Lookup(rs, FEATURES_TYPE) == FeaturesValue(lib, i.features)
            && Lookup(rs, QUANTITY_TYPE) == NumberValue(i.quantity)
            && Lookup(rs, PAYER_KEY_TYPE) == XOnlyValue(i.payerKey)
            && Lookup(rs, PAYER_NOTE_TYPE) == TextValue(i.payerNote)
            && Lookup(rs, PAYER_INFO_TYPE) == TextValue(i.payerInfo)
            && Lookup(rs, SIGNATURE_TYPE) == SignatureValue(i.signature)
  {
    hide Present, Lookup, HashValue, NumberValue, TextValue, FeaturesValue, XOnlyValue, SignatureValue;
    FieldAt(lib, i);
    RequestSchema(lib, i);
    hide RequestFields, SchemaFields, InOrder;
    var fs := RequestFields(lib, i);
    LookupField(fs, 0);
    LookupField(fs, 1);
    LookupField(fs, 2);
    LookupField(fs, 3);
    LookupField(fs, 4);
    LookupField(fs, 5);
    LookupField(fs, 6);
    LookupField(fs, 7);
    LookupField(fs, 8);
  }

  lemma FieldsComeBack(lib: Lib, i: InvoiceRequest)
    requires lib.Sound() && i.Valid(lib.curve)
    ensures FieldsOf(lib, RequestRecords(lib, i)) == Ok(Restored(lib, i).(merkleRoot := ZERO_HASH))
  {
    hide RequestRecords, HashValue, HashOf, NumberValue, NumberOf, TextValue, TextOf, FeaturesValue, FeaturesOf,
         XOnlyValue, XOnlyOf, SignatureValue, SignatureOf, Lookup, RootOf;
    RequestLookups(lib, i);
    HashComesBack(i.chainhash);
    HashComesBack(i.offerID);
    NumberComesBack(i.amount);
    FeaturesComeBack(lib, i.features);
    NumberComesBack(i.quantity);
    XOnlyComesBack(lib.curve, i.payerKey);
    TextComesBack(i.payerNote);
    TextComesBack(i.payerInfo);
    SignatureComesBack(i.signature);
  }

  lemma RequestSendable(lib: Lib, i: InvoiceRequest)
    requires i.Valid(lib.curve)
    ensures Sendable(lib.curve, SCHEMA, RequestFields(lib, i))
  {
    hide HashValue, NumberValue, TextValue, FeaturesValue, XOnlyValue, SignatureValue, FieldOk;
    FieldAt(lib, i);
    HashFieldOk(lib.curve, SCHEMA, CHAIN_TYPE, i.chainhash);
    HashFieldOk(lib.curve, SCHEMA, OFFER_ID_TYPE, i.offerID);
    NumberFieldOk(lib.curve, SCHEMA, AMOUNT_TYPE, i.amount);
    BlobFieldOk(lib.curve, SCHEMA, FEATURES_TYPE, FeaturesValue(lib, i.features));
    NumberFieldOk(lib.curve, SCHEMA, QUANTITY_TYPE, i.quantity);
    XOnlyFieldOk(lib.curve, SCHEMA, PAYER_KEY_TYPE, i.payerKey);
    BlobFieldOk(lib.curve, SCHEMA, PAYER_NOTE_TYPE, TextValue(i.payerNote));
    BlobFieldOk(lib.curve, SCHEMA, PAYER_INFO_TYPE, TextValue(i.payerInfo));
    SignatureFieldOk(lib.curve, SCHEMA, SIGNATURE_TYPE, i.signature);
    hide RequestFields, SCHEMA;
  }

  lemma RequestFieldSet(lib: Lib, i: InvoiceRequest)
    requires i.Valid(lib.curve)
    ensures HasField(i) <==> exists k :: 0 <= k < 8 && RequestValues(lib, i)[k].Some?
  {
    var vs := RequestValues(lib, i);
    ValueSet(i.chainhash, i.amount, i.payerNote, ZERO_TIME);
    ValueSet(i.offerID, i.quantity, i.payerInfo, ZERO_TIME);
    hide HashValue, NumberValue, TextValue;
    assert HasField(i) <==> (|| vs[0].Some? || vs[1].Some? || vs[2].Some? || vs[3].Some? || vs[4].Some?
                             || vs[5].Some? || vs[6].Some? || vs[7].Some?);
  }

  lemma RequestHasRoot(lib: Lib, i: InvoiceRequest)
    requires i.Valid(lib.curve)
    ensures RootOf(lib.hash, Own(RequestRecords(lib, i))).Ok? <==> HasField(i)
  {
    hide RootOf, Present, RequestValues, HasField;
    var fs := RequestFields(lib, i);
    RequestFieldSet(lib, i);
    FieldsHaveRoot(lib.hash, fs);
    if RootOf(lib.hash, Own(RequestRecords(lib, i))).Ok? {
      var f :| f in fs && f.value.Some? && !InSignatureRange(f.typ);
      var k :| 0 <= k < 9 && fs[k] == f;
    }
    if k :| 0 <= k < 8 && RequestValues(lib, i)[k].Some? {
      assert fs[k] in fs;
    }
  }

  lemma RestoredRecords(lib: Lib, i: InvoiceRequest, root: Hash)
    requires i.Valid(lib.curve)
    ensures RequestFields(lib, Restored(lib, i).(merkleRoot := root)) == RequestFields(lib, i)
  {
    hide HashValue, NumberValue, TextValue, SignatureValue, RootOf, Zip;
  }

  lemma RequestOfRecords(lib: Lib, i: InvoiceRequest, last: seq<byte>)
    requires lib.Sound() && i.Valid(lib.curve)
    ensures HasField(i) ==> RequestOf(lib, RequestRecords(lib, i), last) == Ok(Restored(lib, i))
    ensures !HasField(i) ==> RequestOf(lib, RequestRecords(lib, i), last) == Err(BadRoot(NoTlvs))
  {
    hide FieldsOf, RootOf, HasField, RequestFields, Present, Own, Committed;
    FieldsComeBack(lib, i);
    RestoredRecords(lib, i, ZERO_HASH);
    RequestSchema(lib, i);
    CommittedFields(SCHEMA, RequestFields(lib, i), last);
    RequestHasRoot(lib, i);
    RootFails(lib.hash, Own(RequestRecords(lib, i)));
  }

  /** A request comes back from its encoding if and only if some field beside the signature is set. */
  lemma RequestRoundTrip(lib: Lib, i: InvoiceRequest, order: seq<uint64>)
    requires lib.Sound() && i.Valid(lib.curve)
    requires Visited(lib, SCHEMA, StreamBytes(RequestRecords(lib, i)), order)
    ensures ReadInvoiceRequest(lib, StreamBytes(RequestRecords(lib, i)), order) == Ok(Restored(lib, i)) <==> HasField(i)
  {
    hide RequestOf, FieldsOf, HasField, RequestFields, Present, Parse, StreamBytes, Sendable, RootOf, Visits, TlvMap,
         LastBytes;
    RequestSchema(lib, i);
    RequestSendable(lib, i);
    FieldsRoundTrip(lib, SCHEMA, RequestFields(lib, i));
    RequestOfRecords(lib, i, LastBytes(order, TlvMap(SCHEMA, RequestRecords(lib, i))));
  }

  // ---------- the root agrees with the wire ----------

  /**
   * A known record is written as it was read: it is not its field's default, and features are encoded as
   * they would be.
   */
  predicate Kept(lib: Lib, r: Record) {
    if r.typ == CHAIN_TYPE || r.typ == OFFER_ID_TYPE then r.value != ZERO_HASH
    else if r.typ == PAYER_NOTE_TYPE || r.typ == PAYER_INFO_TYPE then r.value != []
    else if r.typ == FEATURES_TYPE then FeaturesCanonical(lib, r.value)
    else true
  }

  function Keeps(lib: Lib): Record -> bool {
    r => Kept(lib, r)
  }

  predicate Canonical(lib: Lib, rs: seq<Record>) {
    KnownKept(SCHEMA, rs, Keeps(lib))
  }

  lemma HashFieldKept(lib: Lib, rs: seq<Record>, t: uint64)
    requires ValidRecords(lib.curve, SCHEMA, rs) && Sized(rs)
    requires t == CHAIN_TYPE || t == OFFER_ID_TYPE
    ensures FieldKept(Field(t, HashValue(HashOf(Lookup(rs, t)))), rs, Keeps(lib))
  {
    hide Lookup, HashValue, HashOf, ValidRecords, FeaturesCanonical;
    ValidLookup(lib.curve, SCHEMA, rs, t);
    HashKept(Lookup(rs, t));
  }

  lemma NumberFieldKept(lib: Lib, rs: seq<Record>, t: uint64)
    requires ValidRecords(lib.curve, SCHEMA, rs) && Sized(rs)
    requires t == AMOUNT_TYPE || t == QUANTITY_TYPE
    ensures FieldKept(Field(t, NumberValue(NumberOf(Lookup(rs, t)))), rs, Keeps(lib))
  {
    hide Lookup, NumberValue, NumberOf, ValidRecords, FeaturesCanonical;
    ValidLookup(lib.curve, SCHEMA, rs, t);
    NumberKept(Lookup(rs, t));
  }

  lemma TextFieldKept(lib: Lib, rs: seq<Record>, t: uint64)
    requires ValidRecords(lib.curve, SCHEMA, rs) && Sized(rs)
    requires t == PAYER_NOTE_TYPE || t == PAYER_INFO_TYPE
    ensures FieldKept(Field(t, TextValue(TextOf(Lookup(rs, t)))), rs, Keeps(lib))
  {
    hide Lookup, TextValue, TextOf, ValidRecords, FeaturesCanonical;
    ValidLookup(lib.curve, SCHEMA, rs, t);
    TextKept(Lookup(rs, t));
  }

  lemma FeaturesFieldKept(lib: Lib, rs: seq<Record>)
    requires ValidRecords(lib.curve, SCHEMA, rs) && Sized(rs) && FeaturesOf(lib, Lookup(rs, FEATURES_TYPE)).Ok?
    ensures var features := FeaturesOf(lib, Lookup(rs, FEATURES_TYPE)).value;
            FieldKept(Field(FEATURES_TYPE, FeaturesValue(lib, Some(features))), rs, Keeps(lib))
  {
    hide Lookup, FeaturesValue, FeaturesOf, ValidRecords, FeaturesCanonical;
    FeaturesKept(lib, Lookup(rs, FEATURES_TYPE));
  }

  lemma PayerKeyKept(lib: Lib, rs: seq<Record>)
    requires ValidRecords(lib.curve, SCHEMA, rs) && Sized(rs) && XOnlyOf(lib.curve, Lookup(rs, PAYER_KEY_TYPE)).Ok?
    ensures FieldKept(Field(PAYER_KEY_TYPE, XOnlyValue(XOnlyOf(lib.curve, Lookup(rs, PAYER_KEY_TYPE)).value)), rs,
                      Keeps(lib))
  {
    hide Lookup, XOnlyValue, XOnlyOf, ValidRecords, FeaturesCanonical;
    XOnlyKept(lib.curve, Lookup(rs, PAYER_KEY_TYPE));
  }

  /** Field by field, the decoded request writes what it read exactly where the record is kept. */
  lemma FieldsAreKept(lib: Lib, rs: seq<Record>)
    requires ValidRecords(lib.curve, SCHEMA, rs) && Sized(rs) && FieldsOf(lib, rs).Ok?
    ensures var fs := RequestFields(lib, FieldsOf(lib, rs).value);
            forall k :: 0 <= k < |fs| && !InSignatureRange(fs[k].typ) ==> FieldKept(fs[k], rs, Keeps(lib))
  {
    hide Lookup, HashValue, HashOf, NumberValue, NumberOf, TextValue, TextOf, FeaturesValue, FeaturesOf, XOnlyValue,
         XOnlyOf, SignatureValue, SignatureOf, ValidRecords, FieldKept, Keeps;
    FieldAt(lib, FieldsOf(lib, rs).value);
    hide RequestFields;
    HashFieldKept(lib, rs, CHAIN_TYPE);
    HashFieldKept(lib, rs, OFFER_ID_TYPE);
    NumberFieldKept(lib, rs, AMOUNT_TYPE);
    FeaturesFieldKept(lib, rs);
    NumberFieldKept(lib, rs, QUANTITY_TYPE);
    PayerKeyKept(lib, rs);
    TextFieldKept(lib, rs, PAYER_NOTE_TYPE);
    TextFieldKept(lib, rs, PAYER_INFO_TYPE);
  }

  lemma MatchIsCanonical(lib: Lib, rs: seq<Record>)
    requires ValidRecords(lib.curve, SCHEMA, rs) && Sized(rs) && Ascending(rs) && FieldsOf(lib, rs).Ok?
    ensures FieldsMatch(RequestFields(lib, FieldsOf(lib, rs).value), rs) <==> Canonical(lib, rs)
  {
    hide FieldsOf, RequestFields, ValidRecords, FieldKept, KnownKept, FieldsMatch;
    RequestSchema(lib, FieldsOf(lib, rs).value);
    FieldsAreKept(lib, rs);
    KeptIsMatch(SCHEMA, RequestFields(lib, FieldsOf(lib, rs).value), rs, Keeps(lib));
  }

  /** Every known record is kept, and every unknown one holds the bytes of the entry visited last. */
  predicate Faithful(lib: Lib, rs: seq<Record>, order: seq<uint64>)
    requires Ascending(rs) && Visits(order, TlvMap(SCHEMA, rs))
  {
    Canonical(lib, rs) && UnknownWrites(SCHEMA, rs, LastBytes(order, TlvMap(SCHEMA, rs)))
  }

  /** Visited in this order, decoding recomputes the root over the stream's own records. */
  predicate TrueRoot(lib: Lib, bs: seq<byte>, order: seq<uint64>)
    requires Visited(lib, SCHEMA, bs, order) && Parse(lib, SCHEMA, bs).Ok?
  {
    var read := ReadInvoiceRequest(lib, bs, order);
    read.Ok? && RootOf(lib.hash, Own(Parse(lib, SCHEMA, bs).value)) == Ok(read.value.merkleRoot)
  }

  /** Two of the queries made for the recomputed root and for the stream's own collide. */
  ghost predicate RootsCollide(lib: Lib, bs: seq<byte>, order: seq<uint64>)
    requires Visited(lib, SCHEMA, bs, order) && Parse(lib, SCHEMA, bs).Ok?
    requires FieldsOf(lib, Parse(lib, SCHEMA, bs).value).Ok?
  {
    var rs := Parse(lib, SCHEMA, bs).value;
    Collides(lib.hash, SCHEMA, RequestFields(lib, FieldsOf(lib, rs).value), rs, order)
  }

  /**
   * With the parsed types visited in a given order, the root that decoding a request recomputes is the
   * root over the stream's own records when the records are faithful to that order; and only then,
   * unless two of the hash queries collide.
   */
  lemma RequestRootAgreement(lib: Lib, bs: seq<byte>, order: seq<uint64>)
    requires Visited(lib, SCHEMA, bs, order) && Parse(lib, SCHEMA, bs).Ok?
    requires FieldsOf(lib, Parse(lib, SCHEMA, bs).value).Ok? && RootOf(lib.hash, Own(Parse(lib, SCHEMA, bs).value)).Ok?
    ensures Faithful(lib, Parse(lib, SCHEMA, bs).value, order) ==> TrueRoot(lib, bs, order)
    ensures TrueRoot(lib, bs, order) ==>
              Faithful(lib, Parse(lib, SCHEMA, bs).value, order) || RootsCollide(lib, bs, order)
  {
    hide FieldsOf, Canonical, Present, Parse, RootOf, RootQueries, FieldsMatch, UnknownWrites, ValidRecords, TlvMap,
         Visits, Committed, Own, Collision, LastBytes, RequestFields;
    var rs := Parse(lib, SCHEMA, bs).value;
    var i := FieldsOf(lib, rs).value;
    RequestSchema(lib, i);
    MatchIsCanonical(lib, rs);
    RootAgreement(lib.hash, SCHEMA, RequestFields(lib, i), rs, LastBytes(order, TlvMap(SCHEMA, rs)));
  }

  /** Decoding's root is the wire's own where the root over the decoded fields and unknown records is. */
  lemma TrueRootAgrees(lib: Lib, bs: seq<byte>, order: seq<uint64>)
    requires Visited(lib, SCHEMA, bs, order) && Parse(lib, SCHEMA, bs).Ok?
    requires FieldsOf(lib, Parse(lib, SCHEMA, bs).value).Ok? && RootOf(lib.hash, Own(Parse(lib, SCHEMA, bs).value)).Ok?
    ensures var rs := Parse(lib, SCHEMA, bs).value;
            TrueRoot(lib, bs, order) <==>
              Agrees(lib.hash, SCHEMA, RequestFields(lib, FieldsOf(lib, rs).value), rs, order)
  {
    hide FieldsOf, Parse, RootOf, RootOfDecoded, TlvMap, Visits, Own, LastBytes, RequestFields;
  }

  /**
   * Decoding recomputes the wire's root in every order of visiting when every known record is kept and
   * either no unknown record counts or all parsed entries hold the same bytes; and only then, unless two
   * of the queries made in some order collide.
   */
  lemma RequestRootInEveryOrder(lib: Lib, bs: seq<byte>)
    requires Parse(lib, SCHEMA, bs).Ok?
    requires FieldsOf(lib, Parse(lib, SCHEMA, bs).value).Ok? && RootOf(lib.hash, Own(Parse(lib, SCHEMA, bs).value)).Ok?
    ensures Canonical(lib, Parse(lib, SCHEMA, bs).value) && OrderFree(SCHEMA, Parse(lib, SCHEMA, bs).value) ==>
              forall order :: Visited(lib, SCHEMA, bs, order) ==> TrueRoot(lib, bs, order)
    ensures (forall order :: Visited(lib, SCHEMA, bs, order) ==> TrueRoot(lib, bs, order)) ==>
              || (Canonical(lib, Parse(lib, SCHEMA, bs).value) && OrderFree(SCHEMA, Parse(lib, SCHEMA, bs).value))
              || exists order :: Visited(lib, SCHEMA, bs, order) && RootsCollide(lib, bs, order)
  {
    hide FieldsOf, Canonical, Parse, RootOf, ValidRecords, OrderFree, TlvMap, Visits, TrueRoot, Agrees, Collides, Own,
         FieldsMatch, RequestFields;
    var rs := Parse(lib, SCHEMA, bs).value;
    var fs := RequestFields(lib, FieldsOf(lib, rs).value);
    RequestSchema(lib, FieldsOf(lib, rs).value);
    MatchIsCanonical(lib, rs);
    EveryOrderAgreement(lib.hash, SCHEMA, fs, rs);
    forall order | Visited(lib, SCHEMA, bs, order)
      ensures TrueRoot(lib, bs, order) <==> Agrees(lib.hash, SCHEMA, fs, rs, order)
    {
      TrueRootAgrees(lib, bs, order);
    }
    assert forall order :: Visits(order, TlvMap(SCHEMA, rs)) ==> Visited(lib, SCHEMA, bs, order);
  }

  // ---------- making a request ----------

  datatype RequestError =
    | BelowMinAmount
    | QuantityRequired
    | OutsideQuantityRange
    | NoQuantity
    | RootError(error: MerkleError)

  /** Why an offer's terms refuse a request, in the order they are checked. */
  function Refusal(offer: Offer.Offer, amount: uint64, quantity: uint64): Option<RequestError> {
    var specified := offer.quantityMin != 0 && offer.quantityMax != 0;
    if amount < offer.minimumAmount then Some(BelowMinAmount)
    else if specified && quantity == 0 then Some(QuantityRequired)
    else if offer.quantityMin != 0 && quantity < offer.quantityMin then Some(OutsideQuantityRange)
    else if offer.quantityMax != 0 && quantity > offer.quantityMax then Some(OutsideQuantityRange)
    else if !specified && quantity != 0 then Some(NoQuantity)
    else None
  }

  function RequestFor(offer: Offer.Offer, amount: uint64, quantity: uint64, payerKey: Option<PubKey>,
                      payerNote: Text): InvoiceRequest {
    InvoiceRequest(offer.chainhash, offer.merkleRoot, amount, offer.features, quantity, payerKey, payerNote, [], None,
                   ZERO_HASH)
  }

  function NewRequest(lib: Lib, offer: Offer.Offer, amount: uint64, quantity: uint64, payerKey: Option<PubKey>,
                      payerNote: Text)
    : Result<InvoiceRequest, RequestError>
    requires payerKey.Some? ==> payerKey.value.Valid(lib.curve)
  {
    match Refusal(offer, amount, quantity)
    case Some(e) => Err(e)
    case None =>
      var i := RequestFor(offer, amount, quantity, payerKey, payerNote);
      match RootOf(lib.hash, Own(RequestRecords(lib, i)))
      case Err(e) => Err(RootError(e))
      case Ok(root) => Ok(i.(merkleRoot := root))
  }

  method NewInvoiceRequest(lib: Lib, offer: Offer.Offer, amount: uint64, quantity: uint64, payerKey: Option<PubKey>,
                           payerNote: Text)
    returns (r: Result<InvoiceRequest, RequestError>)
    requires payerKey.Some? ==> payerKey.value.Valid(lib.curve)
    ensures r == NewRequest(lib, offer, amount, quantity, payerKey, payerNote)
  {
    hide Present, RequestFields, RootOf;
    if amount < offer.minimumAmount {
      return Err(BelowMinAmount);
    }
    var haveMinQuantity, haveMaxQuantity := offer.quantityMin != 0, offer.quantityMax != 0;
    var quantitySpecified := haveMinQuantity && haveMaxQuantity;
    if quantitySpecified && quantity == 0 {
      return Err(QuantityRequired);
    }
    if haveMinQuantity && quantity < offer.quantityMin {
      return Err(OutsideQuantityRange);
    }
    if haveMaxQuantity && quantity > offer.quantityMax {
      return Err(OutsideQuantityRange);
    }
    if !quantitySpecified && quantity != 0 {
      return Err(NoQuantity);
    }
    var request := InvoiceRequest(offer.chainhash, offer.merkleRoot, amount, offer.features, quantity, payerKey,
                                  payerNote, [], None, ZERO_HASH);
    var records := Records(lib, request);
    var root := MerkleRoot(lib.hash, Own(records));
    if root.Err? {
      return Err(RootError(root.error));
    }
    request := request.(merkleRoot := root.value);
    return Ok(request);
  }

  /**
   * Which requests an offer's terms allow. With both bounds the quantity must lie in the range;
   * with none, or a maximum alone, no quantity may be asked for; a minimum alone allows nothing.
   */
  lemma AllowedExactly(offer: Offer.Offer, amount: uint64, quantity: uint64)
    ensures Refusal(offer, amount, quantity).None? <==>
            && amount >= offer.minimumAmount
            && (offer.quantityMin == 0 ==> quantity == 0)
            && (offer.quantityMin != 0 ==> offer.quantityMax != 0 && offer.quantityMin <= quantity <= offer.quantityMax)
  {
  }

  /** What stands in the way of a request comes up in this order. */
  lemma RefusalsInOrder(offer: Offer.Offer, amount: uint64, quantity: uint64)
    ensures var ranged := offer.quantityMin != 0 && offer.quantityMax != 0;
            var outside := (offer.quantityMin != 0 && quantity < offer.quantityMin)
                           || (offer.quantityMax != 0 && offer.quantityMax < quantity);
            Refusal(offer, amount, quantity) ==
              if amount < offer.minimumAmount then Some(BelowMinAmount)
              else if ranged && quantity == 0 then Some(QuantityRequired)
              else if outside then Some(OutsideQuantityRange)
              else if !ranged && quantity != 0 then Some(NoQuantity)
              else None
  {
  }

  /**
   * What is made of an allowed request: it is for the offer's chain, names the offer by its root, repeats
   * its features and what was asked for, and is not signed; its root is that of its own records. It is made
   * exactly when the offer's terms allow it and any of this is set.
   */
  lemma NewRequestExactly(lib: Lib, offer: Offer.Offer, amount: uint64, quantity: uint64, payerKey: Option<PubKey>,
                          payerNote: Text)
    requires payerKey.Some? ==> payerKey.value.Valid(lib.curve)
    ensures var result := NewRequest(lib, offer, amount, quantity, payerKey, payerNote);
            var allowed := && amount >= offer.minimumAmount
                           && (offer.quantityMin == 0 ==> quantity == 0)
                           && (offer.quantityMin != 0 ==>
                               offer.quantityMax != 0 && offer.quantityMin <= quantity <= offer.quantityMax);
            && (result.Ok? <==>
                && allowed
                && (offer.chainhash != ZERO_HASH || offer.merkleRoot != ZERO_HASH || amount != 0
                    || offer.features.GetOr({}) != {} || quantity != 0 || payerKey.Some? || payerNote != []))
            && (result.Err? ==> result.error == if allowed then RootError(NoTlvs)
                                                else Refusal(offer, amount, quantity).GetOr(NoQuantity))
            && (result.Ok? ==>
                  var i := result.value;
                  && i.chainhash == offer.chainhash && i.offerID == offer.merkleRoot
                  && i.amount == amount && i.quantity == quantity && i.features == offer.features
                  && i.payerKey == payerKey && i.payerNote == payerNote && i.payerInfo == [] && i.signature == None
                  && RootOf(lib.hash, Own(RequestRecords(lib, i))) == Ok(i.merkleRoot))
  {
    hide RootOf, Own, RequestFields, Present;
    AllowedExactly(offer, amount, quantity);
    var plain := RequestFor(offer, amount, quantity, payerKey, payerNote);
    RequestHasRoot(lib, plain);
    RootFails(lib.hash, Own(RequestRecords(lib, plain)));
    var root := RootOf(lib.hash, Own(RequestRecords(lib, plain)));
    if root.Ok? {
      RootFieldDoesNotCount(lib, plain, root.value);
    }
  }

  // ---------- signing ----------

  function SignatureDigest(hash: Hasher, i: InvoiceRequest): Hash {
    RootDigest(hash, INVOICE_REQUEST_TAG, i.merkleRoot)
  }

  datatype Validation = Accepted | OfferIDRequired | PayerKeyRequired | SignatureRequired | InvalidSignature

  function Validate(hash: Hasher, verify: Verifier, i: InvoiceRequest): Validation {
    if i.offerID == ZERO_HASH then OfferIDRequired
    else if i.payerKey.None? then PayerKeyRequired
    else if i.signature.None? then SignatureRequired
    else if !verify(i.signature.value, i.payerKey.value.x, SignatureDigest(hash, i)) then InvalidSignature
    else Accepted
  }

  /** The digest that is signed, and when a request is valid; the checks come in this order. */
  lemma ValidateExactly(hash: Hasher, verify: Verifier, i: InvoiceRequest)
    ensures SignatureDigest(hash, i) == hash(Ascii("lightninginvoice_requestsignature"), i.merkleRoot)
    ensures var signed := i.signature.Some? && i.payerKey.Some? ==>
                verify(i.signature.value, i.payerKey.value.x,
                       hash(Ascii("lightninginvoice_requestsignature"), i.merkleRoot));
            Validate(hash, verify, i) ==
              if i.offerID == ToBE(0, 32) then OfferIDRequired
              else if i.payerKey.None? then PayerKeyRequired
              else if i.signature.None? then SignatureRequired
              else if !signed then InvalidSignature
              else Accepted
  {
    RequestTagSpelled();
  }

  /** A signature does not move the root over a request's records. */
  lemma SignedRoot(lib: Lib, i: InvoiceRequest, signature: Option<Signature>)
    requires i.Valid(lib.curve)
    ensures RootOf(lib.hash, Own(RequestRecords(lib, i.(signature := signature))))
            == RootOf(lib.hash, Own(RequestRecords(lib, i)))
  {
    hide HashValue, NumberValue, TextValue, FeaturesValue, XOnlyValue, SignatureValue, RootOf, Present;
    var j := i.(signature := signature);
    RequestSchema(lib, i);
    RequestSchema(lib, j);
    SameButLast(lib, i, j);
    hide RequestFields;
    var fs, gs := RequestFields(lib, i), RequestFields(lib, j);
    forall f: Field | !InSignatureRange(f.typ) ensures f in fs <==> f in gs {
      SameField(fs, gs, f);
      SameField(gs, fs, f);
    }
    SignatureFieldsDoNotCount(lib.hash, fs, gs);
  }

  lemma SameField(fs: seq<Field>, gs: seq<Field>, f: Field)
    requires |fs| == |gs| == 9 && fs[8].typ == SIGNATURE_TYPE && forall k :: 0 <= k < 8 ==> fs[k] == gs[k]
    ensures f in fs && !InSignatureRange(f.typ) ==> f in gs
  {
    if f in fs && !InSignatureRange(f.typ) {
      var k :| 0 <= k < 9 && fs[k] == f;
      assert gs[k] == f;
    }
  }

  lemma SameButLast(lib: Lib, i: InvoiceRequest, j: InvoiceRequest)
    requires i.Valid(lib.curve) && j == i.(signature := j.signature)
    ensures |RequestFields(lib, i)| == 9 && |RequestFields(lib, j)| == 9
    ensures forall k :: 0 <= k < 8 ==> RequestFields(lib, i)[k] == RequestFields(lib, j)[k]
    ensures RequestFields(lib, i)[8].typ == SIGNATURE_TYPE && RequestFields(lib, j)[8].typ == SIGNATURE_TYPE
  {
    hide HashValue, NumberValue, TextValue, FeaturesValue, XOnlyValue, SignatureValue;
    FieldAt(lib, i);
    FieldAt(lib, j);
    hide RequestFields;
  }

  /**
   * Sign what NewInvoiceRequest returns with any signature, encode it and decode it: the decoded
   * request has the same fields, the same root and the digest that was signed, and validating it
   * comes out as at the sender, whether the payer key's y is even or odd.
   */
  lemma SigningKeepsRoot(lib: Lib, verify: Verifier, offer: Offer.Offer, amount: uint64, quantity: uint64,
                         payerKey: Option<PubKey>, payerNote: Text, signature: Signature, order: seq<uint64>)
    requires lib.Sound() && (payerKey.Some? ==> payerKey.value.Valid(lib.curve))
    requires NewRequest(lib, offer, amount, quantity, payerKey, payerNote).Ok?
    requires var request := NewRequest(lib, offer, amount, quantity, payerKey, payerNote).value;
             var sent := request.(signature := Some(signature));
             Visited(lib, SCHEMA, StreamBytes(RequestRecords(lib, sent)), order)
    ensures var request := NewRequest(lib, offer, amount, quantity, payerKey, payerNote).value;
            var sent := request.(signature := Some(signature));
            var received := ReadInvoiceRequest(lib, StreamBytes(RequestRecords(lib, sent)), order);
            && received == Ok(Restored(lib, sent))
            && received.value.merkleRoot == request.merkleRoot
            && SignatureDigest(lib.hash, received.value) == SignatureDigest(lib.hash, request)
            && Validate(lib.hash, verify, received.value) == Validate(lib.hash, verify, sent)
  {
    hide RootOf, ReadInvoiceRequest, StreamBytes, Present, RequestFields, HasField;
    var plain := RequestFor(offer, amount, quantity, payerKey, payerNote);
    var request := NewRequest(lib, offer, amount, quantity, payerKey, payerNote).value;
    var sent := request.(signature := Some(signature));
    RootFieldDoesNotCount(lib, plain, request.merkleRoot);
    SignedRoot(lib, request, Some(signature));
    RequestHasRoot(lib, sent);
    RequestRoundTrip(lib, sent, order);
  }

  lemma RootFieldDoesNotCount(lib: Lib, i: InvoiceRequest, root: Hash)
    requires i.Valid(lib.curve)
    ensures RequestRecords(lib, i.(merkleRoot := root)) == RequestRecords(lib, i)
  {
  }
}
