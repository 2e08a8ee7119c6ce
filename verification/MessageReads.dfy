/** What is read from a stream of records as an offer, an invoice request or an invoice, by type number. */
module MessageReads {
  import opened Wrappers
  import opened Bytes
  import opened BigSize
  import opened Keys
  import opened Tlv
  import opened TU64
  import opened MerkleTree
  import Merkle
  import opened Fields
  import opened Values
  import opened Signatures
  import opened Layouts
  import opened MessageLayouts
  import RootByHand
  import Offer
  import InvoiceRequest
  import Invoice

  // ---------- streams ----------

  /** A list of records is read from its bytes, and just that list, if its values are ones their types can have. */
  lemma ParsesExactly(lib: Lib, schema: FlatSchema, rs: seq<Record>)
    requires Ascending(rs) && Sized(rs)
    ensures Parse(lib, schema, Entries(rs)).Ok? <==> ValidRecords(lib.curve, schema, rs)
    ensures Parse(lib, schema, Entries(rs)).Ok? ==> Parse(lib, schema, Entries(rs)) == Ok(rs)
  {
    hide ReadStream, StreamBytes, Entries, ValidValue;
    StreamSpelled(rs);
    if ValidRecords(lib.curve, schema, rs) {
      StreamRoundTrip(lib.curve, schema, rs, 0);
    } else if Parse(lib, schema, Entries(rs)).Ok? {
      StreamInjective(rs, Parse(lib, schema, Entries(rs)).value);
    }
  }

  /** There is a root to recompute when a field that counts is set, or a record that is not known has a body. */
  lemma CommittedHasRoot(hash: Hasher, schema: Schema, fs: seq<Field>, rs: seq<Record>, last: seq<byte>)
    requires Ascending(rs) && Sized(rs)
    ensures RootOfDecoded(hash, schema, fs, rs, last).Ok? <==>
            || (exists f :: f in fs && f.value.Some? && !Merkle.InSignatureRange(f.typ))
            || (exists r :: r in rs && r.typ !in schema && r.value != [] && !Merkle.InSignatureRange(r.typ))
    ensures RootOfDecoded(hash, schema, fs, rs, last).Err? ==>
              RootOfDecoded(hash, schema, fs, rs, last) == Err(Merkle.NoTlvs)
  {
    hide Present, Merkle.RootOf, Merkle.Own, UnknownWritten, Lookup;
    var ws := Committed(schema, fs, rs, last);
    Merkle.RootFails(hash, ws);
    if w :| w in ws && !Merkle.IsSignature(w) {
      if w in Merkle.Own(Present(fs)) {
        Merkle.OwnElements(Present(fs), w);
        PresentElements(fs, Record(w.typ, w.value.bytes));
        assert Field(w.typ, Some(w.value.bytes)) in fs;
      } else {
        UnknownWrittenElements(schema, rs, last, w);
        LookupIn(rs, w.typ);
        assert Record(w.typ, Lookup(rs, w.typ).value) in rs;
      }
    }
    forall f | f in fs && f.value.Some? && !Merkle.InSignatureRange(f.typ)
      ensures exists w :: w in ws && !Merkle.IsSignature(w)
    {
      PresentElements(fs, Record(f.typ, f.value.value));
      Merkle.OwnElements(Present(fs), Record(f.typ, Merkle.Content(|f.value.value|, f.value.value)));
      assert Record(f.typ, Merkle.Content(|f.value.value|, f.value.value)) in ws;
    }
    forall r | r in rs && r.typ !in schema && r.value != [] && !Merkle.InSignatureRange(r.typ)
      ensures exists w :: w in ws && !Merkle.IsSignature(w)
    {
      LookupOf(rs, r);
      UnknownWrittenElements(schema, rs, last, Record(r.typ, Merkle.Content(|r.value|, last)));
      assert Record(r.typ, Merkle.Content(|r.value|, last)) in ws;
    }
  }

  /** The bytes of the entry visited last: none if its type is known, else the record's own. */
  function LastVisited(known: seq<uint64>, rs: seq<Record>, order: seq<uint64>): seq<byte> {
    if order == [] || order[|order| - 1] in known then [] else Lookup(rs, order[|order| - 1]).GetOr([])
  }

  /**
   * What the recomputed root counts, outside 240 to 1000: the records the message is written with, and for
   * each record of another type that is not empty one of its type and size, with the bytes visited last.
   */
  ghost predicate Counted(known: seq<uint64>, written: seq<Record>, rs: seq<Record>, last: seq<byte>,
                          ws: seq<Merkle.Written>) {
    && Ascending(ws)
    && forall w :: w in ws <==>
         && !(240 <= w.typ <= 1000)
         && ((w.value.size == |w.value.bytes| && Record(w.typ, w.value.bytes) in written)
             || (w.typ !in known && w.value.bytes == last
                 && exists r :: r in rs && r.typ == w.typ && r.value != [] && |r.value| == w.value.size))
  }

  lemma LastIs(schema: FlatSchema, known: seq<uint64>, rs: seq<Record>, order: seq<uint64>)
    requires Ascending(rs) && Visits(order, TlvMap(schema, rs)) && forall t: uint64 :: t in schema <==> t in known
    ensures LastBytes(order, TlvMap(schema, rs)) == LastVisited(known, rs, order)
  {
    hide TlvMap, Lookup;
    if order != [] {
      MapEntry(schema, rs, order[|order| - 1]);
    }
  }

  lemma RootIsCounted(hash: Hasher, schema: FlatSchema, known: seq<uint64>, fs: seq<Field>, rs: seq<Record>,
                      last: seq<byte>, ws: seq<Merkle.Written>)
    requires SchemaFields(schema, fs) && Ascending(rs) && Sized(rs)
    requires (forall t: uint64 :: t in schema <==> t in known) && Counted(known, Present(fs), rs, last, ws)
    ensures RootOfDecoded(hash, schema, fs, rs, last) ==
            if ws == [] then Err(Merkle.NoTlvs) else Ok(RootByHand.Queue(hash, RootByHand.Pairs(hash, ws)))
  {
    hide Present, Merkle.RootOf, Merkle.Own, UnknownWritten, Lookup, RootByHand.Queue, RootByHand.Pairs;
    var all := Committed(schema, fs, rs, last);
    CommittedDistinct(schema, fs, rs, last);
    forall w ensures w in ws <==> w in all && !(240 <= w.typ <= 1000) {
      Merkle.OwnElements(Present(fs), w);
      UnknownWrittenElements(schema, rs, last, w);
      LookupIn(rs, w.typ);
      if r :| r in rs && r.typ == w.typ {
        LookupOf(rs, r);
      }
    }
    RootByHand.RootIsQueue(hash, all, ws);
  }

  // ---------- values ----------

  function HashRead(v: Option<seq<byte>>): Hash {
    if v.Some? && |v.value| == 32 then v.value else Zeros(32)
  }

  function NumberRead(v: Option<seq<byte>>): uint64 {
    if v.Some? && |v.value| <= 8 then EightBytes(v.value); FromBE(v.value) else 0
  }

  function TextRead(v: Option<seq<byte>>): Text {
    if v.Some? && |v.value| <= MAX_UINT64 then v.value else []
  }

  /** Seconds since 1970, from 2^63 on as negative ones; without a value, the first instant of year one. */
  function TimeRead(v: Option<seq<byte>>): Time {
    var n := NumberRead(v);
    if v.None? then Time(-62135596800, 0)
    else Time(if n < 0x8000_0000_0000_0000 then n else n - 0x1_0000_0000_0000_0000, 0)
  }

  /** Seconds in nanoseconds, modulo 2^64 and from 2^63 on as negative ones. */
  function DurationRead(v: Option<seq<byte>>): int64 {
    var n := NumberRead(v) * 1_000_000_000 % 0x1_0000_0000_0000_0000;
    if n < 0x8000_0000_0000_0000 then n else n - 0x1_0000_0000_0000_0000
  }

  predicate FeaturesReadable(lib: Lib, v: Option<seq<byte>>) {
    v.Some? ==> lib.decodeFeatures(v.value).Some?
  }

  function FeaturesRead(lib: Lib, v: Option<seq<byte>>): set<Feature> {
    if v.Some? && lib.decodeFeatures(v.value).Some? then lib.decodeFeatures(v.value).value else {}
  }

  /** A key of which only x is given: it has even y. */
  function XOnlyRead(v: Option<seq<byte>>): Option<PubKey> {
    if v.None? then None else Some(PubKey(false, v.value))
  }

  function PointRead(v: Option<seq<byte>>): Option<PubKey> {
    if v.None? || v.value == [] then None else Some(PubKey(v.value[0] == 3, v.value[1..]))
  }

  function SignatureRead(v: Option<seq<byte>>): Option<Signature> {
    if v.Some? && |v.value| == 64 then Some(v.value) else None
  }

  predicate IsPoint(curve: Curve, v: seq<byte>) {
    |v| == 33 && (v[0] == 2 || v[0] == 3) && curve(v[1..])
  }

  /** One to eight bytes without a leading zero. */
  predicate IsNumber(v: seq<byte>) {
    1 <= |v| <= 8 && v[0] != 0
  }

  lemma ReadsAgree(lib: Lib, v: Option<seq<byte>>)
    ensures HashOf(v) == HashRead(v) && NumberOf(v) == NumberRead(v) && TextOf(v) == TextRead(v)
    ensures TimeOf(v) == TimeRead(v) && SignatureOf(v) == SignatureRead(v)
    ensures FeaturesOf(lib, v) ==
            if FeaturesReadable(lib, v) then Ok(FeaturesRead(lib, v)) else Err(BadStream(BadFeatures))
  {
    hide FromBE;
    ZeroBytes(32);
    hide ToBE;
  }

  lemma DurationAgrees(v: Option<seq<byte>>)
    ensures DurationOf(v) == DurationRead(v)
  {
    hide FromBE;
  }

  lemma KeysAgree(curve: Curve, v: Option<seq<byte>>)
    ensures (v.Some? ==> |v.value| == 32) ==>
              XOnlyOf(curve, v) == if v.Some? && !curve(v.value) then Err(BadStream(BadPoint)) else Ok(XOnlyRead(v))
    ensures (v.Some? ==> IsPoint(curve, v.value)) ==> PointOf(curve, v) == PointRead(v)
  {
  }

  // ---------- offers ----------

  const OFFER_TYPES: seq<uint64> := [2, 8, 10, 12, 14, 20, 22, 24, 30, 240]

  /** The value has a size its type can have. */
  predicate OfferFits(r: Record) {
    && (r.typ == 2 || r.typ == 30 ==> |r.value| == 32)
    && (r.typ == 8 || r.typ == 14 || r.typ == 22 || r.typ == 24 ==> IsNumber(r.value))
    && (r.typ == 240 ==> |r.value| == 64)
  }

  predicate OfferSized(rs: seq<Record>) {
    forall r :: r in rs ==> OfferFits(r)
  }

  /** The offer that a list of records describes, its root aside. */
  function OfferRead(lib: Lib, rs: seq<Record>): Offer.Offer {
    Offer.Offer(HashRead(Lookup(rs, 2)), NumberRead(Lookup(rs, 8)), TextRead(Lookup(rs, 10)),
      Some(FeaturesRead(lib, Lookup(rs, 12))), TimeRead(Lookup(rs, 14)), TextRead(Lookup(rs, 20)),
      NumberRead(Lookup(rs, 22)), NumberRead(Lookup(rs, 24)), XOnlyRead(Lookup(rs, 30)),
      SignatureRead(Lookup(rs, 240)), Zeros(32))
  }

  /** Something beside the signature is set. */
  predicate OfferSet(o: Offer.Offer) {
    || o.chainhash != Zeros(32) || o.minimumAmount != 0 || o.description != [] || o.features != Some({})
    || o.expiry != Time(-62135596800, 0) || o.issuer != [] || o.quantityMin != 0 || o.quantityMax != 0
    || o.nodeID.Some?
  }

  lemma OfferValuesRead(lib: Lib, rs: seq<Record>)
    requires Ascending(rs) && Sized(rs) && OfferSized(rs)
    ensures Offer.FieldsOf(lib, rs) ==
            if !FeaturesReadable(lib, Lookup(rs, 12)) then Err(BadStream(BadFeatures))
            else if Lookup(rs, 30).Some? && !lib.curve(Lookup(rs, 30).value) then Err(BadStream(BadPoint))
            else Ok(OfferRead(lib, rs))
  {
    hide Lookup, HashOf, NumberOf, TextOf, FeaturesOf, TimeOf, DurationOf, XOnlyOf, PointOf, SignatureOf, HashRead,
         NumberRead, TextRead, FeaturesRead, FeaturesReadable, TimeRead, DurationRead, XOnlyRead, PointRead,
         SignatureRead, IsPoint, IsNumber;
    ReadsAgree(lib, Lookup(rs, 2));
    ReadsAgree(lib, Lookup(rs, 8));
    ReadsAgree(lib, Lookup(rs, 10));
    ReadsAgree(lib, Lookup(rs, 12));
    ReadsAgree(lib, Lookup(rs, 14));
    ReadsAgree(lib, Lookup(rs, 20));
    ReadsAgree(lib, Lookup(rs, 22));
    ReadsAgree(lib, Lookup(rs, 24));
    LookupIn(rs, 30);
    KeysAgree(lib.curve, Lookup(rs, 30));
    ReadsAgree(lib, Lookup(rs, 240));
    ZeroBytes(32);
  }

  lemma OfferValue(lib: Lib, r: Record)
    ensures (r.typ in Offer.SCHEMA ==> ValidValue(lib.curve, Offer.SCHEMA[r.typ], r.value))
            <==> OfferFits(r)
  {
  }

  lemma OfferValues(lib: Lib, rs: seq<Record>)
    ensures ValidRecords(lib.curve, Offer.SCHEMA, rs) <==> OfferSized(rs)
  {
    hide Offer.SCHEMA, ValidValue, OfferFits;
    forall r: Record
      ensures (r.typ in Offer.SCHEMA ==> ValidValue(lib.curve, Offer.SCHEMA[r.typ], r.value))
              <==> OfferFits(r)
    {
      OfferValue(lib, r);
    }
  }

  lemma OfferSetExactly(lib: Lib, o: Offer.Offer)
    requires o.Valid(lib.curve) && o.features.Some?
    ensures OfferSet(o) <==>
            exists f :: f in Offer.OfferFields(lib, o) && f.value.Some? && !Merkle.InSignatureRange(f.typ)
  {
    hide Merkle.RootOf, Merkle.Own, Present, Offer.OfferFields;
    Offer.OfferHasRoot(lib, o);
    FieldsHaveRoot(lib.hash, Offer.OfferFields(lib, o));
    ZeroBytes(32);
  }

  /** Every value has a size its type can have, the features decode and the key is a point. */
  predicate OfferReadable(lib: Lib, rs: seq<Record>) {
    OfferSized(rs) && FeaturesReadable(lib, Lookup(rs, 12))
    && (Lookup(rs, 30).Some? ==> lib.curve(Lookup(rs, 30).value))
  }

  /** A field is set, or there is a record of another type, outside 240 to 1000, that is not empty. */
  predicate OfferCounts(lib: Lib, rs: seq<Record>) {
    || OfferSet(OfferRead(lib, rs))
    || exists r :: r in rs && r.typ !in OFFER_TYPES
                   && r.value != [] && !(240 <= r.typ <= 1000)
  }

  /**
   * An offer is read exactly when it is readable and has something for the root to count. Its
   * fields come from their own types, whatever else stands beside them.
   */
  lemma OfferIsRead(lib: Lib, rs: seq<Record>, order: seq<uint64>)
    requires Ascending(rs) && Sized(rs) && Visited(lib, Offer.SCHEMA, Entries(rs), order)
    ensures var read := Offer.ReadOffer(lib, Entries(rs), order);
            && (read.Ok? <==> OfferReadable(lib, rs) && OfferCounts(lib, rs))
            && (read.Ok? ==> read.value.(merkleRoot := Zeros(32)) == OfferRead(lib, rs))
            && (read.Err? ==>
                  if OfferReadable(lib, rs) then read == Err(BadRoot(Merkle.NoTlvs)) else read.error.BadStream?)
  {
    hide Entries, Parse, StreamBytes, Offer.FieldsOf, Offer.OfferFields, RootOfDecoded, Lookup, OfferRead, OfferSet,
         OfferSized, TlvMap, Visits, LastBytes, ValidRecords, FeaturesReadable;
    ParsesExactly(lib, Offer.SCHEMA, rs);
    OfferValues(lib, rs);
    if OfferSized(rs) {
      OfferValuesRead(lib, rs);
      if Offer.FieldsOf(lib, rs).Ok? {
        var last := LastBytes(order, TlvMap(Offer.SCHEMA, rs));
        var o := Offer.FieldsOf(lib, rs).value;
        CommittedHasRoot(lib.hash, Offer.SCHEMA, Offer.OfferFields(lib, o), rs, last);
        OfferReadHasFeatures(lib, rs);
        OfferSetExactly(lib, o);
      }
    }
  }

  /** The root of an offer that is read, with the parsed types visited in a given order. */
  lemma OfferRootIsCounted(lib: Lib, rs: seq<Record>, order: seq<uint64>, ws: seq<Merkle.Written>)
    requires Ascending(rs) && Sized(rs) && Visited(lib, Offer.SCHEMA, Entries(rs), order)
    requires Offer.ReadOffer(lib, Entries(rs), order).Ok?
    requires var known, o := OFFER_TYPES, Offer.ReadOffer(lib, Entries(rs), order).value;
             Counted(known, Offer.OfferRecords(lib, o), rs, LastVisited(known, rs, order), ws)
    ensures ws != []
            && Offer.ReadOffer(lib, Entries(rs), order).value.merkleRoot
               == RootByHand.Queue(lib.hash, RootByHand.Pairs(lib.hash, ws))
  {
    hide Entries, Parse, StreamBytes, Offer.FieldsOf, Offer.OfferValues, RootOfDecoded, Lookup, TlvMap, LastBytes,
         LastVisited, Counted, RootByHand.Queue, RootByHand.Pairs, Present, SchemaFields;
    ParsesExactly(lib, Offer.SCHEMA, rs);
    var o := Offer.FieldsOf(lib, rs).value;
    Offer.OfferSchema(lib, o);
    OfferRootAside(lib, o, Offer.ReadOffer(lib, Entries(rs), order).value.merkleRoot);
    LastIs(Offer.SCHEMA, OFFER_TYPES, rs, order);
    RootIsCounted(lib.hash, Offer.SCHEMA, OFFER_TYPES, Offer.OfferFields(lib, o), rs,
                  LastBytes(order, TlvMap(Offer.SCHEMA, rs)), ws);
  }

  lemma OfferRootAside(lib: Lib, o: Offer.Offer, root: Hash)
    requires o.Valid(lib.curve)
    ensures Offer.OfferFields(lib, o.(merkleRoot := root)) == Offer.OfferFields(lib, o)
  {
  }

  lemma OfferReadHasFeatures(lib: Lib, rs: seq<Record>)
    ensures OfferRead(lib, rs).features.Some? && OfferRead(lib, rs).merkleRoot == Zeros(32)
  {
  }

  // ---------- invoice requests ----------

  const REQUEST_TYPES: seq<uint64> := [3, 4, 8, 12, 32, 38, 39, 50, 240]

  /** The value has a size its type can have. */
  predicate RequestFits(r: Record) {
    && (r.typ == 3 || r.typ == 4 || r.typ == 38 ==> |r.value| == 32)
    && (r.typ == 8 || r.typ == 32 ==> IsNumber(r.value))
    && (r.typ == 240 ==> |r.value| == 64)
  }

  predicate RequestSized(rs: seq<Record>) {
    forall r :: r in rs ==> RequestFits(r)
  }

  /** The invoice request that a list of records describes, its root aside. */
  function RequestRead(lib: Lib, rs: seq<Record>): InvoiceRequest.InvoiceRequest {
    InvoiceRequest.InvoiceRequest(HashRead(Lookup(rs, 3)), HashRead(Lookup(rs, 4)), NumberRead(Lookup(rs, 8)),
      Some(FeaturesRead(lib, Lookup(rs, 12))), NumberRead(Lookup(rs, 32)), XOnlyRead(Lookup(rs, 38)),
      TextRead(Lookup(rs, 39)), TextRead(Lookup(rs, 50)), SignatureRead(Lookup(rs, 240)), Zeros(32))
  }

  /** Something beside the signature is set. */
  predicate RequestSet(i: InvoiceRequest.InvoiceRequest) {
    || i.chainhash != Zeros(32) || i.offerID != Zeros(32) || i.amount != 0 || i.features != Some({})
    || i.quantity != 0 || i.payerKey.Some? || i.payerNote != [] || i.payerInfo != []
  }

  lemma RequestValuesRead(lib: Lib, rs: seq<Record>)
    requires Ascending(rs) && Sized(rs) && RequestSized(rs)
    ensures InvoiceRequest.FieldsOf(lib, rs) ==
            if !FeaturesReadable(lib, Lookup(rs, 12)) then Err(BadStream(BadFeatures))
            else if Lookup(rs, 38).Some? && !lib.curve(Lookup(rs, 38).value) then Err(BadStream(BadPoint))
            else Ok(RequestRead(lib, rs))
  {
    hide Lookup, HashOf, NumberOf, TextOf, FeaturesOf, TimeOf, DurationOf, XOnlyOf, PointOf, SignatureOf, HashRead,
         NumberRead, TextRead, FeaturesRead, FeaturesReadable, TimeRead, DurationRead, XOnlyRead, PointRead,
         SignatureRead, IsPoint, IsNumber;
    ReadsAgree(lib, Lookup(rs, 3));
    ReadsAgree(lib, Lookup(rs, 4));
    ReadsAgree(lib, Lookup(rs, 8));
    ReadsAgree(lib, Lookup(rs, 12));
    ReadsAgree(lib, Lookup(rs, 32));
    LookupIn(rs, 38);
    KeysAgree(lib.curve, Lookup(rs, 38));
    ReadsAgree(lib, Lookup(rs, 39));
    ReadsAgree(lib, Lookup(rs, 50));
    ReadsAgree(lib, Lookup(rs, 240));
    ZeroBytes(32);
  }

  lemma RequestValue(lib: Lib, r: Record)
    ensures (r.typ in InvoiceRequest.SCHEMA ==> ValidValue(lib.curve, InvoiceRequest.SCHEMA[r.typ], r.value))
            <==> RequestFits(r)
  {
  }

  lemma RequestValues(lib: Lib, rs: seq<Record>)
    ensures ValidRecords(lib.curve, InvoiceRequest.SCHEMA, rs) <==> RequestSized(rs)
  {
    hide InvoiceRequest.SCHEMA, ValidValue, RequestFits;
    forall r: Record
      ensures (r.typ in InvoiceRequest.SCHEMA ==> ValidValue(lib.curve, InvoiceRequest.SCHEMA[r.typ], r.value))
              <==> RequestFits(r)
    {
      RequestValue(lib, r);
    }
  }

  lemma RequestSetExactly(lib: Lib, i: InvoiceRequest.InvoiceRequest)
    requires i.Valid(lib.curve) && i.features.Some?
    ensures RequestSet(i) <==>
            exists f :: f in InvoiceRequest.RequestFields(lib, i) && f.value.Some? && !Merkle.InSignatureRange(f.typ)
  {
    hide Merkle.RootOf, Merkle.Own, Present, InvoiceRequest.RequestFields;
    InvoiceRequest.RequestHasRoot(lib, i);
    FieldsHaveRoot(lib.hash, InvoiceRequest.RequestFields(lib, i));
    ZeroBytes(32);
  }

  /** Every value has a size its type can have, the features decode and the key is a point. */
  predicate RequestReadable(lib: Lib, rs: seq<Record>) {
    RequestSized(rs) && FeaturesReadable(lib, Lookup(rs, 12))
    && (Lookup(rs, 38).Some? ==> lib.curve(Lookup(rs, 38).value))
  }

  /** A field is set, or there is a record of another type, outside 240 to 1000, that is not empty. */
  predicate RequestCounts(lib: Lib, rs: seq<Record>) {
    || RequestSet(RequestRead(lib, rs))
    || exists r :: r in rs && r.typ !in REQUEST_TYPES
                   && r.value != [] && !(240 <= r.typ <= 1000)
  }

  /**
   * An invoice request is read exactly when it is readable and has something for the root to count. Its
   * fields come from their own types, whatever else stands beside them.
   */
  lemma RequestIsRead(lib: Lib, rs: seq<Record>, order: seq<uint64>)
    requires Ascending(rs) && Sized(rs) && Visited(lib, InvoiceRequest.SCHEMA, Entries(rs), order)
    ensures var read := InvoiceRequest.ReadInvoiceRequest(lib, Entries(rs), order);
            && (read.Ok? <==> RequestReadable(lib, rs) && RequestCounts(lib, rs))
            && (read.Ok? ==> read.value.(merkleRoot := Zeros(32)) == RequestRead(lib, rs))
            && (read.Err? ==>
                  if RequestReadable(lib, rs) then read == Err(BadRoot(Merkle.NoTlvs)) else read.error.BadStream?)
  {
    hide Entries, Parse, StreamBytes, InvoiceRequest.FieldsOf, InvoiceRequest.RequestFields, RootOfDecoded, Lookup,
         RequestRead, RequestSet, RequestSized, TlvMap, Visits, LastBytes, ValidRecords, FeaturesReadable;
    ParsesExactly(lib, InvoiceRequest.SCHEMA, rs);
    RequestValues(lib, rs);
    if RequestSized(rs) {
      RequestValuesRead(lib, rs);
      if InvoiceRequest.FieldsOf(lib, rs).Ok? {
        var last := LastBytes(order, TlvMap(InvoiceRequest.SCHEMA, rs));
        var i := InvoiceRequest.FieldsOf(lib, rs).value;
        CommittedHasRoot(lib.hash, InvoiceRequest.SCHEMA, InvoiceRequest.RequestFields(lib, i), rs, last);
        RequestReadHasFeatures(lib, rs);
        RequestSetExactly(lib, i);
      }
    }
  }

  /** The root of an invoice request that is read, with the parsed types visited in a given order. */
  lemma RequestRootIsCounted(lib: Lib, rs: seq<Record>, order: seq<uint64>, ws: seq<Merkle.Written>)
    requires Ascending(rs) && Sized(rs) && Visited(lib, InvoiceRequest.SCHEMA, Entries(rs), order)
    requires InvoiceRequest.ReadInvoiceRequest(lib, Entries(rs), order).Ok?
    requires var known, i := REQUEST_TYPES, InvoiceRequest.ReadInvoiceRequest(lib, Entries(rs), order).value;
             Counted(known, InvoiceRequest.RequestRecords(lib, i), rs, LastVisited(known, rs, order), ws)
    ensures ws != []
            && InvoiceRequest.ReadInvoiceRequest(lib, Entries(rs), order).value.merkleRoot
               == RootByHand.Queue(lib.hash, RootByHand.Pairs(lib.hash, ws))
  {
    hide Entries, Parse, StreamBytes, InvoiceRequest.FieldsOf, InvoiceRequest.RequestValues, RootOfDecoded, Lookup,
         TlvMap, LastBytes, LastVisited, Counted, RootByHand.Queue, RootByHand.Pairs, Present, SchemaFields;
    ParsesExactly(lib, InvoiceRequest.SCHEMA, rs);
    var i := InvoiceRequest.FieldsOf(lib, rs).value;
    InvoiceRequest.RequestSchema(lib, i);
    RequestRootAside(lib, i, InvoiceRequest.ReadInvoiceRequest(lib, Entries(rs), order).value.merkleRoot);
    LastIs(InvoiceRequest.SCHEMA, REQUEST_TYPES, rs, order);
    RootIsCounted(lib.hash, InvoiceRequest.SCHEMA, REQUEST_TYPES, InvoiceRequest.RequestFields(lib, i), rs,
                  LastBytes(order, TlvMap(InvoiceRequest.SCHEMA, rs)), ws);
  }

  lemma RequestRootAside(lib: Lib, i: InvoiceRequest.InvoiceRequest, root: Hash)
    requires i.Valid(lib.curve)
    ensures InvoiceRequest.RequestFields(lib, i.(merkleRoot := root)) == InvoiceRequest.RequestFields(lib, i)
  {
  }

  lemma RequestReadHasFeatures(lib: Lib, rs: seq<Record>)
    ensures RequestRead(lib, rs).features.Some? && RequestRead(lib, rs).merkleRoot == Zeros(32)
  {
  }

  // ---------- invoices ----------

  const INVOICE_TYPES: seq<uint64> := [3, 4, 8, 10, 12, 30, 32, 38, 39, 40, 42, 44, 46, 50, 240]

  /** The value has a size its type can have. */
  predicate InvoiceFits(curve: Curve, r: Record) {
    && (r.typ == 3 || r.typ == 4 || r.typ == 42 ==> |r.value| == 32)
    && (r.typ == 8 || r.typ == 32 ==> IsNumber(r.value))
    && (r.typ == 40 || r.typ == 44 || r.typ == 46 ==> |r.value| == 8)
    && (r.typ == 30 || r.typ == 38 ==> IsPoint(curve, r.value))
    && (r.typ == 240 ==> |r.value| == 64)
  }

  predicate InvoiceSized(curve: Curve, rs: seq<Record>) {
    forall r :: r in rs ==> InvoiceFits(curve, r)
  }

  /** The invoice that a list of records describes, its root aside. */
  function InvoiceRead(lib: Lib, rs: seq<Record>): Invoice.Invoice {
    Invoice.Invoice(HashRead(Lookup(rs, 3)), HashRead(Lookup(rs, 4)), NumberRead(Lookup(rs, 8)),
      TextRead(Lookup(rs, 10)), Some(FeaturesRead(lib, Lookup(rs, 12))), PointRead(Lookup(rs, 30)),
      NumberRead(Lookup(rs, 32)), PointRead(Lookup(rs, 38)), TextRead(Lookup(rs, 39)), TimeRead(Lookup(rs, 40)),
      HashRead(Lookup(rs, 42)), DurationRead(Lookup(rs, 44)), NumberRead(Lookup(rs, 46)), TextRead(Lookup(rs, 50)),
      SignatureRead(Lookup(rs, 240)), Zeros(32))
  }

  /** Something beside the signature is set. */
  predicate InvoiceSet(i: Invoice.Invoice) {
    || i.chainhash != Zeros(32) || i.offerID != Zeros(32) || i.amount != 0 || i.description != []
    || i.features != Some({}) || i.nodeID.Some? || i.quantity != 0 || i.payerKey.Some? || i.payerNote != []
    || i.createdAt != Time(-62135596800, 0) || i.paymentHash != Zeros(32) || i.relativeExpiry != 0
    || i.cltvExpiry != 0 || i.payerInfo != []
  }

  lemma InvoiceValuesRead(lib: Lib, rs: seq<Record>)
    requires Ascending(rs) && Sized(rs) && InvoiceSized(lib.curve, rs)
    ensures Invoice.FieldsOf(lib, rs) ==
            if !FeaturesReadable(lib, Lookup(rs, 12)) then Err(BadStream(BadFeatures))
            else Ok(InvoiceRead(lib, rs))
  {
    hide Lookup, HashOf, NumberOf, TextOf, FeaturesOf, TimeOf, DurationOf, XOnlyOf, PointOf, SignatureOf, HashRead,
         NumberRead, TextRead, FeaturesRead, FeaturesReadable, TimeRead, DurationRead, XOnlyRead, PointRead,
         SignatureRead, IsPoint, IsNumber;
    ReadsAgree(lib, Lookup(rs, 3));
    ReadsAgree(lib, Lookup(rs, 4));
    ReadsAgree(lib, Lookup(rs, 8));
    ReadsAgree(lib, Lookup(rs, 10));
    ReadsAgree(lib, Lookup(rs, 12));
    LookupIn(rs, 30);
    KeysAgree(lib.curve, Lookup(rs, 30));
    ReadsAgree(lib, Lookup(rs, 32));
    LookupIn(rs, 38);
    KeysAgree(lib.curve, Lookup(rs, 38));
    ReadsAgree(lib, Lookup(rs, 39));
    ReadsAgree(lib, Lookup(rs, 40));
    ReadsAgree(lib, Lookup(rs, 42));
    DurationAgrees(Lookup(rs, 44));
    ReadsAgree(lib, Lookup(rs, 46));
    ReadsAgree(lib, Lookup(rs, 50));
    ReadsAgree(lib, Lookup(rs, 240));
    ZeroBytes(32);
  }

  lemma InvoiceValue(lib: Lib, r: Record)
    ensures (r.typ in Invoice.SCHEMA ==> ValidValue(lib.curve, Invoice.SCHEMA[r.typ], r.value))
            <==> InvoiceFits(lib.curve, r)
  {
  }

  lemma InvoiceValues(lib: Lib, rs: seq<Record>)
    ensures ValidRecords(lib.curve, Invoice.SCHEMA, rs) <==> InvoiceSized(lib.curve, rs)
  {
    hide Invoice.SCHEMA, ValidValue, InvoiceFits;
    forall r: Record
      ensures (r.typ in Invoice.SCHEMA ==> ValidValue(lib.curve, Invoice.SCHEMA[r.typ], r.value))
              <==> InvoiceFits(lib.curve, r)
    {
      InvoiceValue(lib, r);
    }
  }

  lemma InvoiceSetExactly(lib: Lib, i: Invoice.Invoice)
    requires i.Valid(lib.curve) && i.features.Some?
    ensures InvoiceSet(i) <==>
            exists f :: f in Invoice.InvoiceFields(lib, i) && f.value.Some? && !Merkle.InSignatureRange(f.typ)
  {
    hide Merkle.RootOf, Merkle.Own, Present, Invoice.InvoiceFields;
    Invoice.InvoiceHasRoot(lib, i);
    FieldsHaveRoot(lib.hash, Invoice.InvoiceFields(lib, i));
    ZeroBytes(32);
  }

  /** Every value has a size its type can have, the features decode. */
  predicate InvoiceReadable(lib: Lib, rs: seq<Record>) {
    InvoiceSized(lib.curve, rs) && FeaturesReadable(lib, Lookup(rs, 12))
  }

  /** A field is set, or there is a record of another type, outside 240 to 1000, that is not empty. */
  predicate InvoiceCounts(lib: Lib, rs: seq<Record>) {
    || InvoiceSet(InvoiceRead(lib, rs))
    || exists r :: r in rs && r.typ !in INVOICE_TYPES
                   && r.value != [] && !(240 <= r.typ <= 1000)
  }

  /**
   * An invoice is read exactly when it is readable and has something for the root to count. Its
   * fields come from their own types, whatever else stands beside them.
   */
  lemma InvoiceIsRead(lib: Lib, rs: seq<Record>, order: seq<uint64>)
    requires Ascending(rs) && Sized(rs) && Visited(lib, Invoice.SCHEMA, Entries(rs), order)
    ensures var read := Invoice.ReadInvoice(lib, Entries(rs), order);
            && (read.Ok? <==> InvoiceReadable(lib, rs) && InvoiceCounts(lib, rs))
            && (read.Ok? ==> read.value.(merkleRoot := Zeros(32)) == InvoiceRead(lib, rs))
            && (read.Err? ==>
                  if InvoiceReadable(lib, rs) then read == Err(BadRoot(Merkle.NoTlvs)) else read.error.BadStream?)
  {
    hide Entries, Parse, StreamBytes, Invoice.FieldsOf, Invoice.InvoiceFields, RootOfDecoded, Lookup, InvoiceRead,
         InvoiceSet, InvoiceSized, TlvMap, Visits, LastBytes, ValidRecords, FeaturesReadable;
    ParsesExactly(lib, Invoice.SCHEMA, rs);
    InvoiceValues(lib, rs);
    if InvoiceSized(lib.curve, rs) {
      InvoiceValuesRead(lib, rs);
      if Invoice.FieldsOf(lib, rs).Ok? {
        var last := LastBytes(order, TlvMap(Invoice.SCHEMA, rs));
        var i := Invoice.FieldsOf(lib, rs).value;
        CommittedHasRoot(lib.hash, Invoice.SCHEMA, Invoice.InvoiceFields(lib, i), rs, last);
        InvoiceReadHasFeatures(lib, rs);
        InvoiceSetExactly(lib, i);
      }
    }
  }

  /** The root of an invoice that is read, with the parsed types visited in a given order. */
  lemma InvoiceRootIsCounted(lib: Lib, rs: seq<Record>, order: seq<uint64>, ws: seq<Merkle.Written>)
    requires Ascending(rs) && Sized(rs) && Visited(lib, Invoice.SCHEMA, Entries(rs), order)
    requires Invoice.ReadInvoice(lib, Entries(rs), order).Ok?
    requires var known, i := INVOICE_TYPES, Invoice.ReadInvoice(lib, Entries(rs), order).value;
             Counted(known, Invoice.InvoiceRecords(lib, i), rs, LastVisited(known, rs, order), ws)
    ensures ws != []
            && Invoice.ReadInvoice(lib, Entries(rs), order).value.merkleRoot
               == RootByHand.Queue(lib.hash, RootByHand.Pairs(lib.hash, ws))
  {
    hide Entries, Parse, StreamBytes, Invoice.FieldsOf, Invoice.InvoiceValues, RootOfDecoded, Lookup, TlvMap,
         LastBytes, LastVisited, Counted, RootByHand.Queue, RootByHand.Pairs, Present, SchemaFields;
    ParsesExactly(lib, Invoice.SCHEMA, rs);
    var i := Invoice.FieldsOf(lib, rs).value;
    Invoice.InvoiceSchema(lib, i);
    InvoiceRootAside(lib, i, Invoice.ReadInvoice(lib, Entries(rs), order).value.merkleRoot);
    LastIs(Invoice.SCHEMA, INVOICE_TYPES, rs, order);
    RootIsCounted(lib.hash, Invoice.SCHEMA, INVOICE_TYPES, Invoice.InvoiceFields(lib, i), rs,
                  LastBytes(order, TlvMap(Invoice.SCHEMA, rs)), ws);
  }

  lemma InvoiceRootAside(lib: Lib, i: Invoice.Invoice, root: Hash)
    requires i.Valid(lib.curve)
    ensures Invoice.InvoiceFields(lib, i.(merkleRoot := root)) == Invoice.InvoiceFields(lib, i)
  {
  }

  lemma InvoiceReadHasFeatures(lib: Lib, rs: seq<Record>)
    ensures InvoiceRead(lib, rs).features.Some? && InvoiceRead(lib, rs).merkleRoot == Zeros(32)
  {
  }

  // ---------- from an offer to its request ----------

  /** The request for an offer, signed. */
  function Sent(lib: Lib, offer: Offer.Offer, amount: uint64, quantity: uint64, payerKey: Option<PubKey>,
                payerNote: Text, signature: Signature): (i: InvoiceRequest.InvoiceRequest)
    requires payerKey.Some? ==> payerKey.value.Valid(lib.curve)
    requires InvoiceRequest.NewRequest(lib, offer, amount, quantity, payerKey, payerNote).Ok?
    ensures i.Valid(lib.curve)
  {
    InvoiceRequest.NewRequestExactly(lib, offer, amount, quantity, payerKey, payerNote);
    InvoiceRequest.NewRequest(lib, offer, amount, quantity, payerKey, payerNote).value.(signature := Some(signature))
  }

  /** A signed request, as it is sent: for the offer's chain, naming the offer by its root. */
  lemma RequestOnTheWire(lib: Lib, offer: Offer.Offer, amount: uint64, quantity: uint64, payerKey: Option<PubKey>,
                         payerNote: Text, signature: Signature)
    requires payerKey.Some? ==> payerKey.value.Valid(lib.curve)
    requires InvoiceRequest.NewRequest(lib, offer, amount, quantity, payerKey, payerNote).Ok?
    ensures var sent := Sent(lib, offer, amount, quantity, payerKey, payerNote, signature);
            StreamBytes(InvoiceRequest.RequestRecords(lib, sent)) ==
            HashEntry(3, offer.chainhash) + HashEntry(4, offer.merkleRoot) + NumberEntry(8, amount)
            + FeaturesEntry(lib, 12, offer.features) + NumberEntry(32, quantity) + XOnlyEntry(38, payerKey)
            + TextEntry(39, payerNote) + Entry(240, signature)
  {
    hide InvoiceRequest.NewRequest, InvoiceRequest.RequestFields, Present, StreamBytes, HashEntry, NumberEntry,
         FeaturesEntry, XOnlyEntry, Entry;
    InvoiceRequest.NewRequestExactly(lib, offer, amount, quantity, payerKey, payerNote);
    RequestIsSpelled(lib, Sent(lib, offer, amount, quantity, payerKey, payerNote, signature));
  }

  /**
   * Whoever reads it gets the offer's chain and the offer's root, the one computed when the offer was read
   * if that is where the offer comes from, and what was asked for.
   */
  lemma RequestNamesOffer(lib: Lib, offer: Offer.Offer, amount: uint64, quantity: uint64, payerKey: Option<PubKey>,
                          payerNote: Text, signature: Signature, order: seq<uint64>)
    requires lib.Sound() && (payerKey.Some? ==> payerKey.value.Valid(lib.curve))
    requires InvoiceRequest.NewRequest(lib, offer, amount, quantity, payerKey, payerNote).Ok?
    requires var sent := Sent(lib, offer, amount, quantity, payerKey, payerNote, signature);
             Visited(lib, InvoiceRequest.SCHEMA, StreamBytes(InvoiceRequest.RequestRecords(lib, sent)), order)
    ensures var sent := Sent(lib, offer, amount, quantity, payerKey, payerNote, signature);
            var read := InvoiceRequest.ReadInvoiceRequest(
                lib, StreamBytes(InvoiceRequest.RequestRecords(lib, sent)), order);
            && read.Ok? && read.value.chainhash == offer.chainhash && read.value.offerID == offer.merkleRoot
            && read.value.amount == amount && read.value.quantity == quantity && read.value.payerNote == payerNote
            && read.value.signature == Some(signature) && read.value.features == Some(offer.features.GetOr({}))
            && read.value.payerKey == if payerKey.None? then None else Some(PubKey(false, payerKey.value.x))
  {
    hide InvoiceRequest.NewRequest, InvoiceRequest.RequestFields, InvoiceRequest.ReadInvoiceRequest,
         Present, StreamBytes, Visited, Merkle.RootOf, Merkle.Own;
    InvoiceRequest.NewRequestExactly(lib, offer, amount, quantity, payerKey, payerNote);
    InvoiceRequest.SigningKeepsRoot(lib, (s, k, d) => true, offer, amount, quantity, payerKey, payerNote, signature,
                                    order);
  }
}
