/** The payload that each hop of an onion message unwraps. */
module OnionPayload {
  import opened Wrappers
  import opened Bytes
  import opened BigSize
  import opened Keys
  import opened ReplyPath
  import opened Tlv

  const REPLY_PATH_TYPE: uint64 := 2
  const ENCRYPTED_DATA_TYPE: uint64 := 4
  const FINAL_PAYLOAD_START: uint64 := 64
  const INVOICE_REQUEST_TYPE: uint64 := 64
  const INVOICE_TYPE: uint64 := 66

  /** `finals` are the payloads for the last hop: types from 64 on with raw values. */
  datatype Payload = Payload(replyPath: Option<Path>, encryptedData: seq<byte>, finals: seq<Record>)

  const SCHEMA: Schema := map[
    REPLY_PATH_TYPE := Route,
    ENCRYPTED_DATA_TYPE := Blob,
    INVOICE_REQUEST_TYPE := Blob,
    INVOICE_TYPE := Blob
  ]

  // ---------- specification ----------

  predicate IsFinal(typ: nat) {
    typ >= FINAL_PAYLOAD_START
  }

  predicate AllFinal(rs: seq<Record>) {
    forall r :: r in rs ==> IsFinal(r.typ)
  }

  function PathRecord(path: Option<Path>): seq<Record> {
    match path
    case None => []
    case Some(p) => [Record(REPLY_PATH_TYPE, PathBytes(p).GetOr([]))]
  }

  function DataRecord(data: seq<byte>): seq<Record> {
    if data == [] then [] else [Record(ENCRYPTED_DATA_TYPE, data)]
  }

  /** The records every hop may have, in order of type. */
  function HeadRecords(p: Payload): seq<Record> {
    PathRecord(p.replyPath) + DataRecord(p.encryptedData)
  }

  function PayloadRecords(p: Payload): seq<Record> {
    HeadRecords(p) + p.finals
  }

  function EncodePayload(p: Payload): Result<seq<byte>, TlvError>
    requires Sized(PayloadRecords(p))
  {
    var rs := SortRecords(PayloadRecords(p));
    SortKeeps(PayloadRecords(p));
    if !AllFinal(p.finals) then Err(NotFinalPayload)
    else if !Ascending(rs) then Err(StreamNotCanonical)
    else if p.replyPath.Some? && PathBytes(p.replyPath.value).Err? then Err(PathBytes(p.replyPath.value).error)
    else Ok(StreamBytes(rs))
  }

  /** A record that decoding hands on as a final payload. */
  predicate Delivered(r: Record) {
    IsFinal(r.typ) && (r.typ in SCHEMA || r.value != [])
  }

  function Finals(rs: seq<Record>): seq<Record> {
    if rs == [] then [] else (if Delivered(rs[0]) then [rs[0]] else []) + Finals(rs[1..])
  }

  function PathOf(curve: Curve, value: Option<seq<byte>>): Option<Path> {
    match value
    case None => None
    case Some(v) => if ReadPath(curve, v, |v|).Ok? then Some(ReadPath(curve, v, |v|).value.0) else None
  }

  function DecodePayload(curve: Curve, bs: seq<byte>): Result<Payload, TlvError> {
    var rs :- ReadStream(curve, SCHEMA, bs, 0);
    Ok(Payload(PathOf(curve, Lookup(rs, REPLY_PATH_TYPE)), Lookup(rs, ENCRYPTED_DATA_TYPE).GetOr([]), Finals(rs)))
  }

  // ---------- the code ----------

  method EncodeOnionMessagePayload(p: Payload) returns (r: Result<seq<byte>, TlvError>)
    requires Sized(PayloadRecords(p))
    ensures r == EncodePayload(p)
  {
    hide SortRecords, StreamBytes, Ascending, PathBytes;
    var records: seq<Record> := [];
    var pathError: Option<TlvError> := None;
    if p.replyPath.Some? {
      var written := EncodeReplyPath(p.replyPath.value);
      pathError := if written.Err? then Some(written.error) else None;
      records := records + [Record(REPLY_PATH_TYPE, written.GetOr([]))];
    }
    if |p.encryptedData| != 0 {
      records := records + [Record(ENCRYPTED_DATA_TYPE, p.encryptedData)];
    }
    ghost var head := records;
    for i := 0 to |p.finals|
      invariant AllFinal(p.finals[..i]) && records == head + p.finals[..i]
    {
      if p.finals[i].typ < FINAL_PAYLOAD_START {
        assert p.finals[i] in p.finals;
        return Err(NotFinalPayload);
      }
      records := records + [p.finals[i]];
    }
    assert p.finals[..|p.finals|] == p.finals;
    assert records == PayloadRecords(p);
    SortKeeps(PayloadRecords(p));
    records := SortRecords(records);
    if !Ascending(records) {
      return Err(StreamNotCanonical);
    }
    // Writing the stream fails only where the reply path does not encode.
    if pathError.Some? {
      return Err(pathError.value);
    }
    return EncodeStream(records);
  }

  lemma {:induction false} FinalsElements(rs: seq<Record>)
    ensures forall r :: r in Finals(rs) <==> r in rs && Delivered(r)
    ensures Ascending(rs) ==> Ascending(Finals(rs))
  {
    if rs != [] {
      FinalsElements(rs[1..]);
      assert rs == [rs[0]] + rs[1..];
      if Ascending(rs) {
        TailAscends(rs);
        if Delivered(rs[0]) {
          ConsAscends(rs[0], Finals(rs[1..]));
        }
      }
    }
  }

  /** Known types map to no bytes, so only unknown ones are picked from the map. */
  lemma TlvMapFinals(rs: seq<Record>, r: Record)
    requires Distinct(rs)
    ensures var m := TlvMap(SCHEMA, rs);
            (r.typ in m && m[r.typ] == r.value && IsFinal(r.typ) && r.value != []) <==>
                (r in rs && Delivered(r) && r.typ !in SCHEMA)
  {
    var m := TlvMap(SCHEMA, rs);
    if r.typ in m {
      var q :| q in rs && q.typ == r.typ;
      assert m[q.typ] == if q.typ in SCHEMA then [] else q.value;
    }
    if r in rs && r.typ !in SCHEMA {
      assert m[r.typ] == r.value;
    }
  }

  /** The unknown final payloads of a decoded stream, gathered in whatever order the map yields them. */
  method GatherUnknown(rs: seq<Record>) returns (finals: seq<Record>)
    requires Distinct(rs)
    ensures Distinct(finals)
    ensures forall r :: r in finals <==> r in rs && Delivered(r) && r.typ !in SCHEMA
  {
    var tlvMap := TlvMap(SCHEMA, rs);
    var pending := tlvMap.Keys;
    finals := [];
    while pending != {}
      invariant pending <= tlvMap.Keys && Distinct(finals)
      invariant forall r :: r in finals <==>
                  r.typ in tlvMap && r.typ !in pending && tlvMap[r.typ] == r.value && IsFinal(r.typ) && r.value != []
      decreases pending
    {
      var typ :| typ in pending;
      pending := pending - {typ};
      if typ < FINAL_PAYLOAD_START || |tlvMap[typ]| == 0 {
        continue;
      }
      finals := finals + [Record(typ, tlvMap[typ])];
    }
    forall r ensures r in finals <==> r in rs && Delivered(r) && r.typ !in SCHEMA {
      TlvMapFinals(rs, r);
    }
  }

  /** A known sub-namespace that was read is delivered too. */
  method AddKnown(rs: seq<Record>, finals: seq<Record>, typ: uint64) returns (finals': seq<Record>)
    requires Distinct(rs) && Distinct(finals) && IsFinal(typ) && typ in SCHEMA
    requires forall r :: r in finals ==> r.typ != typ
    ensures Distinct(finals')
    ensures forall r :: r in finals' <==> r in finals || (r in rs && r.typ == typ)
  {
    finals' := finals;
    LookupIn(rs, typ);
    if typ in TlvMap(SCHEMA, rs) {
      var value := Lookup(rs, typ).GetOr([]);
      finals' := finals + [Record(typ, value)];
    }
    forall r ensures r in finals' <==> r in finals || (r in rs && r.typ == typ) {
      if r in rs && r.typ == typ {
        LookupOf(rs, r);
      }
    }
  }

  method DecodeOnionMessagePayload(curve: Curve, bs: seq<byte>) returns (r: Result<Payload, TlvError>)
    ensures r == DecodePayload(curve, bs)
  {
    hide ReadStream, ReadPath, Finals, SortRecords, Delivered;
    var rs :- ReadStream(curve, SCHEMA, bs, 0);
    StreamAscends(curve, SCHEMA, bs, 0);
    var tlvMap := TlvMap(SCHEMA, rs);
    LookupIn(rs, REPLY_PATH_TYPE);
    var replyPath := if REPLY_PATH_TYPE in tlvMap then PathOf(curve, Lookup(rs, REPLY_PATH_TYPE)) else None;
    var encryptedData := Lookup(rs, ENCRYPTED_DATA_TYPE).GetOr([]);

    var finals := GatherUnknown(rs);
    finals := AddKnown(rs, finals, INVOICE_TYPE);
    finals := AddKnown(rs, finals, INVOICE_REQUEST_TYPE);

    // The map yields its entries in any order; sorting makes the result unique.
    finals := SortFinals(rs, finals);
    return Ok(Payload(replyPath, encryptedData, finals));
  }

  method SortFinals(rs: seq<Record>, finals: seq<Record>) returns (sorted: seq<Record>)
    requires Ascending(rs) && Distinct(finals)
    requires forall r :: r in finals <==>
               || (r in rs && Delivered(r) && r.typ !in SCHEMA)
               || (r in rs && (r.typ == INVOICE_TYPE || r.typ == INVOICE_REQUEST_TYPE))
    ensures sorted == Finals(rs)
  {
    sorted := SortRecords(finals);
    SortKeeps(finals);
    FinalsElements(rs);
    hide Finals, SortRecords;
    AscendingUnique(sorted, Finals(rs));
  }

  // ---------- round trip ----------

  /** What a caller controls: types whose meaning does not rest on how unknown even types are treated. */
  predicate PlainTypes(finals: seq<Record>) {
    forall f :: f in finals ==> f.typ % 2 == 1 || f.typ == INVOICE_REQUEST_TYPE || f.typ == INVOICE_TYPE
  }

  predicate ValidPayload(curve: Curve, p: Payload) {
    && Sized(PayloadRecords(p))
    && PlainTypes(p.finals)
    && (p.replyPath.Some? ==> ValidPath(curve, p.replyPath.value))
  }

  /** No marker without a value in an unknown type, and no reply path too long for its counts. */
  predicate Survives(p: Payload) {
    && (forall f :: f in p.finals ==> Delivered(f))
    && (p.replyPath.Some? ==> Fits(p.replyPath.value))
  }

  lemma HeadAscends(p: Payload)
    ensures Ascending(HeadRecords(p)) && Distinct(HeadRecords(p))
    ensures forall r :: r in HeadRecords(p) ==> !IsFinal(r.typ)
  {
    hide PathBytes;
  }

  lemma DistinctPayload(p: Payload)
    requires AllFinal(p.finals)
    ensures Distinct(PayloadRecords(p)) <==> Distinct(p.finals)
  {
    hide HeadRecords;
    HeadAscends(p);
    DistinctConcat(HeadRecords(p), p.finals);
    forall i, j | 0 <= i < |HeadRecords(p)| && 0 <= j < |p.finals| ensures HeadRecords(p)[i].typ != p.finals[j].typ {
      assert HeadRecords(p)[i] in HeadRecords(p) && p.finals[j] in p.finals;
    }
  }

  /** What is wrong with payloads that do not encode, if not the reply path: the types are looked at first. */
  function Fault(finals: seq<Record>): TlvError {
    if exists f :: f in finals && f.typ < 64 then NotFinalPayload
    else if !Distinct(finals) then StreamNotCanonical
    else NoHops
  }

  /** Encoding fails exactly on a type below 64, a repeated type, or a path whose hop count wraps to zero. */
  lemma EncodeFails(p: Payload)
    requires Sized(PayloadRecords(p))
    ensures EncodePayload(p).Ok? <==>
            && AllFinal(p.finals) && Distinct(p.finals)
            && (p.replyPath.Some? ==> |p.replyPath.value.hops| % 256 != 0)
    ensures EncodePayload(p).Err? ==> EncodePayload(p).error == Fault(p.finals)
  {
    hide HeadRecords, PayloadRecords, SortRecords, StreamBytes, Distinct, Ascending;
    if AllFinal(p.finals) {
      DistinctPayload(p);
      SortKeeps(PayloadRecords(p));
      if Ascending(SortRecords(PayloadRecords(p))) {
        AscendingSortDistinct(PayloadRecords(p));
      }
    }
  }

  /** The records of an encodable payload, in order: path, data, final payloads by type. */
  function WireRecords(p: Payload): seq<Record> {
    HeadRecords(p) + SortRecords(p.finals)
  }

  lemma WireRecordsAscend(p: Payload)
    requires Sized(PayloadRecords(p)) && EncodePayload(p).Ok?
    ensures AllFinal(p.finals) && Distinct(p.finals) && Ascending(SortRecords(p.finals))
    ensures Ascending(WireRecords(p)) && SameRecords(WireRecords(p), PayloadRecords(p))
    ensures SortRecords(PayloadRecords(p)) == WireRecords(p)
  {
    hide HeadRecords, SortRecords, StreamBytes, PathBytes, Distinct, Ascending;
    EncodeFails(p);
    SortKeeps(p.finals);
    SortKeeps(PayloadRecords(p));
    HeadAscends(p);
    forall q, r | q in HeadRecords(p) && r in SortRecords(p.finals) ensures q.typ < r.typ {
      assert r in p.finals;
    }
    ConcatAscends(HeadRecords(p), SortRecords(p.finals));
    AscendingUnique(SortRecords(PayloadRecords(p)), WireRecords(p));
  }

  lemma HeadValid(curve: Curve, p: Payload, r: Record)
    requires p.replyPath.Some? ==>
            ValidPath(curve, p.replyPath.value) && Fits(p.replyPath.value) && PathBytes(p.replyPath.value).Ok?
    requires r in HeadRecords(p)
    ensures r.typ in SCHEMA && ValidValue(curve, SCHEMA[r.typ], r.value)
  {
    hide PathBytes, ReadPath, ValidPath, Fits;
    if r in PathRecord(p.replyPath) {
      ReadPathOfOwnBytes(curve, p.replyPath.value);
    }
  }

  lemma WireRecordsValid(curve: Curve, p: Payload)
    requires ValidPayload(curve, p) && EncodePayload(p).Ok? && (p.replyPath.Some? ==> Fits(p.replyPath.value))
    ensures Wire(curve, SCHEMA, WireRecords(p), 0)
  {
    hide EncodePayload, HeadRecords, SortRecords, PathBytes, ReadPath, ValidPath, Fits, Ascending, Distinct;
    WireRecordsAscend(p);
    EncodedPath(p);
    forall r | r in WireRecords(p) ensures r in HeadRecords(p) || r in p.finals {
      assert r in PayloadRecords(p);
    }
    forall r | r in WireRecords(p) && r.typ in SCHEMA ensures ValidValue(curve, SCHEMA[r.typ], r.value) {
      if r in HeadRecords(p) {
        HeadValid(curve, p, r);
      }
    }
  }

  lemma EncodedPath(p: Payload)
    requires Sized(PayloadRecords(p)) && EncodePayload(p).Ok?
    ensures p.replyPath.Some? ==> PathBytes(p.replyPath.value).Ok?
  {
  }

  lemma WireLookups(p: Payload)
    requires Sized(PayloadRecords(p)) && EncodePayload(p).Ok?
    ensures Lookup(WireRecords(p), REPLY_PATH_TYPE) ==
            if p.replyPath.None? then None else Some(PathBytes(p.replyPath.value).GetOr([]))
    ensures Lookup(WireRecords(p), ENCRYPTED_DATA_TYPE).GetOr([]) == p.encryptedData
  {
    hide EncodePayload, SortRecords, PathBytes;
    WireRecordsAscend(p);
    var rs := WireRecords(p);
    LookupIn(rs, REPLY_PATH_TYPE);
    LookupIn(rs, ENCRYPTED_DATA_TYPE);
    assert forall r :: r in rs <==> r in PathRecord(p.replyPath) || r in DataRecord(p.encryptedData) || r in p.finals;
    if p.replyPath.Some? {
      LookupOf(rs, PathRecord(p.replyPath)[0]);
    }
    if p.encryptedData != [] {
      LookupOf(rs, DataRecord(p.encryptedData)[0]);
    }
  }

  lemma WireFinals(p: Payload)
    requires Sized(PayloadRecords(p)) && EncodePayload(p).Ok?
    ensures Finals(WireRecords(p)) == Finals(SortRecords(p.finals))
  {
    hide EncodePayload, SortRecords, HeadRecords, Finals, Ascending;
    WireRecordsAscend(p);
    HeadAscends(p);
    FinalsElements(WireRecords(p));
    FinalsElements(SortRecords(p.finals));
    forall r ensures r in Finals(WireRecords(p)) <==> r in Finals(SortRecords(p.finals)) {
      assert r in WireRecords(p) <==> r in HeadRecords(p) || r in SortRecords(p.finals);
      assert r in HeadRecords(p) ==> !Delivered(r);
    }
    AscendingUnique(Finals(WireRecords(p)), Finals(SortRecords(p.finals)));
  }

  lemma {:induction false} FinalsOfDelivered(rs: seq<Record>)
    requires forall r :: r in rs ==> Delivered(r)
    ensures Finals(rs) == rs
  {
    if rs != [] {
      assert rs[0] in rs;
      FinalsOfDelivered(rs[1..]);
    }
  }

  /** What decoding an encoded payload gives, whenever the reply path fits. */
  lemma DecodeOfEncode(curve: Curve, p: Payload)
    requires ValidPayload(curve, p) && EncodePayload(p).Ok? && (p.replyPath.Some? ==> Fits(p.replyPath.value))
    ensures DecodePayload(curve, EncodePayload(p).value)
         == Ok(Payload(p.replyPath, p.encryptedData, Finals(SortRecords(p.finals))))
  {
    hide ReadStream, WireRecords, SortRecords, Finals, PathBytes, ReadPath, ValidPath, Fits;
    WireRecordsAscend(p);
    WireRecordsValid(curve, p);
    WireLookups(p);
    WireFinals(p);
    StreamRoundTrip(curve, SCHEMA, WireRecords(p), 0);
    EncodedPath(p);
    if p.replyPath.Some? {
      ReadPathOfOwnBytes(curve, p.replyPath.value);
    }
  }

  /** Every payload that decodes has a reply path that fits and only deliverable final payloads. */
  lemma DecodedSurvives(curve: Curve, bs: seq<byte>)
    requires DecodePayload(curve, bs).Ok?
    ensures Survives(DecodePayload(curve, bs).value)
  {
    var rs := ReadStream(curve, SCHEMA, bs, 0).value;
    FinalsElements(rs);
    var v := Lookup(rs, REPLY_PATH_TYPE);
    if v.Some? && ReadPath(curve, v.value, |v.value|).Ok? {
      ReadPathFits(curve, v.value, |v.value|);
    }
  }

  /**
   * An encodable payload comes back with its final payloads in order of type if and only
   * if no unknown-typed final payload is empty and its reply path fits its counts.
   */
  lemma PayloadRoundTrip(curve: Curve, p: Payload)
    requires ValidPayload(curve, p) && EncodePayload(p).Ok?
    ensures DecodePayload(curve, EncodePayload(p).value) == Ok(p.(finals := SortRecords(p.finals))) <==> Survives(p)
  {
    SortKeeps(p.finals);
    if Survives(p) {
      DecodeOfEncode(curve, p);
      FinalsOfDelivered(SortRecords(p.finals));
    } else if DecodePayload(curve, EncodePayload(p).value) == Ok(p.(finals := SortRecords(p.finals))) {
      DecodedSurvives(curve, EncodePayload(p).value);
    }
  }
}
