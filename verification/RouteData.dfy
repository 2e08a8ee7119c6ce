/** The data a blinded route hides for each of its hops. */
module RouteData {
  import opened Wrappers
  import opened Bytes
  import opened BigSize
  import opened Keys
  import opened Tlv

  const NEXT_NODE_TYPE: uint64 := 4
  const BLINDING_OVERRIDE_TYPE: uint64 := 8

  datatype BlindedRouteData = BlindedRouteData(nextNodeID: Option<PubKey>, nextBlindingOverride: Option<PubKey>) {
    predicate Valid(curve: Curve) {
      && (nextNodeID.Some? ==> nextNodeID.value.Valid(curve))
      && (nextBlindingOverride.Some? ==> nextBlindingOverride.value.Valid(curve))
    }
  }

  const SCHEMA: Schema := map[NEXT_NODE_TYPE := Point, BLINDING_OVERRIDE_TYPE := Point]

  function KeyRecord(typ: uint64, key: Option<PubKey>): seq<Record> {
    if key.None? then [] else [Record(typ, key.value.Compressed())]
  }

  function DataRecords(d: BlindedRouteData): seq<Record> {
    KeyRecord(NEXT_NODE_TYPE, d.nextNodeID) + KeyRecord(BLINDING_OVERRIDE_TYPE, d.nextBlindingOverride)
  }

  function EncodeData(curve: Curve, d: BlindedRouteData): seq<byte>
    requires d.Valid(curve)
  {
    StreamBytes(DataRecords(d))
  }

  function KeyOf(curve: Curve, value: Option<seq<byte>>): Option<PubKey> {
    if value.Some? && ParseCompressed(curve, value.value).Ok?
    then Some(ParseCompressed(curve, value.value).value)
    else None
  }

  function DecodeData(curve: Curve, bs: seq<byte>): Result<BlindedRouteData, TlvError> {
    var rs :- ReadStream(curve, SCHEMA, bs, 0);
    Ok(BlindedRouteData(KeyOf(curve, Lookup(rs, NEXT_NODE_TYPE)), KeyOf(curve, Lookup(rs, BLINDING_OVERRIDE_TYPE))))
  }

  method EncodeBlindedRouteData(curve: Curve, d: BlindedRouteData) returns (r: Result<seq<byte>, TlvError>)
    requires d.Valid(curve)
    ensures r == Ok(EncodeData(curve, d))
  {
    var records := [];
    if d.nextNodeID.Some? {
      records := records + [Record(NEXT_NODE_TYPE, d.nextNodeID.value.Compressed())];
    }
    if d.nextBlindingOverride.Some? {
      records := records + [Record(BLINDING_OVERRIDE_TYPE, d.nextBlindingOverride.value.Compressed())];
    }
    assert records == DataRecords(d);
    return EncodeStream(records);
  }

  /** Hidden data comes back as it was written. */
  lemma RouteDataRoundTrip(curve: Curve, d: BlindedRouteData)
    requires d.Valid(curve)
    ensures DecodeData(curve, EncodeData(curve, d)) == Ok(d)
  {
    hide ParseCompressed;
    var rs := DataRecords(d);
    if d.nextNodeID.Some? {
      CompressedRoundTrip(curve, d.nextNodeID.value);
    }
    if d.nextBlindingOverride.Some? {
      CompressedRoundTrip(curve, d.nextBlindingOverride.value);
    }
    StreamRoundTrip(curve, SCHEMA, rs, 0);
    LookupIn(rs, NEXT_NODE_TYPE);
    LookupIn(rs, BLINDING_OVERRIDE_TYPE);
  }

  lemma EncodedSize(curve: Curve, d: BlindedRouteData)
    requires d.Valid(curve)
    ensures |EncodeData(curve, d)| <= 70
  {
    var rs := DataRecords(d);
    assert forall r :: r in rs ==> |RecordBytes(r)| == 35;
    if |rs| == 2 {
      StreamOfCons(rs[0], [rs[1]]);
      assert rs == [rs[0]] + [rs[1]];
      StreamOfCons(rs[1], []);
      assert [rs[1]] == [rs[1]] + [];
    } else if |rs| == 1 {
      StreamOfCons(rs[0], []);
      assert rs == [rs[0]] + [];
    }
  }
}
