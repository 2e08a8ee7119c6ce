/** The wire formats spelled out byte by byte, with every type and size as a literal. */
module Layouts {
  import opened Wrappers
  import opened Bytes
  import opened BigSize
  import opened Keys
  import opened ReplyPath
  import opened Tlv
  import OnionPayload
  import RouteData

  // ---------- integers ----------

  /** The most significant byte comes first. */
  lemma BigEndianSpelled(a: byte, b: byte, c: byte, d: byte, e: byte, f: byte, g: byte, h: byte)
    ensures FromBE([a, b]) == a * 0x100 + b
    ensures FromBE([a, b, c, d]) == a * 0x100_0000 + b * 0x1_0000 + c * 0x100 + d
    ensures FromBE([a, b, c, d, e, f, g, h]) ==
            a * 0x100_0000_0000_0000 + b * 0x1_0000_0000_0000 + c * 0x100_0000_0000 + d * 0x1_0000_0000
            + e * 0x100_0000 + f * 0x1_0000 + g * 0x100 + h
  {
    hide FromBE;
    FromBENext([], a, [a]);
    FromBENext([a], b, [a, b]);
    FromBENext([a, b], c, [a, b, c]);
    FromBENext([a, b, c], d, [a, b, c, d]);
    FromBENext([a, b, c, d], e, [a, b, c, d, e]);
    FromBENext([a, b, c, d, e], f, [a, b, c, d, e, f]);
    FromBENext([a, b, c, d, e, f], g, [a, b, c, d, e, f, g]);
    FromBENext([a, b, c, d, e, f, g], h, [a, b, c, d, e, f, g, h]);
  }

  lemma FromBENext(front: seq<byte>, last: byte, bs: seq<byte>)
    requires bs == front + [last]
    ensures FromBE([]) == 0 && FromBE(bs) == 256 * FromBE(front) + last
  {
    assert bs[..|front|] == front;
  }

  /** Types and lengths: one byte below 253, else a marker and two, four or eight bytes of the number. */
  lemma VarIntSpelled(v: nat)
    requires v <= MAX_UINT64
    ensures v < 253 ==> WriteVarInt(v) == [v]
    ensures v >= 253 ==>
              var bs := WriteVarInt(v);
              && FromBE(bs[1..]) == v
              && |bs| == (if v < 0x1_0000 then 3 else if v < 0x1_0000_0000 then 5 else 9)
              && bs[0] == (if v < 0x1_0000 then 253 else if v < 0x1_0000_0000 then 254 else 255)
  {
    hide ToBE, FromBE;
    Pow256Values();
    if v >= 253 {
      var width := if v < 0x1_0000 then 2 else if v < 0x1_0000_0000 then 4 else 8;
      FromToBE(v, width);
      assert WriteVarInt(v)[1..] == ToBE(v, width);
    }
  }

  // ---------- records ----------

  /** A record on the wire. */
  function Entry(typ: uint64, value: seq<byte>): seq<byte>
    requires |value| <= MAX_UINT64
  {
    WriteVarInt(typ) + WriteVarInt(|value|) + value
  }

  function Entries(rs: seq<Record>): seq<byte>
    requires Sized(rs)
  {
    if rs == [] then [] else Entry(rs[0].typ, rs[0].value) + Entries(rs[1..])
  }

  lemma {:induction false} StreamSpelled(rs: seq<Record>)
    requires Sized(rs)
    ensures StreamBytes(rs) == Entries(rs)
  {
    if rs != [] {
      StreamSpelled(rs[1..]);
    }
  }

  /** A stream is written, record after record, unless a type does not exceed one before it. */
  lemma StreamIsWritten(rs: seq<Record>)
    requires Sized(rs)
    ensures EncodeStream(rs) ==
            if exists i, j :: 0 <= i < j < |rs| && rs[j].typ <= rs[i].typ then Err(StreamNotCanonical)
            else Ok(Entries(rs))
  {
    hide Entries, StreamBytes;
    StreamSpelled(rs);
  }

  lemma {:induction false} EntriesConcat(a: seq<Record>, b: seq<Record>)
    requires Sized(a) && Sized(b)
    ensures Entries(a + b) == Entries(a) + Entries(b)
  {
    hide Entry;
    if a == [] {
      assert a + b == b;
    } else {
      EntriesConcat(a[1..], b);
      assert (a + b)[1..] == a[1..] + b;
    }
  }

  lemma EntriesOfOne(typ: uint64, value: seq<byte>)
    requires |value| <= MAX_UINT64
    ensures Entries([Record(typ, value)]) == Entry(typ, value)
  {
    hide Entry;
    assert [Record(typ, value)][1..] == [];
  }

  // ---------- reply paths ----------

  /** A hop: its key, two bytes that count its data, and the data. */
  function HopSpelled(h: BlindedHop): seq<byte> {
    h.blindedNodeID.Compressed() + [|h.encryptedData| / 256 % 256, |h.encryptedData| % 256] + h.encryptedData
  }

  function HopsSpelled(hops: seq<BlindedHop>): seq<byte> {
    if hops == [] then [] else HopSpelled(hops[0]) + HopsSpelled(hops[1..])
  }

  /** Two keys, a byte that counts the hops, and the hops. */
  function PathSpelled(p: Path): seq<byte> {
    p.firstNodeID.Compressed() + p.blindingPoint.Compressed() + [|p.hops| % 256] + HopsSpelled(p.hops)
  }

  lemma HopIsSpelled(h: BlindedHop)
    ensures HopBytes(h) == HopSpelled(h)
  {
    var n := |h.encryptedData| % 0x1_0000;
    assert n / 256 == |h.encryptedData| / 256 % 256 && n % 256 == |h.encryptedData| % 256;
    assert ToBE(n / 256, 1) == ToBE(n / 256 / 256, 0) + [n / 256 % 256];
    assert ToBE(n, 2) == [n / 256 % 256, n % 256];
  }

  lemma {:induction false} HopsSnoc(hops: seq<BlindedHop>, h: BlindedHop)
    ensures HopsSpelled(hops + [h]) == HopsSpelled(hops) + HopSpelled(h)
  {
    hide HopSpelled;
    if hops == [] {
      assert [h][1..] == [] && [] + [h] == [h];
    } else {
      HopsSnoc(hops[1..], h);
      assert (hops + [h])[1..] == hops[1..] + [h];
    }
  }

  lemma {:induction false} HopsAreSpelled(hops: seq<BlindedHop>)
    ensures HopsBytes(hops) == HopsSpelled(hops)
  {
    hide HopSpelled, HopBytes;
    if hops != [] {
      var front, last := hops[..|hops| - 1], hops[|hops| - 1];
      HopsAreSpelled(front);
      HopIsSpelled(last);
      HopsSnoc(front, last);
      assert front + [last] == hops;
    }
  }

  /** A path encodes to its spelling unless the byte that counts its hops comes to zero. */
  lemma PathIsSpelled(p: Path)
    ensures PathBytes(p) == if |p.hops| % 256 == 0 then Err(NoHops) else Ok(PathSpelled(p))
  {
    HopsAreSpelled(p.hops);
  }

  /** A path that fits its counts is read from the front of its spelling, if its record is announced long enough. */
  lemma PathIsRead(curve: Curve, p: Path, rest: seq<byte>, length: nat)
    requires ValidPath(curve, p) && 1 <= |p.hops| <= 255 && forall h :: h in p.hops ==> |h.encryptedData| <= 65535
    ensures ReadPath(curve, PathSpelled(p) + rest, length) == if length <= 35 then Err(BadLength) else Ok((p, rest))
  {
    hide PathBytes, HopsSize, ReadHops, ReadKey;
    PathIsSpelled(p);
    ReadPathOfBytes(curve, p, rest);
    AnyLength(curve, PathSpelled(p) + rest, length, PathSize(p));
  }

  lemma AnyLength(curve: Curve, bs: seq<byte>, a: nat, b: nat)
    requires b > 35
    ensures ReadPath(curve, bs, a) == if a <= 35 then Err(BadLength) else ReadPath(curve, bs, b)
  {
    hide ReadHops, ReadKey;
  }

  /** And nothing else is read as a path. */
  lemma ReadPathIsSpelled(curve: Curve, bs: seq<byte>, length: nat)
    requires ReadPath(curve, bs, length).Ok?
    ensures var (p, rest) := ReadPath(curve, bs, length).value;
            && length > 35 && bs == PathSpelled(p) + rest && ValidPath(curve, p)
            && 1 <= |p.hops| <= 255 && forall h :: h in p.hops ==> |h.encryptedData| <= 65535
  {
    hide PathBytes;
    ReadPathFits(curve, bs, length);
    BytesOfReadPath(curve, bs, length);
    PathIsSpelled(ReadPath(curve, bs, length).value.0);
  }

  // ---------- hidden data ----------

  /** The hidden data of a hop: type 4 names the next node, type 8 switches the ephemeral. */
  lemma RouteDataIsSpelled(curve: Curve, d: RouteData.BlindedRouteData)
    requires d.Valid(curve)
    ensures RouteData.EncodeData(curve, d) ==
            (if d.nextNodeID.Some? then [4, 33] + d.nextNodeID.value.Compressed() else []) +
            (if d.nextBlindingOverride.Some? then [8, 33] + d.nextBlindingOverride.value.Compressed() else [])
  {
    hide Entry;
    StreamSpelled(RouteData.DataRecords(d));
    KeySpelled(4, d.nextNodeID);
    KeySpelled(8, d.nextBlindingOverride);
    EntriesConcat(RouteData.KeyRecord(4, d.nextNodeID), RouteData.KeyRecord(8, d.nextBlindingOverride));
  }

  lemma KeySpelled(typ: uint64, key: Option<PubKey>)
    requires typ < 253 && (key.Some? ==> |key.value.x| == 32)
    ensures Sized(RouteData.KeyRecord(typ, key))
    ensures Entries(RouteData.KeyRecord(typ, key)) ==
            if key.Some? then [typ, 33] + key.value.Compressed() else []
  {
    if key.Some? {
      EntriesOfOne(typ, key.value.Compressed());
      assert [typ] + [33] == [typ, 33];
    }
  }

  /**
   * Hidden data reads exactly when the values under types 4 and 8 are points, whatever other records
   * stand beside them, and those two points are all that is read.
   */
  lemma RouteDataIsRead(curve: Curve, rs: seq<Record>)
    requires Ascending(rs) && Sized(rs)
    ensures var read := RouteData.DecodeData(curve, Entries(rs));
            var node, override := Lookup(rs, 4), Lookup(rs, 8);
            && (read.Ok? <==> (node.Some? ==> ParseCompressed(curve, node.value).Ok?)
                              && (override.Some? ==> ParseCompressed(curve, override.value).Ok?))
            && (read.Ok? ==>
                  && read.value.nextNodeID
                     == (if node.None? then None else Some(ParseCompressed(curve, node.value).value))
                  && read.value.nextBlindingOverride
                     == (if override.None? then None else Some(ParseCompressed(curve, override.value).value)))
  {
    hide ReadStream, StreamBytes, Lookup, Entries, ParseCompressed;
    StreamSpelled(rs);
    LookupIn(rs, 4);
    LookupIn(rs, 8);
    forall r | r in rs && (r.typ == 4 || r.typ == 8) ensures Lookup(rs, r.typ) == Some(r.value) {
      LookupOf(rs, r);
    }
    if ValidRecords(curve, RouteData.SCHEMA, rs) {
      StreamRoundTrip(curve, RouteData.SCHEMA, rs, 0);
    } else if ReadStream(curve, RouteData.SCHEMA, StreamBytes(rs), 0).Ok? {
      StreamUnique(curve, RouteData.SCHEMA, StreamBytes(rs), 0);
      StreamInjective(rs, ReadStream(curve, RouteData.SCHEMA, StreamBytes(rs), 0).value);
    }
  }

  // ---------- payloads of a hop ----------

  /** What a hop's payload may hold: final payloads of types from 64 on, each once, and a path that can be counted. */
  predicate Holdable(p: OnionPayload.Payload) {
    && (forall f :: f in p.finals ==> f.typ >= 64)
    && (forall i, j :: 0 <= i < j < |p.finals| ==> p.finals[i].typ != p.finals[j].typ)
    && (p.replyPath.Some? ==> |p.replyPath.value.hops| % 256 != 0)
  }

  predicate SizedParts(p: OnionPayload.Payload) {
    && |p.encryptedData| <= MAX_UINT64 && Sized(p.finals)
    && (p.replyPath.Some? ==> |PathSpelled(p.replyPath.value)| <= MAX_UINT64)
  }

  /** The reply path under type 2, the hidden data under type 4, then the final payloads. */
  function PayloadSpelled(p: OnionPayload.Payload, finals: seq<Record>): seq<byte>
    requires SizedParts(p) && Sized(finals)
  {
    (if p.replyPath.None? then [] else Entry(2, PathSpelled(p.replyPath.value))) +
    (if p.encryptedData == [] then [] else Entry(4, p.encryptedData)) +
    Entries(finals)
  }

  lemma PartsSized(p: OnionPayload.Payload)
    requires SizedParts(p)
    ensures Sized(OnionPayload.PayloadRecords(p))
  {
    hide PathSpelled, PathBytes;
    if p.replyPath.Some? {
      PathIsSpelled(p.replyPath.value);
    }
  }

  lemma HeadSpelled(p: OnionPayload.Payload)
    requires SizedParts(p) && Holdable(p)
    ensures Sized(OnionPayload.HeadRecords(p))
    ensures Entries(OnionPayload.HeadRecords(p)) ==
            (if p.replyPath.None? then [] else Entry(2, PathSpelled(p.replyPath.value))) +
            (if p.encryptedData == [] then [] else Entry(4, p.encryptedData))
  {
    hide PathSpelled, PathBytes, Entry;
    if p.replyPath.Some? {
      PathIsSpelled(p.replyPath.value);
      EntriesOfOne(2, PathSpelled(p.replyPath.value));
    }
    EntriesOfOne(4, p.encryptedData);
    EntriesConcat(OnionPayload.PathRecord(p.replyPath), OnionPayload.DataRecord(p.encryptedData));
  }

  /** A payload encodes to its spelling, with the final payloads in order of type. */
  lemma PayloadIsSpelled(p: OnionPayload.Payload, finals: seq<Record>)
    requires SizedParts(p) && Holdable(p) && Sized(finals)
    requires Ascending(finals) && forall r :: r in finals <==> r in p.finals
    ensures Sized(OnionPayload.PayloadRecords(p))
    ensures OnionPayload.EncodePayload(p) == Ok(PayloadSpelled(p, finals))
  {
    hide OnionPayload.HeadRecords, OnionPayload.EncodePayload, Entries, SortRecords, PathSpelled;
    PartsSized(p);
    OnionPayload.EncodeFails(p);
    OnionPayload.WireRecordsAscend(p);
    SortKeeps(p.finals);
    AscendingUnique(SortRecords(p.finals), finals);
    EncodedIsStream(p);
    HeadSpelled(p);
    StreamSpelled(OnionPayload.WireRecords(p));
    EntriesConcat(OnionPayload.HeadRecords(p), finals);
  }

  lemma EncodedIsStream(p: OnionPayload.Payload)
    requires Sized(OnionPayload.PayloadRecords(p)) && OnionPayload.EncodePayload(p).Ok?
    ensures Sized(OnionPayload.WireRecords(p))
    ensures OnionPayload.EncodePayload(p) == Ok(StreamBytes(OnionPayload.WireRecords(p)))
  {
    hide StreamBytes, SortRecords, OnionPayload.HeadRecords;
    OnionPayload.WireRecordsAscend(p);
  }

  // ---------- payloads as they are read ----------

  /** Records on the wire that announce these lengths. */
  function Announced(rs: seq<Record>, ns: seq<uint64>): seq<byte>
    requires |rs| == |ns|
  {
    if rs == [] then []
    else WriteVarInt(rs[0].typ) + WriteVarInt(ns[0]) + rs[0].value + Announced(rs[1..], ns[1..])
  }

  /** A path of points that the byte for its hops and the two bytes for each hop's data can count. */
  predicate Countable(curve: Curve, p: Path) {
    ValidPath(curve, p) && 1 <= |p.hops| <= 255 && forall h :: h in p.hops ==> |h.encryptedData| <= 65535
  }

  /**
   * A record of type 2 holds the reply path and announces more than 35 bytes, no matter how many; every
   * other record announces its own length.
   */
  predicate Announces(r: Record, n: uint64, path: Option<Path>) {
    if r.typ == 2 then n > 35 && path.Some? && r.value == PathSpelled(path.value) else n == |r.value|
  }

  predicate Readable(curve: Curve, rs: seq<Record>, ns: seq<uint64>, path: Option<Path>) {
    && |rs| == |ns| && Ascending(rs)
    && (path.Some? ==> Countable(curve, path.value))
    && forall i :: 0 <= i < |rs| ==> Announces(rs[i], ns[i], path)
  }

  lemma ValueAnnounced(curve: Curve, r: Record, n: uint64, path: Option<Path>, tail: seq<byte>)
    requires Announces(r, n, path) && (path.Some? ==> Countable(curve, path.value))
    ensures ReadAny(curve, OnionPayload.SCHEMA, r.typ, r.value + tail, n) == Ok((r.value, tail))
  {
    hide PathSpelled, ReadPath, PathBytes;
    if r.typ == 2 {
      PathIsRead(curve, path.value, tail, n);
      PathIsSpelled(path.value);
    } else {
      assert (r.value + tail)[..n] == r.value && (r.value + tail)[n..] == tail;
    }
  }

  lemma RecordAnnounced(curve: Curve, r: Record, n: uint64, path: Option<Path>, tail: seq<byte>, min: nat)
    requires Announces(r, n, path) && (path.Some? ==> Countable(curve, path.value)) && min <= r.typ
    ensures ReadRecord(curve, OnionPayload.SCHEMA, WriteVarInt(r.typ) + WriteVarInt(n) + r.value + tail, min)
            == Ok((r, tail))
  {
    hide WriteVarInt, ReadVarInt, ReadAny, Announces;
    var bs := WriteVarInt(r.typ) + WriteVarInt(n) + r.value + tail;
    ValueAnnounced(curve, r, n, path, tail);
    VarIntRoundTrip(r.typ, WriteVarInt(n) + r.value + tail);
    VarIntRoundTrip(n, r.value + tail);
    NotEmpty(n);
    assert bs == WriteVarInt(r.typ) + (WriteVarInt(n) + r.value + tail);
    assert WriteVarInt(n) + r.value + tail == WriteVarInt(n) + (r.value + tail);
  }

  lemma NotEmpty(n: uint64)
    ensures WriteVarInt(n) != []
  {
  }

  /** A record that reads, in front of a stream that reads. */
  lemma StreamStep(curve: Curve, bs: seq<byte>, r: Record, tail: seq<byte>, rs: seq<Record>, min: nat)
    requires bs != [] && ReadRecord(curve, OnionPayload.SCHEMA, bs, min) == Ok((r, tail))
    requires ReadStream(curve, OnionPayload.SCHEMA, tail, r.typ + 1) == Ok(rs)
    ensures ReadStream(curve, OnionPayload.SCHEMA, bs, min) == Ok([r] + rs)
  {
    hide ReadRecord;
  }

  lemma {:induction false} StreamAnnounced(curve: Curve, rs: seq<Record>, ns: seq<uint64>, path: Option<Path>, min: nat)
    requires Readable(curve, rs, ns, path) && From(rs, min)
    ensures ReadStream(curve, OnionPayload.SCHEMA, Announced(rs, ns), min) == Ok(rs)
    decreases |rs|
  {
    hide WriteVarInt, ReadRecord, Announces, Countable;
    if rs == [] {
      assert Announced(rs, ns) == [];
    } else {
      TailAscends(rs);
      assert rs[0] in rs && [rs[0]] + rs[1..] == rs;
      StreamAnnounced(curve, rs[1..], ns[1..], path, rs[0].typ + 1);
      hide ReadStream;
      var tail := Announced(rs[1..], ns[1..]);
      RecordAnnounced(curve, rs[0], ns[0], path, tail, min);
      NotEmpty(rs[0].typ);
      StreamStep(curve, Announced(rs, ns), rs[0], tail, rs[1..], min);
    }
  }

  /** What a decoded payload must be, given the records read. */
  predicate ReadsAs(read: Result<OnionPayload.Payload, TlvError>, rs: seq<Record>, path: Option<Path>) {
    && read.Ok? && read.value.replyPath == path
    && read.value.encryptedData == Lookup(rs, 4).GetOr([])
    && Ascending(read.value.finals)
    && (forall r :: r in read.value.finals ==> r in rs && r.typ >= 64 && (r.typ == 64 || r.typ == 66 || r.value != []))
    && (forall r :: r in rs && r.typ >= 64 && (r.typ == 64 || r.typ == 66 || r.value != []) ==> r in read.value.finals)
  }

  lemma DecodedReadsAs(curve: Curve, bs: seq<byte>, rs: seq<Record>, path: Option<Path>)
    requires ReadStream(curve, OnionPayload.SCHEMA, bs, 0) == Ok(rs)
    requires path.Some? ==> Countable(curve, path.value)
    requires Lookup(rs, 2) == if path.None? then None else Some(PathSpelled(path.value))
    ensures ReadsAs(OnionPayload.DecodePayload(curve, bs), rs, path)
  {
    hide ReadStream, Lookup, PathSpelled, ReadPath, OnionPayload.Finals;
    StreamAscends(curve, OnionPayload.SCHEMA, bs, 0);
    if path.Some? {
      PathIsRead(curve, path.value, [], |PathSpelled(path.value)|);
      PathIsLong(path.value);
      assert PathSpelled(path.value) + [] == PathSpelled(path.value);
    }
    OnionPayload.FinalsElements(rs);
  }

  lemma PathIsLong(p: Path)
    requires |p.firstNodeID.x| == 32 && |p.blindingPoint.x| == 32
    ensures |PathSpelled(p)| > 35
  {
  }

  /**
   * Whatever other records stand beside it, a reply path that can be counted is read from type 2, the
   * hidden data from type 4, and every record from type 64 on is a final payload, if its type is 64 or 66 or
   * it is not empty. The length that the path's record announces only has to exceed 35.
   */
  lemma PayloadIsRead(curve: Curve, rs: seq<Record>, ns: seq<uint64>, path: Option<Path>)
    requires Readable(curve, rs, ns, path) && (path.Some? <==> exists r :: r in rs && r.typ == 2)
    ensures ReadsAs(OnionPayload.DecodePayload(curve, Announced(rs, ns)), rs, path)
  {
    hide Announced, PathSpelled, Lookup, Countable;
    StreamAnnounced(curve, rs, ns, path, 0);
    LookupIn(rs, 2);
    if r :| r in rs && r.typ == 2 {
      LookupOf(rs, r);
      var i :| 0 <= i < |rs| && rs[i] == r;
      assert Announces(rs[i], ns[i], path);
    }
    DecodedReadsAs(curve, Announced(rs, ns), rs, path);
  }

  /** One record that reads announced its length, and a path is what it holds under type 2. */
  lemma ReadAnnounces(curve: Curve, bs: seq<byte>, min: nat) returns (n: uint64, path: Option<Path>)
    requires ReadRecord(curve, OnionPayload.SCHEMA, bs, min).Ok?
    ensures var (r, rest) := ReadRecord(curve, OnionPayload.SCHEMA, bs, min).value;
            && bs == WriteVarInt(r.typ) + WriteVarInt(n) + r.value + rest
            && Announces(r, n, path) && (path.Some? ==> Countable(curve, path.value)) && (path.Some? <==> r.typ == 2)
  {
    hide WriteVarInt, ReadVarInt, ReadPath, PathSpelled, PathBytes;
    var (typ, afterType) := ReadVarInt(bs).value;
    VarIntUnique(bs);
    var (length, afterLength) := ReadLength(afterType).value;
    VarIntUnique(afterType);
    n := length;
    if typ == 2 {
      var (p, rest) := ReadPath(curve, afterLength, length).value;
      ReadPathIsSpelled(curve, afterLength, length);
      PathIsSpelled(p);
      path := Some(p);
    } else {
      path := None;
    }
    var (r, rest) := ReadRecord(curve, OnionPayload.SCHEMA, bs, min).value;
    assert afterLength == r.value + rest;
    assert bs == WriteVarInt(typ) + (WriteVarInt(length) + (r.value + rest));
  }

  lemma {:induction false} ReadStreamAnnounces(curve: Curve, bs: seq<byte>, min: nat)
    returns (ns: seq<uint64>, path: Option<Path>)
    requires ReadStream(curve, OnionPayload.SCHEMA, bs, min).Ok?
    ensures var rs := ReadStream(curve, OnionPayload.SCHEMA, bs, min).value;
            && Readable(curve, rs, ns, path) && From(rs, min) && bs == Announced(rs, ns)
            && (path.Some? <==> exists r :: r in rs && r.typ == 2)
    decreases |bs|
  {
    hide WriteVarInt, ReadRecord, Announces, Countable;
    StreamAscends(curve, OnionPayload.SCHEMA, bs, min);
    if bs == [] {
      ns, path := [], None;
    } else {
      var (r, rest) := ReadRecord(curve, OnionPayload.SCHEMA, bs, min).value;
      var n, own := ReadAnnounces(curve, bs, min);
      var tail := ReadStream(curve, OnionPayload.SCHEMA, rest, r.typ + 1).value;
      var ms, other := ReadStreamAnnounces(curve, rest, r.typ + 1);
      ns, path := [n] + ms, if own.Some? then own else other;
      assert ([r] + tail)[1..] == tail && ns[1..] == ms;
      forall i | 0 <= i < |ns| ensures Announces(([r] + tail)[i], ns[i], path) {
        if i == 0 {
          OtherPath(r, n, own, path);
        } else {
          assert tail[i - 1] in tail;
          OtherPath(tail[i - 1], ms[i - 1], other, path);
        }
      }
      if own.Some? {
        assert r in [r] + tail;
      }
    }
  }

  /** Which path goes with a record matters for type 2 alone. */
  lemma OtherPath(r: Record, n: uint64, path: Option<Path>, other: Option<Path>)
    requires Announces(r, n, path) && (r.typ == 2 ==> other == path)
    ensures Announces(r, n, other)
  {
  }

  /** And whatever decodes was records like that. */
  lemma DecodedIsReadable(curve: Curve, bs: seq<byte>) returns (rs: seq<Record>, ns: seq<uint64>, path: Option<Path>)
    requires OnionPayload.DecodePayload(curve, bs).Ok?
    ensures Readable(curve, rs, ns, path) && (path.Some? <==> exists r :: r in rs && r.typ == 2)
    ensures bs == Announced(rs, ns) && ReadsAs(OnionPayload.DecodePayload(curve, bs), rs, path)
  {
    hide ReadStream, Readable, Announced, ReadsAs;
    rs := ReadStream(curve, OnionPayload.SCHEMA, bs, 0).value;
    ns, path := ReadStreamAnnounces(curve, bs, 0);
    PayloadIsRead(curve, rs, ns, path);
  }
}
