/** The reply path record: a blinded route that its reader can answer along. */
module ReplyPath {
  import opened Wrappers
  import opened Bytes
  import opened BigSize
  import opened Keys

  datatype BlindedHop = BlindedHop(blindedNodeID: PubKey, encryptedData: seq<byte>)

  datatype Path = Path(firstNodeID: PubKey, blindingPoint: PubKey, hops: seq<BlindedHop>)

  predicate ValidHop(curve: Curve, h: BlindedHop) {
    h.blindedNodeID.Valid(curve)
  }

  /** Every key is a point: what a path built from parsed keys always satisfies. */
  predicate ValidPath(curve: Curve, p: Path) {
    && p.firstNodeID.Valid(curve)
    && p.blindingPoint.Valid(curve)
    && forall h :: h in p.hops ==> ValidHop(curve, h)
  }

  /** The one-byte hop count and the two-byte data lengths can hold what they count. */
  predicate Fits(p: Path) {
    |p.hops| <= 255 && forall h :: h in p.hops ==> |h.encryptedData| <= 0xffff
  }

  // ---------- sizes ----------

  function HopSize(h: BlindedHop): nat {
    33 + 2 + |h.encryptedData|
  }

  function HopsSize(hops: seq<BlindedHop>): nat {
    if hops == [] then 0 else HopsSize(hops[..|hops| - 1]) + HopSize(hops[|hops| - 1])
  }

  function PathSize(p: Path): nat {
    33 + 33 + 1 + HopsSize(p.hops)
  }

  method Size(p: Path) returns (size: nat)
    ensures size == PathSize(p)
  {
    size := 33 + 33 + 1;
    for i := 0 to |p.hops|
      invariant size == 67 + HopsSize(p.hops[..i])
    {
      assert p.hops[..i + 1][..i] == p.hops[..i];
      size := size + HopSize(p.hops[i]);
    }
    assert p.hops[..|p.hops|] == p.hops;
  }

  // ---------- encoding ----------

  /** A hop; the data length keeps only its low sixteen bits. */
  function HopBytes(h: BlindedHop): seq<byte> {
    h.blindedNodeID.Compressed() + ToBE(|h.encryptedData| % 0x1_0000, 2) + h.encryptedData
  }

  function HopsBytes(hops: seq<BlindedHop>): seq<byte> {
    if hops == [] then [] else HopsBytes(hops[..|hops| - 1]) + HopBytes(hops[|hops| - 1])
  }

  /** A path; the hop count keeps only its low eight bits, and fails when those are zero. */
  function PathBytes(p: Path): Result<seq<byte>, TlvError> {
    var count := |p.hops| % 256;
    if count == 0 then Err(NoHops)
    else Ok(p.firstNodeID.Compressed() + p.blindingPoint.Compressed() + [count] + HopsBytes(p.hops))
  }

  method EncodeBlindedHop(w: seq<byte>, h: BlindedHop) returns (w': seq<byte>)
    ensures w' == w + HopBytes(h)
  {
    w' := w + h.blindedNodeID.Compressed();
    var dataLen := |h.encryptedData| % 0x1_0000;
    w' := w' + ToBE(dataLen, 2);
    w' := w' + h.encryptedData;
  }

  method EncodeReplyPath(p: Path) returns (r: Result<seq<byte>, TlvError>)
    ensures r == PathBytes(p)
  {
    var w := p.firstNodeID.Compressed();
    w := w + p.blindingPoint.Compressed();
    var hopCount := |p.hops| % 256;
    if hopCount == 0 {
      return Err(NoHops);
    }
    w := w + [hopCount];
    ghost var header := w;
    for i := 0 to |p.hops|
      invariant w == header + HopsBytes(p.hops[..i])
    {
      w := EncodeBlindedHop(w, p.hops[i]);
      assert p.hops[..i + 1][..i] == p.hops[..i];
    }
    assert p.hops[..|p.hops|] == p.hops;
    return Ok(w);
  }

  // ---------- decoding ----------

  function ReadHop(curve: Curve, bs: seq<byte>): Result<(BlindedHop, seq<byte>), TlvError> {
    var (id, rest) :- ReadKey(curve, bs);
    var (size, rest') :- Take(rest, 2);
    var (data, rest'') :- Take(rest', FromBE(size));
    Ok((BlindedHop(id, data), rest''))
  }

  function ReadHops(curve: Curve, n: nat, bs: seq<byte>): (r: Result<(seq<BlindedHop>, seq<byte>), TlvError>)
    ensures r.Ok? ==> |r.value.0| == n
  {
    if n == 0 then Ok(([], bs)) else
    var (hops, rest) :- ReadHops(curve, n - 1, bs);
    var (hop, rest') :- ReadHop(curve, rest);
    Ok((hops + [hop], rest'))
  }

  /**
   * The path at the front of the input. The record length only gates the read: the hop
   * count and data lengths inside decide how much is consumed.
   */
  function ReadPath(curve: Curve, bs: seq<byte>, length: nat): Result<(Path, seq<byte>), TlvError> {
    if length <= 35 then Err(BadLength) else
    var (first, rest) :- ReadKey(curve, bs);
    var (blinding, rest') :- ReadKey(curve, rest);
    var (count, rest'') :- Take(rest', 1);
    if count[0] == 0 then Err(NoHops) else
    var (hops, tail) :- ReadHops(curve, count[0], rest'');
    Ok((Path(first, blinding, hops), tail))
  }

  lemma ReadHopsFails(curve: Curve, m: nat, n: nat, bs: seq<byte>)
    requires m <= n && ReadHops(curve, m, bs).Err?
    ensures ReadHops(curve, n, bs) == ReadHops(curve, m, bs)
  {
    if m < n {
      ReadHopsFails(curve, m, n - 1, bs);
    }
  }

  method DecodeReplyPath(curve: Curve, bs: seq<byte>, length: nat)
    returns (r: Result<(Path, seq<byte>), TlvError>)
    ensures r == ReadPath(curve, bs, length)
  {
    if length <= 35 {
      return Err(BadLength);
    }
    var first :- ReadKey(curve, bs);
    var blinding :- ReadKey(curve, first.1);
    var count :- Take(blinding.1, 1);
    var hopCount, body := count.0[0], count.1;
    if hopCount == 0 {
      return Err(NoHops);
    }
    var hops, rest := [], body;
    for i := 0 to hopCount
      invariant ReadHops(curve, i, body) == Ok((hops, rest))
    {
      var hop := ReadHop(curve, rest);
      if hop.Err? {
        ReadHopsFails(curve, i + 1, hopCount, body);
        return Err(hop.error);
      }
      hops, rest := hops + [hop.value.0], hop.value.1;
    }
    return Ok((Path(first.0, blinding.0, hops), rest));
  }

  // ---------- laws ----------

  lemma {:induction false} HopsBytesSize(curve: Curve, hops: seq<BlindedHop>)
    requires forall h :: h in hops ==> ValidHop(curve, h)
    ensures |HopsBytes(hops)| == HopsSize(hops)
  {
    if hops == [] {
    } else {
      assert ValidHop(curve, hops[|hops| - 1]);
      HopsBytesSize(curve, hops[..|hops| - 1]);
    }
  }

  /** The size the record announces is the number of bytes it writes, even when counts wrap. */
  lemma SizeIsBytesWritten(curve: Curve, p: Path)
    requires ValidPath(curve, p) && PathBytes(p).Ok?
    ensures |PathBytes(p).value| == PathSize(p)
  {
    HopsBytesSize(curve, p.hops);
  }

  lemma ReadHopOfBytes(curve: Curve, h: BlindedHop, tail: seq<byte>)
    requires ValidHop(curve, h) && |h.encryptedData| <= 0xffff
    ensures ReadHop(curve, HopBytes(h) + tail) == Ok((h, tail))
  {
    Pow256Values();
    var size := ToBE(|h.encryptedData|, 2);
    var rest := size + h.encryptedData + tail;
    assert HopBytes(h) + tail == h.blindedNodeID.Compressed() + rest;
    ReadKeyOfCompressed(curve, h.blindedNodeID, rest);
    assert rest[..2] == size && rest[2..] == h.encryptedData + tail;
    FromToBE(|h.encryptedData|, 2);
    assert (h.encryptedData + tail)[..|h.encryptedData|] == h.encryptedData;
    assert (h.encryptedData + tail)[|h.encryptedData|..] == tail;
  }

  lemma {:induction false} ReadHopsOfBytes(curve: Curve, hops: seq<BlindedHop>, tail: seq<byte>)
    requires forall h :: h in hops ==> ValidHop(curve, h) && |h.encryptedData| <= 0xffff
    ensures ReadHops(curve, |hops|, HopsBytes(hops) + tail) == Ok((hops, tail))
  {
    hide ReadHop, HopBytes, ValidHop;
    if hops == [] {
      assert HopsBytes(hops) + tail == tail;
    } else {
      var front, last := hops[..|hops| - 1], hops[|hops| - 1];
      ReadHopsOfBytes(curve, front, HopBytes(last) + tail);
      assert HopsBytes(front) + (HopBytes(last) + tail) == HopsBytes(hops) + tail;
      ReadHopOfBytes(curve, last, tail);
      assert front + [last] == hops;
    }
  }

  /** Everything read has counts that fit, whatever the input was. */
  lemma {:induction false} ReadHopsFit(curve: Curve, n: nat, bs: seq<byte>)
    requires ReadHops(curve, n, bs).Ok?
    ensures forall h :: h in ReadHops(curve, n, bs).value.0 ==> ValidHop(curve, h) && |h.encryptedData| <= 0xffff
  {
    if n == 0 {
    } else {
      ReadHopsFit(curve, n - 1, bs);
      var rest := ReadHops(curve, n - 1, bs).value.1;
      CompressedOfReadKey(curve, rest);
      Pow256Values();
      ToFromBE(ReadKey(curve, rest).value.1[..2]);
    }
  }

  lemma ReadPathFits(curve: Curve, bs: seq<byte>, length: nat)
    requires ReadPath(curve, bs, length).Ok?
    ensures var p := ReadPath(curve, bs, length).value.0;
            ValidPath(curve, p) && Fits(p) && p.hops != []
  {
    CompressedOfReadKey(curve, bs);
    var rest := ReadKey(curve, bs).value.1;
    CompressedOfReadKey(curve, rest);
    var rest' := ReadKey(curve, rest).value.1;
    ReadHopsFit(curve, rest'[0], rest'[1..]);
  }

  lemma ReadPathOfBytes(curve: Curve, p: Path, tail: seq<byte>)
    requires ValidPath(curve, p) && PathBytes(p).Ok? && Fits(p)
    ensures ReadPath(curve, PathBytes(p).value + tail, PathSize(p)) == Ok((p, tail))
  {
    var rest'' := HopsBytes(p.hops) + tail;
    var rest' := [|p.hops|] + rest'';
    var rest := p.blindingPoint.Compressed() + rest';
    assert PathBytes(p).value + tail == p.firstNodeID.Compressed() + rest;
    ReadKeyOfCompressed(curve, p.firstNodeID, rest);
    ReadKeyOfCompressed(curve, p.blindingPoint, rest');
    assert rest'[..1] == [|p.hops|] && rest'[1..] == rest'';
    ReadHopsOfBytes(curve, p.hops, tail);
  }

  lemma ReadPathOfOwnBytes(curve: Curve, p: Path)
    requires ValidPath(curve, p) && PathBytes(p).Ok? && Fits(p)
    ensures var v := PathBytes(p).value; ReadPath(curve, v, |v|) == Ok((p, []))
  {
    SizeIsBytesWritten(curve, p);
    ReadPathOfBytes(curve, p, []);
    assert PathBytes(p).value + [] == PathBytes(p).value;
  }

  /**
   * A path that encodes comes back, with exactly its own bytes consumed, if and only if its
   * counts fit; a longer path encodes without an error and is misread.
   */
  lemma ReplyPathRoundTrip(curve: Curve, p: Path, tail: seq<byte>)
    requires ValidPath(curve, p) && PathBytes(p).Ok?
    ensures ReadPath(curve, PathBytes(p).value + tail, PathSize(p)) == Ok((p, tail)) <==> Fits(p)
  {
    var bs := PathBytes(p).value + tail;
    if Fits(p) {
      ReadPathOfBytes(curve, p, tail);
    } else if ReadPath(curve, bs, PathSize(p)).Ok? {
      ReadPathFits(curve, bs, PathSize(p));
    }
  }

  lemma BytesOfReadHop(curve: Curve, bs: seq<byte>)
    requires ReadHop(curve, bs).Ok?
    ensures var (h, rest) := ReadHop(curve, bs).value;
            bs == HopBytes(h) + rest
  {
    hide ReadKey;
    var (id, rest) := ReadKey(curve, bs).value;
    CompressedOfReadKey(curve, bs);
    Pow256Values();
    ToFromBE(rest[..2]);
    var n := FromBE(rest[..2]);
    assert ReadHop(curve, bs).value == (BlindedHop(id, rest[2..][..n]), rest[2..][n..]);
    assert rest == rest[..2] + (rest[2..][..n] + rest[2..][n..]);
    assert bs == id.Compressed() + rest[..2] + rest[2..][..n] + rest[2..][n..];
  }

  lemma {:induction false} BytesOfReadHops(curve: Curve, n: nat, bs: seq<byte>)
    requires ReadHops(curve, n, bs).Ok?
    ensures var (hops, rest) := ReadHops(curve, n, bs).value;
            bs == HopsBytes(hops) + rest
  {
    if n == 0 {
    } else {
      BytesOfReadHops(curve, n - 1, bs);
      var (hops, rest) := ReadHops(curve, n - 1, bs).value;
      BytesOfReadHop(curve, rest);
      var (hop, rest') := ReadHop(curve, rest).value;
      assert (hops + [hop])[..n - 1] == hops;
      assert HopsBytes(hops) + (HopBytes(hop) + rest') == HopsBytes(hops + [hop]) + rest';
    }
  }

  /** What is read is the only path whose encoding is the bytes consumed. */
  lemma BytesOfReadPath(curve: Curve, bs: seq<byte>, length: nat)
    requires ReadPath(curve, bs, length).Ok?
    ensures var (p, rest) := ReadPath(curve, bs, length).value;
            PathBytes(p).Ok? && bs == PathBytes(p).value + rest
  {
    hide ReadKey, ReadHops, HopsBytes;
    var (first, rest) := ReadKey(curve, bs).value;
    var (blinding, rest') := ReadKey(curve, rest).value;
    var count := rest'[0];
    var (hops, tail) := ReadHops(curve, count, rest'[1..]).value;
    var body := HopsBytes(hops);
    assert rest' == [count] + body + tail by {
      BytesOfReadHops(curve, count, rest'[1..]);
    }
    assert bs == first.Compressed() + (blinding.Compressed() + rest') by {
      CompressedOfReadKey(curve, bs);
      CompressedOfReadKey(curve, rest);
    }
    assert |hops| % 256 == count;
    assert ReadPath(curve, bs, length).value == (Path(first, blinding, hops), tail);
    assert bs == first.Compressed() + blinding.Compressed() + [count] + body + tail;
  }
}
