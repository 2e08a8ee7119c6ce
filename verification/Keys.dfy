/** Public keys. Which x coordinates lie on the curve is a parameter of the model. */
module Keys {
  import opened Wrappers
  import opened Bytes
  import opened BigSize

  type Curve = seq<byte> -> bool

  datatype PubKey = PubKey(odd: bool, x: seq<byte>) {
    predicate Valid(curve: Curve) {
      |x| == 32 && curve(x)
    }

    /** The 33 bytes of the compressed form. */
    function Compressed(): (bs: seq<byte>)
      ensures |x| == 32 ==> |bs| == 33
    {
      [if odd then 3 else 2] + x
    }

    /** The same point, or its negation when y is odd: all an x-only form can tell. */
    function EvenY(): PubKey {
      PubKey(false, x)
    }
  }

  function ParseCompressed(curve: Curve, bs: seq<byte>): Result<PubKey, TlvError> {
    if |bs| == 33 && (bs[0] == 2 || bs[0] == 3) && curve(bs[1..])
    then Ok(PubKey(bs[0] == 3, bs[1..]))
    else Err(BadPoint)
  }

  function ParseXOnly(curve: Curve, bs: seq<byte>): Result<PubKey, TlvError> {
    if |bs| == 32 && curve(bs) then Ok(PubKey(false, bs)) else Err(BadPoint)
  }

  lemma CompressedRoundTrip(curve: Curve, k: PubKey)
    requires k.Valid(curve)
    ensures ParseCompressed(curve, k.Compressed()) == Ok(k)
  {
    assert k.Compressed()[1..] == k.x;
  }

  lemma CompressedUnique(curve: Curve, bs: seq<byte>)
    requires ParseCompressed(curve, bs).Ok?
    ensures ParseCompressed(curve, bs).value.Valid(curve)
    ensures ParseCompressed(curve, bs).value.Compressed() == bs
  {
    assert bs == [bs[0]] + bs[1..];
  }

  /** A key read from the front of the input, as the reply path and its hops store it. */
  function ReadKey(curve: Curve, bs: seq<byte>): Result<(PubKey, seq<byte>), TlvError> {
    var (front, rest) :- Take(bs, 33);
    var key :- ParseCompressed(curve, front);
    Ok((key, rest))
  }

  lemma ReadKeyOfCompressed(curve: Curve, k: PubKey, tail: seq<byte>)
    requires k.Valid(curve)
    ensures ReadKey(curve, k.Compressed() + tail) == Ok((k, tail))
  {
    CompressedRoundTrip(curve, k);
    assert (k.Compressed() + tail)[..33] == k.Compressed();
    assert (k.Compressed() + tail)[33..] == tail;
  }

  lemma CompressedOfReadKey(curve: Curve, bs: seq<byte>)
    requires ReadKey(curve, bs).Ok?
    ensures var (k, rest) := ReadKey(curve, bs).value;
            k.Valid(curve) && bs == k.Compressed() + rest
  {
    CompressedUnique(curve, bs[..33]);
  }
}
