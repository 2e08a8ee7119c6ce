/** Truncated integers: up to eight bytes without leading zeros. */
module TU64 {
  import opened Wrappers
  import opened Bytes
  import opened BigSize
  import opened Keys
  import opened Tlv

  function EncodeTU64(v: uint64): seq<byte> {
    MinBE(v)
  }

  lemma {:induction false} Pow256Grows(a: nat, b: nat)
    requires a <= b
    ensures Pow256(a) <= Pow256(b)
  {
    if a < b {
      Pow256Grows(a, b - 1);
    }
  }

  lemma EightBytes(bs: seq<byte>)
    requires |bs| <= 8
    ensures FromBE(bs) <= MAX_UINT64
  {
    Pow256Values();
    ToFromBE(bs);
    Pow256Grows(|bs|, 8);
  }

  /** Reads an integer of the announced length; the length must be from 1 to 8 and the form minimal. */
  function DecodeTU64(bs: seq<byte>, length: nat): Result<(uint64, seq<byte>), TlvError> {
    if !(1 <= length <= 8) then Err(BadLength) else
    var (raw, rest) :- Take(bs, length);
    EightBytes(raw);
    if |MinBE(FromBE(raw))| != length then Err(NotMinimal) else Ok((FromBE(raw), rest))
  }

  /** Every integer from 1 to 2^64 - 1 comes back; zero is written with no bytes and refused. */
  lemma TU64RoundTrip(v: uint64, tail: seq<byte>)
    ensures |EncodeTU64(v)| <= 8
    ensures DecodeTU64(EncodeTU64(v) + tail, |EncodeTU64(v)|) == if v != 0 then Ok((v, tail)) else Err(BadLength)
  {
    Pow256Values();
    MinBEWidth(v, 8);
    FromMinBE(v);
    var raw := MinBE(v);
    assert (raw + tail)[..|raw|] == raw && (raw + tail)[|raw|..] == tail;
  }

  /** Whatever is read is the encoding of the integer read, which is not zero. */
  lemma TU64Unique(bs: seq<byte>, length: nat)
    requires DecodeTU64(bs, length).Ok?
    ensures var (v, rest) := DecodeTU64(bs, length).value;
            v != 0 && bs == EncodeTU64(v) + rest && length == |EncodeTU64(v)|
  {
    var raw := bs[..length];
    MinimalForm(raw);
    MinFromBE(raw);
  }

  lemma {:induction false} LeadingZeros(bs: seq<byte>)
    requires bs != [] && bs[0] == 0
    ensures |MinBE(FromBE(bs))| < |bs|
  {
    var n := |bs| - 1;
    if n == 0 {
      assert bs[..0] == [];
    } else {
      LeadingZeros(bs[..n]);
      assert FromBE(bs) / 256 == FromBE(bs[..n]);
    }
  }

  /** The form is minimal exactly when the first byte is not zero. */
  lemma MinimalForm(raw: seq<byte>)
    requires raw != []
    ensures |MinBE(FromBE(raw))| == |raw| <==> raw[0] != 0
  {
    if raw[0] == 0 {
      LeadingZeros(raw);
    } else {
      MinFromBE(raw);
    }
  }

  /** The stream's decoder for truncated integers accepts what DecodeTU64 does, and no more. */
  lemma StreamDecoderAgrees(curve: Curve, bs: seq<byte>, length: nat)
    ensures ReadValue(curve, Trunc64, bs, length).Ok? <==> DecodeTU64(bs, length).Ok?
    ensures ReadValue(curve, Trunc64, bs, length).Ok? ==>
              && ReadValue(curve, Trunc64, bs, length).value.0 == EncodeTU64(DecodeTU64(bs, length).value.0)
              && ReadValue(curve, Trunc64, bs, length).value.1 == DecodeTU64(bs, length).value.1
  {
    if 1 <= length <= 8 && length <= |bs| {
      MinimalForm(bs[..length]);
      if DecodeTU64(bs, length).Ok? {
        MinFromBE(bs[..length]);
      }
    }
  }
}
