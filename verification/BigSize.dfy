/** The variable-length integers that carry record types and lengths. */
module BigSize {
  import opened Wrappers
  import opened Bytes

  datatype TlvError =
    | EndOfStream          // nothing left to read
    | Truncated            // the input ends inside a value
    | VarIntNotCanonical   // a shorter form of the integer exists
    | StreamNotCanonical   // types do not strictly ascend
    | BadLength            // the length is not one the value can have
    | NotMinimal           // a truncated integer has a leading zero
    | BadPoint             // not the encoding of a curve point
    | NoHops               // a reply path without hops
    | BadFeatures          // the feature vector does not decode
    | NotFinalPayload      // a final hop payload typed below its range

  function WriteVarInt(v: nat): seq<byte>
    requires v <= MAX_UINT64
  {
    if v < 0xfd then [v]
    else if v <= 0xffff then [0xfd] + ToBE(v, 2)
    else if v <= 0xffff_ffff then [0xfe] + ToBE(v, 4)
    else [0xff] + ToBE(v, 8)
  }

  /** The first n bytes and the rest. */
  function Take(bs: seq<byte>, n: nat): Result<(seq<byte>, seq<byte>), TlvError> {
    if |bs| < n then Err(Truncated) else Ok((bs[..n], bs[n..]))
  }

  /** The tail of a multi-byte integer of the given width, which must exceed `below`. */
  function ReadWide(bs: seq<byte>, width: nat, below: nat): Result<(nat, seq<byte>), TlvError> {
    var (digits, rest) :- Take(bs, width);
    if FromBE(digits) <= below then Err(VarIntNotCanonical) else Ok((FromBE(digits), rest))
  }

  function ReadVarInt(bs: seq<byte>): Result<(nat, seq<byte>), TlvError> {
    if bs == [] then Err(EndOfStream)
    else if bs[0] < 0xfd then Ok((bs[0], bs[1..]))
    else if bs[0] == 0xfd then ReadWide(bs[1..], 2, 0xfc)
    else if bs[0] == 0xfe then ReadWide(bs[1..], 4, 0xffff)
    else ReadWide(bs[1..], 8, 0xffff_ffff)
  }

  lemma ReadWideOfToBE(v: nat, width: nat, below: nat, tail: seq<byte>)
    requires below < v < Pow256(width)
    ensures ReadWide(ToBE(v, width) + tail, width, below) == Ok((v, tail))
  {
    FromToBE(v, width);
    assert (ToBE(v, width) + tail)[..width] == ToBE(v, width);
    assert (ToBE(v, width) + tail)[width..] == tail;
  }

  /** Reading what was written gives the integer back and consumes nothing else. */
  lemma VarIntRoundTrip(v: nat, tail: seq<byte>)
    requires v <= MAX_UINT64
    ensures ReadVarInt(WriteVarInt(v) + tail) == Ok((v, tail))
  {
    hide ToBE, ReadWide;
    Pow256Values();
    var bs := WriteVarInt(v) + tail;
    if v < 0xfd {
      assert bs[1..] == tail;
    } else if v <= 0xffff {
      assert bs[1..] == ToBE(v, 2) + tail;
      ReadWideOfToBE(v, 2, 0xfc, tail);
    } else if v <= 0xffff_ffff {
      assert bs[1..] == ToBE(v, 4) + tail;
      ReadWideOfToBE(v, 4, 0xffff, tail);
    } else {
      assert bs[1..] == ToBE(v, 8) + tail;
      ReadWideOfToBE(v, 8, 0xffff_ffff, tail);
    }
  }

  lemma ToBEOfReadWide(bs: seq<byte>, width: nat, below: nat)
    requires ReadWide(bs, width, below).Ok?
    ensures var (v, rest) := ReadWide(bs, width, below).value;
            below < v < Pow256(width) && bs == ToBE(v, width) + rest
  {
    ToFromBE(bs[..width]);
  }

  /** Whatever is read is the only encoding of the integer read. */
  lemma VarIntUnique(bs: seq<byte>)
    requires ReadVarInt(bs).Ok?
    ensures var (v, rest) := ReadVarInt(bs).value;
            v <= MAX_UINT64 && bs == WriteVarInt(v) + rest && |rest| < |bs|
  {
    Pow256Values();
    if bs[0] == 0xfd {
      ToBEOfReadWide(bs[1..], 2, 0xfc);
    } else if bs[0] == 0xfe {
      ToBEOfReadWide(bs[1..], 4, 0xffff);
    } else if bs[0] == 0xff {
      ToBEOfReadWide(bs[1..], 8, 0xffff_ffff);
    }
  }
}
