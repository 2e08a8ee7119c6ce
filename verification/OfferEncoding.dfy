/** Offer strings read all the way to a validated offer. */
module OfferEncoding {
  import opened Wrappers
  import opened Bytes
  import opened BigSize
  import opened Keys
  import opened Tlv
  import opened MerkleTree
  import Merkle
  import opened Fields
  import opened Values
  import opened Signatures
  import opened Offer
  import opened OfferString

  datatype OfferError =
    | BadString(string: StringError)
    | BadOffer(message: MessageError)
    | Invalid(validation: Validation)

  function DecodeOfferStr(lib: Lib, verify: Verifier, offer: string, order: seq<uint64>): Result<Offer, OfferError>
    requires BytesOf(offer).Ok? ==> Visited(lib, SCHEMA, BytesOf(offer).value, order)
  {
    match BytesOf(offer)
    case Err(e) => Err(BadString(e))
    case Ok(bytes) =>
      match ReadOffer(lib, bytes, order)
      case Err(e) => Err(BadOffer(e))
      case Ok(o) =>
        if Validate(lib.hash, verify, o) != Accepted then Err(Invalid(Validate(lib.hash, verify, o))) else Ok(o)
  }

  lemma {:induction false} StreamHolds(rs: seq<Record>, r: Record)
    requires Sized(rs) && r in rs
    ensures |StreamBytes(rs)| >= |r.value|
  {
    if rs[0] != r {
      StreamHolds(rs[1..], r);
    }
  }

  /** An offer with a node key is long enough for a string. */
  lemma KeyedOfferIsLong(lib: Lib, o: Offer)
    requires o.Valid(lib.curve) && o.nodeID.Some?
    ensures |StreamBytes(OfferRecords(lib, o))| >= 32
  {
    hide StreamBytes, Lookup, Present;
    OfferLookups(lib, o);
    LookupIn(OfferRecords(lib, o), NODE_ID_TYPE);
    StreamHolds(OfferRecords(lib, o), Record(NODE_ID_TYPE, o.nodeID.value.x));
  }

  /** What a valid offer has: a node key, a description, bounds in order, and a signature only over its root. */
  predicate Acceptable(lib: Lib, verify: Verifier, o: Offer) {
    && o.nodeID.Some? && o.description != []
    && (o.quantityMin != 0 && o.quantityMax != 0 ==> o.quantityMin <= o.quantityMax)
    && (o.signature.Some? ==>
        verify(o.signature.value, o.nodeID.value.x, lib.hash(Ascii("lightningoffersignature"), o.merkleRoot)))
  }

  lemma AcceptableExactly(lib: Lib, verify: Verifier, o: Offer)
    ensures Validate(lib.hash, verify, o) == Accepted <==> Acceptable(lib, verify, o)
  {
    hide Validate;
    ValidateExactly(lib.hash, verify, o);
  }

  lemma AcceptableHasKey(lib: Lib, verify: Verifier, o: Offer)
    requires o.Valid(lib.curve) && Acceptable(lib, verify, Restored(lib, o))
    ensures o.nodeID.Some? && HasField(o)
  {
    hide Merkle.RootOf, OfferRecords;
  }

  /**
   * A string is accepted exactly when it yields bytes that read as an offer with a node key, a description,
   * bounds in order, and no signature but one over the root that reading recomputed.
   */
  lemma AcceptedExactly(lib: Lib, verify: Verifier, offer: string, order: seq<uint64>, o: Offer)
    requires BytesOf(offer).Ok? ==> Visited(lib, SCHEMA, BytesOf(offer).value, order)
    ensures DecodeOfferStr(lib, verify, offer, order) == Ok(o) <==>
            && BytesOf(offer).Ok? && ReadOffer(lib, BytesOf(offer).value, order) == Ok(o)
            && Acceptable(lib, verify, o)
  {
    hide BytesOf, ReadOffer, Validate, Visited, Acceptable;
    AcceptableExactly(lib, verify, o);
  }

  /** A string that yields an offer's own bytes or none. */
  lemma OfferBytesRead(lib: Lib, verify: Verifier, o: Offer, offer: string, order: seq<uint64>)
    requires lib.Sound() && o.Valid(lib.curve)
    requires BytesOf(offer).Ok? ==> BytesOf(offer).value == StreamBytes(OfferRecords(lib, o))
    requires Visited(lib, SCHEMA, StreamBytes(OfferRecords(lib, o)), order)
    ensures DecodeOfferStr(lib, verify, offer, order) == Ok(Restored(lib, o))
            <==> && BytesOf(offer).Ok? && o.expiry.nanos == 0 && o.expiry.seconds != 0
                 && Acceptable(lib, verify, Restored(lib, o))
  {
    hide BytesOf, ReadOffer, StreamBytes, Present, Restored, Validate, Acceptable, HasField, Visited, OfferFields;
    OfferRoundTrip(lib, o, order);
    AcceptableExactly(lib, verify, Restored(lib, o));
    if Acceptable(lib, verify, Restored(lib, o)) {
      AcceptableHasKey(lib, verify, o);
    }
  }

  /**
   * An offer written as a string, in either case, cut anywhere with white space around the
   * pieces, reads back as the offer if and only if no piece is left with nothing at all, its
   * expiry is in whole seconds and not at the Unix epoch, and what comes back validates.
   */
  lemma OfferStringRoundTrip(lib: Lib, verify: Verifier, o: Offer, upper: bool, pieces: seq<Piece>, order: seq<uint64>)
    requires lib.Sound() && o.Valid(lib.curve)
    requires pieces != [] && Texts(pieces) == Form(StreamBytes(OfferRecords(lib, o)), upper)
    requires forall i :: 0 <= i < |pieces| ==> Spaces(pieces[i].before) && Spaces(pieces[i].after)
    requires Visited(lib, SCHEMA, StreamBytes(OfferRecords(lib, o)), order)
    ensures var read := BytesOf(Join(Wholes(pieces)));
            read.Ok? ==> read.value == StreamBytes(OfferRecords(lib, o))
    ensures DecodeOfferStr(lib, verify, Join(Wholes(pieces)), order) == Ok(Restored(lib, o))
            <==> && (forall i :: 0 <= i < |pieces| ==> pieces[i].Whole() != "")
                 && o.expiry.nanos == 0 && o.expiry.seconds != 0
                 && Acceptable(lib, verify, Restored(lib, o))
  {
    hide BytesOf, DecodeOfferStr, Texts, Form, StreamBytes, Present, Join, Wholes, Restored, Validate, Acceptable,
         HasField, Spaces, Chars, Visited, OfferFields;
    var bs := StreamBytes(OfferRecords(lib, o));
    CutFormReads(bs, upper, pieces);
    OfferBytesRead(lib, verify, o, Join(Wholes(pieces)), order);
    if Acceptable(lib, verify, Restored(lib, o)) {
      AcceptableHasKey(lib, verify, o);
      KeyedOfferIsLong(lib, o);
    }
  }
}
