/** Signatures over the root of a bolt 12 message. */
module Signatures {
  import opened Bytes
  import opened MerkleTree
  import opened Values

  /** "lightning", "offer", "invoice_request" and "signature" */
  const LIGHTNING_TAG: seq<byte> := [108, 105, 103, 104, 116, 110, 105, 110, 103]
  const OFFER_TAG: seq<byte> := [111, 102, 102, 101, 114]
  const INVOICE_REQUEST_TAG: seq<byte> := [105, 110, 118, 111, 105, 99, 101, 95, 114, 101, 113, 117, 101, 115, 116]
  const SIGNATURE_TAG: seq<byte> := [115, 105, 103, 110, 97, 116, 117, 114, 101]

  /** Checks a signature over a digest; keys count by their x coordinate alone. */
  type Verifier = (Signature, seq<byte>, Hash) -> bool

  /** The tagged digest of a root that is signed. */
  function RootDigest(hash: Hasher, messageTag: seq<byte>, root: Hash): Hash {
    hash(LIGHTNING_TAG + messageTag + SIGNATURE_TAG, root)
  }

  lemma OfferTagSpelled()
    ensures LIGHTNING_TAG + OFFER_TAG + SIGNATURE_TAG == Ascii("lightningoffersignature")
  {
  }

  lemma RequestTagSpelled()
    ensures LIGHTNING_TAG + INVOICE_REQUEST_TAG + SIGNATURE_TAG == Ascii("lightninginvoice_requestsignature")
  {
  }
}
