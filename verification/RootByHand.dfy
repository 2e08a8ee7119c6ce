/**
 * Merkle roots written out by hand: nested hashes over literal tags, with the lesser hash of each
 * pair first when hashes are read as numbers.
 */
module RootByHand {
  import opened Wrappers
  import opened Bytes
  import opened BigSize
  import opened Tlv
  import opened MerkleTree
  import opened Merkle

  // ---------- the order of hashes ----------

  /** Byte strings of one length compare as the numbers they hold. */
  lemma {:induction false} AboveIsGreater(a: seq<byte>, b: seq<byte>)
    requires |a| == |b|
    ensures Above(a, b) <==> FromBE(a) > FromBE(b)
  {
    if a != [] {
      var p := Pow256(|a| - 1);
      FromBEFront(a);
      FromBEFront(b);
      ToFromBE(a[1..]);
      ToFromBE(b[1..]);
      AboveIsGreater(a[1..], b[1..]);
      Apart(a[0], b[0], FromBE(a[1..]), FromBE(b[1..]), p);
      Apart(b[0], a[0], FromBE(b[1..]), FromBE(a[1..]), p);
    }
  }

  lemma Apart(a: nat, b: nat, x: nat, y: nat, p: nat)
    requires x < p && y < p
    ensures a > b ==> a * p + x > b * p + y
  {
    if a > b {
      assert a * p >= (b + 1) * p;
    }
  }

  /** Ordering two hashes puts the lesser number first, and loses neither. */
  lemma LesserIsFirst(a: Hash, b: Hash)
    ensures var (lo, hi) := OrderHashes(a, b); FromBE(lo) <= FromBE(hi) && multiset{lo, hi} == multiset{a, b}
  {
    hide FromBE;
    AboveIsGreater(a, b);
  }

  // ---------- roots ----------

  /** Two hashes joined, the lesser first. */
  function Pairing(hash: Hasher, a: Hash, b: Hash): Hash {
    hash(Ascii("LnBranch"), if FromBE(a) <= FromBE(b) then a + b else b + a)
  }

  /** The two leaves of one encoded record, joined; the nonce's tag carries all the encodings. */
  function Pair(hash: Hasher, encoding: seq<byte>, all: seq<byte>): Hash {
    Pairing(hash, hash(Ascii("LnLeaf"), encoding), hash(Ascii("LnAll") + all, encoding))
  }

  /** Two hashes leave the front of the queue and their pairing goes to its back, until one is left. */
  function Queue(hash: Hasher, hs: seq<Hash>): Hash
    requires hs != []
    decreases |hs|
  {
    if |hs| == 1 then hs[0] else Queue(hash, hs[2..] + [Pairing(hash, hs[0], hs[1])])
  }

  function Written(w: Merkle.Written): seq<byte> {
    WriteVarInt(w.typ) + WriteVarInt(w.value.size) + w.value.bytes
  }

  function AllWritten(ws: seq<Merkle.Written>): seq<byte> {
    if ws == [] then [] else Written(ws[0]) + AllWritten(ws[1..])
  }

  function Pairs(hash: Hasher, ws: seq<Merkle.Written>): (hs: seq<Hash>)
    ensures |hs| == |ws|
  {
    seq(|ws|, i requires 0 <= i < |ws| => Pair(hash, Written(ws[i]), AllWritten(ws)))
  }

  lemma TagsSpelled()
    ensures BRANCH_TAG == Ascii("LnBranch") && TLV_TAG == Ascii("LnLeaf") && NONCE_TAG == Ascii("LnAll")
  {
  }

  lemma PairingIsBranch<A>(hash: Hasher, tip: A -> Hash, l: Tree<A>, r: Tree<A>)
    ensures TreeHash(hash, tip, Fork(l, r)) == Pairing(hash, TreeHash(hash, tip, l), TreeHash(hash, tip, r))
  {
    hide FromBE, Above;
    TagsSpelled();
    hide BRANCH_TAG;
    AboveIsGreater(TreeHash(hash, tip, l), TreeHash(hash, tip, r));
    AboveIsGreater(TreeHash(hash, tip, r), TreeHash(hash, tip, l));
    if FromBE(TreeHash(hash, tip, l)) == FromBE(TreeHash(hash, tip, r)) {
      AboveIsTotal(TreeHash(hash, tip, l), TreeHash(hash, tip, r));
    }
  }

  lemma {:induction false} QueueHashes<A>(hash: Hasher, tip: A -> Hash, ts: seq<Tree<A>>, hs: seq<Hash>)
    requires ts != [] && |hs| == |ts| && forall i :: 0 <= i < |ts| ==> hs[i] == TreeHash(hash, tip, ts[i])
    ensures TreeHash(hash, tip, QueueTree(ts)) == Queue(hash, hs)
    decreases |ts|
  {
    hide Pairing;
    if |ts| > 1 {
      PairingIsBranch(hash, tip, ts[0], ts[1]);
      hide TreeHash;
      QueueHashes(hash, tip, Joined(ts), hs[2..] + [Pairing(hash, hs[0], hs[1])]);
    }
  }

  lemma {:induction false} EncodingsWritten(ws: seq<Merkle.Written>)
    ensures Encodings(ws) == AllWritten(ws)
  {
    hide WriteVarInt;
    if ws != [] {
      EncodingsWritten(ws[1..]);
    }
  }

  lemma LeafPairHash(hash: Hasher, w: Merkle.Written, all: seq<byte>)
    ensures LeafTreeHash(hash, LeafPair(w, all)) == Pair(hash, Written(w), all)
  {
    hide WriteVarInt, Pairing;
    TagsSpelled();
    hide TLV_TAG, NONCE_TAG;
    PairingIsBranch(hash, LeafTip(hash), Tip(TlvLeaf(w)), Tip(NonceLeaf(w, all)));
  }

  /** The records that count, in order of type, are all there is to the root. */
  lemma SignedAre(ws: seq<Merkle.Written>, signed: seq<Merkle.Written>)
    requires Distinct(ws) && Ascending(signed)
    requires forall w :: w in signed <==> w in ws && !(240 <= w.typ <= 1000)
    ensures Signed(SortRecords(ws)) == signed
  {
    hide SortRecords, Signed;
    SortKeeps(ws);
    SignedElements(SortRecords(ws));
    SignedAscends(SortRecords(ws));
    AscendingUnique(Signed(SortRecords(ws)), signed);
  }

  lemma {:induction false} SignedAscends(ws: seq<Merkle.Written>)
    requires Ascending(ws)
    ensures Ascending(Signed(ws))
  {
    if ws != [] {
      TailAscends(ws);
      SignedAscends(ws[1..]);
      SignedElements(ws[1..]);
      if !IsSignature(ws[0]) {
        ConsAscends(ws[0], Signed(ws[1..]));
      }
    }
  }

  /**
   * The root over any list of records, by hand: those typed outside 240 to 1000, in order of type,
   * give one pair of leaves each, and the pairs are queued.
   */
  lemma RootIsQueue(hash: Hasher, ws: seq<Merkle.Written>, signed: seq<Merkle.Written>)
    requires Distinct(ws) && Ascending(signed)
    requires forall w :: w in signed <==> w in ws && !(240 <= w.typ <= 1000)
    ensures RootOf(hash, ws) == if signed == [] then Err(NoTlvs) else Ok(Queue(hash, Pairs(hash, signed)))
  {
    hide Queue, SortRecords, Signed, LeafPair, LeafTreeHash, Written, AllWritten, Pair, Encodings;
    SignedAre(ws, signed);
    if signed != [] {
      var all := Encodings(signed);
      EncodingsWritten(signed);
      forall i | 0 <= i < |signed|
        ensures Pairs(hash, signed)[i] == TreeHash(hash, LeafTip(hash), LeafPairs(signed, all)[i])
      {
        LeafPairHash(hash, signed[i], all);
        LeafTreeHashIs(hash, LeafPair(signed[i], all));
      }
      hide Pairs, LeafPairs;
      QueueHashes(hash, LeafTip(hash), LeafPairs(signed, all), Pairs(hash, signed));
      LeafTreeHashIs(hash, RecordTree(signed));
    }
  }

  lemma LeafTreeHashIs(hash: Hasher, t: Tree<Leaf>)
    ensures LeafTreeHash(hash, t) == TreeHash(hash, LeafTip(hash), t)
  {
    hide TreeHash;
  }

  /** One record: a leaf and a nonce leaf. */
  lemma RootOfOne(hash: Hasher, w: Merkle.Written)
    requires !(240 <= w.typ <= 1000)
    ensures var e := WriteVarInt(w.typ) + WriteVarInt(w.value.size) + w.value.bytes;
            var leaf, nonce := hash(Ascii("LnLeaf"), e), hash(Ascii("LnAll") + e, e);
            RootOf(hash, [w])
            == Ok(hash(Ascii("LnBranch"), if FromBE(leaf) <= FromBE(nonce) then leaf + nonce else nonce + leaf))
  {
    hide FromBE, WriteVarInt, RootOf;
    assert AllWritten([w]) == Written(w) by { assert [w][1..] == []; }
    RootIsQueue(hash, [w], [w]);
  }

  /** Two records, listed in either order: the tree of four leaves. */
  lemma RootOfTwo(hash: Hasher, v: Merkle.Written, w: Merkle.Written)
    requires v.typ < w.typ && !(240 <= v.typ <= 1000) && !(240 <= w.typ <= 1000)
    ensures RootOf(hash, [v, w]) == RootOf(hash, [w, v])
    ensures var d := WriteVarInt(v.typ) + WriteVarInt(v.value.size) + v.value.bytes;
            var e := WriteVarInt(w.typ) + WriteVarInt(w.value.size) + w.value.bytes;
            var one, two := Pair(hash, d, d + e), Pair(hash, e, d + e);
            RootOf(hash, [v, w]) ==
            Ok(hash(Ascii("LnBranch"), if FromBE(one) <= FromBE(two) then one + two else two + one))
  {
    hide FromBE, WriteVarInt, RootOf;
    assert AllWritten([v, w]) == Written(v) + Written(w) by {
      assert [v, w][1..] == [w] && [w][1..] == [];
      assert AllWritten([w]) == Written(w);
    }
    RootIsQueue(hash, [v, w], [v, w]);
    RootIsQueue(hash, [w, v], [v, w]);
    var hs := Pairs(hash, [v, w]);
    assert hs[2..] + [Pairing(hash, hs[0], hs[1])] == [Pairing(hash, hs[0], hs[1])];
  }
}
