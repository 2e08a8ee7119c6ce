/** The Merkle root that bolt 12 messages are signed by. */
module Merkle {
  import opened Wrappers
  import opened Bytes
  import opened BigSize
  import opened Tlv
  import opened MerkleTree

  datatype MerkleError =
    | NoTlvs          // no record outside the signature range
    | OddLeafNodes

  const SIGNATURE_START: nat := 240
  const SIGNATURE_END: nat := 1000

  /** "LnLeaf" */
  const TLV_TAG: seq<byte> := [0x4c, 0x6e, 0x4c, 0x65, 0x61, 0x66]

  /** "LnAll" */
  const NONCE_TAG: seq<byte> := [0x4c, 0x6e, 0x41, 0x6c, 0x6c]

  datatype Branch = Branch(left: Hash, right: Hash)

  // ---------- specification ----------

  /** What a record's encoder announces and what it writes; for most records these agree. */
  datatype Content = Content(size: uint64, bytes: seq<byte>)

  /** A record as it will be written: its type, the size it announces and the bytes its encoder writes. */
  type Written = Typed<Content>

  /** Records that announce what they write. */
  function Own(rs: seq<Record>): (ws: seq<Written>)
    requires Sized(rs)
    ensures |ws| == |rs|
    ensures forall i :: 0 <= i < |rs| ==> ws[i] == Record(rs[i].typ, Content(|rs[i].value|, rs[i].value))
  {
    seq(|rs|, i requires 0 <= i < |rs| => Record(rs[i].typ, Content(|rs[i].value|, rs[i].value)))
  }

  function Encoding(w: Written): seq<byte> {
    WriteVarInt(w.typ) + WriteVarInt(w.value.size) + w.value.bytes
  }

  function Encodings(ws: seq<Written>): seq<byte> {
    if ws == [] then [] else Encoding(ws[0]) + Encodings(ws[1..])
  }

  predicate InSignatureRange(typ: uint64) {
    SIGNATURE_START <= typ <= SIGNATURE_END
  }

  predicate IsSignature<T>(r: Typed<T>) {
    InSignatureRange(r.typ)
  }

  /** The records that the root commits to. */
  function Signed<T>(rs: seq<Typed<T>>): seq<Typed<T>> {
    if rs == [] then [] else
    if IsSignature(rs[0]) then Signed(rs[1..]) else [rs[0]] + Signed(rs[1..])
  }

  function BranchHash(hash: Hasher, b: Branch): Hash {
    hash(BRANCH_TAG, b.left + b.right)
  }

  function Join(left: Hash, right: Hash): Branch {
    Branch(OrderHashes(left, right).0, OrderHashes(left, right).1)
  }

  /** A record's leaf and its nonce leaf, whose tag carries every signed record. */
  function TlvLeaf(w: Written): Leaf {
    Leaf(TLV_TAG, Encoding(w))
  }

  function NonceLeaf(w: Written, all: seq<byte>): Leaf {
    Leaf(NONCE_TAG + all, Encoding(w))
  }

  function LeafPair(w: Written, all: seq<byte>): Tree<Leaf> {
    Fork(Tip(TlvLeaf(w)), Tip(NonceLeaf(w, all)))
  }

  function LeafPairs(ws: seq<Written>, all: seq<byte>): (ps: seq<Tree<Leaf>>)
    ensures |ps| == |ws|
  {
    seq(|ws|, i requires 0 <= i < |ws| => LeafPair(ws[i], all))
  }

  /** The tree over the signed records, given in order. */
  function RecordTree(ws: seq<Written>): Tree<Leaf>
    requires ws != []
  {
    QueueTree(LeafPairs(ws, Encodings(ws)))
  }

  /** The root over a list of records in any order. */
  function RootOf(hash: Hasher, records: seq<Written>): Result<Hash, MerkleError> {
    var ws := Signed(SortRecords(records));
    if ws == [] then Err(NoTlvs) else Ok(LeafTreeHash(hash, RecordTree(ws)))
  }

  // ---------- order and signatures do not matter ----------

  predicate Sorted<T>(rs: seq<Typed<T>>) {
    forall i, j :: 0 <= i < j < |rs| ==> rs[i].typ <= rs[j].typ
  }

  lemma SortedCons<T(!new)>(r: Typed<T>, rs: seq<Typed<T>>)
    requires Sorted(rs) && forall q :: q in rs ==> r.typ <= q.typ
    ensures Sorted([r] + rs)
  {
    forall i, j | 0 <= i < j < |[r] + rs| ensures ([r] + rs)[i].typ <= ([r] + rs)[j].typ {
      assert ([r] + rs)[j] == rs[j - 1] && rs[j - 1] in rs;
    }
  }

  lemma {:induction false} InsertSorted<T(!new)>(r: Typed<T>, rs: seq<Typed<T>>)
    requires Sorted(rs)
    ensures Sorted(Insert(r, rs))
  {
    if rs == [] {
    } else if r.typ <= rs[0].typ {
      SortedCons(r, rs);
    } else {
      InsertSorted(r, rs[1..]);
      InsertElements(r, rs[1..]);
      SortedCons(rs[0], Insert(r, rs[1..]));
    }
  }

  lemma {:induction false} SignedElements<T(!new)>(rs: seq<Typed<T>>)
    ensures forall r :: r in Signed(rs) <==> r in rs && !IsSignature(r)
  {
    if rs != [] {
      SignedElements(rs[1..]);
      assert rs == [rs[0]] + rs[1..];
    }
  }

  lemma {:induction false} SignedOfInsert<T(!new)>(r: Typed<T>, rs: seq<Typed<T>>)
    requires Sorted(rs)
    ensures Signed(Insert(r, rs)) == if IsSignature(r) then Signed(rs) else Insert(r, Signed(rs))
  {
    if rs == [] || r.typ <= rs[0].typ {
      assert ([r] + rs)[1..] == rs;
      SignedElements(rs);
      assert Signed(rs) != [] ==> Signed(rs)[0] in Signed(rs);
    } else {
      SignedOfInsert(r, rs[1..]);
      assert ([rs[0]] + Insert(r, rs[1..]))[1..] == Insert(r, rs[1..]);
      assert ([rs[0]] + Signed(rs[1..]))[1..] == Signed(rs[1..]);
    }
  }

  lemma {:induction false} SortSorted<T(!new)>(rs: seq<Typed<T>>)
    ensures Sorted(SortRecords(rs))
  {
    if rs != [] {
      SortSorted(rs[1..]);
      InsertSorted(rs[0], SortRecords(rs[1..]));
    }
  }

  lemma {:induction false} SignedOfSort<T(!new)>(rs: seq<Typed<T>>)
    ensures Signed(SortRecords(rs)) == SortRecords(Signed(rs))
  {
    if rs != [] {
      SignedOfSort(rs[1..]);
      SortSorted(rs[1..]);
      SignedOfInsert(rs[0], SortRecords(rs[1..]));
    }
  }

  /** The signed records in order are the signed records. */
  lemma SignedInOrder<T(!new)>(rs: seq<Typed<T>>)
    ensures SameRecords(Signed(SortRecords(rs)), Signed(rs))
  {
    SignedOfSort(rs);
    SortKeeps(Signed(rs));
  }

  /**
   * The root depends only on which records lie outside the signature range: not on their
   * order, and not on any record typed 240 to 1000.
   */
  lemma RootIndependence(hash: Hasher, a: seq<Written>, b: seq<Written>)
    requires Distinct(Signed(a)) && Distinct(Signed(b)) && SameRecords(Signed(a), Signed(b))
    ensures RootOf(hash, a) == RootOf(hash, b)
  {
    SignedOfSort(a);
    SignedOfSort(b);
    SortKeeps(Signed(a));
    SortKeeps(Signed(b));
    AscendingUnique(SortRecords(Signed(a)), SortRecords(Signed(b)));
  }

  /** There is no root exactly when nothing lies outside the signature range. */
  lemma RootFails(hash: Hasher, records: seq<Written>)
    ensures RootOf(hash, records) == Err(NoTlvs) <==> forall r :: r in records ==> IsSignature(r)
    ensures RootOf(hash, records).Err? ==> RootOf(hash, records) == Err(NoTlvs)
  {
    SignedElements(records);
    SignedInOrder(records);
    var ws := Signed(SortRecords(records));
    if ws != [] {
      assert ws[0] in Signed(records);
    }
    if Signed(records) != [] {
      assert Signed(records)[0] in ws;
    }
  }

  // ---------- records that write what they announce ----------

  lemma OwnElements(rs: seq<Record>, w: Written)
    requires Sized(rs)
    ensures w in Own(rs) <==> Record(w.typ, w.value.bytes) in rs && w.value.size == |w.value.bytes|
  {
    if w in Own(rs) {
      var i :| 0 <= i < |rs| && Own(rs)[i] == w;
    }
    if Record(w.typ, w.value.bytes) in rs {
      var i :| 0 <= i < |rs| && rs[i] == Record(w.typ, w.value.bytes);
      assert Own(rs)[i] in Own(rs);
    }
  }

  lemma {:induction false} EncodingsOfOwn(rs: seq<Record>)
    requires Sized(rs)
    ensures Encodings(Own(rs)) == StreamBytes(rs)
  {
    if rs != [] {
      assert Own(rs)[1..] == Own(rs[1..]);
      EncodingsOfOwn(rs[1..]);
    }
  }

  lemma {:induction false} SignedOfOwn(rs: seq<Record>)
    requires Sized(rs)
    ensures Sized(Signed(rs)) && Signed(Own(rs)) == Own(Signed(rs))
  {
    SignedElements(rs);
    if rs != [] {
      assert Own(rs)[1..] == Own(rs[1..]);
      SignedOfOwn(rs[1..]);
    }
  }

  lemma OwnOfCons(r: Record, rs: seq<Record>)
    requires |r.value| <= MAX_UINT64 && Sized(rs)
    ensures Sized([r] + rs) && Own([r] + rs) == [Record(r.typ, Content(|r.value|, r.value))] + Own(rs)
  {
  }

  lemma {:induction false} InsertOfOwn(r: Record, rs: seq<Record>)
    requires |r.value| <= MAX_UINT64 && Sized(rs)
    ensures Sized(Insert(r, rs)) && Own(Insert(r, rs)) == Insert(Record(r.typ, Content(|r.value|, r.value)), Own(rs))
  {
    InsertElements(r, rs);
    if rs == [] || r.typ <= rs[0].typ {
      OwnOfCons(r, rs);
    } else {
      InsertOfOwn(r, rs[1..]);
      OwnOfCons(rs[0], rs[1..]);
      OwnOfCons(rs[0], Insert(r, rs[1..]));
      assert rs == [rs[0]] + rs[1..];
    }
    hide Own;
  }

  lemma {:induction false} SortOfOwn(rs: seq<Record>)
    requires Sized(rs)
    ensures Sized(SortRecords(rs)) && SortRecords(Own(rs)) == Own(SortRecords(rs))
  {
    SortKeeps(rs);
    if rs != [] {
      assert Own(rs)[1..] == Own(rs[1..]);
      SortOfOwn(rs[1..]);
      InsertOfOwn(rs[0], SortRecords(rs[1..]));
    }
  }

  // ---------- binding ----------

  lemma RecordTreeTips(ws: seq<Written>)
    requires ws != []
    ensures Tips(RecordTree(ws)) == AllTips(LeafPairs(ws, Encodings(ws)))
  {
    QueueHolds(LeafPairs(ws, Encodings(ws)));
  }

  lemma LeafPairsAt(ws: seq<Written>, all: seq<byte>, i: nat, l: Leaf)
    requires i < |ws|
    ensures l in Tips(LeafPairs(ws, all)[i]) <==> l == TlvLeaf(ws[i]) || l == NonceLeaf(ws[i], all)
  {
  }

  /** The tips over the leaf pairs are the leaf and the nonce leaf of each record. */
  lemma PairTip(ws: seq<Written>, all: seq<byte>, l: Leaf)
    ensures l in AllTips(LeafPairs(ws, all)) <==>
            exists i :: 0 <= i < |ws| && (l == TlvLeaf(ws[i]) || l == NonceLeaf(ws[i], all))
  {
    hide TlvLeaf, NonceLeaf, LeafPairs;
    InAllTips(LeafPairs(ws, all), l);
    forall i | 0 <= i < |ws|
      ensures l in Tips(LeafPairs(ws, all)[i]) <==> l == TlvLeaf(ws[i]) || l == NonceLeaf(ws[i], all)
    {
      LeafPairsAt(ws, all, i, l);
    }
  }

  lemma {:induction false} TipTags(t: Tree<Leaf>)
    requires forall l :: l in Tips(t) ==> l.tag != BRANCH_TAG
    ensures LeafTags(t)
  {
    if t.Fork? {
      assert forall l :: l in Tips(t.left) || l in Tips(t.right) ==> l in Tips(t);
      TipTags(t.left);
      TipTags(t.right);
    }
  }

  /** The three tags tell their nodes apart. */
  lemma TagsDiffer(all: seq<byte>)
    ensures TLV_TAG != BRANCH_TAG && NONCE_TAG + all != BRANCH_TAG && NONCE_TAG + all != TLV_TAG
  {
    assert (NONCE_TAG + all)[2] == 0x41 && BRANCH_TAG[2] == 0x42 && TLV_TAG[2] == 0x4c;
  }

  lemma PairTags(ws: seq<Written>, t: Tree<Leaf>)
    requires Tips(t) == AllTips(LeafPairs(ws, Encodings(ws)))
    ensures LeafTags(t)
  {
    forall l | l in Tips(t) ensures l.tag != BRANCH_TAG {
      PairTip(ws, Encodings(ws), l);
      TagsDiffer(Encodings(ws));
    }
    TipTags(t);
  }

  /** An encoding tells the type, the announced size and the bytes, whether or not they agree. */
  lemma EncodingInjective(p: Written, q: Written)
    requires Encoding(p) == Encoding(q)
    ensures p == q
  {
    hide WriteVarInt, ReadVarInt;
    VarIntRoundTrip(p.typ, WriteVarInt(p.value.size) + p.value.bytes);
    VarIntRoundTrip(q.typ, WriteVarInt(q.value.size) + q.value.bytes);
    VarIntRoundTrip(p.value.size, p.value.bytes);
    VarIntRoundTrip(q.value.size, q.value.bytes);
    assert Encoding(p) == WriteVarInt(p.typ) + (WriteVarInt(p.value.size) + p.value.bytes);
    assert Encoding(q) == WriteVarInt(q.typ) + (WriteVarInt(q.value.size) + q.value.bytes);
  }

  /** If one tree's tips are another's, its records are among the other's. */
  lemma TipsTellRecord(a: seq<Written>, b: seq<Written>, w: Written)
    requires a != [] && b != [] && Tips(RecordTree(a)) == Tips(RecordTree(b)) && w in a
    ensures w in b
  {
    hide Encoding, Encodings, RecordTree, LeafPairs;
    var i :| 0 <= i < |a| && a[i] == w;
    var leaf := TlvLeaf(w);
    assert leaf == TlvLeaf(a[i]);
    PairTip(a, Encodings(a), leaf);
    PairTip(b, Encodings(b), leaf);
    RecordTreeTips(a);
    RecordTreeTips(b);
    var k :| 0 <= k < |b| && (leaf == TlvLeaf(b[k]) || leaf == NonceLeaf(b[k], Encodings(b)));
    TagsDiffer(Encodings(b));
    EncodingInjective(w, b[k]);
  }

  /** The nonce leaves tell the encodings joined together. */
  lemma TipsTellEncodings(a: seq<Written>, b: seq<Written>)
    requires a != [] && b != [] && Tips(RecordTree(a)) == Tips(RecordTree(b))
    ensures Encodings(a) == Encodings(b)
  {
    hide Encoding, Encodings, RecordTree, LeafPairs;
    var nonce := NonceLeaf(a[0], Encodings(a));
    assert nonce == NonceLeaf(a[0], Encodings(a));
    PairTip(a, Encodings(a), nonce);
    PairTip(b, Encodings(b), nonce);
    RecordTreeTips(a);
    RecordTreeTips(b);
    var i :| 0 <= i < |b| && (nonce == TlvLeaf(b[i]) || nonce == NonceLeaf(b[i], Encodings(b)));
    TagsDiffer(Encodings(a));
    assert nonce.tag == NONCE_TAG + Encodings(b);
    assert Encodings(a) == nonce.tag[|NONCE_TAG|..] == Encodings(b);
  }

  /** Mirror images of record trees are over the same records. */
  lemma RecordTreesAgree(a: seq<Written>, b: seq<Written>)
    requires a != [] && b != [] && Mirror(RecordTree(a), RecordTree(b))
    ensures SameRecords(a, b) && Encodings(a) == Encodings(b)
  {
    hide Encodings, RecordTree, Mirror;
    MirrorTips(RecordTree(a), RecordTree(b));
    TipsTellEncodings(a, b);
    forall w ensures w in a <==> w in b {
      if w in a {
        TipsTellRecord(a, b, w);
      }
      if w in b {
        TipsTellRecord(b, a, w);
      }
    }
  }

  /** The hash queries made to compute the root of these records. */
  function RootQueries(hash: Hasher, records: seq<Written>): set<Query> {
    var ws := Signed(SortRecords(records));
    if ws == [] then {} else Queries(hash, RecordTree(ws))
  }

  /** One root has one list of signed encodings, or two of the queries made for the two roots collide. */
  lemma OrderedBinding(hash: Hasher, a: seq<Written>, b: seq<Written>)
    requires RootOf(hash, a).Ok? && RootOf(hash, a) == RootOf(hash, b)
    requires !Collision(hash, RootQueries(hash, a) + RootQueries(hash, b))
    ensures SameRecords(Signed(SortRecords(a)), Signed(SortRecords(b)))
    ensures Encodings(Signed(SortRecords(a))) == Encodings(Signed(SortRecords(b)))
  {
    hide Encodings, Signed, SortRecords;
    var as', bs := Signed(SortRecords(a)), Signed(SortRecords(b));
    RecordTreeTips(as');
    RecordTreeTips(bs);
    PairTags(as', RecordTree(as'));
    PairTags(bs, RecordTree(bs));
    TreeBinding(hash, RecordTree(as'), RecordTree(bs));
    RecordTreesAgree(as', bs);
  }

  /**
   * Binding for all records, also ones that do not write what they announce: lists with one root,
   * or with none, hold the same records outside the signature range, or two queries collide.
   */
  lemma WrittenBinding(hash: Hasher, a: seq<Written>, b: seq<Written>)
    requires RootOf(hash, a) == RootOf(hash, b)
    ensures SameRecords(Signed(a), Signed(b)) || Collision(hash, RootQueries(hash, a) + RootQueries(hash, b))
  {
    hide RootOf, RootQueries, SortRecords, Collision, Signed;
    RootFails(hash, a);
    RootFails(hash, b);
    SignedElements(a);
    SignedElements(b);
    SignedInOrder(a);
    SignedInOrder(b);
    if RootOf(hash, a).Ok? && !Collision(hash, RootQueries(hash, a) + RootQueries(hash, b)) {
      OrderedBinding(hash, a, b);
    }
  }

  /**
   * Binding: lists with one root hold the same records outside the signature range, in the same
   * order, or two of the queries made to compute the two roots collide.
   */
  lemma RootBinding(hash: Hasher, a: seq<Record>, b: seq<Record>)
    requires Sized(a) && Sized(b) && RootOf(hash, Own(a)).Ok? && RootOf(hash, Own(a)) == RootOf(hash, Own(b))
    ensures || Signed(SortRecords(a)) == Signed(SortRecords(b))
            || Collision(hash, RootQueries(hash, Own(a)) + RootQueries(hash, Own(b)))
  {
    hide RootOf, RootQueries, SortRecords, Collision, Signed, StreamBytes, Encodings;
    if !Collision(hash, RootQueries(hash, Own(a)) + RootQueries(hash, Own(b))) {
      OrderedBinding(hash, Own(a), Own(b));
      SortOfOwn(a);
      SortOfOwn(b);
      SignedOfOwn(SortRecords(a));
      SignedOfOwn(SortRecords(b));
      EncodingsOfOwn(Signed(SortRecords(a)));
      EncodingsOfOwn(Signed(SortRecords(b)));
      StreamInjective(Signed(SortRecords(a)), Signed(SortRecords(b)));
    }
  }

  // ---------- against the level-by-level tree ----------

  /** The tree that joins the leaf pairs level by level. */
  function LevelRecordTree(ws: seq<Written>): Tree<Leaf>
    requires ws != []
  {
    LevelTree(LeafPairs(ws, Encodings(ws)))
  }

  lemma {:induction false} LevelTips<A>(ts: seq<Tree<A>>)
    requires ts != []
    ensures Tips(LevelTree(ts)) == AllTips(ts)
    decreases |ts|
  {
    if |ts| == 1 {
      assert ts[1..] == [];
    } else {
      PairTips(ts);
      LevelTips(Pair(ts));
    }
  }

  lemma {:induction false} PairTips<A>(ts: seq<Tree<A>>)
    ensures AllTips(Pair(ts)) == AllTips(ts)
    decreases |ts|
  {
    if |ts| >= 2 {
      PairTips(ts[2..]);
      assert ts[1..][1..] == ts[2..] && Pair(ts)[1..] == Pair(ts[2..]);
    }
  }

  lemma LeafOnlyIn(ws: seq<Written>, i: nat)
    requires Ascending(ws) && i < |ws|
    ensures OnlyIn(LeafPairs(ws, Encodings(ws)), TlvLeaf(ws[i]), i)
  {
    hide Encoding, Encodings, LeafPairs;
    var pairs := LeafPairs(ws, Encodings(ws));
    TagsDiffer(Encodings(ws));
    forall j | 0 <= j < |pairs| ensures TlvLeaf(ws[i]) in Tips(pairs[j]) <==> j == i {
      LeafPairsAt(ws, Encodings(ws), j, TlvLeaf(ws[i]));
      if Encoding(ws[i]) == Encoding(ws[j]) {
        EncodingInjective(ws[i], ws[j]);
      }
    }
  }

  lemma QueueIsLevelForRecords(ws: seq<Written>)
    requires ws != [] && Ascending(ws)
    ensures Mirror(RecordTree(ws), LevelRecordTree(ws)) <==> LevelCount(|ws|)
  {
    hide OnlyIn, Mirror, LeafPairs, QueueTree, LevelTree, TlvLeaf, LevelCount, Encodings;
    LeafOnlyIn(ws, 0);
    LeafOnlyIn(ws, |ws| - 1);
    QueueIsLevelExactly(LeafPairs(ws, Encodings(ws)), TlvLeaf(ws[0]), TlvLeaf(ws[|ws| - 1]));
  }

  /**
   * For a signed list of 2^k or 3 * 2^k records the root is that of the level-by-level
   * tree. For every other number of records it is not, unless two queries collide.
   */
  lemma RootAgainstLevels(hash: Hasher, ws: seq<Written>)
    requires ws != [] && Ascending(ws)
    ensures LevelCount(|ws|) ==> LeafTreeHash(hash, RecordTree(ws)) == LeafTreeHash(hash, LevelRecordTree(ws))
    ensures !LevelCount(|ws|) ==>
              || LeafTreeHash(hash, RecordTree(ws)) != LeafTreeHash(hash, LevelRecordTree(ws))
              || Collision(hash, Queries(hash, RecordTree(ws)) + Queries(hash, LevelRecordTree(ws)))
  {
    var queue, level := RecordTree(ws), LevelRecordTree(ws);
    QueueIsLevelForRecords(ws);
    if LevelCount(|ws|) {
      MirrorHash(hash, LeafTip(hash), queue, level);
    } else if LeafTreeHash(hash, queue) == LeafTreeHash(hash, level)
              && !Collision(hash, Queries(hash, queue) + Queries(hash, level)) {
      RecordTreeTips(ws);
      LevelTips(LeafPairs(ws, Encodings(ws)));
      PairTags(ws, queue);
      PairTags(ws, level);
      TreeBinding(hash, queue, level);
    }
  }

  // ---------- the code ----------

  function BranchTip(hash: Hasher): Branch -> Hash {
    (b: Branch) => BranchHash(hash, b)
  }

  function BranchTips(bs: seq<Branch>): (ts: seq<Tree<Branch>>)
    ensures |ts| == |bs|
  {
    seq(|bs|, i requires 0 <= i < |bs| => Tip(bs[i]))
  }

  /** The hash of the tree that queueing these branches builds. */
  function QueueRoot(hash: Hasher, bs: seq<Branch>): Hash
    requires bs != []
  {
    TreeHash(hash, BranchTip(hash), QueueTree(BranchTips(bs)))
  }

  /** The branches hash as the trees do. */
  ghost predicate Denote<A(!new)>(hash: Hasher, bs: seq<Branch>, tip: A -> Hash, ts: seq<Tree<A>>) {
    |bs| == |ts| && forall i :: 0 <= i < |bs| ==> BranchHash(hash, bs[i]) == TreeHash(hash, tip, ts[i])
  }

  lemma QueueRootOfTrees(hash: Hasher, bs: seq<Branch>, ts: seq<Tree<Leaf>>)
    requires bs != [] && Denote(hash, bs, LeafTip(hash), ts)
    ensures QueueRoot(hash, bs) == LeafTreeHash(hash, QueueTree(ts))
  {
    QueueHashAlike(hash, BranchTip(hash), LeafTip(hash), BranchTips(bs), ts);
  }

  method CalculateRoot(hash: Hasher, branches: seq<Branch>) returns (root: Hash)
    requires branches != []
    ensures root == QueueRoot(hash, branches)
  {
    var queue := branches;
    ghost var ts := BranchTips(branches);
    while |queue| != 1
      invariant queue != [] && Denote(hash, queue, BranchTip(hash), ts)
      invariant QueueTree(ts) == QueueTree(BranchTips(branches))
      decreases |queue|
    {
      var joined := Join(BranchHash(hash, queue[0]), BranchHash(hash, queue[1]));
      queue := queue[2..];
      queue := queue + [joined];
      ts := Joined(ts);
    }
    return BranchHash(hash, queue[0]);
  }

  lemma JoinDenotes(hash: Hasher, l: Leaf, r: Leaf)
    ensures BranchHash(hash, Join(LeafTip(hash)(l), LeafTip(hash)(r))) == LeafTreeHash(hash, Fork(Tip(l), Tip(r)))
  {
    assert LeafTreeHash(hash, Tip(l)) == LeafTip(hash)(l) && LeafTreeHash(hash, Tip(r)) == LeafTip(hash)(r);
  }

  /** Joins leaves two by two; an odd number of leaves is an error. */
  method CreateTLVBranches(hash: Hasher, leaves: seq<Leaf>) returns (r: Result<seq<Branch>, MerkleError>)
    ensures |leaves| % 2 != 0 ==> r == Err(OddLeafNodes)
    ensures |leaves| % 2 == 0 ==>
              && r.Ok? && |r.value| == |leaves| / 2
              && forall k :: 0 <= k < |leaves| / 2 ==>
                   BranchHash(hash, r.value[k]) == LeafTreeHash(hash, Fork(Tip(leaves[2 * k]), Tip(leaves[2 * k + 1])))
  {
    if |leaves| % 2 != 0 {
      return Err(OddLeafNodes);
    }
    var branches := [];
    var i := 0;
    while i < |leaves|
      invariant 0 <= i <= |leaves| && i % 2 == 0 && |branches| == i / 2
      invariant forall k :: 0 <= k < |branches| ==>
                  BranchHash(hash, branches[k]) == LeafTreeHash(hash, Fork(Tip(leaves[2 * k]), Tip(leaves[2 * k + 1])))
    {
      JoinDenotes(hash, leaves[i], leaves[i + 1]);
      branches := branches + [Join(LeafTip(hash)(leaves[i]), LeafTip(hash)(leaves[i + 1]))];
      i := i + 2;
    }
    return Ok(branches);
  }

  /** The encodings of the signed records, one by one and joined together. */
  method EncodeSigned(records: seq<Written>) returns (encoded: seq<seq<byte>>, all: seq<byte>)
    ensures all == Encodings(Signed(records))
    ensures |encoded| == |Signed(records)|
    ensures forall k :: 0 <= k < |encoded| ==> encoded[k] == Encoding(Signed(records)[k])
  {
    hide Encoding, Signed, Encodings;
    encoded, all := [], [];
    SignedOfNone();
    for i := 0 to |records|
      invariant all == Encodings(Signed(records[..i]))
      invariant |encoded| == |Signed(records[..i])|
      invariant forall k :: 0 <= k < |encoded| ==> encoded[k] == Encoding(Signed(records[..i])[k])
    {
      assert records[..i + 1] == records[..i] + [records[i]];
      SignedOfSnoc(records[..i], records[i]);
      if IsSignature(records[i]) {
        continue;
      }
      var bytes := Encoding(records[i]);
      EncodingsOfSnoc(Signed(records[..i]), records[i]);
      encoded := encoded + [bytes];
      all := all + bytes;
    }
    assert records[..|records|] == records;
  }

  lemma SignedOfNone()
    ensures Signed<Content>([]) == [] && Encodings([]) == []
  {
  }

  /** Two leaves for every signed record, in order of type. */
  method CreateTLVLeaves(records: seq<Written>) returns (leaves: array<Leaf>)
    ensures var ws := Signed(SortRecords(records));
            && leaves.Length == 2 * |ws|
            && (forall i :: 0 <= i < |ws| ==> leaves[2 * i] == TlvLeaf(ws[i]))
            && (forall i :: 0 <= i < |ws| ==> leaves[2 * i + 1] == NonceLeaf(ws[i], Encodings(ws)))
  {
    hide SortRecords, Signed, Encodings, Encoding;
    var sorted := SortRecords(records);
    var encoded, all := EncodeSigned(sorted);
    ghost var ws := Signed(sorted);
    leaves := new Leaf[2 * |encoded|](_ => Leaf([], []));
    for i := 0 to |encoded|
      invariant forall k :: 0 <= k < i ==> leaves[2 * k] == TlvLeaf(ws[k]) && leaves[2 * k + 1] == NonceLeaf(ws[k], all)
    {
      leaves[2 * i], leaves[2 * i + 1] := Leaf(TLV_TAG, encoded[i]), Leaf(NONCE_TAG + all, encoded[i]);
    }
  }

  lemma {:induction false} SignedOfSnoc(ws: seq<Written>, w: Written)
    ensures Signed(ws + [w]) == if IsSignature(w) then Signed(ws) else Signed(ws) + [w]
  {
    if ws == [] {
      assert [] + [w] == [w] && [w][1..] == [];
    } else {
      assert (ws + [w])[1..] == ws[1..] + [w];
      SignedOfSnoc(ws[1..], w);
    }
  }

  lemma {:induction false} EncodingsOfSnoc(ws: seq<Written>, w: Written)
    ensures Encodings(ws + [w]) == Encodings(ws) + Encoding(w)
  {
    hide Encoding;
    if ws == [] {
      assert [] + [w] == [w] && [w][1..] == [];
    } else {
      assert (ws + [w])[1..] == ws[1..] + [w];
      EncodingsOfSnoc(ws[1..], w);
    }
  }

  method MerkleRoot(hash: Hasher, records: seq<Written>) returns (r: Result<Hash, MerkleError>)
    ensures r == RootOf(hash, records)
  {
    ghost var ws := Signed(SortRecords(records));
    var leaves := CreateTLVLeaves(records);
    if leaves.Length == 0 {
      return Err(NoTlvs);
    }
    var branches := CreateTLVBranches(hash, leaves[..]);
    ghost var trees := LeafPairs(ws, Encodings(ws));
    assert Denote(hash, branches.value, LeafTip(hash), trees);
    QueueRootOfTrees(hash, branches.value, trees);
    var root := CalculateRoot(hash, branches.value);
    return Ok(root);
  }
}
