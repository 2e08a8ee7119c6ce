/**
 * Binary hash trees: the tree a queue of nodes builds, the tree built level by level, and
 * what a tagged hash says about both.
 */
module MerkleTree {
  import opened Bytes

  type Hash = h: seq<byte> | |h| == 32 witness seq(32, _ => 0)

  /** A tagged hash: the tag first, then the message. */
  type Hasher = (seq<byte>, seq<byte>) -> Hash

  datatype Leaf = Leaf(tag: seq<byte>, value: seq<byte>)

  datatype Tree<A> = Tip(tip: A) | Fork(left: Tree<A>, right: Tree<A>)

  /** "LnBranch" */
  const BRANCH_TAG: seq<byte> := [0x4c, 0x6e, 0x42, 0x72, 0x61, 0x6e, 0x63, 0x68]

  // ---------- the order of hashes ----------

  /** a comes after b in the byte-wise order. */
  predicate Above(a: seq<byte>, b: seq<byte>) {
    a != [] && (b == [] || a[0] > b[0] || (a[0] == b[0] && Above(a[1..], b[1..])))
  }

  lemma {:induction false} AboveIsTotal(a: seq<byte>, b: seq<byte>)
    ensures !(Above(a, b) && Above(b, a))
    ensures !Above(a, b) && !Above(b, a) ==> a == b
  {
    if a != [] && b != [] {
      AboveIsTotal(a[1..], b[1..]);
      assert a == [a[0]] + a[1..] && b == [b[0]] + b[1..];
    }
  }

  /** The lesser of two hashes first. */
  function OrderHashes(left: Hash, right: Hash): (Hash, Hash) {
    if Above(left, right) then (right, left) else (left, right)
  }

  lemma OrderIsSymmetric(a: Hash, b: Hash)
    ensures OrderHashes(a, b) == OrderHashes(b, a)
  {
    AboveIsTotal(a, b);
  }

  /** What a branch over two nodes hashes. */
  function BranchMessage(left: Hash, right: Hash): seq<byte> {
    OrderHashes(left, right).0 + OrderHashes(left, right).1
  }

  lemma BranchMessageInjective(a: Hash, b: Hash, c: Hash, d: Hash)
    requires BranchMessage(a, b) == BranchMessage(c, d)
    ensures (a == c && b == d) || (a == d && b == c)
  {
    var (lo, hi) := OrderHashes(a, b);
    var (lo', hi') := OrderHashes(c, d);
    assert (lo + hi)[..32] == lo && (lo + hi)[32..] == hi;
    assert (lo' + hi')[..32] == lo' && (lo' + hi')[32..] == hi';
  }

  // ---------- trees ----------

  function TreeHash<A>(hash: Hasher, tip: A -> Hash, t: Tree<A>): Hash {
    match t
    case Tip(a) => tip(a)
    case Fork(l, r) => hash(BRANCH_TAG, BranchMessage(TreeHash(hash, tip, l), TreeHash(hash, tip, r)))
  }

  function Tips<A>(t: Tree<A>): multiset<A> {
    match t
    case Tip(a) => multiset{a}
    case Fork(l, r) => Tips(l) + Tips(r)
  }

  function Forks<A>(t: Tree<A>): nat {
    match t
    case Tip(_) => 0
    case Fork(l, r) => 1 + Forks(l) + Forks(r)
  }

  function AllTips<A>(ts: seq<Tree<A>>): multiset<A> {
    if ts == [] then multiset{} else Tips(ts[0]) + AllTips(ts[1..])
  }

  function AllForks<A>(ts: seq<Tree<A>>): nat {
    if ts == [] then 0 else Forks(ts[0]) + AllForks(ts[1..])
  }

  /** Equal up to exchanging the children of any fork. */
  predicate Mirror<A(==)>(s: Tree<A>, t: Tree<A>) {
    match s
    case Tip(a) => t == Tip(a)
    case Fork(l, r) =>
      t.Fork? && ((Mirror(l, t.left) && Mirror(r, t.right)) || (Mirror(l, t.right) && Mirror(r, t.left)))
  }

  lemma {:induction false} MirrorReflexive<A>(t: Tree<A>)
    ensures Mirror(t, t)
  {
    if t.Fork? {
      MirrorReflexive(t.left);
      MirrorReflexive(t.right);
    }
  }

  /** Children are hashed in order of their hashes, so exchanging them changes nothing. */
  lemma {:induction false} MirrorHash<A>(hash: Hasher, tip: A -> Hash, s: Tree<A>, t: Tree<A>)
    requires Mirror(s, t)
    ensures TreeHash(hash, tip, s) == TreeHash(hash, tip, t)
  {
    if s.Fork? {
      OrderIsSymmetric(TreeHash(hash, tip, t.left), TreeHash(hash, tip, t.right));
      if Mirror(s.left, t.left) && Mirror(s.right, t.right) {
        MirrorHash(hash, tip, s.left, t.left);
        MirrorHash(hash, tip, s.right, t.right);
      } else {
        MirrorHash(hash, tip, s.left, t.right);
        MirrorHash(hash, tip, s.right, t.left);
      }
    }
  }

  lemma {:induction false} MirrorTips<A>(s: Tree<A>, t: Tree<A>)
    requires Mirror(s, t)
    ensures Tips(s) == Tips(t)
  {
    if s.Fork? {
      if Mirror(s.left, t.left) && Mirror(s.right, t.right) {
        MirrorTips(s.left, t.left);
        MirrorTips(s.right, t.right);
      } else {
        MirrorTips(s.left, t.right);
        MirrorTips(s.right, t.left);
      }
    }
  }

  // ---------- the queue and the levels ----------

  /** The queue after its two front nodes are joined and put at the back. */
  function Joined<A>(ts: seq<Tree<A>>): (next: seq<Tree<A>>)
    requires |ts| >= 2
    ensures |next| == |ts| - 1
  {
    ts[2..] + [Fork(ts[0], ts[1])]
  }

  /** The one node left after joining again and again. */
  function QueueTree<A>(ts: seq<Tree<A>>): Tree<A>
    requires ts != []
    decreases |ts|
  {
    if |ts| == 1 then ts[0] else QueueTree(Joined(ts))
  }

  /** Neighbours joined in order; a node without a neighbour stays as it is. */
  function Pair<A>(ts: seq<Tree<A>>): (ps: seq<Tree<A>>)
    ensures |ps| == (|ts| + 1) / 2
  {
    if |ts| < 2 then ts else [Fork(ts[0], ts[1])] + Pair(ts[2..])
  }

  /** Pair up one whole level after the other. */
  function LevelTree<A>(ts: seq<Tree<A>>): Tree<A>
    requires ts != []
    decreases |ts|
  {
    if |ts| == 1 then ts[0] else LevelTree(Pair(ts))
  }

  /** 2^k or 3 * 2^k. */
  predicate LevelCount(n: nat) {
    if n != 0 && n % 2 == 0 then LevelCount(n / 2) else n == 1 || n == 3
  }

  function Pow2(k: nat): nat {
    if k == 0 then 1 else 2 * Pow2(k - 1)
  }

  lemma {:induction false} LevelCountOfPow2(k: nat)
    ensures LevelCount(Pow2(k)) && LevelCount(3 * Pow2(k)) && Pow2(k) > 0
  {
    if k > 0 {
      LevelCountOfPow2(k - 1);
    }
  }

  lemma {:induction false} Pow2OfLevelCount(n: nat)
    requires LevelCount(n)
    ensures exists k: nat :: n == Pow2(k) || n == 3 * Pow2(k)
  {
    if n % 2 == 0 {
      Pow2OfLevelCount(n / 2);
      var k: nat :| n / 2 == Pow2(k) || n / 2 == 3 * Pow2(k);
      assert Pow2(k + 1) == 2 * Pow2(k);
    } else {
      assert Pow2(0) == 1;
    }
  }

  // ---------- what a queue tree holds ----------

  lemma {:induction false} AllOfConcat<A>(a: seq<Tree<A>>, b: seq<Tree<A>>)
    ensures AllTips(a + b) == AllTips(a) + AllTips(b)
    ensures AllForks(a + b) == AllForks(a) + AllForks(b)
  {
    if a == [] {
      assert a + b == b;
    } else {
      assert (a + b)[1..] == a[1..] + b;
      AllOfConcat(a[1..], b);
    }
  }

  lemma {:induction false} InAllTips<A>(ts: seq<Tree<A>>, a: A)
    ensures a in AllTips(ts) <==> exists i :: 0 <= i < |ts| && a in Tips(ts[i])
  {
    if ts != [] {
      InAllTips(ts[1..], a);
      if a in AllTips(ts[1..]) {
        var i :| 0 <= i < |ts[1..]| && a in Tips(ts[1..][i]);
        assert a in Tips(ts[i + 1]);
      }
      if exists i :: 0 <= i < |ts| && a in Tips(ts[i]) {
        var i :| 0 <= i < |ts| && a in Tips(ts[i]);
        assert i > 0 ==> a in Tips(ts[1..][i - 1]);
      }
    }
  }

  /** The queue ends after |ts| - 1 joins, with every input below the root exactly once. */
  lemma {:induction false} QueueHolds<A>(ts: seq<Tree<A>>)
    requires ts != []
    ensures Tips(QueueTree(ts)) == AllTips(ts)
    ensures Forks(QueueTree(ts)) == AllForks(ts) + |ts| - 1
    decreases |ts|
  {
    if |ts| == 1 {
      assert ts[1..] == [];
    } else {
      QueueHolds(Joined(ts));
      var joined := [Fork(ts[0], ts[1])];
      AllOfConcat(ts[2..], joined);
      assert joined[1..] == [];
      assert ts[1..][1..] == ts[2..] && ts[1..][0] == ts[1];
    }
  }

  /** Nodes that hash alike are queued into trees that hash alike, whatever their tips are. */
  lemma {:induction false} QueueHashAlike<A, B>(hash: Hasher, f: A -> Hash, g: B -> Hash,
                                                ts: seq<Tree<A>>, us: seq<Tree<B>>)
    requires |ts| == |us| && ts != []
    requires forall i :: 0 <= i < |ts| ==> TreeHash(hash, f, ts[i]) == TreeHash(hash, g, us[i])
    ensures TreeHash(hash, f, QueueTree(ts)) == TreeHash(hash, g, QueueTree(us))
    decreases |ts|
  {
    if |ts| > 1 {
      QueueHashAlike(hash, f, g, Joined(ts), Joined(us));
    }
  }

  // ---------- queue against levels ----------

  lemma QueueStep<A>(ts: seq<Tree<A>>)
    requires |ts| >= 2
    ensures QueueTree(ts) == QueueTree(Joined(ts))
  {
  }

  lemma JoinedOfConcat<A>(front: seq<Tree<A>>, back: seq<Tree<A>>)
    requires |front| >= 2
    ensures Joined(front + back) == front[2..] + (back + [Fork(front[0], front[1])])
  {
  }

  lemma {:induction false} QueuePairsFront<A>(front: seq<Tree<A>>, back: seq<Tree<A>>)
    requires |front| % 2 == 0 && front + back != []
    ensures back + Pair(front) != [] && QueueTree(front + back) == QueueTree(back + Pair(front))
    decreases |front|
  {
    hide Joined, QueueTree;
    if front == [] {
      assert front + back == back + Pair(front);
    } else {
      var joined := [Fork(front[0], front[1])];
      QueueStep(front + back);
      JoinedOfConcat(front, back);
      QueuePairsFront(front[2..], back + joined);
      assert back + joined + Pair(front[2..]) == back + Pair(front);
    }
  }

  /** An even queue joins its nodes in order before it looks at any joined node. */
  lemma QueueOfEven<A>(ts: seq<Tree<A>>)
    requires ts != [] && |ts| % 2 == 0
    ensures QueueTree(ts) == QueueTree(Pair(ts))
  {
    QueuePairsFront(ts, []);
    assert ts + [] == ts && [] + Pair(ts) == Pair(ts);
  }

  /** For 2^k and 3 * 2^k nodes the queue builds the level-by-level tree. */
  lemma {:induction false} QueueIsLevel<A>(ts: seq<Tree<A>>)
    requires ts != [] && LevelCount(|ts|)
    ensures Mirror(QueueTree(ts), LevelTree(ts))
    decreases |ts|
  {
    if |ts| == 1 {
      MirrorReflexive(ts[0]);
    } else if |ts| == 3 {
      var ab := Fork(ts[0], ts[1]);
      var queue, level := [ts[2], ab], [ab, ts[2]];
      assert Joined(ts) == queue && Joined(queue) == [Fork(ts[2], ab)];
      assert QueueTree(ts) == QueueTree(queue) == Fork(ts[2], ab);
      assert Pair(ts) == level && level[2..] == [] && Pair(level) == [Fork(ab, ts[2])];
      assert LevelTree(ts) == LevelTree(level) == Fork(ab, ts[2]);
      MirrorReflexive(ab);
      MirrorReflexive(ts[2]);
    } else {
      QueueOfEven(ts);
      QueueIsLevel(Pair(ts));
    }
  }

  /** The root has x below one child only and y below the other only. */
  predicate Separates<A(==)>(t: Tree<A>, x: A, y: A) {
    t.Fork? && ((x in Tips(t.left) && x !in Tips(t.right) && y in Tips(t.right) && y !in Tips(t.left))
             || (x in Tips(t.right) && x !in Tips(t.left) && y in Tips(t.left) && y !in Tips(t.right)))
  }

  lemma MirrorSeparates<A>(s: Tree<A>, t: Tree<A>, x: A, y: A)
    requires Mirror(s, t)
    ensures Separates(s, x, y) <==> Separates(t, x, y)
  {
    if s.Fork? {
      if Mirror(s.left, t.left) && Mirror(s.right, t.right) {
        MirrorTips(s.left, t.left);
        MirrorTips(s.right, t.right);
      } else {
        MirrorTips(s.left, t.right);
        MirrorTips(s.right, t.left);
      }
    }
  }

  /** x is a tip of the i-th tree and of no other. */
  predicate OnlyIn<A(==)>(ts: seq<Tree<A>>, x: A, i: nat) {
    i < |ts| && x in Tips(ts[i]) && forall j :: 0 <= j < |ts| && j != i ==> x !in Tips(ts[j])
  }

  lemma {:induction false} PairAt<A>(ts: seq<Tree<A>>, i: nat)
    requires i < |Pair(ts)|
    ensures Pair(ts)[i] == if 2 * i + 1 < |ts| then Fork(ts[2 * i], ts[2 * i + 1]) else ts[2 * i]
  {
    if |ts| >= 2 && i > 0 {
      PairAt(ts[2..], i - 1);
    }
  }

  lemma PairOnlyIn<A>(ts: seq<Tree<A>>, x: A, i: nat)
    requires OnlyIn(ts, x, i)
    ensures OnlyIn(Pair(ts), x, i / 2)
  {
    forall j | 0 <= j < |Pair(ts)|
      ensures x in Tips(Pair(ts)[j]) <==> j == i / 2
    {
      PairAt(ts, j);
    }
  }

  /** Level by level, the first and the last node meet only at the root. */
  lemma {:induction false} LevelSeparates<A>(ts: seq<Tree<A>>, x: A, y: A)
    requires |ts| >= 2 && OnlyIn(ts, x, 0) && OnlyIn(ts, y, |ts| - 1)
    ensures Separates(LevelTree(ts), x, y)
    decreases |ts|
  {
    if |ts| == 2 {
      assert ts[2..] == [] && Pair(ts) == [Fork(ts[0], ts[1])];
    } else {
      PairOnlyIn(ts, x, 0);
      PairOnlyIn(ts, y, |ts| - 1);
      LevelSeparates(Pair(ts), x, y);
    }
  }

  /** Where the i-th node of a queue is after one join. */
  function After(n: nat, i: nat): nat
    requires i < n && n >= 2
  {
    if i < 2 then n - 2 else i - 2
  }

  lemma JoinedOnlyIn<A>(ts: seq<Tree<A>>, x: A, i: nat)
    requires |ts| >= 2 && OnlyIn(ts, x, i)
    ensures OnlyIn(Joined(ts), x, After(|ts|, i))
  {
  }

  /** Once x and y are below one node of a longer queue, the root does not separate them. */
  lemma {:induction false} QueueKeepsTogether<A>(ts: seq<Tree<A>>, x: A, y: A, i: nat)
    requires |ts| >= 2 && OnlyIn(ts, x, i) && OnlyIn(ts, y, i)
    ensures !Separates(QueueTree(ts), x, y)
    decreases |ts|
  {
    if |ts| > 2 {
      hide OnlyIn, Separates, Joined;
      JoinedOnlyIn(ts, x, i);
      JoinedOnlyIn(ts, y, i);
      QueueKeepsTogether(Joined(ts), x, y, After(|ts|, i));
    }
  }

  /** What an odd queue comes down to when its last node has been joined to the first pair. */
  function OddQueue<A>(ts: seq<Tree<A>>): (queue: seq<Tree<A>>)
    requires |ts| % 2 == 1 && |ts| >= 5
    ensures |queue| >= 2
  {
    Pair(ts[2..|ts| - 1]) + [Fork(ts[|ts| - 1], Fork(ts[0], ts[1]))]
  }

  lemma JoinedOfOdd<A>(ts: seq<Tree<A>>)
    requires |ts| % 2 == 1 && |ts| >= 5
    ensures Joined([ts[|ts| - 1]] + Pair(ts[..|ts| - 1])) == OddQueue(ts)
  {
    var n := |ts| - 1;
    var ab, rest := Fork(ts[0], ts[1]), Pair(ts[2..n]);
    assert ts[..n][2..] == ts[2..n];
    assert Pair(ts[..n]) == [ab] + rest;
    assert ([ts[n]] + ([ab] + rest))[2..] == rest;
  }

  lemma QueueOfOdd<A>(ts: seq<Tree<A>>)
    requires |ts| % 2 == 1 && |ts| >= 5
    ensures QueueTree(ts) == QueueTree(OddQueue(ts))
  {
    hide QueueTree, Pair, Joined, OddQueue;
    var n := |ts| - 1;
    var front, back := ts[..n], [ts[n]];
    assert front + back == ts;
    QueuePairsFront(front, back);
    JoinedOfOdd(ts);
    QueueStep(back + Pair(front));
  }

  lemma OddQueueOnlyIn<A>(ts: seq<Tree<A>>, x: A, y: A)
    requires |ts| % 2 == 1 && |ts| >= 5 && OnlyIn(ts, x, 0) && OnlyIn(ts, y, |ts| - 1)
    ensures OnlyIn(OddQueue(ts), x, |OddQueue(ts)| - 1) && OnlyIn(OddQueue(ts), y, |OddQueue(ts)| - 1)
  {
    var middle := ts[2..|ts| - 1];
    forall j | 0 <= j < |Pair(middle)|
      ensures x !in Tips(Pair(middle)[j]) && y !in Tips(Pair(middle)[j])
    {
      PairAt(middle, j);
    }
  }

  /** For every other count the queue brings the first and the last node together early. */
  lemma {:induction false} QueueJoins<A>(ts: seq<Tree<A>>, x: A, y: A)
    requires ts != [] && !LevelCount(|ts|) && OnlyIn(ts, x, 0) && OnlyIn(ts, y, |ts| - 1)
    ensures !Separates(QueueTree(ts), x, y)
    decreases |ts|
  {
    hide OnlyIn, Separates, QueueTree, Pair, OddQueue;
    if |ts| % 2 == 0 {
      QueueOfEven(ts);
      PairOnlyIn(ts, x, 0);
      PairOnlyIn(ts, y, |ts| - 1);
      QueueJoins(Pair(ts), x, y);
    } else {
      QueueOfOdd(ts);
      OddQueueOnlyIn(ts, x, y);
      QueueKeepsTogether(OddQueue(ts), x, y, |OddQueue(ts)| - 1);
    }
  }

  /**
   * The queue builds the level-by-level tree, up to exchanging children, exactly for 2^k
   * and 3 * 2^k nodes.
   */
  lemma QueueIsLevelExactly<A>(ts: seq<Tree<A>>, x: A, y: A)
    requires ts != [] && OnlyIn(ts, x, 0) && OnlyIn(ts, y, |ts| - 1)
    ensures Mirror(QueueTree(ts), LevelTree(ts)) <==> LevelCount(|ts|)
  {
    if LevelCount(|ts|) {
      QueueIsLevel(ts);
    } else {
      QueueJoins(ts, x, y);
      LevelSeparates(ts, x, y);
      if Mirror(QueueTree(ts), LevelTree(ts)) {
        MirrorSeparates(QueueTree(ts), LevelTree(ts), x, y);
      }
    }
  }

  // ---------- binding ----------

  type Query = (seq<byte>, seq<byte>)

  function LeafTip(hash: Hasher): Leaf -> Hash {
    (l: Leaf) => hash(l.tag, l.value)
  }

  function LeafTreeHash(hash: Hasher, t: Tree<Leaf>): Hash {
    TreeHash(hash, LeafTip(hash), t)
  }

  /** Every tag and message hashed on the way to the root. */
  function Queries(hash: Hasher, t: Tree<Leaf>): set<Query> {
    match t
    case Tip(l) => {(l.tag, l.value)}
    case Fork(l, r) =>
      {(BRANCH_TAG, BranchMessage(LeafTreeHash(hash, l), LeafTreeHash(hash, r)))}
      + Queries(hash, l) + Queries(hash, r)
  }

  /** Two of these queries differ and hash to the same value. */
  ghost predicate Collision(hash: Hasher, queries: set<Query>) {
    exists p, q :: p in queries && q in queries && p != q && hash(p.0, p.1) == hash(q.0, q.1)
  }

  /** No leaf is tagged as a branch. */
  predicate LeafTags(t: Tree<Leaf>) {
    match t
    case Tip(l) => l.tag != BRANCH_TAG
    case Fork(l, r) => LeafTags(l) && LeafTags(r)
  }

  function RootQuery(hash: Hasher, t: Tree<Leaf>): Query {
    match t
    case Tip(l) => (l.tag, l.value)
    case Fork(l, r) => (BRANCH_TAG, BranchMessage(LeafTreeHash(hash, l), LeafTreeHash(hash, r)))
  }

  lemma CollisionGrows(hash: Hasher, few: set<Query>, many: set<Query>)
    requires few <= many && Collision(hash, few)
    ensures Collision(hash, many)
  {
    var p, q :| p in few && q in few && p != q && hash(p.0, p.1) == hash(q.0, q.1);
    assert p in many && q in many;
  }

  lemma SubtreeCollision(hash: Hasher, s: Tree<Leaf>, t: Tree<Leaf>, s': Tree<Leaf>, t': Tree<Leaf>)
    requires Queries(hash, s') <= Queries(hash, s) && Queries(hash, t') <= Queries(hash, t)
    requires !Collision(hash, Queries(hash, s) + Queries(hash, t))
    ensures !Collision(hash, Queries(hash, s') + Queries(hash, t'))
  {
    hide Collision, Queries;
    var few, many := Queries(hash, s') + Queries(hash, t'), Queries(hash, s) + Queries(hash, t);
    if Collision(hash, few) {
      CollisionGrows(hash, few, many);
    }
  }

  /**
   * Trees with one root are the same tree up to exchanging children, or two of the queries
   * made to compute the root collide.
   */
  lemma {:induction false} TreeBinding(hash: Hasher, s: Tree<Leaf>, t: Tree<Leaf>)
    requires LeafTags(s) && LeafTags(t)
    requires LeafTreeHash(hash, s) == LeafTreeHash(hash, t)
    requires !Collision(hash, Queries(hash, s) + Queries(hash, t))
    ensures Mirror(s, t)
  {
    var p, q := RootQuery(hash, s), RootQuery(hash, t);
    assert p == q by {
      assert p in Queries(hash, s) + Queries(hash, t) && q in Queries(hash, s) + Queries(hash, t);
      assert hash(p.0, p.1) == hash(q.0, q.1);
    }
    hide Collision;
    if s.Fork? {
      BranchMessageInjective(LeafTreeHash(hash, s.left), LeafTreeHash(hash, s.right),
                             LeafTreeHash(hash, t.left), LeafTreeHash(hash, t.right));
      if LeafTreeHash(hash, s.left) == LeafTreeHash(hash, t.left)
         && LeafTreeHash(hash, s.right) == LeafTreeHash(hash, t.right) {
        SubtreeCollision(hash, s, t, s.left, t.left);
        SubtreeCollision(hash, s, t, s.right, t.right);
        TreeBinding(hash, s.left, t.left);
        TreeBinding(hash, s.right, t.right);
      } else {
        SubtreeCollision(hash, s, t, s.left, t.right);
        SubtreeCollision(hash, s, t, s.right, t.left);
        TreeBinding(hash, s.left, t.right);
        TreeBinding(hash, s.right, t.left);
      }
    }
  }
}
