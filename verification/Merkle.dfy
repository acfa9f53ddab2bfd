/**
 * The Merkle accumulator (services/trace/src/merkle.ts).
 *
 * The loops work on levels of hashes and promote an unpaired last node. The
 * proofs relate each level to a forest of binary trees, whose in-order leaves
 * stay the list that was hashed.
 */
module Merkle {
  import opened Wrappers
  import opened Hashing

  const LEAF_PREFIX: Bytes := [0x00]
  const NODE_PREFIX: Bytes := [0x01]

  function LeafBytes(value: Bytes): Bytes {
    LEAF_PREFIX + value
  }

  function NodeBytes(left: Bytes, right: Bytes): Bytes {
    NODE_PREFIX + left + right
  }

  function EmptyRoot(h: Hasher): Digest {
    h(LEAF_PREFIX)
  }

  function HashLeaf(h: Hasher, value: Bytes): Digest {
    h(LeafBytes(value))
  }

  function HashNode(h: Hasher, left: Bytes, right: Bytes): Digest {
    h(NodeBytes(left, right))
  }

  // --------------------------------------------------------------- levels

  function LeafLevel(h: Hasher, values: seq<Bytes>): seq<Digest> {
    seq(|values|, i requires 0 <= i < |values| => HashLeaf(h, values[i]))
  }

  function Joined(h: Hasher, level: seq<Digest>, k: nat): Digest
    requires 2 * k < |level|
  {
    if 2 * k + 1 < |level| then HashNode(h, level[2 * k], level[2 * k + 1]) else level[2 * k]
  }

  function NextLevel(h: Hasher, level: seq<Digest>): seq<Digest> {
    seq((|level| + 1) / 2, k requires 0 <= k < (|level| + 1) / 2 => Joined(h, level, k))
  }

  function LevelRoot(h: Hasher, level: seq<Digest>): Digest
    requires level != []
    decreases |level|
  {
    if |level| == 1 then level[0] else LevelRoot(h, NextLevel(h, level))
  }

  function Root(h: Hasher, values: seq<Bytes>): Digest {
    if values == [] then EmptyRoot(h) else LevelRoot(h, LeafLevel(h, values))
  }

  method ComputeNextLevel(h: Hasher, level: seq<Digest>) returns (next: seq<Digest>)
    ensures next == NextLevel(h, level)
  {
    next := [];
    var i := 0;
    while i < |level|
      invariant i == 2 * |next|
      invariant |next| <= (|level| + 1) / 2
      invariant next == NextLevel(h, level)[..|next|]
    {
      ghost var k := |next|;
      next := next + [if i + 1 < |level| then HashNode(h, level[i], level[i + 1]) else level[i]];
      assert NextLevel(h, level)[..k + 1] == NextLevel(h, level)[..k] + [Joined(h, level, k)];
      i := i + 2;
    }
  }

  method MerkleRoot(h: Hasher, values: seq<Bytes>) returns (root: Digest)
    ensures root == Root(h, values)
  {
    if |values| == 0 {
      return EmptyRoot(h);
    }
    var level := LeafLevel(h, values);
    while |level| > 1
      invariant level != []
      invariant LevelRoot(h, level) == Root(h, values)
      decreases |level|
    {
      level := ComputeNextLevel(h, level);
    }
    root := level[0];
  }

  // ---------------------------------------------------------------- trees

  datatype Tree = Leaf(value: Bytes) | Node(left: Tree, right: Tree)

  function TreeHash(h: Hasher, t: Tree): Digest {
    match t
    case Leaf(v) => HashLeaf(h, v)
    case Node(l, r) => HashNode(h, TreeHash(h, l), TreeHash(h, r))
  }

  /** The leaf values of a tree, left to right. */
  function InOrder(t: Tree): seq<Bytes> {
    match t
    case Leaf(v) => [v]
    case Node(l, r) => InOrder(l) + InOrder(r)
  }

  function Flatten(ts: seq<Tree>): seq<Bytes> {
    if ts == [] then [] else InOrder(ts[0]) + Flatten(ts[1..])
  }

  function Paired(ts: seq<Tree>, k: nat): Tree
    requires 2 * k < |ts|
  {
    if 2 * k + 1 < |ts| then Node(ts[2 * k], ts[2 * k + 1]) else ts[2 * k]
  }

  function NextForest(ts: seq<Tree>): seq<Tree> {
    seq((|ts| + 1) / 2, k requires 0 <= k < (|ts| + 1) / 2 => Paired(ts, k))
  }

  function JoinAll(ts: seq<Tree>): Tree
    requires ts != []
    decreases |ts|
  {
    if |ts| == 1 then ts[0] else JoinAll(NextForest(ts))
  }

  /** The tree whose hash is the root of a nonempty list. */
  function TreeOf(values: seq<Bytes>): Tree
    requires values != []
  {
    JoinAll(seq(|values|, i requires 0 <= i < |values| => Leaf(values[i])))
  }

  function Hashes(h: Hasher, ts: seq<Tree>): seq<Digest> {
    seq(|ts|, i requires 0 <= i < |ts| => TreeHash(h, ts[i]))
  }

  lemma {:induction false} JoinAllHash(h: Hasher, ts: seq<Tree>)
    requires ts != []
    ensures TreeHash(h, JoinAll(ts)) == LevelRoot(h, Hashes(h, ts))
    decreases |ts|
  {
    if |ts| == 1 {
    } else {
      assert NextLevel(h, Hashes(h, ts)) == Hashes(h, NextForest(ts));
      JoinAllHash(h, NextForest(ts));
    }
  }

  lemma {:induction false} NextForestLeaves(ts: seq<Tree>)
    ensures Flatten(NextForest(ts)) == Flatten(ts)
  {
    if |ts| >= 2 {
      assert NextForest(ts) == [Node(ts[0], ts[1])] + NextForest(ts[2..]);
      NextForestLeaves(ts[2..]);
      assert ts[1..][1..] == ts[2..];
    } else {
      assert NextForest(ts) == ts;
    }
  }

  lemma {:induction false} JoinAllLeaves(ts: seq<Tree>)
    requires ts != []
    ensures InOrder(JoinAll(ts)) == Flatten(ts)
    decreases |ts|
  {
    if |ts| == 1 {
    } else {
      NextForestLeaves(ts);
      JoinAllLeaves(NextForest(ts));
    }
  }

  lemma {:induction false} FlattenLeaves(values: seq<Bytes>, ts: seq<Tree>)
    requires |ts| == |values| && forall i :: 0 <= i < |ts| ==> ts[i] == Leaf(values[i])
    ensures Flatten(ts) == values
  {
    if ts == [] {
    } else {
      FlattenLeaves(values[1..], ts[1..]);
    }
  }

  /** The level loop hashes a tree whose in-order leaves are the input. */
  lemma TreeOfList(h: Hasher, values: seq<Bytes>)
    requires values != []
    ensures TreeHash(h, TreeOf(values)) == Root(h, values)
    ensures InOrder(TreeOf(values)) == values
  {
    var ts := seq(|values|, i requires 0 <= i < |values| => Leaf(values[i]));
    JoinAllHash(h, ts);
    assert Hashes(h, ts) == LeafLevel(h, values);
    JoinAllLeaves(ts);
    FlattenLeaves(values, ts);
  }

  // ---------------------------------------------------------- injectivity

  /** Every byte string hashed to compute the hash of a tree. */
  function TreeQueries(h: Hasher, t: Tree): set<Bytes> {
    match t
    case Leaf(v) => {LeafBytes(v)}
    case Node(l, r) => {NodeBytes(TreeHash(h, l), TreeHash(h, r))} + TreeQueries(h, l) + TreeQueries(h, r)
  }

  /** Every byte string `MerkleRoot` hashes. */
  function Queries(h: Hasher, values: seq<Bytes>): set<Bytes> {
    if values == [] then {LEAF_PREFIX} else TreeQueries(h, TreeOf(values))
  }

  /** The last string hashed for a tree. */
  function Top(h: Hasher, t: Tree): Bytes {
    match t
    case Leaf(v) => LeafBytes(v)
    case Node(l, r) => NodeBytes(TreeHash(h, l), TreeHash(h, r))
  }

  lemma NodeBytesInjective(a: Bytes, b: Bytes, c: Bytes, d: Bytes)
    requires NodeBytes(a, b) == NodeBytes(c, d) && (|a| == |c| || |b| == |d|)
    ensures a == c && b == d
  {
    SplitConcat(NODE_PREFIX, a + b, NODE_PREFIX, c + d) by {
      assert NODE_PREFIX + (a + b) == NodeBytes(a, b) && NODE_PREFIX + (c + d) == NodeBytes(c, d);
    }
    if |a| == |c| { SplitConcat(a, b, c, d); } else { SplitConcatRight(a, b, c, d); }
  }

  lemma LeafIsNoNode(v: Bytes, a: Bytes, b: Bytes)
    ensures LeafBytes(v) != NodeBytes(a, b)
  {
    assert LeafBytes(v)[0] == 0 && NodeBytes(a, b)[0] == 1;
  }

  /** Domain separation at work: one hash means one tree, shape included. */
  lemma {:induction false} TreeInjective(h: Hasher, s: Tree, t: Tree, q: set<Bytes>)
    requires TreeHash(h, s) == TreeHash(h, t)
    requires TreeQueries(h, s) <= q && TreeQueries(h, t) <= q
    ensures s == t || CollisionIn(h, q)
  {
    SameHash(h, Top(h, s), Top(h, t), q);
    if Top(h, s) == Top(h, t) {
      match (s, t) {
        case (Leaf(v), Leaf(w)) => SplitConcat(LEAF_PREFIX, v, LEAF_PREFIX, w);
        case (Leaf(v), Node(l, r)) => LeafIsNoNode(v, TreeHash(h, l), TreeHash(h, r));
        case (Node(l, r), Leaf(v)) => LeafIsNoNode(v, TreeHash(h, l), TreeHash(h, r));
        case (Node(l, r), Node(m, n)) =>
          NodeBytesInjective(TreeHash(h, l), TreeHash(h, r), TreeHash(h, m), TreeHash(h, n));
          TreeInjective(h, l, m, q);
          TreeInjective(h, r, n, q);
      }
    }
  }

  lemma TopIsQueried(h: Hasher, t: Tree)
    ensures Top(h, t) in TreeQueries(h, t) && h(Top(h, t)) == TreeHash(h, t)
  {
  }

  /** The root of a nonempty list equals the empty root only for the list [""]. */
  lemma EmptyRootUnique(h: Hasher, values: seq<Bytes>)
    requires values != [] && Root(h, values) == EmptyRoot(h)
    ensures values == [[]] || CollisionIn(h, Queries(h, values) + {LEAF_PREFIX})
  {
    var t := TreeOf(values);
    TreeOfList(h, values);
    TopIsQueried(h, t);
    SameHash(h, Top(h, t), LEAF_PREFIX, Queries(h, values) + {LEAF_PREFIX});
    if Top(h, t) == LEAF_PREFIX {
      match t {
        case Leaf(v) => assert |LeafBytes(v)| == 1 + |v|;
        case Node(l, r) => LeafIsNoNode([], TreeHash(h, l), TreeHash(h, r));
      }
    }
  }

  /**
   * Two lists of any lengths with one root are the same list, or two of the
   * strings hashed for them collide. The one exception is the empty list
   * against the list holding one empty string, see `EmptyRootIsAmbiguous`.
   */
  lemma RootInjective(h: Hasher, vs: seq<Bytes>, ws: seq<Bytes>)
    requires Root(h, vs) == Root(h, ws)
    ensures vs == ws
         || (vs == [] && ws == [[]]) || (vs == [[]] && ws == [])
         || CollisionIn(h, Queries(h, vs) + Queries(h, ws))
  {
    var q := Queries(h, vs) + Queries(h, ws);
    if vs == [] && ws != [] {
      EmptyRootUnique(h, ws);
    } else if ws == [] && vs != [] {
      EmptyRootUnique(h, vs);
    } else if vs != [] {
      TreeOfList(h, vs);
      TreeOfList(h, ws);
      TreeInjective(h, TreeOf(vs), TreeOf(ws), q);
    }
  }

  /** The exception is real: leaves that may be empty share the empty root. */
  lemma EmptyRootIsAmbiguous(h: Hasher)
    ensures Root(h, []) == Root(h, [[]])
  {
    assert LeafBytes([]) == LEAF_PREFIX;
    assert LeafLevel(h, [[]]) == [HashLeaf(h, [])];
  }

  // --------------------------------------------------------------- proofs

  datatype Sibling = Sibling(hash: Bytes, isLeft: bool)

  datatype Proof = Proof(index: int, path: seq<Sibling>)

  datatype RangeError = RangeError(index: int, leaves: nat)

  /** What joins the path at one level: nothing when the node is promoted. */
  function PathStep(level: seq<Digest>, position: nat): seq<Sibling>
    requires position < |level|
  {
    if position % 2 == 1 then [Sibling(level[position - 1], true)]
    else if position + 1 < |level| then [Sibling(level[position + 1], false)]
    else []
  }

  function Path(h: Hasher, level: seq<Digest>, position: nat): seq<Sibling>
    requires position < |level|
    decreases |level|
  {
    if |level| == 1 then [] else PathStep(level, position) + Path(h, NextLevel(h, level), position / 2)
  }

  /** Folds a path over a starting hash, leaf to root. */
  function Climb(h: Hasher, start: Digest, path: seq<Sibling>): Digest
    decreases |path|
  {
    if path == [] then start else
      var last := path[|path| - 1];
      var below := Climb(h, start, path[..|path| - 1]);
      if last.isLeft then HashNode(h, last.hash, below) else HashNode(h, below, last.hash)
  }

  predicate Verifies(h: Hasher, value: Bytes, proof: Proof, root: Bytes) {
    Climb(h, HashLeaf(h, value), proof.path) == root
  }

  lemma PathUnrolls(h: Hasher, path: seq<Sibling>, level: seq<Digest>, position: nat)
    requires position < |level| && |level| > 1
    ensures path + Path(h, level, position)
         == (path + PathStep(level, position)) + Path(h, NextLevel(h, level), position / 2)
  {
  }

  method MerkleProof(h: Hasher, values: seq<Bytes>, index: int) returns (r: Result<Proof, RangeError>)
    ensures r.Ok? <==> 0 <= index < |values|
    ensures r.Ok? ==> r.value == Proof(index, Path(h, LeafLevel(h, values), index))
  {
    if index < 0 || index >= |values| {
      return Err(RangeError(index, |values|));
    }
    hide NextLevel, Joined;
    var path: seq<Sibling> := [];
    var level := LeafLevel(h, values);
    var position := index;
    while |level| > 1
      invariant 0 <= position < |level|
      invariant path + Path(h, level, position) == Path(h, LeafLevel(h, values), index)
      decreases |level|
    {
      var isRight := position % 2 == 1;
      var siblingIndex := if isRight then position - 1 else position + 1;
      ghost var joined := path + PathStep(level, position);
      PathUnrolls(h, path, level, position);
      if siblingIndex < |level| {
        path := path + [Sibling(level[siblingIndex], isRight)];
      }
      assert path == joined;
      level := ComputeNextLevel(h, level);
      position := position / 2;
    }
    r := Ok(Proof(index, path));
  }

  method VerifyMerkleProof(h: Hasher, value: Bytes, proof: Proof, root: Bytes) returns (ok: bool)
    ensures ok == Verifies(h, value, proof, root)
  {
    var computed := HashLeaf(h, value);
    for i := 0 to |proof.path|
      invariant computed == Climb(h, HashLeaf(h, value), proof.path[..i])
    {
      var Sibling(hash, isLeft) := proof.path[i];
      assert proof.path[..i + 1][..i] == proof.path[..i];
      computed := if isLeft then HashNode(h, hash, computed) else HashNode(h, computed, hash);
    }
    assert proof.path[..|proof.path|] == proof.path;
    ok := computed == root;
  }

  lemma {:induction false} ClimbConcat(h: Hasher, start: Digest, p: seq<Sibling>, q: seq<Sibling>)
    ensures Climb(h, start, p + q) == Climb(h, Climb(h, start, p), q)
    decreases |q|
  {
    if q == [] {
      assert p + q == p;
    } else {
      assert (p + q)[..|p + q| - 1] == p + q[..|q| - 1];
      ClimbConcat(h, start, p, q[..|q| - 1]);
    }
  }

  lemma {:induction false} PathClimbs(h: Hasher, level: seq<Digest>, position: nat)
    requires position < |level|
    ensures Climb(h, level[position], Path(h, level, position)) == LevelRoot(h, level)
    decreases |level|
  {
    if |level| == 1 {
    } else {
      var step := PathStep(level, position);
      var next := NextLevel(h, level);
      assert Climb(h, level[position], step) == next[position / 2] by {
        if step != [] { assert step[..0] == []; }
      }
      ClimbConcat(h, level[position], step, Path(h, next, position / 2));
      PathClimbs(h, next, position / 2);
    }
  }

  /** Completeness: the proof built for a leaf is accepted, promoted nodes included. */
  lemma ProofComplete(h: Hasher, values: seq<Bytes>, index: nat)
    requires index < |values|
    ensures Verifies(h, values[index], Proof(index, Path(h, LeafLevel(h, values), index)), Root(h, values))
  {
    PathClimbs(h, LeafLevel(h, values), index);
  }

  /** Every byte string `VerifyMerkleProof` hashes. */
  function ClimbQueries(h: Hasher, value: Bytes, path: seq<Sibling>): set<Bytes>
    decreases |path|
  {
    if path == [] then {LeafBytes(value)} else
      ClimbQueries(h, value, path[..|path| - 1]) + {ClimbTop(h, value, path)}
  }

  function ClimbTop(h: Hasher, value: Bytes, path: seq<Sibling>): Bytes {
    if path == [] then LeafBytes(value) else
      var last := path[|path| - 1];
      var below := Climb(h, HashLeaf(h, value), path[..|path| - 1]);
      if last.isLeft then NodeBytes(last.hash, below) else NodeBytes(below, last.hash)
  }

  lemma {:induction false} ClimbIntoTree(h: Hasher, value: Bytes, path: seq<Sibling>, t: Tree, q: set<Bytes>)
    requires Climb(h, HashLeaf(h, value), path) == TreeHash(h, t)
    requires ClimbQueries(h, value, path) <= q && TreeQueries(h, t) <= q
    ensures value in InOrder(t) || CollisionIn(h, q)
    decreases |path|
  {
    var top := ClimbTop(h, value, path);
    SameHash(h, top, Top(h, t), q);
    if top == Top(h, t) {
      if path == [] {
        match t {
          case Leaf(v) => SplitConcat(LEAF_PREFIX, v, LEAF_PREFIX, value);
          case Node(l, r) => LeafIsNoNode(value, TreeHash(h, l), TreeHash(h, r));
        }
      } else {
        var last := path[|path| - 1];
        var rest := path[..|path| - 1];
        var below := Climb(h, HashLeaf(h, value), rest);
        var left, right: Bytes := if last.isLeft then last.hash else below, if last.isLeft then below else last.hash;
        match t {
          case Leaf(v) => LeafIsNoNode(v, left, right);
          case Node(l, r) =>
            NodeBytesInjective(left, right, TreeHash(h, l), TreeHash(h, r));
            ClimbIntoTree(h, value, rest, if last.isLeft then r else l, q);
        }
      }
    }
  }

  /**
   * Soundness: whatever path is presented, with siblings of any length, an
   * accepted value is in the list, or two of the strings hashed collide. The
   * proof's index takes no part. As for the root, the empty string against the
   * empty list is the one exception.
   */
  lemma ProofSound(h: Hasher, values: seq<Bytes>, value: Bytes, proof: Proof)
    requires Verifies(h, value, proof, Root(h, values))
    ensures value in values
         || (values == [] && value == [] && proof.path == [])
         || CollisionIn(h, Queries(h, values) + ClimbQueries(h, value, proof.path))
  {
    var q := Queries(h, values) + ClimbQueries(h, value, proof.path);
    if values != [] {
      TreeOfList(h, values);
      ClimbIntoTree(h, value, proof.path, TreeOf(values), q);
    } else {
      var top := ClimbTop(h, value, proof.path);
      assert top in q && h(top) == EmptyRoot(h);
      SameHash(h, top, LEAF_PREFIX, q);
      if proof.path == [] {
        assert |top| == 1 + |value|;
      } else {
        assert top[0] == 1;
      }
    }
  }
}
