// Sorted-pair Merkle folding: what a (leaf, siblings) pair that folds to a tree's root can be.
//
// The hash is any function to 32 bytes. It is assumed free of collisions only on the finitely many
// messages that the tree and the fold at hand put into it.
module MerkleTree {
  import opened Bytes

  type Digest = d: Bytes | |d| == 32 witness seq(32, i => 0)
  type Hash = Bytes -> Digest

  // The order of byte vectors: lexicographic, a proper prefix first.
  predicate LexLe(a: Bytes, b: Bytes) {
    if a == [] then true
    else if b == [] then false
    else if a[0] != b[0] then a[0] < b[0]
    else LexLe(a[1..], b[1..])
  }

  function Join(node: Bytes, sibling: Bytes): Bytes {
    if LexLe(node, sibling) then node + sibling else sibling + node
  }

  // What the last hashing step of a fold is applied to, and the fold.
  function FoldMessage(H: Hash, leaf: Bytes, proofs: seq<Bytes>): Bytes
    decreases |proofs|, 0
  {
    if proofs == [] then leaf else Join(Fold(H, leaf, proofs[..|proofs| - 1]), proofs[|proofs| - 1])
  }

  function Fold(H: Hash, leaf: Bytes, proofs: seq<Bytes>): Digest
    decreases |proofs|, 1
  {
    H(FoldMessage(H, leaf, proofs))
  }

  // In this order a string comes before its extensions, and else the first difference decides.
  lemma {:induction false} LexLeIff(a: Bytes, b: Bytes)
    ensures LexLe(a, b) <==> a <= b || exists i :: 0 <= i < |a| && i < |b| && a[..i] == b[..i] && a[i] < b[i]
  {
    if a != [] && b != [] {
      if a[0] == b[0] {
        LexLeIff(a[1..], b[1..]);
        assert a == [a[0]] + a[1..] && b == [b[0]] + b[1..];
        if i :| 0 <= i < |a[1..]| && i < |b[1..]| && a[1..][..i] == b[1..][..i] && a[1..][i] < b[1..][i] {
          assert a[..i + 1] == [a[0]] + a[1..][..i] && b[..i + 1] == [b[0]] + b[1..][..i];
        }
        if i :| 0 <= i < |a| && i < |b| && a[..i] == b[..i] && a[i] < b[i] {
          assert i > 0 && a[1..][..i - 1] == a[..i][1..] && b[1..][..i - 1] == b[..i][1..];
        }
      } else if a[0] < b[0] {
        assert a[..0] == b[..0];
      } else if i :| 0 <= i < |a| && i < |b| && a[..i] == b[..i] && a[i] < b[i] {
        assert i > 0 ==> a[..i][0] == b[..i][0];
      }
    }
  }

  // A pair is hashed smaller string first, whichever of the two is the fold's own.
  lemma JoinSorts(node: Bytes, sibling: Bytes)
    ensures LexLe(node, sibling) ==> Join(node, sibling) == Join(sibling, node) == node + sibling
    ensures LexLe(sibling, node) ==> Join(node, sibling) == Join(sibling, node) == sibling + node
  {
    LexTotal(node, sibling);
  }

  method CalcMerkleRoot(H: Hash, leaf: Bytes, proofs: seq<Bytes>) returns (node: Digest)
    ensures node == Fold(H, leaf, proofs)
  {
    node := H(leaf);
    for i := 0 to |proofs|
      invariant node == Fold(H, leaf, proofs[..i])
    {
      var sibling := proofs[i];
      assert proofs[..i + 1][..i] == proofs[..i];
      if LexLe(node, sibling) {
        node := H(node + sibling);
      } else {
        node := H(sibling + node);
      }
    }
    assert proofs[..|proofs|] == proofs;
  }

  datatype Tree = Leaf(bytes: Bytes) | Node(left: Tree, right: Tree)

  function Message(H: Hash, t: Tree): Bytes {
    match t
    case Leaf(bytes) => bytes
    case Node(left, right) => Join(H(Message(H, left)), H(Message(H, right)))
  }

  function Root(H: Hash, t: Tree): Digest {
    H(Message(H, t))
  }

  function Leaves(t: Tree): set<Bytes> {
    match t
    case Leaf(bytes) => {bytes}
    case Node(left, right) => Leaves(left) + Leaves(right)
  }

  function TreeMessages(H: Hash, t: Tree): set<Bytes> {
    {Message(H, t)} +
    match t
    case Leaf(_) => {}
    case Node(left, right) => TreeMessages(H, left) + TreeMessages(H, right)
  }

  function FoldMessages(H: Hash, leaf: Bytes, proofs: seq<Bytes>): set<Bytes> {
    {FoldMessage(H, leaf, proofs)} + if proofs == [] then {} else FoldMessages(H, leaf, proofs[..|proofs| - 1])
  }

  ghost predicate CollisionFree(H: Hash, messages: set<Bytes>) {
    forall x, y :: x in messages && y in messages && H(x) == H(y) ==> x == y
  }

  // sub sits in t below the given siblings, listed from sub upwards.
  predicate Below(H: Hash, t: Tree, sub: Tree, siblings: seq<Bytes>)
    decreases t
  {
    if siblings == [] then t == sub
    else if t.Leaf? then false
    else
      var front, last := siblings[..|siblings| - 1], siblings[|siblings| - 1];
      || (last == Root(H, t.right) && Below(H, t.left, sub, front))
      || (last == Root(H, t.left) && Below(H, t.right, sub, front))
  }

  // Two sorted pairs of a 32-byte string each with something else: equal only if they pair the same strings,
  // when the second pair is two 32-byte strings.
  lemma JoinInjective(node: Digest, sibling: Bytes, left: Digest, right: Digest)
    requires Join(node, sibling) == Join(left, right)
    ensures (node == left && sibling == right) || (node == right && sibling == left)
  {
    var m := Join(node, sibling);
    assert |m| == 32 + |sibling| && |m| == 64;
    assert m[..32] == if LexLe(node, sibling) then node else sibling;
    assert m[32..] == if LexLe(node, sibling) then sibling else node;
    assert m[..32] == if LexLe(left, right) then left else right;
    assert m[32..] == if LexLe(left, right) then right else left;
  }

  // LexLe is total and antisymmetric, so a pair joins the same way in either order.
  lemma {:induction false} LexTotal(a: Bytes, b: Bytes)
    ensures LexLe(a, b) || LexLe(b, a)
    ensures LexLe(a, b) && LexLe(b, a) ==> a == b
  {
    if a != [] && b != [] && a[0] == b[0] {
      LexTotal(a[1..], b[1..]);
      assert a == [a[0]] + a[1..] && b == [b[0]] + b[1..];
    }
  }

  lemma JoinCommutes(a: Bytes, b: Bytes)
    ensures Join(a, b) == Join(b, a)
  {
    LexTotal(a, b);
  }

  // A fold that starts from a subtree's message and goes on along its siblings arrives at the root.
  lemma {:induction false} FoldReaches(H: Hash, t: Tree, sub: Tree, leaf: Bytes, proofs: seq<Bytes>, j: nat)
    requires j <= |proofs| && Below(H, t, sub, proofs[j..]) && FoldMessage(H, leaf, proofs[..j]) == Message(H, sub)
    ensures FoldMessage(H, leaf, proofs) == Message(H, t)
    decreases t
  {
    if proofs[j..] == [] {
      assert proofs[..j] == proofs;
    } else {
      var front, last := proofs[..|proofs| - 1], proofs[|proofs| - 1];
      assert proofs[j..][..|proofs[j..]| - 1] == front[j..];
      assert front[..j] == proofs[..j];
      if last == Root(H, t.right) && Below(H, t.left, sub, front[j..]) {
        FoldReaches(H, t.left, sub, leaf, front, j);
      } else {
        FoldReaches(H, t.right, sub, leaf, front, j);
        JoinCommutes(Root(H, t.left), Root(H, t.right));
      }
    }
  }

  // The fold meets the tree at step j in sub: at its very start, or on a leaf of the tree.
  predicate Meets(H: Hash, t: Tree, leaf: Bytes, proofs: seq<Bytes>, j: nat, sub: Tree) {
    && j <= |proofs|
    && Below(H, t, sub, proofs[j..])
    && FoldMessage(H, leaf, proofs[..j]) == Message(H, sub)
    && (j == 0 || sub.Leaf?)
  }

  lemma {:induction false} Descend(H: Hash, t: Tree, leaf: Bytes, proofs: seq<Bytes>, messages: set<Bytes>)
    returns (j: nat, sub: Tree)
    requires CollisionFree(H, messages) && TreeMessages(H, t) <= messages && FoldMessages(H, leaf, proofs) <= messages
    requires Fold(H, leaf, proofs) == Root(H, t)
    ensures Meets(H, t, leaf, proofs, j, sub)
    decreases t
  {
    hide Join;
    assert FoldMessage(H, leaf, proofs) == Message(H, t);
    if t.Leaf? {
      j, sub := |proofs|, t;
      assert proofs[..j] == proofs;
    } else if proofs == [] {
      j, sub := 0, t;
      assert proofs[..0] == proofs;
    } else {
      var front, last := proofs[..|proofs| - 1], proofs[|proofs| - 1];
      JoinInjective(Fold(H, leaf, front), last, Root(H, t.left), Root(H, t.right));
      assert TreeMessages(H, t.left) <= messages && TreeMessages(H, t.right) <= messages;
      hide TreeMessages, FoldMessages, CollisionFree;
      if Fold(H, leaf, front) == Root(H, t.left) && last == Root(H, t.right) {
        j, sub := Descend(H, t.left, leaf, front, messages);
      } else {
        j, sub := Descend(H, t.right, leaf, front, messages);
      }
      assert proofs[j..][..|proofs[j..]| - 1] == front[j..];
      assert front[..j] == proofs[..j];
    }
  }

  // Exactly the folds that meet the tree arrive at its root.
  lemma FoldIffMeets(H: Hash, t: Tree, leaf: Bytes, proofs: seq<Bytes>)
    requires CollisionFree(H, TreeMessages(H, t) + FoldMessages(H, leaf, proofs))
    ensures Fold(H, leaf, proofs) == Root(H, t) <==> exists j, sub :: Meets(H, t, leaf, proofs, j, sub)
  {
    if Fold(H, leaf, proofs) == Root(H, t) {
      var j, sub := Descend(H, t, leaf, proofs, TreeMessages(H, t) + FoldMessages(H, leaf, proofs));
    }
    if j, sub :| Meets(H, t, leaf, proofs, j, sub) {
      FoldReaches(H, t, sub, leaf, proofs, j);
    }
  }

  lemma {:induction false} BelowLeaf(H: Hash, t: Tree, sub: Tree, siblings: seq<Bytes>)
    requires Below(H, t, sub, siblings)
    ensures Leaves(sub) <= Leaves(t)
    ensures sub.Node? ==> |Message(H, sub)| == 64
    ensures forall s :: s in siblings ==> |s| == 32
    decreases t
  {
    if siblings != [] {
      var front, last := siblings[..|siblings| - 1], siblings[|siblings| - 1];
      assert siblings == front + [last];
      if last == Root(H, t.right) && Below(H, t.left, sub, front) {
        BelowLeaf(H, t.left, sub, front);
      } else {
        BelowLeaf(H, t.right, sub, front);
      }
    }
  }

  // Every leaf has a sibling path, and folding along it hashes only what the tree hashes.
  lemma {:induction false} PathOf(H: Hash, t: Tree, leaf: Bytes) returns (path: seq<Bytes>)
    requires leaf in Leaves(t)
    ensures Below(H, t, Leaf(leaf), path)
    ensures FoldMessage(H, leaf, path) == Message(H, t) && FoldMessages(H, leaf, path) <= TreeMessages(H, t)
    decreases t
  {
    if t.Leaf? {
      path := [];
    } else {
      var near := if leaf in Leaves(t.left) then t.left else t.right;
      var far := if leaf in Leaves(t.left) then t.right else t.left;
      var front := PathOf(H, near, leaf);
      path := front + [Root(H, far)];
      assert path[..|path| - 1] == front;
      JoinCommutes(Root(H, t.left), Root(H, t.right));
    }
  }

  // A leaf of the tree that is itself a digest of the fold joined with one of the siblings.
  predicate Spells(H: Hash, t: Tree, leaf: Bytes, proofs: seq<Bytes>, j: nat) {
    j < |proofs| && Join(Fold(H, leaf, proofs[..j]), proofs[j]) in Leaves(t)
  }

  // The fold meets the tree elsewhere than on the claimed leaf itself: on an inner node's message at its start,
  // or on a leaf that spells one of its later steps.
  predicate MeetsElsewhere(H: Hash, t: Tree, leaf: Bytes, proofs: seq<Bytes>, j: nat, sub: Tree) {
    Meets(H, t, leaf, proofs, j, sub) && (j > 0 || sub.Node?)
  }

  // Every leaf of the tree is accepted with its sibling path, and what else is accepted meets the tree
  // elsewhere. That takes a 64-byte claim or a leaf that spells a step of the fold; without either, exactly
  // the leaves with their sibling paths are accepted.
  lemma FoldSound(H: Hash, t: Tree, leaf: Bytes, proofs: seq<Bytes>)
    requires CollisionFree(H, TreeMessages(H, t) + FoldMessages(H, leaf, proofs))
    ensures Below(H, t, Leaf(leaf), proofs) ==>
      Fold(H, leaf, proofs) == Root(H, t) && leaf in Leaves(t) && forall s :: s in proofs ==> |s| == 32
    ensures Fold(H, leaf, proofs) == Root(H, t) <==>
      Below(H, t, Leaf(leaf), proofs) || exists j, sub :: MeetsElsewhere(H, t, leaf, proofs, j, sub)
    ensures |leaf| != 64 && (forall j: nat :: !Spells(H, t, leaf, proofs, j)) ==>
      (Fold(H, leaf, proofs) == Root(H, t) <==> Below(H, t, Leaf(leaf), proofs))
  {
    assert proofs[0..] == proofs;
    if Fold(H, leaf, proofs) == Root(H, t) {
      var j, sub := Descend(H, t, leaf, proofs, TreeMessages(H, t) + FoldMessages(H, leaf, proofs));
      if j > 0 || sub.Node? {
        assert MeetsElsewhere(H, t, leaf, proofs, j, sub);
        ElsewhereTakes(H, t, leaf, proofs, j, sub);
      }
    }
    if Below(H, t, Leaf(leaf), proofs) {
      BelowLeaf(H, t, Leaf(leaf), proofs);
      assert Meets(H, t, leaf, proofs, 0, Leaf(leaf));
      FoldReaches(H, t, Leaf(leaf), leaf, proofs, 0);
    }
    if j, sub :| MeetsElsewhere(H, t, leaf, proofs, j, sub) {
      FoldReaches(H, t, sub, leaf, proofs, j);
    }
  }

  lemma ElsewhereTakes(H: Hash, t: Tree, leaf: Bytes, proofs: seq<Bytes>, j: nat, sub: Tree)
    requires MeetsElsewhere(H, t, leaf, proofs, j, sub)
    ensures |leaf| == 64 || exists k: nat :: Spells(H, t, leaf, proofs, k)
  {
    BelowLeaf(H, t, sub, proofs[j..]);
    if j > 0 {
      assert proofs[..j][..j - 1] == proofs[..j - 1];
      assert Spells(H, t, leaf, proofs, j - 1);
    }
  }

  // A condition that can be checked on lengths alone: 32-byte siblings and no 64-byte leaf, in the tree or claimed.
  predicate SafeLengths(t: Tree, leaf: Bytes, proofs: seq<Bytes>) {
    |leaf| != 64 && (forall b :: b in Leaves(t) ==> |b| != 64) && (forall s :: s in proofs ==> |s| == 32)
  }

  lemma NothingSpelled(H: Hash, t: Tree, leaf: Bytes, proofs: seq<Bytes>)
    requires SafeLengths(t, leaf, proofs)
    ensures forall j: nat :: !Spells(H, t, leaf, proofs, j)
  {
    forall j: nat ensures !Spells(H, t, leaf, proofs, j) {
      if j < |proofs| {
        assert proofs[j] in proofs;
        assert |Join(Fold(H, leaf, proofs[..j]), proofs[j])| == 64;
      }
    }
  }

  lemma LengthsSuffice(H: Hash, t: Tree, leaf: Bytes, proofs: seq<Bytes>)
    requires CollisionFree(H, TreeMessages(H, t) + FoldMessages(H, leaf, proofs))
    ensures SafeLengths(t, leaf, proofs) ==> (Fold(H, leaf, proofs) == Root(H, t) <==> Below(H, t, Leaf(leaf), proofs))
  {
    if SafeLengths(t, leaf, proofs) {
      NothingSpelled(H, t, leaf, proofs);
    }
    FoldSound(H, t, leaf, proofs);
  }

  // The tree of two leaves of which the first spells a digest joined with a sibling.
  function SpellingTree(H: Hash, claimed: Bytes, sibling: Bytes, other: Bytes): Tree {
    Node(Leaf(Join(H(claimed), sibling)), Leaf(other))
  }

  // Sibling lengths are not checked, and then lengths of leaves alone do not suffice: with a sibling of any other
  // length than 32 the spelling tree has no 64-byte leaf, and it accepts the digest's preimage, which is no
  // 64-byte string and no leaf of it.
  lemma SiblingLengthMatters(H: Hash, claimed: Bytes, sibling: Bytes, other: Bytes)
    requires |sibling| != 32 && |claimed| != 32 + |sibling| && |claimed| != 64 && claimed != other && |other| != 64
    ensures var t := SpellingTree(H, claimed, sibling, other);
      && (forall b :: b in Leaves(t) ==> |b| != 64)
      && claimed !in Leaves(t)
      && Fold(H, claimed, [sibling, H(other)]) == Root(H, t)
  {
    hide Join, Fold, Root;
    JoinLength(H(claimed), sibling);
    SpellingTreeAccepts(H, claimed, sibling, other);
  }

  lemma SpellingTreeAccepts(H: Hash, claimed: Bytes, sibling: Bytes, other: Bytes)
    ensures Fold(H, claimed, [sibling, H(other)]) == Root(H, SpellingTree(H, claimed, sibling, other))
  {
    hide Join, Fold, Root;
    FoldTwo(H, claimed, sibling, H(other));
    RootOfTwo(H, Join(H(claimed), sibling), other);
  }

  lemma RootOfTwo(H: Hash, a: Bytes, b: Bytes)
    ensures Root(H, Node(Leaf(a), Leaf(b))) == H(Join(H(a), H(b)))
  {
    hide Join;
    var t := Node(Leaf(a), Leaf(b));
    assert Message(H, t.left) == a && Message(H, t.right) == b;
    assert Message(H, t) == Join(H(Message(H, t.left)), H(Message(H, t.right)));
  }

  lemma FoldTwo(H: Hash, leaf: Bytes, first: Bytes, second: Bytes)
    ensures Fold(H, leaf, [first, second]) == H(Join(H(Join(H(leaf), first)), second))
  {
    hide Fold, Join;
    FoldNone(H, leaf);
    FoldOnce(H, leaf, [], first);
    FoldOnce(H, leaf, [first], second);
    assert [] + [first] == [first];
    assert [first] + [second] == [first, second];
  }

  lemma FoldNone(H: Hash, leaf: Bytes)
    ensures Fold(H, leaf, []) == H(leaf)
  {
  }

  lemma JoinLength(a: Bytes, b: Bytes)
    ensures |Join(a, b)| == |a| + |b|
  {
  }

  lemma FoldOnce(H: Hash, leaf: Bytes, proofs: seq<Bytes>, sibling: Bytes)
    ensures Fold(H, leaf, proofs + [sibling]) == H(Join(Fold(H, leaf, proofs), sibling))
  {
  }
}
