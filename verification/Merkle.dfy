/** Merkle tree, branch and branch check of a block, for any two-argument hash. */
module Merkle {

  // A 256-bit hash value, as a number.
  type Digest = nat

  // The hash of two concatenated values; nothing is assumed about it.
  type Hash2 = (Digest, Digest) -> Digest

  function Min(a: int, b: int): int {
    if a <= b then a else b
  }

  // i ^ 1
  function Sibling(i: nat): nat {
    if i % 2 == 0 then i + 1 else i - 1
  }

  // The hashes one level up; an odd level pairs its last hash with itself.
  function NextLevel(hash: Hash2, level: seq<Digest>): (next: seq<Digest>)
    ensures |next| == (|level| + 1) / 2
    ensures forall i :: 0 <= i < |next| ==>
      next[i] == hash(level[2 * i], level[Min(2 * i + 1, |level| - 1)])
  {
    seq((|level| + 1) / 2, i requires 0 <= i < (|level| + 1) / 2 =>
      hash(level[2 * i], level[Min(2 * i + 1, |level| - 1)]))
  }

  // All levels, leaves first.
  function Levels(hash: Hash2, level: seq<Digest>): (tree: seq<Digest>)
    ensures level <= tree
    decreases |level|
  {
    if |level| <= 1 then level else level + Levels(hash, NextLevel(hash, level))
  }

  function Root(hash: Hash2, level: seq<Digest>): Digest
    requires level != []
    decreases |level|
  {
    if |level| == 1 then level[0] else Root(hash, NextLevel(hash, level))
  }

  function Branch(hash: Hash2, level: seq<Digest>, i: nat): (b: seq<Digest>)
    requires level != []
    decreases |level|
  {
    if |level| == 1 then []
    else [level[Min(Sibling(i), |level| - 1)]] + Branch(hash, NextLevel(hash, level), i / 2)
  }

  // Number of levels above the leaves.
  function Depth(n: nat): nat {
    if n <= 1 then 0 else 1 + Depth((n + 1) / 2)
  }

  // i % 2 and i / 2 are the lowest bit and the right shift of a negative i, too.
  function Combine(hash: Hash2, h: Digest, otherside: Digest, i: int): Digest {
    if i % 2 == 1 then hash(otherside, h) else hash(h, otherside)
  }

  function Climb(hash: Hash2, h: Digest, branch: seq<Digest>, i: int): Digest
    decreases |branch|
  {
    if branch == [] then h
    else Climb(hash, Combine(hash, h, branch[0], i), branch[1..], i / 2)
  }

  // ---------- The tree is right ----------

  lemma NoTree(hash: Hash2)
    ensures Levels(hash, []) == []
    ensures forall level: seq<Digest>, i :: |level| == 1 ==> Branch(hash, level, i) == []
  {
  }

  lemma TreeStep(hash: Hash2, level: seq<Digest>, tree: seq<Digest>, j: nat)
    requires |level| > 1 && j <= |tree| && tree[j..] == Levels(hash, level)
    ensures j + |level| <= |tree| && tree[j + |level|..] == Levels(hash, NextLevel(hash, level))
    ensures forall i :: 0 <= i < |level| ==> tree[j + i] == level[i]
  {
    var next := Levels(hash, NextLevel(hash, level));
    assert tree[j..] == level + next;
    assert tree[j + |level|..] == tree[j..][|level|..];
    forall i | 0 <= i < |level| ensures tree[j + i] == level[i] {
      assert tree[j + i] == tree[j..][i];
    }
  }

  lemma BranchUnfolds(hash: Hash2, level: seq<Digest>, i: nat)
    requires |level| > 1
    ensures NextLevel(hash, level) != [] && 0 <= Min(Sibling(i), |level| - 1) < |level|
    ensures Branch(hash, level, i)
      == [level[Min(Sibling(i), |level| - 1)]] + Branch(hash, NextLevel(hash, level), i / 2)
  {
  }

  lemma ParentOf(hash: Hash2, level: seq<Digest>, i: nat)
    requires i < |level| && |level| > 1
    ensures i / 2 < |NextLevel(hash, level)| < |level|
    ensures Combine(hash, level[i], level[Min(Sibling(i), |level| - 1)], i) == NextLevel(hash, level)[i / 2]
  {
  }

  lemma BranchStep(hash: Hash2, level: seq<Digest>, i: nat)
    requires |level| > 1
    ensures var b := Branch(hash, level, i);
      b != [] && b[0] == level[Min(Sibling(i), |level| - 1)] && b[1..] == Branch(hash, NextLevel(hash, level), i / 2)
  {
  }

  // The branch of any leaf leads back to the root.
  lemma {:induction false} BranchLeadsToRoot(hash: Hash2, level: seq<Digest>, i: nat)
    requires i < |level|
    ensures Climb(hash, level[i], Branch(hash, level, i), i) == Root(hash, level)
    decreases |level|
  {
    if |level| > 1 {
      BranchStep(hash, level, i);
      ParentOf(hash, level, i);
      BranchLeadsToRoot(hash, NextLevel(hash, level), i / 2);
    }
  }

  // ---------- What the root is ----------

  lemma RootUnfolds(hash: Hash2, level: seq<Digest>)
    requires level != []
    ensures Root(hash, level) == if |level| == 1 then level[0] else Root(hash, NextLevel(hash, level))
  {
  }

  // An even level has the root of the hashes of its pairs, left one first.
  lemma PairsHaveTheRoot(hash: Hash2, level: seq<Digest>, pairs: seq<Digest>)
    requires pairs != [] && |level| == 2 * |pairs|
    requires forall i :: 0 <= i < |pairs| ==> pairs[i] == hash(level[2 * i], level[2 * i + 1])
    ensures Root(hash, level) == Root(hash, pairs)
  {
    assert NextLevel(hash, level) == pairs;
  }

  // An odd level has the root of the level that repeats its last hash.
  lemma OddRepeatsLast(hash: Hash2, level: seq<Digest>)
    requires |level| > 1 && |level| % 2 == 1
    ensures Root(hash, level) == Root(hash, level + [level[|level| - 1]])
  {
    hide Root;
    var more := level + [level[|level| - 1]];
    assert NextLevel(hash, level) == NextLevel(hash, more);
    RootUnfolds(hash, level);
    RootUnfolds(hash, more);
  }

  function PowerOfTwo(k: nat): (n: nat)
    ensures n >= 1
  {
    if k == 0 then 1 else 2 * PowerOfTwo(k - 1)
  }

  lemma UpOfBoth(hash: Hash2, left: seq<Digest>, right: seq<Digest>, n: nat)
    requires |left| == |right| == 2 * n
    ensures NextLevel(hash, left + right) == NextLevel(hash, left) + NextLevel(hash, right)
  {
    hide NextLevel;
    var level, up, both := left + right, NextLevel(hash, left + right), NextLevel(hash, left) + NextLevel(hash, right);
    assert |up| == |both| == 2 * n;
    forall i | 0 <= i < 2 * n ensures up[i] == both[i] {
      if i >= n {
        var j := i - n;
        assert level[2 * i] == right[2 * j] && level[2 * i + 1] == right[2 * j + 1];
      }
    }
  }

  // The root of two full trees side by side is the hash of their roots.
  lemma {:induction false} HalvesJoin(hash: Hash2, left: seq<Digest>, right: seq<Digest>, k: nat)
    requires |left| == |right| == PowerOfTwo(k)
    ensures Root(hash, left + right) == hash(Root(hash, left), Root(hash, right))
    decreases k
  {
    hide Root, NextLevel;
    RootUnfolds(hash, left);
    RootUnfolds(hash, right);
    RootUnfolds(hash, left + right);
    var up := NextLevel(hash, left + right);
    if k == 0 {
      assert up == [hash(left[0], right[0])];
      RootUnfolds(hash, up);
    } else {
      UpOfBoth(hash, left, right, PowerOfTwo(k - 1));
      HalvesJoin(hash, NextLevel(hash, left), NextLevel(hash, right), k - 1);
    }
  }

  // Three leaves: the third is its own neighbour.
  lemma ThreeLeaves(hash: Hash2, a: Digest, b: Digest, c: Digest)
    ensures Root(hash, [a, b, c]) == hash(hash(a, b), hash(c, c))
  {
    OddRepeatsLast(hash, [a, b, c]);
    assert [a, b, c] + [c] == [a, b] + [c, c];
    HalvesJoin(hash, [a, b], [c, c], 1);
    assert [a] + [b] == [a, b] && [c] + [c] == [c, c];
    HalvesJoin(hash, [a], [b], 0);
    HalvesJoin(hash, [c], [c], 0);
  }

  ghost predicate Injective(hash: Hash2) {
    forall a, b, c, d :: hash(a, b) == hash(c, d) ==> a == c && b == d
  }

  lemma SamePair(hash: Hash2, h: Digest, other: Digest, g: Digest, otherOfG: Digest, i: nat)
    requires Injective(hash)
    ensures Combine(hash, h, other, i) == Combine(hash, g, otherOfG, i) <==> h == g && other == otherOfG
  {
  }

  lemma HeadAndTail(b: seq<Digest>, c: seq<Digest>)
    requires b != [] && c != []
    ensures b == c <==> b[0] == c[0] && b[1..] == c[1..]
  {
    assert b == [b[0]] + b[1..] && c == [c[0]] + c[1..];
  }

  // When the hash has no collisions, nothing else leads to the root: a branch of full
  // length checks at position i only for leaf i, and only if it is the real branch.
  lemma {:induction false} OnlyTheLeafChecks(hash: Hash2, level: seq<Digest>, i: nat, h: Digest, branch: seq<Digest>)
    requires Injective(hash) && i < |level| && |branch| == Depth(|level|)
    ensures Climb(hash, h, branch, i) == Root(hash, level) <==>
      h == level[i] && branch == Branch(hash, level, i)
    decreases |level|
  {
    hide NextLevel, Branch, Sibling;
    if |level| > 1 {
      var own, up := Branch(hash, level, i), NextLevel(hash, level);
      BranchStep(hash, level, i);
      ParentOf(hash, level, i);
      SamePair(hash, h, branch[0], level[i], own[0], i);
      OnlyTheLeafChecks(hash, up, i / 2, Combine(hash, h, branch[0], i), branch[1..]);
      HeadAndTail(branch, own);
    } else {
      NoTree(hash);
    }
  }

  lemma {:induction false} RootIsLastOfLevels(hash: Hash2, level: seq<Digest>)
    requires level != []
    ensures Levels(hash, level)[|Levels(hash, level)| - 1] == Root(hash, level)
    decreases |level|
  {
    hide NextLevel;
    if |level| > 1 {
      var above := Levels(hash, NextLevel(hash, level));
      RootIsLastOfLevels(hash, NextLevel(hash, level));
      assert Levels(hash, level) == level + above;
    }
  }

  lemma LevelsUnfold(hash: Hash2, level: seq<Digest>)
    requires |level| > 1
    ensures Levels(hash, level) == level + Levels(hash, NextLevel(hash, level))
  {
  }

  lemma NextPartOfTree(hash: Hash2, tree: seq<Digest>, j: nat, whole: seq<Digest>)
    requires j < |tree| - 1 && tree[..j] + Levels(hash, tree[j..]) == whole
    ensures var t := tree + NextLevel(hash, tree[j..]);
      t[..|tree|] + Levels(hash, t[|tree|..]) == whole
  {
    hide NextLevel, Levels;
    var level := tree[j..];
    var next := NextLevel(hash, level);
    LevelsUnfold(hash, level);
    assert tree[..j] + (level + Levels(hash, next)) == tree[..j] + level + Levels(hash, next);
    assert (tree + next)[..|tree|] == tree && (tree + next)[|tree|..] == next;
    assert tree == tree[..j] + level;
  }

  // ---------- The block ----------

  class MerkleBlock {
    const hash: Hash2
    const zero: Digest
    const vtx: seq<Digest>         // transaction hashes
    var vMerkleTree: seq<Digest>   // empty until built

    ghost predicate Valid()
      reads this
    {
      vMerkleTree == [] || vMerkleTree == Levels(hash, vtx)
    }

    constructor (hash: Hash2, zero: Digest, vtx: seq<Digest>)
      ensures Valid() && this.hash == hash && this.zero == zero && this.vtx == vtx
    {
      this.hash, this.zero, this.vtx := hash, zero, vtx;
      vMerkleTree := [];
    }

    // One level of the tree, whose hashes are tree[j..j + nSize].
    method BuildLevel(j: nat, nSize: nat)
      requires nSize > 1 && |vMerkleTree| == j + nSize
      modifies this
      ensures vMerkleTree == old(vMerkleTree) + NextLevel(hash, old(vMerkleTree)[j..])
    {
      ghost var level := vMerkleTree[j..];
      var i := 0;
      while i < nSize
        invariant 0 <= i <= nSize + 1 && i % 2 == 0
        invariant vMerkleTree == old(vMerkleTree) + NextLevel(hash, level)[..i / 2]
      {
        var i2 := Min(i + 1, nSize - 1);
        ghost var next := NextLevel(hash, level);
        assert next[..i / 2 + 1] == next[..i / 2] + [next[i / 2]];
        vMerkleTree := vMerkleTree + [hash(vMerkleTree[j + i], vMerkleTree[j + i2])];
        i := i + 2;
      }
      assert NextLevel(hash, level)[..i / 2] == NextLevel(hash, level);
    }

    method BuildMerkleTree() returns (root: Digest)
      modifies this
      ensures vMerkleTree == Levels(hash, vtx)
      ensures root == if vtx == [] then zero else Root(hash, vtx)
    {
      hide NextLevel;
      vMerkleTree := vtx;
      var j, nSize := 0, |vtx|;
      while nSize > 1
        invariant 0 <= j && 0 <= nSize && |vMerkleTree| == j + nSize && (vtx != [] ==> nSize > 0)
        invariant vMerkleTree[..j] + Levels(hash, vMerkleTree[j..]) == Levels(hash, vtx)
        decreases nSize
      {
        ghost var before, level := vMerkleTree, vMerkleTree[j..];
        BuildLevel(j, nSize);
        NextPartOfTree(hash, before, j, Levels(hash, vtx));
        j, nSize := j + nSize, (nSize + 1) / 2;
        assert vMerkleTree == before + NextLevel(hash, level);
      }
      assert vMerkleTree[..j] + vMerkleTree[j..] == vMerkleTree;
      if vMerkleTree == [] {
        return zero;
      }
      RootIsLastOfLevels(hash, vtx);
      root := vMerkleTree[|vMerkleTree| - 1];
    }

    method GetMerkleBranch(index: nat) returns (vMerkleBranch: seq<Digest>)
      requires Valid()
      modifies this
      ensures Valid()
      ensures vMerkleBranch == if vtx == [] then [] else Branch(hash, vtx, index)
    {
      hide NextLevel, Levels, Branch, Sibling;
      NoTree(hash);
      if vMerkleTree == [] {
        var _ := BuildMerkleTree();
      }
      vMerkleBranch := [];
      var j, nSize, nIndex := 0, |vtx|, index;
      ghost var level := vtx;
      while nSize > 1
        invariant Valid() && nSize == |level| && (vtx != [] ==> level != [])
        invariant 0 <= j <= |vMerkleTree| && vMerkleTree[j..] == Levels(hash, level)
        invariant vtx != [] ==> vMerkleBranch + Branch(hash, level, nIndex) == Branch(hash, vtx, index)
        invariant vtx == [] ==> vMerkleBranch == []
        decreases nSize
      {
        var i := Min(Sibling(nIndex), nSize - 1);
        ghost var next := NextLevel(hash, level);
        TreeStep(hash, level, vMerkleTree, j);
        BranchUnfolds(hash, level, nIndex);
        assert vMerkleBranch + ([level[i]] + Branch(hash, next, nIndex / 2))
          == vMerkleBranch + [level[i]] + Branch(hash, next, nIndex / 2);
        vMerkleBranch := vMerkleBranch + [vMerkleTree[j + i]];
        nIndex, j, nSize, level := nIndex / 2, j + nSize, (nSize + 1) / 2, next;
      }
    }

    // Position -1 stands for "no position" and checks against nothing.
    static method CheckMerkleBranch(hash: Hash2, zero: Digest, leaf: Digest, vMerkleBranch: seq<Digest>, index: int)
      returns (root: Digest)
      ensures root == if index == -1 then zero else Climb(hash, leaf, vMerkleBranch, index)
    {
      if index == -1 {
        return zero;
      }
      var nIndex := index;
      root := leaf;
      for k := 0 to |vMerkleBranch|
        invariant Climb(hash, root, vMerkleBranch[k..], nIndex) == Climb(hash, leaf, vMerkleBranch, index)
      {
        assert vMerkleBranch[k..][1..] == vMerkleBranch[k + 1..];
        root := if nIndex % 2 == 1 then hash(vMerkleBranch[k], root) else hash(root, vMerkleBranch[k]);
        nIndex := nIndex / 2;
      }
    }
  }

  // For every transaction list, position and hash the three methods agree.
  method BranchChecks(block: MerkleBlock, i: nat) returns (agree: bool)
    requires block.Valid() && i < |block.vtx|
    modifies block
    ensures agree && block.Valid()
  {
    var root := block.BuildMerkleTree();
    var branch := block.GetMerkleBranch(i);
    var checked := MerkleBlock.CheckMerkleBranch(block.hash, block.zero, block.vtx[i], branch, i);
    BranchLeadsToRoot(block.hash, block.vtx, i);
    agree := checked == root;
  }
}
