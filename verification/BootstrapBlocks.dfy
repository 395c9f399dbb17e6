/** The bootstrap loader's block records, written one block late so that the next hash
 is known. */
module BootstrapBlocks {
  import opened OrphanHashes
  import opened BlockIndex

  // The main chain and nothing else.
  ghost predicate IsChain(blocks: seq<Header>) {
    Consistent(Chain(blocks, {}))
  }

  class BlockLoader {
    const stopHeight: int
    var blockInfo: Header             // the block that is not written yet
    var nextBlockHash: HashStr
    var heights: map<nat, HashStr>
    var objects: map<HashStr, BlockObject>

    constructor (stopHeight: int)
      ensures this.stopHeight == stopHeight
      ensures forall blocks :: Progress(blocks, 0)
    {
      this.stopHeight := stopHeight;
      blockInfo, nextBlockHash, heights, objects := Header(ZEROS, ZEROS, 0, 0), ZEROS, map[], map[];
    }

    // Blocks below n - 1 are written, with their successors; block n - 1 is at hand.
    ghost predicate Behind(blocks: seq<Header>, n: nat)
      reads this
      requires n <= |blocks|
    {
      && (n > 0 ==> blockInfo == blocks[n - 1] && nextBlockHash == ZEROS)
      && Written(heights, objects, blocks, if n == 0 then 0 else n - 1)
    }

    // The state before block n comes: all are written once the last one came.
    ghost predicate Progress(blocks: seq<Header>, n: nat)
      reads this
      requires n <= |blocks|
    {
      if n == |blocks| then Written(heights, objects, blocks, n) else Behind(blocks, n)
    }

    method SaveBlock()
      modifies this`heights, this`objects
      ensures heights == old(heights)[blockInfo.height := blockInfo.hash]
      ensures objects == old(objects)[blockInfo.hash :=
        BlockObject(blockInfo.height, blockInfo.prev, nextBlockHash, false)]
    {
      objects := objects[blockInfo.hash := BlockObject(blockInfo.height, blockInfo.prev, nextBlockHash, false)];
      heights := heights[blockInfo.height := blockInfo.hash];
    }

    method ParseBlock(blk: Header, height: nat, ghost blocks: seq<Header>)
      requires IsChain(blocks) && height < |blocks| && blk == blocks[height] && stopHeight == |blocks| - 1
      requires Progress(blocks, height)
      modifies this
      ensures Progress(blocks, height + 1)
    {
      if height > 0 {
        nextBlockHash := blk.hash;
        WriteNext(heights, objects, blocks, height - 1);
        SaveBlock();
      }
      blockInfo, nextBlockHash := blk, ZEROS;
      if height == stopHeight {
        WriteNext(heights, objects, blocks, height);
        SaveBlock();
      }
    }
  }

  ghost predicate HeightsBelow(heights: map<nat, HashStr>, blocks: seq<Header>, k: nat)
    requires k <= |blocks|
  {
    && (forall i: nat :: i in heights <==> i < k)
    && forall i: nat :: i < k ==> heights[i] == blocks[i].hash
  }

  ghost predicate ObjectsBelow(objects: map<HashStr, BlockObject>, blocks: seq<Header>, k: nat)
    requires k <= |blocks|
  {
    forall i: nat :: i < k ==> MainAt(objects, blocks, i)
  }

  ghost predicate HashBelow(blocks: seq<Header>, k: nat, h: HashStr)
    requires k <= |blocks|
  {
    exists i :: 0 <= i < k && blocks[i].hash == h
  }

  ghost predicate OnlyBelow(objects: map<HashStr, BlockObject>, blocks: seq<Header>, k: nat)
    requires k <= |blocks|
  {
    forall h :: h in objects ==> HashBelow(blocks, k, h)
  }

  // 10_ and 11_ hold the first k blocks of the chain.
  ghost predicate Written(heights: map<nat, HashStr>, objects: map<HashStr, BlockObject>, blocks: seq<Header>, k: nat)
    requires k <= |blocks|
  {
    HeightsBelow(heights, blocks, k) && ObjectsBelow(objects, blocks, k) && OnlyBelow(objects, blocks, k)
  }

  lemma WriteObject(objects: map<HashStr, BlockObject>, blocks: seq<Header>, k: nat, o: BlockObject)
    requires IsChain(blocks) && k < |blocks| && ObjectsBelow(objects, blocks, k)
    requires o == BlockObject(k, blocks[k].prev, NextHash(blocks, k), false)
    ensures ObjectsBelow(objects[blocks[k].hash := o], blocks, k + 1)
  {
    HashesDiffer(Chain(blocks, {}));
    hide IsChain, Consistent, NextHash;
    var after := objects[blocks[k].hash := o];
    forall i: nat | i < k + 1 ensures MainAt(after, blocks, i) {
      assert i < k ==> MainAt(objects, blocks, i);
    }
  }

  lemma WriteOnly(objects: map<HashStr, BlockObject>, blocks: seq<Header>, k: nat, o: BlockObject)
    requires k < |blocks| && OnlyBelow(objects, blocks, k)
    ensures OnlyBelow(objects[blocks[k].hash := o], blocks, k + 1)
  {
    var after := objects[blocks[k].hash := o];
    forall h | h in after ensures HashBelow(blocks, k + 1, h) {
      if h != blocks[k].hash {
        var i :| 0 <= i < k && blocks[i].hash == h;
        assert i < k + 1;
      }
    }
  }

  lemma WriteNext(heights: map<nat, HashStr>, objects: map<HashStr, BlockObject>, blocks: seq<Header>, k: nat)
    requires IsChain(blocks) && k < |blocks| && Written(heights, objects, blocks, k)
    ensures blocks[k].height == k
    ensures var o := BlockObject(k, blocks[k].prev, NextHash(blocks, k), false);
      Written(heights[k := blocks[k].hash], objects[blocks[k].hash := o], blocks, k + 1)
  {
    WriteObject(objects, blocks, k, BlockObject(k, blocks[k].prev, NextHash(blocks, k), false));
    WriteOnly(objects, blocks, k, BlockObject(k, blocks[k].prev, NextHash(blocks, k), false));
  }

  lemma AllWritten(heights: map<nat, HashStr>, objects: map<HashStr, BlockObject>, blocks: seq<Header>)
    requires IsChain(blocks) && Written(heights, objects, blocks, |blocks|)
    ensures HeightsAgree(heights, blocks) && ObjectsAgree(objects, Chain(blocks, {}))
  {
    hide IsChain, MainAt, NextHash;
    forall h | h in objects ensures exists b :: Known(Chain(blocks, {}), b) && b.hash == h {
      var i :| 0 <= i < |blocks| && blocks[i].hash == h;
      assert Known(Chain(blocks, {}), blocks[i]);
    }
  }

  // ---------- The same records as accepting the blocks one by one ----------

  function Accepts(blocks: seq<Header>): (steps: seq<Step>)
    ensures |steps| == |blocks| && forall i :: 0 <= i < |steps| ==> steps[i] == Step.AcceptBlock(blocks[i])
  {
    seq(|blocks|, i requires 0 <= i < |blocks| => Step.AcceptBlock(blocks[i]))
  }

  lemma NextMayBeAccepted(blocks: seq<Header>, k: nat)
    requires IsChain(blocks) && k < |blocks|
    ensures var c := Chain(blocks[..k], {});
      && Legal(c, Step.AcceptBlock(blocks[k]))
      && Apply(c, Step.AcceptBlock(blocks[k])) == Chain(blocks[..k + 1], {})
  {
    var c := Chain(blocks[..k], {});
    HashesDiffer(Chain(blocks, {}));
    forall a | Known(c, a) ensures a.hash != blocks[k].hash {
      var i :| 0 <= i < k && blocks[..k][i] == a;
      assert blocks[i] == a;
    }
    assert blocks[k] !in blocks[..k] by {
      assert blocks[k].height == k;
      assert forall i :: 0 <= i < k ==> blocks[..k][i].height == i;
    }
    assert blocks[..k + 1] == blocks[..k] + [blocks[k]];
    assert {} - {blocks[k]} == {};
  }

  lemma {:induction false} AcceptsAreLegal(blocks: seq<Header>, k: nat)
    requires IsChain(blocks) && k <= |blocks|
    ensures LegalRun(Chain(blocks[..k], {}), Accepts(blocks[k..]))
    ensures Replay(Chain(blocks[..k], {}), Accepts(blocks[k..])) == Chain(blocks, {})
    decreases |blocks| - k
  {
    hide IsChain, Legal, Apply;
    if k == |blocks| {
      assert blocks[..k] == blocks && blocks[k..] == [];
    } else {
      NextMayBeAccepted(blocks, k);
      AcceptsAreLegal(blocks, k + 1);
      assert Accepts(blocks[k..])[1..] == Accepts(blocks[k + 1..]);
    }
  }

  lemma SameHeights(x: map<nat, HashStr>, y: map<nat, HashStr>, main: seq<Header>)
    requires HeightsAgree(x, main) && HeightsAgree(y, main)
    ensures x == y
  {
    assert forall i :: i in x ==> i in y && x[i] == y[i];
    assert forall i :: i in y ==> i in x;
  }

  lemma SameObjects(x: map<HashStr, BlockObject>, y: map<HashStr, BlockObject>, blocks: seq<Header>)
    requires ObjectsAgree(x, Chain(blocks, {})) && ObjectsAgree(y, Chain(blocks, {}))
    ensures x == y
  {
    hide NextHash;
    HashOfMain(x, y, blocks);
    HashOfMain(y, x, blocks);
    assert x.Keys == y.Keys;
  }

  lemma HashOfMain(x: map<HashStr, BlockObject>, y: map<HashStr, BlockObject>, blocks: seq<Header>)
    requires ObjectsAgree(x, Chain(blocks, {})) && ObjectsAgree(y, Chain(blocks, {}))
    ensures forall h :: h in x ==> h in y && x[h] == y[h]
  {
    hide NextHash;
    forall h | h in x ensures h in y && x[h] == y[h] {
      var b :| Known(Chain(blocks, {}), b) && b.hash == h;
      var i: nat :| i < |blocks| && blocks[i] == b;
      assert MainAt(x, blocks, i) && MainAt(y, blocks, i);
    }
  }
}
