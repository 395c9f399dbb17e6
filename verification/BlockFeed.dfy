/** The blocks of log1, as the rows of the producer tell of them, keep the block index in step. */
module BlockFeed {
  import opened Transactions
  import opened Ledgers
  import opened Log2Spec
  import opened ItemRuns
  import opened BlockMoves
  import OrphanHashes
  import BlockIndex

  // How block hashes are written.
  type Naming = BlockHash -> OrphanHashes.HashStr

  // No two of these hashes are written alike.
  ghost predicate OneToOneOn(s: set<BlockHash>, name: Naming) {
    forall a, b :: a in s && b in s && name(a) == name(b) ==> a == b
  }

  function Depth(h: BlockHash): nat {
    match h
    case NoBlock => 0
    case BlockHashOf(b) => Depth(b.prev) + 1
  }

  function HeaderOf(b: Block, name: Naming): BlockIndex.Header {
    BlockIndex.Header(name(BlockHashOf(b)), name(b.prev), Depth(b.prev), CoinbaseValue(b.vtx))
  }

  function HeadersOf(blocks: seq<Block>, name: Naming): (hs: seq<BlockIndex.Header>)
    ensures |hs| == |blocks|
    ensures forall i :: 0 <= i < |hs| ==> hs[i] == HeaderOf(blocks[i], name)
  {
    seq(|blocks|, i requires 0 <= i < |blocks| => HeaderOf(blocks[i], name))
  }

  lemma HeadersSnoc(blocks: seq<Block>, b: Block, name: Naming)
    ensures HeadersOf(blocks + [b], name) == HeadersOf(blocks, name) + [HeaderOf(b, name)]
  {
  }

  lemma HeadersFront(blocks: seq<Block>, name: Naming)
    requires blocks != []
    ensures HeadersOf(Front(blocks), name) == Front(HeadersOf(blocks, name))
  {
  }

  // Every block the index knows is one of `s`.
  ghost predicate Named(c: BlockIndex.Chain, name: Naming, s: set<BlockHash>) {
    forall x :: BlockIndex.Known(c, x) ==> exists b :: x == HeaderOf(b, name) && BlockHashOf(b) in s
  }

  lemma NamedStep(c: BlockIndex.Chain, step: BlockIndex.Step, b: Block, name: Naming, s: set<BlockHash>)
    requires BlockIndex.Consistent(c) && BlockIndex.Legal(c, step) && Named(c, name, s)
    requires step.block == HeaderOf(b, name) && BlockHashOf(b) in s
    ensures BlockIndex.Consistent(BlockIndex.Apply(c, step)) && Named(BlockIndex.Apply(c, step), name, s)
  {
    BlockIndex.LegalKeepsConsistent(c, step);
    hide BlockIndex.Consistent, BlockIndex.Known;
  }

  // The index holds the blocks up to the base of the world, then those of the world.
  // All of them are in `s`, in which names are unique.
  ghost predicate InStep(c: BlockIndex.Chain, w: World, name: Naming, s: set<BlockHash>) {
    && OneToOneOn(s, name) && BlockIndex.Consistent(c) && Named(c, name, s)
    && w.baseHash in s && (forall b :: b in w.blocks ==> BlockHashOf(b) in s)
    && w.baseHeight + 1 == Depth(w.baseHash)
    && |c.main| == Height(w) + 1
    && c.main[w.baseHeight].hash == name(w.baseHash)
    && c.main[w.baseHeight + 1..] == HeadersOf(w.blocks, name)
  }

  // The blocks of an item are in `s`.
  ghost predicate Covered(item: Log1Item, s: set<BlockHash>) {
    item.BlockItem? ==> BlockHashOf(item.block) in s
  }

  // What the parser makes of a moving block.
  function StepFor(m: Move, name: Naming): BlockIndex.Step
    requires m.id.BlockHashOf? && m.height >= 0
  {
    var x := BlockIndex.Header(name(m.id), name(m.id.block.prev), m.height, CoinbaseValue(m.id.block.vtx));
    if m.Enter? then BlockIndex.Step.AcceptBlock(x) else BlockIndex.Step.RejectBlock(x)
  }

  ghost predicate Usable(moves: seq<Move>) {
    forall m :: m in moves ==> m.id.BlockHashOf? && m.height >= 0
  }

  function StepsFor(moves: seq<Move>, name: Naming): (steps: seq<BlockIndex.Step>)
    requires Usable(moves)
    ensures |steps| == |moves| && forall i :: 0 <= i < |moves| ==> steps[i] == StepFor(moves[i], name)
  {
    seq(|moves|, i requires 0 <= i < |moves| => StepFor(moves[i], name))
  }

  // Every block that comes pays at least the subsidy of its height.
  ghost predicate MovesPay(moves: seq<Move>)
    requires Usable(moves)
  {
    forall m :: m in moves && m.Enter? ==> CoinbaseValue(m.id.block.vtx) >= BlockIndex.Subsidy(m.height)
  }

  lemma MovesPayConcat(ms: seq<Move>, ns: seq<Move>)
    requires Usable(ms) && Usable(ns)
    ensures Usable(ms + ns) && (MovesPay(ms + ns) <==> MovesPay(ms) && MovesPay(ns))
  {
    assert forall m :: m in ms + ns <==> m in ms || m in ns;
  }

  // The block of this item pays enough if it goes forward.
  ghost predicate ItemPays(w: World, item: Log1Item) {
    item.BlockItem? && item.height > Height(w) ==> CoinbaseValue(item.block.vtx) >= BlockIndex.Subsidy(item.height)
  }

  // Every block with which the chain goes forward pays at least the subsidy.
  ghost predicate ItemsPay(w: World, items: seq<Log1Item>)
    requires ValidWorld(w) && ValidItems(w, items)
    decreases |items|
  {
    items == [] || (ItemsPay(w, Front(items)) && ItemPays(Steps(w, Front(items)), Last(items)))
  }

  // The blocks that come are those of the items that go forward.
  lemma {:induction false} PaysByItem(w: World, items: seq<Log1Item>)
    requires ValidWorld(w) && ValidItems(w, items) && Usable(RunMoves(w, items))
    ensures MovesPay(RunMoves(w, items)) <==> ItemsPay(w, items)
    decreases |items|
  {
    hide ValidWorld, ValidItem, Step, Height;
    if items != [] {
      var before, v := RunMoves(w, Front(items)), Steps(w, Front(items));
      var next := ItemMoves(v, Last(items));
      assert forall m :: m in before + next <==> m in before || m in next;
      PaysByItem(w, Front(items));
      MovesPayConcat(before, next);
    }
  }

  lemma StepsForConcat(ms: seq<Move>, ns: seq<Move>, name: Naming)
    requires Usable(ms) && Usable(ns)
    ensures Usable(ms + ns) && StepsFor(ms + ns, name) == StepsFor(ms, name) + StepsFor(ns, name)
  {
  }

  lemma TipIsInStep(c: BlockIndex.Chain, w: World, name: Naming, s: set<BlockHash>)
    requires InStep(c, w, name, s)
    ensures var tip := c.main[|c.main| - 1];
      && tip.hash == name(Tip(w)) && Depth(Tip(w)) == Height(w) + 1 && Tip(w) in s
      && (w.blocks != [] ==> tip == HeaderOf(Last(w.blocks), name))
  {
    var tip := c.main[|c.main| - 1];
    if w.blocks != [] {
      assert tip == c.main[w.baseHeight + 1..][|w.blocks| - 1];
      assert Last(w.blocks) in w.blocks;
    }
    assert BlockIndex.Known(c, tip);
    assert tip.height == |c.main| - 1;
    var b :| tip == HeaderOf(b, name) && BlockHashOf(b) in s;
    assert name(BlockHashOf(b)) == name(Tip(w));
  }

  lemma EnterIsLegal(c: BlockIndex.Chain, w: World, b: Block, name: Naming, s: set<BlockHash>)
    requires InStep(c, w, name, s) && b.prev == Tip(w) && BlockHashOf(b) in s
    requires c.main[|c.main| - 1].hash == name(Tip(w)) && Depth(Tip(w)) == Height(w) + 1
    ensures BlockIndex.Legal(c, BlockIndex.Step.AcceptBlock(HeaderOf(b, name)))
  {
    var x := HeaderOf(b, name);
    forall a | BlockIndex.Known(c, a) && a.hash == x.hash ensures a == x {
      var k :| a == HeaderOf(k, name) && BlockHashOf(k) in s;
    }
    assert forall a :: a in c.main ==> a.height < |c.main|;
  }

  lemma EnterStaysInStep(c: BlockIndex.Chain, w: World, b: Block, v: World, name: Naming, s: set<BlockHash>)
    requires InStep(c, w, name, s) && b.prev == Tip(w) && BlockHashOf(b) in s
    requires v.blocks == w.blocks + [b] && v.baseHash == w.baseHash && v.baseHeight == w.baseHeight
    requires BlockIndex.Legal(c, BlockIndex.Step.AcceptBlock(HeaderOf(b, name)))
    ensures InStep(BlockIndex.Apply(c, BlockIndex.Step.AcceptBlock(HeaderOf(b, name))), v, name, s)
  {
    hide BlockIndex.Consistent, BlockIndex.Legal, BlockIndex.Known, Named, OneToOneOn, HeadersOf;
    var x := HeaderOf(b, name);
    var d := BlockIndex.Apply(c, BlockIndex.Step.AcceptBlock(x));
    NamedStep(c, BlockIndex.Step.AcceptBlock(x), b, name, s);
    HeadersSnoc(w.blocks, b, name);
    assert d.main[w.baseHeight + 1..] == c.main[w.baseHeight + 1..] + [x];
  }

  lemma LeaveStaysInStep(c: BlockIndex.Chain, w: World, v: World, name: Naming, s: set<BlockHash>)
    requires InStep(c, w, name, s) && w.blocks != [] && v.blocks == Front(w.blocks)
    requires v.baseHash == w.baseHash && v.baseHeight == w.baseHeight
    requires c.main[|c.main| - 1] == HeaderOf(Last(w.blocks), name)
    ensures var step := BlockIndex.Step.RejectBlock(HeaderOf(Last(w.blocks), name));
      BlockIndex.Legal(c, step) && InStep(BlockIndex.Apply(c, step), v, name, s)
  {
    hide BlockIndex.Consistent, BlockIndex.Known, Named, OneToOneOn, HeadersOf;
    var step := BlockIndex.Step.RejectBlock(HeaderOf(Last(w.blocks), name));
    assert Last(w.blocks) in w.blocks;
    NamedStep(c, step, Last(w.blocks), name, s);
    var d := BlockIndex.Apply(c, step);
    HeadersFront(w.blocks, name);
    assert d.main[w.baseHeight + 1..] == Front(c.main[w.baseHeight + 1..]);
  }

  lemma OneStep(c: BlockIndex.Chain, step: BlockIndex.Step)
    requires BlockIndex.Legal(c, step)
    ensures BlockIndex.LegalRun(c, [step]) && BlockIndex.Replay(c, [step]) == BlockIndex.Apply(c, step)
  {
    assert [step][1..] == [];
  }

  // Every valid item asks the block index for a legal step only, and keeps it in step.
  lemma ItemIsLegal(c: BlockIndex.Chain, w: World, item: Log1Item, name: Naming, s: set<BlockHash>)
    requires InStep(c, w, name, s) && ValidWorld(w) && ValidItem(w, item) && Covered(item, s)
    ensures Usable(ItemMoves(w, item))
    ensures var steps := StepsFor(ItemMoves(w, item), name);
      && BlockIndex.LegalRun(c, steps)
      && InStep(BlockIndex.Replay(c, steps), Step(w, item), name, s)
  {
    hide InStep, ValidWorld, BlockIndex.Legal, BlockIndex.Apply, BlockIndex.LegalRun, BlockIndex.Replay;
    if item.BlockItem? {
      TipIsInStep(c, w, name, s);
      if item.height > Height(w) {
        var step := BlockIndex.Step.AcceptBlock(HeaderOf(item.block, name));
        EnterIsLegal(c, w, item.block, name, s);
        EnterStaysInStep(c, w, item.block, Step(w, item), name, s);
        OneStep(c, step);
        assert StepsFor(ItemMoves(w, item), name) == [step];
      } else {
        var step := BlockIndex.Step.RejectBlock(HeaderOf(Last(w.blocks), name));
        LeaveStaysInStep(c, w, Step(w, item), name, s);
        OneStep(c, step);
        assert StepsFor(ItemMoves(w, item), name) == [step];
      }
    } else {
      NothingToDo(c);
      assert SamePlaces(w, Step(w, item));
      StaysInStep(c, w, Step(w, item), name, s);
      assert StepsFor(ItemMoves(w, item), name) == [];
    }
  }

  lemma NothingToDo(c: BlockIndex.Chain)
    ensures BlockIndex.LegalRun(c, []) && BlockIndex.Replay(c, []) == c
  {
  }

  ghost predicate SamePlaces(w: World, v: World) {
    v.blocks == w.blocks && v.baseHash == w.baseHash && v.baseHeight == w.baseHeight
  }

  lemma StaysInStep(c: BlockIndex.Chain, w: World, v: World, name: Naming, s: set<BlockHash>)
    requires InStep(c, w, name, s) && SamePlaces(w, v)
    ensures InStep(c, v, name, s)
  {
  }

  lemma {:induction false} StepsConcat(c: BlockIndex.Chain, s: seq<BlockIndex.Step>, t: seq<BlockIndex.Step>)
    requires BlockIndex.LegalRun(c, s) && BlockIndex.LegalRun(BlockIndex.Replay(c, s), t)
    ensures BlockIndex.LegalRun(c, s + t)
    ensures BlockIndex.Replay(c, s + t) == BlockIndex.Replay(BlockIndex.Replay(c, s), t)
    decreases |s|
  {
    if s == [] {
      assert s + t == t;
    } else {
      assert (s + t)[0] == s[0] && (s + t)[1..] == s[1..] + t;
      StepsConcat(BlockIndex.Apply(c, s[0]), s[1..], t);
    }
  }

  lemma {:induction false} StepsSplit(c: BlockIndex.Chain, s: seq<BlockIndex.Step>, t: seq<BlockIndex.Step>)
    requires BlockIndex.LegalRun(c, s + t)
    ensures BlockIndex.LegalRun(c, s) && BlockIndex.LegalRun(BlockIndex.Replay(c, s), t)
    ensures BlockIndex.Replay(c, s + t) == BlockIndex.Replay(BlockIndex.Replay(c, s), t)
    decreases |s|
  {
    if s == [] {
      assert s + t == t;
    } else {
      assert (s + t)[0] == s[0] && (s + t)[1..] == s[1..] + t;
      StepsSplit(BlockIndex.Apply(c, s[0]), s[1..], t);
    }
  }

  // Whatever valid items log1 brings, the steps they ask for are a legal run, and the
  // main chain of the index ends as that of the producer.
  lemma {:induction false} FeedIsLegal(c: BlockIndex.Chain, w: World, items: seq<Log1Item>, name: Naming,
                                       s: set<BlockHash>)
    requires InStep(c, w, name, s) && ValidWorld(w) && ValidItems(w, items)
    requires forall item :: item in items ==> Covered(item, s)
    ensures Usable(RunMoves(w, items))
    ensures BlockIndex.LegalRun(c, StepsFor(RunMoves(w, items), name))
    ensures InStep(BlockIndex.Replay(c, StepsFor(RunMoves(w, items), name)), Steps(w, items), name, s)
    decreases |items|
  {
    hide InStep, ValidWorld, ValidItem, Step, ItemMoves, Covered, BlockIndex.LegalRun, BlockIndex.Replay;
    if items == [] {
      NothingToDo(c);
    } else {
      var before, v := RunMoves(w, Front(items)), Steps(w, Front(items));
      assert Last(items) in items;
      FeedIsLegal(c, w, Front(items), name, s);
      var d := BlockIndex.Replay(c, StepsFor(before, name));
      ItemIsLegal(d, v, Last(items), name, s);
      StepsForConcat(before, ItemMoves(v, Last(items)), name);
      StepsConcat(c, StepsFor(before, name), StepsFor(ItemMoves(v, Last(items)), name));
    }
  }
}
