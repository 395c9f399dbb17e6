/**
 The block columns of table 0_txlogs2: which rows tell the parser that a block came or
 went, and which block.
 */
module BlockMoves {
  import opened Transactions
  import opened Ledgers
  import opened Sequences
  import opened Log2Spec
  import opened BlockAccept
  import opened BlockRollback
  import opened ItemRuns

  // Columns block_id and block_height; a block id stands for the block's raw record.
  datatype BlockCols = BlockCols(blkId: BlockHash, blkHeight: int)

  const NO_BLOCK := BlockCols(NoBlock, -1)

  datatype Move = Enter(id: BlockHash, height: int) | Leave(id: BlockHash, height: int)

  // The rows of a coinbase are the ones that concern its block.
  function MoveOf(e: Event, c: BlockCols): seq<Move> {
    if !e.hash.tx.coinbase then []
    else
      match e
      case Confirm(_, _) => [Enter(c.blkId, c.blkHeight)]
      case Reject(_) => [Leave(c.blkId, c.blkHeight)]
      case _ => []
  }

  function Moves(es: seq<Event>, cs: seq<BlockCols>): seq<Move>
    requires |es| == |cs|
    decreases |es|
  {
    if es == [] then [] else Moves(Front(es), Front(cs)) + MoveOf(Last(es), Last(cs))
  }

  // An ACCEPT row carries height -1, and a CONFIRM row the height of its block.
  ghost predicate RightHeights(es: seq<Event>, cs: seq<BlockCols>) {
    |es| == |cs| && forall i :: 0 <= i < |es| ==> HeightFits(es[i], cs[i].blkHeight)
  }

  lemma HeightsConcat(es: seq<Event>, cs: seq<BlockCols>, fs: seq<Event>, ds: seq<BlockCols>)
    requires |es| == |cs|
    ensures RightHeights(es + fs, cs + ds) <==> RightHeights(es, cs) && RightHeights(fs, ds)
  {
    hide HeightFits;
    var all, cols := es + fs, cs + ds;
    assert forall i :: 0 <= i < |es| ==> all[i] == es[i] && cols[i] == cs[i];
    if |fs| == |ds| && RightHeights(all, cols) {
      forall i | 0 <= i < |fs| ensures HeightFits(fs[i], ds[i].blkHeight) {
        assert all[|es| + i] == fs[i] && cols[|es| + i] == ds[i];
      }
    }
  }

  // The columns of rows in which only a CONFIRM names the block.
  function ConfirmCols(es: seq<Event>, c: BlockCols): (cs: seq<BlockCols>)
    ensures |cs| == |es|
    ensures forall i :: 0 <= i < |es| ==> cs[i] == if es[i].Confirm? then c else NO_BLOCK
  {
    seq(|es|, i requires 0 <= i < |es| => if es[i].Confirm? then c else NO_BLOCK)
  }

  // What an item should tell the parser about blocks.
  ghost function ItemMoves(w: World, item: Log1Item): seq<Move>
    requires ValidWorld(w) && ValidItem(w, item)
  {
    match item
    case BlockItem(height, b) =>
      if height > Height(w) then [Enter(BlockHashOf(b), height)] else [Leave(Tip(w), Height(w))]
    case _ => []
  }

  ghost function RunMoves(w: World, items: seq<Log1Item>): seq<Move>
    requires ValidWorld(w) && ValidItems(w, items)
    decreases |items|
  {
    if items == [] then []
    else RunMoves(w, Front(items)) + ItemMoves(Steps(w, Front(items)), Last(items))
  }

  lemma NoItems(w: World)
    requires ValidWorld(w)
    ensures ValidItems(w, []) && Steps(w, []) == w && RunMoves(w, []) == []
  {
  }

  lemma MovesPrefix(w: World, items: seq<Log1Item>, i: nat)
    requires ValidWorld(w) && ValidItems(w, items) && i < |items|
    requires ValidItems(w, items[..i]) && ValidItem(Steps(w, items[..i]), items[i]) && ValidItems(w, items[..i + 1])
    ensures RunMoves(w, items[..i + 1]) == RunMoves(w, items[..i]) + ItemMoves(Steps(w, items[..i]), items[i])
  {
    hide ValidWorld, ValidItem, ValidItems, Steps, ItemMoves;
    assert Front(items[..i + 1]) == items[..i];
  }

  // Every block that moves is among the raw blocks.
  ghost predicate Fetchable(moves: seq<Move>, raw: map<BlockHash, Block>) {
    forall m :: m in moves ==>
      m.height >= 0 && m.id.BlockHashOf? && m.id in raw && raw[m.id] == m.id.block
      && (m.Enter? ==> CanCount(m.id.block))
  }

  // The outputs of the coinbase are in range.
  predicate CanCount(b: Block) {
    b.vtx != [] && InMoneyRange(b.vtx[0])
  }

  lemma ValidCanCount(l: Ledger, b: Block)
    requires ValidBlock(l, b.vtx)
    ensures CanCount(b)
  {
    assert HashesOf(b.vtx)[0] == HashOf(b.vtx[0]);
  }

  lemma MovesSnoc(es: seq<Event>, cs: seq<BlockCols>, e: Event, c: BlockCols)
    requires |es| == |cs|
    ensures Moves(es + [e], cs + [c]) == Moves(es, cs) + MoveOf(e, c)
  {
    assert Front(es + [e]) == es && Front(cs + [c]) == cs;
  }

  lemma {:induction false} MovesConcat(es: seq<Event>, cs: seq<BlockCols>, fs: seq<Event>, ds: seq<BlockCols>)
    requires |es| == |cs| && |fs| == |ds|
    ensures Moves(es + fs, cs + ds) == Moves(es, cs) + Moves(fs, ds)
    decreases |fs|
  {
    hide Moves, MoveOf;
    if fs == [] {
      assert es + fs == es && cs + ds == cs;
      NoRows();
    } else {
      var f, g, d, k := Front(fs), Last(fs), Front(ds), Last(ds);
      MovesConcat(es, cs, f, d);
      assert fs == f + [g] && ds == d + [k];
      assert es + fs == es + f + [g] && cs + ds == cs + d + [k];
      MovesSnoc(es + f, cs + d, g, k);
      MovesSnoc(f, d, g, k);
    }
  }

  lemma MovesCons(es: seq<Event>, cs: seq<BlockCols>)
    requires |es| == |cs| && es != []
    ensures Moves(es, cs) == MoveOf(es[0], cs[0]) + Moves(es[1..], cs[1..])
  {
    hide Moves, MoveOf;
    NoRows();
    HeadAndTail(es);
    HeadAndTail(cs);
    MovesConcat([es[0]], [cs[0]], es[1..], cs[1..]);
    MovesSnoc([], [], es[0], cs[0]);
    assert [] + [es[0]] == [es[0]] && [] + [cs[0]] == [cs[0]];
  }

  lemma NoRows()
    ensures Moves([], []) == []
  {
  }

  lemma {:induction false} NoMoves(es: seq<Event>, cs: seq<BlockCols>)
    requires |es| == |cs|
    requires forall e :: e in es && e.hash.tx.coinbase ==> e.Accept? || e.Unconfirm?
    ensures Moves(es, cs) == []
    decreases |es|
  {
    if es != [] {
      NoMoves(Front(es), Front(cs));
      assert Last(es) in es;
    }
  }

  lemma {:induction false} RejectMoves(l: Ledger, r: seq<Hash>, cs: seq<BlockCols>)
    requires PlainPool(l) && |cs| == |r| && forall h :: h in r ==> h in l.pool
    ensures Moves(Rejects(r), cs) == []
  {
    forall e | e in Rejects(r) ensures !e.hash.tx.coinbase {
      var i :| 0 <= i < |r| && Rejects(r)[i] == e;
      assert r[i] in r;
    }
    NoMoves(Rejects(r), cs);
  }

  lemma {:induction false} LaterMoves(hs: seq<Hash>, known: set<Hash>, height: nat, c: BlockCols)
    requires forall h :: h in hs ==> !h.tx.coinbase
    ensures Moves(BlockEvents(hs, known, height), ConfirmCols(BlockEvents(hs, known, height), c)) == []
  {
    BlockEventHashes(hs, known, height);
    NoMoves(BlockEvents(hs, known, height), ConfirmCols(BlockEvents(hs, known, height), c));
  }

  lemma {:induction false} BlockEventHashes(hs: seq<Hash>, known: set<Hash>, height: nat)
    ensures forall e :: e in BlockEvents(hs, known, height) ==> e.hash in hs
    decreases |hs|
  {
    if hs != [] {
      BlockEventHashes(Front(hs), known, height);
      assert hs == Front(hs) + [Last(hs)];
    }
  }

  lemma {:induction false} FirstThenLater(hs: seq<Hash>, known: set<Hash>, height: nat)
    requires hs != []
    ensures BlockEvents(hs, known, height)
      == TxEvents(hs[0], known, height) + BlockEvents(hs[1..], known, height)
    decreases |hs|
  {
    if |hs| == 1 {
      assert Front(hs) == [] && hs[1..] == [];
    } else {
      hide TxEvents;
      FirstThenLater(Front(hs), known, height);
      assert Front(hs)[1..] == Front(hs[1..]);
    }
  }

  // The rows of a new block move just that block.
  lemma {:induction false} BlockRowsMove(txs: seq<Tx>, known: set<Hash>, height: nat, c: BlockCols)
    requires CoinbaseFirst(txs)
    ensures var es := BlockEvents(HashesOf(txs), known, height);
      Moves(es, ConfirmCols(es, c)) == [Enter(c.blkId, c.blkHeight)]
  {
    var hs := HashesOf(txs);
    var first, rest := TxEvents(hs[0], known, height), BlockEvents(hs[1..], known, height);
    FirstThenLater(hs, known, height);
    assert ConfirmCols(first + rest, c) == ConfirmCols(first, c) + ConfirmCols(rest, c);
    MovesConcat(first, ConfirmCols(first, c), rest, ConfirmCols(rest, c));
    LaterMoves(hs[1..], known, height, c);
    FirstMoves(hs[0], known, height, c);
  }

  lemma FirstMoves(h: Hash, known: set<Hash>, height: nat, c: BlockCols)
    requires h.tx.coinbase
    ensures var es := TxEvents(h, known, height); Moves(es, ConfirmCols(es, c)) == [Enter(c.blkId, c.blkHeight)]
  {
    var a, e := Accept(h), Confirm(h, height);
    NoMoves([a], [NO_BLOCK]);
    assert Front([e]) == [] && Front([c]) == [];
    assert Moves([e], [c]) == [Enter(c.blkId, c.blkHeight)];
    if h !in known {
      MovesConcat([a], [NO_BLOCK], [e], [c]);
      assert ConfirmCols([a] + [e], c) == [NO_BLOCK] + [c];
      assert TxEvents(h, known, height) == [a] + [e];
    } else {
      assert ConfirmCols([e], c) == [c];
    }
  }

  lemma {:induction false} BlockRowsFit(hs: seq<Hash>, known: set<Hash>, height: nat, c: BlockCols)
    requires c.blkHeight == height
    ensures var es := BlockEvents(hs, known, height); RightHeights(es, ConfirmCols(es, c))
    decreases |hs|
  {
    if hs != [] {
      BlockRowsFit(Front(hs), known, height, c);
    }
  }

  // Rows of the other two kinds may carry any height.
  lemma OtherRowsFit(es: seq<Event>, cs: seq<BlockCols>)
    requires |es| == |cs| && forall e :: e in es ==> e.Unconfirm? || e.Reject?
    ensures RightHeights(es, cs)
  {
    forall i | 0 <= i < |es| ensures HeightFits(es[i], cs[i].blkHeight) {
      assert es[i] in es;
    }
  }

  // The rows of a rollback move just the block that goes.
  lemma {:induction false} RollbackRowsMove(back: seq<Hash>, c: BlockCols)
    requires back != [] && back[0].tx.coinbase
    ensures var es := Unconfirms(back) + [Reject(back[0])];
      Moves(es, Repeat(c, |es|)) == [Leave(c.blkId, c.blkHeight)]
  {
    hide Moves, Unconfirms;
    var es, e := Unconfirms(back), Reject(back[0]);
    UnconfirmsOnly(back);
    NoMoves(es, Repeat(c, |es|));
    assert Repeat(c, |es| + 1) == Repeat(c, |es|) + [c];
    MovesSnoc(es, Repeat(c, |es|), e, c);
  }

  lemma {:induction false} UnconfirmsOnly(back: seq<Hash>)
    ensures forall e :: e in Unconfirms(back) ==> e.Unconfirm?
    decreases |back|
  {
    if back != [] {
      UnconfirmsOnly(Front(back));
    }
  }
}
