/** The loop that hands each row of the log to the parser, and its block to the block index. */
module Txlogs {
  import opened Transactions
  import opened Ledgers
  import opened Log2Spec
  import opened BlockMoves
  import opened BlockFeed
  import opened TxParser
  import BlockIndex

  class TxlogHandler {
    const parser: Parser
    const store: BlockIndex.BlockStore
    const name: Naming

    constructor (parser: Parser, store: BlockIndex.BlockStore, name: Naming)
      ensures this.parser == parser && this.store == store && this.name == name
    {
      this.parser, this.store, this.name := parser, store, name;
    }

    // Reads the raw block of a row; ok is false where the original finds none.
    method GetBlock(id: BlockHash, raw: map<BlockHash, Block>) returns (ok: bool, block: Block)
      ensures ok <==> id in raw
      ensures ok ==> block == raw[id]
    {
      ok := id in raw;
      block := if ok then raw[id] else Block(NoBlock, [], 0);
    }

    // Adds up what the coinbase pays, and hands the block to the index.
    method AcceptBlock(block: Block, height: nat, ghost c: BlockIndex.Chain) returns (ok: bool)
      requires CanCount(block) && store.Agrees(c)
      requires BlockIndex.Legal(c, StepFor(Enter(BlockHashOf(block), height), name))
      modifies store
      ensures ok <==> CoinbaseValue(block.vtx) >= BlockIndex.Subsidy(height)
      ensures store.Agrees(if ok then BlockIndex.Apply(c, StepFor(Enter(BlockHashOf(block), height), name)) else c)
    {
      hide BlockIndex.BlockStore.Agrees, BlockIndex.Legal, BlockIndex.Apply;
      var reward;
      ok, reward := GetValueOut(block.vtx[0]);
      if !ok {
        return;
      }
      ok := store.AcceptBlock(BlockIndex.Header(name(BlockHashOf(block)), name(block.prev), height, reward), c);
    }

    // The block half of a row: the CONFIRM of a coinbase brings its block, the REJECT
    // of a coinbase takes it away.  Fails if and only if the block that comes pays less
    // than the subsidy; the index is as before then.
    method HandleBlockOf(e: Event, cols: BlockCols, raw: map<BlockHash, Block>, ghost c: BlockIndex.Chain)
      returns (ok: bool)
      requires store.Agrees(c) && Fetchable(MoveOf(e, cols), raw) && Usable(MoveOf(e, cols))
      requires BlockIndex.LegalRun(c, StepsFor(MoveOf(e, cols), name))
      modifies store
      ensures ok <==> MovesPay(MoveOf(e, cols))
      ensures store.Agrees(if ok then BlockIndex.Replay(c, StepsFor(MoveOf(e, cols), name)) else c)
    {
      hide BlockIndex.Legal, BlockIndex.Apply, BlockIndex.BlockStore.Agrees, CanCount, CoinbaseValue;
      MovesAtMostOne(e, cols, c);
      ok := true;
      if e.Confirm? && e.hash.tx.coinbase {
        assert Enter(cols.blkId, cols.blkHeight) in MoveOf(e, cols);
        var block;
        ok, block := GetBlock(cols.blkId, raw);
        if ok {
          ok := AcceptBlock(block, cols.blkHeight, c);
        }
      } else if e.Reject? && e.hash.tx.coinbase {
        assert Leave(cols.blkId, cols.blkHeight) in MoveOf(e, cols);
        var block;
        ok, block := GetBlock(cols.blkId, raw);
        if ok {
          ok := store.RejectBlock(HeaderAt(block, cols.blkHeight), c);
        }
      }
    }

    function HeaderAt(block: Block, height: nat): BlockIndex.Header {
      BlockIndex.Header(name(BlockHashOf(block)), name(block.prev), height, CoinbaseValue(block.vtx))
    }

    lemma MovesAtMostOne(e: Event, cols: BlockCols, c: BlockIndex.Chain)
      requires Usable(MoveOf(e, cols)) && BlockIndex.LegalRun(c, StepsFor(MoveOf(e, cols), name))
      ensures var moves := MoveOf(e, cols);
        if moves == [] then BlockIndex.Replay(c, StepsFor(moves, name)) == c
        else
          && |moves| == 1 && BlockIndex.Legal(c, StepFor(moves[0], name))
          && BlockIndex.Replay(c, StepsFor(moves, name)) == BlockIndex.Apply(c, StepFor(moves[0], name))
    {
      var moves := MoveOf(e, cols);
      if moves != [] {
        OneStep(c, StepFor(moves[0], name));
        assert StepsFor(moves, name) == [StepFor(moves[0], name)];
      }
    }

    // Fails if and only if the row brings a block that pays less than the subsidy;
    // neither store has changed then.
    method HandleRow(e: Event, cols: BlockCols, raw: map<BlockHash, Block>, ghost l: Ledger,
                     ghost c: BlockIndex.Chain)
      returns (ok: bool)
      requires parser.Agrees(l) && Legal(l, e) && HeightFits(e, cols.blkHeight)
      requires store.Agrees(c) && Fetchable(MoveOf(e, cols), raw) && Usable(MoveOf(e, cols))
      requires BlockIndex.LegalRun(c, StepsFor(MoveOf(e, cols), name))
      modifies parser, store
      ensures ok <==> MovesPay(MoveOf(e, cols))
      ensures parser.Agrees(if ok then Apply(l, e) else l)
      ensures if ok then parser.RowDone(e, old(parser.Now())) else unchanged(parser)
      ensures store.Agrees(if ok then BlockIndex.Replay(c, StepsFor(MoveOf(e, cols), name)) else c)
    {
      hide Parser.Agrees, BlockIndex.BlockStore.Agrees, BlockIndex.LegalRun, Legal, Parser.RowDone;
      hide MovesPay, HeightFits, MoveOf;
      ok := HandleBlockOf(e, cols, raw, c);
      if !ok {
        return;
      }
      ok := parser.Handle(e, cols.blkHeight, l);
    }

    // A legal log whose blocks make a legal run is handled without a throw if and only
    // if every block that comes pays at least the subsidy.  Otherwise the first row that
    // brings one that does not is where handling stops, with all rows before it handled.
    method HandleTxlogs(rows: seq<Event>, cols: seq<BlockCols>, raw: map<BlockHash, Block>, ghost l: Ledger,
                        ghost c: BlockIndex.Chain)
      returns (ok: bool, ghost done: nat)
      requires RightHeights(rows, cols) && parser.Agrees(l) && LegalRun(l, rows)
      requires store.Agrees(c) && Fetchable(Moves(rows, cols), raw) && Usable(Moves(rows, cols))
      requires BlockIndex.LegalRun(c, StepsFor(Moves(rows, cols), name))
      modifies parser, store
      ensures ok <==> MovesPay(Moves(rows, cols))
      ensures done <= |rows| && LegalRun(l, rows[..done]) && parser.Agrees(Replay(l, rows[..done]))
      ensures parser.RunDone(l, rows[..done], old(parser.Now()))
      ensures IndexedUpTo(rows[..done], cols[..done], c) && store.Agrees(IndexAfter(rows[..done], cols[..done], c))
      ensures if ok then done == |rows| else done < |rows| && Underpays(rows[done], cols[done])
    {
      hide Parser.Agrees, BlockIndex.BlockStore.Agrees, BlockIndex.LegalRun, BlockIndex.Replay;
      hide Legal, LegalRun, Replay, Moves, MoveOf, MovesPay, Fetchable, HeightFits, IndexedUpTo, IndexAfter;
      hide Parser.RowDone, Parser.RunDone, SoFar;
      ghost var now := c;
      done := 0;
      StartOfRun(l, rows, cols, c);
      parser.RunStart(l, rows);
      for i := 0 to |rows|
        invariant done == i
        invariant LegalRun(l, rows[..i]) && parser.Agrees(Replay(l, rows[..i]))
        invariant parser.RunDone(l, rows[..i], old(parser.Now()))
        invariant store.Agrees(now) && ToCome(now, rows[i..], cols[i..], raw)
        invariant IndexedUpTo(rows[..i], cols[..i], c) && now == IndexAfter(rows[..i], cols[..i], c)
        invariant MovesPay(Moves(rows[i..], cols[i..])) <==> MovesPay(Moves(rows, cols))
      {
        RunPrefix(l, rows, i);
        NextToCome(now, rows[i..], cols[i..], raw);
        assert rows[i..][1..] == rows[i + 1..] && cols[i..][1..] == cols[i + 1..];
        parser.RunSoFar(l, rows[..i], old(parser.Now()));
        ghost var before := parser.Now();
        ok := HandleRow(rows[i], cols[i], raw, Replay(l, rows[..i]), now);
        if !ok {
          return;
        }
        parser.RunAdd(l, rows, i, old(parser.Now()), before);
        IndexedOneMore(rows, cols, i, c);
        now, done := BlockIndex.Replay(now, StepsFor(MoveOf(rows[i], cols[i]), name)), i + 1;
      }
      EndOfRun(rows, cols);
      ok := true;
    }

    // The row brings a block that pays less than the subsidy.
    ghost predicate Underpays(e: Event, cols: BlockCols) {
      Usable(MoveOf(e, cols)) && !MovesPay(MoveOf(e, cols))
    }

    // The blocks of these rows made a legal run, and all that came paid enough.
    ghost predicate IndexedUpTo(es: seq<Event>, cs: seq<BlockCols>, c: BlockIndex.Chain)
      requires |es| == |cs|
    {
      && Usable(Moves(es, cs)) && MovesPay(Moves(es, cs))
      && BlockIndex.LegalRun(c, StepsFor(Moves(es, cs), name))
    }

    ghost function IndexAfter(es: seq<Event>, cs: seq<BlockCols>, c: BlockIndex.Chain): BlockIndex.Chain
      requires |es| == |cs| && IndexedUpTo(es, cs, c)
    {
      BlockIndex.Replay(c, StepsFor(Moves(es, cs), name))
    }

    lemma IndexedOneMore(rows: seq<Event>, cols: seq<BlockCols>, i: nat, c: BlockIndex.Chain)
      requires |rows| == |cols| && i < |rows| && IndexedUpTo(rows[..i], cols[..i], c)
      requires Usable(MoveOf(rows[i], cols[i])) && MovesPay(MoveOf(rows[i], cols[i]))
      requires BlockIndex.LegalRun(IndexAfter(rows[..i], cols[..i], c), StepsFor(MoveOf(rows[i], cols[i]), name))
      ensures IndexedUpTo(rows[..i + 1], cols[..i + 1], c)
      ensures IndexAfter(rows[..i + 1], cols[..i + 1], c)
        == BlockIndex.Replay(IndexAfter(rows[..i], cols[..i], c), StepsFor(MoveOf(rows[i], cols[i]), name))
    {
      hide MovesPay, Usable, Moves, MoveOf, BlockIndex.LegalRun, BlockIndex.Replay;
      assert rows[..i + 1] == rows[..i] + [rows[i]] && cols[..i + 1] == cols[..i] + [cols[i]];
      var before, next := Moves(rows[..i], cols[..i]), MoveOf(rows[i], cols[i]);
      MovesSnoc(rows[..i], cols[..i], rows[i], cols[i]);
      MovesPayConcat(before, next);
      StepsForConcat(before, next, name);
      StepsConcat(c, StepsFor(before, name), StepsFor(next, name));
    }

    ghost predicate ToCome(c: BlockIndex.Chain, es: seq<Event>, cs: seq<BlockCols>, raw: map<BlockHash, Block>)
      requires |es| == |cs|
    {
      && Fetchable(Moves(es, cs), raw) && Usable(Moves(es, cs))
      && BlockIndex.LegalRun(c, StepsFor(Moves(es, cs), name))
    }

    lemma StartOfRun(l: Ledger, rows: seq<Event>, cols: seq<BlockCols>, c: BlockIndex.Chain)
      requires |rows| == |cols|
      ensures LegalRun(l, rows[..0]) && Replay(l, rows[..0]) == l
      ensures rows[0..] == rows && cols[0..] == cols
      ensures IndexedUpTo(rows[..0], cols[..0], c) && IndexAfter(rows[..0], cols[..0], c) == c
    {
      assert rows[..0] == [] && cols[..0] == [];
    }

    lemma EndOfRun(rows: seq<Event>, cols: seq<BlockCols>)
      requires |rows| == |cols|
      ensures rows[..|rows|] == rows && cols[..|cols|] == cols && rows[|rows|..] == [] && cols[|rows|..] == []
      ensures Moves([], []) == [] && MovesPay([])
    {
    }

    lemma NextToCome(c: BlockIndex.Chain, es: seq<Event>, cs: seq<BlockCols>, raw: map<BlockHash, Block>)
      requires |es| == |cs| && es != [] && ToCome(c, es, cs, raw)
      ensures var moves := MoveOf(es[0], cs[0]);
        && Fetchable(moves, raw) && Usable(moves) && BlockIndex.LegalRun(c, StepsFor(moves, name))
        && var d := BlockIndex.Replay(c, StepsFor(moves, name));
        && ToCome(d, es[1..], cs[1..], raw)
        && (MovesPay(Moves(es, cs)) <==> MovesPay(moves) && MovesPay(Moves(es[1..], cs[1..])))
    {
      hide Moves, MoveOf, MovesPay, BlockIndex.LegalRun, BlockIndex.Replay;
      var first, rest := MoveOf(es[0], cs[0]), Moves(es[1..], cs[1..]);
      MovesCons(es, cs);
      assert forall m :: m in first + rest <==> m in first || m in rest;
      StepsForConcat(first, rest, name);
      MovesPayConcat(first, rest);
      StepsSplit(c, StepsFor(first, name), StepsFor(rest, name));
    }
  }
}
