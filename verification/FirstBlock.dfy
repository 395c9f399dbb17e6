/** What the pipeline asks for can be had: from genesis two blocks forward, one back, and forward again. */
module FirstBlock {
  import opened Transactions
  import opened Ledgers
  import opened SpendChains
  import opened BlockTimestamps
  import opened Sequences
  import opened Log2Spec
  import opened ItemRuns
  import opened ItemRows
  import opened BlockMoves
  import opened BlockFeed
  import opened MemRepo
  import opened Log2
  import opened TxParser
  import opened Txlogs
  import opened Pipeline
  import OrphanHashes
  import BlockIndex

  const GENESIS := Block(NoBlock, [Tx(true, [], [TxOut(50 * COIN, [])], 0)], 0)
  // Two blocks that claim the full subsidy; the second also spends the coinbase of the
  // first.
  const COINBASE := Tx(true, [], [TxOut(50 * COIN, [0])], 0)
  const FIRST := Block(BlockHashOf(GENESIS), [COINBASE], 0)
  const COINBASE2 := Tx(true, [], [TxOut(50 * COIN, [1])], 1)
  const SPENDING := Tx(false, [Outpoint(HashOf(COINBASE), 0)], [TxOut(40 * COIN, [1])], 0)
  const SECOND := Block(BlockHashOf(FIRST), [COINBASE2, SPENDING], 0)

  const START := World(EMPTY_LEDGER, [], BlockHashOf(GENESIS), 0)
  const ONE := START.(ledger := Ledger({}, [HashOf(COINBASE)], [1]), blocks := [FIRST])
  const TWO := START.(
    ledger := Ledger({}, [HashOf(COINBASE), HashOf(COINBASE2), HashOf(SPENDING)], [1, 2, 2]),
    blocks := [FIRST, SECOND])
  const BACK := ONE.(ledger := ONE.ledger.(pool := {HashOf(SPENDING)}))

  const NAMED := {BlockHashOf(GENESIS), BlockHashOf(FIRST), BlockHashOf(SECOND)}

  function NameOf(h: BlockHash): OrphanHashes.HashStr {
    if h == BlockHashOf(GENESIS) then Repeat('1', OrphanHashes.HASH_LENGTH)
    else if h == BlockHashOf(FIRST) then Repeat('2', OrphanHashes.HASH_LENGTH)
    else if h == BlockHashOf(SECOND) then Repeat('3', OrphanHashes.HASH_LENGTH)
    else OrphanHashes.ZEROS
  }

  lemma NamesDiffer()
    ensures OneToOneOn(NAMED, NameOf)
  {
    assert NameOf(BlockHashOf(GENESIS))[0] == '1';
    assert NameOf(BlockHashOf(FIRST))[0] == '2';
    assert NameOf(BlockHashOf(SECOND))[0] == '3';
  }

  // The index that holds the genesis block alone.
  function StartChain(): BlockIndex.Chain {
    BlockIndex.Chain([HeaderOf(GENESIS, NameOf)], {})
  }

  lemma GenesisIsLegal()
    ensures var step := BlockIndex.Step.AcceptBlock(HeaderOf(GENESIS, NameOf));
      && BlockIndex.Legal(BlockIndex.EMPTY_CHAIN, step)
      && BlockIndex.Apply(BlockIndex.EMPTY_CHAIN, step) == StartChain()
      && BlockIndex.Consistent(StartChain())
  {
    hide NameOf;
    var x := HeaderOf(GENESIS, NameOf);
    assert [] + [x] == [x];
  }

  lemma StartIsInStep()
    ensures ValidWorld(START) && InStep(StartChain(), START, NameOf, NAMED)
  {
    hide NameOf, OneToOneOn, BlockIndex.Consistent;
    NamesDiffer();
    GenesisIsLegal();
    assert HeadersOf([], NameOf) == [];
    assert Depth(START.baseHash) == 1;
  }

  lemma SubsidyOfFirst()
    ensures BlockIndex.Subsidy(0) == BlockIndex.Subsidy(1) == BlockIndex.Subsidy(2) == 50 * COIN
  {
  }

  lemma OneOutput(t: Tx)
    requires |t.vout| == 1 && MoneyRange(t.vout[0].value)
    ensures InMoneyRange(t) && ValueOut(t, 1) == t.vout[0].value
  {
    assert ValueOut(t, 0) == 0;
    assert ValueOut(t, 1) == t.vout[0].value;
  }

  lemma TxsAreWellFormed()
    ensures WellFormed(COINBASE) && WellFormed(COINBASE2) && WellFormed(SPENDING)
    ensures CoinbaseValue(FIRST.vtx) == CoinbaseValue(SECOND.vtx) == 50 * COIN
  {
    hide InMoneyRange, ValueOut;
    OneOutput(COINBASE);
    OneOutput(COINBASE2);
    OneOutput(SPENDING);
  }

  // A block with a coinbase alone fits on any chain.
  lemma CoinbaseFits(l: Ledger, t: Tx)
    requires t.coinbase && WellFormed(t) && HashOf(t) !in l.confirmed
    ensures ValidBlock(l, [t])
  {
    assert HashesOf([t]) == [HashOf(t)];
  }

  // So does one with one more transaction, which spends what is there and unspent.
  lemma SpenderFits(l: Ledger, c: Tx, t: Tx)
    requires c.coinbase && WellFormed(c) && HashOf(c) !in l.confirmed
    requires !t.coinbase && WellFormed(t) && HashOf(t) !in l.confirmed
    requires forall o :: o in t.vin ==> o.hash in l.confirmed && !SpentByConfirmed(l, o)
    ensures ValidBlock(l, [c, t])
  {
    var hs := HashesOf([c, t]);
    assert hs == [HashOf(c), HashOf(t)];
    assert c.vin == [];
    forall i | 0 <= i < |hs| ensures ParentsIn(hs[i], l.confirmed + hs[..i]) {
    }
  }

  // The world after a block that confirms all that waits in the pool.
  lemma AfterBlock(w: World, height: nat, b: Block)
    requires ValidWorld(w) && height == Height(w) + 1 && b.prev == Tip(w) && ValidBlock(w.ledger, b.vtx)
    requires forall m :: m in w.ledger.pool ==> m in HashesOf(b.vtx)
    ensures ValidItem(w, BlockItem(height, b)) && ValidWorld(Step(w, BlockItem(height, b)))
    ensures var hs := HashesOf(b.vtx);
      Step(w, BlockItem(height, b)) == World(
        Ledger({}, w.ledger.confirmed + hs, w.ledger.heights + Repeat(height, |hs|)),
        w.blocks + [b], w.baseHash, w.baseHeight)
  {
    hide ValidWorld, ValidBlock;
    StepIsValid(w, BlockItem(height, b));
    var hs := HashesOf(b.vtx);
    assert Evicted(w.ledger.pool, hs) == {};
    assert w.ledger.pool - Elems(hs) == {};
  }

  lemma FirstFits()
    requires ValidWorld(START)
    ensures ValidItem(START, BlockItem(1, FIRST)) && Step(START, BlockItem(1, FIRST)) == ONE
    ensures ValidWorld(ONE)
  {
    hide ValidWorld, ValidItem, ValidBlock, Step, WellFormed;
    TxsAreWellFormed();
    CoinbaseFits(START.ledger, COINBASE);
    AfterBlock(START, 1, FIRST);
    assert HashesOf(FIRST.vtx) == [HashOf(COINBASE)];
    assert Repeat(1, 1) == [1];
  }

  // SECOND fits on FIRST whether or not its transaction waits in the pool.
  lemma SecondFits(w: World)
    requires ValidWorld(w) && (w == ONE || w == BACK)
    ensures ValidItem(w, BlockItem(2, SECOND)) && Step(w, BlockItem(2, SECOND)) == TWO
    ensures ValidWorld(TWO)
  {
    hide ValidWorld, ValidItem, ValidBlock, Step, WellFormed;
    TxsAreWellFormed();
    assert HashesOf(SECOND.vtx) == [HashOf(COINBASE2), HashOf(SPENDING)];
    assert w.ledger.confirmed == [HashOf(COINBASE)];
    NothingSpent(w.ledger, SPENDING.vin[0]);
    SpenderFits(w.ledger, COINBASE2, SPENDING);
    assert HashOf(SPENDING) in HashesOf(SECOND.vtx);
    AfterBlock(w, 2, SECOND);
    assert Repeat(2, 2) == [2, 2];
  }

  lemma NothingSpent(l: Ledger, o: Outpoint)
    requires l.confirmed == [HashOf(COINBASE)]
    ensures !SpentByConfirmed(l, o)
  {
  }

  lemma SecondGoesBack()
    requires ValidWorld(ONE) && ValidItem(ONE, BlockItem(2, SECOND)) && Step(ONE, BlockItem(2, SECOND)) == TWO
    ensures ValidWorld(TWO) && ValidItem(TWO, BlockItem(1, FIRST)) && Step(TWO, BlockItem(1, FIRST)) == BACK
    ensures ValidWorld(BACK)
  {
    hide ValidWorld, ValidItem, Step;
    var hs := HashesOf(SECOND.vtx);
    assert hs == [HashOf(COINBASE2), HashOf(SPENDING)];
    RollbackUndoesAccept(ONE, 2, SECOND, FIRST);
    assert Elems(hs) - {hs[0]} == {HashOf(SPENDING)};
    StepIsValid(TWO, BlockItem(1, FIRST));
  }

  // One valid item, which pays and is not too deep.
  lemma OneItem(w: World, item: Log1Item, kept: nat)
    requires ValidWorld(w) && ValidItem(w, item) && item.BlockItem? && ItemPays(w, item)
    requires kept <= MAX_BLOCK_TIMES && (item.height > Height(w) || kept > 0)
    ensures ValidItems(w, [item]) && Steps(w, [item]) == Step(w, item) && ItemsPay(w, [item])
    ensures TimesSuffice(MAX_BLOCK_TIMES, kept, w, [item])
    ensures KeptAfter(MAX_BLOCK_TIMES, kept, PathFrom(Height(w), [item]))
      == KeptNext(MAX_BLOCK_TIMES, kept, Height(w), item)
  {
    hide ValidWorld, ValidItem, Step, Height, ItemPays;
    assert Front([item]) == [];
    assert Steps(w, []) == w;
    StepMovesOne(w, item);
    assert PathFrom(Height(w), []) == [Height(w)];
    assert PathFrom(Height(w), [item]) == [Height(w), item.height];
  }

  lemma StartOfLog()
    ensures Consistent(EMPTY_LEDGER) && LegalRun(EMPTY_LEDGER, []) && Replay(EMPTY_LEDGER, []) == EMPTY_LEDGER
    ensures Height(START) == 0 && Tip(START) == BlockHashOf(GENESIS)
    ensures HaveBlocks([], map[]) && Moves([], []) == [] && RightHeights([], []) && Fetchable([], map[])
    ensures Covered(BlockItem(1, FIRST), NAMED) && Covered(BlockItem(2, SECOND), NAMED)
  {
  }

  // One item through both stages, from one of the worlds above to another.
  method Pass(producer: Log2Producer, handler: TxlogHandler, item: Log1Item, ghost c: BlockIndex.Chain)
    returns (ok: bool, ghost rows: seq<Event>, ghost d: BlockIndex.Chain)
    requires producer.Valid() && handler.name == NameOf && UpToDate(producer, handler, c, NAMED)
    requires ValidWorld(producer.world) && ValidItem(producer.world, item) && item.BlockItem?
    requires ItemPays(producer.world, item) && Covered(item, NAMED)
    requires item.height > Height(producer.world) || producer.kept > 0
    modifies producer, producer.memRepo, producer.db, producer.table, producer.blkTs, handler.parser, handler.store
    ensures ok && producer.Valid() && UpToDate(producer, handler, d, NAMED)
    ensures producer.world == old(Step(producer.world, item))
    ensures producer.kept == old(KeptNext(MAX_BLOCK_TIMES, producer.kept, Height(producer.world), item))
    ensures producer.db.txlogs == old(producer.db.txlogs) + rows
    ensures forall h :: EventsOf(rows, h) == RowsOf(old(producer.world), item, h)
  {
    hide Log2Producer.Valid, UpToDate, ValidWorld, ValidItem, Covered, ItemPays, Height, Step, LegalRun, Replay;
    hide KeptAfter, PathFrom, TimesSuffice, EventsOf, RowsOf, RunRowsOf;
    producer.ValidIsStored();
    ghost var before, w := producer.db.txlogs, producer.world;
    OneItem(w, item, producer.kept);
    var consumed;
    ghost var done;
    ok, consumed, done, d := ProduceAndConsume(producer, handler, [item], c, NAMED);
    assert ok && [item][..done] == [item];
    ok := ok && consumed;
    rows := producer.db.txlogs[|before|..];
    assert producer.db.txlogs == before + rows;
    forall h {
      OneItemRows(w, item, h);
    }
  }

  lemma OneItemRows(w: World, item: Log1Item, h: Hash)
    requires ValidWorld(w) && ValidItem(w, item)
    ensures ValidItems(w, [item]) && RunRowsOf(w, [item], h) == RowsOf(w, item, h)
  {
    hide ValidWorld, ValidItem, RowsOf;
    assert Front([item]) == [] && Steps(w, []) == w;
  }

  // What the rollback of SECOND writes for its two transactions, and its return.
  lemma RowsThere()
    requires ValidWorld(TWO) && ValidItem(TWO, BlockItem(1, FIRST))
    ensures RowsOf(TWO, BlockItem(1, FIRST), HashOf(COINBASE2))
      == [Unconfirm(HashOf(COINBASE2)), Reject(HashOf(COINBASE2))]
    ensures RowsOf(TWO, BlockItem(1, FIRST), HashOf(SPENDING)) == [Unconfirm(HashOf(SPENDING))]
  {
    hide ValidWorld, ValidItem;
    assert HashesOf(SECOND.vtx)[1] == HashOf(SPENDING);
  }

  lemma RowsBack()
    requires ValidWorld(BACK) && ValidItem(BACK, BlockItem(2, SECOND))
    ensures RowsOf(BACK, BlockItem(2, SECOND), HashOf(COINBASE2))
      == [Accept(HashOf(COINBASE2)), Confirm(HashOf(COINBASE2), 2)]
    ensures RowsOf(BACK, BlockItem(2, SECOND), HashOf(SPENDING)) == [Confirm(HashOf(SPENDING), 2)]
  {
    hide ValidWorld, ValidItem;
    assert HashesOf(SECOND.vtx)[0] == HashOf(COINBASE2) && HashesOf(SECOND.vtx)[1] == HashOf(SPENDING);
  }

  // Accepts two blocks after genesis, takes the second one back and accepts it again,
  // from empty tables and stores.  When it goes, its coinbase is rejected and its
  // transaction unconfirmed; when it comes again, the one is accepted anew and the
  // other, which waited in the pool, confirmed.
  method ForthAndBack() returns (ok: bool, ghost gone: seq<Event>, ghost again: seq<Event>)
    ensures ok
    ensures EventsOf(gone, HashOf(COINBASE2)) == [Unconfirm(HashOf(COINBASE2)), Reject(HashOf(COINBASE2))]
    ensures EventsOf(gone, HashOf(SPENDING)) == [Unconfirm(HashOf(SPENDING))]
    ensures EventsOf(again, HashOf(COINBASE2)) == [Accept(HashOf(COINBASE2)), Confirm(HashOf(COINBASE2), 2)]
    ensures EventsOf(again, HashOf(SPENDING)) == [Confirm(HashOf(SPENDING), 2)]
  {
    hide Log2Producer.Valid, UpToDate, ValidWorld, ValidItem, Covered, ItemPays, Height, Step, LegalRun, Replay;
    hide Parser.Agrees, BlockIndex.BlockStore.Agrees, InStep, Consistent, HaveBlocks, Moves, Fetchable, Tip;
    hide BlockIndex.Legal, BlockIndex.Apply, RightHeights, EventsOf, RowsOf;
    var first, second := BlockItem(1, FIRST), BlockItem(2, SECOND);
    GenesisIsLegal();
    StartIsInStep();
    StartOfLog();
    FirstFits();
    SecondFits(ONE);
    SecondGoesBack();
    SecondFits(BACK);
    BlocksPay();
    var producer, handler := Beginning();
    ghost var d, rows;
    ok, rows, d := Pass(producer, handler, first, StartChain());
    ok, rows, d := Pass(producer, handler, second, d);
    ok, gone, d := Pass(producer, handler, first, d);
    RowsThere();
    ok, again, d := Pass(producer, handler, second, d);
    RowsBack();
  }

  // Empty tables, a block index that knows the genesis block, and nothing parsed.
  method Beginning() returns (producer: Log2Producer, handler: TxlogHandler)
    ensures fresh(producer) && fresh(producer.memRepo) && fresh(producer.db) && fresh(producer.table)
    ensures fresh(producer.blkTs) && fresh(handler.parser) && fresh(handler.store) && handler.name == NameOf
    ensures producer.Valid() && producer.world == START && producer.kept == 1
    ensures UpToDate(producer, handler, StartChain(), NAMED)
  {
    hide Log2Producer.Valid, ValidWorld, Height, LegalRun, Replay;
    hide Parser.Agrees, BlockIndex.BlockStore.Agrees, InStep, Consistent, HaveBlocks, Moves, Fetchable, Tip;
    hide BlockIndex.Legal, BlockIndex.Apply, RightHeights;
    GenesisIsLegal();
    StartIsInStep();
    StartOfLog();
    var db := new ExplorerDb();
    var table := new MemrepoTable();
    producer := new Log2Producer(db, table, 0, BlockHashOf(GENESIS), h => 0, [GENESIS.time], EMPTY_LEDGER, START);
    GenesisPays();
    var store := new BlockIndex.BlockStore();
    var ok := store.AcceptBlock(HeaderOf(GENESIS, NameOf), BlockIndex.EMPTY_CHAIN);
    assert ok;
    var parser := new Parser();
    handler := new TxlogHandler(parser, store, NameOf);
  }

  lemma GenesisPays()
    ensures BlockIndex.Pays(HeaderOf(GENESIS, NameOf))
  {
    hide NameOf;
    SubsidyOfFirst();
    assert ValueOut(GENESIS.vtx[0], 0) == 0;
  }

  lemma BlocksPay()
    ensures ItemPays(START, BlockItem(1, FIRST)) && ItemPays(ONE, BlockItem(2, SECOND))
    ensures ItemPays(TWO, BlockItem(1, FIRST)) && ItemPays(BACK, BlockItem(2, SECOND))
    ensures Height(START) == 0 && Height(ONE) == Height(BACK) == 1 && Height(TWO) == 2
  {
    SubsidyOfFirst();
    TxsAreWellFormed();
  }

  // A block that claims one unit less than the subsidy is as valid as the other, but the
  // consumer stops at it.
  const CHEAP := Block(BlockHashOf(GENESIS), [Tx(true, [], [TxOut(50 * COIN - 1, [0])], 0)], 0)

  lemma CheapIsValid()
    requires ValidWorld(START)
    ensures ValidItems(START, [BlockItem(1, CHEAP)]) && !ItemsPay(START, [BlockItem(1, CHEAP)])
  {
    hide ValidWorld, ValidItem, ItemPays, Height;
    CheapFits();
    assert Front([BlockItem(1, CHEAP)]) == [];
    assert Steps(START, []) == START;
  }

  lemma CheapIsWellFormed()
    ensures WellFormed(CHEAP.vtx[0]) && CoinbaseValue(CHEAP.vtx) == 50 * COIN - 1
  {
    hide InMoneyRange, ValueOut;
    OneOutput(CHEAP.vtx[0]);
  }

  lemma CheapFits()
    requires ValidWorld(START)
    ensures ValidItem(START, BlockItem(1, CHEAP)) && !ItemPays(START, BlockItem(1, CHEAP))
  {
    hide ValidWorld, ValidBlock, Step, WellFormed;
    var t := CHEAP.vtx[0];
    CheapIsWellFormed();
    SubsidyOfFirst();
    CoinbaseFits(START.ledger, t);
  }
}
