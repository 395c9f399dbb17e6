/** Producer and consumer together. */
module Pipeline {
  import opened Transactions
  import opened Ledgers
  import opened Log2Spec
  import opened ItemRuns
  import opened BlockMoves
  import opened BlockFeed
  import opened BlockTimestamps
  import opened ItemRows
  import opened MemRepo
  import opened Log2
  import opened TxParser
  import opened Txlogs
  import BlockIndex
  import Log1Chain
  import Log1Feed

  // The consumer has handled everything up to the producer's world.
  ghost predicate UpToDate(producer: Log2Producer, handler: TxlogHandler, c: BlockIndex.Chain, s: set<BlockHash>)
    reads producer, handler, handler.parser, handler.store
  {
    && handler.parser.Agrees(producer.world.ledger)
    && handler.store.Agrees(c) && InStep(c, producer.world, handler.name, s)
  }

  // What the rows of a run tell is what its items should tell.
  lemma RowsTell(before: seq<Event>, beforeCols: seq<BlockCols>, rows: seq<Event>, cols: seq<BlockCols>,
                 w: World, items: seq<Log1Item>)
    requires |before| == |beforeCols| && |rows| == |cols| && ValidWorld(w) && ValidItems(w, items)
    requires Moves(before + rows, beforeCols + cols) == Moves(before, beforeCols) + RunMoves(w, items)
    ensures Moves(rows, cols) == RunMoves(w, items)
  {
    hide Moves, ValidWorld, ValidItems, RunMoves;
    MovesConcat(before, beforeCols, rows, cols);
    var a, b, d := Moves(before, beforeCols), Moves(rows, cols), RunMoves(w, items);
    assert a + b == a + d;
    assert (a + b)[|a|..] == b && (a + d)[|a|..] == d;
  }

  // The rows the producer wrote for the first `done` of `items`, with their columns.
  method Produce(producer: Log2Producer, items: seq<Log1Item>)
    returns (ok: bool, rows: seq<Event>, cols: seq<BlockCols>, ghost done: nat)
    requires producer.Valid() && ValidItems(producer.world, items)
    modifies producer, producer.memRepo, producer.db, producer.table, producer.blkTs
    ensures ok <==> old(TimesSuffice(MAX_BLOCK_TIMES, producer.kept, producer.world, items))
    ensures done <= |items| && ValidItems(old(producer.world), items[..done])
    ensures if ok then done == |items| && producer.Valid() else done < |items| && items[done].BlockItem?
    ensures producer.Stored() && producer.world == Steps(old(producer.world), items[..done])
    ensures ok ==>
      producer.kept == old(KeptAfter(MAX_BLOCK_TIMES, producer.kept, PathFrom(Height(producer.world), items)))
    ensures producer.db.txlogs == old(producer.db.txlogs) + rows && RightHeights(rows, cols)
    ensures LegalRun(old(producer.world.ledger), rows)
    ensures Replay(old(producer.world.ledger), rows) == producer.world.ledger
    ensures Moves(rows, cols) == RunMoves(old(producer.world), items[..done])
    ensures Fetchable(Moves(rows, cols), producer.db.rawBlocks)
    ensures RunWrites(producer.memRepo.num, old(producer.world), items[..done], rows, cols)
    ensures forall h :: EventsOf(rows, h) == RunRowsOf(old(producer.world), items[..done], h)
  {
    hide Consistent, LegalRun, Replay, ValidItems, Steps, HaveBlocks, Moves, RunMoves, MemTxRepository.Valid, Stacked;
    hide HeightFits, TimesSuffice, KeptAfter, PathFrom, RunWrites, RunRowsOf, EventsOf, RawGrown;
    var seen := |producer.db.txlogs|;
    ghost var before, beforeCols := producer.db.txlogs, producer.db.cols;
    ok, done := producer.Run(items);
    rows, cols := producer.db.txlogs[seen..], producer.db.cols[seen..];
    assert producer.db.txlogs == before + rows;
    assert producer.db.cols == beforeCols + cols;
    RunSuffix(producer.start, before, rows);
    RowsTell(before, beforeCols, rows, cols, old(producer.world), items[..done]);
    forall h {
      RunWritesRows(producer.memRepo.num, old(producer.world), items[..done], rows, cols, h);
    }
    HeightsConcat(before, beforeCols, rows, cols);
    FetchableRest(Moves(before, beforeCols), Moves(rows, cols), producer.db.rawBlocks);
  }

  lemma FetchableRest(ms: seq<Move>, ns: seq<Move>, raw: map<BlockHash, Block>)
    requires Fetchable(ms + ns, raw)
    ensures Fetchable(ns, raw)
  {
    assert forall m :: m in ns ==> m in ms + ns;
  }

  // What both stages make of valid items.  The producer stops if and only if a rollback
  // goes deeper than block times are kept for, at the item `done`; what is stored is the
  // outcome of the items before it.  The consumer stops if and only if a block of those
  // items pays less than the subsidy; otherwise it reaches the producer's world, block
  // records included, without a missing key or a failed assertion.  Block names need to
  // be unique among the blocks of `s` only, which holds those the index knows and those
  // of the items.
  method ProduceAndConsume(producer: Log2Producer, handler: TxlogHandler, items: seq<Log1Item>,
                           ghost c: BlockIndex.Chain, ghost s: set<BlockHash>)
    returns (produced: bool, consumed: bool, ghost done: nat, ghost d: BlockIndex.Chain)
    requires producer.Valid() && ValidItems(producer.world, items)
    requires UpToDate(producer, handler, c, s) && forall item :: item in items ==> Covered(item, s)
    modifies producer, producer.memRepo, producer.db, producer.table, producer.blkTs, handler.parser, handler.store
    ensures produced <==> old(TimesSuffice(4032, producer.kept, producer.world, items))
    ensures done <= |items| && ValidWorld(old(producer.world)) && ValidItems(old(producer.world), items[..done])
    ensures if produced then done == |items| && producer.Valid() else done < |items| && producer.Stored()
    ensures producer.world == Steps(old(producer.world), items[..done])
    ensures produced ==>
      producer.kept == old(KeptAfter(MAX_BLOCK_TIMES, producer.kept, PathFrom(Height(producer.world), items)))
    ensures old(producer.db.txlogs) <= producer.db.txlogs
    ensures var rows := producer.db.txlogs[|old(producer.db.txlogs)|..];
      forall h :: EventsOf(rows, h) == RunRowsOf(old(producer.world), items[..done], h)
    ensures consumed <==> ItemsPay(old(producer.world), items[..done])
    ensures consumed ==> UpToDate(producer, handler, d, s)
  {
    hide ValidWorld, ValidItems, Steps, Moves, RunMoves, InStep, Covered, LegalRun, Replay, BlockIndex.LegalRun;
    hide Parser.Agrees, BlockIndex.BlockStore.Agrees, BlockIndex.Replay, Log2Producer.Valid, Log2Producer.Stored;
    hide RunWrites, RunRowsOf, EventsOf, RawGrown;
    hide TimesSuffice, KeptAfter, PathFrom, MovesPay, ItemsPay, HeightFits, Fetchable, TxlogHandler.Underpays, Usable;
    ghost var w := producer.world;
    producer.WorldIsValid();
    var rows, cols;
    produced, rows, cols, done := Produce(producer, items);
    assert producer.db.txlogs[|old(producer.db.txlogs)|..] == rows;
    assert forall item :: item in items[..done] ==> item in items;
    FeedIsLegal(c, w, items[..done], handler.name, s);
    PaysByItem(w, items[..done]);
    d := BlockIndex.Replay(c, StepsFor(RunMoves(w, items[..done]), handler.name));
    ghost var handled;
    consumed, handled := handler.HandleTxlogs(rows, cols, producer.db.rawBlocks, w.ledger, c);
    assert consumed ==> rows[..handled] == rows && cols[..handled] == cols;
  }

  // All three stages: where the block records come from a live log1 chain, only the
  // contents of the items are left to assume.  Such a chain never goes back further than
  // the producer has block times for, if it holds at most one block more at the start;
  // a configured start is one block.
  method FromLog1(producer: Log2Producer, handler: TxlogHandler, items: seq<Log1Item>,
                  ghost c: BlockIndex.Chain, ghost s: set<BlockHash>,
                  ghost start: Log1Chain.Window, ghost limit: nat, ghost steps: seq<Log1Chain.LiveStep>)
    returns (produced: bool, consumed: bool, ghost d: BlockIndex.Chain)
    requires 1 <= limit <= 4032 && Log1Chain.Sound(start, limit)
    requires Log1Chain.NamesParents(start, limit, steps) && Log1Chain.LiveRun(start, limit, steps).Some?
    requires Log1Feed.RecordsOf(items) == Log1Chain.LiveRun(start, limit, steps).value.1
    requires producer.Valid() && Log1Feed.AtSameBlock(start, producer.world) && |start.hs| <= producer.kept + 1
    requires Log1Feed.AllContents(producer.world, items)
    requires UpToDate(producer, handler, c, s) && forall item :: item in items ==> Covered(item, s)
    modifies producer, producer.memRepo, producer.db, producer.table, producer.blkTs, handler.parser, handler.store
    ensures produced && producer.Valid() && old(producer.db.txlogs) <= producer.db.txlogs
    ensures ValidWorld(old(producer.world)) && ValidItems(old(producer.world), items)
    ensures var rows := producer.db.txlogs[|old(producer.db.txlogs)|..];
      forall h :: EventsOf(rows, h) == RunRowsOf(old(producer.world), items, h)
    ensures consumed <==> ItemsPay(old(producer.world), items)
    ensures consumed ==> UpToDate(producer, handler, d, s)
    ensures Log1Feed.AtSameBlock(Log1Chain.LiveRun(start, limit, steps).value.0, producer.world)
  {
    hide ValidWorld, ValidItems, Steps, InStep, Covered, Parser.Agrees, BlockIndex.BlockStore.Agrees;
    hide Log2Producer.Valid, Log2Producer.Stored, Log1Chain.LiveRun, Log1Feed.AllContents, Log1Feed.AtSameBlock;
    hide TimesSuffice, ItemsPay, RunRowsOf, EventsOf;
    producer.WorldIsValid();
    producer.ValidIsStored();
    Log1Feed.LiveItemsAreValid(start, limit, steps, producer.world, items);
    Log1Feed.LiveTimesSuffice(start, limit, MAX_BLOCK_TIMES, producer.kept, steps, producer.world, items);
    ghost var done;
    produced, consumed, done, d := ProduceAndConsume(producer, handler, items, c, s);
    assert items[..|items|] == items;
  }

  // The greatest height of 10_ and its hash, which a restart of the producer reads, are
  // where the producer was.
  lemma IndexKnowsTip(producer: Log2Producer, handler: TxlogHandler, c: BlockIndex.Chain, s: set<BlockHash>)
    requires ValidWorld(producer.world) && UpToDate(producer, handler, c, s)
    ensures var heights, w := handler.store.heights, producer.world;
      && (forall k :: k in heights ==> k <= Height(w))
      && Height(w) in heights && heights[Height(w)] == handler.name(Tip(w))
  {
    hide BlockIndex.Consistent, BlockIndex.ObjectsAgree, BlockIndex.OrphansAgree, Parser.Agrees;
    TipIsInStep(c, producer.world, handler.name, s);
  }

  // The state a transaction is in, as told by its last row alone.
  ghost predicate LastRowIsUnconfirmed(log: seq<Event>, h: Hash) {
    var es := EventsOf(log, h);
    es != [] && (Last(es).Accept? || Last(es).Unconfirm?)
  }

  // Between batches: the rows of every transaction follow the transition table, and
  // a transaction is in memory (and in the pool table) exactly when its last row is
  // ACCEPT or UNCONFIRM.
  lemma PoolMatchesLog(producer: Log2Producer, h: Hash)
    requires producer.Valid() && producer.start == EMPTY_LEDGER
    ensures FollowsTable(Absent, EventsOf(producer.db.txlogs, h))
    ensures h in producer.memRepo.txs <==> LastRowIsUnconfirmed(producer.db.txlogs, h)
    ensures h in producer.table.rows <==> LastRowIsUnconfirmed(producer.db.txlogs, h)
  {
    hide FollowsTable, EventsOf, Consistent, LegalRun, Replay, Stacked, PlainPool;
    hide MemTxRepository.Valid, Moves, Fetchable;
    producer.WorldIsValid();
    TxLifeFollowsTable(EMPTY_LEDGER, producer.db.txlogs, h);
    PoolIsNotConfirmed(producer.world.ledger, h);
  }

  lemma PoolIsNotConfirmed(l: Ledger, h: Hash)
    requires Consistent(l)
    ensures StateOf(l, h).Unconfirmed? <==> h in l.pool
  {
  }

  // No outpoint is spent by two transactions of pool and chain.
  lemma NoDoubleSpend(producer: Log2Producer, h: Hash, k: Hash, o: Outpoint)
    requires producer.Valid()
    requires h in producer.memRepo.txs || h in producer.world.ledger.confirmed
    requires k in producer.memRepo.txs || k in producer.world.ledger.confirmed
    requires Spends(h, o) && Spends(k, o)
    ensures h == k
  {
    assert Live(producer.world.ledger, h) && Live(producer.world.ledger, k);
  }
}
