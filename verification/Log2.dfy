/** The log2 producer: log1 items in, table 0_txlogs2 out. */
module Log2 {
  import opened Transactions
  import opened Ledgers
  import opened SpendChains
  import opened RemovalOrder
  import opened MemRepo
  import opened Log2Spec
  import opened BlockAccept
  import opened BlockRollback
  import opened ItemRuns
  import opened BlockMoves
  import opened Sequences
  import opened BlockTimestamps
  import opened ItemRows

  const MAX_BLOCK_TIMES := 2016 * 2

  // Tables 0_txlogs2 and 0_raw_blocks.  `cols` are the block columns of the rows;
  // `pending` are the rows still in batch -1.
  class ExplorerDb {
    var txlogs: seq<Event>
    var cols: seq<BlockCols>
    var pending: seq<Event>
    var pendingCols: seq<BlockCols>
    var rawBlocks: map<BlockHash, Block>

    constructor ()
      ensures txlogs == [] && cols == [] && pending == [] && pendingCols == [] && rawBlocks == map[]
    {
      txlogs, cols, pending, pendingCols, rawBlocks := [], [], [], [], map[];
    }
  }

  ghost predicate HaveBlocks(blocks: seq<Block>, raw: map<BlockHash, Block>) {
    forall b :: b in blocks ==> BlockHashOf(b) in raw && raw[BlockHashOf(b)] == b
  }

  ghost predicate SamePlace(w: World, v: World) {
    Height(w) == Height(v) && Tip(w) == Tip(v)
  }

  lemma LastBlockIsNewest(w: World)
    requires ValidWorld(w) && w.blocks != []
    ensures var b := Last(w.blocks);
      var n := |w.ledger.confirmed| - |b.vtx|;
      n >= 0 && CoinbaseFirst(b.vtx) && w.ledger.confirmed[n..] == HashesOf(b.vtx)
  {
  }

  lemma RollbackIsPlaced(w: World, item: Log1Item)
    requires ValidWorld(w) && ValidItem(w, item) && item.BlockItem? && item.height < Height(w)
    ensures w.blocks != []
    ensures var b := Last(w.blocks);
      var n := |w.ledger.confirmed| - |b.vtx|;
      && n >= 0 && CoinbaseFirst(b.vtx) && w.ledger.confirmed[n..] == HashesOf(b.vtx)
      && Step(w, item).ledger.pool == w.ledger.pool + Elems(HashesOf(b.vtx)) - {HashOf(b.vtx[0])}
      && Step(w, item).blocks == Front(w.blocks)
  {
    LastBlockIsNewest(w);
  }

  lemma ValidIsPlain(w: World)
    requires ValidWorld(w)
    ensures Consistent(w.ledger) && PlainPool(w.ledger)
  {
  }

  lemma FewerBlocks(blocks: seq<Block>, raw: map<BlockHash, Block>)
    requires blocks != [] && HaveBlocks(blocks, raw)
    ensures HaveBlocks(Front(blocks), raw)
  {
  }

  // Only blocks of the items were added.
  ghost predicate RawGrown(raw: map<BlockHash, Block>, now: map<BlockHash, Block>, items: seq<Log1Item>) {
    && (forall id :: id in raw && !NamesBlock(items, id) ==> id in now && now[id] == raw[id])
    && (forall id :: id in now && !NamesBlock(items, id) ==> id in raw)
    && forall id :: id in raw ==> id in now
  }

  ghost predicate NamesBlock(items: seq<Log1Item>, id: BlockHash) {
    exists item :: item in items && item.BlockItem? && id == BlockHashOf(item.block)
  }

  lemma NothingGrown(raw: map<BlockHash, Block>)
    ensures RawGrown(raw, raw, [])
  {
  }

  lemma GrownMore(raw: map<BlockHash, Block>, before: map<BlockHash, Block>, now: map<BlockHash, Block>,
                  items: seq<Log1Item>, i: nat)
    requires i < |items| && RawGrown(raw, before, items[..i])
    requires now == before || (items[i].BlockItem? && now == before[BlockHashOf(items[i].block) := items[i].block])
    ensures RawGrown(raw, now, items[..i + 1])
  {
    var all := items[..i + 1];
    assert all == items[..i] + [items[i]];
    forall id ensures NamesBlock(items[..i], id) ==> NamesBlock(all, id) {
      if NamesBlock(items[..i], id) {
        var item :| item in items[..i] && item.BlockItem? && id == BlockHashOf(item.block);
        assert item in all;
      }
    }
    assert items[i] in all;
  }

  class Log2Producer {
    const memRepo: MemTxRepository
    const db: ExplorerDb
    const table: MemrepoTable
    const blkTs: BlockTimestamp
    var currBlockHeight: int
    var currBlockHash: BlockHash

    ghost const start: Ledger   // before the first row of the log
    ghost var world: World
    ghost var moved: seq<Move>  // what the log tells of blocks
    ghost var kept: nat         // how many block times are kept

    // The log so far leads from `start` to the ledger of `w`.
    ghost predicate LogReaches(w: World)
      reads db`txlogs
    {
      && ValidWorld(w) && Consistent(start)
      && LegalRun(start, db.txlogs) && Replay(start, db.txlogs) == w.ledger
    }

    // The rows of the log move the blocks of `moved`, and those can be fetched.  Their
    // heights are what the parser expects.
    ghost predicate Tells()
      reads this`moved, db
    {
      && |db.cols| == |db.txlogs| && Moves(db.txlogs, db.cols) == moved
      && RightHeights(db.txlogs, db.cols)
      && Fetchable(moved, db.rawBlocks)
      && db.pendingCols == []
    }

    // Pool table, log and raw blocks all describe the same world.
    ghost predicate Stored()
      reads this`world, this`moved, db, table
    {
      && LogReaches(world) && Tells()
      && table.rows == world.ledger.pool
      && db.pending == []
      && HaveBlocks(world.blocks, db.rawBlocks)
    }

    // And memory does.
    ghost predicate Agrees()
      reads this`world, this`moved, memRepo, db, table
    {
      && Stored()
      && memRepo.Valid() && memRepo.txs.Keys == world.ledger.pool
      && memRepo.unSyncTxsInsert == {} && memRepo.unSyncTxsDelete == {}
    }

    // The times of the newest blocks are kept.
    ghost predicate Keeps(height: int, n: nat)
      reads blkTs
    {
      blkTs.limit == MAX_BLOCK_TIMES && blkTs.Holds(height, n)
    }

    ghost predicate Valid()
      reads this, memRepo, db, table, blkTs
    {
      && Agrees() && currBlockHeight == Height(world) && currBlockHash == Tip(world)
      && Keeps(currBlockHeight, kept)
    }

    // Start or restart: drops unfinished rows and reloads the pool from its table, in
    // whatever order the rows come.  `times` are those of the newest blocks of the
    // store, the last one at `height`.
    constructor (db: ExplorerDb, table: MemrepoTable, height: int, hash: BlockHash, num: Hash -> int,
                 times: seq<nat>, ghost s: Ledger, ghost w: World)
      requires ValidWorld(w) && Consistent(s) && table.rows == w.ledger.pool
      requires LegalRun(s, db.txlogs) && Replay(s, db.txlogs) == w.ledger
      requires height == Height(w) && hash == Tip(w)
      requires HaveBlocks(w.blocks, db.rawBlocks)
      requires RightHeights(db.txlogs, db.cols) && Fetchable(Moves(db.txlogs, db.cols), db.rawBlocks)
      modifies db
      ensures Valid() && kept == Min(|times|, MAX_BLOCK_TIMES)
      ensures world == w && start == s && this.db == db && this.table == table
      ensures db.txlogs == old(db.txlogs) && db.cols == old(db.cols)
      ensures fresh(memRepo) && fresh(blkTs)
    {
      hide Consistent, LegalRun, Replay, Stacked, Moves, Fetchable, HeightFits, BlockTimestamp.Holds;
      hide MemTxRepository.Valid, ValidWorld, HaveBlocks, Height, Tip;
      this.db, this.table := db, table;
      memRepo := new MemTxRepository(num);
      blkTs := new BlockTimestamp(MAX_BLOCK_TIMES);
      currBlockHeight, currBlockHash := height, hash;
      start, world, moved, kept := s, w, Moves(db.txlogs, db.cols), 0;
      new;
      db.pending, db.pendingCols := [], [];
      ValidIsPlain(w);
      LoadPool(w.ledger);
      LoadTimes(times, height);
    }

    // Adds every transaction of the pool table; none of them conflicts.
    method LoadPool(ghost l: Ledger)
      requires memRepo.Valid() && memRepo.txs == map[] && table.rows == l.pool
      requires Consistent(l) && PlainPool(l)
      modifies memRepo
      ensures memRepo.Valid() && memRepo.txs.Keys == l.pool
      ensures memRepo.unSyncTxsInsert == {} && memRepo.unSyncTxsDelete == {}
    {
      var todo := table.rows;
      while todo != {}
        invariant memRepo.Valid() && todo <= l.pool && memRepo.txs.Keys == l.pool - todo
      {
        var h :| h in todo;
        todo := todo - {h};
        assert Live(l, h);
        forall o | Spends(h, o) ensures o !in memRepo.spentOutputs {
          if o in memRepo.spentOutputs {
            assert Live(l, memRepo.spentOutputs[o]);
          }
        }
        var added := memRepo.AddTx(h.tx);
        assert added;
      }
      memRepo.IgnoreUnsyncData();
    }

    // Keeps the times of the blocks up to `height`, as far as the limit goes.
    method LoadTimes(times: seq<nat>, height: int)
      requires Keeps(height - |times|, 0) && kept == 0
      modifies this`kept, blkTs
      ensures Keeps(height, kept) && kept == Min(|times|, MAX_BLOCK_TIMES)
    {
      for i := 0 to |times|
        invariant Keeps(height - |times| + i, kept) && kept == Min(i, MAX_BLOCK_TIMES)
      {
        var ok := blkTs.PushBlock(height - |times| + i + 1, times[i], kept);
        assert ok;
        kept := Min(kept + 1, MAX_BLOCK_TIMES);
      }
    }

    // Publishes the pending rows as one batch together with the pool table.  Fails
    // when the number of rows is not the expected one (0 is not checked).
    method CommitBatch(expectAffectedRows: nat) returns (ok: bool)
      requires memRepo.Valid()
      modifies memRepo, db, table
      ensures memRepo.Valid() && memRepo.txs == old(memRepo.txs) && db.rawBlocks == old(db.rawBlocks)
      ensures expectAffectedRows != 0 && expectAffectedRows != |old(db.pending)| ==> !ok && unchanged(db)
      ensures (expectAffectedRows == |old(db.pending)|) && old(memRepo.SyncsWith(table.rows)) ==>
        && ok && db.pending == [] && db.txlogs == old(db.txlogs) + old(db.pending)
        && db.pendingCols == [] && db.cols == old(db.cols) + old(db.pendingCols)
        && table.rows == memRepo.txs.Keys
        && memRepo.unSyncTxsInsert == {} && memRepo.unSyncTxsDelete == {}
    {
      if expectAffectedRows != 0 && |db.pending| != expectAffectedRows {
        return false;
      }
      db.txlogs, db.pending := db.txlogs + db.pending, [];
      db.cols, db.pendingCols := db.cols + db.pendingCols, [];
      ok := memRepo.SyncToDB(table);
    }

    // The pool holds what it should after `item`, and the changes can be written.
    ghost predicate Staged(item: Log1Item, es: seq<Event>, cs: seq<BlockCols>)
      requires ValidWorld(world) && ValidItem(world, item)
      reads this`world, memRepo, db`rawBlocks, table
    {
      && memRepo.Valid() && memRepo.SyncsWith(table.rows)
      && memRepo.txs.Keys == Step(world, item).ledger.pool
      && Explains(world, item, es)
      && HaveBlocks(Step(world, item).blocks, db.rawBlocks)
      && TellsOf(item, es, cs)
    }

    // The rows move the blocks they should for `item`.
    ghost predicate TellsOf(item: Log1Item, es: seq<Event>, cs: seq<BlockCols>)
      requires ValidWorld(world) && ValidItem(world, item)
      reads this`world, db`rawBlocks
    {
      && RightHeights(es, cs) && Moves(es, cs) == ItemMoves(world, item)
      && Fetchable(ItemMoves(world, item), db.rawBlocks)
    }

    // A block that comes is stored; nothing else is, and nothing goes.
    ghost function RawAfter(item: Log1Item): map<BlockHash, Block>
      reads this`currBlockHeight, db`rawBlocks
    {
      if item.BlockItem? && item.height > currBlockHeight then db.rawBlocks[BlockHashOf(item.block) := item.block]
      else db.rawBlocks
    }

    // The rows from place n on are those of the item.
    ghost predicate Wrote(w: World, item: Log1Item, n: nat)
      requires ValidWorld(w) && ValidItem(w, item)
      reads db`txlogs, db`cols
    {
      n <= |db.txlogs| == |db.cols| && Writes(memRepo.num, w, item, db.txlogs[n..], db.cols[n..])
    }

    lemma WroteNothing(item: Log1Item)
      requires ValidWorld(world) && ValidItem(world, item) && Tells() && Writes(memRepo.num, world, item, [], [])
      ensures Wrote(world, item, |db.txlogs|)
    {
      hide Writes, Moves, Fetchable, HeightFits;
      assert db.txlogs[|db.txlogs|..] == [] && db.cols[|db.txlogs|..] == [];
    }

    lemma WorldIsValid()
      requires Valid()
      ensures ValidWorld(world)
    {
    }

    lemma ValidIsStored()
      requires Valid()
      ensures Stored() && kept <= MAX_BLOCK_TIMES && |db.txlogs| == |db.cols|
    {
    }

    lemma KnowsWorld()
      requires LogReaches(world)
      ensures ValidWorld(world) && Consistent(world.ledger) && PlainPool(world.ledger)
    {
    }

    // Rows that concern no block are all that other items write.
    lemma TellsOfNothing(item: Log1Item, es: seq<Event>, cs: seq<BlockCols>)
      requires ValidWorld(world) && ValidItem(world, item) && !item.BlockItem?
      requires RightHeights(es, cs) && Moves(es, cs) == []
      ensures TellsOf(item, es, cs)
    {
    }

    ghost method Advance(item: Log1Item, es: seq<Event>, cs: seq<BlockCols>)
      requires LogReaches(world) && Tells() && ValidItem(world, item) && Staged(item, es, cs)
      modifies this`world, this`moved
      ensures world == old(Step(world, item)) && moved == old(moved + ItemMoves(world, item))
      ensures !item.BlockItem? ==> SamePlace(world, old(world))
      ensures ValidWorld(world) && LegalRun(start, db.txlogs + es)
      ensures Replay(start, db.txlogs + es) == world.ledger
      ensures RightHeights(db.txlogs + es, db.cols + cs)
      ensures Moves(db.txlogs + es, db.cols + cs) == moved && Fetchable(moved, db.rawBlocks)
    {
      hide Consistent, LegalRun, Replay, Moves, ItemMoves, HeightFits;
      assert PlainPool(Step(world, item).ledger);
      StepKeepsValid(world, item, es, start, db.txlogs);
      MovesConcat(db.txlogs, db.cols, es, cs);
      HeightsConcat(db.txlogs, db.cols, es, cs);
      moved := moved + ItemMoves(world, item);
      world := Step(world, item);
    }

    // Inserts the rows of the item and publishes them with one commit.
    method Publish(rows: seq<Event>, rowCols: seq<BlockCols>, ghost item: Log1Item) returns (ok: bool)
      requires LogReaches(world) && Tells() && ValidItem(world, item) && Staged(item, rows, rowCols)
      requires Writes(memRepo.num, world, item, rows, rowCols)
      requires db.pending == []
      modifies this`world, this`moved, memRepo, db, table
      ensures ok && Agrees()
      ensures world == old(Step(world, item)) && moved == old(moved + ItemMoves(world, item))
      ensures db.txlogs == old(db.txlogs) + rows && db.cols == old(db.cols) + rowCols
      ensures Wrote(old(world), item, |old(db.txlogs)|) && db.rawBlocks == old(db.rawBlocks)
      ensures !item.BlockItem? ==> SamePlace(world, old(world))
    {
      hide ValidWorld, ValidItem, Consistent, LegalRun, Replay, Explains, MemTxRepository.Valid;
      hide Step, Moves, ItemMoves, Fetchable, Writes;
      Advance(item, rows, rowCols);
      db.pending, db.pendingCols := db.pending + rows, db.pendingCols + rowCols;
      assert db.pending == rows && db.pendingCols == rowCols;
      ok := CommitBatch(|rows|);
      assert db.txlogs[|old(db.txlogs)|..] == rows && db.cols[|old(db.txlogs)|..] == rowCols;
    }

    // Inserts a single row, as a batch of its own, in the transaction that commits it.
    method PublishOne(row: Event, rowCols: BlockCols, ghost item: Log1Item) returns (ok: bool)
      requires LogReaches(world) && Tells() && ValidItem(world, item) && Staged(item, [row], [rowCols])
      requires Writes(memRepo.num, world, item, [row], [rowCols])
      requires db.pending == []
      modifies this`world, this`moved, memRepo, db, table
      ensures ok && Agrees()
      ensures world == old(Step(world, item)) && moved == old(moved + ItemMoves(world, item))
      ensures db.txlogs == old(db.txlogs) + [row] && db.cols == old(db.cols) + [rowCols]
      ensures Wrote(old(world), item, |old(db.txlogs)|) && db.rawBlocks == old(db.rawBlocks)
      ensures !item.BlockItem? ==> SamePlace(world, old(world))
    {
      hide ValidWorld, ValidItem, Consistent, LegalRun, Replay, Explains, MemTxRepository.Valid;
      hide Step, Moves, ItemMoves, Fetchable, Writes;
      Advance(item, [row], [rowCols]);
      db.txlogs, db.cols := db.txlogs + [row], db.cols + [rowCols];
      ok := memRepo.SyncToDB(table);
      assert db.txlogs[|old(db.txlogs)|..] == [row] && db.cols[|old(db.txlogs)|..] == [rowCols];
    }

    method HandleTxAccept(tx: Tx) returns (ok: bool)
      requires Valid() && ValidItem(world, AcceptTx(tx))
      modifies this`world, this`moved, memRepo, db, table
      ensures ok && Valid() && world == old(Step(world, AcceptTx(tx))) && moved == old(moved)
      ensures Wrote(old(world), AcceptTx(tx), |old(db.txlogs)|) && db.rawBlocks == old(db.rawBlocks)
      ensures old(db.txlogs) <= db.txlogs && old(db.cols) <= db.cols
    {
      hide LogReaches, Tells, TellsOf, Wrote, Writes, HaveBlocks, Consistent, ValidWorld, Moves, Explains;
      hide MemTxRepository.Valid;
      KnowsWorld();
      var hash := HashOf(tx);
      ghost var item := AcceptTx(tx);
      ghost var l := world.ledger;
      AcceptWrites(memRepo.num, world, tx);
      if memRepo.IsExist(hash) {
        WroteNothing(item);
        return true;
      }
      var res := memRepo.AddTx(tx);
      if !res {
        WroteNothing(item);
        assert world == Step(world, item);
        return true;
      }
      AcceptIsLegal(world, tx);
      NoMoves([Accept(hash)], [NO_BLOCK]);
      assert RightHeights([Accept(hash)], [NO_BLOCK]);
      TellsOfNothing(item, [Accept(hash)], [NO_BLOCK]);
      ok := PublishOne(Accept(hash), NO_BLOCK, item);
    }

    // Appends one REJECT row per hash.
    method RejectRows(hashes: seq<Hash>) returns (values: seq<Event>, cols: seq<BlockCols>)
      ensures values == Rejects(hashes) && cols == Repeat(NO_BLOCK, |hashes|)
    {
      values, cols := [], [];
      for i := 0 to |hashes|
        invariant values == Rejects(hashes[..i]) && cols == Repeat(NO_BLOCK, i)
      {
        values, cols := values + [Reject(hashes[i])], cols + [NO_BLOCK];
      }
      assert hashes[..|hashes|] == hashes;
    }

    method HandleTxReject(tx: Tx) returns (ok: bool)
      requires Valid()
      modifies this`world, this`moved, memRepo, db, table
      ensures ok && Valid() && world == old(Step(world, RemoveTx(tx))) && moved == old(moved)
      ensures Wrote(old(world), RemoveTx(tx), |old(db.txlogs)|) && db.rawBlocks == old(db.rawBlocks)
      ensures old(db.txlogs) <= db.txlogs && old(db.cols) <= db.cols
    {
      hide LogReaches, Tells, TellsOf, Wrote, Writes, HaveBlocks, Consistent, ValidWorld, Moves, MemTxRepository.Valid;
      hide LeafFirst, PlainPool, LegalRun, Replay, RemovedInTurn, Drained, RejectedIn;
      KnowsWorld();
      ghost var item := RemoveTx(tx);
      ghost var pool := world.ledger.pool;
      if !memRepo.IsExist(HashOf(tx)) {
        NothingDescends(pool, HashOf(tx));
        RejectsNothing(memRepo.num, world, tx);
        WroteNothing(item);
        return true;
      }
      var removeHashes;
      ok, removeHashes := memRepo.RemoveTxAndChildTx(tx);
      assert Elems(removeHashes) == Removed(pool, HashOf(tx));
      RejectRun(world.ledger, removeHashes);
      var values, cols := RejectRows(removeHashes);
      RejectMoves(world.ledger, removeHashes, cols);
      OtherRowsFit(values, cols);
      TellsOfNothing(item, values, cols);
      RejectsWrite(memRepo.num, world, item, removeHashes);
      ok := Publish(values, cols, item);
    }

    // Removes the whole pool, each time a transaction nothing spends.
    method DrainPool() returns (values: seq<Event>, cols: seq<BlockCols>, ghost hashes: seq<Hash>)
      requires memRepo.Valid()
      modifies memRepo
      ensures memRepo.Valid() && memRepo.txs == map[]
      ensures LeafFirst(old(memRepo.txs.Keys), hashes) && Elems(hashes) == old(memRepo.txs.Keys)
      ensures Drained(memRepo.num, old(memRepo.txs.Keys), hashes)
      ensures memRepo.unSyncTxsDelete == old(memRepo.unSyncTxsDelete + memRepo.txs.Keys)
      ensures memRepo.unSyncTxsInsert == old(memRepo.unSyncTxsInsert)
      ensures values == Rejects(hashes) && cols == Repeat(NO_BLOCK, |hashes|)
    {
      hide MemTxRepository.Valid, LeafFirst, IsChild, Descends, FromGreatest, Drained;
      NothingDrained(memRepo.num, memRepo.txs.Keys);
      ghost var pool, gone := memRepo.txs.Keys, {};
      EmptyIsLeafFirst(pool);
      values, cols, hashes := [], [], [];
      while memRepo.txs != map[]
        invariant memRepo.Valid() && LeafFirst(pool, hashes) && gone == Elems(hashes)
        invariant Drained(memRepo.num, pool, hashes)
        invariant memRepo.txs.Keys == pool - gone && gone <= pool
        invariant memRepo.unSyncTxsDelete == old(memRepo.unSyncTxsDelete) + gone
        invariant memRepo.unSyncTxsInsert == old(memRepo.unSyncTxsInsert)
        invariant values == Rejects(hashes) && cols == Repeat(NO_BLOCK, |hashes|)
        decreases memRepo.txs.Keys
      {
        var ok, hash := memRepo.RemoveSomeTx();
        LeafFirstSnoc(pool, hashes, hash);
        DrainedMore(memRepo.num, pool, hashes, hash);
        OneMore(pool, old(memRepo.unSyncTxsDelete), gone, hash);
        hashes, gone := hashes + [hash], gone + {hash};
        values, cols := values + [Reject(hash)], cols + [NO_BLOCK];
      }
      assert memRepo.txs.Keys == {};
      assert pool - gone == {};
    }

    method ClearMempoolTxs() returns (ok: bool)
      requires Valid()
      modifies this`world, this`moved, memRepo, db, table
      ensures ok && Valid() && world == old(Step(world, ClearMemtxs)) && memRepo.txs == map[]
      ensures moved == old(moved)
      ensures Wrote(old(world), ClearMemtxs, |old(db.txlogs)|) && db.rawBlocks == old(db.rawBlocks)
      ensures old(db.txlogs) <= db.txlogs && old(db.cols) <= db.cols
    {
      hide LogReaches, Tells, TellsOf, Wrote, Writes, HaveBlocks, Consistent, ValidWorld, Moves, MemTxRepository.Valid;
      hide LeafFirst, PlainPool, LegalRun, Replay, RemovedInTurn, Drained, RejectedIn;
      KnowsWorld();
      ghost var l := world.ledger;
      var values, cols;
      ghost var hashes;
      values, cols, hashes := DrainPool();
      RejectRun(l, hashes);
      assert l.pool - Elems(hashes) == {};
      assert forall h :: h in hashes ==> h in Elems(hashes);
      RejectMoves(l, hashes, cols);
      OtherRowsFit(values, cols);
      TellsOfNothing(ClearMemtxs, values, cols);
      RejectsWrite(memRepo.num, world, ClearMemtxs, hashes);
      ok := Publish(values, cols, ClearMemtxs);
      // the original now checks that the pool table is empty
      assert table.rows == {};
    }

    // Removes the leaf of one chain of spends that starts by spending what `tx` spends.
    method RemoveConflict(tx: Tx) returns (ok: bool, conflictTx: Hash, ghost m: Hash)
      requires memRepo.Valid() && WellFormed(tx) && HashOf(tx) !in memRepo.txs
      requires exists k :: k in memRepo.txs && SpendsSame(HashOf(tx), k)
      modifies memRepo
      ensures ok && memRepo.Valid()
      ensures m in old(memRepo.txs) && SpendsSame(HashOf(tx), m)
      ensures Descends(old(memRepo.txs.Keys), m, conflictTx)
      ensures forall c :: c in old(memRepo.txs.Keys) ==> !IsChild(conflictTx, c)
      ensures ConflictEnd(old(memRepo.txs.Keys), HashOf(tx), conflictTx)
      ensures memRepo.txs.Keys == old(memRepo.txs.Keys) - {conflictTx}
      ensures conflictTx in old(memRepo.txs)
      ensures memRepo.unSyncTxsInsert == old(memRepo.unSyncTxsInsert)
      ensures memRepo.unSyncTxsDelete == old(memRepo.unSyncTxsDelete) + {conflictTx}
    {
      assert exists o :: Spends(HashOf(tx), o) && o in memRepo.spentOutputs by {
        ghost var k :| k in memRepo.txs && SpendsSame(HashOf(tx), k);
        ghost var o :| Spends(HashOf(tx), o) && Spends(k, o);
      }
      ok, conflictTx := memRepo.GetConflictTx(tx);
      if !ok || conflictTx == HashOf(tx) {
        return false, conflictTx, conflictTx;
      }
      ghost var o :| Spends(HashOf(tx), o) && o in memRepo.spentOutputs
        && Descends(memRepo.txs.Keys, memRepo.spentOutputs[o], conflictTx);
      m := memRepo.spentOutputs[o];
      ok := memRepo.RemoveTx(conflictTx);
    }

    // Adds `tx` to the pool, removing one leaf of a conflicting chain at a time until
    // it fits.  What goes is exactly the double-spent transactions and their descendants.
    method AddRemovingConflicts(tx: Tx) returns (ok: bool, conflicts: seq<Hash>)
      requires memRepo.Valid() && !tx.coinbase && WellFormed(tx) && HashOf(tx) !in memRepo.txs
      modifies memRepo
      ensures ok && memRepo.Valid()
      ensures LeafFirst(old(memRepo.txs.Keys), conflicts)
      ensures Elems(conflicts) == Doomed(old(memRepo.txs.Keys), HashOf(tx))
      ensures MadeWay(old(memRepo.txs.Keys), HashOf(tx), conflicts)
      ensures memRepo.txs.Keys == old(memRepo.txs.Keys) - Elems(conflicts) + {HashOf(tx)}
      ensures memRepo.unSyncTxsInsert == old(memRepo.unSyncTxsInsert) + {HashOf(tx)}
      ensures memRepo.unSyncTxsDelete == old(memRepo.unSyncTxsDelete) + Elems(conflicts)
    {
      ghost var pool, h := memRepo.txs.Keys, HashOf(tx);
      ghost var gone: set<Hash> := {};
      conflicts := [];
      while true
        invariant memRepo.Valid() && h !in memRepo.txs
        invariant LeafFirst(pool, conflicts) && gone == Elems(conflicts) && gone <= Doomed(pool, h)
        invariant MadeWay(pool, h, conflicts)
        invariant memRepo.txs.Keys == pool - gone
        invariant memRepo.unSyncTxsInsert == old(memRepo.unSyncTxsInsert)
        invariant memRepo.unSyncTxsDelete == old(memRepo.unSyncTxsDelete) + gone
        decreases memRepo.txs.Keys
      {
        var added := memRepo.AddTx(tx);
        if added {
          assert memRepo.txs.Keys == pool - gone + {h};
          DoomEnd(pool, h, conflicts);
          return true, conflicts;
        }
        ghost var left := pool - gone;
        var conflictTx;
        ghost var m;
        ok, conflictTx, m := RemoveConflict(tx);
        DoomStep(pool, left, h, conflicts, m, conflictTx);
        MadeMoreWay(pool, h, conflicts, conflictTx);
        OneMore(pool, old(memRepo.unSyncTxsDelete), gone, conflictTx);
        conflicts, gone := conflicts + [conflictTx], gone + {conflictTx};
      }
    }

    // One transaction of a new block goes through the pool.
    method EnterBlockTx(tx: Tx, conflictTxs: seq<Hash>, ghost l: Ledger, ghost hs: seq<Hash>, ghost n: nat)
      returns (ok: bool, known: bool, conflicts: seq<Hash>)
      requires memRepo.Valid() && Consistent(l) && Fits(l, hs)
      requires n < |hs| && hs[n] == HashOf(tx) && !tx.coinbase
      requires Evicting(l, hs, n, memRepo.txs.Keys, conflictTxs) && EvictedInTurn(l.pool, hs, n, conflictTxs)
      requires memRepo.unSyncTxsDelete == Elems(conflictTxs)
      modifies memRepo
      ensures ok && memRepo.Valid() && Evicting(l, hs, n + 1, memRepo.txs.Keys, conflicts)
      ensures EvictedInTurn(l.pool, hs, n + 1, conflicts)
      ensures known <==> HashOf(tx) in l.pool
      ensures memRepo.unSyncTxsInsert == old(memRepo.unSyncTxsInsert) + (if known then {} else {HashOf(tx)})
      ensures memRepo.unSyncTxsDelete == Elems(conflicts)
    {
      hide EvictedInTurn, MadeWay, Consistent, LeafFirst, MemTxRepository.Valid;
      assert HashOf(tx) in hs;
      ghost var mem := memRepo.txs.Keys;
      KnownToPool(l, hs, n, mem, conflictTxs);
      known, conflicts := memRepo.IsExist(HashOf(tx)), conflictTxs;
      ok := true;
      if known {
        EnterOne(l, hs, n, mem, conflictTxs);
        assert mem + {hs[n]} == mem;
        EvictedMore(l.pool, hs, n, conflictTxs, []);
        assert conflictTxs + [] == conflictTxs;
      } else {
        var more;
        ok, more := AddRemovingConflicts(tx);
        EvictSome(l, hs, n, mem, conflictTxs, more);
        EvictedMore(l.pool, hs, n, conflictTxs, more);
        EnterOne(l, hs, n, mem - Elems(more), conflictTxs + more);
        conflicts := conflictTxs + more;
      }
    }

    // The first pass over a block: all its transactions but the coinbase are in the
    // pool afterwards, and exactly the pool transactions in conflict with it are out.
    method EnterBlock(b: Block, ghost l: Ledger)
      returns (ok: bool, txHashs: seq<Hash>, alreadyInMem: set<Hash>, conflictTxs: seq<Hash>)
      requires memRepo.Valid() && Consistent(l) && ValidBlock(l, b.vtx) && memRepo.txs.Keys == l.pool
      requires memRepo.unSyncTxsInsert == {} && memRepo.unSyncTxsDelete == {}
      modifies memRepo
      ensures ok && memRepo.Valid()
      ensures Evicting(l, HashesOf(b.vtx), |b.vtx|, memRepo.txs.Keys, conflictTxs)
      ensures EvictedInTurn(l.pool, HashesOf(b.vtx), |b.vtx|, conflictTxs)
      ensures txHashs == HashesOf(b.vtx)[1..]
      ensures alreadyInMem == Entered(HashesOf(b.vtx), |b.vtx|) * l.pool
      ensures memRepo.unSyncTxsInsert == Entered(HashesOf(b.vtx), |b.vtx|) - l.pool
      ensures memRepo.unSyncTxsDelete == Elems(conflictTxs)
    {
      hide EvictedInTurn, Evicting, Fits, Consistent, LeafFirst, MemTxRepository.Valid;
      EvictStart(l, HashesOf(b.vtx));
      ghost var hs := HashesOf(b.vtx);
      txHashs, alreadyInMem, conflictTxs := [], {}, [];
      for i := 0 to |b.vtx|
        invariant memRepo.Valid() && Evicting(l, hs, i, memRepo.txs.Keys, conflictTxs)
        invariant EvictedInTurn(l.pool, hs, i, conflictTxs)
        invariant txHashs == if i == 0 then [] else hs[1..i]
        invariant alreadyInMem == Entered(hs, i) * l.pool
        invariant memRepo.unSyncTxsInsert == Entered(hs, i) - l.pool
        invariant memRepo.unSyncTxsDelete == Elems(conflictTxs)
      {
        var tx := b.vtx[i];
        EnteredSnoc(hs, i, l.pool);
        if tx.coinbase {
          assert i == 0;
          EnterOne(l, hs, i, memRepo.txs.Keys, conflictTxs);
          EvictedMore(l.pool, hs, i, conflictTxs, []);
          assert conflictTxs + [] == conflictTxs;
          continue;
        }
        txHashs := txHashs + [HashOf(tx)];
        var known;
        ok, known, conflictTxs := EnterBlockTx(tx, conflictTxs, l, hs, i);
        if known {
          alreadyInMem := alreadyInMem + {HashOf(tx)};
        }
      }
      ok := true;
    }

    // ACCEPT (when new) and CONFIRM rows for every transaction of the block.
    method BlockRows(b: Block, height: nat, alreadyInMem: set<Hash>)
      returns (values: seq<Event>, cols: seq<BlockCols>)
      ensures values == BlockEvents(HashesOf(b.vtx), alreadyInMem, height)
      ensures cols == ConfirmCols(values, BlockCols(BlockHashOf(b), height))
    {
      values, cols := [], [];
      ghost var hs := HashesOf(b.vtx);
      for i := 0 to |b.vtx|
        invariant values == BlockEvents(hs[..i], alreadyInMem, height)
        invariant cols == ConfirmCols(values, BlockCols(BlockHashOf(b), height))
      {
        assert Front(hs[..i + 1]) == hs[..i];
        ghost var before := values;
        var txhash := HashOf(b.vtx[i]);
        if txhash !in alreadyInMem {
          values, cols := values + [Accept(txhash)], cols + [NO_BLOCK];
        }
        values, cols := values + [Confirm(txhash, height)], cols + [BlockCols(BlockHashOf(b), height)];
        assert values == before + TxEvents(txhash, alreadyInMem, height);
      }
      assert hs[..|hs|] == hs;
    }

    // What a valid block does to the pool: its conflicts and its own transactions go.
    method BlockThroughPool(b: Block, ghost l: Ledger)
      returns (ok: bool, alreadyInMem: set<Hash>, conflictTxs: seq<Hash>)
      requires memRepo.Valid() && Consistent(l) && PlainPool(l) && ValidBlock(l, b.vtx)
      requires memRepo.txs.Keys == l.pool
      requires memRepo.unSyncTxsInsert == {} && memRepo.unSyncTxsDelete == {}
      modifies memRepo
      ensures ok && memRepo.Valid() && memRepo.SyncsWith(l.pool)
      ensures memRepo.txs.Keys == l.pool - Evicted(l.pool, HashesOf(b.vtx)) - Elems(HashesOf(b.vtx))
      ensures RoomMade(l, HashesOf(b.vtx), conflictTxs, alreadyInMem)
      ensures EvictedInTurn(l.pool, HashesOf(b.vtx), |b.vtx|, conflictTxs)
    {
      hide EvictedInTurn, Consistent, LeafFirst;
      ghost var hs := HashesOf(b.vtx);
      var txHashs;
      ok, txHashs, alreadyInMem, conflictTxs := EnterBlock(b, l);
      ghost var mem := memRepo.txs.Keys;
      EvictionComplete(l, hs, mem, conflictTxs);
      BlockLeavesPool(l, b.vtx, mem, conflictTxs);
      EnteredIsKnown(l, b.vtx, alreadyInMem);
      ok := memRepo.RemoveTxs(txHashs);
    }

    method InsertRawBlock(b: Block, ghost blocks: seq<Block>)
      requires Tells() && HaveBlocks(blocks, db.rawBlocks)
      modifies db`rawBlocks
      ensures Tells() && HaveBlocks(blocks + [b], db.rawBlocks)
      ensures db.rawBlocks == old(db.rawBlocks)[BlockHashOf(b) := b]
    {
      hide Moves;
      db.rawBlocks := db.rawBlocks[BlockHashOf(b) := b];
    }

    // Keeps the time of a new block; the assertion inside never fails here.
    method KeepTime(height: int, b: Block) returns (ok: bool)
      requires Keeps(height - 1, kept)
      modifies this`kept, blkTs
      ensures ok && kept == Min(old(kept) + 1, MAX_BLOCK_TIMES) && Keeps(height, kept)
    {
      ok := blkTs.PushBlock(height, b.time, kept);
      kept := Min(kept + 1, MAX_BLOCK_TIMES);
    }

    method HandleBlockAccept(height: nat, b: Block) returns (ok: bool)
      requires Agrees() && ValidItem(world, BlockItem(height, b)) && height > Height(world)
      requires Keeps(height - 1, kept)
      modifies this`world, this`moved, this`kept, memRepo, db, table, blkTs
      ensures ok && Agrees() && world == old(Step(world, BlockItem(height, b)))
      ensures kept == Min(old(kept) + 1, MAX_BLOCK_TIMES) && Keeps(height, kept)
      ensures moved == old(moved + ItemMoves(world, BlockItem(height, b)))
      ensures Wrote(old(world), BlockItem(height, b), |old(db.txlogs)|)
      ensures db.rawBlocks == old(db.rawBlocks)[BlockHashOf(b) := b]
      ensures old(db.txlogs) <= db.txlogs && old(db.cols) <= db.cols
    {
      hide LogReaches, Tells, TellsOf, Wrote, Writes, HaveBlocks, Consistent, ValidWorld, Moves, Explains;
      hide MemTxRepository.Valid;
      hide PlainPool, ValidBlock, RoomMade, ItemMoves, Evicted, EvictedInTurn, Keeps;
      KnowsWorld();
      ghost var item := BlockItem(height, b);
      ok := KeepTime(height, b);
      if !ok {
        return;
      }
      var alreadyInMem, conflictTxs;
      ok, alreadyInMem, conflictTxs := BlockThroughPool(b, world.ledger);
      if !ok {
        return;
      }
      InsertRawBlock(b, world.blocks);
      var values, cols := RejectRows(conflictTxs);
      var blockRows, blockCols := BlockRows(b, height, alreadyInMem);
      BlockExplained(world, height, b, conflictTxs, alreadyInMem);
      BlockTold(height, b, conflictTxs, alreadyInMem, cols);
      NewBlockWrites(memRepo.num, world, height, b, conflictTxs, alreadyInMem, cols);
      ok := Publish(values + blockRows, cols + blockCols, item);
    }

    lemma BlockTold(height: nat, b: Block, r: seq<Hash>, known: set<Hash>, cs: seq<BlockCols>)
      requires ValidWorld(world) && ValidItem(world, BlockItem(height, b)) && height > Height(world)
      requires RoomMade(world.ledger, HashesOf(b.vtx), r, known) && |cs| == |r|
      requires BlockHashOf(b) in db.rawBlocks && db.rawBlocks[BlockHashOf(b)] == b
      ensures var es := BlockEvents(HashesOf(b.vtx), known, height);
        TellsOf(BlockItem(height, b), Rejects(r) + es, cs + ConfirmCols(es, BlockCols(BlockHashOf(b), height)))
    {
      hide Moves, LeafFirst, NoConflict, Fits, Consistent, RightHeights, CanCount;
      var c, es := BlockCols(BlockHashOf(b), height), BlockEvents(HashesOf(b.vtx), known, height);
      assert forall h :: h in r ==> h in Elems(r);
      RejectMoves(world.ledger, r, cs);
      BlockRowsMove(b.vtx, known, height, c);
      MovesConcat(Rejects(r), cs, es, ConfirmCols(es, c));
      OtherRowsFit(Rejects(r), cs);
      BlockRowsFit(HashesOf(b.vtx), known, height, c);
      HeightsConcat(Rejects(r), cs, es, ConfirmCols(es, c));
      ValidCanCount(world.ledger, b);
    }

    // Puts the transactions of the block back into the pool, last one first.
    method ReturnToPool(b: Block, ghost l: Ledger, ghost n: nat) returns (ok: bool)
      requires memRepo.Valid() && Consistent(l) && memRepo.txs.Keys == l.pool
      requires n <= |l.confirmed| && l.confirmed[n..] == HashesOf(b.vtx) && CoinbaseFirst(b.vtx)
      requires memRepo.unSyncTxsInsert == {} && memRepo.unSyncTxsDelete == {}
      modifies memRepo
      ensures ok && memRepo.Valid()
      ensures memRepo.txs.Keys == l.pool + Elems(HashesOf(b.vtx)) - {HashOf(b.vtx[0])}
      ensures memRepo.SyncsWith(l.pool)
    {
      hide Consistent, CoinbaseFirst, Returning, MemTxRepository.Valid, SpendsSame;
      ReturnStart(l, HashesOf(b.vtx));
      ghost var hs := HashesOf(b.vtx);
      for i := |b.vtx| downto 0
        invariant memRepo.Valid() && Returning(l, hs, i, memRepo.txs.Keys)
        invariant memRepo.unSyncTxsInsert == memRepo.txs.Keys - l.pool && memRepo.unSyncTxsDelete == {}
      {
        var tx := b.vtx[i];
        ReturnOne(l, n, hs, i, memRepo.txs.Keys);
        if tx.coinbase {
          continue;
        }
        ghost var mem := memRepo.txs.Keys;
        var added := memRepo.AddTx(tx);
        if !added {
          return false;
        }
        assert memRepo.txs.Keys == mem + {hs[i]};
      }
      ReturnDone(l, n, b.vtx, memRepo.txs.Keys);
      ok := true;
    }

    // The rows written for the transactions from i on.
    ghost predicate RowsFrom(hs: seq<Hash>, i: nat, values: seq<Event>)
      requires i <= |hs|
    {
      values + Unconfirms(hs[..i]) == Unconfirms(hs)
    }

    lemma RowsFromEnd(hs: seq<Hash>)
      ensures RowsFrom(hs, |hs|, [])
    {
      assert hs[..|hs|] == hs;
    }

    lemma RowsFromStep(hs: seq<Hash>, i: nat, values: seq<Event>)
      requires i < |hs| && RowsFrom(hs, i + 1, values)
      ensures RowsFrom(hs, i, values + [Unconfirm(hs[i])])
    {
      assert Front(hs[..i + 1]) == hs[..i] && Last(hs[..i + 1]) == hs[i];
    }

    lemma RowsFromStart(hs: seq<Hash>, values: seq<Event>)
      requires RowsFrom(hs, 0, values)
      ensures values == Unconfirms(hs)
    {
      assert hs[..0] == [];
    }

    // UNCONFIRM rows in reverse order, then the REJECT of the coinbase.
    method RollbackRows(b: Block, height: int) returns (values: seq<Event>, cols: seq<BlockCols>)
      requires b.vtx != []
      ensures values == Unconfirms(HashesOf(b.vtx)) + [Reject(HashOf(b.vtx[0]))]
      ensures cols == Repeat(BlockCols(BlockHashOf(b), height), |values|)
    {
      hide Unconfirms, RowsFrom;
      values, cols := [], [];
      ghost var hs := HashesOf(b.vtx);
      RowsFromEnd(hs);
      for i := |b.vtx| downto 0
        invariant RowsFrom(hs, i, values)
        invariant cols == Repeat(BlockCols(BlockHashOf(b), height), |values|)
      {
        RowsFromStep(hs, i, values);
        values, cols := values + [Unconfirm(HashOf(b.vtx[i]))], cols + [BlockCols(BlockHashOf(b), height)];
      }
      RowsFromStart(hs, values);
      values, cols := values + [Reject(HashOf(b.vtx[0]))], cols + [BlockCols(BlockHashOf(b), height)];
    }

    lemma RollbackTold(height: int, b: Block, item: Log1Item)
      requires ValidWorld(world) && ValidItem(world, item) && item.BlockItem? && item.height < Height(world)
      requires b == Last(world.blocks) && height == Height(world) && HaveBlocks(world.blocks, db.rawBlocks)
      ensures var es := Unconfirms(HashesOf(b.vtx)) + [Reject(HashOf(b.vtx[0]))];
        TellsOf(item, es, Repeat(BlockCols(BlockHashOf(b), height), |es|))
    {
      hide Moves;
      LastBlockIsNewest(world);
      RollbackRowsMove(HashesOf(b.vtx), BlockCols(BlockHashOf(b), height));
      UnconfirmsOnly(HashesOf(b.vtx));
      var es := Unconfirms(HashesOf(b.vtx)) + [Reject(HashOf(b.vtx[0]))];
      OtherRowsFit(es, Repeat(BlockCols(BlockHashOf(b), height), |es|));
    }

    // Forgets the time of the block that goes; ok is false where there is none.
    method ForgetTime(height: int) returns (ok: bool)
      requires Keeps(height, kept)
      modifies this`kept, blkTs
      ensures ok <==> old(kept) > 0
      ensures kept == if ok then old(kept) - 1 else old(kept)
      ensures Keeps(if ok then height - 1 else height, kept)
    {
      ok := blkTs.PopBlock(height, kept);
      if ok {
        kept := kept - 1;
      }
    }

    // Fails if and only if no block time is left to forget; nothing is written then.
    method HandleBlockRollback(height: int, b: Block, ghost item: Log1Item) returns (ok: bool)
      requires Agrees() && ValidItem(world, item) && item.BlockItem? && item.height < Height(world)
      requires b == Last(world.blocks) && height == Height(world) && Keeps(height, kept)
      modifies this`world, this`moved, this`kept, memRepo, db, table, blkTs
      ensures ok <==> old(kept) > 0
      ensures kept == (if ok then old(kept) - 1 else old(kept)) && (ok ==> Keeps(height - 1, kept))
      ensures ok ==> Agrees()
      ensures ok ==> world == old(Step(world, item)) && moved == old(moved + ItemMoves(world, item))
      ensures !ok ==> Stored() && world == old(world) && moved == old(moved)
      ensures !ok ==> db.txlogs == old(db.txlogs) && db.cols == old(db.cols)
      ensures ok ==> Wrote(old(world), item, |old(db.txlogs)|)
      ensures db.rawBlocks == old(db.rawBlocks)
      ensures old(db.txlogs) <= db.txlogs && old(db.cols) <= db.cols
    {
      hide Keeps, LogReaches, Tells, TellsOf, Wrote, Writes, HaveBlocks, Consistent, Moves, Explains;
      hide MemTxRepository.Valid, PlainPool, ValidWorld, ValidItem, ItemMoves;
      KnowsWorld();
      ghost var l := world.ledger;
      ghost var n := |l.confirmed| - |b.vtx|;
      RollbackIsPlaced(world, item);
      ok := ReturnToPool(b, l, n);
      if !ok {
        return;
      }
      var values, cols := RollbackRows(b, height);
      RollbackExplained(world, item);
      RollbackTold(height, b, item);
      RollbackWrites(memRepo.num, world, item);
      FewerBlocks(world.blocks, db.rawBlocks);
      ok := ForgetTime(height);
      if !ok {
        return;
      }
      ok := Publish(values, cols, item);
    }

    // Neither one block forward nor one block back to the block before the newest.
    ghost predicate Misplaced(height: int, b: Block)
      reads this, db
    {
      height != currBlockHeight + 1
      && (height + 1 != currBlockHeight || currBlockHash !in db.rawBlocks
          || db.rawBlocks[currBlockHash].prev != BlockHashOf(b))
    }

    lemma ValidIsInPlace(height: int, b: Block)
      requires Valid() && ValidItem(world, BlockItem(height, b))
      ensures !Misplaced(height, b)
      ensures height < currBlockHeight ==> db.rawBlocks[currBlockHash] == Last(world.blocks)
    {
      StepMovesOne(world, BlockItem(height, b));
    }

    // A block record of log1.  ok is false, and nothing is written, exactly when the
    // record is misplaced, or goes back with no block time left; the rest of its
    // validity is up to log1.
    method HandleBlock(height: int, b: Block) returns (ok: bool)
      requires Valid() && (Misplaced(height, b) || ValidItem(world, BlockItem(height, b)))
      modifies this, memRepo, db, table, blkTs
      ensures ok <==> !old(Misplaced(height, b)) && (height > old(currBlockHeight) || old(kept) > 0)
      ensures ok ==> Valid() && old(ValidItem(world, BlockItem(height, b)))
      ensures ok ==> world == old(Step(world, BlockItem(height, b)))
      ensures ok ==> moved == old(moved + ItemMoves(world, BlockItem(height, b)))
      ensures ok ==>
        kept == if height > old(currBlockHeight) then Min(old(kept) + 1, MAX_BLOCK_TIMES) else old(kept) - 1
      ensures !ok ==> Stored() && world == old(world) && moved == old(moved)
      ensures !ok ==> db.txlogs == old(db.txlogs) && db.cols == old(db.cols)
      ensures old(Misplaced(height, b)) ==> Valid()
      ensures ok ==> Wrote(old(world), BlockItem(height, b), |old(db.txlogs)|)
      ensures db.rawBlocks == if ok then old(RawAfter(BlockItem(height, b))) else old(db.rawBlocks)
      ensures old(db.txlogs) <= db.txlogs && old(db.cols) <= db.cols
    {
      hide Keeps, Agrees, Stored, Wrote, ValidWorld, ValidItem, Step, ItemMoves;
      AgreesIsStored();
      ghost var item := BlockItem(height, b);
      if !Misplaced(height, b) {
        WorldIsValid();
        ValidIsInPlace(height, b);
        StepMovesOne(world, item);
      }
      if height > currBlockHeight {
        if height != currBlockHeight + 1 {
          return false;
        }
        ok := HandleBlockAccept(height, b);
      } else if height < currBlockHeight {
        if height + 1 != currBlockHeight || currBlockHash !in db.rawBlocks {
          return false;
        }
        var currBlock := db.rawBlocks[currBlockHash];
        if currBlock.prev != BlockHashOf(b) {
          return false;
        }
        ok := HandleBlockRollback(currBlockHeight, currBlock, item);
      } else {
        return false;
      }
      if ok {
        currBlockHeight, currBlockHash := height, BlockHashOf(b);
      }
    }

    lemma AgreesIsStored()
      requires Agrees()
      ensures Stored()
    {
    }

    // Fails, with the log as it was, if and only if there is no block time to forget.
    method Handle(item: Log1Item) returns (ok: bool)
      requires Valid() && ValidItem(world, item)
      modifies this, memRepo, db, table, blkTs
      ensures ok <==> old(KeptNext(MAX_BLOCK_TIMES, kept, Height(world), item)) >= 0
      ensures ok ==> Valid() && kept == old(KeptNext(MAX_BLOCK_TIMES, kept, Height(world), item))
      ensures ok ==> world == old(Step(world, item)) && moved == old(moved + ItemMoves(world, item))
      ensures !ok ==> Stored() && world == old(world) && moved == old(moved)
      ensures !ok ==> db.txlogs == old(db.txlogs) && db.cols == old(db.cols)
      ensures ok ==> Wrote(old(world), item, |old(db.txlogs)|)
      ensures db.rawBlocks == if ok then old(RawAfter(item)) else old(db.rawBlocks)
      ensures old(db.txlogs) <= db.txlogs && old(db.cols) <= db.cols
    {
      hide Agrees, Keeps, Wrote, ValidWorld, ValidItem, Step, Tip;
      AgreesIsStored();
      match item
      case AcceptTx(tx) => ok := HandleTxAccept(tx);
      case RemoveTx(tx) => ok := HandleTxReject(tx);
      case BlockItem(height, b) =>
        ValidIsInPlace(height, b);
        ok := HandleBlock(height, b);
      case ClearMemtxs => ok := ClearMempoolTxs();
    }

    lemma MoreWritten(w: World, items: seq<Log1Item>, i: nat, es: seq<Event>, cs: seq<BlockCols>,
                      before: seq<Event>, beforeCols: seq<BlockCols>)
      requires ValidWorld(w) && i < |items| && ValidItems(w, items[..i]) && ValidItems(w, items[..i + 1])
      requires ValidItem(Steps(w, items[..i]), items[i]) && Wrote(Steps(w, items[..i]), items[i], |before|)
      requires es <= before <= db.txlogs && cs <= beforeCols <= db.cols
      requires |es| == |cs| && |before| == |beforeCols|
      requires RunWrites(memRepo.num, w, items[..i], before[|es|..], beforeCols[|cs|..])
      ensures RunWrites(memRepo.num, w, items[..i + 1], db.txlogs[|es|..], db.cols[|cs|..])
    {
      hide ValidWorld, ValidItem, ValidItems, Steps, Writes, RunWrites;
      RunWritesMore(memRepo.num, w, items, i, before[|es|..], beforeCols[|cs|..],
                    db.txlogs[|before|..], db.cols[|before|..]);
      assert before[|es|..] + db.txlogs[|before|..] == db.txlogs[|es|..];
      assert beforeCols[|cs|..] + db.cols[|before|..] == db.cols[|cs|..];
    }

    // A run of valid items throws if and only if some rollback goes deeper than block
    // times are kept for; what is stored then is the outcome of the items before it.
    method Run(items: seq<Log1Item>) returns (ok: bool, ghost done: nat)
      requires Valid() && ValidItems(world, items)
      modifies this, memRepo, db, table, blkTs
      ensures ok <==> old(TimesSuffice(MAX_BLOCK_TIMES, kept, world, items))
      ensures done <= |items| && ValidItems(old(world), items[..done]) && Stored()
      ensures if ok then done == |items| && Valid() else done < |items| && items[done].BlockItem?
      ensures world == Steps(old(world), items[..done])
      ensures ok ==> kept == old(KeptAfter(MAX_BLOCK_TIMES, kept, PathFrom(Height(world), items)))
      ensures moved == old(moved) + RunMoves(old(world), items[..done])
      ensures old(db.txlogs) <= db.txlogs && old(db.cols) <= db.cols
      ensures RunWrites(memRepo.num, old(world), items[..done],
                        db.txlogs[|old(db.txlogs)|..], db.cols[|old(db.cols)|..])
      ensures RawGrown(old(db.rawBlocks), db.rawBlocks, items[..done])
    {
      hide Valid, Stored, ValidWorld, ValidItem, Step, Steps, RunMoves, ItemMoves, KeptAfter, TimesSuffice, PathFrom;
      hide Wrote, Writes, RunWrites, RawGrown;
      WorldIsValid();
      ValidIsStored();
      NoItems(old(world));
      ghost var w, k := world, kept;
      ghost var es, cs, raw := db.txlogs, db.cols, db.rawBlocks;
      NothingWritten(memRepo.num, w);
      NothingGrown(raw);
      assert db.txlogs[|es|..] == [] && db.cols[|cs|..] == [];
      KeptStart(MAX_BLOCK_TIMES, k, Height(w));
      for i := 0 to |items|
        invariant Valid() && ValidWorld(w) && k <= MAX_BLOCK_TIMES
        invariant ValidItems(w, items[..i]) && world == Steps(w, items[..i])
        invariant kept == KeptAfter(MAX_BLOCK_TIMES, k, PathFrom(Height(w), items[..i]))
        invariant moved == old(moved) + RunMoves(w, items[..i])
        invariant es <= db.txlogs && cs <= db.cols && |es| == |cs| && |db.txlogs| == |db.cols|
        invariant RunWrites(memRepo.num, w, items[..i], db.txlogs[|es|..], db.cols[|cs|..])
        invariant RawGrown(raw, db.rawBlocks, items[..i])
      {
        ItemsPrefix(w, items, i);
        MovesPrefix(w, items, i);
        KeptStep(MAX_BLOCK_TIMES, k, w, items, i);
        KeptPrefix(MAX_BLOCK_TIMES, k, w, items, i + 1);
        ValidIsStored();
        done := i;
        ghost var before, beforeCols, beforeRaw := db.txlogs, db.cols, db.rawBlocks;
        ok := Handle(items[i]);
        if !ok {
          return;
        }
        ValidIsStored();
        MoreWritten(w, items, i, es, cs, before, beforeCols);
        GrownMore(raw, beforeRaw, db.rawBlocks, items, i);
      }
      KeptPrefix(MAX_BLOCK_TIMES, k, w, items, |items|);
      ValidIsStored();
      assert items[..|items|] == items;
      done, ok := |items|, true;
    }
  }
}
