/**
 Which rows each item writes, transaction by transaction, going by the pool before it
 alone, and in what order and with which block columns.
 */
module ItemRows {
  import opened Transactions
  import opened Ledgers
  import opened SpendChains
  import opened RemovalOrder
  import opened Sequences
  import opened Log2Spec
  import opened BlockAccept
  import opened BlockRollback
  import opened ItemRuns
  import opened BlockMoves

  // ---------- What should be written ----------

  // A pool transaction that spends what the block spends, but is not in it, or one that
  // descends from such.
  ghost predicate DoubleSpent(pool: set<Hash>, hs: seq<Hash>, h: Hash) {
    && h in pool
    && exists m, b :: m in pool && m !in hs && b in hs && SpendsSame(b, m) && Descends(pool, m, h)
  }

  // The rows of `h`.
  ghost function RowsOf(w: World, item: Log1Item, h: Hash): seq<Event>
    requires ValidWorld(w) && ValidItem(w, item)
  {
    var pool := w.ledger.pool;
    match item
    case AcceptTx(t) =>
      if h == HashOf(t) && h !in pool && forall m :: m in pool ==> !SpendsSame(h, m) then [Accept(h)] else []
    case RemoveTx(t) =>
      if h in pool && HashOf(t) in pool && Descends(pool, HashOf(t), h) then [Reject(h)] else []
    case ClearMemtxs =>
      if h in pool then [Reject(h)] else []
    case BlockItem(height, b) =>
      if height > Height(w) then
        if h in HashesOf(b.vtx) then (if h in pool then [] else [Accept(h)]) + [Confirm(h, height)]
        else if DoubleSpent(pool, HashesOf(b.vtx), h) then [Reject(h)]
        else []
      else
        var gone := Last(w.blocks).vtx;
        if h == HashOf(gone[0]) then [Unconfirm(h), Reject(h)]
        else if h in HashesOf(gone) then [Unconfirm(h)]
        else []
  }

  // The block columns of a row.
  ghost function ColsOf(w: World, item: Log1Item, e: Event): BlockCols {
    if !item.BlockItem? then NO_BLOCK
    else if item.height <= Height(w) then BlockCols(Tip(w), Height(w))
    else if e.Confirm? then BlockCols(BlockHashOf(item.block), item.height)
    else NO_BLOCK
  }

  // The rows of a block: rejects come first, the others in the order of the block.
  ghost predicate InBlockOrder(hs: seq<Hash>, es: seq<Event>) {
    forall p, q :: 0 <= p < q < |es| && !es[p].Reject? ==> !es[q].Reject? && NotLater(hs, es[p].hash, es[q].hash)
  }

  // `g` is at or before the place of `h`.
  ghost predicate NotLater(hs: seq<Hash>, g: Hash, h: Hash) {
    exists j :: 0 <= j < |hs| && hs[j] == h && g in hs[..j + 1]
  }

  // The transactions that the rows reject.
  function RejectedIn(es: seq<Event>): seq<Hash>
    decreases |es|
  {
    if es == [] then []
    else RejectedIn(Front(es)) + if Last(es).Reject? then [Last(es).hash] else []
  }

  // The order of the rejects: the end of a way through the pool goes first.
  ghost predicate InTurn(num: Hash -> int, w: World, item: Log1Item, r: seq<Hash>) {
    match item
    case RemoveTx(t) => RemovedInTurn(w.ledger.pool, HashOf(t), r)
    case ClearMemtxs => Drained(num, w.ledger.pool, r)
    case BlockItem(height, b) =>
      height > Height(w) ==> EvictedInTurn(w.ledger.pool, HashesOf(b.vtx), |HashesOf(b.vtx)|, r)
    case _ => true
  }

  // `es` with columns `cs` are the rows of the item; hashes are ordered by `num`.
  ghost predicate Writes(num: Hash -> int, w: World, item: Log1Item, es: seq<Event>, cs: seq<BlockCols>)
    requires ValidWorld(w) && ValidItem(w, item)
  {
    && |cs| == |es|
    && (forall h :: EventsOf(es, h) == RowsOf(w, item, h))
    && (forall i :: 0 <= i < |es| ==> cs[i] == ColsOf(w, item, es[i]))
    && (item.BlockItem? && item.height > Height(w) ==> InBlockOrder(HashesOf(item.block.vtx), es))
    && InTurn(num, w, item, RejectedIn(es))
  }

  // ---------- Rows of one transaction among others ----------

  lemma {:induction false} EventsConcat(es: seq<Event>, fs: seq<Event>, h: Hash)
    ensures EventsOf(es + fs, h) == EventsOf(es, h) + EventsOf(fs, h)
    decreases |fs|
  {
    if fs == [] {
      assert es + fs == es;
    } else {
      assert Front(es + fs) == es + Front(fs) && Last(es + fs) == Last(fs);
      EventsConcat(es, Front(fs), h);
    }
  }

  lemma EventsOfOne(e: Event, h: Hash)
    ensures EventsOf([e], h) == if e.hash == h then [e] else []
    ensures EventsOf([], h) == []
  {
    assert Front([e]) == [];
  }

  lemma {:induction false} RowsOfRejects(r: seq<Hash>, h: Hash)
    requires NoDup(r)
    ensures EventsOf(Rejects(r), h) == if h in r then [Reject(h)] else []
    decreases |r|
  {
    if r != [] {
      RowsOfRejects(Front(r), h);
      assert Front(Rejects(r)) == Rejects(Front(r));
      assert r == Front(r) + [Last(r)];
    }
  }

  lemma {:induction false} RowsOfUnconfirms(back: seq<Hash>, h: Hash)
    requires NoDup(back)
    ensures EventsOf(Unconfirms(back), h) == if h in back then [Unconfirm(h)] else []
    decreases |back|
  {
    if back != [] {
      RowsOfUnconfirms(Front(back), h);
      EventsConcat([Unconfirm(Last(back))], Unconfirms(Front(back)), h);
      EventsOfOne(Unconfirm(Last(back)), h);
      assert back == Front(back) + [Last(back)];
    }
  }

  lemma RowsOfTx(k: Hash, known: set<Hash>, height: nat, h: Hash)
    ensures EventsOf(TxEvents(k, known, height), h)
      == if k == h then (if h in known then [] else [Accept(h)]) + [Confirm(h, height)] else []
  {
    EventsConcat([Accept(k)], [Confirm(k, height)], h);
    EventsOfOne(Accept(k), h);
    EventsOfOne(Confirm(k, height), h);
    assert [Accept(k)] + [Confirm(k, height)] == [Accept(k), Confirm(k, height)];
  }

  lemma {:induction false} RowsOfBlock(hs: seq<Hash>, known: set<Hash>, height: nat, h: Hash)
    requires NoDup(hs)
    ensures EventsOf(BlockEvents(hs, known, height), h)
      == if h in hs then (if h in known then [] else [Accept(h)]) + [Confirm(h, height)] else []
    decreases |hs|
  {
    hide EventsOf, TxEvents;
    EventsOfOne(Reject(h), h);
    if hs != [] {
      RowsOfBlock(Front(hs), known, height, h);
      EventsConcat(BlockEvents(Front(hs), known, height), TxEvents(Last(hs), known, height), h);
      RowsOfTx(Last(hs), known, height, h);
      assert hs == Front(hs) + [Last(hs)];
    }
  }

  lemma {:induction false} RejectedConcat(es: seq<Event>, fs: seq<Event>)
    ensures RejectedIn(es + fs) == RejectedIn(es) + RejectedIn(fs)
    decreases |fs|
  {
    if fs == [] {
      assert es + fs == es;
    } else {
      assert Front(es + fs) == es + Front(fs) && Last(es + fs) == Last(fs);
      RejectedConcat(es, Front(fs));
    }
  }

  lemma {:induction false} RejectedInRejects(r: seq<Hash>)
    ensures RejectedIn(Rejects(r)) == r
    decreases |r|
  {
    if r != [] {
      RejectedInRejects(Front(r));
      assert Front(Rejects(r)) == Rejects(Front(r));
      assert r == Front(r) + [Last(r)];
    }
  }

  lemma {:induction false} NoneRejected(es: seq<Event>)
    requires forall e :: e in es ==> !e.Reject?
    ensures RejectedIn(es) == []
    decreases |es|
  {
    if es != [] {
      NoneRejected(Front(es));
      assert Last(es) in es;
    }
  }

  // ---------- Each kind of item ----------

  lemma AcceptWrites(num: Hash -> int, w: World, t: Tx)
    requires ValidWorld(w) && ValidItem(w, AcceptTx(t))
    ensures HashOf(t) !in w.ledger.pool && ConflictFree(w.ledger, HashOf(t)) ==>
      Writes(num, w, AcceptTx(t), [Accept(HashOf(t))], [NO_BLOCK])
    ensures HashOf(t) in w.ledger.pool || !ConflictFree(w.ledger, HashOf(t)) ==> Writes(num, w, AcceptTx(t), [], [])
  {
    hide ValidWorld, ValidItem, EventsOf;
    forall h {
      EventsOfOne(Accept(HashOf(t)), h);
    }
  }

  lemma RejectsWrite(num: Hash -> int, w: World, item: Log1Item, r: seq<Hash>)
    requires ValidWorld(w) && ValidItem(w, item) && (item.RemoveTx? || item.ClearMemtxs?)
    requires LeafFirst(w.ledger.pool, r)
    requires Elems(r) == if item.RemoveTx? then Removed(w.ledger.pool, HashOf(item.tx)) else w.ledger.pool
    requires InTurn(num, w, item, r)
    ensures Writes(num, w, item, Rejects(r), Repeat(NO_BLOCK, |r|))
  {
    hide ValidWorld, ValidItem, EventsOf, Descends, InTurn, RejectedIn;
    RejectedInRejects(r);
    forall h ensures EventsOf(Rejects(r), h) == RowsOf(w, item, h) {
      RowsOfRejects(r, h);
      assert h in r <==> h in Elems(r);
      if item.RemoveTx? && HashOf(item.tx) !in w.ledger.pool {
        NothingDescends(w.ledger.pool, HashOf(item.tx));
      }
    }
  }

  lemma RejectsNothing(num: Hash -> int, w: World, t: Tx)
    requires ValidWorld(w) && ValidItem(w, RemoveTx(t)) && HashOf(t) !in w.ledger.pool
    ensures Writes(num, w, RemoveTx(t), [], [])
  {
    hide ValidWorld, ValidItem, Writes;
    EmptyIsLeafFirst(w.ledger.pool);
    NothingDescends(w.ledger.pool, HashOf(t));
    NothingRemoved(num, w.ledger.pool, HashOf(t));
    RejectsWrite(num, w, RemoveTx(t), []);
    assert Rejects([]) == [] && Repeat(NO_BLOCK, 0) == [];
  }

  lemma EvictedIsDoubleSpent(pool: set<Hash>, hs: seq<Hash>, h: Hash)
    ensures h in Evicted(pool, hs) <==> DoubleSpent(pool, hs, h)
  {
    if h in Evicted(pool, hs) {
      var m :| Conflicts(pool, hs, m) && Descends(pool, m, h);
      var b :| b in hs && SpendsSame(b, m);
    }
    if DoubleSpent(pool, hs, h) {
      var m, b :| m in pool && m !in hs && b in hs && SpendsSame(b, m) && Descends(pool, m, h);
      assert SharesInput(m, hs);
      assert Conflicts(pool, hs, m);
    }
  }

  lemma {:induction false} BlockInOrder(hs: seq<Hash>, known: set<Hash>, height: nat)
    ensures InBlockOrder(hs, BlockEvents(hs, known, height))
    ensures forall e :: e in BlockEvents(hs, known, height) ==> !e.Reject? && e.hash in hs
    decreases |hs|
  {
    if hs != [] {
      var pre, k := Front(hs), Last(hs);
      var es, fs := BlockEvents(pre, known, height), TxEvents(k, known, height);
      BlockInOrder(pre, known, height);
      assert hs == pre + [k];
      OrderSnoc(pre, k, es, fs);
    }
  }

  lemma LaterStill(pre: seq<Hash>, k: Hash, g: Hash, h: Hash)
    ensures NotLater(pre, g, h) ==> NotLater(pre + [k], g, h)
    ensures g in pre + [k] ==> NotLater(pre + [k], g, k)
  {
    var hs := pre + [k];
    if NotLater(pre, g, h) {
      var j :| 0 <= j < |pre| && pre[j] == h && g in pre[..j + 1];
      assert hs[j] == h && hs[..j + 1] == pre[..j + 1];
    }
    assert hs[|pre|] == k && hs[..|pre| + 1] == hs;
  }

  lemma OrderSnoc(pre: seq<Hash>, k: Hash, es: seq<Event>, fs: seq<Event>)
    requires InBlockOrder(pre, es) && (forall e :: e in es ==> !e.Reject? && e.hash in pre)
    requires forall e :: e in fs ==> !e.Reject? && e.hash == k
    ensures InBlockOrder(pre + [k], es + fs)
  {
    hide NotLater;
    var all, hs := es + fs, pre + [k];
    forall p, q | 0 <= p < q < |all| && !all[p].Reject?
      ensures !all[q].Reject? && NotLater(hs, all[p].hash, all[q].hash)
    {
      assert all[p] in es || all[p] in fs;
      assert q >= |es| ==> all[q] in fs;
      assert q < |es| ==> all[q] in es && all[p] == es[p] && all[q] == es[q];
      LaterStill(pre, k, all[p].hash, all[q].hash);
    }
  }

  lemma RejectsFirst(hs: seq<Hash>, rs: seq<Event>, es: seq<Event>)
    requires (forall e :: e in rs ==> e.Reject?) && InBlockOrder(hs, es)
    ensures InBlockOrder(hs, rs + es)
  {
    hide NotLater;
    var all := rs + es;
    assert forall p :: 0 <= p < |rs| ==> all[p] == rs[p] && rs[p] in rs;
    forall p, q | 0 <= p < q < |all| && !all[p].Reject?
      ensures !all[q].Reject? && NotLater(hs, all[p].hash, all[q].hash)
    {
      assert p >= |rs|;
      assert all[p] == es[p - |rs|] && all[q] == es[q - |rs|];
    }
  }

  // The rows of one transaction when a block comes.
  lemma NewBlockRowsOf(w: World, height: nat, b: Block, r: seq<Hash>, known: set<Hash>, h: Hash)
    requires ValidWorld(w) && ValidItem(w, BlockItem(height, b)) && height > Height(w)
    requires NoDup(HashesOf(b.vtx)) && NoDup(r) && Elems(r) == Evicted(w.ledger.pool, HashesOf(b.vtx))
    requires h in HashesOf(b.vtx) ==> h !in r && (h in known <==> h in w.ledger.pool)
    ensures EventsOf(Rejects(r) + BlockEvents(HashesOf(b.vtx), known, height), h)
      == RowsOf(w, BlockItem(height, b), h)
  {
    hide ValidWorld, ValidItem, EventsOf, BlockEvents, Rejects, DoubleSpent, Evicted, NoDup;
    var hs := HashesOf(b.vtx);
    EventsConcat(Rejects(r), BlockEvents(hs, known, height), h);
    RowsOfRejects(r, h);
    RowsOfBlock(hs, known, height, h);
    EvictedIsDoubleSpent(w.ledger.pool, hs, h);
    assert h in r <==> h in Elems(r);
  }

  // The order of the rows when a block comes.
  lemma NewBlockInOrder(hs: seq<Hash>, r: seq<Hash>, known: set<Hash>, height: nat)
    ensures var es := Rejects(r) + BlockEvents(hs, known, height); InBlockOrder(hs, es) && RejectedIn(es) == r
  {
    hide BlockEvents, InBlockOrder, RejectedIn;
    var es := BlockEvents(hs, known, height);
    BlockInOrder(hs, known, height);
    RejectsFirst(hs, Rejects(r), es);
    RejectedInRejects(r);
    NoneRejected(es);
    RejectedConcat(Rejects(r), es);
    assert r + [] == r;
  }

  // The columns of the rows when a block comes.
  lemma NewBlockCols(w: World, item: Log1Item, r: seq<Hash>, es: seq<Event>, cs: seq<BlockCols>)
    requires item.BlockItem? && item.height > Height(w) && |cs| == |r| && cs == Repeat(NO_BLOCK, |r|)
    ensures var rows, cols := Rejects(r) + es, cs + ConfirmCols(es, BlockCols(BlockHashOf(item.block), item.height));
      |cols| == |rows| && forall i :: 0 <= i < |rows| ==> cols[i] == ColsOf(w, item, rows[i])
  {
    hide Height, Tip;
  }

  lemma NewBlockWrites(num: Hash -> int, w: World, height: nat, b: Block, r: seq<Hash>, known: set<Hash>,
                       cs: seq<BlockCols>)
    requires ValidWorld(w) && ValidItem(w, BlockItem(height, b)) && height > Height(w)
    requires RoomMade(w.ledger, HashesOf(b.vtx), r, known) && cs == Repeat(NO_BLOCK, |r|)
    requires EvictedInTurn(w.ledger.pool, HashesOf(b.vtx), |b.vtx|, r)
    ensures var es := BlockEvents(HashesOf(b.vtx), known, height);
      Writes(num, w, BlockItem(height, b), Rejects(r) + es, cs + ConfirmCols(es, BlockCols(BlockHashOf(b), height)))
  {
    hide EventsOf, BlockEvents, InBlockOrder, RejectedIn, EvictedInTurn, ColsOf, RowsOf, ConfirmCols, Rejects;
    hide ValidWorld, Consistent, Fits, NoConflict, NoDup, Height;
    var hs, item := HashesOf(b.vtx), BlockItem(height, b);
    var es := BlockEvents(hs, known, height);
    NewBlockIsNoDup(w.ledger, b);
    NewBlockInOrder(hs, r, known, height);
    NewBlockCols(w, item, r, es, cs);
    forall h ensures EventsOf(Rejects(r) + es, h) == RowsOf(w, item, h) {
      NewBlockRowsOf(w, height, b, r, known, h);
    }
  }

  lemma NewBlockIsNoDup(l: Ledger, b: Block)
    requires ValidBlock(l, b.vtx)
    ensures NoDup(HashesOf(b.vtx))
  {
  }

  lemma OldBlockIsNoDup(w: World)
    requires ValidWorld(w) && w.blocks != []
    ensures NoDup(HashesOf(Last(w.blocks).vtx)) && HashesOf(Last(w.blocks).vtx) != []
  {
    var hs := HashesOf(Last(w.blocks).vtx);
    var n := |w.ledger.confirmed| - |hs|;
    assert hs == w.ledger.confirmed[n..];
    assert forall i :: 0 <= i < |hs| ==> hs[i] == w.ledger.confirmed[n + i];
  }

  lemma RollbackWrites(num: Hash -> int, w: World, item: Log1Item)
    requires ValidWorld(w) && ValidItem(w, item) && item.BlockItem? && item.height < Height(w) && w.blocks != []
    ensures var b := Last(w.blocks);
      && b.vtx != []
      && var es := Unconfirms(HashesOf(b.vtx)) + [Reject(HashOf(b.vtx[0]))];
      Writes(num, w, item, es, Repeat(BlockCols(BlockHashOf(b), Height(w)), |es|))
  {
    hide EventsOf, Unconfirms, Consistent, RejectedIn;
    OldBlockIsNoDup(w);
    hide ValidWorld, ValidItem;
    var b := Last(w.blocks);
    var hs := HashesOf(b.vtx);
    assert hs[0] == HashOf(b.vtx[0]) && hs[0] in hs;
    var es := Unconfirms(hs) + [Reject(hs[0])];
    forall h ensures EventsOf(es, h) == RowsOf(w, item, h) {
      EventsConcat(Unconfirms(hs), [Reject(hs[0])], h);
      RowsOfUnconfirms(hs, h);
      EventsOfOne(Reject(hs[0]), h);
    }
  }

  // ---------- Whole runs ----------

  // The rows of a run are those of its items, one after the other.
  ghost predicate RunWrites(num: Hash -> int, w: World, items: seq<Log1Item>, es: seq<Event>, cs: seq<BlockCols>)
    requires ValidWorld(w) && ValidItems(w, items)
    decreases |items|
  {
    if items == [] then es == [] && cs == []
    else exists k: nat :: k <= |es| && k <= |cs| && LastWrites(num, w, items, es, cs, k)
  }

  ghost predicate LastWrites(num: Hash -> int, w: World, items: seq<Log1Item>, es: seq<Event>, cs: seq<BlockCols>,
                             k: nat)
    requires ValidWorld(w) && items != [] && ValidItems(w, items) && k <= |es| && k <= |cs|
    decreases |items|, 0
  {
    && RunWrites(num, w, Front(items), es[..k], cs[..k])
    && Writes(num, Steps(w, Front(items)), Last(items), es[k..], cs[k..])
  }

  // The rows of `h` over a run.
  ghost function RunRowsOf(w: World, items: seq<Log1Item>, h: Hash): seq<Event>
    requires ValidWorld(w) && ValidItems(w, items)
    decreases |items|
  {
    if items == [] then []
    else RunRowsOf(w, Front(items), h) + RowsOf(Steps(w, Front(items)), Last(items), h)
  }

  lemma NothingWritten(num: Hash -> int, w: World)
    requires ValidWorld(w)
    ensures ValidItems(w, []) && RunWrites(num, w, [], [], [])
  {
  }

  lemma RunWritesMore(num: Hash -> int, w: World, items: seq<Log1Item>, i: nat, es: seq<Event>, cs: seq<BlockCols>,
                      fs: seq<Event>, ds: seq<BlockCols>)
    requires ValidWorld(w) && i < |items| && ValidItems(w, items[..i]) && ValidItems(w, items[..i + 1])
    requires ValidItem(Steps(w, items[..i]), items[i])
    requires RunWrites(num, w, items[..i], es, cs) && |es| == |cs|
    requires Writes(num, Steps(w, items[..i]), items[i], fs, ds)
    ensures RunWrites(num, w, items[..i + 1], es + fs, cs + ds)
  {
    hide ValidWorld, ValidItem, ValidItems, Steps, Writes;
    var all := items[..i + 1];
    assert Front(all) == items[..i] && Last(all) == items[i];
    assert (es + fs)[..|es|] == es && (es + fs)[|es|..] == fs;
    assert (cs + ds)[..|es|] == cs && (cs + ds)[|es|..] == ds;
    assert LastWrites(num, w, all, es + fs, cs + ds, |es|);
  }

  // So every transaction has just the rows of its items.
  lemma {:induction false} RunWritesRows(num: Hash -> int, w: World, items: seq<Log1Item>, es: seq<Event>,
                                         cs: seq<BlockCols>, h: Hash)
    requires ValidWorld(w) && ValidItems(w, items) && RunWrites(num, w, items, es, cs)
    ensures EventsOf(es, h) == RunRowsOf(w, items, h)
    decreases |items|
  {
    hide ValidWorld, ValidItem, Step, RowsOf, InBlockOrder, ColsOf;
    if items != [] {
      var k: nat :| k <= |es| && k <= |cs| && LastWrites(num, w, items, es, cs, k);
      RunWritesRows(num, w, Front(items), es[..k], cs[..k], h);
      EventsConcat(es[..k], es[k..], h);
      assert es[..k] + es[k..] == es;
    }
  }
}
