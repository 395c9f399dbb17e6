/** Sequences of log1 items: validity is kept, and a rollback undoes an accept. */
module ItemRuns {
  import opened Transactions
  import opened Ledgers
  import opened SpendChains
  import opened Log2Spec
  import opened BlockAccept
  import opened BlockRollback
  import opened BlockTimestamps

  // Taking a child-closed set out of the pool leaves nothing without its parents.
  lemma ClosedRemovalKeepsConsistent(l: Ledger, r: set<Hash>)
    requires Consistent(l) && Closed(l.pool, r) && r <= l.pool
    ensures Consistent(l.(pool := l.pool - r))
  {
    var m := l.(pool := l.pool - r);
    assert forall k :: Live(m, k) ==> Live(l, k);
    forall k, o | Live(m, k) && Spends(k, o) ensures Live(m, o.hash) {
      ConfirmedSpendConfirmed(l, k, o);
      assert Live(l, o.hash) && IsChild(o.hash, k);
    }
  }

  lemma {:induction false} DescendsIsClosed(pool: set<Hash>, a: Hash, p: Hash, c: Hash)
    requires Descends(pool, a, p) && c in pool && IsChild(p, c)
    ensures Descends(pool, a, c)
  {
    var o :| Spends(c, o) && o.hash == p;
    var i :| 0 <= i < |c.tx.vin| && c.tx.vin[i] == o;
    assert Descends(pool, a, c.tx.vin[i].hash);
  }

  lemma RemovedIsClosed(pool: set<Hash>, h: Hash)
    ensures Closed(pool, Removed(pool, h))
  {
    forall p, c | p in Removed(pool, h) && c in pool && IsChild(p, c) ensures c in Removed(pool, h) {
      DescendsIsClosed(pool, h, p, c);
    }
  }

  lemma EvictedIsClosed(pool: set<Hash>, hs: seq<Hash>)
    ensures Closed(pool, Evicted(pool, hs))
  {
    forall p, c | p in Evicted(pool, hs) && c in pool && IsChild(p, c) ensures c in Evicted(pool, hs) {
      var m :| Conflicts(pool, hs, m) && Descends(pool, m, p);
      DescendsIsClosed(pool, m, p, c);
    }
  }

  // Block transactions are not among the conflicts of their block, and the rest of
  // the pool does not share an input with them.
  lemma EvictionMakesRoom(l: Ledger, hs: seq<Hash>)
    requires Consistent(l) && Fits(l, hs)
    ensures NoConflict(l.pool - Evicted(l.pool, hs), hs)
    ensures forall h :: h in hs ==> h !in Evicted(l.pool, hs)
  {
    forall m, b, o | m in l.pool - Evicted(l.pool, hs) && b in hs && Spends(m, o) && Spends(b, o) ensures m == b {
      if m !in hs {
        assert SpendsSame(b, m);
        assert Conflicts(l.pool, hs, m) && Descends(l.pool, m, m);
      }
    }
    forall h | h in hs ensures h !in Evicted(l.pool, hs) {
      forall m | Conflicts(l.pool, hs, m) ensures !Descends(l.pool, m, h) {
        if Descends(l.pool, m, h) {
          ChainStaysOutside(l, hs, l.pool, m, h);
        }
      }
    }
  }

  lemma BlockStepConsistent(l: Ledger, hs: seq<Hash>, height: nat)
    requires Consistent(l) && Fits(l, hs)
    ensures Consistent(AllConfirmed(l.(pool := l.pool - Evicted(l.pool, hs)), hs, height))
  {
    EvictedIsClosed(l.pool, hs);
    ClosedRemovalKeepsConsistent(l, Evicted(l.pool, hs));
    EvictionMakesRoom(l, hs);
    var m := l.(pool := l.pool - Evicted(l.pool, hs));
    assert Fits(m, hs) by {
      assert forall o :: SpentByConfirmed(m, o) ==> SpentByConfirmed(l, o);
    }
    BlockRun(m, hs, m.pool, height);
    RunKeepsConsistent(m, BlockEvents(hs, m.pool, height));
  }

  lemma RollbackKeepsPlain(w: World, item: Log1Item)
    requires ValidWorld(w) && ValidItem(w, item)
    requires item.BlockItem? && item.height < Height(w)
    ensures PlainPool(Step(w, item).ledger) && w.blocks != [] && HashesOf(Last(w.blocks).vtx) != []
  {
    hide Consistent;
    var txs := Last(w.blocks).vtx;
    forall h | h in HashesOf(txs) && h != HashesOf(txs)[0] ensures !h.tx.coinbase {
      var i :| 0 <= i < |txs| && HashesOf(txs)[i] == h;
    }
  }

  lemma RollbackStepValid(w: World, item: Log1Item)
    requires ValidWorld(w) && ValidItem(w, item)
    requires item.BlockItem? && item.height < Height(w)
    ensures Consistent(Step(w, item).ledger) && PlainPool(Step(w, item).ledger)
  {
    hide ValidItem, Step, Consistent, PlainPool, Stacked, LegalRun, Replay;
    RollbackExplained(w, item);
    RollbackKeepsPlain(w, item);
    var back := HashesOf(Last(w.blocks).vtx);
    RunKeepsConsistent(w.ledger, Unconfirms(back) + [Reject(back[0])]);
  }

  // Every valid item leads to a valid world.
  lemma StepIsValid(w: World, item: Log1Item)
    requires ValidWorld(w) && ValidItem(w, item)
    ensures ValidWorld(Step(w, item))
  {
    hide Stacked, Evicted, Removed, Fits, Descends;
    StepKeepsStack(w, item);
    match item
    case AcceptTx(t) => AcceptStepValid(w, t);
    case BlockItem(height, b) =>
      if height > Height(w) {
        BlockStepConsistent(w.ledger, HashesOf(b.vtx), height);
      } else {
        RollbackStepValid(w, item);
      }
    case _ => RemovalStepValid(w, item);
  }

  lemma AcceptStepValid(w: World, t: Tx)
    requires ValidWorld(w) && ValidItem(w, AcceptTx(t))
    ensures Consistent(Step(w, AcceptTx(t)).ledger) && PlainPool(Step(w, AcceptTx(t)).ledger)
  {
    hide Consistent, Stacked, LegalRun, Replay;
    var l := w.ledger;
    if HashOf(t) !in l.pool && ConflictFree(l, HashOf(t)) {
      AcceptIsLegal(w, t);
      RunKeepsConsistent(l, [Accept(HashOf(t))]);
    }
  }

  lemma RemovalStepValid(w: World, item: Log1Item)
    requires ValidWorld(w) && (item.RemoveTx? || item.ClearMemtxs?)
    ensures Consistent(Step(w, item).ledger) && PlainPool(Step(w, item).ledger)
  {
    hide Consistent, Stacked, Descends;
    var l := w.ledger;
    var r := if item.RemoveTx? then Removed(l.pool, HashOf(item.tx)) else l.pool;
    if item.RemoveTx? {
      RemovedIsClosed(l.pool, HashOf(item.tx));
    }
    ClosedRemovalKeepsConsistent(l, r);
    assert l.pool - l.pool == {};
  }

  // Each item is valid in the world the ones before it lead to.
  ghost predicate ValidItems(w: World, items: seq<Log1Item>)
    requires ValidWorld(w)
    decreases |items|, 0
  {
    items == [] || (ValidItems(w, Front(items)) && ValidItem(Steps(w, Front(items)), Last(items)))
  }

  ghost function Steps(w: World, items: seq<Log1Item>): (v: World)
    requires ValidWorld(w) && ValidItems(w, items)
    ensures ValidWorld(v)
    decreases |items|, 1
  {
    if items == [] then w
    else
      var v := Steps(w, Front(items));
      StepIsValid(v, Last(items));
      Step(v, Last(items))
  }

  lemma ItemsSnoc(w: World, items: seq<Log1Item>, item: Log1Item)
    requires ValidWorld(w) && ValidItems(w, items) && ValidItem(Steps(w, items), item)
    ensures ValidItems(w, items + [item]) && Steps(w, items + [item]) == Step(Steps(w, items), item)
  {
    hide ValidWorld, ValidItem, Step;
    assert Front(items + [item]) == items;
  }

  lemma {:induction false} ItemsPrefix(w: World, items: seq<Log1Item>, i: nat)
    requires ValidWorld(w) && ValidItems(w, items) && i < |items|
    ensures ValidItems(w, items[..i]) && ValidItem(Steps(w, items[..i]), items[i])
    ensures ValidItems(w, items[..i + 1])
    ensures Steps(w, items[..i + 1]) == Step(Steps(w, items[..i]), items[i])
    decreases |items|
  {
    hide ValidWorld, ValidItem, Step;
    if i + 1 < |items| {
      ItemsPrefix(w, Front(items), i);
      assert Front(items)[..i] == items[..i] && Front(items)[..i + 1] == items[..i + 1];
    } else {
      assert items[..i + 1] == items && items[..i] == Front(items);
    }
  }

  // The heights of the chain: where it starts, then after each block item.
  function PathFrom(height: int, items: seq<Log1Item>): (path: seq<int>)
    ensures path != [] && path[0] == height
    decreases |items|
  {
    if items == [] then [height]
    else PathFrom(height, Front(items)) + if Last(items).BlockItem? then [Last(items).height] else []
  }

  lemma OtherItemsStay(w: World, item: Log1Item)
    requires ValidWorld(w) && ValidItem(w, item) && !item.BlockItem?
    ensures Height(Step(w, item)) == Height(w) && Tip(Step(w, item)) == Tip(w)
  {
    hide ValidWorld, ValidItem;
  }

  // Valid items move the chain one block at a time.
  lemma {:induction false} PathOfRun(w: World, items: seq<Log1Item>)
    requires ValidWorld(w) && ValidItems(w, items)
    ensures IsPath(PathFrom(Height(w), items)) && Last(PathFrom(Height(w), items)) == Height(Steps(w, items))
    decreases |items|
  {
    hide ValidWorld, ValidItem, Step, Height;
    if items != [] {
      PathOfRun(w, Front(items));
      if Last(items).BlockItem? {
        StepMovesOne(Steps(w, Front(items)), Last(items));
      } else {
        OtherItemsStay(Steps(w, Front(items)), Last(items));
      }
    }
  }

  // No item of the run goes further back than there are block times to forget, of
  // `kept` at its start.
  ghost predicate TimesSuffice(limit: nat, kept: nat, w: World, items: seq<Log1Item>) {
    Shallow(limit, kept, PathFrom(Height(w), items))
  }

  // How many block times are kept after one item; -1 when there is none to forget.
  function KeptNext(limit: nat, kept: nat, height: int, item: Log1Item): int {
    if !item.BlockItem? then kept
    else if item.height > height then Min(kept + 1, limit)
    else kept - 1
  }

  lemma KeptStep(limit: nat, kept: nat, w: World, items: seq<Log1Item>, i: nat)
    requires ValidWorld(w) && ValidItems(w, items) && i < |items| && ValidItems(w, items[..i])
    requires KeptAfter(limit, kept, PathFrom(Height(w), items[..i])) >= 0
    ensures var before := KeptAfter(limit, kept, PathFrom(Height(w), items[..i]));
      KeptAfter(limit, kept, PathFrom(Height(w), items[..i + 1]))
        == KeptNext(limit, before, Height(Steps(w, items[..i])), items[i])
  {
    hide ValidWorld, ValidItems, Steps, Height;
    PathOfRun(w, items[..i]);
    var all := items[..i + 1];
    assert Front(all) == items[..i] && Last(all) == items[i];
    var pre, path := PathFrom(Height(w), items[..i]), PathFrom(Height(w), all);
    if items[i].BlockItem? {
      assert path == pre + [items[i].height];
      assert path[..|pre|] == pre && path[|pre| - 1] == Last(pre);
    } else {
      assert path == pre;
    }
  }

  lemma KeptStart(limit: nat, kept: nat, height: int)
    ensures KeptAfter(limit, kept, PathFrom(height, [])) == kept
  {
  }

  lemma {:induction false} PathPrefix(height: int, items: seq<Log1Item>, i: nat)
    requires i <= |items|
    ensures PathFrom(height, items[..i]) <= PathFrom(height, items)
    decreases |items|
  {
    if i < |items| {
      assert Front(items)[..i] == items[..i];
      PathPrefix(height, Front(items), i);
    } else {
      assert items[..i] == items;
    }
  }

  // The times suffice for a run exactly when every prefix keeps a number of them.
  lemma KeptPrefix(limit: nat, kept: nat, w: World, items: seq<Log1Item>, i: nat)
    requires ValidWorld(w) && ValidItems(w, items) && i <= |items| && ValidItems(w, items[..i]) && kept <= limit
    ensures KeptAfter(limit, kept, PathFrom(Height(w), items[..i])) >= 0 <==> TimesSuffice(limit, kept, w, items[..i])
    ensures TimesSuffice(limit, kept, w, items) ==> TimesSuffice(limit, kept, w, items[..i])
  {
    hide ValidWorld, ValidItems, Steps, Height, IsPath, KeptAfter;
    PathOfRun(w, items[..i]);
    KeptIsEnough(limit, kept, PathFrom(Height(w), items[..i]));
    PathPrefix(Height(w), items, i);
  }

  // Nothing can have spent the coinbase of a block that was not there.
  lemma CoinbaseUnspent(w: World, height: nat, b: Block, k: Hash, o: Outpoint)
    requires ValidWorld(w) && height == Height(w) + 1 && ValidItem(w, BlockItem(height, b))
    requires Live(Step(w, BlockItem(height, b)).ledger, k) && Spends(k, o) && k !in HashesOf(b.vtx)
    ensures o.hash != HashOf(b.vtx[0])
  {
    assert HashesOf(b.vtx)[0] in HashesOf(b.vtx);
    assert Live(w.ledger, k) && Live(w.ledger, o.hash);
  }

  // The block just accepted may be rolled back, unless it spends its own coinbase.
  lemma NewBlockCanGoBack(w: World, height: nat, b: Block, under: Block)
    requires ValidWorld(w) && Tip(w) == BlockHashOf(under)
    requires height == Height(w) + 1 && ValidItem(w, BlockItem(height, b))
    requires forall k, o :: k in HashesOf(b.vtx) && Spends(k, o) ==> o.hash != HashOf(b.vtx[0])
    ensures var v := Step(w, BlockItem(height, b));
      ValidWorld(v) && ValidItem(v, BlockItem(height - 1, under))
  {
    var v := Step(w, BlockItem(height, b));
    StepIsValid(w, BlockItem(height, b));
    forall k, o | Live(v.ledger, k) && Spends(k, o) ensures o.hash != HashOf(b.vtx[0]) {
      if k !in HashesOf(b.vtx) {
        CoinbaseUnspent(w, height, b, k, o);
      }
    }
  }

  lemma BackAndForth(pool: set<Hash>, e: set<Hash>, hs: set<Hash>, h: Hash)
    requires e !! hs
    ensures pool - e - hs + hs - {h} == pool - e + hs - {h}
  {
  }

  // Accepting a block and rolling it back restores everything but the pool, which
  // loses the conflicts and gains the transactions of the block, not its coinbase.
  lemma RollbackUndoesAccept(w: World, height: nat, b: Block, under: Block)
    requires ValidWorld(w) && Tip(w) == BlockHashOf(under)
    requires height == Height(w) + 1 && ValidItem(w, BlockItem(height, b))
    requires forall k, o :: k in HashesOf(b.vtx) && Spends(k, o) ==> o.hash != HashOf(b.vtx[0])
    ensures var v := Step(w, BlockItem(height, b));
      var hs := HashesOf(b.vtx);
      var pool := w.ledger.pool - Evicted(w.ledger.pool, hs) + Elems(hs) - {hs[0]};
      && ValidWorld(v) && ValidItem(v, BlockItem(height - 1, under))
      && Step(v, BlockItem(height - 1, under)) == w.(ledger := w.ledger.(pool := pool))
  {
    NewBlockCanGoBack(w, height, b, under);
    var l, hs := w.ledger, HashesOf(b.vtx);
    var v := Step(w, BlockItem(height, b));
    assert Front(v.blocks) == w.blocks && Last(v.blocks) == b;
    assert v.ledger.confirmed[..|l.confirmed|] == l.confirmed;
    assert v.ledger.heights[..|l.heights|] == l.heights;
    EvictionMakesRoom(l, hs);
    BackAndForth(l.pool, Evicted(l.pool, hs), Elems(hs), hs[0]);
  }
}
