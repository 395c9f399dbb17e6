/**
 Records are determined by the ledger, so the bootstrap loader leaves what the
 incremental parser keeps, however that one got there.
 */
module BootstrapRefines {
  import opened Transactions
  import opened Ledgers
  import opened AddressTxs
  import opened AddressUnspents
  import opened TxStore
  import opened TxParser
  import opened BootstrapTxs
  import opened BootstrapAddrs
  import opened BootstrapUnspents
  import opened BootstrapBlocks
  import opened Bootstrap
  import opened BlockTimestamps
  import BlockIndex

  // The record of an address whose list is `c`, all of it confirmed.
  ghost predicate IsRecordOf(r: AddrTxs, a: Addr, c: seq<Entry>) {
    && r.txCount == |c| && r.lastConfirmedTxIdx == |c| - 1
    && r.received == ReceivedBy(HashesIn(c), |c|, a) && r.sent == SentBy(HashesIn(c), |c|, a)
    && r.unconfirmedTxCount == 0 && r.unconfirmedReceived == 0 && r.unconfirmedSent == 0
    && NodesOf(r.nodes, a, c) && IndexOf(r.nodeIdx, c)
  }

  ghost predicate NodesOf(nodes: map<int, TxNode>, a: Addr, c: seq<Entry>) {
    && (forall i :: i in nodes <==> 0 <= i < |c|)
    && forall i :: 0 <= i < |c| ==> nodes[i] == TxNode(c[i].hash, c[i].height, Diff(c[i].hash.tx, a))
  }

  ghost predicate IndexOf(nodeIdx: map<Hash, int>, c: seq<Entry>) {
    && (forall h :: h in nodeIdx ==> 0 <= nodeIdx[h] < |c| && c[nodeIdx[h]].hash == h)
    && forall i :: 0 <= i < |c| ==> c[i].hash in nodeIdx && nodeIdx[c[i].hash] == i
  }

  lemma SameIndex(x: map<Hash, int>, y: map<Hash, int>, c: seq<Entry>)
    requires IndexOf(x, c) && IndexOf(y, c)
    ensures x == y
  {
    assert forall h :: h in x ==> h in y && x[h] == y[h];
    assert forall h :: h in y ==> h in x;
  }

  lemma SameNodes(x: map<int, TxNode>, y: map<int, TxNode>, a: Addr, c: seq<Entry>)
    requires NodesOf(x, a, c) && NodesOf(y, a, c)
    ensures x == y
  {
    assert forall i :: i in x ==> i in y && x[i] == y[i];
    assert forall i :: i in y ==> i in x;
  }

  // With nothing unconfirmed the list of an address, and its totals, leave no choice.
  lemma SameTxs(r: AddrTxs, q: AddrTxs, a: Addr, l: Ledger)
    requires TxsAgree(r, a, l) && TxsAgree(q, a, l) && l.pool == {}
    ensures r == q
  {
    var s :| Covers(r, a, s, l);
    var t :| Covers(q, a, t, l);
    ListIsConfirmed(r, a, s, l);
    ListIsConfirmed(q, a, t, l);
    hide TxsAgree, Covers, AllConfirmedOf, HashesIn, ReceivedBy, SentBy, IndexOf, NodesOf;
    SameIndex(r.nodeIdx, q.nodeIdx, AllConfirmedOf(l, a));
    SameNodes(r.nodes, q.nodes, a, AllConfirmedOf(l, a));
  }

  lemma RestIsUnconfirmed(r: AddrTxs, a: Addr, s: seq<Hash>, l: Ledger)
    requires Covers(r, a, s, l)
    ensures |AllConfirmedOf(l, a)| < |s| ==> l.pool != {}
  {
    assert forall i :: |AllConfirmedOf(l, a)| <= i < |s| ==> s[i] in l.pool;
  }

  lemma ListIsConfirmed(r: AddrTxs, a: Addr, s: seq<Hash>, l: Ledger)
    requires Covers(r, a, s, l) && l.pool == {}
    ensures IsRecordOf(r, a, AllConfirmedOf(l, a))
  {
    RestIsUnconfirmed(r, a, s, l);
    assert s == HashesIn(AllConfirmedOf(l, a));
  }

  // Unspent lists may differ in their numbering only, and are worth the same.
  ghost predicate SameUpToNumbers(u: AddrUnspents, v: AddrUnspents, a: Addr) {
    && Inverse(u, a) && Inverse(v, a) && Holdings(u) == Holdings(v)
    && u.entryIdx.Keys == v.entryIdx.Keys
    && forall o :: o in u.entryIdx ==> u.entries[u.entryIdx[o]] == v.entries[v.entryIdx[o]]
  }

  lemma SameUnspents(u: AddrUnspents, v: AddrUnspents, a: Addr, l: Ledger)
    requires UnspentsAgree(u, a, l) && UnspentsAgree(v, a, l) && Consistent(l)
    ensures SameUpToNumbers(u, v, a)
  {
    assert u.entryIdx.Keys == v.entryIdx.Keys;
    SameWorth(u, v, a);
    forall o | o in u.entryIdx ensures u.entries[u.entryIdx[o]] == v.entries[v.entryIdx[o]] {
      assert Holds(l, a, o);
      assert NoDup(PrevOut(o).addrs);
      EntryDescribes(u, a, o);
      EntryDescribes(v, a, o);
    }
  }

  lemma EntryDescribes(u: AddrUnspents, a: Addr, o: Outpoint)
    requires Inverse(u, a) && o in u.entryIdx
    ensures u.entryIdx[o] in u.entries && PointOf(u.entries[u.entryIdx[o]]) == o
    ensures Describes(u.entries[u.entryIdx[o]], a)
  {
    var i := u.entryIdx[o];
    assert i in u.entries;
  }

  // The same outpoints are worth the same, whatever their numbers.
  lemma {:induction false} SameWorth(u: AddrUnspents, v: AddrUnspents, a: Addr)
    requires Inverse(u, a) && Inverse(v, a) && u.entryIdx.Keys == v.entryIdx.Keys
    ensures Holdings(u) == Holdings(v)
    decreases u.entryIdx.Keys
  {
    if o :| o in u.entryIdx {
      DeleteKeepsInverse(u, a, o, false);
      DeleteKeepsInverse(v, a, o, false);
      SameWorth(Deleted(u, o, false), Deleted(v, o, false), a);
    } else {
      NothingHeld(u.entries, u.unspentTxIndex + 1);
      NothingHeld(v.entries, v.unspentTxIndex + 1);
    }
  }

  lemma {:induction false} NothingHeld(entries: map<int, Unspent>, n: nat)
    requires forall i :: 0 <= i < n ==> i !in entries
    ensures ValueBelow(entries, n) == 0
    decreases n
  {
    if n > 0 {
      NothingHeld(entries, n - 1);
    }
  }

  // A spent outpoint has one spender, at one place among its inputs.
  lemma SameSpender(x: SpentBy, y: SpentBy, l: Ledger, o: Outpoint)
    requires Consistent(l) && Live(l, x.txHash) && Live(l, y.txHash) && InputIs(x, o) && InputIs(y, o)
    ensures x == y
  {
    assert Spends(x.txHash, o) && Spends(y.txHash, o);
    assert NoDup(x.txHash.tx.vin);
  }

  lemma SameSpends(s: map<Outpoint, SpentBy>, t: map<Outpoint, SpentBy>, l: Ledger)
    requires SpendsAgree(s, l) && SpendsAgree(t, l) && Consistent(l)
    ensures s == t
  {
    hide Consistent, SpentLive, InputIs, Live;
    assert s.Keys == t.Keys;
    forall o | o in s ensures s[o] == t[o] {
      SameSpender(s[o], t[o], l, o);
    }
  }

  // Key for key what the parser has; unspent lists up to their numbering, and their
  // counters up to the outputs the parser saw rejected.  The parser's other transaction
  // objects are marked as double spends.
  ghost predicate SameStores(kv: KvStore, parser: Parser, l: Ledger)
    reads kv, parser
  {
    && (forall a :: kv.TxsOf(a) == parser.TxsOf(a))
    && (forall a :: SameUpToNumbers(kv.UnspentsOf(a), parser.UnspentsOf(a), a))
    && (forall a ::
         parser.UnspentsOf(a).unspentTxCount == kv.UnspentsOf(a).unspentTxCount + Drift(parser.UnspentsOf(a)))
    && kv.spentBy == parser.spentBy
    && SameObjectsOf(kv.txObjects, parser.txObjects, l)
  }

  ghost predicate SameObjectsOf(objs: map<Hash, TxObject>, other: map<Hash, TxObject>, l: Ledger) {
    && (forall h :: h in objs <==> h in l.confirmed)
    && (forall h :: h in objs ==> h in other && objs[h] == other[h])
    && (forall h :: h in other && h !in objs ==> other[h].doubleSpend)
  }

  lemma RefinesTxs(kv: KvStore, parser: Parser, l: Ledger)
    requires forall a :: TxsAgree(kv.TxsOf(a), a, l)
    requires forall a :: TxsAgree(parser.TxsOf(a), a, l)
    requires l.pool == {}
    ensures forall a :: kv.TxsOf(a) == parser.TxsOf(a)
  {
    hide TxsAgree;
    forall a ensures kv.TxsOf(a) == parser.TxsOf(a) {
      SameTxs(kv.TxsOf(a), parser.TxsOf(a), a, l);
    }
  }

  lemma RefinesUnspents(kv: KvStore, parser: Parser, l: Ledger)
    requires forall a :: UnspentsAgree(kv.UnspentsOf(a), a, l)
    requires forall a :: UnspentsAgree(parser.UnspentsOf(a), a, l)
    requires Consistent(l)
    ensures forall a :: SameUpToNumbers(kv.UnspentsOf(a), parser.UnspentsOf(a), a)
  {
    hide UnspentsAgree, Consistent, SameUpToNumbers;
    forall a ensures SameUpToNumbers(kv.UnspentsOf(a), parser.UnspentsOf(a), a) {
      SameUnspents(kv.UnspentsOf(a), parser.UnspentsOf(a), a, l);
    }
  }

  lemma RefinesObjects(objs: map<Hash, TxObject>, other: map<Hash, TxObject>, l: Ledger)
    requires ObjectsAgree(objs, l) && ObjectsAgree(other, l) && l.pool == {}
    requires forall h :: h in objs ==> h in l.confirmed
    ensures SameObjectsOf(objs, other, l)
  {
    assert forall h :: Live(l, h) <==> h in l.confirmed;
    forall h | h in l.confirmed ensures h in objs && h in other && objs[h] == other[h] {
      var i :| 0 <= i < |l.confirmed| && l.confirmed[i] == h;
      assert Live(l, h);
    }
  }

  lemma RefinesCounts(kv: KvStore, parser: Parser)
    requires forall a :: Dense(kv.UnspentsOf(a))
    requires forall a :: SameUpToNumbers(kv.UnspentsOf(a), parser.UnspentsOf(a), a)
    ensures forall a ::
      parser.UnspentsOf(a).unspentTxCount == kv.UnspentsOf(a).unspentTxCount + Drift(parser.UnspentsOf(a))
  {
  }

  lemma SameBalance(r: AddrTxs, u: AddrUnspents, v: AddrUnspents, a: Addr)
    requires SameUpToNumbers(u, v, a) && Net(r) == Holdings(v)
    ensures Inverse(u, a) && Net(r) == Holdings(u)
  {
  }

  // The loader's lists have no gap.
  lemma LoadedIsDense(preParser: PreParser, l: Ledger)
    requires preParser.Done(l)
    ensures forall a :: Dense(preParser.kv.UnspentsOf(a))
  {
    hide Dense;
  }

  // A parser that is up to date with the same confirmed transactions, by whatever
  // accepts, confirms, unconfirms and rejects, has the store the loader leaves.
  lemma Refines(preParser: PreParser, parser: Parser, l: Ledger)
    requires preParser.Done(l) && parser.Agrees(l) && l.pool == {}
    ensures SameStores(preParser.kv, parser, l)
    ensures forall a :: Inverse(preParser.kv.UnspentsOf(a), a)
    ensures forall a :: Net(preParser.kv.TxsOf(a)) == Holdings(preParser.kv.UnspentsOf(a))
  {
    hide TxsAgree, UnspentsAgree, Consistent, SpendsAgree, ObjectsAgree, Net, Holdings;
    hide SameUpToNumbers, Dense, Drift, SameObjectsOf, InOrder;
    LoadedIsDense(preParser, l);
    RefinesTxs(preParser.kv, parser, l);
    RefinesUnspents(preParser.kv, parser, l);
    RefinesCounts(preParser.kv, parser);
    forall a
      ensures Inverse(preParser.kv.UnspentsOf(a), a)
        && Net(preParser.kv.TxsOf(a)) == Holdings(preParser.kv.UnspentsOf(a)) {
      SameBalance(parser.TxsOf(a), preParser.kv.UnspentsOf(a), parser.UnspentsOf(a), a);
    }
    RefinesObjects(preParser.kv.txObjects, parser.txObjects, l);
    SameSpends(preParser.kv.spentBy, parser.spentBy, l);
  }

  lemma LoadsRight(blocks: seq<RawBlock>)
    requires Loadable(blocks)
    ensures LegalRun(EMPTY_LEDGER, LoadLog(AllTxs(blocks))) && IsChain(HeadersOf(blocks))
    ensures Replay(EMPTY_LEDGER, LoadLog(AllTxs(blocks))) == LedgerOf(AllTxs(blocks))
    ensures LedgerOf(AllTxs(blocks)).pool == {}
  {
    LoadIsLegal(AllTxs(blocks));
  }

  lemma FilesAreLists(es: seq<Entry>, hashLines: seq<Hash>, addrLines: seq<Addr>)
    requires FilesMatch(es, hashLines, addrLines)
    ensures NoDup(hashLines) && NoDup(addrLines)
  {
  }

  lemma FilesGiveListing(preParser: PreParser, blocks: seq<RawBlock>, hashLines: seq<Hash>, addrLines: seq<Addr>)
    requires FilesMatch(AllTxs(blocks), hashLines, addrLines)
    requires preParser.Ready(hashLines, addrLines, |blocks| - 1)
    ensures preParser.Listing(blocks) && preParser.Agrees(EMPTY_LEDGER)
    ensures preParser.blockLoader.stopHeight == |blocks| - 1
    ensures preParser.blockLoader.Progress(HeadersOf(blocks), 0) && preParser.blkTs.Holds(-1, 0)
  {
    hide PreParser.Agrees, BlockLoader.Progress, BlockTimestamp.Holds;
  }

  // ---------- The same blocks through the parser ----------

  // The height column of the rows of a load.
  function HeightsOf(log: seq<Event>): (heights: seq<int>)
    ensures |heights| == |log| && forall i :: 0 <= i < |log| ==> HeightFits(log[i], heights[i])
  {
    seq(|log|, i requires 0 <= i < |log| => if log[i].Confirm? then log[i].height else -1)
  }

  // A load rejects nothing, and accepts what it confirms.
  lemma {:induction false} LoadDropsNothing(es: seq<Entry>)
    ensures forall a :: Dropped(LoadLog(es), a) == 0
    ensures forall h :: h in Accepted(LoadLog(es)) <==> h in HashesIn(es)
    decreases |es|
  {
    if es != [] {
      var log, e := LoadLog(Front(es)), Last(es);
      LoadDropsNothing(Front(es));
      var all := LoadLog(es);
      assert all == log + [Accept(e.hash), Confirm(e.hash, e.height)];
      assert all[..|log|] == log && all[..|log| + 2] == all;
      CountsSnoc(all, |log|);
      CountsSnoc(all, |log| + 1);
      assert HashesIn(es) == HashesIn(Front(es)) + [e.hash];
    }
  }

  // So a parser that only ever loaded has equal objects and counters too.
  ghost predicate SameToTheEnd(kv: KvStore, parser: Parser)
    reads kv, parser
  {
    && kv.txObjects == parser.txObjects
    && forall a :: kv.UnspentsOf(a).unspentTxCount == parser.UnspentsOf(a).unspentTxCount
  }

  lemma NothingElseThere(preParser: PreParser, parser: Parser, blocks: seq<RawBlock>)
    requires SameStores(preParser.kv, parser, LedgerOf(AllTxs(blocks)))
    requires parser.CountsAre(LoadLog(AllTxs(blocks)), NO_TABLES.unspents, NO_TABLES.keys)
    ensures SameToTheEnd(preParser.kv, parser)
  {
    hide SameUpToNumbers, Drift, Dropped, Accepted, LoadLog;
    LoadDropsNothing(AllTxs(blocks));
    NewIsEven();
    assert preParser.kv.txObjects.Keys == parser.txObjects.Keys;
  }

  lemma NewIsEven()
    ensures Drift(NEW_ADDR_UNSPENTS) == 0
  {
  }

  // The parser, from nothing, on the rows of a load.
  method ConsumeLoad(blocks: seq<RawBlock>) returns (ok: bool, parser: Parser)
    requires Loadable(blocks)
    ensures ok && fresh(parser) && parser.Agrees(LedgerOf(AllTxs(blocks)))
    ensures parser.CountsAre(LoadLog(AllTxs(blocks)), NO_TABLES.unspents, NO_TABLES.keys)
  {
    hide Parser.Agrees, Parser.CountsAre, Loadable, LegalRun, Replay, Consistent, LedgerOf, LoadLog, HeightFits;
    LoadsRight(blocks);
    parser := new Parser();
    var log := LoadLog(AllTxs(blocks));
    ok := parser.Consume(log, HeightsOf(log), EMPTY_LEDGER);
  }

  // Both from nothing, on the same blocks: the same store.  The block records are the
  // same too where the index takes the blocks, that is where every coinbase pays at least
  // the subsidy, which the loader does not ask for.
  method LoadBoth(blocks: seq<RawBlock>, hashLines: seq<Hash>, addrLines: seq<Addr>, num: Hash -> int)
    returns (ok: bool, indexed: bool, preParser: PreParser?, parser: Parser, store: BlockIndex.BlockStore)
    requires Loadable(blocks) && OneToOne(num)
    requires FilesMatch(AllTxs(blocks), hashLines, addrLines)
    ensures ok <==> hashLines != [] && addrLines != []
    ensures indexed <==> BlockIndex.AllPay(Accepts(HeadersOf(blocks)))
    ensures ok ==> preParser != null && SameStores(preParser.kv, parser, LedgerOf(AllTxs(blocks)))
    ensures ok ==> SameToTheEnd(preParser.kv, parser)
    ensures ok && indexed ==>
      preParser.blockLoader.heights == store.heights && preParser.blockLoader.objects == store.objects
    ensures indexed ==> forall k: nat :: k !in store.orphans
  {
    hide PreParser.Agrees, PreParser.Done, PreParser.Listing, PreParser.Ready, Parser.Agrees, SameStores, OneToOne;
    hide BlockLoader.Progress, BlockTimestamp.Holds, BlockIndex.BlockStore.Agrees, BlockIndex.HeightsAgree;
    hide BlockIndex.ObjectsAgree, BlockIndex.AllPay, SameToTheEnd, Parser.CountsAre;
    hide Loadable, FilesMatch, LegalRun, Replay, Consistent, LedgerOf, TxHandler.Listed, IsChain, LoadLog;
    LoadsRight(blocks);
    FilesAreLists(AllTxs(blocks), hashLines, addrLines);
    indexed, store := AcceptAll(HeadersOf(blocks));
    var consumed;
    consumed, parser := ConsumeLoad(blocks);
    ok, preParser := PreParser.Init(hashLines, addrLines, num, |blocks| - 1);
    if !ok {
      return;
    }
    FilesGiveListing(preParser, blocks, hashLines, addrLines);
    ok := preParser.Run(blocks);
    Refines(preParser, parser, LedgerOf(AllTxs(blocks)));
    NothingElseThere(preParser, parser, blocks);
    if indexed {
      SameHeights(preParser.blockLoader.heights, store.heights, HeadersOf(blocks));
      SameObjects(preParser.blockLoader.objects, store.objects, HeadersOf(blocks));
    }
  }

  // The incremental block index on the blocks of one chain.
  method AcceptAll(headers: seq<BlockIndex.Header>) returns (ok: bool, store: BlockIndex.BlockStore)
    requires IsChain(headers)
    ensures fresh(store) && (ok <==> BlockIndex.AllPay(Accepts(headers)))
    ensures ok ==> BlockIndex.HeightsAgree(store.heights, headers)
    ensures ok ==> BlockIndex.ObjectsAgree(store.objects, BlockIndex.Chain(headers, {}))
    ensures ok ==> forall k: nat :: k !in store.orphans
  {
    hide BlockIndex.HeightsAgree, BlockIndex.ObjectsAgree, BlockIndex.LegalRun, BlockIndex.Replay, IsChain;
    hide BlockIndex.AllPay;
    store := new BlockIndex.BlockStore();
    AcceptsAreLegal(headers, 0);
    assert headers[..0] == [] && headers[0..] == headers;
    ghost var done;
    ok, done := store.Run(Accepts(headers), BlockIndex.EMPTY_CHAIN);
    if ok {
      assert Accepts(headers)[..done] == Accepts(headers);
      NoOrphans(store, headers);
    }
  }

  lemma NoOrphans(store: BlockIndex.BlockStore, main: seq<BlockIndex.Header>)
    requires store.Agrees(BlockIndex.Chain(main, {}))
    ensures forall k: nat :: k !in store.orphans
  {
    forall k: nat ensures k !in store.orphans {
      assert BlockIndex.Lists(store.orphans, k, BlockIndex.AwayAt({}, k));
    }
  }
}
