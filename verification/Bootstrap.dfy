/**
 The bootstrap loader: one pass over the raw blocks, from nothing, to the same records
 the incremental parser keeps.
 */
module Bootstrap {
  import opened Transactions
  import opened Ledgers
  import opened AddressTxs
  import opened AddressUnspents
  import opened TxStore
  import opened TxParser
  import opened BootstrapTxs
  import opened BootstrapAddrs
  import opened BootstrapUnspents
  import opened BootstrapDump
  import opened BootstrapBlocks
  import BlockIndex
  import opened OrphanHashes
  import opened BlockTimestamps

  // A raw block; hash and prev are the written hashes of it and of its parent.
  datatype RawBlock = RawBlock(hash: HashStr, prev: HashStr, vtx: seq<Tx>, nTime: nat)

  function HeadersOf(blocks: seq<RawBlock>): (hs: seq<BlockIndex.Header>)
    ensures |hs| == |blocks|
    ensures forall i :: 0 <= i < |hs| ==> hs[i] == HeaderAt(blocks[i], i)
  {
    seq(|blocks|, i requires 0 <= i < |blocks| => HeaderAt(blocks[i], i))
  }

  function HeaderAt(blk: RawBlock, height: nat): BlockIndex.Header {
    BlockIndex.Header(blk.hash, blk.prev, height, CoinbaseValue(blk.vtx))
  }

  // ---------- The raw blocks as one stream ----------

  // The first n transactions of a block.
  function BlockEntries(txs: seq<Tx>, n: nat, height: nat): seq<Entry>
    requires n <= |txs|
  {
    if n == 0 then [] else BlockEntries(txs, n - 1, height) + [Entry(HashOf(txs[n - 1]), height)]
  }

  // The transactions of the blocks below height n.
  function Stream(blocks: seq<RawBlock>, n: nat): seq<Entry>
    requires n <= |blocks|
  {
    if n == 0 then []
    else Stream(blocks, n - 1) + BlockEntries(blocks[n - 1].vtx, |blocks[n - 1].vtx|, n - 1)
  }

  function AllTxs(blocks: seq<RawBlock>): seq<Entry> {
    Stream(blocks, |blocks|)
  }

  // What a producer would write for the same transactions.
  function LoadLog(es: seq<Entry>): seq<Event> {
    if es == [] then []
    else LoadLog(Front(es)) + [Accept(Last(es).hash), Confirm(Last(es).hash, Last(es).height)]
  }

  ghost function LedgerOf(es: seq<Entry>): Ledger {
    Ledger({}, HashesIn(es), seq(|es|, i requires 0 <= i < |es| => es[i].height))
  }

  lemma LedgerSnoc(es: seq<Entry>, e: Entry)
    ensures LedgerOf(es + [e]) == Loaded(LedgerOf(es), e.hash, e.height)
  {
  }

  // Accepting and confirming at once is loading.
  lemma LoadedIsRun(l: Ledger, h: Hash, height: nat)
    requires Consistent(l) && l.pool == {} && Legal(l, Accept(h))
    ensures var m := Apply(l, Accept(h));
      && Consistent(m) && Legal(m, Confirm(h, height))
      && Apply(m, Confirm(h, height)) == Loaded(l, h, height) && Consistent(Loaded(l, h, height))
  {
    var m := Apply(l, Accept(h));
    LegalKeepsConsistent(l, Accept(h));
    LegalKeepsConsistent(m, Confirm(h, height));
    assert l.pool + {h} - {h} == {};
  }

  lemma NothingLoaded()
    ensures LedgerOf([]) == EMPTY_LEDGER && Consistent(EMPTY_LEDGER)
  {
  }

  lemma LogIsLegal(pre: seq<Entry>, e: Entry)
    requires LegalRun(EMPTY_LEDGER, LoadLog(pre + [e]))
    ensures LegalRun(EMPTY_LEDGER, LoadLog(pre))
    ensures var l := Replay(EMPTY_LEDGER, LoadLog(pre));
      && Legal(l, Accept(e.hash)) && Legal(Apply(l, Accept(e.hash)), Confirm(e.hash, e.height))
      && Replay(EMPTY_LEDGER, LoadLog(pre + [e])) == Apply(Apply(l, Accept(e.hash)), Confirm(e.hash, e.height))
  {
    hide Legal;
    var log := LoadLog(pre);
    assert Front(pre + [e]) == pre;
    assert LoadLog(pre + [e]) == log + [Accept(e.hash), Confirm(e.hash, e.height)];
    assert Front(LoadLog(pre + [e])) == log + [Accept(e.hash)];
    assert Front(log + [Accept(e.hash)]) == log;
  }

  // Every transaction of a legal load may be accepted when its turn comes, and the run
  // of the log ends in the ledger of the stream.
  lemma {:induction false} LoadIsLegal(es: seq<Entry>)
    requires LegalRun(EMPTY_LEDGER, LoadLog(es))
    ensures Replay(EMPTY_LEDGER, LoadLog(es)) == LedgerOf(es) && Consistent(LedgerOf(es))
    ensures forall i :: 0 <= i < |es| ==> Legal(LedgerOf(es[..i]), Accept(es[i].hash)) && Consistent(LedgerOf(es[..i]))
    decreases |es|
  {
    hide Consistent, Legal;
    NothingLoaded();
    if es != [] {
      var pre, e := Front(es), Last(es);
      LogIsLegal(pre, e);
      assert es == pre + [e];
      LoadIsLegal(pre);
      LoadedIsRun(LedgerOf(pre), e.hash, e.height);
      LedgerSnoc(pre, e);
      forall i | 0 <= i < |es| ensures Legal(LedgerOf(es[..i]), Accept(es[i].hash)) && Consistent(LedgerOf(es[..i])) {
        assert es[..i] == pre[..i];
        assert i == |pre| ==> pre[..i] == pre;
      }
    }
  }

  lemma {:induction false} StreamIsPrefix(blocks: seq<RawBlock>, n: nat, m: nat)
    requires n <= m <= |blocks|
    ensures Stream(blocks, n) <= Stream(blocks, m)
    decreases m
  {
    if n < m {
      StreamIsPrefix(blocks, n, m - 1);
    }
  }

  lemma {:induction false} EntriesArePrefix(txs: seq<Tx>, n: nat, m: nat, height: nat)
    requires n <= m <= |txs|
    ensures BlockEntries(txs, n, height) <= BlockEntries(txs, m, height)
    decreases m
  {
    if n < m {
      EntriesArePrefix(txs, n, m - 1, height);
    }
  }

  // Transaction j of block i is the next one of the stream.
  lemma NextInStream(blocks: seq<RawBlock>, i: nat, j: nat)
    requires i < |blocks| && j < |blocks[i].vtx|
    ensures var es := Stream(blocks, i) + BlockEntries(blocks[i].vtx, j, i);
      && |es| < |AllTxs(blocks)| && es == AllTxs(blocks)[..|es|]
      && AllTxs(blocks)[|es|] == Entry(HashOf(blocks[i].vtx[j]), i)
  {
    var es := Stream(blocks, i) + BlockEntries(blocks[i].vtx, j, i);
    EntriesArePrefix(blocks[i].vtx, j + 1, |blocks[i].vtx|, i);
    StreamIsPrefix(blocks, i + 1, |blocks|);
    assert es + [Entry(HashOf(blocks[i].vtx[j]), i)] <= Stream(blocks, i + 1);
  }

  // The files of the first pass name exactly the transactions and addresses of the blocks.
  ghost predicate FilesMatch(es: seq<Entry>, hashLines: seq<Hash>, addrLines: seq<Addr>) {
    && NoDup(hashLines) && NoDup(addrLines)
    && (forall e :: e in es ==> e.hash in hashLines)
    && forall a :: a in addrLines <==> TouchedIn(es, a)
  }

  lemma LoadedObjects(objs: map<Hash, TxObject>, l: Ledger, h: Hash, height: nat)
    requires Consistent(l) && l.pool == {} && Legal(l, Accept(h)) && ObjectsAgree(objs, l)
    ensures ObjectsAgree(objs[h := TxObject(h.tx.vout, height, false)], Loaded(l, h, height))
  {
    hide ObjectsAgree, Consistent, Legal, Apply, Loaded;
    LoadedIsRun(l, h, height);
    AcceptObjects(objs, l, h);
    var with := objs[h := TxObject(h.tx.vout, -1, false)];
    ConfirmObjects(with, Apply(l, Accept(h)), h, height);
    assert with[h := with[h].(height := height)] == objs[h := TxObject(h.tx.vout, height, false)];
  }

  lemma LoadedSpends(spentBy: map<Outpoint, SpentBy>, l: Ledger, h: Hash, height: nat, after: map<Outpoint, SpentBy>)
    requires Consistent(l) && l.pool == {} && Legal(l, Accept(h)) && SpendsAgree(spentBy, l)
    requires forall o :: o in after <==> o in spentBy || Spends(h, o)
    requires forall o :: o in after && !Spends(h, o) ==> after[o] == spentBy[o]
    requires forall o :: Spends(h, o) ==> after[o].txHash == h && InputIs(after[o], o)
    ensures SpendsAgree(after, Loaded(l, h, height))
  {
    LoadedIsRun(l, h, height);
    AcceptSpends(spentBy, l, h, after);
    SameSpends(after, Apply(l, Accept(h)), Confirm(h, height));
  }

  class PreParser {
    const txHandler: TxHandler
    const addrHandler: AddrHandler
    const kv: KvStore
    const blockLoader: BlockLoader
    const blkTs: BlockTimestamp

    // Between two transactions.
    ghost predicate Agrees(l: Ledger)
      reads this, txHandler, addrHandler, kv
    {
      && Consistent(l) && l.pool == {}
      && txHandler.Agrees(l, {}) && addrHandler.Agrees(kv, l)
      && ObjectsAgree(kv.txObjects, l) && SpendsAgree(kv.spentBy, l) && ObjectsAreConfirmed(l)
      && NoUnspentsYet()
    }

    // There is an object for confirmed transactions only.
    ghost predicate ObjectsAreConfirmed(l: Ledger)
      reads kv`txObjects
    {
      forall h :: h in kv.txObjects ==> h in l.confirmed
    }

    ghost predicate NoUnspentsYet()
      reads addrHandler, kv
    {
      && (forall a :: kv.UnspentsOf(a) == NEW_ADDR_UNSPENTS)
      && |addrHandler.addrInfo| == |addrHandler.addrs|
      && forall i :: 0 <= i < |addrHandler.addrs| ==> addrHandler.addrInfo[i].unspentTxCount == 0
    }

    // At the end: what the incremental parser keeps, and the unspent lists by height.
    ghost predicate Done(l: Ledger)
      reads kv
    {
      && ObjectsAgree(kv.txObjects, l) && SpendsAgree(kv.spentBy, l) && ObjectsAreConfirmed(l)
      && (forall a :: TxsAgree(kv.TxsOf(a), a, l))
      && (forall a :: UnspentsAgree(kv.UnspentsOf(a), a, l))
      && |l.confirmed| == |l.heights|
      && (forall a :: InOrder(kv.UnspentsOf(a), l))
    }

    // Reads the two files of the first pass; ok is false where one of them is empty.
    static method Init(hashLines: seq<Hash>, addrLines: seq<Addr>, num: Hash -> int, stopHeight: int)
      returns (ok: bool, preParser: PreParser?)
      requires NoDup(hashLines) && NoDup(addrLines) && OneToOne(num)
      ensures ok <==> hashLines != [] && addrLines != []
      ensures ok ==> preParser != null && preParser.Ready(hashLines, addrLines, stopHeight)
      ensures ok ==> fresh(preParser) && fresh(preParser.txHandler) && fresh(preParser.addrHandler)
      ensures ok ==> fresh(preParser.kv) && fresh(preParser.blockLoader) && fresh(preParser.blkTs)
    {
      hide TxHandler.Agrees, AddrHandler.Agrees, OneToOne, BlockLoader.Progress, PreParser.Agrees;
      ok, preParser := |addrLines| != 0 && |hashLines| != 0, null;
      if ok {
        preParser := new PreParser(hashLines, addrLines, num, stopHeight);
      }
    }

    // Nothing is parsed yet, and the handlers know what the files say.
    ghost predicate Ready(hashLines: seq<Hash>, addrLines: seq<Addr>, stopHeight: int)
      reads this, txHandler, addrHandler, kv, blockLoader, blkTs
    {
      && Agrees(EMPTY_LEDGER)
      && (forall h :: txHandler.Listed(h) <==> h in hashLines)
      && (forall a :: a in addrHandler.addrs <==> a in addrLines)
      && blockLoader.stopHeight == stopHeight && (forall blocks :: blockLoader.Progress(blocks, 0))
      && blkTs.Holds(-1, 0)
    }

    constructor (hashLines: seq<Hash>, addrLines: seq<Addr>, num: Hash -> int, stopHeight: int)
      requires NoDup(hashLines) && NoDup(addrLines) && OneToOne(num)
      ensures Ready(hashLines, addrLines, stopHeight)
      ensures fresh(txHandler) && fresh(addrHandler) && fresh(kv) && fresh(blockLoader) && fresh(blkTs)
    {
      hide TxHandler.Agrees, AddrHandler.Agrees, TxHandler.Valid, OneToOne, BlockLoader.Progress;
      txHandler := new TxHandler(hashLines, num);
      addrHandler := new AddrHandler(addrLines);
      kv := new KvStore();
      blockLoader := new BlockLoader(stopHeight);
      blkTs := new BlockTimestamp(2016);
      new;
      StartsAgreeing(addrHandler, kv);
      NothingLoaded();
    }

    // The inputs: spend records, balance differences, and slots to free.
    method ParseInputs(h: Hash, ghost l: Ledger) returns (ok: bool, balance: map<Addr, int>)
      requires Consistent(l) && l.pool == {} && Legal(l, Accept(h)) && txHandler.Agrees(l, {})
      modifies txHandler, kv`spentBy
      ensures ok && txHandler.Agrees(l, set o | o in h.tx.vin)
      ensures forall k :: txHandler.Listed(k) <==> old(txHandler.Listed(k))
      ensures Tally(balance, h.tx, |h.tx.vin|, 0)
      ensures forall o :: o in kv.spentBy <==> o in old(kv.spentBy) || Spends(h, o)
      ensures forall o :: o in kv.spentBy && !Spends(h, o) ==> kv.spentBy[o] == old(kv.spentBy)[o]
      ensures forall o :: Spends(h, o) ==> kv.spentBy[o].txHash == h && InputIs(kv.spentBy[o], o)
    {
      hide TxHandler.Agrees, Consistent, Tally;
      var tx := h.tx;
      balance := map[];
      NothingTallied(tx);
      ghost var spent: set<Outpoint> := {};
      for n := 0 to |tx.vin|
        invariant txHandler.Agrees(l, spent) && spent == set o | o in tx.vin[..n]
        invariant forall k :: txHandler.Listed(k) <==> old(txHandler.Listed(k))
        invariant Tally(balance, tx, n, 0)
        invariant forall o :: o in kv.spentBy <==> o in old(kv.spentBy) || o in tx.vin[..n]
        invariant forall o :: o in kv.spentBy && o !in tx.vin[..n] ==> kv.spentBy[o] == old(kv.spentBy)[o]
        invariant forall o :: o in tx.vin[..n] ==> kv.spentBy[o].txHash == h && InputIs(kv.spentBy[o], o)
      {
        var o := tx.vin[n];
        assert tx.vin[..n + 1] == tx.vin[..n] + [o];
        InputIsUnspent(l, h, n);
        var out;
        ok, out := txHandler.Spend(o, l, spent);
        if !ok {
          return;
        }
        spent := spent + {o};
        kv.spentBy := kv.spentBy[o := SpentBy(h, n)];
        ghost var before := balance;
        balance := AddShares(balance, out.addrs, -out.value);
        TallyInput(before, balance, tx, n, 0);
      }
      assert tx.vin[..|tx.vin|] == tx.vin;
      ok := true;
    }

    // The outputs: balance differences only.
    method ParseOutputs(tx: Tx, balance: map<Addr, int>) returns (b: map<Addr, int>)
      requires WellFormed(tx) && Tally(balance, tx, |tx.vin|, 0)
      ensures Balances(b, tx)
    {
      b := balance;
      for n := 0 to |tx.vout|
        invariant Tally(b, tx, |tx.vin|, n)
      {
        ghost var before := b;
        b := AddShares(b, tx.vout[n].addrs, tx.vout[n].value);
        TallyOutput(before, b, tx, |tx.vin|, n);
      }
      TallyComplete(b, tx);
    }

    method ParseTx(height: nat, h: Hash, blockNTime: nat, ghost l: Ledger) returns (ok: bool)
      requires Agrees(l) && Legal(l, Accept(h)) && blockNTime != 0
      requires txHandler.Listed(h) && forall a :: Touches(h.tx, a) ==> a in addrHandler.addrs
      modifies txHandler, addrHandler, kv
      ensures ok && Agrees(Loaded(l, h, height))
      ensures forall k :: txHandler.Listed(k) <==> old(txHandler.Listed(k))
    {
      hide TxHandler.Agrees, AddrHandler.Agrees, Consistent, Tally, ObjectsAgree, SpendsAgree, Balances, Touches, Legal;
      LoadedIsRun(l, h, height);
      MayBeLoaded(l, h);
      var balance;
      ok, balance := ParseInputs(h, l);
      if !ok {
        return;
      }
      LoadedSpends(old(kv.spentBy), l, h, height, kv.spentBy);
      balance := ParseOutputs(h.tx, balance);
      var inRange, _ := GetValueOut(h.tx);
      if !inRange {
        return false;
      }
      ok := txHandler.AddConfirmed(h, height, l);
      if !ok {
        return;
      }
      LoadedObjects(kv.txObjects, l, h, height);
      kv.txObjects := kv.txObjects[h := TxObject(h.tx.vout, height, false)];
      ok := addrHandler.HandleAddressTxs(balance, height, blockNTime, h, kv, l);
    }

    // Transaction j of block i.
    method ParseNext(blocks: seq<RawBlock>, i: nat, j: nat, ghost parsed: seq<Entry>) returns (ok: bool)
      requires Loadable(blocks) && Listing(blocks) && i < |blocks| && j < |blocks[i].vtx|
      requires parsed == Stream(blocks, i) + BlockEntries(blocks[i].vtx, j, i) && Agrees(LedgerOf(parsed))
      modifies txHandler, addrHandler, kv
      ensures ok && Listing(blocks)
      ensures Agrees(LedgerOf(Stream(blocks, i) + BlockEntries(blocks[i].vtx, j + 1, i)))
    {
      NextIsLegal(blocks, i, j);
      hide Agrees, Loadable, LedgerOf, Legal, LegalRun, Stream, BlockEntries, Touches;
      var h := HashOf(blocks[i].vtx[j]);
      assert Entry(h, i) in AllTxs(blocks);
      Touching(AllTxs(blocks), Entry(h, i));
      ok := ParseTx(i, h, blocks[i].nTime, LedgerOf(parsed));
    }

    method ParseBlockTxs(blocks: seq<RawBlock>, i: nat) returns (ok: bool)
      requires Loadable(blocks) && Listing(blocks) && i < |blocks| && Agrees(LedgerOf(Stream(blocks, i)))
      modifies txHandler, addrHandler, kv
      ensures ok && Listing(blocks) && Agrees(LedgerOf(Stream(blocks, i + 1)))
    {
      hide Agrees, Listing, Loadable, LedgerOf;
      assert Stream(blocks, i) + BlockEntries(blocks[i].vtx, 0, i) == Stream(blocks, i);
      for j := 0 to |blocks[i].vtx|
        invariant Listing(blocks) && Agrees(LedgerOf(Stream(blocks, i) + BlockEntries(blocks[i].vtx, j, i)))
      {
        ok := ParseNext(blocks, i, j, Stream(blocks, i) + BlockEntries(blocks[i].vtx, j, i));
        if !ok {
          return;
        }
      }
      ok := true;
    }

    // All blocks in order: the block records, then the transactions.
    method ParseAll(blocks: seq<RawBlock>) returns (ok: bool)
      requires Agrees(EMPTY_LEDGER) && Loadable(blocks) && Listing(blocks)
      requires blockLoader.stopHeight == |blocks| - 1 && blockLoader.Progress(HeadersOf(blocks), 0)
      requires blkTs.Holds(-1, 0)
      modifies txHandler, addrHandler, kv, blockLoader, blkTs
      ensures ok && Agrees(LedgerOf(AllTxs(blocks)))
      ensures blockLoader.Progress(HeadersOf(blocks), |blocks|)
    {
      hide Agrees, Listing, Loadable, LedgerOf, IsChain, BlockLoader.Progress, BlockTimestamp.Holds, InMoneyRange;
      NothingLoaded();
      BlocksAreChained(blocks);
      ghost var headers := HeadersOf(blocks);
      ghost var kept: nat := 0;
      for curHeight := 0 to |blocks|
        invariant Listing(blocks) && Agrees(LedgerOf(Stream(blocks, curHeight)))
        invariant blockLoader.Progress(headers, curHeight) && blkTs.Holds(curHeight - 1, kept)
      {
        var blk := blocks[curHeight];
        CoinbaseInRange(blocks, curHeight);
        ok := blkTs.PushBlock(curHeight, blk.nTime, kept);
        kept := Min(kept + 1, blkTs.limit);
        if !ok {
          return;
        }
        var reward;
        ok, reward := GetValueOut(blk.vtx[0]);
        if !ok {
          return;
        }
        blockLoader.ParseBlock(BlockIndex.Header(blk.hash, blk.prev, curHeight, reward), curHeight, headers);
        ok := ParseBlockTxs(blocks, curHeight);
        if !ok {
          return;
        }
      }
      ok := true;
    }

    // The handlers know exactly the transactions and addresses of the blocks.
    ghost predicate Listing(blocks: seq<RawBlock>)
      reads txHandler, addrHandler
    {
      && (forall e :: e in AllTxs(blocks) ==> txHandler.Listed(e.hash))
      && forall a :: a in addrHandler.addrs <==> TouchedIn(AllTxs(blocks), a)
    }

    lemma ListedAddresses(blocks: seq<RawBlock>)
      requires Listing(blocks)
      ensures forall a :: a in addrHandler.addrs <==> TouchedIn(AllTxs(blocks), a)
    {
    }

    // The unspent lists are written; their counts are still with the addresses.
    ghost predicate UnspentsReady(l: Ledger)
      reads addrHandler, kv
    {
      && addrHandler.Valid() && |l.confirmed| == |l.heights|
      && (forall p: nat :: p < |addrHandler.addrs| ==>
        var u := View(addrHandler.addrInfo[p], kv.UnspentsOf(addrHandler.addrs[p]));
        UnspentsAgree(u, addrHandler.addrs[p], l) && InOrder(u, l))
      && forall a :: a !in addrHandler.addrs ==> kv.UnspentsOf(a) == NEW_ADDR_UNSPENTS
    }

    method DumpUnspents(ghost l: Ledger) returns (ok: bool)
      requires Agrees(l) && forall i :: 0 <= i < |l.heights| ==> l.heights[i] < 0x1_0000_0000
      requires forall h, a :: h in l.confirmed && Touches(h.tx, a) ==> a in addrHandler.addrs
      modifies txHandler, addrHandler, kv`addrUnspents
      ensures ok && UnspentsReady(l) && addrHandler.Agrees(kv, l)
    {
      hide Behind, Touches, StillUnspent, TxHandler.Agrees, UnspentsAgree, InOrder;
      hide ObjectsAgree, SpendsAgree, AllConfirmedOf;
      ok := DumpUnspentOutputToFile(txHandler, addrHandler, kv, l);
      if !ok {
        return;
      }
      forall i | 0 <= i < |addrHandler.addrs|
        ensures Behind(addrHandler.addrInfo[i], kv.TxsOf(addrHandler.addrs[i]), AllConfirmedOf(l, addrHandler.addrs[i]))
      {
        StillBehind(addrHandler.addrInfo[i], old(addrHandler.addrInfo)[i], kv.TxsOf(addrHandler.addrs[i]),
                    AllConfirmedOf(l, addrHandler.addrs[i]));
      }
    }

    method DumpAddresses(ghost l: Ledger)
      requires UnspentsReady(l) && addrHandler.Agrees(kv, l) && Consistent(l) && l.pool == {}
      requires forall a :: a in addrHandler.addrs <==> TouchedIn(EntriesOf(l), a)
      modifies kv`addrTxs, kv`addrUnspents
      ensures forall a :: TxsAgree(kv.TxsOf(a), a, l)
      ensures forall a :: UnspentsAgree(kv.UnspentsOf(a), a, l) && InOrder(kv.UnspentsOf(a), l)
    {
      hide Behind, Touches, UnspentsAgree, InOrder, AllConfirmedOf, TxsAgree, Consistent, TouchedIn;
      TouchedAddresses(l);
      addrHandler.DumpAddressAndTxs(kv, l);
      forall a
        ensures TxsAgree(kv.TxsOf(a), a, l) && UnspentsAgree(kv.UnspentsOf(a), a, l) && InOrder(kv.UnspentsOf(a), l)
      {
        if a in addrHandler.addrs {
          var p: nat :| p < |addrHandler.addrs| && addrHandler.addrs[p] == a;
        } else {
          UntouchedIsNew(l, a);
        }
      }
    }

    // Unspent outputs first, then addresses, which take their counts from them.
    method DumpAll(ghost l: Ledger) returns (ok: bool)
      requires Agrees(l) && forall i :: 0 <= i < |l.heights| ==> l.heights[i] < 0x1_0000_0000
      requires forall a :: a in addrHandler.addrs <==> TouchedIn(EntriesOf(l), a)
      modifies txHandler, addrHandler, kv`addrTxs, kv`addrUnspents
      ensures ok && Done(l)
    {
      hide Behind, Touches, UnspentsAgree, InOrder, TxsAgree, TouchedIn, UnspentsReady;
      hide ObjectsAgree, SpendsAgree, AddrHandler.Agrees;
      TouchedAddresses(l);
      ok := DumpUnspents(l);
      if !ok {
        return;
      }
      DumpAddresses(l);
    }

    // Valid blocks load without a throw, into what the incremental parser keeps.
    method Run(blocks: seq<RawBlock>) returns (ok: bool)
      requires Agrees(EMPTY_LEDGER) && Loadable(blocks) && Listing(blocks)
      requires blockLoader.stopHeight == |blocks| - 1 && blockLoader.Progress(HeadersOf(blocks), 0)
      requires blkTs.Holds(-1, 0)
      modifies txHandler, addrHandler, kv, blockLoader, blkTs
      ensures ok && Done(LedgerOf(AllTxs(blocks)))
      ensures BlockIndex.HeightsAgree(blockLoader.heights, HeadersOf(blocks))
      ensures BlockIndex.ObjectsAgree(blockLoader.objects, BlockIndex.Chain(HeadersOf(blocks), {}))
    {
      hide Agrees, Listing, Done, LedgerOf, Written, BlockIndex.HeightsAgree, BlockIndex.ObjectsAgree;
      ListedAddresses(blocks);
      ok := ParseAll(blocks);
      if !ok {
        return;
      }
      AllWritten(blockLoader.heights, blockLoader.objects, HeadersOf(blocks));
      StreamHeights(blocks, |blocks|);
      EntriesBack(blocks);
      ok := DumpAll(LedgerOf(AllTxs(blocks)));
    }
  }

  lemma BlocksAreChained(blocks: seq<RawBlock>)
    requires Loadable(blocks)
    ensures IsChain(HeadersOf(blocks))
  {
  }

  // The first transaction of a block is as well formed as the others.
  lemma CoinbaseInRange(blocks: seq<RawBlock>, i: nat)
    requires Loadable(blocks) && i < |blocks|
    ensures blocks[i].vtx != [] && InMoneyRange(blocks[i].vtx[0])
  {
    hide Legal, LegalRun, LedgerOf, Stream, BlockEntries, Consistent, Replay, LoadLog, InMoneyRange;
    assert blocks[i] in blocks;
    NextIsLegal(blocks, i, 0);
    MayBeLoaded(LedgerOf(Stream(blocks, i) + BlockEntries(blocks[i].vtx, 0, i)), HashOf(blocks[i].vtx[0]));
  }

  lemma EntriesBack(blocks: seq<RawBlock>)
    requires Loadable(blocks)
    requires forall e :: e in AllTxs(blocks) ==> e.height < |blocks|
    ensures var l := LedgerOf(AllTxs(blocks));
      && |l.confirmed| == |l.heights| && EntriesOf(l) == AllTxs(blocks)
      && forall i :: 0 <= i < |l.heights| ==> l.heights[i] < 0x1_0000_0000
  {
    hide LegalRun, LoadLog;
    var es, l := AllTxs(blocks), LedgerOf(AllTxs(blocks));
    assert EntriesOf(l) == es;
    assert forall i :: 0 <= i < |es| ==> l.heights[i] == es[i].height && es[i] in es;
  }

  ghost predicate TouchedIn(es: seq<Entry>, a: Addr) {
    exists e :: e in es && Touches(e.hash.tx, a)
  }

  lemma Touching(es: seq<Entry>, e: Entry)
    requires e in es
    ensures forall a :: Touches(e.hash.tx, a) ==> TouchedIn(es, a)
  {
  }

  lemma NextEntries(blocks: seq<RawBlock>, i: nat, j: nat)
    requires i < |blocks| && j < |blocks[i].vtx|
    ensures Stream(blocks, i) + BlockEntries(blocks[i].vtx, j + 1, i)
      == Stream(blocks, i) + BlockEntries(blocks[i].vtx, j, i) + [Entry(HashOf(blocks[i].vtx[j]), i)]
  {
  }

  lemma NextIsLegal(blocks: seq<RawBlock>, i: nat, j: nat)
    requires Loadable(blocks) && i < |blocks| && j < |blocks[i].vtx|
    ensures var l := LedgerOf(Stream(blocks, i) + BlockEntries(blocks[i].vtx, j, i));
      var h := HashOf(blocks[i].vtx[j]);
      && Legal(l, Accept(h)) && blocks[i].nTime != 0 && Entry(h, i) in AllTxs(blocks)
      && LedgerOf(Stream(blocks, i) + BlockEntries(blocks[i].vtx, j + 1, i)) == Loaded(l, h, i)
  {
    hide Legal, LegalRun, LedgerOf, Loaded, Stream, BlockEntries, Consistent, Replay, LoadLog;
    var es, e := Stream(blocks, i) + BlockEntries(blocks[i].vtx, j, i), Entry(HashOf(blocks[i].vtx[j]), i);
    LoadIsLegal(AllTxs(blocks));
    NextInStream(blocks, i, j);
    LedgerSnoc(es, e);
    NextEntries(blocks, i, j);
  }

  // Each block is valid on top of those before it, and has a time.
  ghost predicate Loadable(blocks: seq<RawBlock>) {
    && |blocks| <= 0x8000_0000 && IsChain(HeadersOf(blocks))
    && (forall b :: b in blocks ==> b.nTime != 0 && b.vtx != [])
    && LegalRun(EMPTY_LEDGER, LoadLog(AllTxs(blocks)))
  }

  ghost function EntriesOf(l: Ledger): (es: seq<Entry>)
    requires |l.confirmed| == |l.heights|
  {
    seq(|l.confirmed|, i requires 0 <= i < |l.confirmed| => Entry(l.confirmed[i], l.heights[i]))
  }

  lemma {:induction false} StreamHeights(blocks: seq<RawBlock>, n: nat)
    requires n <= |blocks|
    ensures forall e :: e in Stream(blocks, n) ==> e.height < n
    decreases n
  {
    if n > 0 {
      StreamHeights(blocks, n - 1);
      EntriesAtHeight(blocks[n - 1].vtx, |blocks[n - 1].vtx|, n - 1);
    }
  }

  lemma {:induction false} EntriesAtHeight(txs: seq<Tx>, n: nat, height: nat)
    requires n <= |txs|
    ensures forall e :: e in BlockEntries(txs, n, height) ==> e.height == height
    decreases n
  {
    if n > 0 {
      EntriesAtHeight(txs, n - 1, height);
    }
  }

  lemma {:induction false} TouchedIsListed(l: Ledger, n: nat, a: Addr, i: nat)
    requires i < n <= |l.confirmed| == |l.heights| && Touches(l.confirmed[i].tx, a)
    ensures ConfirmedOf(l, n, a) != []
    decreases n
  {
    if i < n - 1 {
      TouchedIsListed(l, n - 1, a, i);
    }
  }

  lemma TouchedAddresses(l: Ledger)
    requires |l.confirmed| == |l.heights|
    ensures forall a :: TouchedIn(EntriesOf(l), a) ==> AllConfirmedOf(l, a) != []
    ensures forall h, a :: h in l.confirmed && Touches(h.tx, a) ==> TouchedIn(EntriesOf(l), a)
  {
    forall a | TouchedIn(EntriesOf(l), a) ensures AllConfirmedOf(l, a) != [] {
      var e :| e in EntriesOf(l) && Touches(e.hash.tx, a);
      var i: nat :| i < |l.confirmed| && EntriesOf(l)[i] == e;
      TouchedIsListed(l, |l.confirmed|, a, i);
    }
    forall h, a | h in l.confirmed && Touches(h.tx, a) ensures TouchedIn(EntriesOf(l), a) {
      var i: nat :| i < |l.confirmed| && l.confirmed[i] == h;
      assert EntriesOf(l)[i] in EntriesOf(l) && EntriesOf(l)[i].hash == h;
    }
  }

  lemma {:induction false} NothingConfirmed(l: Ledger, n: nat, a: Addr)
    requires n <= |l.confirmed| == |l.heights|
    requires forall h :: h in l.confirmed ==> !Touches(h.tx, a)
    ensures ConfirmedOf(l, n, a) == []
    decreases n
  {
    if n > 0 {
      NothingConfirmed(l, n - 1, a);
    }
  }

  lemma StillBehind(e: AddrInfo, f: AddrInfo, r: AddrTxs, c: seq<Entry>)
    requires SameButCount(e, f) && Behind(f, r, c)
    ensures Behind(e, r, c)
  {
  }

  // An address no transaction touches has the records of a new one.
  lemma UntouchedIsNew(l: Ledger, a: Addr)
    requires Consistent(l) && l.pool == {} && !TouchedIn(EntriesOf(l), a)
    ensures TxsAgree(NEW_ADDR_TXS, a, l) && UnspentsAgree(NEW_ADDR_UNSPENTS, a, l) && InOrder(NEW_ADDR_UNSPENTS, l)
  {
    TouchedAddresses(l);
    NothingConfirmed(l, |l.confirmed|, a);
    assert Covers(NEW_ADDR_TXS, a, [], l);
    forall o | InRange(o) && Pays(PrevOut(o), a) ensures Touches(o.hash.tx, a) {
      assert Pays(o.hash.tx.vout[o.n], a);
    }
  }

  lemma MayBeLoaded(l: Ledger, h: Hash)
    requires Legal(l, Accept(h))
    ensures WellFormed(h.tx)
  {
  }

  lemma InputIsUnspent(l: Ledger, h: Hash, n: nat)
    requires l.pool == {} && Legal(l, Accept(h)) && Consistent(l) && n < |h.tx.vin|
    ensures StillUnspent(l, h.tx.vin[n]) && h.tx.vin[n] !in h.tx.vin[..n]
    ensures NoDup(PrevOut(h.tx.vin[n]).addrs)
  {
    var o := h.tx.vin[n];
    assert Spends(h, o) && Live(l, o.hash);
  }
}
