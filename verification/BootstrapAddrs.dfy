/** The bootstrap loader's addresses: totals kept in a sorted vector, and a list entry
 that is written only when the next one comes. */
module BootstrapAddrs {
  import opened Transactions
  import opened Ledgers
  import opened AddressTxs
  import opened AddressUnspents
  import opened TxStore
  import opened TxParser
  import opened BootstrapTxs

  // The last transaction of an address; blockTime is 0 while there is none.
  datatype AddrTx = AddrTx(diff: int, height: int, blockTime: nat, txHash: Hash)

  const NO_HASH := HashOf(Tx(false, [], [], 0))
  const NO_TX := AddrTx(0, -1, 0, NO_HASH)

  datatype AddrInfo = AddrInfo(addr: Addr, received: int, sent: int, txCount: int,
                               unspentTxCount: int, addrTx: AddrTx)

  // The key-value store the loader fills.
  class KvStore {
    var txObjects: map<Hash, TxObject>
    var spentBy: map<Outpoint, SpentBy>
    var addrTxs: map<Addr, AddrTxs>
    var addrUnspents: map<Addr, AddrUnspents>

    constructor ()
      ensures txObjects == map[] && spentBy == map[] && addrTxs == map[] && addrUnspents == map[]
    {
      txObjects, spentBy, addrTxs, addrUnspents := map[], map[], map[], map[];
    }

    function TxsOf(a: Addr): AddrTxs
      reads this`addrTxs
    {
      if a in addrTxs then addrTxs[a] else NEW_ADDR_TXS
    }

    function UnspentsOf(a: Addr): AddrUnspents
      reads this`addrUnspents
    {
      if a in addrUnspents then addrUnspents[a] else NEW_ADDR_UNSPENTS
    }
  }

  // ---------- What one address should look like ----------

  ghost function HashesIn(c: seq<Entry>): (s: seq<Hash>)
    ensures |s| == |c| && forall i :: 0 <= i < |c| ==> s[i] == c[i].hash
  {
    seq(|c|, i requires 0 <= i < |c| => c[i].hash)
  }

  // 21_ and 22_ hold the first k entries of `c`.
  ghost predicate Saved(r: AddrTxs, a: Addr, c: seq<Entry>, k: nat)
    requires k <= |c|
  {
    && Indexed(r.nodes, r.nodeIdx, a, HashesIn(c)[..k])
    && forall i :: 0 <= i < k ==> r.nodes[i].height == c[i].height
  }

  ghost predicate Counted(e: AddrInfo, c: seq<Entry>) {
    && e.txCount == |c|
    && e.received == ReceivedBy(HashesIn(c), |c|, e.addr)
    && e.sent == SentBy(HashesIn(c), |c|, e.addr)
  }

  // The totals are those of `c`; its last entry is remembered, the others are stored.
  ghost predicate Behind(e: AddrInfo, r: AddrTxs, c: seq<Entry>) {
    && Counted(e, c)
    && if c == [] then e.addrTx.blockTime == 0 && Saved(r, e.addr, c, 0)
       else
         && e.addrTx.blockTime != 0
         && e.addrTx.txHash == Last(c).hash && e.addrTx.height == Last(c).height
         && e.addrTx.diff == Diff(Last(c).hash.tx, e.addr)
         && Saved(r, e.addr, c, |c| - 1)
  }

  ghost predicate DistinctEntries(c: seq<Entry>) {
    forall i, j :: 0 <= i < j < |c| ==> c[i].hash != c[j].hash
  }

  lemma {:induction false} ConfirmedOfDistinct(l: Ledger, n: nat, a: Addr)
    requires n <= |l.confirmed| == |l.heights| && NoDup(l.confirmed)
    ensures DistinctEntries(ConfirmedOf(l, n, a))
    ensures forall e :: e in ConfirmedOf(l, n, a) ==> e.hash in l.confirmed[..n]
    decreases n
  {
    if n > 0 {
      ConfirmedOfDistinct(l, n - 1, a);
      assert l.confirmed[..n] == l.confirmed[..n - 1] + [l.confirmed[n - 1]];
    }
  }

  // ---------- The steps ----------

  function WithNode(r: AddrTxs, e: AddrInfo): AddrTxs {
    r.(nodes := r.nodes[e.txCount - 1 := TxNode(e.addrTx.txHash, e.addrTx.height, e.addrTx.diff)],
       nodeIdx := r.nodeIdx[e.addrTx.txHash := e.txCount - 1])
  }

  lemma NextNode(nodes: map<int, TxNode>, a: Addr, s: seq<Hash>, h: Hash, height: int)
    requires NodesHold(nodes, a, s)
    ensures NodesHold(nodes[|s| := TxNode(h, height, Diff(h.tx, a))], a, s + [h])
  {
    hide Diff;
  }

  lemma NextIndex(nodeIdx: map<Hash, int>, s: seq<Hash>, h: Hash)
    requires IndexHolds(nodeIdx, s) && forall i :: 0 <= i < |s| ==> s[i] != h
    ensures IndexHolds(nodeIdx[h := |s|], s + [h])
  {
  }

  lemma NodeCount(nodes: map<int, TxNode>, a: Addr, s: seq<Hash>)
    requires NodesHold(nodes, a, s)
    ensures forall i :: i in nodes <==> 0 <= i < |s|
  {
  }

  lemma SaveLast(e: AddrInfo, r: AddrTxs, c: seq<Entry>)
    requires Behind(e, r, c) && c != [] && DistinctEntries(c)
    ensures Saved(WithNode(r, e), e.addr, c, |c|)
  {
    hide Diff, NodesHold, IndexHolds;
    var s, k := HashesIn(c), |c| - 1;
    assert s[..|c|] == s[..k] + [s[k]];
    assert forall i :: 0 <= i < k ==> s[..k][i] != s[k];
    NextNode(r.nodes, e.addr, s[..k], s[k], e.addrTx.height);
    NextIndex(r.nodeIdx, s[..k], s[k]);
    NodeCount(r.nodes, e.addr, s[..k]);
  }

  lemma SavedInLonger(r: AddrTxs, a: Addr, c: seq<Entry>, x: Entry)
    requires Saved(r, a, c, |c|)
    ensures Saved(r, a, c + [x], |c|)
  {
    assert HashesIn(c + [x])[..|c|] == HashesIn(c)[..|c|];
  }

  function Extended(e: AddrInfo, t: AddrTx): AddrInfo {
    e.(received := e.received + Received(t.diff), sent := e.sent + Sent(t.diff),
       txCount := e.txCount + 1, addrTx := t)
  }

  lemma ExtendedIsBehind(e: AddrInfo, r: AddrTxs, c: seq<Entry>, x: Entry, blockTime: nat)
    requires Counted(e, c) && Saved(r, e.addr, c, |c|) && blockTime != 0
    ensures Behind(Extended(e, AddrTx(Diff(x.hash.tx, e.addr), x.height, blockTime, x.hash)), r, c + [x])
  {
    SavedInLonger(r, e.addr, c, x);
    SumsOfPrefix(HashesIn(c), HashesIn(c + [x]), |c|, e.addr);
    assert HashesIn(c + [x])[..|c|] == HashesIn(c)[..|c|];
  }

  // One more transaction: what was remembered is written, unless its time is 0.
  function Noted(e: AddrInfo, r: AddrTxs, t: AddrTx): (AddrInfo, AddrTxs) {
    (Extended(e, t), if e.addrTx.blockTime != 0 then WithNode(r, e) else r)
  }

  lemma NotedIsBehind(e: AddrInfo, r: AddrTxs, c: seq<Entry>, x: Entry, blockTime: nat)
    requires Behind(e, r, c) && DistinctEntries(c) && blockTime != 0
    ensures var (f, q) := Noted(e, r, AddrTx(Diff(x.hash.tx, e.addr), x.height, blockTime, x.hash));
      Behind(f, q, c + [x])
  {
    if c != [] {
      SaveLast(e, r, c);
    }
    ExtendedIsBehind(e, Noted(e, r, NO_TX).1, c, x, blockTime);
  }

  function NotedAll(a: Addr, ts: seq<AddrTx>): (AddrInfo, AddrTxs) {
    if ts == [] then (AddrInfo(a, 0, 0, 0, 0, NO_TX), NEW_ADDR_TXS)
    else
      var (e, r) := NotedAll(a, Front(ts));
      Noted(e, r, Last(ts))
  }

  lemma {:induction false} WrittenSoFar(a: Addr, ts: seq<AddrTx>)
    ensures var (e, r) := NotedAll(a, ts);
      && e.txCount == |ts| && e.addrTx == (if ts == [] then NO_TX else Last(ts))
      && forall i :: i in r.nodes <==> 0 <= i < |ts| - 1 && ts[i].blockTime != 0
    decreases |ts|
  {
    if ts != [] {
      WrittenSoFar(a, Front(ts));
    }
  }

  // Whatever the transactions of an address, entry i of its list is there in the end
  // if and only if it is the last one or its block has a time other than 0.
  lemma EntryIsWritten(a: Addr, ts: seq<AddrTx>, i: nat)
    requires i < |ts|
    ensures var (e, r) := NotedAll(a, ts);
      i in WithNode(r, e).nodes <==> i == |ts| - 1 || ts[i].blockTime != 0
  {
    WrittenSoFar(a, ts);
  }

  // The address record of the end.
  function Finished(e: AddrInfo, r: AddrTxs): AddrTxs {
    AddrTxs(e.txCount, e.received, e.sent, 0, 0, 0, e.txCount - 1, r.nodes, r.nodeIdx)
  }

  // With everything stored, the record is the one the incremental parser has.
  lemma FinishedAgrees(e: AddrInfo, r: AddrTxs, l: Ledger)
    requires |l.confirmed| == |l.heights| && l.pool == {}
    requires Counted(e, AllConfirmedOf(l, e.addr))
    requires Saved(r, e.addr, AllConfirmedOf(l, e.addr), |AllConfirmedOf(l, e.addr)|)
    ensures TxsAgree(Finished(e, r), e.addr, l)
  {
    var c := AllConfirmedOf(l, e.addr);
    assert HashesIn(c)[..|c|] == HashesIn(c);
    assert Covers(Finished(e, r), e.addr, HashesIn(c), l);
  }

  class AddrHandler {
    const addrs: seq<Addr>      // the listed addresses, in order
    var addrInfo: seq<AddrInfo>

    ghost predicate Valid()
      reads this
    {
      && (forall i, j :: 0 <= i < j < |addrs| ==> addrs[i] < addrs[j])
      && |addrInfo| == |addrs|
      && forall i :: 0 <= i < |addrs| ==> addrInfo[i].addr == addrs[i]
    }

    // One record for every line of the address file.
    constructor (lines: seq<Addr>)
      requires NoDup(lines)
      ensures Valid() && (forall a :: a in addrs <==> a in lines)
      ensures forall i :: 0 <= i < |addrs| ==> addrInfo[i] == AddrInfo(addrs[i], 0, 0, 0, 0, NO_TX)
    {
      var sorted := SortBy(lines, (a: Addr) => a);
      SortedKeepsAll(lines, sorted);
      addrs := sorted;
      addrInfo := seq(|sorted|, i requires 0 <= i < |sorted| => AddrInfo(sorted[i], 0, 0, 0, 0, NO_TX));
    }

    // Every listed address is one entry behind; nothing is stored for the others.
    ghost predicate Agrees(kv: KvStore, l: Ledger)
      reads this, kv`addrTxs
    {
      && Valid() && |l.confirmed| == |l.heights|
      && (forall i :: 0 <= i < |addrs| ==>
        Behind(addrInfo[i], kv.TxsOf(addrs[i]), AllConfirmedOf(l, addrs[i])))
      && forall a :: a !in addrs ==> kv.TxsOf(a) == NEW_ADDR_TXS
    }

    // The last entry not above `a`; ok is false where the original throws.  It is the
    // entry of `a` exactly when `a` is listed.
    method Find(a: Addr) returns (ok: bool, i: nat)
      requires Valid()
      ensures ok <==> addrs != [] && addrs[0] <= a
      ensures ok ==> i < |addrs| && (addrs[i] == a <==> a in addrs)
      ensures a in addrs ==> ok
    {
      i := UpperBound(addrInfo, (e: AddrInfo) => e.addr, a);
      ok := i > 0;
      if ok {
        i := i - 1;
      }
    }

    method SaveAddrTx(i: nat, kv: KvStore)
      requires Valid() && i < |addrs|
      modifies kv`addrTxs
      ensures kv.TxsOf(addrs[i]) == WithNode(old(kv.TxsOf(addrs[i])), addrInfo[i])
      ensures forall a :: a != addrs[i] ==> kv.TxsOf(a) == old(kv.TxsOf(a))
    {
      kv.addrTxs := kv.addrTxs[addrs[i] := WithNode(kv.TxsOf(addrs[i]), addrInfo[i])];
    }

    // One transaction at one address: writes the one before, remembers this one.
    method NoteAddressTx(a: Addr, t: AddrTx, kv: KvStore) returns (ok: bool, ghost i: nat)
      requires Valid() && a in addrs
      modifies this, kv`addrTxs
      ensures ok && Valid() && i < |addrs| && addrs[i] == a
      ensures (addrInfo[i], kv.TxsOf(a)) == Noted(old(addrInfo)[i], old(kv.TxsOf(a)), t)
      ensures forall j :: 0 <= j < |addrs| && j != i ==> addrInfo[j] == old(addrInfo)[j]
      ensures forall b :: b != a ==> kv.TxsOf(b) == old(kv.TxsOf(b))
    {
      var p;
      ok, p := Find(a);
      i := p;
      if !ok {
        return;
      }
      if addrInfo[p].addrTx.blockTime != 0 {
        SaveAddrTx(p, kv);
      }
      addrInfo := addrInfo[p := Extended(addrInfo[p], t)];
    }

    // With a block time, the list stays one entry behind.
    method HandleAddressTx(a: Addr, diff: int, height: nat, blockTime: nat, h: Hash, kv: KvStore,
                           ghost c: seq<Entry>)
      returns (ok: bool, ghost i: nat)
      requires Valid() && a in addrs && blockTime != 0 && diff == Diff(h.tx, a) && DistinctEntries(c)
      requires forall j :: 0 <= j < |addrs| && addrs[j] == a ==> Behind(addrInfo[j], kv.TxsOf(a), c)
      modifies this, kv`addrTxs
      ensures ok && Valid() && i < |addrs| && addrs[i] == a
      ensures Behind(addrInfo[i], kv.TxsOf(a), c + [Entry(h, height)])
      ensures addrInfo[i].unspentTxCount == old(addrInfo)[i].unspentTxCount
      ensures forall j :: 0 <= j < |addrs| && j != i ==> addrInfo[j] == old(addrInfo)[j]
      ensures forall b :: b != a ==> kv.TxsOf(b) == old(kv.TxsOf(b))
    {
      ghost var p :| 0 <= p < |addrs| && addrs[p] == a;
      NotedIsBehind(addrInfo[p], kv.TxsOf(a), c, Entry(h, height), blockTime);
      ok, i := NoteAddressTx(a, AddrTx(diff, height, blockTime, h), kv);
    }

    // One confirmed transaction at all the addresses it touches.
    method HandleAddressTxs(balance: map<Addr, int>, height: nat, blockTime: nat, h: Hash, kv: KvStore,
                            ghost l: Ledger)
      returns (ok: bool)
      requires Agrees(kv, l) && Consistent(l) && l.pool == {} && Legal(l, Accept(h))
      requires Balances(balance, h.tx) && blockTime != 0
      requires forall a :: Touches(h.tx, a) ==> a in addrs
      modifies this, kv`addrTxs
      ensures ok && Valid() && Agrees(kv, Loaded(l, h, height))
      ensures forall j :: 0 <= j < |addrs| ==> addrInfo[j].unspentTxCount == old(addrInfo)[j].unspentTxCount
    {
      hide Behind, Touches, Diff, Legal, DistinctEntries, AllConfirmedOf, Consistent;
      ghost var m := Loaded(l, h, height);
      LoadedLists(l, h, height);
      var todo := balance.Keys;
      while todo != {}
        invariant Valid() && todo <= balance.Keys
        invariant forall i :: 0 <= i < |addrs| ==>
          if addrs[i] in todo then addrInfo[i] == old(addrInfo)[i]
          else
            && Behind(addrInfo[i], kv.TxsOf(addrs[i]), AllConfirmedOf(m, addrs[i]))
            && addrInfo[i].unspentTxCount == old(addrInfo)[i].unspentTxCount
        invariant forall a :: a in todo || a !in addrs ==> kv.TxsOf(a) == old(kv.TxsOf(a))
      {
        var a :| a in todo;
        todo := todo - {a};
        ghost var i;
        ok, i := HandleAddressTx(a, balance[a], height, blockTime, h, kv, AllConfirmedOf(l, a));
        if !ok {
          return;
        }
      }
      ok := true;
    }

    // Writes the last entry and the object of every address.
    method DumpAddressAndTxs(kv: KvStore, ghost l: Ledger)
      requires Agrees(kv, l) && Consistent(l) && l.pool == {}
      requires forall a :: a in addrs ==> AllConfirmedOf(l, a) != []
      modifies kv`addrTxs, kv`addrUnspents
      ensures forall a :: a in addrs ==> TxsAgree(kv.TxsOf(a), a, l)
      ensures forall a :: a !in addrs ==> kv.TxsOf(a) == NEW_ADDR_TXS
      ensures forall i :: 0 <= i < |addrs| ==>
        kv.UnspentsOf(addrs[i]) == View(addrInfo[i], old(kv.UnspentsOf(addrs[i])))
      ensures forall a :: a !in addrs ==> kv.UnspentsOf(a) == old(kv.UnspentsOf(a))
    {
      hide Behind, TxsAgree, Consistent, AllConfirmedOf, View;
      for i := 0 to |addrs|
        invariant forall j :: 0 <= j < |addrs| ==>
          if j < i then
            && TxsAgree(kv.TxsOf(addrs[j]), addrs[j], l)
            && kv.UnspentsOf(addrs[j]) == View(addrInfo[j], old(kv.UnspentsOf(addrs[j])))
          else
            && kv.TxsOf(addrs[j]) == old(kv.TxsOf(addrs[j]))
            && kv.UnspentsOf(addrs[j]) == old(kv.UnspentsOf(addrs[j]))
        invariant forall a :: a !in addrs ==>
          kv.TxsOf(a) == NEW_ADDR_TXS && kv.UnspentsOf(a) == old(kv.UnspentsOf(a))
      {
        DumpAddress(i, kv, l);
      }
    }

    method DumpAddress(i: nat, kv: KvStore, ghost l: Ledger)
      requires Valid() && i < |addrs|
      requires Consistent(l) && l.pool == {} && AllConfirmedOf(l, addrs[i]) != []
      requires Behind(addrInfo[i], kv.TxsOf(addrs[i]), AllConfirmedOf(l, addrs[i]))
      modifies kv`addrTxs, kv`addrUnspents
      ensures TxsAgree(kv.TxsOf(addrs[i]), addrs[i], l)
      ensures kv.UnspentsOf(addrs[i]) == View(addrInfo[i], old(kv.UnspentsOf(addrs[i])))
      ensures forall a :: a != addrs[i] ==>
        kv.TxsOf(a) == old(kv.TxsOf(a)) && kv.UnspentsOf(a) == old(kv.UnspentsOf(a))
    {
      hide Behind, TxsAgree;
      FinishesRight(addrInfo[i], kv.TxsOf(addrs[i]), l);
      SaveAddrTx(i, kv);
      kv.addrTxs := kv.addrTxs[addrs[i] := Finished(addrInfo[i], kv.TxsOf(addrs[i]))];
      kv.addrUnspents := kv.addrUnspents[addrs[i] := View(addrInfo[i], kv.UnspentsOf(addrs[i]))];
    }
  }

  // The counters of 20_ that go with the unspent list.
  function View(e: AddrInfo, u: AddrUnspents): AddrUnspents {
    AddrUnspents(e.unspentTxCount, e.unspentTxCount - 1, u.entries, u.entryIdx)
  }

  lemma StartsAgreeing(addrHandler: AddrHandler, kv: KvStore)
    requires addrHandler.Valid() && kv.addrTxs == map[]
    requires forall i :: 0 <= i < |addrHandler.addrs| ==>
      addrHandler.addrInfo[i] == AddrInfo(addrHandler.addrs[i], 0, 0, 0, 0, NO_TX)
    ensures addrHandler.Agrees(kv, EMPTY_LEDGER)
  {
  }

  lemma LoadedLists(l: Ledger, h: Hash, height: nat)
    requires Consistent(l)
    ensures forall a :: DistinctEntries(AllConfirmedOf(l, a))
    ensures forall a :: Touches(h.tx, a) ==>
      AllConfirmedOf(Loaded(l, h, height), a) == AllConfirmedOf(l, a) + [Entry(h, height)]
    ensures forall a :: !Touches(h.tx, a) ==>
      AllConfirmedOf(Loaded(l, h, height), a) == AllConfirmedOf(l, a)
  {
    forall a ensures DistinctEntries(AllConfirmedOf(l, a)) && AllConfirmedOf(Loaded(l, h, height), a) ==
      if Touches(h.tx, a) then AllConfirmedOf(l, a) + [Entry(h, height)] else AllConfirmedOf(l, a)
    {
      ConfirmedOfDistinct(l, |l.confirmed|, a);
      ConfirmedOfPrefix(l, Loaded(l, h, height), |l.confirmed|, a);
    }
  }

  lemma FinishesRight(e: AddrInfo, r: AddrTxs, l: Ledger)
    requires Consistent(l) && l.pool == {} && AllConfirmedOf(l, e.addr) != []
    requires Behind(e, r, AllConfirmedOf(l, e.addr))
    ensures TxsAgree(Finished(e, WithNode(r, e)), e.addr, l)
  {
    ConfirmedOfDistinct(l, |l.confirmed|, e.addr);
    SaveLast(e, r, AllConfirmedOf(l, e.addr));
    FinishedAgrees(e, WithNode(r, e), l);
  }
}
