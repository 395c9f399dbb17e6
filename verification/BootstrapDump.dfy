/** From the slots that are left to the unspent lists: count, collect, sort, number. */
module BootstrapDump {
  import opened Transactions
  import opened Ledgers
  import opened AddressUnspents
  import opened BootstrapTxs
  import opened BootstrapAddrs
  import opened BootstrapUnspents

  // ---------- Counting ----------

  function Width(e: TxInfo, n: nat): nat {
    if HeldAt(e, n) then |e.outputs.slots[n].out.addrs| else 0
  }

  function SlotCount(e: TxInfo): nat {
    if e.outputs.Outputs? then |e.outputs.slots| else 0
  }

  // Addresses in the first n slots of `e`.
  function CountSlots(e: TxInfo, n: nat): nat {
    if n == 0 then 0 else CountSlots(e, n - 1) + Width(e, n - 1)
  }

  function CountTxs(s: seq<TxInfo>, i: nat): nat
    requires i <= |s|
  {
    if i == 0 then 0 else CountTxs(s, i - 1) + CountSlots(s[i - 1], SlotCount(s[i - 1]))
  }

  lemma {:induction false} CountSlotsGrows(e: TxInfo, n: nat, m: nat)
    requires n <= m
    ensures CountSlots(e, n) <= CountSlots(e, m)
    decreases m
  {
    if n < m {
      CountSlotsGrows(e, n, m - 1);
    }
  }

  lemma {:induction false} CountTxsGrows(s: seq<TxInfo>, i: nat, k: nat)
    requires i <= k <= |s|
    ensures CountTxs(s, i) <= CountTxs(s, k)
    decreases k
  {
    if i < k {
      CountTxsGrows(s, i, k - 1);
    }
  }

  // Before the j-th address of a slot of `all[i]` is pushed there is still room.
  lemma RoomLeft(all: seq<TxInfo>, i: nat, n: nat, j: nat)
    requires i < |all| && n < SlotCount(all[i]) && j < Width(all[i], n)
    ensures CountTxs(all, i) + CountSlots(all[i], n) + j < CountTxs(all, |all|)
  {
    CountSlotsGrows(all[i], n + 1, SlotCount(all[i]));
    CountTxsGrows(all, i + 1, |all|);
  }

  method CountUnspents(txInfo: seq<TxInfo>) returns (unspentCount: nat)
    ensures unspentCount == CountTxs(txInfo, |txInfo|)
  {
    unspentCount := 0;
    for i := 0 to |txInfo|
      invariant unspentCount == CountTxs(txInfo, i)
    {
      var e := txInfo[i];
      if e.outputs.NoOutputs? {
        assert SlotCount(e) == 0;
        continue;
      }
      for n := 0 to |e.outputs.slots|
        invariant unspentCount == CountTxs(txInfo, i) + CountSlots(e, n)
      {
        if HeldAt(e, n) {
          unspentCount := unspentCount + |e.outputs.slots[n].out.addrs|;
        }
      }
    }
  }

  // ---------- Collecting ----------

  // The entry of a transaction shows which of its outputs are unspent.
  ghost predicate Shows(e: TxInfo, l: Ledger) {
    && |l.confirmed| == |l.heights|
    && SlotsFit(e)
    && (forall n: nat :: HeldAt(e, n) <==> StillUnspent(l, Outpoint(e.hash, n)))
    && (e.hash in l.confirmed ==> e.height == HeightOf(l, e.hash))
  }

  // `x` comes before address j of slot n of transaction i.
  ghost predicate Before(all: seq<TxInfo>, x: UnspentItem, i: nat, n: nat, j: nat) {
    || (exists k :: 0 <= k < i && k < |all| && all[k].hash == x.hash)
    || (i < |all| && all[i].hash == x.hash && (x.position < n || (x.position == n && x.position2 < j)))
  }

  ghost predicate Collected(items: seq<UnspentItem>, all: seq<TxInfo>, l: Ledger, addrs: seq<Addr>,
                            i: nat, n: nat, j: nat) {
    && NoDup(items)
    && forall x :: x in items <==> Fits(x, l, addrs) && Before(all, x, i, n, j)
  }

  ghost predicate DistinctHashes(all: seq<TxInfo>) {
    forall i, k :: 0 <= i < k < |all| ==> all[i].hash != all[k].hash
  }

  lemma CollectOne(items: seq<UnspentItem>, all: seq<TxInfo>, l: Ledger, addrs: seq<Addr>,
                   i: nat, n: nat, j: nat, x: UnspentItem)
    requires Collected(items, all, l, addrs, i, n, j) && DistinctHashes(all)
    requires SortedAddrs(addrs) && Fits(x, l, addrs)
    requires i < |all| && x.hash == all[i].hash && x.position == n && x.position2 == j
    ensures Collected(items + [x], all, l, addrs, i, n, j + 1)
  {
    assert !Before(all, x, i, n, j);
    forall y | Fits(y, l, addrs) && Before(all, y, i, n, j + 1) ensures Before(all, y, i, n, j) || y == x {
      if !Before(all, y, i, n, j) {
        assert y.hash == x.hash && y.position == n && y.position2 == j;
      }
    }
  }

  ghost predicate SortedAddrs(addrs: seq<Addr>) {
    forall i, j :: 0 <= i < j < |addrs| ==> addrs[i] < addrs[j]
  }

  // Past the last address of a slot, or past a freed slot.
  lemma SlotDone(items: seq<UnspentItem>, all: seq<TxInfo>, l: Ledger, addrs: seq<Addr>, i: nat, n: nat)
    requires i < |all| && Shows(all[i], l) && DistinctHashes(all)
    requires Collected(items, all, l, addrs, i, n, Width(all[i], n))
    ensures Collected(items, all, l, addrs, i, n + 1, 0)
  {
    forall x | Fits(x, l, addrs)
      ensures Before(all, x, i, n + 1, 0) <==> Before(all, x, i, n, Width(all[i], n))
    {
      if x.hash == all[i].hash && x.position == n {
        assert PointOfItem(x) == Outpoint(all[i].hash, n);
        assert HeldAt(all[i], n);
      }
    }
  }

  lemma TxDone(items: seq<UnspentItem>, all: seq<TxInfo>, l: Ledger, addrs: seq<Addr>, i: nat)
    requires i < |all| && Shows(all[i], l)
    requires Collected(items, all, l, addrs, i, SlotCount(all[i]), 0)
    ensures Collected(items, all, l, addrs, i + 1, 0, 0)
  {
    forall x | Fits(x, l, addrs)
      ensures Before(all, x, i + 1, 0, 0) <==> Before(all, x, i, SlotCount(all[i]), 0)
    {
      if x.hash == all[i].hash {
        assert PointOfItem(x) == Outpoint(all[i].hash, x.position);
        assert HeldAt(all[i], x.position);
      }
    }
  }

  lemma AllDone(items: seq<UnspentItem>, all: seq<TxInfo>, l: Ledger, addrs: seq<Addr>)
    requires Collected(items, all, l, addrs, |all|, 0, 0)
    requires forall h :: h in l.confirmed ==> exists i :: 0 <= i < |all| && all[i].hash == h
    ensures Complete(items, l, addrs)
  {
    forall x | Fits(x, l, addrs) ensures Before(all, x, |all|, 0, 0) {
      assert x.hash in l.confirmed;
    }
  }

  // The addresses of one unspent output.
  method CollectOutput(unspentHandler: AddrUnspentHandler, addrHandler: AddrHandler, e: TxInfo, n: nat,
                       ghost all: seq<TxInfo>, ghost i: nat, ghost l: Ledger)
    returns (ok: bool)
    requires i < |all| && e == all[i] && Shows(e, l) && DistinctHashes(all) && HeldAt(e, n)
    requires unspentHandler.insertOffset <= |unspentHandler.addrUnspent| == CountTxs(all, |all|)
    requires unspentHandler.insertOffset == CountTxs(all, i) + CountSlots(e, n)
    requires Collected(unspentHandler.Pushed(), all, l, addrHandler.addrs, i, n, 0)
    requires addrHandler.Valid()
    requires forall a :: a in e.outputs.slots[n].out.addrs ==> a in addrHandler.addrs
    modifies unspentHandler
    ensures ok && |unspentHandler.addrUnspent| == |old(unspentHandler.addrUnspent)|
    ensures unspentHandler.insertOffset == CountTxs(all, i) + CountSlots(e, n + 1)
    ensures unspentHandler.insertOffset <= |unspentHandler.addrUnspent|
    ensures Collected(unspentHandler.Pushed(), all, l, addrHandler.addrs, i, n + 1, 0)
  {
    hide Collected, Shows, CountTxs, CountSlots;
    var out := e.outputs.slots[n].out;
    ghost var addrs := addrHandler.addrs;
    for j := 0 to |out.addrs|
      invariant |unspentHandler.addrUnspent| == CountTxs(all, |all|)
      invariant unspentHandler.insertOffset == CountTxs(all, i) + CountSlots(e, n) + j
      invariant unspentHandler.insertOffset <= |unspentHandler.addrUnspent|
      invariant Collected(unspentHandler.Pushed(), all, l, addrs, i, n, j)
    {
      RoomLeft(all, i, n, j);
      var offset;
      ok, offset := addrHandler.Find(out.addrs[j]);
      if !ok {
        return;
      }
      var x := UnspentItem(offset, e.height, out.value, n, j, e.hash);
      ShownFits(e, l, addrs, x);
      CollectOne(unspentHandler.Pushed(), all, l, addrs, i, n, j, x);
      ok := unspentHandler.Push(x);
      if !ok {
        return;
      }
    }
    SlotDone(unspentHandler.Pushed(), all, l, addrs, i, n);
    NextSlot(all, i, n);
    ok := true;
  }

  lemma NextSlot(all: seq<TxInfo>, i: nat, n: nat)
    requires i < |all| && n < SlotCount(all[i])
    ensures CountSlots(all[i], n + 1) == CountSlots(all[i], n) + Width(all[i], n)
    ensures CountTxs(all, i) + CountSlots(all[i], n + 1) <= CountTxs(all, |all|)
  {
    CountSlotsGrows(all[i], n + 1, SlotCount(all[i]));
    CountTxsGrows(all, i + 1, |all|);
  }

  lemma ShownFits(e: TxInfo, l: Ledger, addrs: seq<Addr>, x: UnspentItem)
    requires Shows(e, l) && HeldAt(e, x.position) && x.hash == e.hash && x.height == e.height
    requires x.value == e.outputs.slots[x.position].out.value
    requires x.position2 < |e.outputs.slots[x.position].out.addrs|
    requires x.addrOffset < |addrs| && addrs[x.addrOffset] == e.outputs.slots[x.position].out.addrs[x.position2]
    ensures Fits(x, l, addrs)
  {
    assert StillUnspent(l, Outpoint(e.hash, x.position));
  }

  // The unspent outputs of one transaction.
  method CollectTx(unspentHandler: AddrUnspentHandler, addrHandler: AddrHandler, e: TxInfo,
                   ghost all: seq<TxInfo>, ghost i: nat, ghost l: Ledger)
    returns (ok: bool)
    requires i < |all| && e == all[i] && Shows(e, l) && DistinctHashes(all) && e.outputs.Outputs?
    requires unspentHandler.insertOffset <= |unspentHandler.addrUnspent| == CountTxs(all, |all|)
    requires unspentHandler.insertOffset == CountTxs(all, i)
    requires Collected(unspentHandler.Pushed(), all, l, addrHandler.addrs, i, 0, 0)
    requires addrHandler.Valid()
    requires forall h, a :: h in l.confirmed && Touches(h.tx, a) ==> a in addrHandler.addrs
    modifies unspentHandler
    ensures ok && |unspentHandler.addrUnspent| == |old(unspentHandler.addrUnspent)|
    ensures unspentHandler.insertOffset == CountTxs(all, i + 1) <= |unspentHandler.addrUnspent|
    ensures Collected(unspentHandler.Pushed(), all, l, addrHandler.addrs, i + 1, 0, 0)
  {
    hide Collected, Shows, CountTxs, CountSlots;
    ghost var addrs := addrHandler.addrs;
    CountsStart(all, i);
    for n := 0 to |e.outputs.slots|
      invariant |unspentHandler.addrUnspent| == CountTxs(all, |all|)
      invariant unspentHandler.insertOffset == CountTxs(all, i) + CountSlots(e, n)
      invariant unspentHandler.insertOffset <= |unspentHandler.addrUnspent|
      invariant Collected(unspentHandler.Pushed(), all, l, addrs, i, n, 0)
    {
      if e.outputs.slots[n].Freed? {
        SlotDone(unspentHandler.Pushed(), all, l, addrs, i, n);
        NextSlot(all, i, n);
        continue;
      }
      ShownAddresses(e, l, n, addrs);
      ok := CollectOutput(unspentHandler, addrHandler, e, n, all, i, l);
      if !ok {
        return;
      }
    }
    TxDone(unspentHandler.Pushed(), all, l, addrs, i);
    ok := true;
  }

  lemma CountsStart(all: seq<TxInfo>, i: nat)
    requires i < |all|
    ensures CountSlots(all[i], 0) == 0
    ensures CountTxs(all, i + 1) == CountTxs(all, i) + CountSlots(all[i], SlotCount(all[i]))
  {
  }

  lemma ShownAddresses(e: TxInfo, l: Ledger, n: nat, addrs: seq<Addr>)
    requires Shows(e, l) && HeldAt(e, n)
    requires forall h, a :: h in l.confirmed && Touches(h.tx, a) ==> a in addrs
    ensures forall a :: a in e.outputs.slots[n].out.addrs ==> a in addrs
  {
    var o := Outpoint(e.hash, n);
    assert StillUnspent(l, o);
    forall a | a in e.outputs.slots[n].out.addrs ensures a in addrs {
      assert Pays(e.hash.tx.vout[n], a);
      assert Touches(e.hash.tx, a);
    }
  }

  // All that is left in the slots; the slots are given up on the way.
  method CollectAll(txHandler: TxHandler, addrHandler: AddrHandler, unspentHandler: AddrUnspentHandler,
                    ghost l: Ledger)
    returns (ok: bool)
    requires txHandler.Agrees(l, {}) && addrHandler.Valid()
    requires forall h, a :: h in l.confirmed && Touches(h.tx, a) ==> a in addrHandler.addrs
    requires |unspentHandler.addrUnspent| == CountTxs(txHandler.txInfo, |txHandler.txInfo|)
    requires unspentHandler.insertOffset == 0
    modifies txHandler, unspentHandler
    ensures ok && unspentHandler.insertOffset == |unspentHandler.addrUnspent|
    ensures Complete(unspentHandler.addrUnspent, l, addrHandler.addrs)
    ensures forall i :: 0 <= i < |txHandler.txInfo| ==> txHandler.txInfo[i].outputs.NoOutputs?
  {
    hide Collected, Shows, CountTxs, CountSlots, Complete, TxHandler.Agrees, Touches, DistinctHashes;
    ghost var all, addrs := txHandler.txInfo, addrHandler.addrs;
    AgreesShows(txHandler, l);
    NothingCollected(all, l, addrs);
    for i := 0 to |txHandler.txInfo|
      invariant |txHandler.txInfo| == |all| && forall k :: i <= k < |all| ==> txHandler.txInfo[k] == all[k]
      invariant forall k :: 0 <= k < i ==> txHandler.txInfo[k].outputs.NoOutputs?
      invariant |unspentHandler.addrUnspent| == CountTxs(all, |all|)
      invariant unspentHandler.insertOffset == CountTxs(all, i) <= |unspentHandler.addrUnspent|
      invariant Collected(unspentHandler.Pushed(), all, l, addrs, i, 0, 0)
    {
      var e := txHandler.txInfo[i];
      CountsStart(all, i);
      if e.outputs.NoOutputs? {
        TxDone(unspentHandler.Pushed(), all, l, addrs, i);
        continue;
      }
      ok := CollectTx(unspentHandler, addrHandler, e, all, i, l);
      if !ok {
        return;
      }
      ok := txHandler.DelOutputAll(i);
      if !ok {
        return;
      }
    }
    AllDone(unspentHandler.Pushed(), all, l, addrs);
    assert unspentHandler.Pushed() == unspentHandler.addrUnspent;
    ok := true;
  }

  lemma NothingCollected(all: seq<TxInfo>, l: Ledger, addrs: seq<Addr>)
    ensures Collected([], all, l, addrs, 0, 0, 0)
    ensures CountTxs(all, 0) == 0
  {
  }

  lemma AgreesShows(txHandler: TxHandler, l: Ledger)
    requires txHandler.Agrees(l, {})
    ensures DistinctHashes(txHandler.txInfo)
    ensures forall i :: 0 <= i < |txHandler.txInfo| ==> Shows(txHandler.txInfo[i], l)
    ensures forall h :: h in l.confirmed ==> exists i :: 0 <= i < |txHandler.txInfo| && txHandler.txInfo[i].hash == h
  {
    var all := txHandler.txInfo;
    forall i, n: nat | 0 <= i < |all|
      ensures HeldAt(all[i], n) <==> StillUnspent(l, Outpoint(all[i].hash, n))
    {
      var o := Outpoint(all[i].hash, n);
      assert txHandler.Holding(o) <==> StillUnspent(l, o);
    }
    forall h | h in l.confirmed ensures exists i :: 0 <= i < |all| && all[i].hash == h {
      assert txHandler.Listed(h);
    }
  }

  // The unspent list of every address: its unspent outputs, in the order of heights.
  method DumpUnspentOutputToFile(txHandler: TxHandler, addrHandler: AddrHandler, kv: KvStore, ghost l: Ledger)
    returns (ok: bool)
    requires txHandler.Agrees(l, {}) && addrHandler.Valid() && Consistent(l) && l.pool == {}
    requires forall h, a :: h in l.confirmed && Touches(h.tx, a) ==> a in addrHandler.addrs
    requires forall i :: 0 <= i < |l.heights| ==> l.heights[i] < 0x1_0000_0000
    requires forall i :: 0 <= i < |addrHandler.addrs| ==> addrHandler.addrInfo[i].unspentTxCount == 0
    requires forall a :: kv.UnspentsOf(a) == NEW_ADDR_UNSPENTS
    modifies txHandler, addrHandler, kv`addrUnspents
    ensures ok && addrHandler.Valid()
    ensures forall p: nat :: p < |addrHandler.addrs| ==>
      var u := View(addrHandler.addrInfo[p], kv.UnspentsOf(addrHandler.addrs[p]));
      && UnspentsAgree(u, addrHandler.addrs[p], l) && InOrder(u, l)
      && SameButCount(addrHandler.addrInfo[p], old(addrHandler.addrInfo)[p])
    ensures forall a :: a !in addrHandler.addrs ==> kv.UnspentsOf(a) == NEW_ADDR_UNSPENTS
  {
    hide CountTxs, Complete, Fits, TxHandler.Agrees, Touches, Lists, UnspentsAgree, InOrder;
    var unspentCount := CountUnspents(txHandler.txInfo);
    var unspentHandler := new AddrUnspentHandler(unspentCount);
    ok := CollectAll(txHandler, addrHandler, unspentHandler, l);
    if !ok {
      return;
    }
    var sorted := SortBy(unspentHandler.addrUnspent, SortKey);
    SortedIsComplete(unspentHandler.addrUnspent, sorted, l, addrHandler.addrs);
    unspentHandler.addrUnspent := sorted;
    unspentHandler.Dump2kvdb(addrHandler, kv, l);
    forall p: nat | p < |addrHandler.addrs|
      ensures var u := View(addrHandler.addrInfo[p], kv.UnspentsOf(addrHandler.addrs[p]));
        UnspentsAgree(u, addrHandler.addrs[p], l) && InOrder(u, l)
    {
      var u := View(addrHandler.addrInfo[p], kv.UnspentsOf(addrHandler.addrs[p]));
      ListsAgree(u, p, sorted, l, addrHandler.addrs);
    }
  }
}
