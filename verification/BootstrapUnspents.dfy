/** The bootstrap loader's unspent lists: what is left in the slots, sorted by address
 and height, then numbered per address. */
module BootstrapUnspents {
  import opened Transactions
  import opened Ledgers
  import opened AddressUnspents
  import opened BootstrapTxs
  import opened BootstrapAddrs

  datatype UnspentItem = UnspentItem(addrOffset: nat, height: int, value: int,
                                     position: nat, position2: nat, hash: Hash)

  // Heights are 32-bit and not negative here.
  function SortKey(x: UnspentItem): int {
    x.addrOffset * 0x1_0000_0000 + x.height
  }

  function PointOfItem(x: UnspentItem): Outpoint {
    Outpoint(x.hash, x.position)
  }

  // The item stands for one address of one unspent output.
  ghost predicate Fits(x: UnspentItem, l: Ledger, addrs: seq<Addr>) {
    && |l.confirmed| == |l.heights|
    && StillUnspent(l, PointOfItem(x))
    && x.height == HeightOf(l, x.hash)
    && x.value == PrevOut(PointOfItem(x)).value
    && x.position2 < |PrevOut(PointOfItem(x)).addrs|
    && x.addrOffset < |addrs| && addrs[x.addrOffset] == PrevOut(PointOfItem(x)).addrs[x.position2]
  }

  // Every such item, once.
  ghost predicate Complete(items: seq<UnspentItem>, l: Ledger, addrs: seq<Addr>) {
    NoDup(items) && forall x :: x in items <==> Fits(x, l, addrs)
  }

  lemma SortedIsComplete(s: seq<UnspentItem>, r: seq<UnspentItem>, l: Ledger, addrs: seq<Addr>)
    requires Complete(s, l, addrs) && multiset(r) == multiset(s)
    ensures Complete(r, l, addrs)
  {
    CountNoDup(s);
    NoDupCount(r);
    assert forall x :: x in r <==> x in multiset(r);
    assert forall x :: x in s <==> x in multiset(s);
  }

  // ---------- Numbering ----------

  ghost predicate Mentions(items: seq<UnspentItem>, p: nat, o: Outpoint) {
    exists x :: x in items && x.addrOffset == p && PointOfItem(x) == o
  }

  // The indexes run from 0 without a gap, and the counters of 20_ say how many there are.
  ghost predicate Dense(u: AddrUnspents) {
    && u.unspentTxCount == |u.entryIdx.Keys| && u.unspentTxIndex == u.unspentTxCount - 1
    && forall i :: i in u.entries <==> 0 <= i < u.unspentTxCount
  }

  lemma InsertKeepsDense(u: AddrUnspents, o: Outpoint, j: nat, value: int)
    requires Dense(u) && o !in u.entryIdx
    ensures Dense(Inserted(u, o, j, value))
  {
    InsertKeepsDrift(u, o, j, value);
  }

  // The list of an address is dense, and in the order of the heights.
  ghost predicate InOrder(u: AddrUnspents, l: Ledger)
    requires |l.confirmed| == |l.heights|
  {
    Dense(u) && ByHeight(u, l)
  }

  ghost predicate ByHeight(u: AddrUnspents, l: Ledger)
    requires |l.confirmed| == |l.heights|
  {
    && (forall i :: i in u.entries ==> u.entries[i].txHash in l.confirmed)
    && forall i, j :: i in u.entries && j in u.entries && i < j ==>
      HeightOf(l, u.entries[i].txHash) <= HeightOf(l, u.entries[j].txHash)
  }

  // The list of address number p holds what `items` say.
  ghost predicate Lists(u: AddrUnspents, a: Addr, p: nat, items: seq<UnspentItem>, l: Ledger) {
    && |l.confirmed| == |l.heights|
    && Inverse(u, a) && InOrder(u, l)
    && forall o :: o in u.entryIdx <==> Mentions(items, p, o)
  }

  lemma MentionsSnoc(items: seq<UnspentItem>, x: UnspentItem, p: nat, o: Outpoint)
    ensures Mentions(items + [x], p, o) <==> Mentions(items, p, o) || (x.addrOffset == p && PointOfItem(x) == o)
  {
    if Mentions(items, p, o) {
      var y :| y in items && y.addrOffset == p && PointOfItem(y) == o;
      assert y in items + [x];
    }
    assert x in items + [x];
  }

  lemma OtherItem(u: AddrUnspents, a: Addr, p: nat, items: seq<UnspentItem>, x: UnspentItem, l: Ledger)
    requires Lists(u, a, p, items, l) && x.addrOffset != p
    ensures Lists(u, a, p, items + [x], l)
  {
    forall o ensures Mentions(items + [x], p, o) <==> Mentions(items, p, o) {
      MentionsSnoc(items, x, p, o);
    }
  }

  // An output names an address once.
  lemma SameItem(x: UnspentItem, y: UnspentItem, l: Ledger, addrs: seq<Addr>)
    requires Consistent(l) && Fits(x, l, addrs) && Fits(y, l, addrs)
    ensures x.addrOffset == y.addrOffset && PointOfItem(x) == PointOfItem(y) ==> x == y
  {
    assert Live(l, x.hash) && WellFormed(x.hash.tx);
    assert NoDup(x.hash.tx.vout[x.position].addrs);
  }

  // So no two items give the same address the same outpoint.
  lemma ItemIsNew(items: seq<UnspentItem>, x: UnspentItem, l: Ledger, addrs: seq<Addr>)
    requires Consistent(l) && Fits(x, l, addrs) && x !in items
    requires forall y :: y in items ==> Fits(y, l, addrs)
    ensures !Mentions(items, x.addrOffset, PointOfItem(x))
  {
    forall y | y in items
      ensures x.addrOffset == y.addrOffset && PointOfItem(x) == PointOfItem(y) ==> x == y
    {
      SameItem(x, y, l, addrs);
    }
  }

  // What an address has already is not higher than the next item.
  lemma ListedIsLower(u: AddrUnspents, a: Addr, items: seq<UnspentItem>, x: UnspentItem, l: Ledger, addrs: seq<Addr>)
    requires |l.confirmed| == |l.heights| && Inverse(u, a)
    requires forall o :: o in u.entryIdx ==> Mentions(items, x.addrOffset, o)
    requires forall y :: y in items ==> Fits(y, l, addrs)
    requires forall y :: y in items && y.addrOffset == x.addrOffset ==> y.height <= x.height
    ensures forall i :: i in u.entries ==>
      u.entries[i].txHash in l.confirmed && HeightOf(l, u.entries[i].txHash) <= x.height
  {
    forall i | i in u.entries
      ensures u.entries[i].txHash in l.confirmed && HeightOf(l, u.entries[i].txHash) <= x.height
    {
      var q := PointOf(u.entries[i]);
      assert q in u.entryIdx && Mentions(items, x.addrOffset, q);
    }
  }

  lemma InsertKeepsHeights(u: AddrUnspents, a: Addr, x: UnspentItem, l: Ledger, addrs: seq<Addr>)
    requires Inverse(u, a) && Fits(x, l, addrs) && ByHeight(u, l)
    requires forall i :: i in u.entries ==>
      u.entries[i].txHash in l.confirmed && HeightOf(l, u.entries[i].txHash) <= x.height
    ensures ByHeight(Inserted(u, PointOfItem(x), x.position2, x.value), l)
  {
  }

  lemma AddItem(u: AddrUnspents, items: seq<UnspentItem>, x: UnspentItem, l: Ledger, addrs: seq<Addr>)
    requires Consistent(l) && Fits(x, l, addrs) && x !in items
    requires forall y :: y in items ==> Fits(y, l, addrs)
    requires forall y :: y in items && y.addrOffset == x.addrOffset ==> y.height <= x.height
    requires Lists(u, addrs[x.addrOffset], x.addrOffset, items, l)
    ensures Lists(Inserted(u, PointOfItem(x), x.position2, x.value), addrs[x.addrOffset], x.addrOffset, items + [x], l)
  {
    hide Dense, ByHeight, Inverse, Mentions, Consistent, HeightOf, Drift, Holdings;
    var a, p, o := addrs[x.addrOffset], x.addrOffset, PointOfItem(x);
    var v := Inserted(u, o, x.position2, x.value);
    ItemIsNew(items, x, l, addrs);
    ListedIsLower(u, a, items, x, l, addrs);
    InsertKeepsInverse(u, a, o, x.position2);
    InsertKeepsDense(u, o, x.position2, x.value);
    InsertKeepsHeights(u, a, x, l, addrs);
    forall q ensures Mentions(items + [x], p, q) <==> q in v.entryIdx {
      MentionsSnoc(items, x, p, q);
    }
  }

  lemma ListsAgree(u: AddrUnspents, p: nat, items: seq<UnspentItem>, l: Ledger, addrs: seq<Addr>)
    requires Complete(items, l, addrs) && l.pool == {} && p < |addrs|
    requires forall i, j :: 0 <= i < j < |addrs| ==> addrs[i] < addrs[j]
    requires Lists(u, addrs[p], p, items, l)
    ensures UnspentsAgree(u, addrs[p], l) && InOrder(u, l)
  {
    forall o ensures Mentions(items, p, o) <==> Holds(l, addrs[p], o) {
      if Holds(l, addrs[p], o) {
        var j :| 0 <= j < |PrevOut(o).addrs| && PrevOut(o).addrs[j] == addrs[p];
        var x := UnspentItem(p, HeightOf(l, o.hash), PrevOut(o).value, o.n, j, o.hash);
        assert Fits(x, l, addrs) && PointOfItem(x) == o;
      }
    }
  }

  class AddrUnspentHandler {
    var addrUnspent: seq<UnspentItem>
    var insertOffset: nat

    constructor (size: nat)
      ensures |addrUnspent| == size && insertOffset == 0
    {
      addrUnspent := seq(size, _ => UnspentItem(0, 0, 0, 0, 0, NO_HASH));
      insertOffset := 0;
    }

    ghost function Pushed(): seq<UnspentItem>
      reads this
      requires insertOffset <= |addrUnspent|
    {
      addrUnspent[..insertOffset]
    }

    // ok is false where the original asserts that there is room.
    method Push(x: UnspentItem) returns (ok: bool)
      requires insertOffset <= |addrUnspent|
      modifies this
      ensures ok <==> old(insertOffset) < |old(addrUnspent)|
      ensures |addrUnspent| == |old(addrUnspent)| && insertOffset <= |addrUnspent|
      ensures ok ==> Pushed() == old(Pushed()) + [x]
    {
      ok := insertOffset < |addrUnspent|;
      if ok {
        addrUnspent, insertOffset := addrUnspent[insertOffset := x], insertOffset + 1;
      }
    }

    // Numbers the items of each address and writes 23_ and 24_.
    method Dump2kvdb(addrHandler: AddrHandler, kv: KvStore, ghost l: Ledger)
      requires addrHandler.Valid() && Consistent(l)
      requires SortedBy(addrUnspent, SortKey) && Complete(addrUnspent, l, addrHandler.addrs)
      requires forall i :: 0 <= i < |l.heights| ==> l.heights[i] < 0x1_0000_0000
      requires forall p :: 0 <= p < |addrHandler.addrs| ==>
        addrHandler.addrInfo[p].unspentTxCount == 0 && kv.UnspentsOf(addrHandler.addrs[p]) == NEW_ADDR_UNSPENTS
      modifies addrHandler, kv`addrUnspents
      ensures addrHandler.Valid()
      ensures forall p: nat :: p < |addrHandler.addrs| ==>
        && Lists(View(addrHandler.addrInfo[p], kv.UnspentsOf(addrHandler.addrs[p])),
                 addrHandler.addrs[p], p, addrUnspent, l)
        && SameButCount(addrHandler.addrInfo[p], old(addrHandler.addrInfo)[p])
      ensures forall a :: a !in addrHandler.addrs ==> kv.UnspentsOf(a) == old(kv.UnspentsOf(a))
    {
      hide Lists, Fits;
      ghost var addrs := addrHandler.addrs;
      forall p: nat | p < |addrs| ensures Lists(NEW_ADDR_UNSPENTS, addrs[p], p, addrUnspent[..0], l) {
        NothingListed(addrs[p], p, l);
      }
      for k := 0 to |addrUnspent|
        invariant addrHandler.Valid()
        invariant forall p: nat :: p < |addrs| ==>
          && Lists(View(addrHandler.addrInfo[p], kv.UnspentsOf(addrs[p])), addrs[p], p, addrUnspent[..k], l)
          && SameButCount(addrHandler.addrInfo[p], old(addrHandler.addrInfo)[p])
        invariant forall a :: a !in addrs ==> kv.UnspentsOf(a) == old(kv.UnspentsOf(a))
      {
        ghost var items := addrUnspent[..k];
        var x := addrUnspent[k];
        assert addrUnspent[..k + 1] == items + [x];
        ItemsSoFar(addrUnspent, k, l, addrs);
        forall p: nat | p < |addrs| && p != x.addrOffset
          ensures Lists(View(addrHandler.addrInfo[p], kv.UnspentsOf(addrs[p])), addrs[p], p, items + [x], l) {
          OtherItem(View(addrHandler.addrInfo[p], kv.UnspentsOf(addrs[p])), addrs[p], p, items, x, l);
        }
        AddItem(View(addrHandler.addrInfo[x.addrOffset], kv.UnspentsOf(addrs[x.addrOffset])), items, x, l, addrs);
        WriteItem(x, addrHandler, kv);
      }
      assert addrUnspent[..|addrUnspent|] == addrUnspent;
    }
  }

  // Only the number of unspent outputs may differ.
  ghost predicate SameButCount(e: AddrInfo, f: AddrInfo) {
    e == f.(unspentTxCount := e.unspentTxCount)
  }

  lemma NothingListed(a: Addr, p: nat, l: Ledger)
    requires |l.confirmed| == |l.heights|
    ensures Lists(NEW_ADDR_UNSPENTS, a, p, [], l)
  {
  }

  lemma ItemsSoFar(all: seq<UnspentItem>, k: nat, l: Ledger, addrs: seq<Addr>)
    requires SortedBy(all, SortKey) && Complete(all, l, addrs) && k < |all| && |l.confirmed| == |l.heights|
    requires forall i :: 0 <= i < |l.heights| ==> l.heights[i] < 0x1_0000_0000
    ensures Fits(all[k], l, addrs) && all[k].addrOffset < |addrs| && all[k] !in all[..k]
    ensures forall y :: y in all[..k] ==> Fits(y, l, addrs)
    ensures forall y :: y in all[..k] && y.addrOffset == all[k].addrOffset ==> y.height <= all[k].height
  {
    assert all[k] in all;
    forall y | y in all[..k] ensures y in all && SortKey(y) <= SortKey(all[k]) {
      var i :| 0 <= i < k && all[..k][i] == y;
      assert all[i] == y;
    }
  }

  // One more unspent output of one address.
  method WriteItem(x: UnspentItem, addrHandler: AddrHandler, kv: KvStore)
    requires addrHandler.Valid() && x.addrOffset < |addrHandler.addrs|
    modifies addrHandler, kv`addrUnspents
    ensures addrHandler.Valid()
    ensures var p, a := x.addrOffset, addrHandler.addrs[x.addrOffset];
      && SameButCount(addrHandler.addrInfo[p], old(addrHandler.addrInfo)[p])
      && View(addrHandler.addrInfo[p], kv.UnspentsOf(a))
        == Inserted(old(View(addrHandler.addrInfo[p], kv.UnspentsOf(a))), PointOfItem(x), x.position2, x.value)
      && forall b :: b != a ==> kv.UnspentsOf(b) == old(kv.UnspentsOf(b))
    ensures forall q :: 0 <= q < |addrHandler.addrs| && q != x.addrOffset ==>
      addrHandler.addrInfo[q] == old(addrHandler.addrInfo)[q]
  {
    var e := addrHandler.addrInfo[x.addrOffset];
    e := e.(unspentTxCount := e.unspentTxCount + 1);
    addrHandler.addrInfo := addrHandler.addrInfo[x.addrOffset := e];
    var a, addressUnspentIndex := addrHandler.addrs[x.addrOffset], e.unspentTxCount - 1;
    var u := kv.UnspentsOf(a);
    kv.addrUnspents := kv.addrUnspents[a := u.(
      entries := u.entries[addressUnspentIndex := Unspent.Unspent(x.hash, x.position, x.position2, x.value)],
      entryIdx := u.entryIdx[PointOfItem(x) := addressUnspentIndex])];
  }
}
