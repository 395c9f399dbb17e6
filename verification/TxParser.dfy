/** The consumer of the log: keeps the key-value indexes of transactions and addresses. */
module TxParser {
  import opened Transactions
  import opened Ledgers
  import opened AddressTxs
  import opened AddressUnspents
  import opened TxStore
  import opened AddressOrder

  // A balance map is right for the first i inputs and the first n outputs of `t`.
  ghost predicate Tally(balance: map<Addr, int>, t: Tx, i: nat, n: nat)
    requires i <= |t.vin| && n <= |t.vout|
  {
    forall a :: (a in balance <==> TakenBy(t, i, a) || PaidBy(t, n, a))
      && (a in balance ==> balance[a] == OutSum(t, n, a) - InSum(t, i, a))
  }

  // The outputs that `t` spends, read back from the store.
  ghost predicate PrevOutputs(t: Tx, outs: seq<TxOut>) {
    && |outs| == |t.vin|
    && forall i :: 0 <= i < |t.vin| ==> outs[i] == PrevOut(t.vin[i]) && NoDup(outs[i].addrs)
  }

  function Get(balance: map<Addr, int>, a: Addr): int {
    if a in balance then balance[a] else 0
  }

  // balance[addr] += v for every address of the output.
  method AddShares(balance: map<Addr, int>, addrs: seq<Addr>, v: int) returns (b: map<Addr, int>)
    requires NoDup(addrs)
    ensures forall a :: a in b <==> a in balance || a in addrs
    ensures forall a :: a in b ==> b[a] == Get(balance, a) + if a in addrs then v else 0
  {
    b := balance;
    for j := 0 to |addrs|
      invariant forall a :: a in b <==> a in balance || a in addrs[..j]
      invariant forall a :: a in b ==> b[a] == Get(balance, a) + if a in addrs[..j] then v else 0
    {
      assert addrs[..j + 1] == addrs[..j] + [addrs[j]];
      assert addrs[j] !in addrs[..j];
      b := b[addrs[j] := Get(b, addrs[j]) + v];
    }
    assert addrs[..|addrs|] == addrs;
  }

  lemma TallyOutput(balance: map<Addr, int>, b: map<Addr, int>, t: Tx, i: nat, n: nat)
    requires i <= |t.vin| && n < |t.vout| && Tally(balance, t, i, n)
    requires forall a :: a in b <==> a in balance || a in t.vout[n].addrs
    requires forall a :: a in b ==> b[a] == Get(balance, a) + Share(t.vout[n], a)
    ensures Tally(b, t, i, n + 1)
  {
    forall a ensures (a in b <==> TakenBy(t, i, a) || PaidBy(t, n + 1, a))
      && (a in b ==> b[a] == OutSum(t, n + 1, a) - InSum(t, i, a)) {
      assert PaidBy(t, n + 1, a) <==> PaidBy(t, n, a) || Pays(t.vout[n], a);
      if a !in balance {
        NotPaidIsZero(t, n, a);
        NotTakenIsZero(t, i, a);
      }
    }
  }

  lemma TallyInput(balance: map<Addr, int>, b: map<Addr, int>, t: Tx, i: nat, n: nat)
    requires i < |t.vin| && n <= |t.vout| && Tally(balance, t, i, n)
    requires forall a :: a in b <==> a in balance || a in PrevOut(t.vin[i]).addrs
    requires forall a :: a in b ==> b[a] == Get(balance, a) - Share(PrevOut(t.vin[i]), a)
    ensures Tally(b, t, i + 1, n)
  {
    forall a ensures (a in b <==> TakenBy(t, i + 1, a) || PaidBy(t, n, a))
      && (a in b ==> b[a] == OutSum(t, n, a) - InSum(t, i + 1, a)) {
      assert TakenBy(t, i + 1, a) <==> TakenBy(t, i, a) || Pays(PrevOut(t.vin[i]), a);
      if a !in balance {
        NotPaidIsZero(t, n, a);
        NotTakenIsZero(t, i, a);
      }
    }
  }

  lemma NothingTallied(tx: Tx)
    ensures Tally(map[], tx, 0, 0)
  {
  }

  // The balance differences of `t`, for exactly the addresses it touches.
  ghost predicate Balances(balance: map<Addr, int>, t: Tx) {
    && (forall a :: a in balance <==> Touches(t, a))
    && (forall a :: a in balance ==> balance[a] == Diff(t, a))
  }

  lemma TallyComplete(balance: map<Addr, int>, t: Tx)
    requires Tally(balance, t, |t.vin|, |t.vout|)
    ensures Balances(balance, t)
  {
  }

  lemma UntouchedMovesNothing(t: Tx, a: Addr)
    requires !Touches(t, a)
    ensures Diff(t, a) == 0
  {
    NotPaidIsZero(t, |t.vout|, a);
    NotTakenIsZero(t, |t.vin|, a);
  }

  lemma PrevOutputsRead(t: Tx, outs: seq<TxOut>)
    requires |outs| == |t.vin|
    requires forall i :: 0 <= i < |t.vin| ==> outs[i] == PrevOut(t.vin[i]) && NoDup(PrevOut(t.vin[i]).addrs)
    ensures PrevOutputs(t, outs)
  {
  }

  lemma NothingStored()
    ensures Consistent(EMPTY_LEDGER) && ObjectsAgree(map[], EMPTY_LEDGER) && SpendsAgree(map[], EMPTY_LEDGER)
    ensures forall a :: TxsAgree(NEW_ADDR_TXS, a, EMPTY_LEDGER)
    ensures forall a :: Inverse(NEW_ADDR_UNSPENTS, a) && UnspentsAgree(NEW_ADDR_UNSPENTS, a, EMPTY_LEDGER)
    ensures Net(NEW_ADDR_TXS) == Holdings(NEW_ADDR_UNSPENTS)
  {
    forall a ensures TxsAgree(NEW_ADDR_TXS, a, EMPTY_LEDGER) {
      assert Covers(NEW_ADDR_TXS, a, [], EMPTY_LEDGER);
    }
  }

  function TxsIn(txs: map<Addr, AddrTxs>, a: Addr): AddrTxs {
    if a in txs then txs[a] else NEW_ADDR_TXS
  }

  function UnspentsIn(unspents: map<Addr, AddrUnspents>, a: Addr): AddrUnspents {
    if a in unspents then unspents[a] else NEW_ADDR_UNSPENTS
  }

  // Unspent records at `a` that a row deletes without counting them off.
  function DroppedBy(e: Event, a: Addr): nat {
    if e.Reject? then PayCount(e.hash.tx, |e.hash.tx.vout|, a) else 0
  }

  // The outpoints to which a row gives new unspent records at `a`, in this order: its
  // outputs when a transaction is accepted, what it had spent when it is rejected.
  function IssuedBy(e: Event, a: Addr): seq<Outpoint> {
    match e
    case Accept(h) => PaidInOrder(h, |h.tx.vout|, a)
    case Reject(h) => TakenInOrder(h.tx, |h.tx.vin|, a)
    case _ => []
  }

  function Issued(log: seq<Event>, a: Addr): nat
    decreases |log|
  {
    if log == [] then 0 else Issued(Front(log), a) + |IssuedBy(Last(log), a)|
  }

  function Dropped(log: seq<Event>, a: Addr): nat
    decreases |log|
  {
    if log == [] then 0 else Dropped(Front(log), a) + DroppedBy(Last(log), a)
  }

  function Accepted(log: seq<Event>): set<Hash>
    decreases |log|
  {
    if log == [] then {}
    else Accepted(Front(log)) + if Last(log).Accept? then {Last(log).hash} else {}
  }

  ghost predicate CountsIn(now: map<Addr, AddrUnspents>, nowKeys: set<Hash>, log: seq<Event>,
                           first: map<Addr, AddrUnspents>, keys: set<Hash>) {
    && (forall a :: Drift(UnspentsIn(now, a)) == Drift(UnspentsIn(first, a)) + Dropped(log, a))
    && (forall a :: UnspentsIn(now, a).unspentTxIndex == UnspentsIn(first, a).unspentTxIndex + Issued(log, a))
    && nowKeys == keys + Accepted(log)
  }

  // The address records and the keys of 01_, at one moment.
  datatype Tables = Tables(txs: map<Addr, AddrTxs>, unspents: map<Addr, AddrUnspents>, keys: set<Hash>)

  const NO_TABLES := Tables(map[], map[], {})

  // The lists agree with the ledger, and are in the order of arrival where they should be.
  ghost predicate ListsHold(txs: map<Addr, AddrTxs>, l: Ledger, log: seq<Event>)
    requires LegalRun(l, log)
  {
    && (forall a :: TxsAgree(TxsIn(txs, a), a, Replay(l, log)))
    && forall a :: TakenInTurn(l, log, a) ==> ArrivalOrder(TxsIn(txs, a).nodeIdx, log)
  }

  // What a run of rows from `first` on has made of the tables.
  ghost predicate SoFar(now: Tables, l: Ledger, log: seq<Event>, first: Tables)
    requires LegalRun(l, log)
  {
    ListsHold(now.txs, l, log) && CountsIn(now.unspents, now.keys, log, first.unspents, first.keys)
  }

  class Parser {
    var txObjects: map<Hash, TxObject>
    var spentBy: map<Outpoint, SpentBy>
    var unconfirmedTxs: set<Hash>             // 03_{tx hash}
    var unconfirmedTxsCount: int              // 90_tparser_unconfirmed_txs_count
    var addrTxs: map<Addr, AddrTxs>
    var addrUnspents: map<Addr, AddrUnspents>

    // An address that was never seen gets a new record.
    function TxsOf(a: Addr): AddrTxs
      reads this`addrTxs
    {
      TxsIn(addrTxs, a)
    }

    function UnspentsOf(a: Addr): AddrUnspents
      reads this`addrUnspents
    {
      UnspentsIn(addrUnspents, a)
    }

    ghost predicate TxsRight(l: Ledger)
      reads this`addrTxs
    {
      forall a :: TxsAgree(TxsOf(a), a, l)
    }

    ghost predicate UnspentsRight(l: Ledger)
      reads this`addrUnspents
    {
      forall a :: UnspentsAgree(UnspentsOf(a), a, l)
    }

    // ---------- Unspent outputs ----------

    ghost predicate AllInverse()
      reads this`addrUnspents
    {
      forall a :: Inverse(UnspentsOf(a), a)
    }

    method StoreUnspents(a: Addr, u: AddrUnspents)
      modifies this`addrUnspents
      ensures UnspentsOf(a) == u && forall b :: b != a ==> UnspentsOf(b) == old(UnspentsOf(b))
    {
      addrUnspents := addrUnspents[a := u];
    }

    // Inserts one unspent record, under an index never used before.
    method InsertAddressUnspent(value: int, a: Addr, o: Outpoint, position2: nat)
      requires Inverse(UnspentsOf(a), a) && o !in UnspentsOf(a).entryIdx
      requires InRange(o) && value == PrevOut(o).value
      requires position2 < |PrevOut(o).addrs| && PrevOut(o).addrs[position2] == a
      modifies this`addrUnspents
      ensures Moved(old(UnspentsOf(a)), UnspentsOf(a), a, {o}, {}, value, 0)
      ensures Numbered(old(UnspentsOf(a)), UnspentsOf(a), [o])
      ensures UnspentsOf(a).entryIdx[o] == UnspentsOf(a).unspentTxIndex == old(UnspentsOf(a)).unspentTxIndex + 1
      ensures forall b :: b != a ==> UnspentsOf(b) == old(UnspentsOf(b))
    {
      InsertKeepsInverse(UnspentsOf(a), a, o, position2);
      InsertIsNumbered(UnspentsOf(a), o, position2, value);
      StoreUnspents(a, Inserted(UnspentsOf(a), o, position2, value));
    }

    // Deletes one unspent record; throws (ok false) when 24_ has none.
    method DeleteAddressUnspent(a: Addr, o: Outpoint, counted: bool) returns (ok: bool)
      requires Inverse(UnspentsOf(a), a)
      modifies this`addrUnspents
      ensures ok <==> o in old(UnspentsOf(a)).entryIdx
      ensures ok ==>
        && Moved(old(UnspentsOf(a)), UnspentsOf(a), a, {}, {o}, -PrevOut(o).value, if counted then 0 else 1)
        && Numbered(old(UnspentsOf(a)), UnspentsOf(a), [])
      ensures forall b :: b != a || !ok ==> UnspentsOf(b) == old(UnspentsOf(b))
    {
      ok := o in UnspentsOf(a).entryIdx;
      if ok {
        DeleteKeepsInverse(UnspentsOf(a), a, o, counted);
        DeleteIsNumbered(UnspentsOf(a), o, counted);
        StoreUnspents(a, Deleted(UnspentsOf(a), o, counted));
      }
    }

    // One record for every address of the output.
    method InsertUnspents(o: Outpoint, addrs: seq<Addr>, value: int)
      requires AllInverse() && InRange(o) && NoDup(addrs)
      requires addrs == PrevOut(o).addrs && value == PrevOut(o).value
      requires forall a :: a in addrs ==> o !in UnspentsOf(a).entryIdx
      modifies this`addrUnspents
      ensures AllInverse()
      ensures forall a :: OneAdded(old(UnspentsOf(a)), UnspentsOf(a), a, o)
    {
      hide Drift, Holdings, Inverse;
      for j := 0 to |addrs|
        invariant AllInverse()
        invariant forall a :: a !in addrs[..j] ==> UnspentsOf(a) == old(UnspentsOf(a))
        invariant forall a :: a in addrs[..j] ==>
          && Moved(old(UnspentsOf(a)), UnspentsOf(a), a, {o}, {}, value, 0)
          && Numbered(old(UnspentsOf(a)), UnspentsOf(a), [o])
      {
        assert addrs[..j + 1] == addrs[..j] + [addrs[j]] && addrs[j] !in addrs[..j];
        InsertAddressUnspent(value, addrs[j], o, j);
      }
      assert addrs[..|addrs|] == addrs;
    }

    method DeleteUnspents(o: Outpoint, addrs: seq<Addr>, counted: bool) returns (ok: bool)
      requires AllInverse() && NoDup(addrs) && addrs == PrevOut(o).addrs
      modifies this`addrUnspents
      ensures ok <==> forall a :: a in addrs ==> o in old(UnspentsOf(a)).entryIdx
      ensures ok ==> AllInverse()
      ensures ok ==> forall a :: OneGone(old(UnspentsOf(a)), UnspentsOf(a), a, o, counted)
    {
      hide Drift, Holdings, Inverse;
      for j := 0 to |addrs|
        invariant AllInverse()
        invariant forall a :: a in addrs[..j] ==> o in old(UnspentsOf(a)).entryIdx
        invariant forall a :: a !in addrs[..j] ==> UnspentsOf(a) == old(UnspentsOf(a))
        invariant forall a :: a in addrs[..j] ==>
          && Moved(old(UnspentsOf(a)), UnspentsOf(a), a, {}, {o}, -PrevOut(o).value, if counted then 0 else 1)
          && Numbered(old(UnspentsOf(a)), UnspentsOf(a), [])
      {
        assert addrs[..j + 1] == addrs[..j] + [addrs[j]] && addrs[j] !in addrs[..j];
        ok := DeleteAddressUnspent(addrs[j], o, counted);
        if !ok {
          return;
        }
      }
      assert addrs[..|addrs|] == addrs;
      ok := true;
    }

    // The outputs of a new transaction: one unspent record each, and their balance.
    method AcceptOutputs(h: Hash, balance: map<Addr, int>) returns (b: map<Addr, int>)
      requires WellFormed(h.tx) && Tally(balance, h.tx, |h.tx.vin|, 0)
      requires AllInverse()
      requires forall n, a :: 0 <= n < |h.tx.vout| ==> Outpoint(h, n) !in UnspentsOf(a).entryIdx
      modifies this`addrUnspents
      ensures Tally(b, h.tx, |h.tx.vin|, |h.tx.vout|) && AllInverse()
      ensures forall a :: OutputsAdded(old(UnspentsOf(a)), UnspentsOf(a), a, h, |h.tx.vout|)
    {
      hide Tally, Inverse, Drift, Holdings;
      var tx := h.tx;
      b := balance;
      for n := 0 to |tx.vout|
        invariant AllInverse() && Tally(b, tx, |tx.vin|, n)
        invariant forall a :: OutputsAdded(old(UnspentsOf(a)), UnspentsOf(a), a, h, n)
      {
        var out, o := tx.vout[n], Outpoint(h, n);
        assert InRange(o) && PrevOut(o) == out;
        ghost var c := b;
        b := AddShares(b, out.addrs, out.value);
        TallyOutput(c, b, tx, |tx.vin|, n);
        forall a ensures o !in UnspentsOf(a).entryIdx {
          PayingOutputsSnoc(h, n, a);
        }
        label Before:
        InsertUnspents(o, out.addrs, out.value);
        forall a ensures OutputsAdded(old(UnspentsOf(a)), UnspentsOf(a), a, h, n + 1) {
          OutputsAddedSnoc(old(UnspentsOf(a)), old@Before(UnspentsOf(a)), UnspentsOf(a), a, h, n);
        }
      }
    }

    // The outputs a new transaction spends lose their unspent records.
    method RemoveUnspentOutputs(tx: Tx, prevTxOutputs: seq<TxOut>) returns (ok: bool)
      requires WellFormed(tx) && AllInverse() && PrevOutputs(tx, prevTxOutputs)
      requires forall i, a :: 0 <= i < |tx.vin| && a in PrevOut(tx.vin[i]).addrs ==> tx.vin[i] in UnspentsOf(a).entryIdx
      modifies this`addrUnspents
      ensures ok && AllInverse()
      ensures forall a :: InputsGone(old(UnspentsOf(a)), UnspentsOf(a), a, tx, |tx.vin|)
    {
      hide Inverse, Drift, Holdings;
      for i := 0 to |tx.vin|
        invariant AllInverse()
        invariant forall a :: InputsGone(old(UnspentsOf(a)), UnspentsOf(a), a, tx, i)
      {
        var o := tx.vin[i];
        forall a | a in PrevOut(o).addrs ensures o in UnspentsOf(a).entryIdx {
          TakenInputsSnoc(tx, i, a);
        }
        label Before:
        ok := DeleteUnspents(o, prevTxOutputs[i].addrs, true);
        if !ok {
          return;
        }
        forall a ensures InputsGone(old(UnspentsOf(a)), UnspentsOf(a), a, tx, i + 1) {
          InputsGoneSnoc(old(UnspentsOf(a)), old@Before(UnspentsOf(a)), UnspentsOf(a), a, tx, i);
        }
      }
      ok := true;
    }

    // The outputs a rejected transaction had spent get their unspent records back.
    method RestoreInputs(tx: Tx, prevTxOutputs: seq<TxOut>) returns (b: map<Addr, int>)
      requires WellFormed(tx) && AllInverse() && PrevOutputs(tx, prevTxOutputs)
      requires forall i, a :: 0 <= i < |tx.vin| ==> tx.vin[i] !in UnspentsOf(a).entryIdx
      modifies this`addrUnspents, this`spentBy
      ensures Tally(b, tx, |tx.vin|, 0) && AllInverse()
      ensures forall a :: InputsAdded(old(UnspentsOf(a)), UnspentsOf(a), a, tx, |tx.vin|)
      ensures spentBy == old(spentBy) - set o | o in tx.vin
    {
      hide Tally, Inverse, NoDup, Drift, Holdings;
      b := map[];
      NothingTallied(tx);
      for i := 0 to |tx.vin|
        invariant AllInverse() && Tally(b, tx, i, 0)
        invariant forall a :: InputsAdded(old(UnspentsOf(a)), UnspentsOf(a), a, tx, i)
        invariant spentBy == old(spentBy) - set o | o in tx.vin[..i]
      {
        var o, out := tx.vin[i], prevTxOutputs[i];
        assert tx.vin[..i + 1] == tx.vin[..i] + [o];
        spentBy := spentBy - {o};
        ghost var c := b;
        b := AddShares(b, out.addrs, -out.value);
        TallyInput(c, b, tx, i, 0);
        forall a ensures o !in UnspentsOf(a).entryIdx {
          TakenInputsSnoc(tx, i, a);
        }
        label Before:
        InsertUnspents(o, out.addrs, out.value);
        forall a ensures InputsAdded(old(UnspentsOf(a)), UnspentsOf(a), a, tx, i + 1) {
          InputsAddedSnoc(old(UnspentsOf(a)), old@Before(UnspentsOf(a)), UnspentsOf(a), a, tx, i);
        }
      }
      assert tx.vin[..|tx.vin|] == tx.vin;
    }

    // The outputs of a rejected transaction lose their unspent records; throws (ok
    // false) when one of them is not unspent.
    method DropOutputs(h: Hash, balance: map<Addr, int>) returns (ok: bool, b: map<Addr, int>)
      requires WellFormed(h.tx) && Tally(balance, h.tx, |h.tx.vin|, 0) && AllInverse()
      requires forall n, a :: 0 <= n < |h.tx.vout| && Pays(h.tx.vout[n], a) ==> Outpoint(h, n) in UnspentsOf(a).entryIdx
      modifies this`addrUnspents
      ensures ok && Tally(b, h.tx, |h.tx.vin|, |h.tx.vout|) && AllInverse()
      ensures forall a :: OutputsGone(old(UnspentsOf(a)), UnspentsOf(a), a, h, |h.tx.vout|)
    {
      hide Tally, Inverse, Drift, Holdings;
      var tx := h.tx;
      b := balance;
      for n := 0 to |tx.vout|
        invariant AllInverse() && Tally(b, tx, |tx.vin|, n)
        invariant forall a :: OutputsGone(old(UnspentsOf(a)), UnspentsOf(a), a, h, n)
      {
        var out, o := tx.vout[n], Outpoint(h, n);
        assert InRange(o) && PrevOut(o) == out;
        ghost var c := b;
        b := AddShares(b, out.addrs, out.value);
        TallyOutput(c, b, tx, |tx.vin|, n);
        forall a | a in out.addrs ensures o in UnspentsOf(a).entryIdx {
          PayingOutputsSnoc(h, n, a);
        }
        label Before:
        ok := DeleteUnspents(o, out.addrs, false);
        if !ok {
          return;
        }
        forall a ensures OutputsGone(old(UnspentsOf(a)), UnspentsOf(a), a, h, n + 1) {
          OutputsGoneSnoc(old(UnspentsOf(a)), old@Before(UnspentsOf(a)), UnspentsOf(a), a, h, n);
        }
      }
      ok := true;
    }

    // ---------- Transaction lists ----------

    method StoreTxs(a: Addr, r: AddrTxs)
      modifies this`addrTxs
      ensures TxsOf(a) == r && forall b :: b != a ==> TxsOf(b) == old(TxsOf(b))
    {
      addrTxs := addrTxs[a := r];
    }

    // Reads 22_ and then 21_; found is false where the original throws.
    method GetAddressTxNode(a: Addr, h: Hash) returns (found: bool, idx: int, node: TxNode)
      ensures found <==> h in TxsOf(a).nodeIdx && TxsOf(a).nodeIdx[h] in TxsOf(a).nodes
      ensures found ==> idx == TxsOf(a).nodeIdx[h] && node == TxsOf(a).nodes[idx]
    {
      idx, node := -1, TxNode(h, -1, 0);
      found := h in TxsOf(a).nodeIdx && TxsOf(a).nodeIdx[h] in TxsOf(a).nodes;
      if found {
        idx := TxsOf(a).nodeIdx[h];
        node := TxsOf(a).nodes[idx];
      }
    }

    // Exchanges two nodes of the list of `a`; throws (ok false) when one is missing.
    method SwitchTxNode(a: Addr, idx1: int, idx2: int) returns (ok: bool)
      modifies this`addrTxs
      ensures ok <==> idx1 in old(TxsOf(a)).nodes && idx2 in old(TxsOf(a)).nodes
      ensures ok ==> TxsOf(a) == Switched(old(TxsOf(a)), idx1, idx2)
      ensures forall b :: b != a || !ok ==> TxsOf(b) == old(TxsOf(b))
    {
      ok := idx1 in TxsOf(a).nodes && idx2 in TxsOf(a).nodes;
      if ok {
        StoreTxs(a, Switched(TxsOf(a), idx1, idx2));
      }
    }

    // Brings the node of `h`, which is unconfirmed, to `target` among the unconfirmed
    // ones.  The loop of the original: it switches at most once.
    method MoveNode(a: Addr, h: Hash, target: int, ghost l: Ledger) returns (ok: bool, ghost switches: nat)
      requires TxsAgree(TxsOf(a), a, l) && h in l.pool && Touches(h.tx, a)
      requires TxsOf(a).lastConfirmedTxIdx < target < TxsOf(a).txCount
      modifies this`addrTxs
      ensures ok && switches <= 1
      ensures TxsAgree(TxsOf(a), a, l) && h in TxsOf(a).nodeIdx && TxsOf(a).nodeIdx[h] == target
      ensures h in old(TxsOf(a)).nodeIdx && Exchanged(old(TxsOf(a)).nodeIdx, TxsOf(a).nodeIdx, h, target)
      ensures Net(TxsOf(a)) == old(Net(TxsOf(a)))
      ensures TxsOf(a).txCount == old(TxsOf(a)).txCount
      ensures TxsOf(a).lastConfirmedTxIdx == old(TxsOf(a)).lastConfirmedTxIdx
      ensures forall b :: b != a ==> TxsOf(b) == old(TxsOf(b))
    {
      hide Covers, Swap, Switched, Net, Touches, Exchanged;
      ghost var s :| Covers(TxsOf(a), a, s, l);
      UnconfirmedNode(TxsOf(a), a, s, l, h);
      switches := 0;
      while true
        invariant Covers(TxsOf(a), a, s, l) && switches <= 1
        invariant switches == 1 ==> h in TxsOf(a).nodeIdx && TxsOf(a).nodeIdx[h] == target
        invariant if switches == 0 then TxsOf(a) == old(TxsOf(a))
          else Exchanged(old(TxsOf(a)).nodeIdx, TxsOf(a).nodeIdx, h, target)
        invariant TxsOf(a).txCount == old(TxsOf(a)).txCount
        invariant TxsOf(a).lastConfirmedTxIdx == old(TxsOf(a)).lastConfirmedTxIdx
        invariant Net(TxsOf(a)) == old(Net(TxsOf(a)))
        invariant forall b :: b != a ==> TxsOf(b) == old(TxsOf(b))
        decreases 1 - switches
      {
        UnconfirmedNode(TxsOf(a), a, s, l, h);
        var found, idx, node := GetAddressTxNode(a, h);
        if !found {
          return false, switches;
        }
        if idx == target {
          AlreadyThere(TxsOf(a), a, s, l, h);
          return true, switches;
        }
        assert TxsOf(a).txCount >= 2;
        SwitchedNode(TxsOf(a), a, s, l, h, target);
        SwitchedExchanges(TxsOf(a), a, s, l, h, target);
        ok := SwitchTxNode(a, target, idx);
        if !ok {
          return;
        }
        s, switches := Swap(s, target, idx), switches + 1;
      }
    }

    lemma RejectsUnconfirmed(l: Ledger, h: Hash)
      requires Legal(l, Reject(h))
      ensures h in l.pool
    {
    }

    // What each event does to the list of one address it touches.
    method AppendToAddress(a: Addr, h: Hash, diff: int, ghost l: Ledger)
      requires TxsAgree(TxsOf(a), a, l) && Legal(l, Accept(h)) && Touches(h.tx, a) && diff == Diff(h.tx, a)
      modifies this`addrTxs
      ensures TxsAgree(TxsOf(a), a, Apply(l, Accept(h)))
      ensures Net(TxsOf(a)) == old(Net(TxsOf(a))) + Diff(h.tx, a)
      ensures Placed(old(TxsOf(a)), TxsOf(a), Accept(h))
      ensures forall b :: b != a ==> TxsOf(b) == old(TxsOf(b))
    {
      hide TxsAgree;
      AppendedAgrees(TxsOf(a), a, l, h);
      AppendedIsPlaced(TxsOf(a), a, l, h, diff);
      StoreTxs(a, Appended(TxsOf(a), h, diff));
    }

    method ConfirmAddress(a: Addr, h: Hash, height: nat, ghost l: Ledger) returns (ok: bool)
      requires TxsAgree(TxsOf(a), a, l) && Legal(l, Confirm(h, height)) && Touches(h.tx, a)
      modifies this`addrTxs
      ensures ok && TxsAgree(TxsOf(a), a, Apply(l, Confirm(h, height)))
      ensures Net(TxsOf(a)) == old(Net(TxsOf(a)))
      ensures Placed(old(TxsOf(a)), TxsOf(a), Confirm(h, height))
      ensures forall b :: b != a ==> TxsOf(b) == old(TxsOf(b))
    {
      hide TxsAgree;
      UnconfirmedPlace(TxsOf(a), a, l, h);
      ghost var switches;
      ok, switches := MoveNode(a, h, TxsOf(a).lastConfirmedTxIdx + 1, l);
      if !ok {
        return;
      }
      UnconfirmedPlace(TxsOf(a), a, l, h);
      var found, idx, node := GetAddressTxNode(a, h);
      if !found {
        return false;
      }
      ConfirmNextAgrees(TxsOf(a), a, l, h, height);
      StoreTxs(a, ConfirmedAt(TxsOf(a), idx, height));
    }

    method UnconfirmAddress(a: Addr, h: Hash, ghost l: Ledger) returns (ok: bool)
      requires TxsAgree(TxsOf(a), a, l) && Legal(l, Unconfirm(h)) && Touches(h.tx, a)
      modifies this`addrTxs
      ensures ok && TxsAgree(TxsOf(a), a, Apply(l, Unconfirm(h)))
      ensures Net(TxsOf(a)) == old(Net(TxsOf(a)))
      ensures Placed(old(TxsOf(a)), TxsOf(a), Unconfirm(h))
      ensures forall b :: b != a ==> TxsOf(b) == old(TxsOf(b))
    {
      hide TxsAgree;
      UnconfirmLastAgrees(TxsOf(a), a, l, h);
      var found, idx, node := GetAddressTxNode(a, h);
      if !found {
        return false;
      }
      var r := UnconfirmedAt(TxsOf(a), idx);
      if r.lastConfirmedTxIdx < -1 || idx - 1 != r.lastConfirmedTxIdx {
        return false;
      }
      StoreTxs(a, r);
      ok := true;
    }

    method RejectAddress(a: Addr, h: Hash, ghost l: Ledger) returns (ok: bool)
      requires TxsAgree(TxsOf(a), a, l) && Legal(l, Reject(h)) && Touches(h.tx, a)
      modifies this`addrTxs
      ensures ok && TxsAgree(TxsOf(a), a, Apply(l, Reject(h)))
      ensures Net(TxsOf(a)) == old(Net(TxsOf(a))) - Diff(h.tx, a)
      ensures Placed(old(TxsOf(a)), TxsOf(a), Reject(h))
      ensures forall b :: b != a ==> TxsOf(b) == old(TxsOf(b))
    {
      hide TxsAgree, Covers, Diff, Touches, Net, WithoutLast, Legal, Placed, Exchanged;
      RejectsUnconfirmed(l, h);
      UnconfirmedPlace(TxsOf(a), a, l, h);
      ghost var switches;
      ok, switches := MoveNode(a, h, TxsOf(a).txCount - 1, l);
      if !ok {
        return;
      }
      UnconfirmedPlace(TxsOf(a), a, l, h);
      var found, idx, node := GetAddressTxNode(a, h);
      if !found || TxsOf(a).txCount != idx + 1 {
        return false;
      }
      RejectLastAgrees(TxsOf(a), a, l, h);
      NetWithoutLast(TxsOf(a), h, node.diff);
      RejectedIsPlaced(old(TxsOf(a)), TxsOf(a), h, node.diff);
      StoreTxs(a, WithoutLast(TxsOf(a), h, node.diff));
    }

    // What a row does to the transaction lists: those of the addresses it touches change
    // as they should, the others do not.
    ghost predicate TxsMoved(e: Event, before: map<Addr, AddrTxs>)
      reads this`addrTxs
    {
      forall a :: ListMoved(TxsIn(before, a), TxsOf(a), e, a)
    }

    // Every balance is worth what the unspent list holds.
    ghost predicate Balanced()
      reads this`addrTxs, this`addrUnspents
    {
      forall a :: UnspentsOf(a).unspentTxIndex >= -1 && Net(TxsOf(a)) == Holdings(UnspentsOf(a))
    }

    // The unspent lists have taken `t` in already, or let it go; the balances have not.
    ghost predicate Ahead(t: Tx)
      reads this`addrTxs, this`addrUnspents
    {
      forall a :: UnspentsOf(a).unspentTxIndex >= -1 && Net(TxsOf(a)) + Diff(t, a) == Holdings(UnspentsOf(a))
    }

    ghost predicate Behind(t: Tx)
      reads this`addrTxs, this`addrUnspents
    {
      forall a :: UnspentsOf(a).unspentTxIndex >= -1 && Net(TxsOf(a)) - Diff(t, a) == Holdings(UnspentsOf(a))
    }

    // Appends the new transaction to the list of every address it touches.
    method InsertAddressTxs(h: Hash, balance: map<Addr, int>, ghost l: Ledger)
      requires Legal(l, Accept(h)) && Balances(balance, h.tx)
      requires TxsRight(l) && Ahead(h.tx)
      modifies this`addrTxs
      ensures TxsRight(Apply(l, Accept(h))) && Balanced() && TxsMoved(Accept(h), old(addrTxs))
    {
      hide TxsAgree, Placed, ListMoved, Diff, Touches, Net, Holdings, UnspentsIn;
      ghost var m := Apply(l, Accept(h));
      var todo := balance.Keys;
      forall a | a !in todo ensures TxsAgree(TxsOf(a), a, m) && Diff(h.tx, a) == 0
        && ListMoved(old(TxsOf(a)), TxsOf(a), Accept(h), a) {
        UntouchedAgrees(TxsOf(a), a, l, Accept(h));
        ListStays(TxsOf(a), Accept(h), a);
        UntouchedMovesNothing(h.tx, a);
      }
      while todo != {}
        invariant todo <= balance.Keys
        invariant forall a :: a in todo ==> TxsOf(a) == old(TxsOf(a))
        invariant forall a :: a !in todo ==> ListMoved(old(TxsOf(a)), TxsOf(a), Accept(h), a)
        invariant forall a :: a !in todo ==> TxsAgree(TxsOf(a), a, m)
        invariant forall a :: a !in todo ==> Net(TxsOf(a)) == old(Net(TxsOf(a))) + Diff(h.tx, a)
      {
        var a :| a in todo;
        todo := todo - {a};
        AppendToAddress(a, h, balance[a], l);
        ListMoves(old(TxsOf(a)), TxsOf(a), Accept(h), a);
      }
    }

    method ConfirmAddressTxs(h: Hash, height: nat, balance: map<Addr, int>, ghost l: Ledger) returns (ok: bool)
      requires Legal(l, Confirm(h, height)) && Balances(balance, h.tx)
      requires TxsRight(l) && Balanced()
      modifies this`addrTxs
      ensures ok && TxsRight(Apply(l, Confirm(h, height))) && Balanced() && TxsMoved(Confirm(h, height), old(addrTxs))
    {
      hide TxsAgree, Placed, ListMoved, Diff, Touches, Net, Legal, Holdings, UnspentsIn;
      ghost var m := Apply(l, Confirm(h, height));
      var todo := balance.Keys;
      forall a | a !in todo ensures TxsAgree(TxsOf(a), a, m)
        && ListMoved(old(TxsOf(a)), TxsOf(a), Confirm(h, height), a) {
        UntouchedAgrees(TxsOf(a), a, l, Confirm(h, height));
        ListStays(TxsOf(a), Confirm(h, height), a);
      }
      while todo != {}
        invariant todo <= balance.Keys
        invariant forall a :: a in todo ==> TxsOf(a) == old(TxsOf(a))
        invariant forall a :: a !in todo ==> ListMoved(old(TxsOf(a)), TxsOf(a), Confirm(h, height), a)
        invariant forall a :: a !in todo ==> TxsAgree(TxsOf(a), a, m) && Net(TxsOf(a)) == old(Net(TxsOf(a)))
      {
        var a :| a in todo;
        todo := todo - {a};
        ok := ConfirmAddress(a, h, height, l);
        if !ok {
          return;
        }
        ListMoves(old(TxsOf(a)), TxsOf(a), Confirm(h, height), a);
      }
      ok := true;
    }

    method UnconfirmAddressTxs(h: Hash, balance: map<Addr, int>, ghost l: Ledger) returns (ok: bool)
      requires Legal(l, Unconfirm(h)) && Balances(balance, h.tx)
      requires TxsRight(l) && Balanced()
      modifies this`addrTxs
      ensures ok && TxsRight(Apply(l, Unconfirm(h))) && Balanced() && TxsMoved(Unconfirm(h), old(addrTxs))
    {
      hide TxsAgree, Placed, ListMoved, Diff, Touches, Net, Legal, Holdings, UnspentsIn;
      ghost var m := Apply(l, Unconfirm(h));
      var todo := balance.Keys;
      forall a | a !in todo ensures TxsAgree(TxsOf(a), a, m)
        && ListMoved(old(TxsOf(a)), TxsOf(a), Unconfirm(h), a) {
        UntouchedAgrees(TxsOf(a), a, l, Unconfirm(h));
        ListStays(TxsOf(a), Unconfirm(h), a);
      }
      while todo != {}
        invariant todo <= balance.Keys
        invariant forall a :: a in todo ==> TxsOf(a) == old(TxsOf(a))
        invariant forall a :: a !in todo ==> ListMoved(old(TxsOf(a)), TxsOf(a), Unconfirm(h), a)
        invariant forall a :: a !in todo ==> TxsAgree(TxsOf(a), a, m) && Net(TxsOf(a)) == old(Net(TxsOf(a)))
      {
        var a :| a in todo;
        todo := todo - {a};
        ok := UnconfirmAddress(a, h, l);
        if !ok {
          return;
        }
        ListMoves(old(TxsOf(a)), TxsOf(a), Unconfirm(h), a);
      }
      ok := true;
    }

    method RejectAddressTxs(h: Hash, balance: map<Addr, int>, ghost l: Ledger) returns (ok: bool)
      requires Legal(l, Reject(h)) && Balances(balance, h.tx)
      requires TxsRight(l) && Behind(h.tx)
      modifies this`addrTxs
      ensures ok && TxsRight(Apply(l, Reject(h))) && Balanced() && TxsMoved(Reject(h), old(addrTxs))
    {
      hide TxsAgree, Placed, ListMoved, Diff, Touches, Net, Holdings, UnspentsIn;
      ghost var m := Apply(l, Reject(h));
      var todo := balance.Keys;
      forall a | a !in todo ensures TxsAgree(TxsOf(a), a, m) && Diff(h.tx, a) == 0
        && ListMoved(old(TxsOf(a)), TxsOf(a), Reject(h), a) {
        UntouchedAgrees(TxsOf(a), a, l, Reject(h));
        ListStays(TxsOf(a), Reject(h), a);
        UntouchedMovesNothing(h.tx, a);
      }
      while todo != {}
        invariant todo <= balance.Keys
        invariant forall a :: a in todo ==> TxsOf(a) == old(TxsOf(a))
        invariant forall a :: a !in todo ==> ListMoved(old(TxsOf(a)), TxsOf(a), Reject(h), a)
        invariant forall a :: a !in todo ==> TxsAgree(TxsOf(a), a, m)
        invariant forall a :: a !in todo ==> Net(TxsOf(a)) == old(Net(TxsOf(a))) - Diff(h.tx, a)
      {
        var a :| a in todo;
        todo := todo - {a};
        ok := RejectAddress(a, h, l);
        if !ok {
          return;
        }
        ListMoves(old(TxsOf(a)), TxsOf(a), Reject(h), a);
      }
      ok := true;
    }

    // ---------- The four events ----------

    // What a row does to the counters and numbers of the unspent lists, and to the keys
    // of 01_.
    ghost predicate CountsMoved(e: Event, before: map<Addr, AddrUnspents>, keys: set<Hash>)
      reads this
    {
      DriftMoved(e, before) && txObjects.Keys == keys + (if e.Accept? then {e.hash} else {})
    }

    ghost predicate DriftMoved(e: Event, before: map<Addr, AddrUnspents>)
      reads this`addrUnspents
    {
      && (forall a :: Drift(UnspentsOf(a)) == Drift(UnspentsIn(before, a)) + DroppedBy(e, a))
      && forall a :: Numbered(UnspentsIn(before, a), UnspentsOf(a), IssuedBy(e, a))
    }

    lemma DriftStays(e: Event)
      requires e.Confirm? || e.Unconfirm?
      ensures DriftMoved(e, addrUnspents)
    {
      forall a ensures Numbered(UnspentsIn(addrUnspents, a), UnspentsOf(a), IssuedBy(e, a)) {
        NothingNew(UnspentsOf(a));
      }
    }

    ghost predicate PoolRight(l: Ledger)
      reads this`unconfirmedTxs, this`unconfirmedTxsCount
    {
      unconfirmedTxs == l.pool && unconfirmedTxsCount == |l.pool|
    }

    // The transaction of an ACCEPT or UNCONFIRM row is unconfirmed now.
    method AddUnconfirmed(ghost l: Ledger, ghost e: Event, h: Hash)
      requires PoolRight(l) && Legal(l, e) && (e.Accept? || e.Unconfirm?) && e.hash == h && h !in l.pool
      modifies this`unconfirmedTxs, this`unconfirmedTxsCount
      ensures PoolRight(Apply(l, e))
    {
      hide Legal;
      unconfirmedTxs := unconfirmedTxs + {h};
      unconfirmedTxsCount := unconfirmedTxsCount + 1;
    }

    // That of a CONFIRM or REJECT row no longer is.
    method RemoveUnconfirmed(ghost l: Ledger, ghost e: Event, h: Hash)
      requires PoolRight(l) && Legal(l, e) && (e.Confirm? || e.Reject?) && e.hash == h && h in l.pool
      modifies this`unconfirmedTxs, this`unconfirmedTxsCount
      ensures PoolRight(Apply(l, e))
    {
      hide Legal;
      unconfirmedTxs := unconfirmedTxs - {h};
      unconfirmedTxsCount := unconfirmedTxsCount - 1;
    }

    // The store is what the ledger says: no key is missing and no record is stale.
    ghost predicate Agrees(l: Ledger)
      reads this
    {
      && Consistent(l)
      && ObjectsAgree(txObjects, l) && SpendsAgree(spentBy, l)
      && PoolRight(l)
      && TxsRight(l)
      && AllInverse()
      && UnspentsRight(l)
      && Balanced()
    }

    // What a row changes beside what the ledger tells: where its transaction goes in the
    // lists, how unspent records are numbered and counted, and the keys of 01_.
    ghost predicate RowDone(e: Event, before: Tables)
      reads this
    {
      TxsMoved(e, before.txs) && CountsMoved(e, before.unspents, before.keys)
    }

    function Now(): Tables
      reads this
    {
      Tables(addrTxs, addrUnspents, txObjects.Keys)
    }

    // An empty store, for an empty ledger.
    constructor ()
      ensures Agrees(EMPTY_LEDGER) && Now() == NO_TABLES
    {
      hide TxsAgree, UnspentsAgree, Inverse, Consistent, ObjectsAgree, SpendsAgree, Net, Holdings;
      txObjects, spentBy, addrTxs, addrUnspents := map[], map[], map[], map[];
      unconfirmedTxs, unconfirmedTxsCount := {}, 0;
      new;
      NothingStored();
    }

    // Reads the outputs that `tx` spends from 01_; ok is false when one is missing.
    method GetPrevTxOutputs(tx: Tx) returns (ok: bool, outs: seq<TxOut>)
      ensures ok <==> forall o :: o in tx.vin ==> o.hash in txObjects && o.n < |txObjects[o.hash].outputs|
      ensures ok ==> |outs| == |tx.vin|
      ensures ok ==> forall i :: 0 <= i < |tx.vin| ==> outs[i] == txObjects[tx.vin[i].hash].outputs[tx.vin[i].n]
    {
      outs := [];
      for i := 0 to |tx.vin|
        invariant |outs| == i
        invariant forall j :: 0 <= j < i ==>
          && tx.vin[j].hash in txObjects && tx.vin[j].n < |txObjects[tx.vin[j].hash].outputs|
          && outs[j] == txObjects[tx.vin[j].hash].outputs[tx.vin[j].n]
      {
        var o := tx.vin[i];
        if o.hash !in txObjects || o.n >= |txObjects[o.hash].outputs| {
          return false, outs;
        }
        outs := outs + [txObjects[o.hash].outputs[o.n]];
      }
      ok := true;
    }

    lemma UnspentsStay(l: Ledger, e: Event)
      requires UnspentsRight(l) && Legal(l, e) && (e.Confirm? || e.Unconfirm?)
      ensures UnspentsRight(Apply(l, e))
    {
      forall a {
        SameHoldings(UnspentsOf(a), a, l, e);
      }
    }

    lemma MayBeAccepted(l: Ledger, h: Hash)
      requires Consistent(l) && Legal(l, Accept(h))
      ensures WellFormed(h.tx) && InMoneyRange(h.tx) && h !in l.pool
      ensures forall o :: Spends(h, o) ==> Live(l, o.hash)
    {
    }

    lemma IsInPool(l: Ledger, e: Event)
      requires Consistent(l) && Legal(l, e) && (e.Confirm? || e.Reject?)
      ensures e.hash in l.pool && Live(l, e.hash) && InMoneyRange(e.hash.tx)
    {
      assert Live(l, e.hash);
    }

    lemma IsConfirmed(l: Ledger, h: Hash)
      requires Consistent(l) && Legal(l, Unconfirm(h))
      ensures h !in l.pool && Live(l, h)
    {
    }

    lemma LiveIsKnown(l: Ledger, h: Hash)
      requires Consistent(l) && Live(l, h)
      ensures WellFormed(h.tx) && forall o :: Spends(h, o) ==> Live(l, o.hash)
    {
    }

    lemma PrevOutputsKnown(h: Hash, l: Ledger)
      requires Consistent(l) && ObjectsAgree(txObjects, l) && WellFormed(h.tx)
      requires forall o :: Spends(h, o) ==> Live(l, o.hash)
      ensures forall o :: o in h.tx.vin ==> o.hash in txObjects && o.n < |txObjects[o.hash].outputs|
      ensures forall i :: 0 <= i < |h.tx.vin| ==>
        && txObjects[h.tx.vin[i].hash].outputs[h.tx.vin[i].n] == PrevOut(h.tx.vin[i])
        && NoDup(PrevOut(h.tx.vin[i]).addrs)
    {
      forall o | o in h.tx.vin ensures Live(l, o.hash) && InRange(o) {
        assert Spends(h, o);
      }
    }

    // Every output that a known transaction spends is there to read.
    method ReadSpent(h: Hash, ghost l: Ledger) returns (ok: bool, outs: seq<TxOut>)
      requires Consistent(l) && ObjectsAgree(txObjects, l) && WellFormed(h.tx)
      requires forall o :: Spends(h, o) ==> Live(l, o.hash)
      ensures ok && PrevOutputs(h.tx, outs)
    {
      hide Consistent, ObjectsAgree, PrevOutputs, NoDup, WellFormed;
      PrevOutputsKnown(h, l);
      ok, outs := GetPrevTxOutputs(h.tx);
      if ok {
        PrevOutputsRead(h.tx, outs);
      }
    }

    // The balance of the inputs alone.
    method InputBalance(tx: Tx, prevTxOutputs: seq<TxOut>) returns (b: map<Addr, int>)
      requires PrevOutputs(tx, prevTxOutputs)
      ensures Tally(b, tx, |tx.vin|, 0)
    {
      hide Tally, PrevOut, NoDup;
      NothingTallied(tx);
      b := map[];
      for i := 0 to |tx.vin|
        invariant Tally(b, tx, i, 0)
      {
        ghost var c := b;
        b := AddShares(b, prevTxOutputs[i].addrs, -prevTxOutputs[i].value);
        TallyInput(c, b, tx, i, 0);
      }
    }

    method GetTxAddressBalance(h: Hash, ghost l: Ledger) returns (ok: bool, b: map<Addr, int>)
      requires Consistent(l) && ObjectsAgree(txObjects, l) && Live(l, h)
      ensures ok && Balances(b, h.tx)
    {
      hide Tally, Balances, Consistent, ObjectsAgree, PrevOutputs;
      LiveIsKnown(l, h);
      var tx := h.tx;
      b := map[];
      var prevTxOutputs;
      ok, prevTxOutputs := ReadSpent(h, l);
      if !ok {
        return;
      }
      b := InputBalance(tx, prevTxOutputs);
      for n := 0 to |tx.vout|
        invariant Tally(b, tx, |tx.vin|, n)
      {
        ghost var c := b;
        b := AddShares(b, tx.vout[n].addrs, tx.vout[n].value);
        TallyOutput(c, b, tx, |tx.vin|, n);
      }
      TallyComplete(b, tx);
    }

    // 02_ records for the inputs of `h`.
    method InsertSpendTxs(h: Hash)
      modifies this`spentBy
      ensures forall o :: o in spentBy <==> o in old(spentBy) || Spends(h, o)
      ensures forall o :: o in spentBy && !Spends(h, o) ==> spentBy[o] == old(spentBy)[o]
      ensures forall o :: Spends(h, o) ==> spentBy[o].txHash == h && InputIs(spentBy[o], o)
    {
      var tx := h.tx;
      for n := 0 to |tx.vin|
        invariant forall o :: o in spentBy <==> o in old(spentBy) || o in tx.vin[..n]
        invariant forall o :: o in spentBy && o !in tx.vin[..n] ==> spentBy[o] == old(spentBy)[o]
        invariant forall o :: o in tx.vin[..n] ==> spentBy[o].txHash == h && InputIs(spentBy[o], o)
      {
        assert tx.vin[..n + 1] == tx.vin[..n] + [tx.vin[n]];
        spentBy := spentBy[tx.vin[n] := SpentBy(h, n)];
      }
      assert tx.vin[..|tx.vin|] == tx.vin;
    }

    // The unspent side of accepting: new outputs in, spent outputs out.
    method AcceptUnspents(h: Hash, prevTxOutputs: seq<TxOut>, ghost l: Ledger)
      returns (ok: bool, b: map<Addr, int>)
      requires Consistent(l) && Legal(l, Accept(h)) && PrevOutputs(h.tx, prevTxOutputs)
      requires AllInverse() && UnspentsRight(l) && Balanced()
      modifies this`addrUnspents
      ensures ok && Balances(b, h.tx) && AllInverse()
      ensures UnspentsRight(Apply(l, Accept(h))) && Ahead(h.tx)
      ensures DriftMoved(Accept(h), old(addrUnspents))
    {
      hide Holdings, Drift, Consistent, Tally, Holds, PayingOutputs, TakenInputs, Numbered, PaidInOrder;
      forall a {
        AcceptFinds(UnspentsOf(a), UnspentsOf(a), a, l, h);
      }
      b := InputBalance(h.tx, prevTxOutputs);
      b := AcceptOutputs(h, b);
      TallyComplete(b, h.tx);
      label Mid:
      forall i, a | 0 <= i < |h.tx.vin| && a in PrevOut(h.tx.vin[i]).addrs
        ensures h.tx.vin[i] in UnspentsOf(a).entryIdx
      {
        AcceptFinds(old(UnspentsOf(a)), UnspentsOf(a), a, l, h);
      }
      ok := RemoveUnspentOutputs(h.tx, prevTxOutputs);
      forall a ensures UnspentsAgree(UnspentsOf(a), a, Apply(l, Accept(h)))
        && Holdings(UnspentsOf(a)) == old(Holdings(UnspentsOf(a))) + Diff(h.tx, a)
        && Drift(UnspentsOf(a)) == old(Drift(UnspentsOf(a)))
        && Numbered(old(UnspentsOf(a)), UnspentsOf(a), PaidInOrder(h, |h.tx.vout|, a)) {
        AcceptedAgree(old(UnspentsOf(a)), old@Mid(UnspentsOf(a)), UnspentsOf(a), a, l, h);
      }
    }

    twostate lemma FallsBehind(t: Tx)
      requires old(Balanced()) && addrTxs == old(addrTxs)
      requires forall a ::
        UnspentsOf(a).unspentTxIndex >= -1 && Holdings(UnspentsOf(a)) == old(Holdings(UnspentsOf(a))) - Diff(t, a)
      ensures Behind(t)
    {
      hide Net, Diff, Holdings, UnspentsIn;
    }

    // The unspent side of rejecting: spent outputs in again, own outputs out.
    method RejectUnspents(h: Hash, prevTxOutputs: seq<TxOut>, ghost l: Ledger)
      returns (ok: bool, b: map<Addr, int>)
      requires Consistent(l) && Legal(l, Reject(h)) && PrevOutputs(h.tx, prevTxOutputs)
      requires AllInverse() && UnspentsRight(l) && Balanced()
      modifies this`addrUnspents, this`spentBy
      ensures ok && Balances(b, h.tx) && AllInverse()
      ensures UnspentsRight(Apply(l, Reject(h))) && Behind(h.tx)
      ensures DriftMoved(Reject(h), old(addrUnspents))
      ensures spentBy == old(spentBy) - (set o | o in h.tx.vin)
    {
      hide Holdings, Drift, PayCount, Tally, Holds, PayingOutputs, TakenInputs, Consistent, Behind, Net, Diff;
      hide Numbered, TakenInOrder;
      LiveIsKnown(l, h);
      forall a {
        RejectFinds(UnspentsOf(a), UnspentsOf(a), a, l, h);
      }
      b := RestoreInputs(h.tx, prevTxOutputs);
      label Mid:
      forall n, a | 0 <= n < |h.tx.vout| && Pays(h.tx.vout[n], a) ensures Outpoint(h, n) in UnspentsOf(a).entryIdx {
        RejectFinds(old(UnspentsOf(a)), UnspentsOf(a), a, l, h);
      }
      ok, b := DropOutputs(h, b);
      TallyComplete(b, h.tx);
      forall a ensures UnspentsAgree(UnspentsOf(a), a, Apply(l, Reject(h)))
        && Holdings(UnspentsOf(a)) == old(Holdings(UnspentsOf(a))) - Diff(h.tx, a)
        && Drift(UnspentsOf(a)) == old(Drift(UnspentsOf(a))) + PayCount(h.tx, |h.tx.vout|, a)
        && Numbered(old(UnspentsOf(a)), UnspentsOf(a), TakenInOrder(h.tx, |h.tx.vin|, a)) {
        RejectedAgree(old(UnspentsOf(a)), old@Mid(UnspentsOf(a)), UnspentsOf(a), a, l, h);
      }
      FallsBehind(h.tx);
    }

    // The object of a new transaction, and the spend records of its inputs.
    method InsertTxObject(h: Hash, ghost l: Ledger)
      requires ObjectsAgree(txObjects, l) && SpendsAgree(spentBy, l) && Legal(l, Accept(h))
      modifies this`txObjects, this`spentBy
      ensures ObjectsAgree(txObjects, Apply(l, Accept(h))) && SpendsAgree(spentBy, Apply(l, Accept(h)))
      ensures txObjects.Keys == old(txObjects.Keys) + {h}
    {
      hide ObjectsAgree, SpendsAgree, Legal, Spends, InputIs;
      AcceptObjects(txObjects, l, h);
      txObjects := txObjects[h := TxObject(h.tx.vout, -1, false)];
      InsertSpendTxs(h);
      AcceptSpends(old(spentBy), l, h, spentBy);
    }

    // The row of an ACCEPT carries height -1; ok is false where that assertion fails.
    method AcceptTx(h: Hash, blkHeight: int, ghost l: Ledger) returns (ok: bool)
      requires Agrees(l) && Legal(l, Accept(h))
      modifies this
      ensures ok <==> blkHeight == -1
      ensures ok ==> Agrees(Apply(l, Accept(h))) && RowDone(Accept(h), old(Now()))
      ensures !ok ==> unchanged(this)
    {
      if blkHeight != -1 {
        return false;
      }
      ok := AcceptAnyTx(h, l);
    }

    method AcceptAnyTx(h: Hash, ghost l: Ledger) returns (ok: bool)
      requires Agrees(l) && Legal(l, Accept(h))
      modifies this
      ensures ok && Agrees(Apply(l, Accept(h)))
      ensures RowDone(Accept(h), old(Now()))
    {
      hide TxsAgree, ObjectsAgree, SpendsAgree, UnspentsAgree, Inverse, Diff, Net, Holdings, Drift, Consistent;
      hide TxsRight, UnspentsRight, AllInverse, Balanced, Ahead, Behind, DriftMoved, TxsMoved;
      hide UnspentsIn, TxsIn, Legal;
      hide PoolRight, Apply, WellFormed, PrevOutputs, Balances, PrevOut, Touches, Spends, PayCount;
      MayBeAccepted(l, h);
      LegalKeepsConsistent(l, Accept(h));
      var prevTxOutputs;
      ok, prevTxOutputs := ReadSpent(h, l);
      if !ok {
        return;
      }
      var addressBalance;
      ok, addressBalance := AcceptUnspents(h, prevTxOutputs, l);
      var inRange, _ := GetValueOut(h.tx);
      if !ok || !inRange {
        return false;
      }
      InsertTxObject(h, l);
      InsertAddressTxs(h, addressBalance, l);
      AddUnconfirmed(l, Accept(h), h);
    }

    method ConfirmTx(h: Hash, height: nat, ghost l: Ledger) returns (ok: bool)
      requires Agrees(l) && Legal(l, Confirm(h, height))
      modifies this
      ensures ok && Agrees(Apply(l, Confirm(h, height)))
      ensures RowDone(Confirm(h, height), old(Now()))
    {
      hide TxsAgree, ObjectsAgree, SpendsAgree, UnspentsAgree, Inverse, Diff, Net, Holdings, Drift, Consistent;
      hide TxsRight, UnspentsRight, AllInverse, Balanced, Ahead, Behind, DriftMoved, TxsMoved;
      hide UnspentsIn, TxsIn, Legal;
      hide PoolRight, Apply, WellFormed, Balances, PrevOut, Touches;
      IsInPool(l, Confirm(h, height));
      LegalKeepsConsistent(l, Confirm(h, height));
      var addressBalance;
      ok, addressBalance := GetTxAddressBalance(h, l);
      if !ok {
        return;
      }
      ok := ConfirmAddressTxs(h, height, addressBalance, l);
      ConfirmObjects(txObjects, l, h, height);
      if h.tx.coinbase {
        var inRange, _ := GetValueOut(h.tx);
        ok := ok && inRange;
      }
      if !ok || h !in txObjects {
        return false;
      }
      txObjects := txObjects[h := txObjects[h].(height := height)];
      DriftStays(Confirm(h, height));
      assert txObjects.Keys == old(txObjects.Keys);
      UnspentsStay(l, Confirm(h, height));
      SameSpends(spentBy, l, Confirm(h, height));
      RemoveUnconfirmed(l, Confirm(h, height), h);
    }

    method UnconfirmTx(h: Hash, ghost l: Ledger) returns (ok: bool)
      requires Agrees(l) && Legal(l, Unconfirm(h))
      modifies this
      ensures ok && Agrees(Apply(l, Unconfirm(h)))
      ensures RowDone(Unconfirm(h), old(Now()))
    {
      hide TxsAgree, ObjectsAgree, SpendsAgree, UnspentsAgree, Inverse, Diff, Net, Holdings, Drift, Consistent;
      hide TxsRight, UnspentsRight, AllInverse, Balanced, Ahead, Behind, DriftMoved, TxsMoved;
      hide UnspentsIn, TxsIn, Legal;
      hide PoolRight, Apply, Balances, PrevOut, Touches;
      IsConfirmed(l, h);
      LegalKeepsConsistent(l, Unconfirm(h));
      var addressBalance;
      ok, addressBalance := GetTxAddressBalance(h, l);
      if !ok {
        return;
      }
      ok := UnconfirmAddressTxs(h, addressBalance, l);
      UnconfirmObjects(txObjects, l, h);
      if !ok || h !in txObjects {
        return false;
      }
      txObjects := txObjects[h := txObjects[h].(height := -1)];
      DriftStays(Unconfirm(h));
      assert txObjects.Keys == old(txObjects.Keys);
      UnspentsStay(l, Unconfirm(h));
      SameSpends(spentBy, l, Unconfirm(h));
      AddUnconfirmed(l, Unconfirm(h), h);
    }

    method RejectTx(h: Hash, ghost l: Ledger) returns (ok: bool)
      requires Agrees(l) && Legal(l, Reject(h))
      modifies this
      ensures ok && Agrees(Apply(l, Reject(h)))
      ensures RowDone(Reject(h), old(Now()))
    {
      hide TxsAgree, ObjectsAgree, SpendsAgree, UnspentsAgree, Inverse, Diff, Net, Holdings, Drift, Consistent;
      hide TxsRight, UnspentsRight, AllInverse, Balanced, Ahead, Behind, DriftMoved, TxsMoved;
      hide UnspentsIn, TxsIn, Legal;
      hide PoolRight, Apply, WellFormed, PrevOutputs, Balances, PrevOut, Touches, Spends, PayCount;
      IsInPool(l, Reject(h));
      LegalKeepsConsistent(l, Reject(h));
      LiveIsKnown(l, h);
      var prevTxOutputs;
      ok, prevTxOutputs := ReadSpent(h, l);
      if !ok {
        return;
      }
      var addressBalance;
      ok, addressBalance := RejectUnspents(h, prevTxOutputs, l);
      RejectObjects(txObjects, l, h);
      RejectSpends(old(spentBy), l, h);
      if !ok || h !in txObjects {
        return false;
      }
      txObjects := txObjects[h := txObjects[h].(doubleSpend := true)];
      assert txObjects.Keys == old(txObjects.Keys);
      ok := RejectAddressTxs(h, addressBalance, l);
      RemoveUnconfirmed(l, Reject(h), h);
    }

    method Handle(e: Event, blkHeight: int, ghost l: Ledger) returns (ok: bool)
      requires Agrees(l) && Legal(l, e) && HeightFits(e, blkHeight)
      modifies this
      ensures ok && Agrees(Apply(l, e)) && RowDone(e, old(Now()))
    {
      match e
      case Accept(h) => ok := AcceptTx(h, blkHeight, l);
      case Confirm(h, _) => ok := ConfirmTx(h, blkHeight, l);
      case Unconfirm(h) => ok := UnconfirmTx(h, l);
      case Reject(h) => ok := RejectTx(h, l);
    }

    // The counter of an unspent list exceeds the list by the outputs of rejected
    // transactions, and an object is there for every transaction ever accepted.
    ghost predicate CountsAre(log: seq<Event>, first: map<Addr, AddrUnspents>, keys: set<Hash>)
      reads this
    {
      CountsIn(addrUnspents, txObjects.Keys, log, first, keys)
    }

    lemma CountsStart(log: seq<Event>)
      ensures CountsAre(log[..0], addrUnspents, txObjects.Keys)
    {
    }

    lemma CountsAdd(log: seq<Event>, i: nat, first: map<Addr, AddrUnspents>, firstKeys: set<Hash>,
                    before: map<Addr, AddrUnspents>, keys: set<Hash>)
      requires i < |log| && CountsIn(before, keys, log[..i], first, firstKeys)
      requires CountsMoved(log[i], before, keys)
      ensures CountsAre(log[..i + 1], first, firstKeys)
    {
      hide Drift, Dropped, Accepted, DroppedBy, UnspentsIn, Issued, IssuedBy;
      CountsSnoc(log, i);
      IssuedSnoc(log, i);
    }

    // The list of an address whose rows were taken in turn is in the order in which its
    // transactions arrived.
    ghost predicate InArrivalOrder(l: Ledger, log: seq<Event>)
      requires LegalRun(l, log)
      reads this`addrTxs
    {
      forall a :: TakenInTurn(l, log, a) ==> ArrivalOrder(TxsOf(a).nodeIdx, log)
    }

    lemma ArrivalStart(l: Ledger, log: seq<Event>)
      ensures LegalRun(l, log[..0]) && InArrivalOrder(l, log[..0])
    {
    }

    lemma ListsNow(l: Ledger, log: seq<Event>)
      requires LegalRun(l, log) && Agrees(Replay(l, log)) && InArrivalOrder(l, log)
      ensures ListsHold(addrTxs, l, log)
    {
      hide TxsAgree, ArrivalOrder, TakenInTurn, LegalRun, Replay, Agrees;
      AgreesLists(Replay(l, log));
    }

    lemma AgreesLists(l: Ledger)
      requires Agrees(l)
      ensures forall a :: TxsAgree(TxsIn(addrTxs, a), a, l)
    {
      hide TxsAgree, Consistent, ObjectsAgree, SpendsAgree, PoolRight, AllInverse, UnspentsRight, Balanced;
      assert forall a :: TxsIn(addrTxs, a) == TxsOf(a);
    }

    lemma ArrivalAdd(l: Ledger, log: seq<Event>, i: nat, before: map<Addr, AddrTxs>)
      requires i < |log| && LegalRun(l, log[..i]) && LegalRun(l, log[..i + 1])
      requires Legal(Replay(l, log[..i]), log[i]) && TxsMoved(log[i], before)
      requires ListsHold(before, l, log[..i])
      ensures InArrivalOrder(l, log[..i + 1])
    {
      hide TxsAgree, LegalRun, Replay, Legal, TakenInTurn, ArrivalOrder, ListMoved, TxsIn;
      forall a | TakenInTurn(l, log[..i + 1], a) ensures ArrivalOrder(TxsOf(a).nodeIdx, log[..i + 1]) {
        ArrivalStep(TxsIn(before, a), TxsOf(a), a, l, log, i);
      }
    }

    // What a run changes beside what the ledger tells.
    ghost predicate RunDone(l: Ledger, log: seq<Event>, first: Tables)
      requires LegalRun(l, log)
      reads this
    {
      CountsAre(log, first.unspents, first.keys) && InArrivalOrder(l, log)
    }

    lemma RunStart(l: Ledger, log: seq<Event>)
      ensures LegalRun(l, log[..0]) && RunDone(l, log[..0], Now())
    {
      CountsStart(log);
      ArrivalStart(l, log);
    }

    lemma RunSoFar(l: Ledger, log: seq<Event>, first: Tables)
      requires LegalRun(l, log) && Agrees(Replay(l, log)) && RunDone(l, log, first)
      ensures SoFar(Now(), l, log, first)
    {
      hide Agrees, InArrivalOrder, CountsIn, ListsHold;
      ListsNow(l, log);
    }

    // One row more.
    lemma RunAdd(l: Ledger, log: seq<Event>, i: nat, first: Tables, before: Tables)
      requires i < |log| && LegalRun(l, log[..i]) && LegalRun(l, log[..i + 1]) && Legal(Replay(l, log[..i]), log[i])
      requires SoFar(before, l, log[..i], first) && RowDone(log[i], before)
      ensures RunDone(l, log[..i + 1], first)
    {
      hide InArrivalOrder, CountsIn, CountsMoved, TxsMoved, ListsHold, Legal, LegalRun, Replay;
      CountsAdd(log, i, first.unspents, first.keys, before.unspents, before.keys);
      ArrivalAdd(l, log, i, before.txs);
    }

    // A legal log is consumed to its end.
    method Consume(log: seq<Event>, heights: seq<int>, ghost l: Ledger) returns (ok: bool)
      requires Agrees(l) && LegalRun(l, log)
      requires |heights| == |log| && forall i :: 0 <= i < |log| ==> HeightFits(log[i], heights[i])
      modifies this
      ensures ok && Agrees(Replay(l, log)) && RunDone(l, log, old(Now()))
    {
      hide Agrees, Legal, LegalRun, Replay, HeightFits, RowDone, RunDone, SoFar;
      NothingLogged(l, log);
      RunStart(l, log);
      for i := 0 to |log|
        invariant LegalRun(l, log[..i]) && Agrees(Replay(l, log[..i])) && RunDone(l, log[..i], old(Now()))
      {
        RunPrefix(l, log, i);
        RunSoFar(l, log[..i], old(Now()));
        ghost var before := Now();
        ok := Handle(log[i], heights[i], Replay(l, log[..i]));
        RunAdd(l, log, i, old(Now()), before);
        if !ok {
          return;
        }
      }
      assert log[..|log|] == log;
      ok := true;
    }
  }

  lemma NothingLogged(l: Ledger, log: seq<Event>)
    ensures LegalRun(l, log[..0]) && Replay(l, log[..0]) == l
    ensures Accepted(log[..0]) == {} && forall a :: Dropped(log[..0], a) == Issued(log[..0], a) == 0
  {
  }

  lemma IssuedSnoc(log: seq<Event>, i: nat)
    requires i < |log|
    ensures forall a :: Issued(log[..i + 1], a) == Issued(log[..i], a) + |IssuedBy(log[i], a)|
  {
    assert Front(log[..i + 1]) == log[..i];
  }

  lemma CountsSnoc(log: seq<Event>, i: nat)
    requires i < |log|
    ensures Accepted(log[..i + 1]) == Accepted(log[..i]) + (if log[i].Accept? then {log[i].hash} else {})
    ensures forall a :: Dropped(log[..i + 1], a) == Dropped(log[..i], a) + DroppedBy(log[i], a)
  {
    assert Front(log[..i + 1]) == log[..i];
  }

  lemma {:induction false} PayCountZero(t: Tx, n: nat, a: Addr)
    requires n <= |t.vout|
    ensures PayCount(t, n, a) == 0 <==> !PaidBy(t, n, a)
    decreases n
  {
    if n > 0 {
      PayCountZero(t, n - 1, a);
      assert PaidBy(t, n, a) <==> PaidBy(t, n - 1, a) || Pays(t.vout[n - 1], a);
    }
  }

  // A transaction that pays `a` was rejected.
  ghost predicate RejectedPayment(log: seq<Event>, a: Addr) {
    exists e :: e in log && e.Reject? && PaidBy(e.hash.tx, |e.hash.tx.vout|, a)
  }

  lemma {:induction false} NothingDropped(log: seq<Event>, a: Addr)
    ensures Dropped(log, a) == 0 <==> !RejectedPayment(log, a)
    decreases |log|
  {
    hide PayCount, PaidBy;
    if log != [] {
      var pre, e := Front(log), Last(log);
      NothingDropped(pre, a);
      assert log == pre + [e];
      if e.Reject? {
        PayCountZero(e.hash.tx, |e.hash.tx.vout|, a);
      }
    }
  }

  // From an empty store on, the counter of an address is the length of its unspent list
  // if and only if no transaction that pays it was ever rejected.
  lemma CountIsRight(log: seq<Event>, now: map<Addr, AddrUnspents>, keys: set<Hash>, a: Addr)
    requires CountsIn(now, keys, log, NO_TABLES.unspents, NO_TABLES.keys)
    ensures var u := UnspentsIn(now, a);
      u.unspentTxCount == |u.entryIdx.Keys| <==> !RejectedPayment(log, a)
  {
    hide Dropped, RejectedPayment, Accepted;
    NothingDropped(log, a);
    assert Drift(UnspentsIn(map[], a)) == 0;
  }
}
