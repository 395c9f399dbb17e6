/** Transaction objects (01_), spend records (02_) and the unconfirmed set (03_). */
module TxStore {
  import opened Transactions
  import opened Ledgers

  // 01_{tx hash}; height is -1 while the transaction is unconfirmed.
  datatype TxObject = TxObject(outputs: seq<TxOut>, height: int, doubleSpend: bool)

  // 02_{tx hash}_{position}
  datatype SpentBy = SpentBy(txHash: Hash, position: nat)

  // Objects are kept for good: a rejected one is marked as a double spend.
  ghost predicate ObjectsAgree(objs: map<Hash, TxObject>, l: Ledger) {
    && |l.heights| == |l.confirmed|
    && (forall h :: Live(l, h) ==> h in objs)
    && (forall h :: h in objs ==> objs[h].outputs == h.tx.vout && (objs[h].doubleSpend <==> !Live(l, h)))
    && (forall h :: h in objs && h !in l.confirmed ==> objs[h].height == -1)
    && (forall i :: 0 <= i < |l.confirmed| ==> objs[l.confirmed[i]].height == l.heights[i])
  }

  // Every spend by a live transaction is recorded, and nothing else.
  ghost predicate SpendsAgree(spentBy: map<Outpoint, SpentBy>, l: Ledger) {
    && (forall o :: o in spentBy <==> SpentLive(l, o))
    && (forall o :: o in spentBy ==> Live(l, spentBy[o].txHash) && InputIs(spentBy[o], o))
  }

  ghost predicate InputIs(s: SpentBy, o: Outpoint) {
    s.position < |s.txHash.tx.vin| && s.txHash.tx.vin[s.position] == o
  }

  lemma AcceptObjects(objs: map<Hash, TxObject>, l: Ledger, h: Hash)
    requires ObjectsAgree(objs, l) && Legal(l, Accept(h))
    ensures ObjectsAgree(objs[h := TxObject(h.tx.vout, -1, false)], Apply(l, Accept(h)))
  {
  }

  lemma ConfirmObjects(objs: map<Hash, TxObject>, l: Ledger, h: Hash, height: nat)
    requires ObjectsAgree(objs, l) && Consistent(l) && Legal(l, Confirm(h, height))
    ensures h in objs
    ensures ObjectsAgree(objs[h := objs[h].(height := height)], Apply(l, Confirm(h, height)))
  {
    assert Live(l, h);
    var m := Apply(l, Confirm(h, height));
    assert forall k :: Live(m, k) <==> Live(l, k);
  }

  lemma UnconfirmedOnce(l: Ledger, h: Hash)
    requires Consistent(l) && Legal(l, Unconfirm(h))
    ensures var m := Apply(l, Unconfirm(h));
      && Live(l, h) && h !in m.confirmed
      && forall k :: Live(m, k) <==> Live(l, k)
  {
    assert l.confirmed == Apply(l, Unconfirm(h)).confirmed + [h];
  }

  lemma UnconfirmObjects(objs: map<Hash, TxObject>, l: Ledger, h: Hash)
    requires ObjectsAgree(objs, l) && Consistent(l) && Legal(l, Unconfirm(h))
    ensures h in objs
    ensures ObjectsAgree(objs[h := objs[h].(height := -1)], Apply(l, Unconfirm(h)))
  {
    UnconfirmedOnce(l, h);
    hide Consistent;
    var m := Apply(l, Unconfirm(h));
    var after := objs[h := objs[h].(height := -1)];
    forall i | 0 <= i < |m.confirmed| ensures after[m.confirmed[i]].height == m.heights[i] {
      assert m.confirmed[i] == l.confirmed[i] && m.confirmed[i] in m.confirmed;
    }
  }

  lemma RejectObjects(objs: map<Hash, TxObject>, l: Ledger, h: Hash)
    requires ObjectsAgree(objs, l) && Consistent(l) && Legal(l, Reject(h))
    ensures h in objs
    ensures ObjectsAgree(objs[h := objs[h].(doubleSpend := true)], Apply(l, Reject(h)))
  {
    assert Live(l, h);
    var m := Apply(l, Reject(h));
    assert forall k :: Live(m, k) <==> Live(l, k) && k != h;
  }

  lemma AcceptSpends(spentBy: map<Outpoint, SpentBy>, l: Ledger, h: Hash, after: map<Outpoint, SpentBy>)
    requires SpendsAgree(spentBy, l) && Legal(l, Accept(h))
    requires forall o :: o in after <==> o in spentBy || Spends(h, o)
    requires forall o :: o in after && !Spends(h, o) ==> after[o] == spentBy[o]
    requires forall o :: Spends(h, o) ==> after[o].txHash == h && InputIs(after[o], o)
    ensures SpendsAgree(after, Apply(l, Accept(h)))
  {
    var m := Apply(l, Accept(h));
    assert forall k :: Live(m, k) <==> Live(l, k) || k == h;
    forall o ensures SpentLive(m, o) <==> SpentLive(l, o) || Spends(h, o) {
      assert Live(m, h);
      if SpentLive(l, o) {
        var k :| Live(l, k) && Spends(k, o);
        assert Live(m, k);
      }
    }
  }

  lemma RejectSpends(spentBy: map<Outpoint, SpentBy>, l: Ledger, h: Hash)
    requires SpendsAgree(spentBy, l) && Consistent(l) && Legal(l, Reject(h))
    ensures SpendsAgree(spentBy - (set o | o in h.tx.vin), Apply(l, Reject(h)))
  {
    var m := Apply(l, Reject(h));
    assert Live(l, h);
    assert forall k :: Live(m, k) <==> Live(l, k) && k != h;
    forall o ensures SpentLive(m, o) <==> SpentLive(l, o) && !Spends(h, o) {
      if SpentLive(l, o) && !Spends(h, o) {
        var k :| Live(l, k) && Spends(k, o);
        assert Live(m, k);
      }
    }
    forall o | o in spentBy && !Spends(h, o) ensures spentBy[o].txHash != h {
      assert InputIs(spentBy[o], o);
    }
  }

  lemma SameSpends(spentBy: map<Outpoint, SpentBy>, l: Ledger, e: Event)
    requires SpendsAgree(spentBy, l) && Legal(l, e) && (e.Confirm? || e.Unconfirm?)
    ensures SpendsAgree(spentBy, Apply(l, e))
  {
    var m := Apply(l, e);
    if e.Unconfirm? {
      assert l.confirmed == m.confirmed + [e.hash];
    }
    assert forall k :: Live(m, k) <==> Live(l, k);
    assert forall o :: SpentLive(m, o) <==> SpentLive(l, o);
  }
}
