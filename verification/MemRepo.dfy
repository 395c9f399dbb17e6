/**
 The unconfirmed pool of the log2 producer, its inverse index `spentOutputs`, and
 the table 0_memrepo_txs it is synchronised to.
 */
module MemRepo {
  import opened Transactions
  import opened SpendChains
  import opened RemovalOrder

  // Table 0_memrepo_txs; tx_hash is a unique key.
  class MemrepoTable {
    var rows: set<Hash>

    constructor ()
      ensures rows == {}
    {
      rows := {};
    }

    // INSERT of several rows: fails as a whole on a duplicate key.
    method Insert(hashes: set<Hash>) returns (ok: bool)
      modifies this
      ensures ok <==> hashes !! old(rows)
      ensures rows == if ok then old(rows) + hashes else old(rows)
    {
      ok := hashes !! rows;
      if ok {
        rows := rows + hashes;
      }
    }

    // DELETE ... WHERE tx_hash IN (...): reports the number of rows that went away.
    method Delete(hashes: seq<Hash>) returns (affected: nat)
      modifies this
      ensures rows == old(rows) - Elems(hashes)
      ensures affected == |old(rows) * Elems(hashes)|
    {
      var gone := set h | h in hashes && h in rows;
      assert gone == rows * Elems(hashes);
      affected := |gone|;
      rows := rows - gone;
    }
  }

  lemma DistinctCount(r: seq<Hash>, s: set<Hash>)
    requires NoDup(r) && Elems(r) <= s
    ensures |s * Elems(r)| == |r|
  {
    assert s * Elems(r) == Elems(r);
    if r == [] {
    } else {
      var front, last := r[..|r| - 1], r[|r| - 1];
      assert r == front + [last];
      DistinctCount(front, s);
      assert s * Elems(front) == Elems(front);
      assert Elems(r) == Elems(front) + {last};
    }
  }

  // `spent` is exactly the inverse of the inputs of `txs`; in particular no outpoint
  // is spent by two of them.
  ghost predicate InverseIndex(txs: map<Hash, Tx>, spent: map<Outpoint, Hash>) {
    && (forall h :: h in txs ==> HashOf(txs[h]) == h && !h.tx.coinbase && WellFormed(h.tx))
    && (forall h, o :: h in txs && Spends(h, o) ==> o in spent && spent[o] == h)
    && (forall o :: o in spent ==> spent[o] in txs && Spends(spent[o], o))
  }

  lemma IndexAfterAdd(txs: map<Hash, Tx>, spent: map<Outpoint, Hash>, h: Hash, after: map<Outpoint, Hash>)
    requires InverseIndex(txs, spent)
    requires !h.tx.coinbase && WellFormed(h.tx)
    requires forall o :: Spends(h, o) ==> o !in spent
    requires forall o :: o in after <==> o in spent || Spends(h, o)
    requires forall o :: o in after ==> after[o] == if Spends(h, o) then h else spent[o]
    ensures InverseIndex(txs[h := h.tx], after)
  {
  }

  lemma IndexAfterRemove(txs: map<Hash, Tx>, spent: map<Outpoint, Hash>, h: Hash, after: map<Outpoint, Hash>)
    requires InverseIndex(txs, spent) && h in txs
    requires forall o :: o in after <==> o in spent && !Spends(h, o)
    requires forall o :: o in after ==> after[o] == spent[o]
    ensures InverseIndex(txs - {h}, after)
  {
  }

  lemma {:induction false} GreatestExists(num: Hash -> int, hashes: set<Hash>)
    requires hashes != {}
    ensures exists h :: IsGreatest(num, hashes, h)
    decreases hashes
  {
    var h :| h in hashes;
    if hashes != {h} {
      GreatestExists(num, hashes - {h});
      var k :| IsGreatest(num, hashes - {h}, k);
      assert IsGreatest(num, hashes, if num(k) < num(h) then h else k);
    } else {
      assert IsGreatest(num, hashes, h);
    }
  }

  const DELETE_BATCH := 5000

  lemma EmptyElems()
    ensures Elems([]) == {} && NoDup<Hash>([])
  {
  }

  lemma PrefixSnoc(hashes: seq<Hash>, i: nat)
    requires i < |hashes| && NoDup(hashes[..i])
    ensures hashes[..0] == [] && hashes[..i + 1] == hashes[..i] + [hashes[i]]
    ensures Elems(hashes[..i + 1]) == Elems(hashes[..i]) + {hashes[i]}
    ensures hashes[i] !in Elems(hashes[..i]) ==> NoDup(hashes[..i + 1])
    ensures forall h :: h in Elems(hashes[..i]) <==> h in hashes[..i]
  {
    assert hashes[..i + 1] == hashes[..i] + [hashes[i]];
  }

  lemma NoDupNext(hashes: seq<Hash>, i: nat)
    requires i < |hashes| && NoDup(hashes)
    ensures hashes[i] !in hashes[..i]
  {
  }

  class MemTxRepository {
    const num: Hash -> int      // the hash as a number, by which txs_ is ordered
    var txs: map<Hash, Tx>
    var spentOutputs: map<Outpoint, Hash>
    var unSyncTxsDelete: set<Hash>
    var unSyncTxsInsert: set<Hash>

    ghost predicate Valid()
      reads this
    {
      InverseIndex(txs, spentOutputs)
    }

    // What the pending changes will make of the table is the pool, and they can be
    // written: inserted rows are new and deleted rows exist.
    ghost predicate SyncsWith(rows: set<Hash>)
      reads this
    {
      && txs.Keys == rows + unSyncTxsInsert - unSyncTxsDelete
      && unSyncTxsInsert !! rows
      && unSyncTxsDelete <= rows + unSyncTxsInsert
    }

    constructor (num: Hash -> int)
      ensures Valid() && this.num == num && txs == map[] && unSyncTxsInsert == {} && unSyncTxsDelete == {}
    {
      this.num := num;
      txs, spentOutputs := map[], map[];
      unSyncTxsDelete, unSyncTxsInsert := {}, {};
    }

    method IgnoreUnsyncData()
      requires Valid()
      modifies this`unSyncTxsInsert, this`unSyncTxsDelete
      ensures Valid() && unSyncTxsInsert == {} && unSyncTxsDelete == {}
    {
      unSyncTxsInsert, unSyncTxsDelete := {}, {};
    }

    predicate IsExist(h: Hash)
      reads this
    {
      h in txs
    }

    // The loop that marks the inputs of `tx` as spent.
    method MarkSpent(tx: Tx)
      modifies this`spentOutputs
      ensures forall o :: o in spentOutputs <==> o in old(spentOutputs) || Spends(HashOf(tx), o)
      ensures forall o :: o in spentOutputs ==>
        spentOutputs[o] == if Spends(HashOf(tx), o) then HashOf(tx) else old(spentOutputs)[o]
    {
      for i := 0 to |tx.vin|
        invariant forall o :: o in spentOutputs <==> o in old(spentOutputs) || o in tx.vin[..i]
        invariant forall o :: o in spentOutputs ==>
          spentOutputs[o] == if o in tx.vin[..i] then HashOf(tx) else old(spentOutputs)[o]
      {
        assert tx.vin[..i + 1] == tx.vin[..i] + [tx.vin[i]];
        spentOutputs := spentOutputs[tx.vin[i] := HashOf(tx)];
      }
      assert tx.vin[..|tx.vin|] == tx.vin;
    }

    // The loop that erases the inputs of `tx`; each must be there.
    method EraseSpent(tx: Tx)
      requires NoDup(tx.vin) && forall o :: Spends(HashOf(tx), o) ==> o in spentOutputs
      modifies this`spentOutputs
      ensures forall o :: o in spentOutputs <==> o in old(spentOutputs) && !Spends(HashOf(tx), o)
      ensures forall o :: o in spentOutputs ==> spentOutputs[o] == old(spentOutputs)[o]
    {
      for i := 0 to |tx.vin|
        invariant forall o :: o in spentOutputs <==> o in old(spentOutputs) && o !in tx.vin[..i]
        invariant forall o :: o in spentOutputs ==> spentOutputs[o] == old(spentOutputs)[o]
      {
        assert tx.vin[..i + 1] == tx.vin[..i] + [tx.vin[i]];
        assert Spends(HashOf(tx), tx.vin[i]);
        assert tx.vin[i] in spentOutputs;
        spentOutputs := spentOutputs - {tx.vin[i]};
      }
      assert tx.vin[..|tx.vin|] == tx.vin;
    }

    method AddTx(tx: Tx) returns (added: bool)
      requires Valid() && !tx.coinbase && WellFormed(tx)
      modifies this
      ensures Valid()
      ensures added <==> HashOf(tx) !in old(txs) && forall o :: Spends(HashOf(tx), o) ==> o !in old(spentOutputs)
      ensures added <==> HashOf(tx) !in old(txs) && forall m :: m in old(txs) ==> !SpendsSame(HashOf(tx), m)
      ensures !added ==> unchanged(this)
      ensures added ==> txs == old(txs)[HashOf(tx) := tx]
      ensures added ==> unSyncTxsInsert == old(unSyncTxsInsert) + {HashOf(tx)}
      ensures unSyncTxsDelete == old(unSyncTxsDelete)
    {
      var txhash := HashOf(tx);
      if IsExist(txhash) {
        return false;
      }
      for i := 0 to |tx.vin|
        invariant forall j :: 0 <= j < i ==> tx.vin[j] !in spentOutputs
      {
        if tx.vin[i] in spentOutputs {
          return false;
        }
      }
      MarkSpent(tx);
      IndexAfterAdd(txs, old(spentOutputs), txhash, spentOutputs);
      txs := txs[txhash := tx];
      unSyncTxsInsert := unSyncTxsInsert + {txhash};
      added := true;
    }

    // The end of a chain of spends that starts at `tx`: follows the first spent
    // output of each transaction until nothing is spent.
    method GetSpentEndTx(tx: Tx) returns (h: Hash)
      requires Valid() && HashOf(tx) in txs
      ensures Descends(txs.Keys, HashOf(tx), h)
      ensures forall c :: c in txs ==> !IsChild(h, c)
      ensures FirstEnd(txs.Keys, HashOf(tx), h)
      decreases Above(txs.Keys, HashOf(tx))
    {
      var txhash := HashOf(tx);
      for i := 0 to |tx.vout|
        invariant forall j :: 0 <= j < i ==> Outpoint(txhash, j) !in spentOutputs
      {
        var out := Outpoint(txhash, i);
        if out in spentOutputs {
          var child := spentOutputs[out];
          assert IsChild(txhash, child);
          ChildHasFewerAbove(txs.Keys, txhash, child);
          h := GetSpentEndTx(txs[child]);
          DescendsFromParent(txs.Keys, txhash, child, h);
          assert UnspentBelow(txs.Keys, txhash, i);
          FollowsFromChild(txs.Keys, txhash, child, h);
          return;
        }
      }
      forall c, o | c in txs && Spends(c, o) ensures o.hash != txhash {
        assert o in spentOutputs && InRange(o) && o == Outpoint(o.hash, o.n);
      }
      h := txhash;
    }

    // The leaf to remove before `tx` can be added.  ok is false where the original
    // throws; a transaction without conflict gets itself back.
    method GetConflictTx(tx: Tx) returns (ok: bool, h: Hash)
      requires Valid() && WellFormed(tx)
      ensures !ok ==> HashOf(tx) in txs
      ensures ok && (forall o :: Spends(HashOf(tx), o) ==> o !in spentOutputs) ==> h == HashOf(tx)
      ensures ok && (exists o :: Spends(HashOf(tx), o) && o in spentOutputs) ==>
        && h in txs
        && (forall c :: c in txs ==> !IsChild(h, c))
        && (exists o :: Spends(HashOf(tx), o) && o in spentOutputs && Descends(txs.Keys, spentOutputs[o], h))
        && ConflictEnd(txs.Keys, HashOf(tx), h)
    {
      for i := 0 to |tx.vin|
        invariant forall j :: 0 <= j < i ==> tx.vin[j] !in spentOutputs
      {
        var out := tx.vin[i];
        assert Spends(HashOf(tx), out);
        if out in spentOutputs {
          var spentTxHash := spentOutputs[out];
          if spentTxHash == HashOf(tx) {
            return false, spentTxHash;
          }
          h := GetSpentEndTx(txs[spentTxHash]);
          assert UntakenBelow(txs.Keys, HashOf(tx), i);
          return true, h;
        }
      }
      return true, HashOf(tx);
    }

    method RemoveTx(hash: Hash) returns (ok: bool)
      requires Valid()
      modifies this
      ensures Valid()
      ensures ok <==> hash in old(txs)
      ensures !ok ==> unchanged(this)
      ensures ok ==> txs == old(txs) - {hash}
      ensures ok ==> unSyncTxsDelete == old(unSyncTxsDelete) + {hash}
      ensures unSyncTxsInsert == old(unSyncTxsInsert)
    {
      if hash !in txs {
        return false;
      }
      var tx := txs[hash];
      EraseSpent(tx);
      IndexAfterRemove(txs, old(spentOutputs), hash, spentOutputs);
      txs := txs - {hash};
      unSyncTxsDelete := unSyncTxsDelete + {hash};
      ok := true;
    }

    // Removes the listed transactions; throws (ok false) at the first one that is missing.
    method RemoveTxs(hashes: seq<Hash>) returns (ok: bool)
      requires Valid()
      modifies this
      ensures Valid()
      ensures ok <==> NoDup(hashes) && forall h :: h in hashes ==> h in old(txs)
      ensures ok ==> txs == old(txs) - Elems(hashes)
      ensures ok ==> unSyncTxsDelete == old(unSyncTxsDelete) + Elems(hashes)
      ensures unSyncTxsInsert == old(unSyncTxsInsert)
    {
      hide Valid, NoDup;
      EmptyElems();
      for i := 0 to |hashes|
        invariant Valid()
        invariant NoDup(hashes[..i]) && forall h :: h in hashes[..i] ==> h in old(txs)
        invariant txs == old(txs) - Elems(hashes[..i])
        invariant unSyncTxsDelete == old(unSyncTxsDelete) + Elems(hashes[..i])
        invariant unSyncTxsInsert == old(unSyncTxsInsert)
      {
        PrefixSnoc(hashes, i);
        ok := RemoveTx(hashes[i]);
        if !ok {
          if NoDup(hashes) {
            NoDupNext(hashes, i);
          }
          return;
        }
      }
      assert hashes[..|hashes|] == hashes;
      ok := true;
    }

    // Removes `tx` and every pool transaction that descends from it, leaves first.
    method RemoveTxAndChildTx(tx: Tx) returns (ok: bool, removedHashes: seq<Hash>)
      requires Valid() && HashOf(tx) in txs
      modifies this
      ensures Valid() && ok
      ensures LeafFirst(old(txs.Keys), removedHashes)
      ensures forall d :: d in removedHashes <==> Descends(old(txs.Keys), HashOf(tx), d)
      ensures RemovedInTurn(old(txs.Keys), HashOf(tx), removedHashes)
      ensures txs == old(txs) - Elems(removedHashes)
      ensures unSyncTxsDelete == old(unSyncTxsDelete) + Elems(removedHashes)
      ensures unSyncTxsInsert == old(unSyncTxsInsert)
    {
      var txhash := HashOf(tx);
      ghost var pool := txs.Keys;
      removedHashes := [];
      while true
        invariant Valid() && txhash in txs
        invariant LeafFirst(pool, removedHashes) && AllDescend(pool, txhash, removedHashes)
        invariant RemovedInTurn(pool, txhash, removedHashes)
        invariant txs == old(txs) - Elems(removedHashes)
        invariant unSyncTxsDelete == old(unSyncTxsDelete) + Elems(removedHashes)
        invariant unSyncTxsInsert == old(unSyncTxsInsert)
        decreases txs.Keys
      {
        var removeTxhash := GetSpentEndTx(tx);
        RemovalStep(pool, txs.Keys, txhash, removedHashes, removeTxhash);
        RemovedMore(pool, txhash, removedHashes, removeTxhash);
        ok := RemoveTx(removeTxhash);
        removedHashes := removedHashes + [removeTxhash];
        if txhash == removeTxhash {
          break;
        }
      }
      RemovalEnd(pool, txhash, removedHashes);
    }

    // Removes one transaction nothing in the pool spends, at the end of a chain of spends
    // that starts at the greatest hash.
    method RemoveSomeTx() returns (ok: bool, hash: Hash)
      requires Valid() && txs != map[]
      modifies this
      ensures Valid() && ok
      ensures hash in old(txs) && txs == old(txs) - {hash}
      ensures forall c :: c in old(txs) ==> !IsChild(hash, c)
      ensures exists lastItem :: IsGreatest(num, old(txs.Keys), lastItem) && Descends(old(txs.Keys), lastItem, hash)
      ensures FromGreatest(num, old(txs.Keys), hash)
      ensures unSyncTxsDelete == old(unSyncTxsDelete) + {hash}
      ensures unSyncTxsInsert == old(unSyncTxsInsert)
    {
      GreatestExists(num, txs.Keys);
      var lastItem :| lastItem in txs.Keys && forall h :: h in txs.Keys ==> num(h) <= num(lastItem);
      assert IsGreatest(num, txs.Keys, lastItem);
      hash := GetSpentEndTx(txs[lastItem]);
      ok := RemoveTx(hash);
    }

    // One DELETE, which must affect as many rows as it lists.
    method FlushDeletes(db: MemrepoTable, hashVec: seq<Hash>) returns (ok: bool)
      modifies db
      ensures NoDup(hashVec) && Elems(hashVec) <= old(db.rows) ==> ok
      ensures ok ==> db.rows == old(db.rows) - Elems(hashVec)
    {
      if NoDup(hashVec) && Elems(hashVec) <= db.rows { DistinctCount(hashVec, db.rows); }
      var affected := db.Delete(hashVec);
      ok := affected == |hashVec|;
    }

    // Deletes the rows of the set in batches.
    method DeleteInBatches(db: MemrepoTable, hashes: set<Hash>) returns (ok: bool)
      modifies db
      ensures hashes <= old(db.rows) ==> ok && db.rows == old(db.rows) - hashes
    {
      ghost var good := hashes <= db.rows;
      var todo, hashVec := hashes, [];
      while todo != {}
        invariant NoDup(hashVec) && |hashVec| <= DELETE_BATCH
        invariant Elems(hashVec) !! todo && Elems(hashVec) + todo <= hashes
        invariant good ==> db.rows == old(db.rows) - (hashes - todo - Elems(hashVec))
      {
        var h :| h in todo;
        assert h !in Elems(hashVec);
        assert Elems(hashVec + [h]) == Elems(hashVec) + {h};
        todo, hashVec := todo - {h}, hashVec + [h];
        if |hashVec| > DELETE_BATCH {
          ok := FlushDeletes(db, hashVec);
          if !ok {
            return;
          }
          hashVec := [];
        }
      }
      ok := true;
      if |hashVec| > 0 {
        ok := FlushDeletes(db, hashVec);
      }
    }

    // Writes the pending changes; ok is false when the database refuses one.
    method SyncToDB(db: MemrepoTable) returns (ok: bool)
      requires Valid()
      modifies this, db
      ensures Valid() && txs == old(txs)
      ensures old(SyncsWith(db.rows)) ==>
        ok && db.rows == txs.Keys && unSyncTxsInsert == {} && unSyncTxsDelete == {}
    {
      if unSyncTxsInsert != {} {
        ok := db.Insert(unSyncTxsInsert);
        if !ok {
          return;
        }
        unSyncTxsInsert := {};
      }
      if unSyncTxsDelete != {} {
        ok := DeleteInBatches(db, unSyncTxsDelete);
        if !ok {
          return;
        }
        unSyncTxsDelete := {};
      }
      ok := true;
    }
  }
}
