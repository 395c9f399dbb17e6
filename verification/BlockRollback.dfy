/** Why rolling back a block writes legal events. */
module BlockRollback {
  import opened Transactions
  import opened Ledgers
  import opened SpendChains
  import opened Log2Spec

  // The last transaction of the block is unconfirmed first.
  function Unconfirms(back: seq<Hash>): seq<Event> {
    if back == [] then [] else [Unconfirm(Last(back))] + Unconfirms(Front(back))
  }

  ghost function Undone(l: Ledger, n: nat): Ledger
    requires n <= |l.confirmed| == |l.heights|
  {
    Ledger(l.pool + Elems(l.confirmed[n..]), l.confirmed[..n], l.heights[..n])
  }

  lemma OneUnconfirm(l: Ledger)
    requires l.confirmed != [] && |l.confirmed| == |l.heights|
    ensures LegalRun(l, [Unconfirm(Last(l.confirmed))])
    ensures Replay(l, [Unconfirm(Last(l.confirmed))])
      == Ledger(l.pool + {Last(l.confirmed)}, Front(l.confirmed), Front(l.heights))
  {
    var e := Unconfirm(Last(l.confirmed));
    RunSnoc(l, [], e);
    assert [] + [e] == [e];
  }

  lemma OneMoreUndone(l: Ledger, n: nat)
    requires n < |l.confirmed| == |l.heights|
    ensures var m := Ledger(l.pool + {Last(l.confirmed)}, Front(l.confirmed), Front(l.heights));
      Undone(m, n) == Undone(l, n) && m.confirmed[n..] == Front(l.confirmed[n..])
    ensures Last(l.confirmed[n..]) == Last(l.confirmed)
  {
    var h, back := Last(l.confirmed), l.confirmed[n..];
    assert back == Front(back) + [h] && Front(l.confirmed)[n..] == Front(back);
    assert l.pool + {h} + Elems(Front(back)) == l.pool + Elems(back);
  }

  lemma {:induction false} UnconfirmRun(l: Ledger, n: nat)
    requires n <= |l.confirmed| == |l.heights|
    ensures LegalRun(l, Unconfirms(l.confirmed[n..]))
    ensures Replay(l, Unconfirms(l.confirmed[n..])) == Undone(l, n)
    decreases |l.confirmed|
  {
    var back := l.confirmed[n..];
    if back == [] {
      assert l.confirmed[..n] == l.confirmed && l.heights[..n] == l.heights;
    } else {
      hide LegalRun, Replay, Undone, Legal;
      var h, m := Last(l.confirmed), Ledger(l.pool + {Last(l.confirmed)}, Front(l.confirmed), Front(l.heights));
      OneUnconfirm(l);
      OneMoreUndone(l, n);
      UnconfirmRun(m, n);
      RunConcat(l, [Unconfirm(h)], Unconfirms(Front(back)));
    }
  }

  // After the block is undone nothing spends its coinbase, so that can be rejected.
  lemma CoinbaseMayGo(l: Ledger, n: nat)
    requires Consistent(l) && n < |l.confirmed|
    requires forall k, o :: Live(l, k) && Spends(k, o) ==> o.hash != l.confirmed[n]
    ensures Legal(Undone(l, n), Reject(l.confirmed[n]))
  {
    var m := Undone(l, n);
    hide Consistent;
    assert l.confirmed[n..][0] == l.confirmed[n];
    assert l.confirmed == l.confirmed[..n] + l.confirmed[n..];
    assert forall k :: Live(m, k) ==> Live(l, k);
  }

  lemma RollbackRun(l: Ledger, n: nat)
    requires Consistent(l) && n < |l.confirmed|
    requires forall k, o :: Live(l, k) && Spends(k, o) ==> o.hash != l.confirmed[n]
    ensures var es := Unconfirms(l.confirmed[n..]) + [Reject(l.confirmed[n])];
      LegalRun(l, es) && Replay(l, es) == Undone(l, n).(pool := Undone(l, n).pool - {l.confirmed[n]})
  {
    UnconfirmRun(l, n);
    CoinbaseMayGo(l, n);
    hide Consistent, Undone, Legal, LegalRun, Replay, Unconfirms;
    RunSnoc(l, Unconfirms(l.confirmed[n..]), Reject(l.confirmed[n]));
  }

  // Transactions i.. of the block are back in the pool.
  ghost predicate Returning(l: Ledger, hs: seq<Hash>, i: nat, mem: set<Hash>)
    requires i <= |hs|
  {
    mem == l.pool + set h | h in hs[i..] && !h.tx.coinbase
  }

  // No pool transaction has spent what a confirmed transaction spends.
  lemma ReturnOne(l: Ledger, n: nat, hs: seq<Hash>, i: nat, mem: set<Hash>)
    requires Consistent(l) && n <= |l.confirmed| && l.confirmed[n..] == hs
    requires i < |hs| && Returning(l, hs, i + 1, mem)
    ensures WellFormed(hs[i].tx)
    ensures hs[i].tx.coinbase ==> Returning(l, hs, i, mem)
    ensures !hs[i].tx.coinbase ==> Returning(l, hs, i, mem + {hs[i]})
    ensures hs[i] !in mem && hs[i] !in l.pool && forall m :: m in mem ==> !SpendsSame(hs[i], m)
  {
    assert hs[i..] == [hs[i]] + hs[i + 1..];
    assert hs[i] == l.confirmed[n + i] && Live(l, hs[i]);
    forall m | m in mem ensures m != hs[i] && Live(l, m) {
      if m !in l.pool {
        var j :| i + 1 <= j < |hs| && hs[j] == m;
        assert m == l.confirmed[n + j];
      }
    }
  }

  lemma ReturnStart(l: Ledger, hs: seq<Hash>)
    ensures Returning(l, hs, |hs|, l.pool)
  {
  }

  lemma ReturnDone(l: Ledger, n: nat, txs: seq<Tx>, mem: set<Hash>)
    requires Consistent(l) && n <= |l.confirmed| && l.confirmed[n..] == HashesOf(txs)
    requires CoinbaseFirst(txs) && Returning(l, HashesOf(txs), 0, mem)
    ensures mem == l.pool + Elems(HashesOf(txs)) - {HashOf(txs[0])}
    ensures l.pool <= mem
  {
    var hs := HashesOf(txs);
    assert hs[0..] == hs && hs[0] == l.confirmed[n];
  }

  lemma RollbackExplained(w: World, item: Log1Item)
    requires ValidWorld(w) && ValidItem(w, item)
    requires item.BlockItem? && item.height < Height(w)
    ensures var back := HashesOf(Last(w.blocks).vtx);
      Explains(w, item, Unconfirms(back) + [Reject(back[0])])
  {
    var l := w.ledger;
    var back := HashesOf(Last(w.blocks).vtx);
    var n := |l.confirmed| - |back|;
    assert l.confirmed[n..] == back && l.confirmed[n] == back[0];
    RollbackRun(l, n);
  }
}
