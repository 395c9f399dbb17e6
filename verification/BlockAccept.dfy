/** Why accepting a block writes legal events, and what its conflict removal removes. */
module BlockAccept {
  import opened Transactions
  import opened Ledgers
  import opened SpendChains
  import opened RemovalOrder
  import opened Log2Spec
  import opened Sequences

  // ---------- The events of a block ----------

  function TxEvents(h: Hash, known: set<Hash>, height: nat): seq<Event> {
    if h in known then [Confirm(h, height)] else [Accept(h), Confirm(h, height)]
  }

  // A transaction that was not in the pool gets its ACCEPT first.
  function BlockEvents(hs: seq<Hash>, known: set<Hash>, height: nat): seq<Event> {
    if hs == [] then []
    else BlockEvents(Front(hs), known, height) + TxEvents(Last(hs), known, height)
  }

  // Pool and block never spend the same outpoint by different transactions.
  ghost predicate NoConflict(pool: set<Hash>, hs: seq<Hash>) {
    forall m, b, o :: m in pool && b in hs && Spends(m, o) && Spends(b, o) ==> m == b
  }

  ghost function AllConfirmed(l: Ledger, hs: seq<Hash>, height: nat): Ledger {
    Ledger(l.pool - Elems(hs), l.confirmed + hs, l.heights + Repeat(height, |hs|))
  }

  lemma FitsFront(l: Ledger, hs: seq<Hash>)
    requires hs != [] && Fits(l, hs)
    ensures Fits(l, Front(hs)) && Last(hs) !in Front(hs)
  {
    var pre := Front(hs);
    assert forall h :: h in pre ==> h in hs;
    forall i | 0 <= i < |pre| ensures ParentsIn(pre[i], l.confirmed + pre[..i]) {
      assert hs[..i] == pre[..i] && pre[i] == hs[i];
    }
  }

  lemma NextIsAcceptable(l: Ledger, pre: seq<Hash>, h: Hash, height: nat)
    requires Consistent(l) && Fits(l, pre + [h]) && NoConflict(l.pool, pre + [h]) && h !in l.pool
    ensures Legal(AllConfirmed(l, pre, height), Accept(h))
  {
    var hs := pre + [h];
    var m := AllConfirmed(l, pre, height);
    assert h in hs && hs[..|pre|] == pre;
    assert ParentsIn(h, l.confirmed + pre) by {
      assert hs[|pre|] == h;
    }
    assert forall b :: b in pre ==> b in hs;
    forall o | Spends(h, o) ensures Live(m, o.hash) && !SpentLive(m, o) {
      forall k | Live(m, k) ensures !Spends(k, o) {
        if k in l.confirmed {
          assert !SpentByConfirmed(l, o);
        }
      }
    }
  }

  lemma NextIsConfirmable(l: Ledger, pre: seq<Hash>, h: Hash, m: Ledger)
    requires Fits(l, pre + [h])
    requires m.confirmed == l.confirmed + pre && h in m.pool
    ensures Legal(m, Confirm(h, 0))
  {
    var hs := pre + [h];
    assert hs[|pre|] == h && hs[..|pre|] == pre;
  }

  lemma NextEvents(l: Ledger, pre: seq<Hash>, h: Hash, known: set<Hash>, height: nat, es: seq<Event>)
    requires Consistent(l) && Fits(l, pre + [h]) && NoConflict(l.pool, pre + [h])
    requires h !in pre && (h in known <==> h in l.pool)
    requires LegalRun(l, es) && Replay(l, es) == AllConfirmed(l, pre, height)
    ensures LegalRun(l, es + TxEvents(h, known, height))
    ensures Replay(l, es + TxEvents(h, known, height)) == AllConfirmed(l, pre + [h], height)
  {
    var m := AllConfirmed(l, pre, height);
    var fs := es;
    if h !in known {
      NextIsAcceptable(l, pre, h, height);
      RunSnoc(l, es, Accept(h));
      fs := es + [Accept(h)];
    }
    var m1 := Replay(l, fs);
    assert m1 == m.(pool := m.pool + {h});
    NextIsConfirmable(l, pre, h, m1);
    hide Consistent, Fits, NoConflict, AllConfirmed;
    RunSnoc(l, fs, Confirm(h, height));
    assert fs + [Confirm(h, height)] == es + TxEvents(h, known, height);
    AllConfirmedSnoc(l, pre, h, height);
    assert m.pool + {h} - {h} == m.pool - {h};
  }

  lemma AllConfirmedSnoc(l: Ledger, pre: seq<Hash>, h: Hash, height: nat)
    ensures var m := AllConfirmed(l, pre, height);
      AllConfirmed(l, pre + [h], height) == Ledger(m.pool - {h}, m.confirmed + [h], m.heights + [height])
  {
    assert Elems(pre + [h]) == Elems(pre) + {h};
    assert l.confirmed + pre + [h] == l.confirmed + (pre + [h]);
    assert l.heights + Repeat(height, |pre|) + [height] == l.heights + Repeat(height, |pre| + 1);
  }

  lemma {:induction false} BlockRun(l: Ledger, hs: seq<Hash>, known: set<Hash>, height: nat)
    requires Consistent(l) && Fits(l, hs) && NoConflict(l.pool, hs)
    requires forall h :: h in hs ==> (h in known <==> h in l.pool)
    ensures LegalRun(l, BlockEvents(hs, known, height))
    ensures Replay(l, BlockEvents(hs, known, height)) == AllConfirmed(l, hs, height)
    decreases |hs|
  {
    if hs == [] {
      assert l.confirmed + hs == l.confirmed && l.heights + Repeat(height, 0) == l.heights;
      assert l.pool - Elems(hs) == l.pool;
    } else {
      FitsFront(l, hs);
      var pre := Front(hs);
      assert hs == pre + [Last(hs)];
      assert forall h :: h in pre ==> h in hs;
      BlockRun(l, pre, known, height);
      NextEvents(l, pre, Last(hs), known, height, BlockEvents(pre, known, height));
    }
  }

  // ---------- Conflict removal ----------

  // No pool transaction outside the block is a parent of a block transaction, so a
  // chain of spends that starts outside the block never enters it.
  lemma {:induction false} ChainStaysOutside(
    l: Ledger, hs: seq<Hash>, mem: set<Hash>, m: Hash, d: Hash)
    requires Consistent(l) && Fits(l, hs)
    requires mem <= l.pool + Elems(hs) && m !in hs && Descends(mem, m, d)
    ensures d !in hs && Descends(l.pool, m, d)
    decreases d
  {
    if d != m {
      var i :| 0 <= i < |d.tx.vin| && Descends(mem, m, d.tx.vin[i].hash);
      var o := d.tx.vin[i];
      ChainStaysOutside(l, hs, mem, m, o.hash);
      assert Spends(d, o);
      assert Descends(l.pool, m, d.tx.vin[i].hash);
    }
  }

  // Those of the first n block transactions that go through the pool.
  ghost function Entered(hs: seq<Hash>, n: nat): set<Hash>
    requires n <= |hs|
  {
    set h | h in hs[..n] && !h.tx.coinbase
  }

  // The state of the conflict-removal loop: `mem` is what the repository holds, `r`
  // what was removed, and the first n block transactions are in.
  ghost predicate Evicting(l: Ledger, hs: seq<Hash>, n: nat, mem: set<Hash>, r: seq<Hash>)
    requires n <= |hs|
  {
    && LeafFirst(l.pool, r)
    && (forall h :: h in r ==> h in Evicted(l.pool, hs) && h !in hs)
    && mem == l.pool - Elems(r) + Entered(hs, n)
  }

  // The conflicts of the first n block transactions, in the order in which they go: each
  // transaction that is new to the pool makes its way in turn.
  ghost predicate EvictedInTurn(pool: set<Hash>, hs: seq<Hash>, n: nat, r: seq<Hash>)
    requires n <= |hs|
    decreases n
  {
    if n == 0 then r == [] else exists k: nat :: k <= |r| && LastMadeWay(pool, hs, n, r, k)
  }

  ghost predicate LastMadeWay(pool: set<Hash>, hs: seq<Hash>, n: nat, r: seq<Hash>, k: nat)
    requires 0 < n <= |hs| && k <= |r|
    decreases n, 0
  {
    && EvictedInTurn(pool, hs, n - 1, r[..k])
    && WayOf(pool - Elems(r[..k]) + Entered(hs, n - 1), pool, hs[n - 1], r[k..])
  }

  // What goes to let `h` into `mem`; nothing when it is there, or stays out.
  ghost predicate WayOf(mem: set<Hash>, pool: set<Hash>, h: Hash, q: seq<Hash>) {
    if h.tx.coinbase || h in pool then q == [] else MadeWay(mem, h, q)
  }

  lemma EvictedMore(pool: set<Hash>, hs: seq<Hash>, n: nat, r: seq<Hash>, q: seq<Hash>)
    requires n < |hs| && EvictedInTurn(pool, hs, n, r)
    requires WayOf(pool - Elems(r) + Entered(hs, n), pool, hs[n], q)
    ensures EvictedInTurn(pool, hs, n + 1, r + q)
  {
    hide WayOf, Entered;
    assert (r + q)[..|r|] == r && (r + q)[|r|..] == q;
    assert LastMadeWay(pool, hs, n + 1, r + q, |r|);
  }

  lemma EvictStart(l: Ledger, hs: seq<Hash>)
    ensures Evicting(l, hs, 0, l.pool, []) && EvictedInTurn(l.pool, hs, 0, [])
  {
    assert hs[..0] == [];
    EmptyIsLeafFirst(l.pool);
  }

  // Making room for block transaction n removes conflicts only.
  lemma DoomedAreConflicts(l: Ledger, hs: seq<Hash>, n: nat, mem: set<Hash>, d: Hash)
    requires Consistent(l) && Fits(l, hs) && n < |hs|
    requires mem <= l.pool + Elems(hs) && hs[n] !in mem && d in Doomed(mem, hs[n])
    ensures d in Evicted(l.pool, hs) && d !in hs
  {
    var m :| m in mem && SpendsSame(hs[n], m) && Descends(mem, m, d);
    assert hs[n] in hs && m !in hs;
    ChainStaysOutside(l, hs, mem, m, d);
    assert SharesInput(m, hs);
    assert Conflicts(l.pool, hs, m);
  }

  lemma EvictSome(l: Ledger, hs: seq<Hash>, n: nat, mem: set<Hash>, r: seq<Hash>, q: seq<Hash>)
    requires Consistent(l) && Fits(l, hs) && n < |hs|
    requires Evicting(l, hs, n, mem, r)
    requires hs[n] !in mem && LeafFirst(mem, q) && Elems(q) == Doomed(mem, hs[n])
    ensures Evicting(l, hs, n, mem - Elems(q), r + q)
    ensures Elems(r + q) == Elems(r) + Elems(q)
  {
    assert mem <= l.pool + Elems(hs);
    forall h | h in q ensures h in Evicted(l.pool, hs) && h !in hs {
      assert h in Elems(q);
      DoomedAreConflicts(l, hs, n, mem, h);
    }
    forall i, c | 0 <= i < |q| && c in l.pool && c !in r && IsChild(q[i], c) ensures c in q[..i] {
      assert c in mem;
    }
    LeafFirstConcat(l.pool, r, q);
  }

  lemma EnterOne(l: Ledger, hs: seq<Hash>, n: nat, mem: set<Hash>, r: seq<Hash>)
    requires n < |hs| && Evicting(l, hs, n, mem, r)
    ensures hs[n].tx.coinbase ==> Evicting(l, hs, n + 1, mem, r)
    ensures !hs[n].tx.coinbase ==> Evicting(l, hs, n + 1, mem + {hs[n]}, r)
  {
    assert hs[..n + 1] == hs[..n] + [hs[n]];
    assert Entered(hs, n + 1) == if hs[n].tx.coinbase then Entered(hs, n) else Entered(hs, n) + {hs[n]};
  }

  // When every block transaction is in, exactly the conflicts are out.
  lemma EvictionComplete(l: Ledger, hs: seq<Hash>, mem: set<Hash>, r: seq<Hash>)
    requires Consistent(l) && Fits(l, hs)
    requires Evicting(l, hs, |hs|, mem, r)
    requires forall h, k, o :: h in mem && k in mem && Spends(h, o) && Spends(k, o) ==> h == k
    ensures Elems(r) == Evicted(l.pool, hs)
    ensures NoConflict(l.pool - Elems(r), hs)
  {
    LeafFirstIsClosed(l.pool, r);
    BlockSpendersEntered(hs);
    forall m | Conflicts(l.pool, hs, m) ensures m in Elems(r) {
      var b :| b in hs && SpendsSame(b, m);
      assert b in mem;
    }
    forall d | d in Evicted(l.pool, hs) ensures d in Elems(r) {
      var m :| Conflicts(l.pool, hs, m) && Descends(l.pool, m, d);
      ClosedHoldsDescendants(l.pool, Elems(r), m, d);
    }
  }

  lemma BlockSpendersEntered(hs: seq<Hash>)
    requires forall h :: h in hs ==> WellFormed(h.tx)
    ensures forall b, o :: b in hs && Spends(b, o) ==> b in Entered(hs, |hs|)
  {
    assert hs[..|hs|] == hs;
  }

  lemma KnownToPool(l: Ledger, hs: seq<Hash>, n: nat, mem: set<Hash>, r: seq<Hash>)
    requires Fits(l, hs) && n < |hs| && Evicting(l, hs, n, mem, r)
    ensures hs[n] in mem <==> hs[n] in l.pool
  {
    assert hs[n] in hs;
  }

  // `r` is an order in which exactly the conflicts can be rejected, and `known` are
  // the block transactions that were in the pool.
  ghost predicate RoomMade(l: Ledger, hs: seq<Hash>, r: seq<Hash>, known: set<Hash>) {
    && LeafFirst(l.pool, r) && Elems(r) == Evicted(l.pool, hs)
    && NoConflict(l.pool - Elems(r), hs)
    && forall h :: h in hs ==> h !in r && (h in known <==> h in l.pool)
  }

  lemma EnteredIsKnown(l: Ledger, txs: seq<Tx>, known: set<Hash>)
    requires PlainPool(l) && CoinbaseFirst(txs) && known == Entered(HashesOf(txs), |txs|) * l.pool
    ensures forall h :: h in HashesOf(txs) ==> (h in known <==> h in l.pool)
  {
    var hs := HashesOf(txs);
    assert hs[..|hs|] == hs;
  }

  // The rows of a block: its conflicts are rejected, then its transactions go in.
  lemma BlockExplained(w: World, height: nat, b: Block, r: seq<Hash>, known: set<Hash>)
    requires ValidWorld(w) && ValidItem(w, BlockItem(height, b)) && height > Height(w)
    requires RoomMade(w.ledger, HashesOf(b.vtx), r, known)
    ensures Explains(w, BlockItem(height, b), Rejects(r) + BlockEvents(HashesOf(b.vtx), known, height))
  {
    ConflictsThenBlock(w.ledger, HashesOf(b.vtx), height, r, known);
  }

  lemma ConflictsThenBlock(l: Ledger, hs: seq<Hash>, height: nat, r: seq<Hash>, known: set<Hash>)
    requires Consistent(l) && Fits(l, hs) && RoomMade(l, hs, r, known)
    ensures var es := Rejects(r) + BlockEvents(hs, known, height);
      LegalRun(l, es) && Replay(l, es) == AllConfirmed(l.(pool := l.pool - Elems(r)), hs, height)
  {
    RejectRun(l, r);
    RunKeepsConsistent(l, Rejects(r));
    var m := l.(pool := l.pool - Elems(r));
    assert Fits(m, hs) by {
      assert forall o :: SpentByConfirmed(m, o) ==> SpentByConfirmed(l, o);
    }
    BlockRun(m, hs, known, height);
    RunConcat(l, Rejects(r), BlockEvents(hs, known, height));
  }

  lemma EnteredSnoc(hs: seq<Hash>, n: nat, pool: set<Hash>)
    requires n < |hs|
    ensures hs[n].tx.coinbase ==> Entered(hs, n + 1) == Entered(hs, n)
    ensures !hs[n].tx.coinbase && hs[n] in pool ==>
      && Entered(hs, n + 1) * pool == Entered(hs, n) * pool + {hs[n]}
      && Entered(hs, n + 1) - pool == Entered(hs, n) - pool
    ensures !hs[n].tx.coinbase && hs[n] !in pool ==>
      && Entered(hs, n + 1) * pool == Entered(hs, n) * pool
      && Entered(hs, n + 1) - pool == Entered(hs, n) - pool + {hs[n]}
    ensures 1 <= n ==> hs[1..n] + [hs[n]] == hs[1..n + 1]
  {
    assert hs[..n + 1] == hs[..n] + [hs[n]];
    assert Entered(hs, n + 1) == Entered(hs, n) + (if hs[n].tx.coinbase then {} else {hs[n]});
  }

  // The second pass finds all it removes, and leaves the pool without the conflicts
  // and the block.
  lemma BlockLeavesPool(l: Ledger, txs: seq<Tx>, mem: set<Hash>, r: seq<Hash>)
    requires ValidBlock(l, txs) && Evicting(l, HashesOf(txs), |txs|, mem, r) && PlainPool(l)
    ensures var hs := HashesOf(txs);
      && NoDup(hs[1..]) && Elems(hs[1..]) == Entered(hs, |hs|) && Elems(hs[1..]) <= mem
      && mem - Elems(hs[1..]) == l.pool - Elems(r) - Elems(hs)
  {
    var hs := HashesOf(txs);
    assert hs[..|hs|] == hs == [hs[0]] + hs[1..];
    forall h | h in Entered(hs, |hs|) ensures h in hs[1..] {
      assert h in hs;
    }
    assert Elems(hs) == {hs[0]} + Elems(hs[1..]);
  }
}
