/** Which transaction the pool gives up next: the end of a chain of first spenders. */
module RemovalOrder {
  import opened Transactions
  import opened SpendChains

  // `c` spends an output of `p`, and nothing in the pool spends a lower one.
  ghost predicate FirstSpender(pool: set<Hash>, p: Hash, c: Hash) {
    && c in pool
    && exists i: nat :: i < |p.tx.vout| && Spends(c, Outpoint(p, i)) && UnspentBelow(pool, p, i)
  }

  ghost predicate UnspentBelow(pool: set<Hash>, p: Hash, i: nat) {
    forall j: nat, d :: j < i && d in pool ==> !Spends(d, Outpoint(p, j))
  }

  // `d` is reached from `a` by going on to the first spender, any number of times.
  ghost predicate FollowsFirst(pool: set<Hash>, a: Hash, d: Hash)
    decreases d
  {
    || d == a
    || (exists i ::
         0 <= i < |d.tx.vin| && FirstSpender(pool, d.tx.vin[i].hash, d) && FollowsFirst(pool, a, d.tx.vin[i].hash))
  }

  // `h` is where that ends.
  ghost predicate FirstEnd(pool: set<Hash>, a: Hash, h: Hash) {
    FollowsFirst(pool, a, h) && forall c :: c in pool ==> !IsChild(h, c)
  }

  // No outpoint is spent twice in the pool.
  ghost predicate SingleSpends(pool: set<Hash>) {
    forall h, k, o :: h in pool && k in pool && Spends(h, o) && Spends(k, o) ==> h == k
  }

  lemma {:induction false} FollowsFromChild(pool: set<Hash>, p: Hash, a: Hash, d: Hash)
    requires FirstSpender(pool, p, a) && FollowsFirst(pool, a, d)
    ensures FollowsFirst(pool, p, d)
    decreases d
  {
    if d == a {
      var i: nat :| i < |p.tx.vout| && Spends(a, Outpoint(p, i)) && UnspentBelow(pool, p, i);
      var j :| 0 <= j < |a.tx.vin| && a.tx.vin[j] == Outpoint(p, i);
      assert FollowsFirst(pool, p, a.tx.vin[j].hash);
    } else {
      var i :| 0 <= i < |d.tx.vin| && FirstSpender(pool, d.tx.vin[i].hash, d)
        && FollowsFirst(pool, a, d.tx.vin[i].hash);
      FollowsFromChild(pool, p, a, d.tx.vin[i].hash);
    }
  }

  // The way is determined: of two transactions on it, one leads to the other.
  lemma {:induction false} OneWay(pool: set<Hash>, a: Hash, h: Hash, k: Hash)
    requires SingleSpends(pool) && FollowsFirst(pool, a, h) && FollowsFirst(pool, a, k)
    ensures FollowsFirst(pool, h, k) || FollowsFirst(pool, k, h)
    decreases h
  {
    if h != a {
      var i :| 0 <= i < |h.tx.vin| && FirstSpender(pool, h.tx.vin[i].hash, h)
        && FollowsFirst(pool, a, h.tx.vin[i].hash);
      var p := h.tx.vin[i].hash;
      OneWay(pool, a, p, k);
      if FollowsFirst(pool, p, k) {
        if p == k {
          assert FollowsFirst(pool, k, h.tx.vin[i].hash);
        } else {
          OnFromFirst(pool, p, h, k);
        }
      } else {
        assert FollowsFirst(pool, k, h.tx.vin[i].hash);
      }
    }
  }

  lemma SameSpender(pool: set<Hash>, p: Hash, c: Hash, d: Hash)
    requires SingleSpends(pool) && FirstSpender(pool, p, c) && FirstSpender(pool, p, d)
    ensures c == d
  {
    var i: nat :| i < |p.tx.vout| && Spends(c, Outpoint(p, i)) && UnspentBelow(pool, p, i);
    var j: nat :| j < |p.tx.vout| && Spends(d, Outpoint(p, j)) && UnspentBelow(pool, p, j);
    assert i == j;
  }

  // What follows from `p`, but is not `p`, follows from the first spender of `p`.
  lemma {:induction false} OnFromFirst(pool: set<Hash>, p: Hash, c: Hash, k: Hash)
    requires SingleSpends(pool) && FirstSpender(pool, p, c) && FollowsFirst(pool, p, k) && k != p
    ensures FollowsFirst(pool, c, k)
    decreases k
  {
    var i :| 0 <= i < |k.tx.vin| && FirstSpender(pool, k.tx.vin[i].hash, k)
      && FollowsFirst(pool, p, k.tx.vin[i].hash);
    var q := k.tx.vin[i].hash;
    if q == p {
      SameSpender(pool, p, c, k);
    } else {
      OnFromFirst(pool, p, c, q);
    }
  }

  lemma {:induction false} NothingFollows(pool: set<Hash>, h: Hash, k: Hash)
    requires FollowsFirst(pool, h, k) && forall c :: c in pool ==> !IsChild(h, c)
    ensures k == h
    decreases k
  {
    if k != h {
      var i :| 0 <= i < |k.tx.vin| && FirstSpender(pool, k.tx.vin[i].hash, k)
        && FollowsFirst(pool, h, k.tx.vin[i].hash);
      assert Spends(k, k.tx.vin[i]);
      assert IsChild(k.tx.vin[i].hash, k);
      NothingFollows(pool, h, k.tx.vin[i].hash);
    }
  }

  // So there is one end.
  lemma OneEnd(pool: set<Hash>, a: Hash, h: Hash, k: Hash)
    requires SingleSpends(pool) && FirstEnd(pool, a, h) && FirstEnd(pool, a, k)
    ensures h == k
  {
    OneWay(pool, a, h, k);
    if FollowsFirst(pool, h, k) {
      NothingFollows(pool, h, k);
    } else {
      NothingFollows(pool, k, h);
    }
  }

  // The end of the way from the pool transaction that spends the first double-spent input
  // of `t`.
  ghost predicate ConflictEnd(pool: set<Hash>, t: Hash, h: Hash) {
    exists i: nat, m ::
      && i < |t.tx.vin| && m in pool && Spends(m, t.tx.vin[i]) && FirstEnd(pool, m, h)
      && UntakenBelow(pool, t, i)
  }

  ghost predicate UntakenBelow(pool: set<Hash>, t: Hash, i: nat)
    requires i <= |t.tx.vin|
  {
    forall j: nat, d :: j < i && d in pool ==> !Spends(d, t.tx.vin[j])
  }

  // ---------- Several removals ----------

  // Each removed transaction is the end of the way from `a` in what is left then.
  ghost predicate RemovedInTurn(pool: set<Hash>, a: Hash, r: seq<Hash>) {
    forall k :: 0 <= k < |r| ==> FirstEnd(pool - Elems(r[..k]), a, r[k])
  }

  // Each is the end of the way from the first conflict of `t` that is left.
  ghost predicate MadeWay(pool: set<Hash>, t: Hash, r: seq<Hash>) {
    forall k :: 0 <= k < |r| ==> ConflictEnd(pool - Elems(r[..k]), t, r[k])
  }

  ghost predicate IsGreatest(num: Hash -> int, hashes: set<Hash>, h: Hash) {
    h in hashes && forall k :: k in hashes ==> num(k) <= num(h)
  }

  // Each is the end of the way from the greatest that is left.
  ghost predicate Drained(num: Hash -> int, pool: set<Hash>, r: seq<Hash>) {
    forall k :: 0 <= k < |r| ==> FromGreatest(num, pool - Elems(r[..k]), r[k])
  }

  ghost predicate FromGreatest(num: Hash -> int, pool: set<Hash>, h: Hash) {
    exists lastItem :: IsGreatest(num, pool, lastItem) && FirstEnd(pool, lastItem, h)
  }

  lemma RemovedMore(pool: set<Hash>, a: Hash, r: seq<Hash>, h: Hash)
    requires RemovedInTurn(pool, a, r) && FirstEnd(pool - Elems(r), a, h)
    ensures RemovedInTurn(pool, a, r + [h])
  {
    hide FirstEnd;
    PrefixesStay(r, h);
  }

  lemma MadeMoreWay(pool: set<Hash>, t: Hash, r: seq<Hash>, h: Hash)
    requires MadeWay(pool, t, r) && ConflictEnd(pool - Elems(r), t, h)
    ensures MadeWay(pool, t, r + [h])
  {
    hide ConflictEnd;
    PrefixesStay(r, h);
  }

  lemma DrainedMore(num: Hash -> int, pool: set<Hash>, r: seq<Hash>, h: Hash)
    requires Drained(num, pool, r) && FromGreatest(num, pool - Elems(r), h)
    ensures Drained(num, pool, r + [h])
  {
    hide FromGreatest;
    PrefixesStay(r, h);
  }

  lemma NothingRemoved(num: Hash -> int, pool: set<Hash>, a: Hash)
    ensures RemovedInTurn(pool, a, []) && MadeWay(pool, a, []) && Drained(num, pool, [])
  {
  }

  lemma NothingDrained(num: Hash -> int, pool: set<Hash>)
    ensures Drained(num, pool, [])
  {
  }

  lemma PrefixesStay(r: seq<Hash>, h: Hash)
    ensures (r + [h])[..|r|] == r && forall k :: 0 <= k < |r| ==> (r + [h])[..k] == r[..k]
  {
  }
}
