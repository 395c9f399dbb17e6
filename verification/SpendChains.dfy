/** Spend chains inside the unconfirmed pool. */
module SpendChains {
  import opened Transactions

  ghost predicate IsChild(p: Hash, c: Hash) {
    exists o :: Spends(c, o) && o.hash == p
  }

  // `d` is reached from `a` by going from a pool transaction to a pool transaction
  // that spends one of its outputs, any number of times.
  ghost predicate Descends(pool: set<Hash>, a: Hash, d: Hash)
    decreases d
  {
    d in pool && (d == a || exists i :: 0 <= i < |d.tx.vin| && Descends(pool, a, d.tx.vin[i].hash))
  }

  // With a transaction, `r` holds all its pool children.
  ghost predicate Closed(pool: set<Hash>, r: set<Hash>) {
    forall p, c :: p in r && c in pool && IsChild(p, c) ==> c in r
  }

  // A removal order in which every transaction goes after its pool children.
  ghost predicate LeafFirst(pool: set<Hash>, r: seq<Hash>) {
    && NoDup(r)
    && (forall i :: 0 <= i < |r| ==> r[i] in pool)
    && (forall i, c :: 0 <= i < |r| && c in pool && IsChild(r[i], c) ==> c in r[..i])
  }

  ghost predicate AllDescend(pool: set<Hash>, a: Hash, r: seq<Hash>) {
    forall d :: d in r ==> Descends(pool, a, d)
  }

  ghost function Elems(r: seq<Hash>): set<Hash> {
    set h | h in r
  }

  lemma {:induction false} ClosedHoldsDescendants(pool: set<Hash>, r: set<Hash>, a: Hash, d: Hash)
    requires Closed(pool, r) && a in r && Descends(pool, a, d)
    ensures d in r
    decreases d
  {
    if d != a {
      var i :| 0 <= i < |d.tx.vin| && Descends(pool, a, d.tx.vin[i].hash);
      ClosedHoldsDescendants(pool, r, a, d.tx.vin[i].hash);
      assert Spends(d, d.tx.vin[i]);
      assert IsChild(d.tx.vin[i].hash, d);
    }
  }

  lemma {:induction false} DescendsFromParent(pool: set<Hash>, p: Hash, a: Hash, d: Hash)
    requires p in pool && IsChild(p, a) && Descends(pool, a, d)
    ensures Descends(pool, p, d)
    decreases d
  {
    if d == a {
      var o :| Spends(a, o) && o.hash == p;
      var i :| 0 <= i < |a.tx.vin| && a.tx.vin[i] == o;
      assert Descends(pool, p, a.tx.vin[i].hash);
    } else {
      var i :| 0 <= i < |d.tx.vin| && Descends(pool, a, d.tx.vin[i].hash);
      DescendsFromParent(pool, p, a, d.tx.vin[i].hash);
    }
  }

  lemma {:induction false} DescendsStart(pool: set<Hash>, a: Hash, d: Hash)
    requires Descends(pool, a, d)
    ensures a in pool && d in pool
    decreases d
  {
    if d != a {
      var i :| 0 <= i < |d.tx.vin| && Descends(pool, a, d.tx.vin[i].hash);
      DescendsStart(pool, a, d.tx.vin[i].hash);
    }
  }

  lemma NothingDescends(pool: set<Hash>, a: Hash)
    requires a !in pool
    ensures forall d :: !Descends(pool, a, d)
  {
    forall d ensures !Descends(pool, a, d) {
      if Descends(pool, a, d) {
        DescendsStart(pool, a, d);
      }
    }
  }

  lemma {:induction false} DescendsInLarger(small: set<Hash>, pool: set<Hash>, a: Hash, d: Hash)
    requires small <= pool && Descends(small, a, d)
    ensures Descends(pool, a, d)
    decreases d
  {
    if d != a {
      var i :| 0 <= i < |d.tx.vin| && Descends(small, a, d.tx.vin[i].hash);
      DescendsInLarger(small, pool, a, d.tx.vin[i].hash);
    }
  }

  lemma OneMore<T>(pool: set<T>, other: set<T>, gone: set<T>, x: T)
    ensures pool - gone - {x} == pool - (gone + {x})
    ensures other + gone + {x} == other + (gone + {x})
  {
  }

  lemma ChildRanksHigher(p: Hash, c: Hash)
    requires IsChild(p, c)
    ensures Rank(p) < Rank(c)
  {
    var o :| Spends(c, o) && o.hash == p;
    SpenderRanksHigher(c, o);
  }

  lemma EmptyIsLeafFirst(pool: set<Hash>)
    ensures LeafFirst(pool, []) && Elems([]) == {}
  {
  }

  lemma LeafFirstSnoc(pool: set<Hash>, r: seq<Hash>, h: Hash)
    requires LeafFirst(pool, r) && h in pool && h !in r
    requires forall c :: c in pool && c !in r ==> !IsChild(h, c)
    ensures LeafFirst(pool, r + [h])
    ensures Elems(r + [h]) == Elems(r) + {h}
  {
    var s := r + [h];
    forall i, c | 0 <= i < |s| && c in pool && IsChild(s[i], c) ensures c in s[..i] {
      if i < |r| {
        assert s[..i] == r[..i];
      } else {
        assert s[..i] == r;
      }
    }
  }

  lemma LeafFirstIsClosed(pool: set<Hash>, r: seq<Hash>)
    requires LeafFirst(pool, r)
    ensures Closed(pool, Elems(r))
  {
    forall p, c | p in Elems(r) && c in pool && IsChild(p, c) ensures c in Elems(r) {
      var i :| 0 <= i < |r| && r[i] == p;
      assert c in r[..i];
    }
  }

  ghost function Above(pool: set<Hash>, h: Hash): set<Hash> {
    set k | k in pool && Rank(k) > Rank(h)
  }

  lemma ChildHasFewerAbove(pool: set<Hash>, p: Hash, c: Hash)
    requires c in pool && IsChild(p, c)
    ensures Above(pool, c) < Above(pool, p)
  {
    ChildRanksHigher(p, c);
    assert c in Above(pool, p) && c !in Above(pool, c);
  }

  // One more leaf of what is left goes.
  lemma RemovalStep(pool: set<Hash>, left: set<Hash>, a: Hash, r: seq<Hash>, h: Hash)
    requires LeafFirst(pool, r) && AllDescend(pool, a, r) && left == pool - Elems(r)
    requires Descends(left, a, h) && forall c :: c in left ==> !IsChild(h, c)
    ensures LeafFirst(pool, r + [h]) && AllDescend(pool, a, r + [h])
    ensures Elems(r + [h]) == Elems(r) + {h}
  {
    DescendsInLarger(left, pool, a, h);
    LeafFirstSnoc(pool, r, h);
  }

  lemma RemovalEnd(pool: set<Hash>, a: Hash, r: seq<Hash>)
    requires LeafFirst(pool, r) && AllDescend(pool, a, r) && a in r
    ensures forall d :: d in r <==> Descends(pool, a, d)
  {
    LeafFirstIsClosed(pool, r);
    forall d | Descends(pool, a, d) ensures d in r {
      ClosedHoldsDescendants(pool, Elems(r), a, d);
    }
  }

  // ---------- Transactions a newcomer double-spends ----------

  ghost predicate SpendsSame(h: Hash, m: Hash) {
    exists o :: Spends(h, o) && Spends(m, o)
  }

  // The pool transactions that share an input with `h`, and their descendants.
  ghost function Doomed(pool: set<Hash>, h: Hash): set<Hash> {
    set d | d in pool && exists m :: m in pool && SpendsSame(h, m) && Descends(pool, m, d)
  }

  lemma DoomStep(pool: set<Hash>, left: set<Hash>, h: Hash, r: seq<Hash>, m: Hash, d: Hash)
    requires LeafFirst(pool, r) && Elems(r) <= Doomed(pool, h) && left == pool - Elems(r)
    requires m in left && SpendsSame(h, m)
    requires Descends(left, m, d) && forall c :: c in left ==> !IsChild(d, c)
    ensures LeafFirst(pool, r + [d]) && Elems(r + [d]) <= Doomed(pool, h)
    ensures Elems(r + [d]) == Elems(r) + {d}
  {
    DescendsInLarger(left, pool, m, d);
    LeafFirstSnoc(pool, r, d);
  }

  lemma DoomEnd(pool: set<Hash>, h: Hash, r: seq<Hash>)
    requires LeafFirst(pool, r) && Elems(r) <= Doomed(pool, h)
    requires forall m :: m in pool - Elems(r) ==> !SpendsSame(h, m)
    ensures Elems(r) == Doomed(pool, h)
  {
    LeafFirstIsClosed(pool, r);
    forall d | d in Doomed(pool, h) ensures d in Elems(r) {
      var m :| m in pool && SpendsSame(h, m) && Descends(pool, m, d);
      ClosedHoldsDescendants(pool, Elems(r), m, d);
    }
  }

  lemma LeafFirstConcat(pool: set<Hash>, r: seq<Hash>, q: seq<Hash>)
    requires LeafFirst(pool, r) && (forall h :: h in q ==> h in pool ==> h !in r)
    requires forall h :: h in q ==> h in pool
    requires NoDup(q)
    requires forall i, c :: 0 <= i < |q| && c in pool && c !in r && IsChild(q[i], c) ==> c in q[..i]
    ensures LeafFirst(pool, r + q)
    ensures Elems(r + q) == Elems(r) + Elems(q)
  {
    var s := r + q;
    forall i, c | 0 <= i < |s| && c in pool && IsChild(s[i], c) ensures c in s[..i] {
      if i < |r| {
        assert s[..i] == r[..i];
      } else {
        assert s[..i] == r + q[..i - |r|];
        assert s[i] == q[i - |r|];
      }
    }
  }
}
