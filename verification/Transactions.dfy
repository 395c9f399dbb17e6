/**
 Transactions as the log pipeline sees them.

 A transaction hash is modelled symbolically: HashOf is a free constructor, so two
 transactions with the same hash are the same transaction, and no transaction can
 (even indirectly) spend its own output.  These are the two facts every stage
 takes from the real hash function.
 */
module Transactions {

  // An address, named by its place in the order in which address strings are compared.
  type Addr = nat

  // ExtractDestinations is already applied: `addrs` are the addresses of the script,
  // none for a script it cannot decode.
  datatype TxOut = TxOut(value: int, addrs: seq<Addr>)

  datatype Hash = HashOf(tx: Tx)

  datatype Outpoint = Outpoint(hash: Hash, n: nat)

  // The null input of a coinbase is not listed.  `salt` stands for scripts,
  // sequence numbers, version and lock time.
  datatype Tx = Tx(coinbase: bool, vin: seq<Outpoint>, vout: seq<TxOut>, salt: nat)

  ghost predicate NoDup<T(!new)>(s: seq<T>) {
    forall i, j :: 0 <= i < j < |s| ==> s[i] != s[j]
  }

  predicate InRange(o: Outpoint) {
    o.n < |o.hash.tx.vout|
  }

  // The output an input spends; nothing when it is out of range.
  function PrevOut(o: Outpoint): TxOut {
    if InRange(o) then o.hash.tx.vout[o.n] else TxOut(0, [])
  }

  const COIN := 100_000_000
  const MAX_MONEY := 21_000_000 * COIN

  predicate MoneyRange(v: int) {
    0 <= v <= MAX_MONEY
  }

  // What the first n outputs pay in all.
  function ValueOut(t: Tx, n: nat): int
    requires n <= |t.vout|
  {
    if n == 0 then 0 else ValueOut(t, n - 1) + t.vout[n - 1].value
  }

  // What the coinbase of a block pays out.
  function CoinbaseValue(txs: seq<Tx>): int {
    if txs == [] then 0 else ValueOut(txs[0], |txs[0].vout|)
  }

  predicate RangeAt(t: Tx, n: nat)
    requires n < |t.vout|
  {
    MoneyRange(t.vout[n].value) && MoneyRange(ValueOut(t, n + 1))
  }

  // No output and no running total is out of range.
  predicate InMoneyRange(t: Tx) {
    forall n: nat :: n < |t.vout| ==> RangeAt(t, n)
  }

  // One output counts with its value, and lists of outputs add up.
  lemma {:induction false} ValueOutAdds(t: Tx, p: seq<TxOut>, q: seq<TxOut>)
    ensures |p| == 1 ==> ValueOut(t.(vout := p), 1) == p[0].value
    ensures ValueOut(t.(vout := p + q), |p + q|) == ValueOut(t.(vout := p), |p|) + ValueOut(t.(vout := q), |q|)
    decreases |q|
  {
    if q == [] {
      assert p + q == p;
    } else {
      var front, last := q[..|q| - 1], q[|q| - 1];
      ValueOutAdds(t, p, front);
      assert p + q == p + front + [last] && q == front + [last];
      ValueOutOfPrefix(t.(vout := p + front), t.(vout := p + q), |p + front|);
      ValueOutOfPrefix(t.(vout := front), t.(vout := q), |front|);
    }
    if |p| == 1 {
      assert ValueOut(t.(vout := p), 0) == 0;
    }
  }

  lemma {:induction false} ValueOutOfPrefix(t: Tx, u: Tx, n: nat)
    requires n <= |t.vout| && n <= |u.vout| && t.vout[..n] == u.vout[..n]
    ensures ValueOut(t, n) == ValueOut(u, n)
    decreases n
  {
    if n > 0 {
      assert t.vout[n - 1] == t.vout[..n][n - 1] == u.vout[..n][n - 1] == u.vout[n - 1];
      assert t.vout[..n - 1] == t.vout[..n][..n - 1] && u.vout[..n - 1] == u.vout[..n][..n - 1];
      ValueOutOfPrefix(t, u, n - 1);
    }
  }

  lemma {:induction false} ValueOutGrows(t: Tx, n: nat, m: nat)
    requires n <= m <= |t.vout| && forall i :: 0 <= i < |t.vout| ==> t.vout[i].value >= 0
    ensures 0 <= ValueOut(t, n) <= ValueOut(t, m)
    decreases m
  {
    if n < m {
      ValueOutGrows(t, n, m - 1);
    } else if n > 0 {
      ValueOutGrows(t, n - 1, m - 1);
    }
  }

  // In range are those that have no negative output and pay no more than 21 million
  // coins in all.
  lemma InRangeIsBounded(t: Tx)
    ensures InMoneyRange(t) <==>
      && (forall i :: 0 <= i < |t.vout| ==> t.vout[i].value >= 0)
      && ValueOut(t, |t.vout|) <= 2_100_000_000_000_000
  {
    if InMoneyRange(t) {
      forall i | 0 <= i < |t.vout| ensures t.vout[i].value >= 0 {
        assert RangeAt(t, i);
      }
      assert |t.vout| > 0 ==> RangeAt(t, |t.vout| - 1);
    } else {
      var n: nat :| n < |t.vout| && !RangeAt(t, n);
      if forall i :: 0 <= i < |t.vout| ==> t.vout[i].value >= 0 {
        ValueOutGrows(t, 0, n);
        ValueOutGrows(t, n + 1, |t.vout|);
      }
    }
  }

  // Adds the outputs up; ok is false where the original throws.
  method GetValueOut(t: Tx) returns (ok: bool, valueOut: int)
    ensures ok <==> InMoneyRange(t)
    ensures ok ==> valueOut == ValueOut(t, |t.vout|)
  {
    valueOut := 0;
    for n := 0 to |t.vout|
      invariant valueOut == ValueOut(t, n)
      invariant forall m: nat :: m < n ==> RangeAt(t, m)
    {
      valueOut := valueOut + t.vout[n].value;
      if !MoneyRange(t.vout[n].value) || !MoneyRange(valueOut) {
        assert !RangeAt(t, n);
        return false, valueOut;
      }
    }
    ok := true;
  }

  // What a single transaction must satisfy, whatever the state of the chain.
  ghost predicate WellFormed(t: Tx) {
    && (t.coinbase ==> t.vin == [])
    && NoDup(t.vin)
    && (forall o :: o in t.vin ==> InRange(o))
    && (forall n :: 0 <= n < |t.vout| ==> NoDup(t.vout[n].addrs))
    && InMoneyRange(t)
  }

  ghost predicate Spends(h: Hash, o: Outpoint) {
    o in h.tx.vin
  }

  // Depth of a transaction in the spending order: a spender is above what it spends.
  function Rank(h: Hash): nat
    decreases h, |h.tx.vin| + 1
  {
    1 + MaxRank(h, |h.tx.vin|)
  }

  // The highest rank among what the first n inputs spend.
  function MaxRank(h: Hash, n: nat): (r: nat)
    requires n <= |h.tx.vin|
    ensures forall i :: 0 <= i < n ==> Rank(h.tx.vin[i].hash) <= r
    decreases h, n
  {
    if n == 0 then 0
    else
      var r0 := Rank(h.tx.vin[n - 1].hash);
      var r1 := MaxRank(h, n - 1);
      if r0 < r1 then r1 else r0
  }

  lemma SpenderRanksHigher(h: Hash, o: Outpoint)
    requires Spends(h, o)
    ensures Rank(o.hash) < Rank(h)
  {
  }

  // ---------- What a transaction moves at one address ----------

  predicate Pays(out: TxOut, a: Addr) {
    a in out.addrs
  }

  function Share(out: TxOut, a: Addr): int {
    if Pays(out, a) then out.value else 0
  }

  // Paid to `a` by the first n outputs.
  function OutSum(t: Tx, n: nat, a: Addr): int
    requires n <= |t.vout|
  {
    if n == 0 then 0 else OutSum(t, n - 1, a) + Share(t.vout[n - 1], a)
  }

  // Taken from `a` by the first n inputs.
  function InSum(t: Tx, n: nat, a: Addr): int
    requires n <= |t.vin|
  {
    if n == 0 then 0 else InSum(t, n - 1, a) + Share(PrevOut(t.vin[n - 1]), a)
  }

  // The balance difference of `t` at `a`.
  function Diff(t: Tx, a: Addr): int {
    OutSum(t, |t.vout|, a) - InSum(t, |t.vin|, a)
  }

  ghost predicate PaidBy(t: Tx, n: nat, a: Addr)
    requires n <= |t.vout|
  {
    exists i :: 0 <= i < n && Pays(t.vout[i], a)
  }

  ghost predicate TakenBy(t: Tx, n: nat, a: Addr)
    requires n <= |t.vin|
  {
    exists i :: 0 <= i < n && Pays(PrevOut(t.vin[i]), a)
  }

  // `t` appears in the transaction list of `a`.
  ghost predicate Touches(t: Tx, a: Addr) {
    TakenBy(t, |t.vin|, a) || PaidBy(t, |t.vout|, a)
  }

  lemma {:induction false} NotPaidIsZero(t: Tx, n: nat, a: Addr)
    requires n <= |t.vout| && !PaidBy(t, n, a)
    ensures OutSum(t, n, a) == 0
    decreases n
  {
    if n > 0 {
      assert !Pays(t.vout[n - 1], a);
      NotPaidIsZero(t, n - 1, a);
    }
  }

  lemma {:induction false} NotTakenIsZero(t: Tx, n: nat, a: Addr)
    requires n <= |t.vin| && !TakenBy(t, n, a)
    ensures InSum(t, n, a) == 0
    decreases n
  {
    if n > 0 {
      assert !Pays(PrevOut(t.vin[n - 1]), a);
      NotTakenIsZero(t, n - 1, a);
    }
  }
}
