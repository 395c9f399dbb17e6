/**
 The unspent outputs of one address: keys 23_{address}_{index} and
 24_{address}_{tx hash}_{position}, and the counters that go with them.
 */
module AddressUnspents {
  import opened Transactions
  import opened Ledgers

  // position2 is the place of the address among the addresses of the output.
  datatype Unspent = Unspent(txHash: Hash, position: nat, position2: nat, value: int)

  datatype AddrUnspents = AddrUnspents(
    unspentTxCount: int, unspentTxIndex: int,
    entries: map<int, Unspent>, entryIdx: map<Outpoint, int>)

  const NEW_ADDR_UNSPENTS := AddrUnspents(0, -1, map[], map[])

  // ---------- The steps of the original ----------

  function Inserted(u: AddrUnspents, o: Outpoint, position2: nat, value: int): AddrUnspents {
    AddrUnspents(u.unspentTxCount + 1, u.unspentTxIndex + 1,
                 u.entries[u.unspentTxIndex + 1 := Unspent(o.hash, o.n, position2, value)],
                 u.entryIdx[o := u.unspentTxIndex + 1])
  }

  // Deletes the entry of `o`; only spending, not rejecting, counts it off.
  function Deleted(u: AddrUnspents, o: Outpoint, counted: bool): AddrUnspents
    requires o in u.entryIdx
  {
    u.(unspentTxCount := if counted then u.unspentTxCount - 1 else u.unspentTxCount,
       entries := u.entries - {u.entryIdx[o]}, entryIdx := u.entryIdx - {o})
  }

  // ---------- What the index should be ----------

  function PointOf(e: Unspent): Outpoint {
    Outpoint(e.txHash, e.position)
  }

  // The entry describes an output that pays `a`.
  ghost predicate Describes(e: Unspent, a: Addr) {
    var o := PointOf(e);
    && InRange(o)
    && e.value == PrevOut(o).value
    && e.position2 < |PrevOut(o).addrs| && PrevOut(o).addrs[e.position2] == a
  }

  // 23_ and 24_ are inverse, and no index above unspentTxIndex was ever used.
  ghost predicate Inverse(u: AddrUnspents, a: Addr) {
    && u.unspentTxIndex >= -1
    && (forall o :: o in u.entryIdx ==> u.entryIdx[o] in u.entries && PointOf(u.entries[u.entryIdx[o]]) == o)
    && (forall i :: i in u.entries ==>
      && 0 <= i <= u.unspentTxIndex
      && Describes(u.entries[i], a)
      && PointOf(u.entries[i]) in u.entryIdx && u.entryIdx[PointOf(u.entries[i])] == i)
  }

  // The values of the 23_ entries with an index below n.
  function ValueBelow(entries: map<int, Unspent>, n: nat): int {
    if n == 0 then 0
    else ValueBelow(entries, n - 1) + if n - 1 in entries then entries[n - 1].value else 0
  }

  // What the 23_ list of the address is worth.
  function Holdings(u: AddrUnspents): int
    requires u.unspentTxIndex >= -1
  {
    ValueBelow(u.entries, u.unspentTxIndex + 1)
  }

  // By how much the counter of 20_ exceeds the list.
  function Drift(u: AddrUnspents): int {
    u.unspentTxCount - |u.entryIdx.Keys|
  }

  // ---------- Each step keeps the index right ----------

  lemma {:induction false} ValueWithout(entries: map<int, Unspent>, i: int, n: nat)
    requires i in entries && 0 <= i
    ensures ValueBelow(entries - {i}, n) == ValueBelow(entries, n) - if i < n then entries[i].value else 0
    decreases n
  {
    if n > 0 {
      ValueWithout(entries, i, n - 1);
    }
  }

  lemma {:induction false} ValueWith(entries: map<int, Unspent>, i: int, e: Unspent, n: nat)
    requires n <= i
    ensures ValueBelow(entries[i := e], n) == ValueBelow(entries, n)
    decreases n
  {
    if n > 0 {
      ValueWith(entries, i, e, n - 1);
    }
  }

  lemma InsertKeepsDrift(u: AddrUnspents, o: Outpoint, j: nat, value: int)
    requires o !in u.entryIdx
    ensures Drift(Inserted(u, o, j, value)) == Drift(u)
  {
    assert Inserted(u, o, j, value).entryIdx.Keys == u.entryIdx.Keys + {o};
  }

  lemma DeleteMovesDrift(u: AddrUnspents, o: Outpoint, counted: bool)
    requires o in u.entryIdx
    ensures Drift(Deleted(u, o, counted)) == if counted then Drift(u) else Drift(u) + 1
  {
    assert Deleted(u, o, counted).entryIdx.Keys == u.entryIdx.Keys - {o};
  }

  lemma InsertAddsValue(u: AddrUnspents, o: Outpoint, j: nat, value: int)
    requires u.unspentTxIndex >= -1
    ensures Holdings(Inserted(u, o, j, value)) == Holdings(u) + value
  {
    ValueWith(u.entries, u.unspentTxIndex + 1, Unspent(o.hash, o.n, j, value), u.unspentTxIndex + 1);
  }

  // A new entry gets an index above all earlier ones.
  lemma InsertKeepsInverse(u: AddrUnspents, a: Addr, o: Outpoint, j: nat)
    requires Inverse(u, a) && o !in u.entryIdx
    requires InRange(o) && j < |PrevOut(o).addrs| && PrevOut(o).addrs[j] == a
    ensures var v := Inserted(u, o, j, PrevOut(o).value);
      && Inverse(v, a)
      && (forall i :: i in u.entries ==> i < v.entryIdx[o])
      && v.entryIdx.Keys == u.entryIdx.Keys + {o}
      && Holdings(v) == Holdings(u) + PrevOut(o).value
      && Drift(v) == Drift(u)
  {
    hide PrevOut, Drift, Holdings;
    InsertKeepsDrift(u, o, j, PrevOut(o).value);
    InsertAddsValue(u, o, j, PrevOut(o).value);
  }

  lemma DeleteKeepsInverse(u: AddrUnspents, a: Addr, o: Outpoint, counted: bool)
    requires Inverse(u, a) && o in u.entryIdx
    ensures var v := Deleted(u, o, counted);
      && Inverse(v, a)
      && v.entryIdx.Keys == u.entryIdx.Keys - {o}
      && Holdings(v) == Holdings(u) - PrevOut(o).value
      && Drift(v) == if counted then Drift(u) else Drift(u) + 1
  {
    hide PrevOut, ValueBelow, Drift;
    DeleteMovesDrift(u, o, counted);
    ValueWithout(u.entries, u.entryIdx[o], u.unspentTxIndex + 1);
  }

  // ---------- What the ledger says the address holds ----------

  // `o` is an output of a live transaction that pays `a`, spent by no live transaction.
  ghost predicate Holds(l: Ledger, a: Addr, o: Outpoint) {
    Live(l, o.hash) && InRange(o) && Pays(PrevOut(o), a) && !SpentLive(l, o)
  }

  ghost predicate UnspentsAgree(u: AddrUnspents, a: Addr, l: Ledger) {
    && Inverse(u, a)
    && forall o :: o in u.entryIdx <==> Holds(l, a, o)
  }

  // How far a run over outputs and inputs of one transaction has come: `added` and
  // `gone` tell which outpoints, `worth` by how much the holdings changed, `uncounted`
  // how many were taken from the list without being counted off.
  ghost predicate Moved(u: AddrUnspents, v: AddrUnspents, a: Addr,
                        added: set<Outpoint>, gone: set<Outpoint>, worth: int, uncounted: int)
    requires Inverse(u, a)
  {
    && Inverse(v, a)
    && v.entryIdx.Keys == u.entryIdx.Keys + added - gone
    && Holdings(v) == Holdings(u) + worth
    && Drift(v) == Drift(u) + uncounted
    && u.unspentTxIndex <= v.unspentTxIndex
  }

  lemma MoreAdded(u: AddrUnspents, v: AddrUnspents, w: AddrUnspents, a: Addr,
                  added: set<Outpoint>, x: int, more: set<Outpoint>, y: int)
    requires Inverse(u, a) && Moved(u, v, a, added, {}, x, 0) && Moved(v, w, a, more, {}, y, 0)
    ensures Moved(u, w, a, added + more, {}, x + y, 0)
  {
    hide Inverse, Holdings, Drift;
  }

  lemma MoreGone(u: AddrUnspents, v: AddrUnspents, w: AddrUnspents, a: Addr,
                 added: set<Outpoint>, gone: set<Outpoint>, x: int, c: int, more: set<Outpoint>, y: int, d: int)
    requires Inverse(u, a) && Moved(u, v, a, added, gone, x, c) && Moved(v, w, a, {}, more, y, d)
    ensures Moved(u, w, a, added, gone + more, x + y, c + d)
  {
    hide Inverse, Holdings, Drift;
  }

  // The outpoints of `added` got the next indexes, in this order, whether or not they are
  // still there; every other one that is there has the index it had.
  ghost predicate Numbered(u: AddrUnspents, v: AddrUnspents, added: seq<Outpoint>) {
    && v.unspentTxIndex == u.unspentTxIndex + |added|
    && (forall i :: 0 <= i < |added| && added[i] in v.entryIdx ==>
      v.entryIdx[added[i]] == u.unspentTxIndex + 1 + i)
    && forall o :: o in v.entryIdx && o !in added ==> o in u.entryIdx && v.entryIdx[o] == u.entryIdx[o]
  }

  lemma NumberedOn(u: AddrUnspents, v: AddrUnspents, w: AddrUnspents, p: seq<Outpoint>, q: seq<Outpoint>)
    requires Numbered(u, v, p) && Numbered(v, w, q) && forall o :: o in p ==> o !in q
    ensures Numbered(u, w, p + q)
  {
    var all := p + q;
    forall i | 0 <= i < |all| && all[i] in w.entryIdx ensures w.entryIdx[all[i]] == u.unspentTxIndex + 1 + i {
      if i < |p| {
        assert p[i] !in q && p[i] in v.entryIdx;
      }
    }
    forall o | o in w.entryIdx && o !in all ensures o in u.entryIdx && w.entryIdx[o] == u.entryIdx[o] {
      assert o !in p && o !in q;
    }
  }

  lemma NothingNew(u: AddrUnspents)
    ensures Numbered(u, u, [])
  {
  }

  lemma InsertIsNumbered(u: AddrUnspents, o: Outpoint, j: nat, value: int)
    ensures Numbered(u, Inserted(u, o, j, value), [o])
  {
  }

  lemma DeleteIsNumbered(u: AddrUnspents, o: Outpoint, counted: bool)
    requires o in u.entryIdx
    ensures Numbered(u, Deleted(u, o, counted), [])
  {
  }

  function OneOf(out: TxOut, a: Addr, o: Outpoint): seq<Outpoint> {
    if Pays(out, a) then [o] else []
  }

  // The outputs of `h` that pay `a`, among the first n, lowest first.
  function PaidInOrder(h: Hash, n: nat, a: Addr): (s: seq<Outpoint>)
    requires n <= |h.tx.vout|
  {
    if n == 0 then [] else PaidInOrder(h, n - 1, a) + OneOf(h.tx.vout[n - 1], a, Outpoint(h, n - 1))
  }

  // What the first n inputs of `t` take from `a`, in the order of the inputs.
  function TakenInOrder(t: Tx, n: nat, a: Addr): (s: seq<Outpoint>)
    requires n <= |t.vin|
  {
    if n == 0 then [] else TakenInOrder(t, n - 1, a) + OneOf(PrevOut(t.vin[n - 1]), a, t.vin[n - 1])
  }

  lemma {:induction false} PaidArePaying(h: Hash, n: nat, a: Addr)
    requires n <= |h.tx.vout|
    ensures forall o :: o in PaidInOrder(h, n, a) <==> o.hash == h && o.n < n && Pays(h.tx.vout[o.n], a)
    decreases n
  {
    hide Pays;
    if n > 0 {
      PaidArePaying(h, n - 1, a);
    }
  }

  // Lower outputs first.
  ghost predicate Ascend(s: seq<Outpoint>) {
    forall i, j :: 0 <= i < j < |s| ==> s[i].n < s[j].n
  }

  lemma AscendSnoc(s: seq<Outpoint>, o: Outpoint)
    requires Ascend(s) && forall p :: p in s ==> p.n < o.n
    ensures Ascend(s + [o]) && s + [] == s
  {
  }

  lemma AscendNone()
    ensures Ascend([])
  {
  }

  lemma {:induction false} PaidAscend(h: Hash, n: nat, a: Addr)
    requires n <= |h.tx.vout|
    ensures |PaidInOrder(h, n, a)| == PayCount(h.tx, n, a) && Ascend(PaidInOrder(h, n, a))
    decreases n
  {
    hide Pays, Ascend;
    AscendNone();
    if n > 0 {
      PaidAscend(h, n - 1, a);
      PaidArePaying(h, n - 1, a);
      AscendSnoc(PaidInOrder(h, n - 1, a), Outpoint(h, n - 1));
    }
  }

  lemma {:induction false} TakenAreInputs(t: Tx, n: nat, a: Addr)
    requires n <= |t.vin|
    ensures forall o :: o in TakenInOrder(t, n, a) <==> o in t.vin[..n] && Pays(PrevOut(o), a)
    decreases n
  {
    hide PrevOut, Pays;
    if n > 0 {
      TakenAreInputs(t, n - 1, a);
      assert t.vin[..n] == t.vin[..n - 1] + [t.vin[n - 1]];
    }
  }

  // Some input with x comes before one with y, both among the first n.
  ghost predicate Earlier(t: Tx, n: nat, x: Outpoint, y: Outpoint)
    requires n <= |t.vin|
  {
    exists q :: 0 <= q < n && t.vin[q] == y && x in t.vin[..q]
  }

  ghost predicate FollowInputs(t: Tx, n: nat, s: seq<Outpoint>)
    requires n <= |t.vin|
  {
    forall i, j :: 0 <= i < j < |s| ==> Earlier(t, n, s[i], s[j])
  }

  lemma {:induction false} TakenFollowInputs(t: Tx, n: nat, a: Addr)
    requires n <= |t.vin|
    ensures FollowInputs(t, n, TakenInOrder(t, n, a))
    decreases n
  {
    hide PrevOut, Pays;
    if n > 0 {
      TakenFollowInputs(t, n - 1, a);
      TakenAreInputs(t, n - 1, a);
      hide FollowInputs;
      FollowSnoc(t, n, TakenInOrder(t, n - 1, a));
    }
  }

  lemma FollowSnoc(t: Tx, n: nat, pre: seq<Outpoint>)
    requires 0 < n <= |t.vin| && FollowInputs(t, n - 1, pre) && forall o :: o in pre ==> o in t.vin[..n - 1]
    ensures FollowInputs(t, n, pre + []) && FollowInputs(t, n, pre + [t.vin[n - 1]])
  {
    hide Earlier;
    forall i, j | 0 <= i < j < |pre| ensures Earlier(t, n, pre[i], pre[j]) {
      EarlierStays(t, n, pre[i], pre[j]);
    }
    forall i | 0 <= i < |pre| ensures Earlier(t, n, pre[i], t.vin[n - 1]) {
      assert pre[i] in pre;
      LastIsLater(t, n, pre[i]);
    }
  }

  lemma EarlierStays(t: Tx, n: nat, x: Outpoint, y: Outpoint)
    requires 0 < n <= |t.vin| && Earlier(t, n - 1, x, y)
    ensures Earlier(t, n, x, y)
  {
  }

  lemma LastIsLater(t: Tx, n: nat, x: Outpoint)
    requires 0 < n <= |t.vin| && x in t.vin[..n - 1]
    ensures Earlier(t, n, x, t.vin[n - 1])
  {
  }

  // The outputs of `h` that pay `a`, among the first n.
  ghost function PayingOutputs(h: Hash, n: nat, a: Addr): set<Outpoint>
    requires n <= |h.tx.vout|
  {
    set i | 0 <= i < n && Pays(h.tx.vout[i], a) :: Outpoint(h, i)
  }

  // What the first n inputs of `t` take from `a`.
  ghost function TakenInputs(t: Tx, n: nat, a: Addr): set<Outpoint>
    requires n <= |t.vin|
  {
    set i | 0 <= i < n && Pays(PrevOut(t.vin[i]), a) :: t.vin[i]
  }

  function Unit(out: TxOut, a: Addr): nat {
    if Pays(out, a) then 1 else 0
  }

  // How many of the first n outputs pay `a`.
  function PayCount(t: Tx, n: nat, a: Addr): nat
    requires n <= |t.vout|
  {
    if n == 0 then 0 else PayCount(t, n - 1, a) + Unit(t.vout[n - 1], a)
  }

  function One(out: TxOut, a: Addr, o: Outpoint): set<Outpoint> {
    if Pays(out, a) then {o} else {}
  }

  // The first n outputs of `h` have been added to, or taken from, the holdings of `a`.
  ghost predicate OutputsAdded(u: AddrUnspents, v: AddrUnspents, a: Addr, h: Hash, n: nat)
    requires Inverse(u, a) && n <= |h.tx.vout|
  {
    && Moved(u, v, a, PayingOutputs(h, n, a), {}, OutSum(h.tx, n, a), 0)
    && Numbered(u, v, PaidInOrder(h, n, a))
  }

  ghost predicate OutputsGone(u: AddrUnspents, v: AddrUnspents, a: Addr, h: Hash, n: nat)
    requires Inverse(u, a) && n <= |h.tx.vout|
  {
    && Moved(u, v, a, {}, PayingOutputs(h, n, a), -OutSum(h.tx, n, a), PayCount(h.tx, n, a))
    && Numbered(u, v, [])
  }

  // Likewise for what the first n inputs of `t` spend.
  ghost predicate InputsAdded(u: AddrUnspents, v: AddrUnspents, a: Addr, t: Tx, n: nat)
    requires Inverse(u, a) && n <= |t.vin|
  {
    && Moved(u, v, a, TakenInputs(t, n, a), {}, InSum(t, n, a), 0)
    && Numbered(u, v, TakenInOrder(t, n, a))
  }

  ghost predicate InputsGone(u: AddrUnspents, v: AddrUnspents, a: Addr, t: Tx, n: nat)
    requires Inverse(u, a) && n <= |t.vin|
  {
    && Moved(u, v, a, {}, TakenInputs(t, n, a), -InSum(t, n, a), 0)
    && Numbered(u, v, [])
  }

  // One output came or went at `a`.
  ghost predicate OneAdded(u: AddrUnspents, v: AddrUnspents, a: Addr, o: Outpoint)
    requires Inverse(u, a)
  {
    && Moved(u, v, a, One(PrevOut(o), a, o), {}, Share(PrevOut(o), a), 0)
    && Numbered(u, v, OneOf(PrevOut(o), a, o))
  }

  ghost predicate OneGone(u: AddrUnspents, v: AddrUnspents, a: Addr, o: Outpoint, counted: bool)
    requires Inverse(u, a)
  {
    && Moved(u, v, a, {}, One(PrevOut(o), a, o), -Share(PrevOut(o), a), if counted then 0 else Unit(PrevOut(o), a))
    && Numbered(u, v, [])
  }

  lemma PayingOutputsSnoc(h: Hash, n: nat, a: Addr)
    requires n < |h.tx.vout|
    ensures PayingOutputs(h, n + 1, a) == PayingOutputs(h, n, a) + One(h.tx.vout[n], a, Outpoint(h, n))
    ensures Outpoint(h, n) !in PayingOutputs(h, n, a)
  {
  }

  lemma TakenInputsSnoc(t: Tx, n: nat, a: Addr)
    requires n < |t.vin|
    ensures TakenInputs(t, n + 1, a) == TakenInputs(t, n, a) + One(PrevOut(t.vin[n]), a, t.vin[n])
    ensures NoDup(t.vin) ==> t.vin[n] !in TakenInputs(t, n, a)
  {
  }

  lemma OutputsAddedSnoc(u: AddrUnspents, v: AddrUnspents, w: AddrUnspents, a: Addr, h: Hash, n: nat)
    requires n < |h.tx.vout| && Inverse(u, a)
    requires OutputsAdded(u, v, a, h, n) && OneAdded(v, w, a, Outpoint(h, n))
    ensures OutputsAdded(u, w, a, h, n + 1)
  {
    hide Inverse, Moved, Numbered;
    PayingOutputsSnoc(h, n, a);
    PaidArePaying(h, n, a);
    NumberedOn(u, v, w, PaidInOrder(h, n, a), OneOf(h.tx.vout[n], a, Outpoint(h, n)));
    MoreAdded(u, v, w, a, PayingOutputs(h, n, a), OutSum(h.tx, n, a),
              One(h.tx.vout[n], a, Outpoint(h, n)), Share(h.tx.vout[n], a));
  }

  lemma OutputsGoneSnoc(u: AddrUnspents, v: AddrUnspents, w: AddrUnspents, a: Addr, h: Hash, n: nat)
    requires n < |h.tx.vout| && Inverse(u, a)
    requires OutputsGone(u, v, a, h, n) && OneGone(v, w, a, Outpoint(h, n), false)
    ensures OutputsGone(u, w, a, h, n + 1)
  {
    hide Inverse, Moved, Numbered;
    PayingOutputsSnoc(h, n, a);
    var none: seq<Outpoint> := [];
    NumberedOn(u, v, w, none, none);
    assert none + none == none;
    MoreGone(u, v, w, a, {}, PayingOutputs(h, n, a), -OutSum(h.tx, n, a), PayCount(h.tx, n, a),
             One(h.tx.vout[n], a, Outpoint(h, n)), -Share(h.tx.vout[n], a), Unit(h.tx.vout[n], a));
  }

  lemma InputsAddedSnoc(u: AddrUnspents, v: AddrUnspents, w: AddrUnspents, a: Addr, t: Tx, n: nat)
    requires n < |t.vin| && Inverse(u, a) && NoDup(t.vin)
    requires InputsAdded(u, v, a, t, n) && OneAdded(v, w, a, t.vin[n])
    ensures InputsAdded(u, w, a, t, n + 1)
  {
    hide Inverse, Moved, PrevOut, Numbered;
    TakenAreInputs(t, n, a);
    NumberedOn(u, v, w, TakenInOrder(t, n, a), OneOf(PrevOut(t.vin[n]), a, t.vin[n]));
    TakenInputsSnoc(t, n, a);
    MoreAdded(u, v, w, a, TakenInputs(t, n, a), InSum(t, n, a),
              One(PrevOut(t.vin[n]), a, t.vin[n]), Share(PrevOut(t.vin[n]), a));
  }

  lemma InputsGoneSnoc(u: AddrUnspents, v: AddrUnspents, w: AddrUnspents, a: Addr, t: Tx, n: nat)
    requires n < |t.vin| && Inverse(u, a)
    requires InputsGone(u, v, a, t, n) && OneGone(v, w, a, t.vin[n], true)
    ensures InputsGone(u, w, a, t, n + 1)
  {
    hide Inverse, Moved, PrevOut, Numbered;
    var none: seq<Outpoint> := [];
    NumberedOn(u, v, w, none, none);
    assert none + none == none;
    TakenInputsSnoc(t, n, a);
    MoreGone(u, v, w, a, {}, TakenInputs(t, n, a), -InSum(t, n, a), 0,
             One(PrevOut(t.vin[n]), a, t.vin[n]), -Share(PrevOut(t.vin[n]), a), 0);
  }

  // Accepting `h` turns its outputs into holdings and ends those it spends.
  lemma AcceptMovesHoldings(u: AddrUnspents, v: AddrUnspents, a: Addr, l: Ledger, h: Hash)
    requires UnspentsAgree(u, a, l) && Consistent(l) && Legal(l, Accept(h))
    requires Moved(u, v, a, PayingOutputs(h, |h.tx.vout|, a), TakenInputs(h.tx, |h.tx.vin|, a),
                   Diff(h.tx, a), 0)
    ensures UnspentsAgree(v, a, Apply(l, Accept(h)))
  {
    hide Consistent, Inverse, Holdings, Diff, Drift, PayCount;
    var m := Apply(l, Accept(h));
    assert forall k :: Live(m, k) <==> Live(l, k) || k == h;
    forall o ensures o in v.entryIdx <==> Holds(m, a, o) {
      SpentAfterAccept(l, h, o);
      if o.hash == h {
        assert !Live(l, h);
      }
      if Spends(h, o) {
        var i :| 0 <= i < |h.tx.vin| && h.tx.vin[i] == o;
      }
    }
  }

  lemma SpentAfterAccept(l: Ledger, h: Hash, o: Outpoint)
    requires Consistent(l) && Legal(l, Accept(h))
    ensures SpentLive(Apply(l, Accept(h)), o) <==> SpentLive(l, o) || Spends(h, o)
    ensures o.hash == h ==> !SpentLive(Apply(l, Accept(h)), o)
  {
    var m := Apply(l, Accept(h));
    assert Live(m, h);
    if SpentLive(l, o) {
      var k :| Live(l, k) && Spends(k, o);
      assert Live(m, k);
    }
  }

  // Rejecting `h` is the reverse.
  lemma RejectMovesHoldings(u: AddrUnspents, v: AddrUnspents, a: Addr, l: Ledger, h: Hash)
    requires UnspentsAgree(u, a, l) && Consistent(l) && Legal(l, Reject(h))
    requires Moved(u, v, a, TakenInputs(h.tx, |h.tx.vin|, a), PayingOutputs(h, |h.tx.vout|, a),
                   -Diff(h.tx, a), PayCount(h.tx, |h.tx.vout|, a))
    ensures UnspentsAgree(v, a, Apply(l, Reject(h)))
  {
    hide Consistent, Inverse, Holdings, Diff, Drift, PayCount;
    var m := Apply(l, Reject(h));
    assert forall k :: Live(l, k) <==> Live(m, k) || k == h;
    forall o ensures o in v.entryIdx <==> Holds(m, a, o) {
      SpentAfterReject(l, h, o);
      if Spends(h, o) {
        var i :| 0 <= i < |h.tx.vin| && h.tx.vin[i] == o;
      }
    }
  }

  lemma SpentAfterReject(l: Ledger, h: Hash, o: Outpoint)
    requires Consistent(l) && Legal(l, Reject(h))
    ensures SpentLive(Apply(l, Reject(h)), o) <==> SpentLive(l, o) && !Spends(h, o)
    ensures Spends(h, o) ==> o.hash != h && SpentLive(l, o) && Live(l, o.hash) && InRange(o)
    ensures !Live(Apply(l, Reject(h)), h) && (o.hash == h ==> !SpentLive(l, o))
  {
    var m := Apply(l, Reject(h));
    assert Live(l, h);
    if SpentLive(l, o) && !Spends(h, o) {
      var k :| Live(l, k) && Spends(k, o);
      assert Live(m, k);
    }
  }

  // The other events move nothing.
  lemma SameHoldings(u: AddrUnspents, a: Addr, l: Ledger, e: Event)
    requires UnspentsAgree(u, a, l) && Legal(l, e) && (e.Confirm? || e.Unconfirm?)
    ensures UnspentsAgree(u, a, Apply(l, e))
  {
    var m := Apply(l, e);
    if e.Unconfirm? {
      assert l.confirmed == m.confirmed + [e.hash];
    }
    assert forall k :: Live(m, k) <==> Live(l, k);
    assert forall o :: SpentLive(m, o) <==> SpentLive(l, o);
    assert forall o :: Holds(m, a, o) <==> Holds(l, a, o);
  }

  lemma AcceptedAgree(u: AddrUnspents, v: AddrUnspents, w: AddrUnspents, a: Addr, l: Ledger, h: Hash)
    requires UnspentsAgree(u, a, l) && Consistent(l) && Legal(l, Accept(h))
    requires OutputsAdded(u, v, a, h, |h.tx.vout|)
    requires Inverse(v, a) && InputsGone(v, w, a, h.tx, |h.tx.vin|)
    ensures UnspentsAgree(w, a, Apply(l, Accept(h)))
    ensures Holdings(w) == Holdings(u) + Diff(h.tx, a) && Drift(w) == Drift(u)
    ensures Numbered(u, w, PaidInOrder(h, |h.tx.vout|, a))
  {
    hide Numbered, Inverse, Holdings, Drift, Consistent, PayCount, PayingOutputs, TakenInputs, OutSum, InSum, Holds;
    MoreGone(u, v, w, a, PayingOutputs(h, |h.tx.vout|, a), {}, OutSum(h.tx, |h.tx.vout|, a), 0,
             TakenInputs(h.tx, |h.tx.vin|, a), -InSum(h.tx, |h.tx.vin|, a), 0);
    NumberedOn(u, v, w, PaidInOrder(h, |h.tx.vout|, a), []);
    assert PaidInOrder(h, |h.tx.vout|, a) + [] == PaidInOrder(h, |h.tx.vout|, a);
    AcceptMovesHoldings(u, w, a, l, h);
  }

  // Before a transaction is accepted its outputs are held by no one; once they are,
  // what it spends is still held.
  lemma AcceptFinds(u: AddrUnspents, v: AddrUnspents, a: Addr, l: Ledger, h: Hash)
    requires UnspentsAgree(u, a, l) && Consistent(l) && Legal(l, Accept(h))
    ensures forall n :: 0 <= n < |h.tx.vout| ==> Outpoint(h, n) !in u.entryIdx
    ensures OutputsAdded(u, v, a, h, |h.tx.vout|) ==>
      forall i :: 0 <= i < |h.tx.vin| && Pays(PrevOut(h.tx.vin[i]), a) ==> h.tx.vin[i] in v.entryIdx
  {
    forall i | 0 <= i < |h.tx.vin| && Pays(PrevOut(h.tx.vin[i]), a) ensures h.tx.vin[i] in u.entryIdx {
      assert Spends(h, h.tx.vin[i]);
    }
  }

  lemma RejectedAgree(u: AddrUnspents, v: AddrUnspents, w: AddrUnspents, a: Addr, l: Ledger, h: Hash)
    requires UnspentsAgree(u, a, l) && Consistent(l) && Legal(l, Reject(h))
    requires InputsAdded(u, v, a, h.tx, |h.tx.vin|)
    requires Inverse(v, a) && OutputsGone(v, w, a, h, |h.tx.vout|)
    ensures UnspentsAgree(w, a, Apply(l, Reject(h)))
    ensures Holdings(w) == Holdings(u) - Diff(h.tx, a)
    ensures Drift(w) == Drift(u) + PayCount(h.tx, |h.tx.vout|, a)
    ensures Numbered(u, w, TakenInOrder(h.tx, |h.tx.vin|, a))
  {
    hide Numbered, Inverse, Holdings, Drift, Consistent, PayCount, PayingOutputs, TakenInputs, OutSum, InSum, Holds;
    MoreGone(u, v, w, a, TakenInputs(h.tx, |h.tx.vin|, a), {}, InSum(h.tx, |h.tx.vin|, a), 0,
             PayingOutputs(h, |h.tx.vout|, a), -OutSum(h.tx, |h.tx.vout|, a), PayCount(h.tx, |h.tx.vout|, a));
    NumberedOn(u, v, w, TakenInOrder(h.tx, |h.tx.vin|, a), []);
    assert TakenInOrder(h.tx, |h.tx.vin|, a) + [] == TakenInOrder(h.tx, |h.tx.vin|, a);
    RejectMovesHoldings(u, w, a, l, h);
  }

  // What a transaction spends is held by no one until it is rejected; its own outputs
  // are still held then.
  lemma RejectFinds(u: AddrUnspents, v: AddrUnspents, a: Addr, l: Ledger, h: Hash)
    requires UnspentsAgree(u, a, l) && Consistent(l) && Legal(l, Reject(h))
    ensures forall i :: 0 <= i < |h.tx.vin| ==> h.tx.vin[i] !in u.entryIdx
    ensures InputsAdded(u, v, a, h.tx, |h.tx.vin|) ==>
      forall n :: 0 <= n < |h.tx.vout| && Pays(h.tx.vout[n], a) ==> Outpoint(h, n) in v.entryIdx
  {
    assert Live(l, h);
    forall i | 0 <= i < |h.tx.vin| ensures h.tx.vin[i] !in u.entryIdx {
      assert Spends(h, h.tx.vin[i]) && SpentLive(l, h.tx.vin[i]);
    }
    forall n | 0 <= n < |h.tx.vout| && Pays(h.tx.vout[n], a) ensures Outpoint(h, n) in u.entryIdx {
      var o := Outpoint(h, n);
      assert InRange(o) && !SpentLive(l, o);
    }
  }
}
