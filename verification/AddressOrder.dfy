/** In what order the list of an address holds its transactions, over whole runs. */
module AddressOrder {
  import opened Transactions
  import opened Ledgers
  import opened AddressTxs

  // The place of the last ACCEPT row of `h`, -1 when there is none.
  function Arrival(log: seq<Event>, h: Hash): int
    decreases |log|
  {
    if log == [] then -1
    else if Last(log) == Accept(h) then |log| - 1
    else Arrival(Front(log), h)
  }

  // Who arrived earlier comes first.
  ghost predicate ArrivalOrder(nodeIdx: map<Hash, int>, log: seq<Event>) {
    forall g, h :: g in nodeIdx && h in nodeIdx && Arrival(log, g) < Arrival(log, h) ==> nodeIdx[g] < nodeIdx[h]
  }

  // Of the unconfirmed transactions of `a`, the row confirms the first that arrived, or
  // rejects the last.
  ghost predicate InTurn(l: Ledger, log: seq<Event>, e: Event, a: Addr) {
    match e
    case Confirm(h, _) => Touches(h.tx, a) ==> forall g :: IsWaiting(l, a, g, h) ==> Arrival(log, h) < Arrival(log, g)
    case Reject(h) => Touches(h.tx, a) ==> forall g :: IsWaiting(l, a, g, h) ==> Arrival(log, g) < Arrival(log, h)
    case _ => true
  }

  // Another unconfirmed transaction of `a`.
  ghost predicate IsWaiting(l: Ledger, a: Addr, g: Hash, h: Hash) {
    g in l.pool && g != h && Touches(g.tx, a)
  }

  // All rows of the run were in turn at `a`.
  ghost predicate TakenInTurn(l: Ledger, log: seq<Event>, a: Addr)
    requires LegalRun(l, log)
    decreases |log|
  {
    log == [] || (TakenInTurn(l, Front(log), a) && InTurn(Replay(l, Front(log)), Front(log), Last(log), a))
  }

  lemma {:induction false} ArrivalIsPast(log: seq<Event>, h: Hash)
    ensures -1 <= Arrival(log, h) < |log|
    decreases |log|
  {
    if log != [] {
      ArrivalIsPast(Front(log), h);
    }
  }

  lemma ArrivalSnoc(log: seq<Event>, e: Event)
    ensures forall h :: Arrival(log + [e], h) == if e == Accept(h) then |log| else Arrival(log, h)
  {
    assert Front(log + [e]) == log;
  }

  // The unconfirmed part of a list: no gap, and nothing but what waits.
  lemma WaitingPart(r: AddrTxs, a: Addr, l: Ledger)
    requires TxsAgree(r, a, l)
    ensures -1 <= r.lastConfirmedTxIdx < r.txCount
    ensures forall g :: g in r.nodeIdx ==>
      0 <= r.nodeIdx[g] < r.txCount && r.nodeIdx[g] in r.nodes && r.nodes[r.nodeIdx[g]].txHash == g
    ensures forall g :: g in r.nodeIdx && r.nodeIdx[g] > r.lastConfirmedTxIdx ==> g in l.pool && Touches(g.tx, a)
    ensures forall i :: 0 <= i < r.txCount ==>
      i in r.nodes && r.nodes[i].txHash in r.nodeIdx && r.nodeIdx[r.nodes[i].txHash] == i
  {
    var s :| Covers(r, a, s, l);
    hide AllConfirmedOf, Diff, Touches;
    forall g | g in r.nodeIdx && r.nodeIdx[g] > r.lastConfirmedTxIdx ensures g in l.pool && Touches(g.tx, a) {
      assert s[r.nodeIdx[g]] == g;
    }
  }

  // What is confirmed in turn is the first unconfirmed of the list.
  lemma FirstInTurn(r: AddrTxs, a: Addr, l: Ledger, log: seq<Event>, h: Hash)
    requires TxsAgree(r, a, l) && ArrivalOrder(r.nodeIdx, log) && h in l.pool && Touches(h.tx, a)
    requires forall g :: IsWaiting(l, a, g, h) ==> Arrival(log, h) < Arrival(log, g)
    ensures h in r.nodeIdx && r.nodeIdx[h] == r.lastConfirmedTxIdx + 1
  {
    UnconfirmedPlace(r, a, l, h);
    WaitingPart(r, a, l);
    hide TxsAgree, Touches, Arrival;
    var g := r.nodes[r.lastConfirmedTxIdx + 1].txHash;
    assert g != h ==> IsWaiting(l, a, g, h);
  }

  // What is rejected in turn is the last of the list.
  lemma LastInTurn(r: AddrTxs, a: Addr, l: Ledger, log: seq<Event>, h: Hash)
    requires TxsAgree(r, a, l) && ArrivalOrder(r.nodeIdx, log) && h in l.pool && Touches(h.tx, a)
    requires forall g :: IsWaiting(l, a, g, h) ==> Arrival(log, g) < Arrival(log, h)
    ensures h in r.nodeIdx && r.nodeIdx[h] == r.txCount - 1
  {
    UnconfirmedPlace(r, a, l, h);
    WaitingPart(r, a, l);
    hide TxsAgree, Touches, Arrival;
    var g := r.nodes[r.txCount - 1].txHash;
    assert g != h ==> IsWaiting(l, a, g, h);
  }

  lemma AcceptKeepsOrder(r: AddrTxs, q: AddrTxs, a: Addr, l: Ledger, log: seq<Event>, h: Hash)
    requires TxsAgree(r, a, l) && Placed(r, q, Accept(h)) && ArrivalOrder(r.nodeIdx, log)
    ensures ArrivalOrder(q.nodeIdx, log + [Accept(h)])
  {
    ArrivalSnoc(log, Accept(h));
    WaitingPart(r, a, l);
    hide TxsAgree, Arrival;
    forall g | g in r.nodeIdx ensures Arrival(log, g) < |log| {
      ArrivalIsPast(log, g);
    }
  }

  lemma RejectKeepsOrder(r: AddrTxs, q: AddrTxs, a: Addr, log: seq<Event>, h: Hash)
    requires h in r.nodeIdx && r.nodeIdx[h] == r.txCount - 1
    requires forall g :: g in r.nodeIdx && r.nodeIdx[g] == r.txCount - 1 ==> g == h
    requires Placed(r, q, Reject(h)) && ArrivalOrder(r.nodeIdx, log)
    ensures ArrivalOrder(q.nodeIdx, log + [Reject(h)])
  {
    ArrivalSnoc(log, Reject(h));
    hide Arrival;
  }

  // A row in turn keeps the order.
  lemma RowKeepsOrder(r: AddrTxs, q: AddrTxs, a: Addr, l: Ledger, log: seq<Event>, e: Event)
    requires TxsAgree(r, a, l) && Legal(l, e) && Touches(e.hash.tx, a) && Placed(r, q, e)
    requires ArrivalOrder(r.nodeIdx, log) && InTurn(l, log, e, a)
    ensures ArrivalOrder(q.nodeIdx, log + [e])
  {
    hide TxsAgree, Touches, Arrival;
    ArrivalSnoc(log, e);
    WaitingPart(r, a, l);
    match e
    case Accept(h) =>
      AcceptKeepsOrder(r, q, a, l, log, h);
    case Confirm(h, _) =>
      FirstInTurn(r, a, l, log, h);
      SameIndexes(r, q, h, r.lastConfirmedTxIdx + 1);
    case Unconfirm(h) =>
    case Reject(h) =>
      LastInTurn(r, a, l, log, h);
      RejectKeepsOrder(r, q, a, log, h);
  }

  lemma SameIndexes(r: AddrTxs, q: AddrTxs, h: Hash, i: int)
    requires h in r.nodeIdx && r.nodeIdx[h] == i && Exchanged(r.nodeIdx, q.nodeIdx, h, i)
    ensures q.nodeIdx == r.nodeIdx
  {
    assert forall g :: g in q.nodeIdx <==> g in r.nodeIdx;
  }

  // One row more of a run: in turn all along, the list stays in the order of arrival.
  lemma ArrivalStep(r: AddrTxs, q: AddrTxs, a: Addr, l: Ledger, log: seq<Event>, i: nat)
    requires i < |log| && LegalRun(l, log[..i]) && LegalRun(l, log[..i + 1])
    requires Legal(Replay(l, log[..i]), log[i]) && ListMoved(r, q, log[i], a)
    requires TxsAgree(r, a, Replay(l, log[..i]))
    requires TakenInTurn(l, log[..i], a) ==> ArrivalOrder(r.nodeIdx, log[..i])
    requires TakenInTurn(l, log[..i + 1], a)
    ensures ArrivalOrder(q.nodeIdx, log[..i + 1])
  {
    hide TxsAgree, Legal, LegalRun, Replay, InTurn, Placed, Touches;
    var pre, e := log[..i], log[i];
    assert log[..i + 1] == pre + [e] && Front(log[..i + 1]) == pre;
    if Touches(e.hash.tx, a) {
      RowKeepsOrder(r, q, a, Replay(l, pre), pre, e);
    } else {
      UntouchedKeepsOrder(r, a, Replay(l, pre), pre, e);
    }
  }

  lemma UntouchedKeepsOrder(r: AddrTxs, a: Addr, l: Ledger, log: seq<Event>, e: Event)
    requires TxsAgree(r, a, l) && !Touches(e.hash.tx, a) && ArrivalOrder(r.nodeIdx, log)
    ensures ArrivalOrder(r.nodeIdx, log + [e])
  {
    ArrivalSnoc(log, e);
    var s :| Covers(r, a, s, l);
    ListedIsLive(r, a, s, l);
  }
}
