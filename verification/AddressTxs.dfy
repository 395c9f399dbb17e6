/**
 The transaction list of one address: keys 21_{address}_{index} and
 22_{address}_{tx hash}, and the counters of 20_{address} that go with them.
 */
module AddressTxs {
  import opened Transactions
  import opened Ledgers

  // height is -1 while the transaction is unconfirmed.
  datatype TxNode = TxNode(txHash: Hash, height: int, diff: int)

  datatype AddrTxs = AddrTxs(
    txCount: int, received: int, sent: int,
    unconfirmedTxCount: int, unconfirmedReceived: int, unconfirmedSent: int,
    lastConfirmedTxIdx: int,
    nodes: map<int, TxNode>, nodeIdx: map<Hash, int>)

  const NEW_ADDR_TXS := AddrTxs(0, 0, 0, 0, 0, 0, -1, map[], map[])

  // The part of a difference that came in, and the part that went out.
  function Received(diff: int): int {
    if diff > 0 then diff else 0
  }

  function Sent(diff: int): int {
    if diff < 0 then -diff else 0
  }

  // One of the two is 0, and the difference is what came in less what went out.
  lemma InOrOut(diff: int, received: int, sent: int)
    ensures received == Received(diff) && sent == Sent(diff) <==>
      received >= 0 && sent >= 0 && received - sent == diff && (received == 0 || sent == 0)
  {
  }

  // ---------- The steps of the original ----------

  // A new transaction goes to the end of the list.
  function Appended(r: AddrTxs, h: Hash, diff: int): AddrTxs {
    r.(txCount := r.txCount + 1,
       received := r.received + Received(diff), sent := r.sent + Sent(diff),
       unconfirmedTxCount := r.unconfirmedTxCount + 1,
       unconfirmedReceived := r.unconfirmedReceived + Received(diff),
       unconfirmedSent := r.unconfirmedSent + Sent(diff),
       nodes := r.nodes[r.txCount := TxNode(h, -1, diff)],
       nodeIdx := r.nodeIdx[h := r.txCount])
  }

  function Switched(r: AddrTxs, i: int, j: int): AddrTxs
    requires i in r.nodes && j in r.nodes
  {
    r.(nodes := r.nodes[i := r.nodes[j]][j := r.nodes[i]],
       nodeIdx := r.nodeIdx[r.nodes[i].txHash := j][r.nodes[j].txHash := i])
  }

  function ConfirmedAt(r: AddrTxs, idx: int, height: int): AddrTxs
    requires idx in r.nodes
  {
    var n := r.nodes[idx];
    r.(unconfirmedReceived := r.unconfirmedReceived - Received(n.diff),
       unconfirmedSent := r.unconfirmedSent - Sent(n.diff),
       unconfirmedTxCount := r.unconfirmedTxCount - 1,
       lastConfirmedTxIdx := idx,
       nodes := r.nodes[idx := n.(height := height)])
  }

  function UnconfirmedAt(r: AddrTxs, idx: int): AddrTxs
    requires idx in r.nodes
  {
    var n := r.nodes[idx];
    r.(unconfirmedReceived := r.unconfirmedReceived + Received(n.diff),
       unconfirmedSent := r.unconfirmedSent + Sent(n.diff),
       unconfirmedTxCount := r.unconfirmedTxCount + 1,
       lastConfirmedTxIdx := r.lastConfirmedTxIdx - 1,
       nodes := r.nodes[idx := n.(height := -1)])
  }

  function WithoutLast(r: AddrTxs, h: Hash, diff: int): AddrTxs {
    r.(txCount := r.txCount - 1,
       received := r.received - Received(diff), sent := r.sent - Sent(diff),
       unconfirmedReceived := r.unconfirmedReceived - Received(diff),
       unconfirmedSent := r.unconfirmedSent - Sent(diff),
       unconfirmedTxCount := r.unconfirmedTxCount - 1,
       nodes := r.nodes - {r.txCount - 1}, nodeIdx := r.nodeIdx - {h})
  }

  // ---------- What the list should be ----------

  datatype Entry = Entry(hash: Hash, height: nat)

  // The confirmed transactions of `a` among the first n, in confirmation order.
  ghost function ConfirmedOf(l: Ledger, n: nat, a: Addr): seq<Entry>
    requires n <= |l.confirmed| == |l.heights|
  {
    if n == 0 then []
    else if Touches(l.confirmed[n - 1].tx, a)
    then ConfirmedOf(l, n - 1, a) + [Entry(l.confirmed[n - 1], l.heights[n - 1])]
    else ConfirmedOf(l, n - 1, a)
  }

  ghost function AllConfirmedOf(l: Ledger, a: Addr): seq<Entry>
    requires |l.confirmed| == |l.heights|
  {
    ConfirmedOf(l, |l.confirmed|, a)
  }

  // Totals over the first n transactions of a list.
  ghost function ReceivedBy(s: seq<Hash>, n: nat, a: Addr): int
    requires n <= |s|
  {
    if n == 0 then 0 else ReceivedBy(s, n - 1, a) + Received(Diff(s[n - 1].tx, a))
  }

  ghost function SentBy(s: seq<Hash>, n: nat, a: Addr): int
    requires n <= |s|
  {
    if n == 0 then 0 else SentBy(s, n - 1, a) + Sent(Diff(s[n - 1].tx, a))
  }

  ghost predicate NodesHold(nodes: map<int, TxNode>, a: Addr, s: seq<Hash>) {
    && (forall i :: i in nodes <==> 0 <= i < |s|)
    && (forall i :: 0 <= i < |s| ==> nodes[i].txHash == s[i] && nodes[i].diff == Diff(s[i].tx, a))
  }

  ghost predicate IndexHolds(nodeIdx: map<Hash, int>, s: seq<Hash>) {
    && (forall h :: h in nodeIdx ==> 0 <= nodeIdx[h] < |s| && s[nodeIdx[h]] == h)
    && (forall i :: 0 <= i < |s| ==> s[i] in nodeIdx && nodeIdx[s[i]] == i)
  }

  // 21_ holds exactly `s`, and 22_ is its inverse.
  ghost predicate Indexed(nodes: map<int, TxNode>, nodeIdx: map<Hash, int>, a: Addr, s: seq<Hash>) {
    NodesHold(nodes, a, s) && IndexHolds(nodeIdx, s)
  }

  // The counters of 20_ are those of a list whose first k transactions are confirmed.
  ghost predicate Totalled(r: AddrTxs, a: Addr, s: seq<Hash>, k: nat) {
    && k <= |s| == r.txCount
    && r.lastConfirmedTxIdx == k - 1
    && r.received == ReceivedBy(s, |s|, a)
    && r.sent == SentBy(s, |s|, a)
    && r.unconfirmedTxCount == |s| - k
    && r.unconfirmedReceived == ReceivedBy(s, |s|, a) - ReceivedBy(s, k, a)
    && r.unconfirmedSent == SentBy(s, |s|, a) - SentBy(s, k, a)
  }

  // The confirmed part of `s` is `c`, heights included; the rest are the pool
  // transactions of `a`.
  ghost predicate Matches(nodes: map<int, TxNode>, nodeIdx: map<Hash, int>, a: Addr, s: seq<Hash>,
                          c: seq<Entry>, pool: set<Hash>) {
    && |c| <= |s|
    && Indexed(nodes, nodeIdx, a, s)
    && (forall i :: 0 <= i < |c| ==> s[i] == c[i].hash && nodes[i].height == c[i].height)
    && (forall i :: |c| <= i < |s| ==> nodes[i].height == -1 && s[i] in pool && Touches(s[i].tx, a))
    && (forall h :: h in pool && Touches(h.tx, a) ==> h in nodeIdx && nodeIdx[h] >= |c|)
  }

  ghost predicate Covers(r: AddrTxs, a: Addr, s: seq<Hash>, l: Ledger) {
    && |l.confirmed| == |l.heights|
    && Totalled(r, a, s, |AllConfirmedOf(l, a)|)
    && Matches(r.nodes, r.nodeIdx, a, s, AllConfirmedOf(l, a), l.pool)
  }

  ghost predicate TxsAgree(r: AddrTxs, a: Addr, l: Ledger) {
    exists s :: Covers(r, a, s, l)
  }

  // ---------- Each step keeps the list right ----------

  lemma {:induction false} SumsUpdate(s: seq<Hash>, i: nat, h: Hash, n: nat, a: Addr)
    requires i < |s| && n <= |s|
    ensures ReceivedBy(s[i := h], n, a) == ReceivedBy(s, n, a) +
      if i < n then Received(Diff(h.tx, a)) - Received(Diff(s[i].tx, a)) else 0
    ensures SentBy(s[i := h], n, a) == SentBy(s, n, a) +
      if i < n then Sent(Diff(h.tx, a)) - Sent(Diff(s[i].tx, a)) else 0
    decreases n
  {
    if n > 0 {
      SumsUpdate(s, i, h, n - 1, a);
    }
  }

  lemma {:induction false} SumsOfPrefix(s: seq<Hash>, q: seq<Hash>, n: nat, a: Addr)
    requires n <= |s| && n <= |q| && s[..n] == q[..n]
    ensures ReceivedBy(s, n, a) == ReceivedBy(q, n, a)
    ensures SentBy(s, n, a) == SentBy(q, n, a)
    decreases n
  {
    if n > 0 {
      assert s[n - 1] == s[..n][n - 1] == q[..n][n - 1] == q[n - 1];
      assert s[..n - 1] == s[..n][..n - 1] == q[..n][..n - 1] == q[..n - 1];
      SumsOfPrefix(s, q, n - 1, a);
    }
  }

  function Swap(s: seq<Hash>, i: nat, j: nat): seq<Hash>
    requires i < |s| && j < |s|
  {
    s[i := s[j]][j := s[i]]
  }

  lemma SwapTotals(s: seq<Hash>, i: nat, j: nat, n: nat, a: Addr)
    requires i < |s| && j < |s| && n <= |s| && (i < n <==> j < n)
    ensures ReceivedBy(Swap(s, i, j), n, a) == ReceivedBy(s, n, a)
    ensures SentBy(Swap(s, i, j), n, a) == SentBy(s, n, a)
  {
    SumsUpdate(s, i, s[j], n, a);
    SumsUpdate(s[i := s[j]], j, s[i], n, a);
  }

  lemma SwitchedTotals(r: AddrTxs, a: Addr, s: seq<Hash>, k: nat, i: nat, j: nat)
    requires Totalled(r, a, s, k) && k <= i < |s| && k <= j < |s| && i in r.nodes && j in r.nodes
    ensures Totalled(Switched(r, i, j), a, Swap(s, i, j), k)
  {
    SwapTotals(s, i, j, |s|, a);
    SwapTotals(s, i, j, k, a);
  }

  lemma SwapNodes(nodes: map<int, TxNode>, a: Addr, s: seq<Hash>, i: nat, j: nat)
    requires NodesHold(nodes, a, s) && i < |s| && j < |s|
    ensures NodesHold(nodes[i := nodes[j]][j := nodes[i]], a, Swap(s, i, j))
  {
    hide Diff;
  }

  lemma SwapIndex(nodeIdx: map<Hash, int>, s: seq<Hash>, i: nat, j: nat)
    requires IndexHolds(nodeIdx, s) && i < |s| && j < |s|
    ensures IndexHolds(nodeIdx[s[i] := j][s[j] := i], Swap(s, i, j))
  {
    var t := Swap(s, i, j);
    assert forall k :: 0 <= k < |s| ==> t[k] == if k == j then s[i] else if k == i then s[j] else s[k];
  }

  lemma SwapIndexed(r: AddrTxs, a: Addr, s: seq<Hash>, i: nat, j: nat)
    requires Indexed(r.nodes, r.nodeIdx, a, s) && i < |s| && j < |s|
    ensures Indexed(Switched(r, i, j).nodes, Switched(r, i, j).nodeIdx, a, Swap(s, i, j))
  {
    SwapNodes(r.nodes, a, s, i, j);
    SwapIndex(r.nodeIdx, s, i, j);
    hide IndexHolds, Swap, Diff;
  }

  lemma SwapMatches(r: AddrTxs, a: Addr, s: seq<Hash>, c: seq<Entry>, pool: set<Hash>, i: nat, j: nat)
    requires Matches(r.nodes, r.nodeIdx, a, s, c, pool) && |c| <= i < |s| && |c| <= j < |s|
    ensures var q := Switched(r, i, j); Matches(q.nodes, q.nodeIdx, a, Swap(s, i, j), c, pool)
  {
    hide Diff, Touches, Indexed;
    IndexFacts(r.nodes, r.nodeIdx, a, s);
    SwapIndexed(r, a, s, i, j);
  }

  lemma AppendTotals(r: AddrTxs, a: Addr, s: seq<Hash>, k: nat, h: Hash)
    requires Totalled(r, a, s, k)
    ensures Totalled(Appended(r, h, Diff(h.tx, a)), a, s + [h], k)
  {
    var q := s + [h];
    SumsOfPrefix(s, q, |s|, a);
    SumsOfPrefix(s, q, k, a);
    assert q[|s|] == h;
  }

  lemma AppendMatches(nodes: map<int, TxNode>, nodeIdx: map<Hash, int>, a: Addr, s: seq<Hash>,
                      c: seq<Entry>, pool: set<Hash>, h: Hash)
    requires Matches(nodes, nodeIdx, a, s, c, pool) && h !in nodeIdx && Touches(h.tx, a)
    ensures Matches(nodes[|s| := TxNode(h, -1, Diff(h.tx, a))], nodeIdx[h := |s|], a, s + [h], c, pool + {h})
  {
    hide Diff, Touches;
  }

  lemma ConfirmTotals(r: AddrTxs, a: Addr, s: seq<Hash>, k: nat, height: int)
    requires Totalled(r, a, s, k) && k < |s| && k in r.nodes && r.nodes[k].diff == Diff(s[k].tx, a)
    ensures Totalled(ConfirmedAt(r, k, height), a, s, k + 1)
  {
  }

  lemma ConfirmMatches(nodes: map<int, TxNode>, nodeIdx: map<Hash, int>, a: Addr, s: seq<Hash>,
                       c: seq<Entry>, pool: set<Hash>, height: nat)
    requires Matches(nodes, nodeIdx, a, s, c, pool) && |c| < |s|
    ensures Matches(nodes[|c| := nodes[|c|].(height := height)], nodeIdx, a, s,
                    c + [Entry(s[|c|], height)], pool - {s[|c|]})
  {
    hide Diff, Touches;
  }

  lemma UnconfirmTotals(r: AddrTxs, a: Addr, s: seq<Hash>, k: nat)
    requires Totalled(r, a, s, k) && k > 0 && k - 1 in r.nodes && r.nodes[k - 1].diff == Diff(s[k - 1].tx, a)
    ensures Totalled(UnconfirmedAt(r, k - 1), a, s, k - 1)
  {
  }

  lemma HeightKeepsIndexed(nodes: map<int, TxNode>, nodeIdx: map<Hash, int>, a: Addr, s: seq<Hash>, i: int, height: int)
    requires Indexed(nodes, nodeIdx, a, s) && 0 <= i < |s|
    ensures i in nodes && Indexed(nodes[i := nodes[i].(height := height)], nodeIdx, a, s)
  {
    hide Diff, IndexHolds;
  }

  lemma UnconfirmMatches(nodes: map<int, TxNode>, nodeIdx: map<Hash, int>, a: Addr, s: seq<Hash>,
                         c: seq<Entry>, pool: set<Hash>)
    requires Matches(nodes, nodeIdx, a, s, c, pool) && c != [] && Touches(Last(c).hash.tx, a)
    ensures |c| - 1 in nodes
    ensures Matches(nodes[|c| - 1 := nodes[|c| - 1].(height := -1)], nodeIdx, a, s,
                    Front(c), pool + {Last(c).hash})
  {
    hide Diff, Touches, Indexed;
    IndexFacts(nodes, nodeIdx, a, s);
    HeightKeepsIndexed(nodes, nodeIdx, a, s, |c| - 1, -1);
  }

  lemma IndexFacts(nodes: map<int, TxNode>, nodeIdx: map<Hash, int>, a: Addr, s: seq<Hash>)
    requires Indexed(nodes, nodeIdx, a, s)
    ensures forall i :: i in nodes <==> 0 <= i < |s|
    ensures forall h :: h in nodeIdx ==> 0 <= nodeIdx[h] < |s| && s[nodeIdx[h]] == h
    ensures forall i :: 0 <= i < |s| ==> s[i] in nodeIdx && nodeIdx[s[i]] == i
  {
  }

  lemma WithoutLastTotals(r: AddrTxs, a: Addr, s: seq<Hash>, k: nat)
    requires Totalled(r, a, s, k) && k < |s|
    ensures var h := s[|s| - 1];
      Totalled(WithoutLast(r, h, Diff(h.tx, a)), a, s[..|s| - 1], k)
  {
    var q := s[..|s| - 1];
    SumsOfPrefix(s, q, |q|, a);
    SumsOfPrefix(s, q, k, a);
  }

  lemma WithoutLastIndexed(nodes: map<int, TxNode>, nodeIdx: map<Hash, int>, a: Addr, s: seq<Hash>)
    requires Indexed(nodes, nodeIdx, a, s) && s != []
    ensures Indexed(nodes - {|s| - 1}, nodeIdx - {s[|s| - 1]}, a, s[..|s| - 1])
  {
    hide Diff;
  }

  lemma WithoutLastMatches(nodes: map<int, TxNode>, nodeIdx: map<Hash, int>, a: Addr, s: seq<Hash>,
                           c: seq<Entry>, pool: set<Hash>)
    requires Matches(nodes, nodeIdx, a, s, c, pool) && |c| < |s|
    ensures var h := s[|s| - 1];
      Matches(nodes - {|s| - 1}, nodeIdx - {h}, a, s[..|s| - 1], c, pool - {h})
  {
    hide Diff, Touches, Indexed;
    IndexFacts(nodes, nodeIdx, a, s);
    WithoutLastIndexed(nodes, nodeIdx, a, s);
  }

  // ---------- Each event keeps the agreement ----------

  lemma {:induction false} ConfirmedOfPrefix(l: Ledger, m: Ledger, n: nat, a: Addr)
    requires n <= |l.confirmed| == |l.heights| && n <= |m.confirmed| == |m.heights|
    requires l.confirmed[..n] == m.confirmed[..n] && l.heights[..n] == m.heights[..n]
    ensures ConfirmedOf(l, n, a) == ConfirmedOf(m, n, a)
    decreases n
  {
    if n > 0 {
      assert l.confirmed[n - 1] == l.confirmed[..n][n - 1] && l.heights[n - 1] == l.heights[..n][n - 1];
      assert m.confirmed[n - 1] == m.confirmed[..n][n - 1] && m.heights[n - 1] == m.heights[..n][n - 1];
      assert l.confirmed[..n - 1] == l.confirmed[..n][..n - 1];
      assert m.confirmed[..n - 1] == m.confirmed[..n][..n - 1];
      assert l.heights[..n - 1] == l.heights[..n][..n - 1];
      assert m.heights[..n - 1] == m.heights[..n][..n - 1];
      ConfirmedOfPrefix(l, m, n - 1, a);
    }
  }

  // How an event changes the confirmed transactions of `a`.
  lemma ConfirmedOfStep(l: Ledger, e: Event, a: Addr)
    requires |l.confirmed| == |l.heights| && Legal(l, e)
    ensures var c, d := AllConfirmedOf(l, a), AllConfirmedOf(Apply(l, e), a);
      match e
      case Confirm(h, height) => d == if Touches(h.tx, a) then c + [Entry(h, height)] else c
      case Unconfirm(h) =>
        if Touches(h.tx, a) then c != [] && d == Front(c) && Last(c) == Entry(h, Last(l.heights)) else d == c
      case _ => d == c
  {
    var m := Apply(l, e);
    if e.Unconfirm? {
      ConfirmedOfPrefix(l, m, |m.confirmed|, a);
    } else {
      ConfirmedOfPrefix(l, m, |l.confirmed|, a);
    }
  }

  lemma {:induction false} ConfirmedOfIn(l: Ledger, n: nat, a: Addr)
    requires n <= |l.confirmed| == |l.heights|
    ensures forall i :: 0 <= i < |ConfirmedOf(l, n, a)| ==>
      ConfirmedOf(l, n, a)[i].hash in l.confirmed && Touches(ConfirmedOf(l, n, a)[i].hash.tx, a)
    decreases n
  {
    if n > 0 {
      ConfirmedOfIn(l, n - 1, a);
    }
  }

  lemma SamePoolMatches(nodes: map<int, TxNode>, nodeIdx: map<Hash, int>, a: Addr, s: seq<Hash>,
                        c: seq<Entry>, pool: set<Hash>, other: set<Hash>)
    requires Matches(nodes, nodeIdx, a, s, c, pool)
    requires forall h: Hash :: Touches(h.tx, a) ==> (h in pool <==> h in other)
    ensures Matches(nodes, nodeIdx, a, s, c, other)
  {
  }

  lemma UntouchedAgrees(r: AddrTxs, a: Addr, l: Ledger, e: Event)
    requires TxsAgree(r, a, l) && Legal(l, e) && !Touches(e.hash.tx, a)
    ensures TxsAgree(r, a, Apply(l, e))
  {
    hide Totalled, Matches, AllConfirmedOf, Touches;
    var s :| Covers(r, a, s, l);
    ConfirmedOfStep(l, e, a);
    SamePoolMatches(r.nodes, r.nodeIdx, a, s, AllConfirmedOf(l, a), l.pool, Apply(l, e).pool);
    assert Covers(r, a, s, Apply(l, e));
  }

  lemma ListedIsLive(r: AddrTxs, a: Addr, s: seq<Hash>, l: Ledger)
    requires Covers(r, a, s, l)
    ensures forall h :: h in r.nodeIdx ==> Live(l, h) && Touches(h.tx, a)
  {
    ConfirmedOfIn(l, |l.confirmed|, a);
    forall h | h in r.nodeIdx ensures Live(l, h) && Touches(h.tx, a) {
      assert s[r.nodeIdx[h]] == h;
    }
  }

  lemma NodePlace(r: AddrTxs, a: Addr, s: seq<Hash>, l: Ledger, h: Hash)
    requires Covers(r, a, s, l) && h in r.nodeIdx
    ensures 0 <= r.nodeIdx[h] < |s| == r.txCount && s[r.nodeIdx[h]] == h
    ensures r.nodeIdx[h] in r.nodes && r.nodes[r.nodeIdx[h]].diff == Diff(h.tx, a)
  {
    hide AllConfirmedOf, Diff, Touches;
  }

  lemma AppendedAgrees(r: AddrTxs, a: Addr, l: Ledger, h: Hash)
    requires TxsAgree(r, a, l) && Legal(l, Accept(h)) && Touches(h.tx, a)
    ensures TxsAgree(Appended(r, h, Diff(h.tx, a)), a, Apply(l, Accept(h)))
  {
    var s :| Covers(r, a, s, l);
    ListedIsLive(r, a, s, l);
    ConfirmedOfStep(l, Accept(h), a);
    AppendTotals(r, a, s, |AllConfirmedOf(l, a)|, h);
    AppendMatches(r.nodes, r.nodeIdx, a, s, AllConfirmedOf(l, a), l.pool, h);
    assert Covers(Appended(r, h, Diff(h.tx, a)), a, s + [h], Apply(l, Accept(h)));
  }

  lemma SwitchedCovers(r: AddrTxs, a: Addr, s: seq<Hash>, l: Ledger, i: nat, j: nat)
    requires Covers(r, a, s, l)
    requires |AllConfirmedOf(l, a)| <= i < |s| && |AllConfirmedOf(l, a)| <= j < |s|
    ensures Covers(Switched(r, i, j), a, Swap(s, i, j), l)
  {
    SwitchedTotals(r, a, s, |AllConfirmedOf(l, a)|, i, j);
    SwapMatches(r, a, s, AllConfirmedOf(l, a), l.pool, i, j);
  }

  lemma ConfirmedAgrees(r: AddrTxs, a: Addr, s: seq<Hash>, l: Ledger, h: Hash, height: nat)
    requires Covers(r, a, s, l) && Legal(l, Confirm(h, height)) && Touches(h.tx, a)
    requires h in r.nodeIdx && r.nodeIdx[h] == |AllConfirmedOf(l, a)|
    ensures TxsAgree(ConfirmedAt(r, r.nodeIdx[h], height), a, Apply(l, Confirm(h, height)))
  {
    hide Totalled, Matches, AllConfirmedOf, Touches, Diff;
    NodePlace(r, a, s, l, h);
    var k := |AllConfirmedOf(l, a)|;
    ConfirmedOfStep(l, Confirm(h, height), a);
    ConfirmTotals(r, a, s, k, height);
    ConfirmMatches(r.nodes, r.nodeIdx, a, s, AllConfirmedOf(l, a), l.pool, height);
    assert Covers(ConfirmedAt(r, k, height), a, s, Apply(l, Confirm(h, height)));
  }

  // The transaction to unconfirm is the last confirmed one of each of its addresses.
  lemma LastConfirmedNode(r: AddrTxs, a: Addr, s: seq<Hash>, l: Ledger, h: Hash)
    requires Covers(r, a, s, l) && Legal(l, Unconfirm(h)) && Touches(h.tx, a)
    ensures h in r.nodeIdx && r.nodeIdx[h] == r.lastConfirmedTxIdx == |AllConfirmedOf(l, a)| - 1
    ensures r.lastConfirmedTxIdx >= 0
    ensures r.nodeIdx[h] in r.nodes && r.nodeIdx[h] < |s| && s[r.nodeIdx[h]] == h
    ensures r.nodes[r.nodeIdx[h]].diff == Diff(h.tx, a)
  {
    ConfirmedOfStep(l, Unconfirm(h), a);
    hide AllConfirmedOf, Touches, Diff;
  }

  lemma UnconfirmedAgrees(r: AddrTxs, a: Addr, s: seq<Hash>, l: Ledger, h: Hash)
    requires Covers(r, a, s, l) && Legal(l, Unconfirm(h)) && Touches(h.tx, a)
    requires h in r.nodeIdx
    ensures r.nodeIdx[h] in r.nodes
    ensures TxsAgree(UnconfirmedAt(r, r.nodeIdx[h]), a, Apply(l, Unconfirm(h)))
  {
    hide AllConfirmedOf, Totalled, Matches, Touches, Diff;
    var k := |AllConfirmedOf(l, a)|;
    LastConfirmedNode(r, a, s, l, h);
    ConfirmedOfStep(l, Unconfirm(h), a);
    UnconfirmTotals(r, a, s, k);
    UnconfirmMatches(r.nodes, r.nodeIdx, a, s, AllConfirmedOf(l, a), l.pool);
    assert Covers(UnconfirmedAt(r, k - 1), a, s, Apply(l, Unconfirm(h)));
  }

  lemma WithoutLastAgrees(r: AddrTxs, a: Addr, s: seq<Hash>, l: Ledger, h: Hash)
    requires Covers(r, a, s, l) && Legal(l, Reject(h)) && Touches(h.tx, a)
    requires h in r.nodeIdx && r.nodeIdx[h] == |s| - 1 && |AllConfirmedOf(l, a)| < |s|
    ensures TxsAgree(WithoutLast(r, h, Diff(h.tx, a)), a, Apply(l, Reject(h)))
  {
    hide Totalled, Matches, AllConfirmedOf, Touches, Diff;
    NodePlace(r, a, s, l, h);
    ConfirmedOfStep(l, Reject(h), a);
    WithoutLastTotals(r, a, s, |AllConfirmedOf(l, a)|);
    WithoutLastMatches(r.nodes, r.nodeIdx, a, s, AllConfirmedOf(l, a), l.pool);
    assert Covers(WithoutLast(r, h, Diff(h.tx, a)), a, s[..|s| - 1], Apply(l, Reject(h)));
  }

  // ---------- Where each transaction is in the list ----------

  // `h` goes to place i, and what is there to the place of `h`; all else stays.
  ghost predicate Exchanged(p: map<Hash, int>, q: map<Hash, int>, h: Hash, i: int)
    requires h in p
  {
    && q.Keys == p.Keys
    && forall g :: g in p ==> q[g] == if g == h then i else if p[g] == i then p[h] else p[g]
  }

  // What a row does to the places in the list of an address it touches: a new
  // transaction goes behind all others, which stay; one to confirm changes places with
  // the first unconfirmed one, one to reject with the last before it goes.
  ghost predicate Placed(r: AddrTxs, q: AddrTxs, e: Event) {
    match e
    case Accept(h) =>
      && h !in r.nodeIdx && q.nodeIdx == r.nodeIdx[h := r.txCount]
      && forall i :: i in r.nodes ==> i in q.nodes && q.nodes[i] == r.nodes[i]
    case Confirm(h, _) =>
      h in r.nodeIdx && Exchanged(r.nodeIdx, q.nodeIdx, h, r.lastConfirmedTxIdx + 1)
    case Unconfirm(_) =>
      q.nodeIdx == r.nodeIdx
    case Reject(h) =>
      && h in r.nodeIdx && q.nodeIdx.Keys == r.nodeIdx.Keys - {h}
      && forall g :: g in q.nodeIdx ==>
        q.nodeIdx[g] == if r.nodeIdx[g] == r.txCount - 1 then r.nodeIdx[h] else r.nodeIdx[g]
  }

  // Addresses the row does not touch keep their list as it is.
  ghost predicate ListMoved(r: AddrTxs, q: AddrTxs, e: Event, a: Addr) {
    if Touches(e.hash.tx, a) then Placed(r, q, e) else q == r
  }

  lemma ListStays(r: AddrTxs, e: Event, a: Addr)
    requires !Touches(e.hash.tx, a)
    ensures ListMoved(r, r, e, a)
  {
  }

  lemma ListMoves(r: AddrTxs, q: AddrTxs, e: Event, a: Addr)
    requires Touches(e.hash.tx, a) && Placed(r, q, e)
    ensures ListMoved(r, q, e, a)
  {
  }

  lemma AppendedIsPlaced(r: AddrTxs, a: Addr, l: Ledger, h: Hash, diff: int)
    requires TxsAgree(r, a, l) && Legal(l, Accept(h))
    ensures Placed(r, Appended(r, h, diff), Accept(h))
  {
    var s :| Covers(r, a, s, l);
    ListedIsLive(r, a, s, l);
  }

  // A transaction at place i already needs no exchange.
  lemma AlreadyThere(r: AddrTxs, a: Addr, s: seq<Hash>, l: Ledger, h: Hash)
    requires Covers(r, a, s, l) && h in r.nodeIdx
    ensures Exchanged(r.nodeIdx, r.nodeIdx, h, r.nodeIdx[h])
  {
    hide AllConfirmedOf, Diff, Touches, Totalled;
    forall g | g in r.nodeIdx && r.nodeIdx[g] == r.nodeIdx[h] ensures g == h {
      assert s[r.nodeIdx[g]] == g && s[r.nodeIdx[h]] == h;
    }
  }

  lemma SwitchedExchanges(r: AddrTxs, a: Addr, s: seq<Hash>, l: Ledger, h: Hash, i: nat)
    requires Covers(r, a, s, l) && h in r.nodeIdx && r.nodeIdx[h] in r.nodes && i < |s| && i in r.nodes
    ensures Exchanged(r.nodeIdx, Switched(r, i, r.nodeIdx[h]).nodeIdx, h, i)
  {
    hide AllConfirmedOf, Diff, Touches, Totalled;
    var j := r.nodeIdx[h];
    assert s[j] == h && r.nodes[j].txHash == h;
    assert r.nodes[i].txHash == s[i] && r.nodeIdx[s[i]] == i;
    forall g | g in r.nodeIdx && g != h && r.nodeIdx[g] == i ensures g == s[i] {
      assert s[r.nodeIdx[g]] == g;
    }
  }

  lemma RejectedIsPlaced(r: AddrTxs, m: AddrTxs, h: Hash, diff: int)
    requires h in r.nodeIdx && Exchanged(r.nodeIdx, m.nodeIdx, h, r.txCount - 1)
    ensures Placed(r, WithoutLast(m, h, diff), Reject(h))
  {
  }

  // What the list of the address is worth.
  function Net(r: AddrTxs): int {
    r.received - r.sent
  }

  lemma NetWithoutLast(r: AddrTxs, h: Hash, diff: int)
    ensures Net(WithoutLast(r, h, diff)) == Net(r) - diff
  {
  }

  // The node of an unconfirmed transaction is among the unconfirmed ones.
  lemma UnconfirmedNode(r: AddrTxs, a: Addr, s: seq<Hash>, l: Ledger, h: Hash)
    requires Covers(r, a, s, l) && h in l.pool && Touches(h.tx, a)
    ensures h in r.nodeIdx && |AllConfirmedOf(l, a)| <= r.nodeIdx[h] < |s| && s[r.nodeIdx[h]] == h
    ensures |AllConfirmedOf(l, a)| == r.lastConfirmedTxIdx + 1 && |s| == r.txCount
    ensures forall i :: i in r.nodes <==> 0 <= i < |s|
    ensures r.nodes[r.nodeIdx[h]].txHash == h && r.nodes[r.nodeIdx[h]].diff == Diff(h.tx, a)
  {
  }

  lemma SwitchedNode(r: AddrTxs, a: Addr, s: seq<Hash>, l: Ledger, h: Hash, i: nat)
    requires Covers(r, a, s, l) && h in r.nodeIdx && r.nodeIdx[h] in r.nodes
    requires |AllConfirmedOf(l, a)| <= i < |s| && |AllConfirmedOf(l, a)| <= r.nodeIdx[h] < |s|
    requires s[r.nodeIdx[h]] == h && i in r.nodes
    ensures var q := Switched(r, i, r.nodeIdx[h]);
      && Covers(q, a, Swap(s, i, r.nodeIdx[h]), l) && h in q.nodeIdx && q.nodeIdx[h] == i
      && q.txCount == r.txCount && q.lastConfirmedTxIdx == r.lastConfirmedTxIdx && Net(q) == Net(r)
  {
    SwitchedCovers(r, a, s, l, i, r.nodeIdx[h]);
  }

  // The same facts without naming the list.

  lemma UnconfirmedPlace(r: AddrTxs, a: Addr, l: Ledger, h: Hash)
    requires TxsAgree(r, a, l) && h in l.pool && Touches(h.tx, a)
    ensures h in r.nodeIdx && r.lastConfirmedTxIdx < r.nodeIdx[h] < r.txCount
    ensures r.nodeIdx[h] in r.nodes && r.nodes[r.nodeIdx[h]].diff == Diff(h.tx, a)
    ensures -1 <= r.lastConfirmedTxIdx
  {
    var s :| Covers(r, a, s, l);
    UnconfirmedNode(r, a, s, l, h);
  }

  lemma ConfirmNextAgrees(r: AddrTxs, a: Addr, l: Ledger, h: Hash, height: nat)
    requires TxsAgree(r, a, l) && Legal(l, Confirm(h, height)) && Touches(h.tx, a)
    requires h in r.nodeIdx && r.nodeIdx[h] == r.lastConfirmedTxIdx + 1 && r.nodeIdx[h] in r.nodes
    ensures TxsAgree(ConfirmedAt(r, r.nodeIdx[h], height), a, Apply(l, Confirm(h, height)))
  {
    var s :| Covers(r, a, s, l);
    UnconfirmedNode(r, a, s, l, h);
    ConfirmedAgrees(r, a, s, l, h, height);
  }

  lemma UnconfirmLastAgrees(r: AddrTxs, a: Addr, l: Ledger, h: Hash)
    requires TxsAgree(r, a, l) && Legal(l, Unconfirm(h)) && Touches(h.tx, a)
    ensures h in r.nodeIdx && r.nodeIdx[h] == r.lastConfirmedTxIdx >= 0 && r.nodeIdx[h] in r.nodes
    ensures TxsAgree(UnconfirmedAt(r, r.nodeIdx[h]), a, Apply(l, Unconfirm(h)))
  {
    var s :| Covers(r, a, s, l);
    LastConfirmedNode(r, a, s, l, h);
    UnconfirmedAgrees(r, a, s, l, h);
  }

  lemma RejectLastAgrees(r: AddrTxs, a: Addr, l: Ledger, h: Hash)
    requires TxsAgree(r, a, l) && Legal(l, Reject(h)) && Touches(h.tx, a)
    requires h in r.nodeIdx && r.nodeIdx[h] == r.txCount - 1
    ensures TxsAgree(WithoutLast(r, h, Diff(h.tx, a)), a, Apply(l, Reject(h)))
  {
    var s :| Covers(r, a, s, l);
    UnconfirmedNode(r, a, s, l, h);
    WithoutLastAgrees(r, a, s, l, h);
  }
}
