/**
 What one item of log1 should do to the ledger, and why the events the producer
 writes for it are legal.
 */
module Log2Spec {
  import opened Transactions
  import opened Ledgers
  import opened SpendChains
  import opened Sequences

  datatype BlockHash = NoBlock | BlockHashOf(block: Block)

  // `time` is the block time, and stands for the rest of the block header.
  datatype Block = Block(prev: BlockHash, vtx: seq<Tx>, time: nat)

  datatype Log1Item =
    | AcceptTx(tx: Tx)
    | RemoveTx(tx: Tx)
    | BlockItem(height: int, block: Block)
    | ClearMemtxs

  // `blocks` are the blocks confirmed since `base`, oldest first.
  datatype World = World(ledger: Ledger, blocks: seq<Block>, baseHash: BlockHash, baseHeight: nat)

  function TipOf(blocks: seq<Block>, baseHash: BlockHash): BlockHash {
    if blocks == [] then baseHash else BlockHashOf(Last(blocks))
  }

  function Tip(w: World): BlockHash {
    TipOf(w.blocks, w.baseHash)
  }

  function Height(w: World): nat {
    w.baseHeight + |w.blocks|
  }

  function HashesOf(txs: seq<Tx>): (hs: seq<Hash>)
    ensures |hs| == |txs|
    ensures forall i :: 0 <= i < |txs| ==> hs[i] == HashOf(txs[i])
  {
    seq(|txs|, i requires 0 <= i < |txs| => HashOf(txs[i]))
  }

  // ---------- Valid worlds and items ----------

  // A coinbase comes first and only first.
  ghost predicate CoinbaseFirst(txs: seq<Tx>) {
    && txs != [] && txs[0].coinbase
    && forall i :: 1 <= i < |txs| ==> !txs[i].coinbase
  }

  // The newest confirmed transactions are those of the blocks, which are linked.
  ghost predicate Stacked(confirmed: seq<Hash>, blocks: seq<Block>, baseHash: BlockHash)
    decreases |blocks|
  {
    blocks == [] ||
    var b := Last(blocks);
    var n := |confirmed| - |b.vtx|;
    && 0 <= n
    && CoinbaseFirst(b.vtx)
    && confirmed[n..] == HashesOf(b.vtx)
    && b.prev == TipOf(Front(blocks), baseHash)
    && Stacked(confirmed[..n], Front(blocks), baseHash)
  }

  ghost predicate PlainPool(l: Ledger) {
    forall h :: h in l.pool ==> !h.tx.coinbase
  }

  ghost predicate ValidWorld(w: World) {
    Consistent(w.ledger) && PlainPool(w.ledger) && Stacked(w.ledger.confirmed, w.blocks, w.baseHash)
  }

  ghost predicate SpentByConfirmed(l: Ledger, o: Outpoint) {
    exists k :: k in l.confirmed && Spends(k, o)
  }

  // These transactions can be confirmed one after the other; the pool does not matter.
  ghost predicate Fits(l: Ledger, hs: seq<Hash>) {
    && NoDup(hs)
    && (forall h :: h in hs ==> WellFormed(h.tx) && h !in l.confirmed)
    && (forall i :: 0 <= i < |hs| ==> ParentsIn(hs[i], l.confirmed + hs[..i]))
    && (forall h, o :: h in hs && Spends(h, o) ==> !SpentByConfirmed(l, o))
    && (forall h, k, o :: h in hs && k in hs && Spends(h, o) && Spends(k, o) ==> h == k)
  }

  // An acceptable block on top of the confirmed transactions.
  ghost predicate ValidBlock(l: Ledger, txs: seq<Tx>) {
    CoinbaseFirst(txs) && Fits(l, HashesOf(txs))
  }

  // What log1 promises of the next item.
  ghost predicate ValidItem(w: World, item: Log1Item)
    requires ValidWorld(w)
  {
    var l := w.ledger;
    match item
    case AcceptTx(t) =>
      && !t.coinbase && WellFormed(t) && HashOf(t) !in l.confirmed
      && forall o :: Spends(HashOf(t), o) ==> Live(l, o.hash) && !SpentByConfirmed(l, o)
    case RemoveTx(_) => true
    case ClearMemtxs => true
    case BlockItem(height, b) =>
      if height > Height(w) then
        height == Height(w) + 1 && b.prev == Tip(w) && ValidBlock(l, b.vtx)
      else
        && height + 1 == Height(w)
        && w.blocks != []
        && Last(w.blocks).prev == BlockHashOf(b)
        && forall k, o :: Live(l, k) && Spends(k, o) ==> o.hash != HashOf(Last(w.blocks).vtx[0])
  }

  // ---------- The effect of an item ----------

  ghost predicate SharesInput(m: Hash, hs: seq<Hash>) {
    exists b :: b in hs && SpendsSame(b, m)
  }

  // A pool transaction that the block double-spends.
  ghost predicate Conflicts(pool: set<Hash>, hs: seq<Hash>, m: Hash) {
    m in pool && m !in hs && SharesInput(m, hs)
  }

  // The double-spent pool transactions and everything that descends from them.
  ghost function Evicted(pool: set<Hash>, hs: seq<Hash>): set<Hash> {
    set d | d in pool && exists m :: Conflicts(pool, hs, m) && Descends(pool, m, d)
  }

  ghost function Removed(pool: set<Hash>, h: Hash): set<Hash> {
    set d | d in pool && Descends(pool, h, d)
  }

  ghost predicate ConflictFree(l: Ledger, h: Hash) {
    forall m :: m in l.pool ==> !SpendsSame(h, m)
  }

  ghost function Step(w: World, item: Log1Item): World
    requires ValidWorld(w) && ValidItem(w, item)
  {
    var l := w.ledger;
    match item
    case AcceptTx(t) =>
      var h := HashOf(t);
      if h !in l.pool && ConflictFree(l, h)
      then w.(ledger := l.(pool := l.pool + {h}))
      else w
    case RemoveTx(t) => w.(ledger := l.(pool := l.pool - Removed(l.pool, HashOf(t))))
    case ClearMemtxs => w.(ledger := l.(pool := {}))
    case BlockItem(height, b) =>
      if height > Height(w) then
        var hs := HashesOf(b.vtx);
        w.(ledger := Ledger(l.pool - Evicted(l.pool, hs) - Elems(hs), l.confirmed + hs,
                            l.heights + Repeat(height, |hs|)),
           blocks := w.blocks + [b])
      else
        var back := HashesOf(Last(w.blocks).vtx);
        var n := |l.confirmed| - |back|;
        w.(ledger := Ledger(l.pool + Elems(back) - {back[0]}, l.confirmed[..n], l.heights[..n]),
           blocks := Front(w.blocks))
  }

  // ---------- Rejecting leaf first ----------

  function Rejects(r: seq<Hash>): (es: seq<Event>)
    ensures |es| == |r| && forall i :: 0 <= i < |r| ==> es[i] == Reject(r[i])
  {
    seq(|r|, i requires 0 <= i < |r| => Reject(r[i]))
  }

  lemma ConfirmedSpendConfirmed(l: Ledger, k: Hash, o: Outpoint)
    requires Consistent(l) && Spends(k, o)
    ensures k in l.confirmed ==> o.hash in l.confirmed && o.hash !in l.pool
  {
    if k in l.confirmed {
      var i :| 0 <= i < |l.confirmed| && l.confirmed[i] == k;
      assert ParentsIn(k, l.confirmed[..i]);
    }
  }

  lemma LeafRejectIsLegal(l: Ledger, r: seq<Hash>, h: Hash)
    requires Consistent(l) && h in l.pool && h !in r
    requires forall c :: c in l.pool && IsChild(h, c) ==> c in r
    ensures Legal(l.(pool := l.pool - Elems(r)), Reject(h))
  {
    var m := l.(pool := l.pool - Elems(r));
    forall k, o | Live(m, k) && Spends(k, o) ensures o.hash != h {
      ConfirmedSpendConfirmed(l, k, o);
      if o.hash == h && k in m.pool {
        assert IsChild(h, k);
      }
    }
  }

  lemma LeafFirstFront(pool: set<Hash>, r: seq<Hash>)
    requires r != [] && LeafFirst(pool, r)
    ensures LeafFirst(pool, Front(r)) && Last(r) !in Front(r)
    ensures Elems(r) == Elems(Front(r)) + {Last(r)}
    ensures forall c :: c in pool && IsChild(Last(r), c) ==> c in Front(r)
  {
    var pre := Front(r);
    assert r == pre + [Last(r)];
    forall i, c | 0 <= i < |pre| && c in pool && IsChild(pre[i], c) ensures c in pre[..i] {
      assert r[..i] == pre[..i];
    }
    forall c | c in pool && IsChild(Last(r), c) ensures c in pre {
      assert c in r[..|r| - 1];
    }
  }

  lemma {:induction false} RejectRun(l: Ledger, r: seq<Hash>)
    requires Consistent(l) && LeafFirst(l.pool, r)
    ensures LegalRun(l, Rejects(r))
    ensures Replay(l, Rejects(r)) == l.(pool := l.pool - Elems(r))
    decreases |r|
  {
    if r == [] {
      assert Elems(r) == {};
    } else {
      var pre, h := Front(r), Last(r);
      LeafFirstFront(l.pool, r);
      RejectRun(l, pre);
      LeafRejectIsLegal(l, pre, h);
      RunSnoc(l, Rejects(pre), Reject(h));
      assert Rejects(r) == Rejects(pre) + [Reject(h)];
      assert l.pool - Elems(r) == l.pool - Elems(pre) - {h};
    }
  }

  lemma AcceptIsLegal(w: World, t: Tx)
    requires ValidWorld(w) && ValidItem(w, AcceptTx(t))
    requires HashOf(t) !in w.ledger.pool && ConflictFree(w.ledger, HashOf(t))
    ensures Explains(w, AcceptTx(t), [Accept(HashOf(t))])
  {
    assert [] + [Accept(HashOf(t))] == [Accept(HashOf(t))];
    forall o, k | Spends(HashOf(t), o) && Live(w.ledger, k) ensures !Spends(k, o) {
      assert !SpentByConfirmed(w.ledger, o);
      assert k in w.ledger.pool ==> !SpendsSame(HashOf(t), k);
    }
    RunSnoc(w.ledger, [], Accept(HashOf(t)));
  }

  // ---------- The world after an item ----------

  // `es` are rows that may be written for `item`.
  ghost predicate Explains(w: World, item: Log1Item, es: seq<Event>)
    requires ValidWorld(w) && ValidItem(w, item)
  {
    && LegalRun(w.ledger, es)
    && Replay(w.ledger, es) == Step(w, item).ledger
  }

  lemma StepKeepsStack(w: World, item: Log1Item)
    requires ValidWorld(w) && ValidItem(w, item)
    ensures var v := Step(w, item); Stacked(v.ledger.confirmed, v.blocks, v.baseHash)
  {
    if item.BlockItem? && item.height > Height(w) {
      var hs := HashesOf(item.block.vtx);
      var c := w.ledger.confirmed;
      assert (c + hs)[|c|..] == hs && (c + hs)[..|c|] == c;
      assert Front(w.blocks + [item.block]) == w.blocks;
    }
  }

  lemma StepKeepsValid(w: World, item: Log1Item, es: seq<Event>, start: Ledger, log: seq<Event>)
    requires ValidWorld(w) && ValidItem(w, item) && Explains(w, item, es)
    requires PlainPool(Step(w, item).ledger)
    requires Consistent(start) && LegalRun(start, log) && Replay(start, log) == w.ledger
    ensures ValidWorld(Step(w, item))
    ensures LegalRun(start, log + es) && Replay(start, log + es) == Step(w, item).ledger
  {
    RunKeepsConsistent(w.ledger, es);
    StepKeepsStack(w, item);
    RunConcat(start, log, es);
  }

  lemma StepMovesOne(w: World, item: Log1Item)
    requires ValidWorld(w) && ValidItem(w, item) && item.BlockItem?
    ensures item.height == Height(w) + 1 || item.height + 1 == Height(w)
    ensures Height(Step(w, item)) == item.height && Tip(Step(w, item)) == BlockHashOf(item.block)
  {
  }
}
