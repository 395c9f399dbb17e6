/**
 The contract between the log producer and the log consumer: which transactions are
 unconfirmed, which are confirmed and in what order, and which log events are legal.
 */
module Ledgers {
  import opened Transactions

  // Events of table 0_txlogs2; `height` is the block height of the row.
  datatype Event =
    | Accept(hash: Hash)
    | Confirm(hash: Hash, height: nat)
    | Unconfirm(hash: Hash)
    | Reject(hash: Hash)

  // heights[i] is the block height at which confirmed[i] was confirmed.
  datatype Ledger = Ledger(pool: set<Hash>, confirmed: seq<Hash>, heights: seq<nat>)

  const EMPTY_LEDGER := Ledger({}, [], [])

  predicate Live(l: Ledger, h: Hash) {
    h in l.pool || h in l.confirmed
  }

  ghost predicate SpentLive(l: Ledger, o: Outpoint) {
    exists h :: Live(l, h) && Spends(h, o)
  }

  ghost predicate ParentsIn(h: Hash, s: seq<Hash>) {
    forall o :: Spends(h, o) ==> o.hash in s
  }

  // No outpoint is spent twice, every input is known, confirmed parents come first.
  ghost predicate Consistent(l: Ledger) {
    && |l.heights| == |l.confirmed|
    && NoDup(l.confirmed)
    && (forall h :: h in l.confirmed ==> h !in l.pool)
    && (forall h :: Live(l, h) ==> WellFormed(h.tx))
    && (forall h, o :: Live(l, h) && Spends(h, o) ==> Live(l, o.hash))
    && (forall h, k, o :: Live(l, h) && Live(l, k) && Spends(h, o) && Spends(k, o) ==> h == k)
    && (forall i :: 0 <= i < |l.confirmed| ==> ParentsIn(l.confirmed[i], l.confirmed[..i]))
  }

  // The height column of a row.
  predicate HeightFits(e: Event, blkHeight: int) {
    match e
    case Accept(_) => blkHeight == -1
    case Confirm(_, height) => blkHeight == height
    case _ => true
  }

  // Which event may come next.
  ghost predicate Legal(l: Ledger, e: Event) {
    match e
    case Accept(h) =>
      && !Live(l, h)
      && WellFormed(h.tx)
      && forall o :: Spends(h, o) ==> Live(l, o.hash) && !SpentLive(l, o)
    case Confirm(h, _) =>
      h in l.pool && ParentsIn(h, l.confirmed)
    case Unconfirm(h) =>
      l.confirmed != [] && |l.heights| == |l.confirmed| && l.confirmed[|l.confirmed| - 1] == h
    case Reject(h) =>
      && h in l.pool
      && forall k, o :: Live(l, k) && Spends(k, o) ==> o.hash != h
  }

  ghost function Apply(l: Ledger, e: Event): Ledger
    requires Legal(l, e)
  {
    match e
    case Accept(h) => l.(pool := l.pool + {h})
    case Confirm(h, height) =>
      Ledger(l.pool - {h}, l.confirmed + [h], l.heights + [height])
    case Unconfirm(h) =>
      Ledger(l.pool + {h}, l.confirmed[..|l.confirmed| - 1], l.heights[..|l.heights| - 1])
    case Reject(h) => l.(pool := l.pool - {h})
  }

  lemma AcceptKeepsConsistent(l: Ledger, h: Hash)
    requires Consistent(l) && Legal(l, Accept(h))
    ensures Consistent(Apply(l, Accept(h)))
  {
    var m := Apply(l, Accept(h));
    assert forall k :: Live(m, k) <==> k == h || Live(l, k);
    assert forall j, o :: Live(l, j) && Spends(j, o) ==> SpentLive(l, o);
    forall k, o | Live(m, k) && Spends(k, o) ensures Live(m, o.hash) {
      assert Live(l, o.hash);
    }
  }

  lemma ConfirmKeepsConsistent(l: Ledger, h: Hash, height: nat)
    requires Consistent(l) && Legal(l, Confirm(h, height))
    ensures Consistent(Apply(l, Confirm(h, height)))
  {
    var m := Apply(l, Confirm(h, height));
    assert forall k :: Live(m, k) <==> Live(l, k);
    forall i | 0 <= i < |m.confirmed| ensures ParentsIn(m.confirmed[i], m.confirmed[..i]) {
      if i < |l.confirmed| {
        assert m.confirmed[..i] == l.confirmed[..i];
      } else {
        assert m.confirmed[..i] == l.confirmed;
      }
    }
  }

  lemma UnconfirmKeepsConsistent(l: Ledger, h: Hash)
    requires Consistent(l) && Legal(l, Unconfirm(h))
    ensures Consistent(Apply(l, Unconfirm(h)))
  {
    var m := Apply(l, Unconfirm(h));
    assert l.confirmed == m.confirmed + [h];
    assert forall k :: Live(m, k) <==> Live(l, k);
    forall i | 0 <= i < |m.confirmed| ensures ParentsIn(m.confirmed[i], m.confirmed[..i]) {
      assert m.confirmed[..i] == l.confirmed[..i];
    }
  }

  lemma RejectKeepsConsistent(l: Ledger, h: Hash)
    requires Consistent(l) && Legal(l, Reject(h))
    ensures Consistent(Apply(l, Reject(h)))
  {
    var m := Apply(l, Reject(h));
    assert forall k :: Live(m, k) ==> Live(l, k);
    forall k, o | Live(m, k) && Spends(k, o) ensures Live(m, o.hash) {
      assert Live(l, o.hash) && o.hash != h;
    }
  }

  lemma LegalKeepsConsistent(l: Ledger, e: Event)
    requires Consistent(l) && Legal(l, e)
    ensures Consistent(Apply(l, e))
  {
    match e
    case Accept(h) => AcceptKeepsConsistent(l, h);
    case Confirm(h, height) => ConfirmKeepsConsistent(l, h, height);
    case Unconfirm(h) => UnconfirmKeepsConsistent(l, h);
    case Reject(h) => RejectKeepsConsistent(l, h);
  }

  // ---------- Runs ----------

  ghost predicate LegalRun(l: Ledger, es: seq<Event>)
    decreases |es|, 0
  {
    es == [] || (LegalRun(l, Front(es)) && Legal(Replay(l, Front(es)), Last(es)))
  }

  // The ledger after a legal run.
  ghost function Replay(l: Ledger, es: seq<Event>): Ledger
    requires LegalRun(l, es)
    decreases |es|, 1
  {
    if es == [] then l else Apply(Replay(l, Front(es)), Last(es))
  }

  function Front<T>(s: seq<T>): seq<T>
    requires s != []
  {
    s[..|s| - 1]
  }

  function Last<T>(s: seq<T>): T
    requires s != []
  {
    s[|s| - 1]
  }

  lemma RunSnoc(l: Ledger, es: seq<Event>, e: Event)
    requires LegalRun(l, es) && Legal(Replay(l, es), e)
    ensures LegalRun(l, es + [e]) && Replay(l, es + [e]) == Apply(Replay(l, es), e)
  {
    assert Front(es + [e]) == es;
  }

  lemma {:induction false} RunKeepsConsistent(l: Ledger, es: seq<Event>)
    requires Consistent(l) && LegalRun(l, es)
    ensures Consistent(Replay(l, es))
    decreases |es|
  {
    if es != [] {
      RunKeepsConsistent(l, Front(es));
      LegalKeepsConsistent(Replay(l, Front(es)), Last(es));
    }
  }

  lemma {:induction false} RunConcat(l: Ledger, es: seq<Event>, fs: seq<Event>)
    requires LegalRun(l, es) && LegalRun(Replay(l, es), fs)
    ensures LegalRun(l, es + fs) && Replay(l, es + fs) == Replay(Replay(l, es), fs)
    decreases |fs|
  {
    if fs == [] {
      assert es + fs == es;
    } else {
      RunConcat(l, es, Front(fs));
      assert Front(es + fs) == es + Front(fs);
    }
  }

  lemma {:induction false} RunPrefix(l: Ledger, es: seq<Event>, i: nat)
    requires LegalRun(l, es) && i <= |es|
    ensures LegalRun(l, es[..i])
    ensures i < |es| ==>
      Legal(Replay(l, es[..i]), es[i]) && LegalRun(l, es[..i + 1]) &&
      Replay(l, es[..i + 1]) == Apply(Replay(l, es[..i]), es[i])
    decreases |es|
  {
    if i == |es| {
      assert es[..i] == es;
    } else {
      if i + 1 < |es| {
        RunPrefix(l, Front(es), i);
        assert Front(es)[..i] == es[..i] && Front(es)[..i + 1] == es[..i + 1];
      } else {
        assert Front(es) == es[..i];
        assert es[..i + 1] == es;
      }
    }
  }

  // A legal run goes on being legal from any point it passes.
  lemma {:induction false} RunSuffix(l: Ledger, es: seq<Event>, fs: seq<Event>)
    requires LegalRun(l, es + fs)
    ensures LegalRun(l, es) && LegalRun(Replay(l, es), fs)
    ensures Replay(Replay(l, es), fs) == Replay(l, es + fs)
    decreases |fs|
  {
    if fs == [] {
      assert es + fs == es;
    } else {
      assert Front(es + fs) == es + Front(fs) && Last(es + fs) == Last(fs);
      RunSuffix(l, es, Front(fs));
    }
  }

  // ---------- The life of one transaction ----------

  datatype TxState = Absent | Unconfirmed | Confirmed

  function StateOf(l: Ledger, h: Hash): TxState {
    if h in l.pool then Unconfirmed else if h in l.confirmed then Confirmed else Absent
  }

  // The transition table: ACCEPT, then REJECT or CONFIRM, then UNCONFIRM, and so on.
  predicate Permits(s: TxState, e: Event) {
    match e
    case Accept(_) => s == Absent
    case Confirm(_, _) => s == Unconfirmed
    case Unconfirm(_) => s == Confirmed
    case Reject(_) => s == Unconfirmed
  }

  function Target(e: Event): TxState {
    match e
    case Accept(_) => Unconfirmed
    case Confirm(_, _) => Confirmed
    case Unconfirm(_) => Unconfirmed
    case Reject(_) => Absent
  }

  // The events of one transaction, in order.
  function EventsOf(es: seq<Event>, h: Hash): seq<Event>
    decreases |es|
  {
    if es == [] then []
    else if Last(es).hash == h then EventsOf(Front(es), h) + [Last(es)]
    else EventsOf(Front(es), h)
  }

  function StateBefore(s: TxState, es: seq<Event>, i: nat): TxState
    requires i <= |es|
  {
    if i == 0 then s else Target(es[i - 1])
  }

  // Every event of `es` is permitted by the state the one before it leads to.
  predicate FollowsTable(s: TxState, es: seq<Event>) {
    forall i :: 0 <= i < |es| ==> Permits(StateBefore(s, es, i), es[i])
  }

  lemma StateStep(l: Ledger, e: Event, h: Hash)
    requires Consistent(l) && Legal(l, e)
    ensures e.hash == h ==> Permits(StateOf(l, h), e) && StateOf(Apply(l, e), h) == Target(e)
    ensures e.hash != h ==> StateOf(Apply(l, e), h) == StateOf(l, h)
  {
    if e.Unconfirm? {
      assert l.confirmed == Front(l.confirmed) + [e.hash];
    }
  }

  lemma TableSnoc(s: TxState, es: seq<Event>, e: Event)
    requires FollowsTable(s, es)
    requires Permits(StateBefore(s, es, |es|), e)
    ensures FollowsTable(s, es + [e])
  {
    var fs := es + [e];
    forall i | 0 <= i < |fs| ensures Permits(StateBefore(s, fs, i), fs[i]) {
      assert StateBefore(s, fs, i) == StateBefore(s, es, i);
      assert i < |es| ==> fs[i] == es[i];
    }
  }

  // Over any legal run each transaction obeys the table, and it is unconfirmed
  // (confirmed, absent) at the end exactly when its last event says so.
  lemma {:induction false} TxLifeFollowsTable(l: Ledger, es: seq<Event>, h: Hash)
    requires Consistent(l) && LegalRun(l, es)
    ensures FollowsTable(StateOf(l, h), EventsOf(es, h))
    ensures StateOf(Replay(l, es), h) ==
      StateBefore(StateOf(l, h), EventsOf(es, h), |EventsOf(es, h)|)
    decreases |es|
  {
    if es != [] {
      var pre := Front(es);
      TxLifeFollowsTable(l, pre, h);
      RunKeepsConsistent(l, pre);
      StateStep(Replay(l, pre), Last(es), h);
      if Last(es).hash == h {
        TableSnoc(StateOf(l, h), EventsOf(pre, h), Last(es));
      }
    }
  }
}
