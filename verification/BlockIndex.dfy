/**
 The block records of the key-value store: 10_ (height to hash), 11_ (block objects)
 and 13_ (orphan hashes of a height), over any sequence of reorganisations.
 */
module BlockIndex {
  import opened OrphanHashes
  import Transactions

  // What the index takes from a block; `reward` is what its coinbase pays out.
  datatype Header = Header(hash: HashStr, prev: HashStr, height: nat, reward: int)

  datatype BlockObject = BlockObject(height: nat, prev: HashStr, next: HashStr, orphan: bool)

  datatype Step = AcceptBlock(block: Header) | RejectBlock(block: Header)

  // The main chain from height 0, and the rejected blocks that are not on it.
  datatype Chain = Chain(main: seq<Header>, away: set<Header>)

  const EMPTY_CHAIN := Chain([], {})

  ghost predicate Known(c: Chain, b: Header) {
    b in c.main || b in c.away
  }

  ghost predicate Linked(main: seq<Header>) {
    && (forall i :: 0 <= i < |main| ==> main[i].height == i)
    && (forall i, j :: 0 <= i && j == i + 1 && j < |main| ==> main[j].prev == main[i].hash)
  }

  // A hash names one block.
  ghost predicate Consistent(c: Chain) {
    && Linked(c.main)
    && (forall a, b :: Known(c, a) && Known(c, b) && a.hash == b.hash ==> a == b)
    && (forall b :: b in c.main ==> b !in c.away)
  }

  // Blocks come on top of the main chain and leave from there.
  ghost predicate Legal(c: Chain, s: Step) {
    match s
    case AcceptBlock(b) =>
      && b.height == |c.main|
      && (c.main != [] ==> b.prev == c.main[|c.main| - 1].hash)
      && b !in c.main
      && forall a :: Known(c, a) && a.hash == b.hash ==> a == b
    case RejectBlock(b) =>
      c.main != [] && b == c.main[|c.main| - 1]
  }

  ghost function Apply(c: Chain, s: Step): Chain
    requires Legal(c, s)
  {
    match s
    case AcceptBlock(b) => Chain(c.main + [b], c.away - {b})
    case RejectBlock(b) => Chain(c.main[..|c.main| - 1], c.away + {b})
  }

  lemma KnownAfter(c: Chain, s: Step)
    requires Legal(c, s)
    ensures forall b :: Known(Apply(c, s), b) <==> Known(c, b) || b == s.block
  {
    assert s.RejectBlock? ==> c.main == Apply(c, s).main + [s.block];
  }

  lemma LegalKeepsConsistent(c: Chain, s: Step)
    requires Consistent(c) && Legal(c, s)
    ensures Consistent(Apply(c, s))
    ensures forall b :: Known(Apply(c, s), b) <==> Known(c, b) || b == s.block
  {
    KnownAfter(c, s);
    match s
    case AcceptBlock(b) => AcceptKeepsConsistent(c, b);
    case RejectBlock(b) => RejectKeepsConsistent(c, b);
  }

  lemma AcceptKeepsConsistent(c: Chain, b: Header)
    requires Consistent(c) && Legal(c, Step.AcceptBlock(b))
    ensures Consistent(Apply(c, Step.AcceptBlock(b)))
  {
    KnownAfter(c, Step.AcceptBlock(b));
    hide Known;
  }

  lemma RejectKeepsConsistent(c: Chain, b: Header)
    requires Consistent(c) && Legal(c, Step.RejectBlock(b))
    ensures Consistent(Apply(c, Step.RejectBlock(b)))
  {
    KnownAfter(c, Step.RejectBlock(b));
    var d, n := Apply(c, Step.RejectBlock(b)), |c.main| - 1;
    forall a | a in d.main ensures a.height < n && a in c.main {
      var i :| 0 <= i < n && d.main[i] == a;
      assert c.main[i].height == i;
    }
    assert c.main[n].height == n;
    assert b in c.main;
    assert Known(c, b);
    hide Known;
  }

  ghost predicate LegalRun(c: Chain, steps: seq<Step>)
    decreases |steps|
  {
    steps == [] || (Legal(c, steps[0]) && LegalRun(Apply(c, steps[0]), steps[1..]))
  }

  ghost function Replay(c: Chain, steps: seq<Step>): Chain
    requires LegalRun(c, steps)
    decreases |steps|
  {
    if steps == [] then c else Replay(Apply(c, steps[0]), steps[1..])
  }

  // Rejected at some point of the run.
  ghost predicate EverRejected(steps: seq<Step>, b: Header) {
    RejectBlock(b) in steps
  }

  // `away` is what its name says: rejected, and not accepted again since.
  lemma {:induction false} AwayIsRejectedNotMain(c: Chain, steps: seq<Step>)
    requires Consistent(c) && LegalRun(c, steps)
    ensures var d := Replay(c, steps);
      && Consistent(d)
      && forall b :: b in d.away <==> (b in c.away || EverRejected(steps, b)) && b !in d.main
    decreases |steps|
  {
    if steps != [] {
      var first, rest := steps[0], steps[1..];
      var next, d := Apply(c, first), Replay(c, steps);
      LegalKeepsConsistent(c, first);
      AwayIsRejectedNotMain(next, rest);
      assert steps == [first] + rest;
      forall b ensures b in d.away <==> (b in c.away || EverRejected(steps, b)) && b !in d.main {
        if b in c.away && b !in next.away {
          assert first == AcceptBlock(b);
          OnMainUntilRejected(next, rest, b);
        }
      }
    }
  }

  lemma {:induction false} OnMainUntilRejected(c: Chain, steps: seq<Step>, b: Header)
    requires LegalRun(c, steps) && b in c.main
    ensures b in Replay(c, steps).main || EverRejected(steps, b)
    decreases |steps|
  {
    if steps != [] {
      var first, rest := steps[0], steps[1..];
      assert steps == [first] + rest;
      if first != RejectBlock(b) {
        assert first.RejectBlock? ==> c.main == c.main[..|c.main| - 1] + [first.block];
        OnMainUntilRejected(Apply(c, first), rest, b);
      }
    }
  }

  // ---------- The subsidy ----------

  const HALVING_INTERVAL := 210_000

  // The amount after n right shifts.
  function Halved(amount: nat, n: nat): nat {
    if n == 0 then amount else Halved(amount, n - 1) / 2
  }

  // What a coinbase may at least claim, fees aside.
  function Subsidy(height: nat): nat {
    if height / HALVING_INTERVAL >= 64 then 0 else Halved(50 * Transactions.COIN, height / HALVING_INTERVAL)
  }

  lemma {:induction false} HalvedFalls(amount: nat, m: nat, n: nat)
    requires m <= n
    ensures Halved(amount, n) <= Halved(amount, m)
    decreases n
  {
    if m < n {
      HalvedFalls(amount, m, n - 1);
    }
  }

  // It never rises from one height to a later one.
  lemma SubsidyFalls(h: nat, k: nat)
    requires h <= k
    ensures Subsidy(k) <= Subsidy(h)
  {
    assert h / HALVING_INTERVAL <= k / HALVING_INTERVAL;
    HalvedFalls(50 * Transactions.COIN, h / HALVING_INTERVAL, k / HALVING_INTERVAL);
  }

  // ---------- The subsidy in plain numbers ----------

  lemma {:induction false} HalvedIsSmall(amount: nat, n: nat, m: nat)
    requires m <= n && Halved(amount, m) == 0
    ensures Halved(amount, n) == 0
    decreases n
  {
    if m < n {
      HalvedIsSmall(amount, n - 1, m);
    }
  }

  lemma FourHalvings(amount: nat, n: nat)
    ensures Halved(amount, 0) == amount && Halved(amount, n + 1) == Halved(amount, n) / 2
    ensures Halved(amount, n + 4) == Halved(amount, n) / 16
  {
    var x := Halved(amount, n);
    assert Halved(amount, n + 1) == x / 2;
    assert Halved(amount, n + 2) == x / 2 / 2;
    assert Halved(amount, n + 3) == x / 2 / 2 / 2;
    assert Halved(amount, n + 4) == x / 2 / 2 / 2 / 2;
  }

  // 50 coins are used up after 33 halvings.
  lemma HalvedToNothing(n: nat)
    requires n >= 33
    ensures Halved(50 * Transactions.COIN, n) == 0
  {
    hide Halved;
    var amount := 50 * Transactions.COIN;
    FourHalvings(amount, 0);
    FourHalvings(amount, 4);
    FourHalvings(amount, 8);
    FourHalvings(amount, 12);
    FourHalvings(amount, 16);
    FourHalvings(amount, 20);
    FourHalvings(amount, 24);
    FourHalvings(amount, 28);
    FourHalvings(amount, 32);
    HalvedIsSmall(amount, n, 33);
  }

  lemma FirstEra(h: nat)
    requires h < 210_000
    ensures Subsidy(h) == 5_000_000_000
  {
  }

  // Every 210,000 blocks the subsidy is cut in half, a broken unit being dropped.
  lemma NextEra(h: nat)
    ensures Subsidy(h + 210_000) == Subsidy(h) / 2
  {
    var n := h / HALVING_INTERVAL;
    assert (h + 210_000) / HALVING_INTERVAL == n + 1;
    if n >= 63 {
      HalvedToNothing(n);
    }
  }

  lemma LastEra(h: nat)
    requires h >= 33 * 210_000
    ensures Subsidy(h) == 0
  {
    assert h / HALVING_INTERVAL >= 33;
    HalvedToNothing(h / HALVING_INTERVAL);
  }

  // What all blocks below height n may claim.
  function Supply(n: nat): nat {
    if n == 0 then 0 else Supply(n - 1) + Subsidy(n - 1)
  }

  lemma {:induction false} SupplyWithin(start: nat, n: nat, each: nat)
    requires forall h :: start <= h < start + n ==> Subsidy(h) == each
    ensures Supply(start + n) == Supply(start) + n * each
    decreases n
  {
    hide Subsidy;
    if n > 0 {
      SupplyWithin(start, n - 1, each);
    }
  }

  lemma EraIsEven(era: nat, h: nat)
    requires era * 210_000 <= h < (era + 1) * 210_000
    ensures Subsidy(h) == Subsidy(era * 210_000)
  {
    assert h / HALVING_INTERVAL == era;
    assert era * 210_000 / HALVING_INTERVAL == era;
  }

  // The supply after one more era.
  lemma SupplyOfEra(era: nat, before: nat, each: nat)
    requires Supply(era * 210_000) == before && Subsidy(era * 210_000) == each
    ensures Supply((era + 1) * 210_000) == before + 210_000 * each && Subsidy((era + 1) * 210_000) == each / 2
  {
    forall h | era * 210_000 <= h < era * 210_000 + 210_000 ensures Subsidy(h) == each {
      EraIsEven(era, h);
    }
    SupplyWithin(era * 210_000, 210_000, each);
    NextEra(era * 210_000);
  }

  // The supply and the subsidy at the start of an era, by eras alone.
  function ByEra(era: nat): (nat, nat) {
    if era == 0 then (0, 5_000_000_000)
    else
      var (before, each) := ByEra(era - 1);
      (before + 210_000 * each, each / 2)
  }

  lemma {:induction false} SupplyByEra(era: nat)
    ensures (Supply(era * 210_000), Subsidy(era * 210_000)) == ByEra(era)
    decreases era
  {
    if era == 0 {
      FirstEra(0);
    } else {
      SupplyByEra(era - 1);
      var (before, each) := ByEra(era - 1);
      SupplyOfEra(era - 1, before, each);
    }
  }

  lemma FourEras(era: nat, before: nat, each: nat)
    requires ByEra(era) == (before, each)
    ensures ByEra(era + 4) == (before + 210_000 * (each + each / 2 + each / 4 + each / 8), each / 16)
  {
    assert ByEra(era + 1) == (before + 210_000 * each, each / 2);
    assert ByEra(era + 2) == (before + 210_000 * (each + each / 2), each / 4);
    assert ByEra(era + 3) == (before + 210_000 * (each + each / 2 + each / 4), each / 8);
  }

  lemma ThirtyThreeEras()
    ensures ByEra(33) == (2_099_999_997_690_000, 0)
  {
    FourEras(0, 0, 5_000_000_000);
    FourEras(4, 1_968_750_000_000_000, 312_500_000);
    FourEras(8, 2_091_796_875_000_000, 19_531_250);
    FourEras(12, 2_099_487_304_530_000, 1_220_703);
    FourEras(16, 2_099_967_955_890_000, 76_293);
    FourEras(20, 2_099_997_995_970_000, 4_768);
    FourEras(24, 2_099_999_873_370_000, 298);
    FourEras(28, 2_099_999_990_550_000, 18);
    assert ByEra(33) == (2_099_999_997_480_000 + 210_000 * 1, 0);
  }

  // All coins there will ever be.
  lemma TotalSupply(n: nat)
    requires n >= 33 * 210_000
    ensures Supply(n) == 2_099_999_997_690_000
  {
    hide Subsidy, Supply, ByEra;
    SupplyByEra(33);
    ThirtyThreeEras();
    forall h | h >= 33 * 210_000 ensures Subsidy(h) == 0 {
      LastEra(h);
    }
    SupplyWithin(33 * 210_000, n - 33 * 210_000, 0);
  }

  // The coinbase pays at least the subsidy.
  predicate Pays(b: Header) {
    b.reward >= Subsidy(b.height)
  }

  ghost predicate AllPay(steps: seq<Step>) {
    forall s :: s in steps && s.AcceptBlock? ==> Pays(s.block)
  }

  // ---------- The records ----------

  ghost function NextHash(main: seq<Header>, i: nat): HashStr
    requires i < |main|
  {
    if i + 1 < |main| then main[i + 1].hash else ZEROS
  }

  ghost function AwayAt(away: set<Header>, height: nat): set<HashStr> {
    set b | b in away && b.height == height :: b.hash
  }

  ghost predicate HeightsAgree(heights: map<nat, HashStr>, main: seq<Header>) {
    && (forall i: nat :: i in heights <==> i < |main|)
    && forall i :: 0 <= i < |main| ==> heights[i] == main[i].hash
  }

  ghost predicate MainAgrees(objects: map<HashStr, BlockObject>, main: seq<Header>) {
    forall i: nat :: i < |main| ==> MainAt(objects, main, i)
  }

  ghost predicate MainAt(objects: map<HashStr, BlockObject>, main: seq<Header>, i: nat)
    requires i < |main|
  {
    && main[i].hash in objects
    && objects[main[i].hash] == BlockObject(i, main[i].prev, NextHash(main, i), false)
  }

  ghost predicate AwayAgrees(objects: map<HashStr, BlockObject>, away: set<Header>) {
    forall b :: b in away ==> AwayOne(objects, b)
  }

  ghost predicate AwayOne(objects: map<HashStr, BlockObject>, b: Header) {
    b.hash in objects && objects[b.hash] == BlockObject(b.height, b.prev, ZEROS, true)
  }

  ghost predicate NothingElse(objects: map<HashStr, BlockObject>, c: Chain) {
    forall h :: h in objects ==> exists b :: Known(c, b) && b.hash == h
  }

  ghost predicate ObjectsAgree(objects: map<HashStr, BlockObject>, c: Chain) {
    MainAgrees(objects, c.main) && AwayAgrees(objects, c.away) && NothingElse(objects, c)
  }

  // A 13_ key exists exactly when there are hashes to list.
  ghost predicate Lists(orphans: map<nat, string>, k: nat, hashes: set<HashStr>) {
    && (k in orphans <==> hashes != {})
    && (k in orphans ==> Encodes(orphans[k], hashes))
  }

  ghost predicate OrphansAgree(orphans: map<nat, string>, away: set<Header>) {
    forall k: nat :: Lists(orphans, k, AwayAt(away, k))
  }

  // 11_ with a new tip, and its hash in the block before.
  ghost function Added(objects: map<HashStr, BlockObject>, b: Header): map<HashStr, BlockObject>
    requires b.height > 0 ==> b.prev in objects
  {
    var own := objects[b.hash := BlockObject(b.height, b.prev, ZEROS, false)];
    if b.height == 0 then own else own[b.prev := objects[b.prev].(next := b.hash)]
  }

  // 11_ with the tip marked an orphan, and no next hash in the block before.
  ghost function Orphaned(objects: map<HashStr, BlockObject>, b: Header): map<HashStr, BlockObject>
    requires b.hash in objects && (b.height > 0 ==> b.prev in objects)
  {
    var own := objects[b.hash := objects[b.hash].(orphan := true)];
    if b.height == 0 then own else own[b.prev := own[b.prev].(next := ZEROS)]
  }

  class BlockStore {
    var heights: map<nat, HashStr>
    var objects: map<HashStr, BlockObject>
    var orphans: map<nat, string>

    ghost predicate Agrees(c: Chain)
      reads this
    {
      && Consistent(c)
      && HeightsAgree(heights, c.main)
      && ObjectsAgree(objects, c)
      && OrphansAgree(orphans, c.away)
    }

    constructor ()
      ensures Agrees(EMPTY_CHAIN)
    {
      heights, objects, orphans := map[], map[], map[];
      new;
      assert forall k :: AwayAt({}, k) == {};
    }

    // Sets the next hash of the block before this one; false where the store has none.
    method LinkPrevious(b: Header, next: HashStr) returns (ok: bool)
      modifies this`objects
      ensures ok <==> b.height == 0 || b.prev in old(objects)
      ensures objects == if ok && b.height > 0
        then old(objects[b.prev := objects[b.prev].(next := next)]) else old(objects)
    {
      if b.height > 0 {
        if b.prev !in objects {
          return false;
        }
        objects := objects[b.prev := objects[b.prev].(next := next)];
      }
      ok := true;
    }

    // False where the original fails the assertion on the reward, with nothing written
    // yet, or finds no block before this one.
    method InsertBlock(b: Header) returns (ok: bool)
      modifies this`heights, this`objects
      ensures ok <==> Pays(b) && (b.height == 0 || b.prev in old(objects) || b.prev == b.hash)
      ensures heights == if Pays(b) then old(heights)[b.height := b.hash] else old(heights)
      ensures !Pays(b) ==> objects == old(objects)
      ensures ok && (b.height == 0 || b.prev != b.hash) ==> objects == Added(old(objects), b)
    {
      if b.reward - Subsidy(b.height) < 0 {
        return false;
      }
      objects := objects[b.hash := BlockObject(b.height, b.prev, ZEROS, false)];
      heights := heights[b.height := b.hash];
      ok := LinkPrevious(b, b.hash);
    }

    // Takes the block out of the orphans of its height.
    method RemoveOrphan(b: Header, ghost away: set<Header>)
      requires OrphansAgree(orphans, away)
      requires forall a :: a in away && a.hash == b.hash ==> a == b
      modifies this`orphans
      ensures OrphansAgree(orphans, away - {b})
    {
      forall k ensures AwayAt(away - {b}, k)
        == if k == b.height then AwayAt(away, k) - {b.hash} else AwayAt(away, k)
      {
        AwayWithout(away, b, k);
      }
      if b.height in orphans {
        EncodedSet(orphans[b.height], AwayAt(away, b.height));
        var value := RemoveOrphanBlockHash(b.hash, orphans[b.height]);
        EncodedSet(value, AwayAt(away - {b}, b.height));
        if |value| > 0 {
          orphans := orphans[b.height := value];
        } else {
          orphans := orphans - {b.height};
        }
      }
    }

    method InsertOrphan(b: Header, ghost away: set<Header>)
      requires OrphansAgree(orphans, away)
      modifies this`orphans
      ensures OrphansAgree(orphans, away + {b})
    {
      forall k ensures AwayAt(away + {b}, k)
        == if k == b.height then AwayAt(away, k) + {b.hash} else AwayAt(away, k)
      {
        AwayWith(away, b, k);
      }
      var value := "";
      if b.height in orphans {
        value := orphans[b.height];
      } else {
        SingletonEncodes(b.hash);
      }
      EncodedSet(value, AwayAt(away, b.height));
      value := InsertOrphanBlockHash(b.hash, value);
      orphans := orphans[b.height := value];
    }

    // False where the original has no object to read.
    method MarkOrphan(b: Header) returns (ok: bool)
      modifies this`objects
      ensures ok <==> b.hash in old(objects) && (b.height == 0 || b.prev in old(objects))
      ensures ok ==> objects == Orphaned(old(objects), b)
    {
      if b.hash !in objects {
        return false;
      }
      objects := objects[b.hash := objects[b.hash].(orphan := true)];
      ok := LinkPrevious(b, ZEROS);
    }

    method AcceptBlock(b: Header, ghost c: Chain) returns (ok: bool)
      requires Agrees(c) && Legal(c, Step.AcceptBlock(b))
      modifies this
      ensures ok <==> Pays(b)
      ensures Agrees(if ok then Apply(c, Step.AcceptBlock(b)) else c)
    {
      hide HeightsAgree, ObjectsAgree, OrphansAgree, Pays;
      LegalKeepsConsistent(c, Step.AcceptBlock(b));
      AddedObjects(objects, c, b);
      AddedHeights(heights, c, b);
      ok := InsertBlock(b);
      if ok {
        RemoveOrphan(b, c.away);
      }
    }

    method RejectBlock(b: Header, ghost c: Chain) returns (ok: bool)
      requires Agrees(c) && Legal(c, Step.RejectBlock(b))
      modifies this
      ensures ok && Agrees(Apply(c, Step.RejectBlock(b)))
    {
      hide Consistent, HeightsAgree, ObjectsAgree, OrphansAgree, Orphaned;
      LegalKeepsConsistent(c, Step.RejectBlock(b));
      OrphanedObjects(objects, c, b);
      RemovedHeights(heights, c, b);
      InsertOrphan(b, c.away);
      heights := heights - {b.height};
      ok := MarkOrphan(b);
    }

    // A sequence of accepts and rejects at the tip makes the store throw if and only if
    // some accepted block pays less than the subsidy; it then stops before that block.
    method Run(steps: seq<Step>, ghost c: Chain) returns (ok: bool, ghost done: nat)
      requires Agrees(c) && LegalRun(c, steps)
      modifies this
      ensures ok <==> AllPay(steps)
      ensures done <= |steps| && LegalRun(c, steps[..done]) && Agrees(Replay(c, steps[..done]))
      ensures AllPay(steps[..done])
      ensures if ok then done == |steps| else done < |steps| && !AllPay([steps[done]])
    {
      hide Agrees, Pays, Legal, Apply;
      ghost var now := c;
      done := 0;
      for i := 0 to |steps|
        invariant done == i && LegalRun(c, steps[..i]) && now == Replay(c, steps[..i])
        invariant Agrees(now) && LegalRun(now, steps[i..]) && AllPay(steps[..i])
      {
        NextStep(c, steps, i);
        match steps[i] {
          case AcceptBlock(b) => ok := AcceptBlock(b, now);
          case RejectBlock(b) => ok := RejectBlock(b, now);
        }
        if !ok {
          assert steps[i] in [steps[i]] && steps[i] in steps;
          return;
        }
        now, done := Apply(now, steps[i]), i + 1;
      }
      assert steps[..|steps|] == steps;
      ok := true;
    }
  }

  lemma {:induction false} NextStep(c: Chain, steps: seq<Step>, i: nat)
    requires i < |steps| && LegalRun(c, steps[..i]) && LegalRun(Replay(c, steps[..i]), steps[i..])
    ensures var now := Replay(c, steps[..i]);
      && Legal(now, steps[i]) && LegalRun(Apply(now, steps[i]), steps[i + 1..])
      && LegalRun(c, steps[..i + 1]) && Replay(c, steps[..i + 1]) == Apply(now, steps[i])
    ensures steps[..i + 1] == steps[..i] + [steps[i]]
    decreases i
  {
    hide Legal, Apply;
    if i == 0 {
      assert steps[..1] == [steps[0]] && steps[0..] == steps && [steps[0]][1..] == [];
    } else {
      assert steps[..i][1..] == steps[1..][..i - 1] && steps[..i + 1][1..] == steps[1..][..i];
      assert steps[i..] == steps[1..][i - 1..] && steps[i + 1..] == steps[1..][i..];
      NextStep(Apply(c, steps[0]), steps[1..], i - 1);
    }
  }

  lemma AwayWithout(away: set<Header>, b: Header, k: nat)
    requires forall a :: a in away && a.hash == b.hash ==> a == b
    ensures AwayAt(away - {b}, k)
      == if k == b.height then AwayAt(away, k) - {b.hash} else AwayAt(away, k)
  {
    forall h | h in AwayAt(away, k) && (k != b.height || h != b.hash) ensures h in AwayAt(away - {b}, k) {
      var a :| a in away && a.height == k && a.hash == h;
      assert a in away - {b};
    }
  }

  lemma AwayWith(away: set<Header>, b: Header, k: nat)
    ensures AwayAt(away + {b}, k)
      == if k == b.height then AwayAt(away, k) + {b.hash} else AwayAt(away, k)
  {
    assert b in away + {b};
    assert forall a :: a in away ==> a in away + {b};
  }

  lemma AddedHeights(heights: map<nat, HashStr>, c: Chain, b: Header)
    requires HeightsAgree(heights, c.main) && Legal(c, Step.AcceptBlock(b))
    ensures HeightsAgree(heights[b.height := b.hash], c.main + [b])
  {
  }

  lemma RemovedHeights(heights: map<nat, HashStr>, c: Chain, b: Header)
    requires Consistent(c) && HeightsAgree(heights, c.main) && Legal(c, Step.RejectBlock(b))
    ensures HeightsAgree(heights - {b.height}, c.main[..|c.main| - 1])
  {
    hide Known;
    assert c.main[|c.main| - 1].height == |c.main| - 1;
  }

  // A block that comes in has its parent in the store.
  lemma ParentIsKnown(objects: map<HashStr, BlockObject>, c: Chain, s: Step)
    requires Consistent(c) && Legal(c, s) && MainAgrees(objects, c.main)
    ensures s.RejectBlock? ==> s.block.hash in objects && s.block.height == |c.main| - 1
    ensures s.block.height > 0 ==> s.block.prev in objects && s.block.prev != s.block.hash
    ensures s.block.height > 0 ==>
      s.block.height - 1 < |c.main| && c.main[s.block.height - 1].hash == s.block.prev
  {
    var b := s.block;
    if s.RejectBlock? {
      assert MainAt(objects, c.main, |c.main| - 1);
    }
    if b.height > 0 {
      assert c.main[|c.main| - 1].height == |c.main| - 1;
      assert MainAt(objects, c.main, b.height - 1);
      assert c.main[b.height - 1] in c.main;
      assert c.main[b.height - 1].height == b.height - 1;
    }
  }

  // Blocks of the chain at different places have different hashes.
  lemma HashesDiffer(c: Chain)
    requires Consistent(c)
    ensures forall i, j :: 0 <= i < |c.main| && 0 <= j < |c.main| && c.main[i].hash == c.main[j].hash ==> i == j
    ensures forall i, a :: 0 <= i < |c.main| && a in c.away ==> c.main[i].hash != a.hash
  {
    forall i, j | 0 <= i < |c.main| && 0 <= j < |c.main| && c.main[i].hash == c.main[j].hash ensures i == j {
      assert c.main[i] in c.main && c.main[j] in c.main;
    }
    forall i, a | 0 <= i < |c.main| && a in c.away ensures c.main[i].hash != a.hash {
      assert c.main[i] in c.main;
    }
  }

  lemma AddedMain(objects: map<HashStr, BlockObject>, c: Chain, b: Header)
    requires Consistent(c) && Legal(c, Step.AcceptBlock(b)) && MainAgrees(objects, c.main)
    requires b.height > 0 ==> b.prev in objects
    ensures MainAgrees(Added(objects, b), Apply(c, Step.AcceptBlock(b)).main)
  {
    hide Consistent, LegalRun, Known, Linked;
    var d := Apply(c, Step.AcceptBlock(b));
    LegalKeepsConsistent(c, Step.AcceptBlock(b));
    ParentIsKnown(objects, c, Step.AcceptBlock(b));
    HashesDiffer(c);
    HashesDiffer(d);
    forall i: nat | i < |d.main| ensures MainAt(Added(objects, b), d.main, i) {
      assert i < |c.main| ==> MainAt(objects, c.main, i);
      assert i < |c.main| ==> d.main[i] == c.main[i] && d.main[i].hash != d.main[|c.main|].hash;
      assert i + 1 < |c.main| ==> c.main[i].hash != c.main[|c.main| - 1].hash;
    }
  }

  lemma AddedAway(objects: map<HashStr, BlockObject>, c: Chain, b: Header)
    requires Consistent(c) && Legal(c, Step.AcceptBlock(b))
    requires MainAgrees(objects, c.main) && AwayAgrees(objects, c.away)
    requires b.height > 0 ==> b.prev in objects
    ensures AwayAgrees(Added(objects, b), Apply(c, Step.AcceptBlock(b)).away)
  {
    var d := Apply(c, Step.AcceptBlock(b));
    LegalKeepsConsistent(c, Step.AcceptBlock(b));
    ParentIsKnown(objects, c, Step.AcceptBlock(b));
    HashesDiffer(c);
    forall a | a in d.away ensures AwayOne(Added(objects, b), a) {
    }
  }

  lemma AddedOnly(objects: map<HashStr, BlockObject>, c: Chain, b: Header)
    requires Consistent(c) && Legal(c, Step.AcceptBlock(b)) && MainAgrees(objects, c.main) && NothingElse(objects, c)
    requires b.height > 0 ==> b.prev in objects
    ensures NothingElse(Added(objects, b), Apply(c, Step.AcceptBlock(b)))
  {
    LegalKeepsConsistent(c, Step.AcceptBlock(b));
    ParentIsKnown(objects, c, Step.AcceptBlock(b));
  }

  lemma OrphanedMain(objects: map<HashStr, BlockObject>, c: Chain, b: Header)
    requires Consistent(c) && Legal(c, Step.RejectBlock(b)) && MainAgrees(objects, c.main)
    requires b.hash in objects && (b.height > 0 ==> b.prev in objects)
    ensures MainAgrees(Orphaned(objects, b), Apply(c, Step.RejectBlock(b)).main)
  {
    hide Consistent, LegalRun, Known, Linked;
    var d := Apply(c, Step.RejectBlock(b));
    LegalKeepsConsistent(c, Step.RejectBlock(b));
    ParentIsKnown(objects, c, Step.RejectBlock(b));
    HashesDiffer(c);
    HashesDiffer(d);
    forall i: nat | i < |d.main| ensures MainAt(Orphaned(objects, b), d.main, i) {
      assert i < |c.main| ==> MainAt(objects, c.main, i);
    }
  }

  lemma OrphanedAway(objects: map<HashStr, BlockObject>, c: Chain, b: Header)
    requires Consistent(c) && Legal(c, Step.RejectBlock(b))
    requires MainAgrees(objects, c.main) && AwayAgrees(objects, c.away)
    requires b.hash in objects && (b.height > 0 ==> b.prev in objects)
    ensures AwayAgrees(Orphaned(objects, b), Apply(c, Step.RejectBlock(b)).away)
  {
    var d := Apply(c, Step.RejectBlock(b));
    LegalKeepsConsistent(c, Step.RejectBlock(b));
    ParentIsKnown(objects, c, Step.RejectBlock(b));
    HashesDiffer(c);
    assert MainAt(objects, c.main, |c.main| - 1);
    forall a | a in d.away ensures AwayOne(Orphaned(objects, b), a) {
      assert a != b ==> AwayOne(objects, a);
    }
  }

  lemma OrphanedOnly(objects: map<HashStr, BlockObject>, c: Chain, b: Header)
    requires Consistent(c) && Legal(c, Step.RejectBlock(b)) && MainAgrees(objects, c.main) && NothingElse(objects, c)
    requires b.hash in objects && (b.height > 0 ==> b.prev in objects)
    ensures NothingElse(Orphaned(objects, b), Apply(c, Step.RejectBlock(b)))
  {
    LegalKeepsConsistent(c, Step.RejectBlock(b));
    ParentIsKnown(objects, c, Step.RejectBlock(b));
  }

  lemma AddedObjects(objects: map<HashStr, BlockObject>, c: Chain, b: Header)
    requires Consistent(c) && Legal(c, Step.AcceptBlock(b)) && ObjectsAgree(objects, c)
    ensures (b.height > 0 ==> b.prev in objects && b.prev != b.hash)
    ensures ObjectsAgree(Added(objects, b), Apply(c, Step.AcceptBlock(b)))
  {
    ParentIsKnown(objects, c, Step.AcceptBlock(b));
    AddedMain(objects, c, b);
    AddedAway(objects, c, b);
    AddedOnly(objects, c, b);
  }

  lemma OrphanedObjects(objects: map<HashStr, BlockObject>, c: Chain, b: Header)
    requires Consistent(c) && Legal(c, Step.RejectBlock(b)) && ObjectsAgree(objects, c)
    ensures b.hash in objects && (b.height > 0 ==> b.prev in objects && b.prev != b.hash)
    ensures ObjectsAgree(Orphaned(objects, b), Apply(c, Step.RejectBlock(b)))
  {
    ParentIsKnown(objects, c, Step.RejectBlock(b));
    OrphanedMain(objects, c, b);
    OrphanedAway(objects, c, b);
    OrphanedOnly(objects, c, b);
  }
}
