/** The bootstrap loader's transactions: a sorted vector whose output slots are freed
 as they are spent. */
module BootstrapTxs {
  import opened Transactions
  import opened Ledgers

  datatype Slot = Freed | Held(out: TxOut)

  // outputs_ is null before the transaction is parsed and after its last output went.
  datatype Outputs = NoOutputs | Outputs(slots: seq<Slot>)

  datatype TxInfo = TxInfo(hash: Hash, height: int, outputs: Outputs)

  // std::upper_bound.
  method UpperBound<T>(s: seq<T>, key: T -> int, needle: int) returns (i: nat)
    requires forall j, k :: 0 <= j < k < |s| ==> key(s[j]) <= key(s[k])
    ensures i <= |s|
    ensures forall j :: 0 <= j < i ==> key(s[j]) <= needle
    ensures forall j :: i <= j < |s| ==> needle < key(s[j])
  {
    i := 0;
    var hi := |s|;
    while i < hi
      invariant 0 <= i <= hi <= |s|
      invariant forall j :: 0 <= j < i ==> key(s[j]) <= needle
      invariant forall j :: hi <= j < |s| ==> needle < key(s[j])
    {
      var mid := (i + hi) / 2;
      if needle < key(s[mid]) {
        hi := mid;
      } else {
        i := mid + 1;
      }
    }
  }

  predicate HeldAt(e: TxInfo, n: nat) {
    e.outputs.Outputs? && n < |e.outputs.slots| && e.outputs.slots[n].Held?
  }

  // Slots are those of the outputs of the transaction.
  ghost predicate SlotsFit(e: TxInfo) {
    e.outputs.Outputs? ==>
      && |e.outputs.slots| == |e.hash.tx.vout|
      && forall n :: 0 <= n < |e.outputs.slots| && e.outputs.slots[n].Held? ==>
        e.outputs.slots[n].out == e.hash.tx.vout[n]
  }

  ghost predicate SortedBy<T>(s: seq<T>, key: T -> int) {
    forall i, j :: 0 <= i < j < |s| ==> key(s[i]) <= key(s[j])
  }

  method InsertSorted<T>(s: seq<T>, x: T, key: T -> int) returns (r: seq<T>)
    requires SortedBy(s, key)
    ensures SortedBy(r, key) && multiset(r) == multiset(s) + multiset{x}
  {
    var i := |s|;
    while i > 0 && key(x) < key(s[i - 1])
      invariant 0 <= i <= |s| && forall j :: i <= j < |s| ==> key(x) < key(s[j])
    {
      i := i - 1;
    }
    r := s[..i] + [x] + s[i..];
    InsertedInOrder(s, x, i, key);
    InsertedAll(s, x, i);
  }

  lemma InsertedAll<T>(s: seq<T>, x: T, i: nat)
    requires i <= |s|
    ensures multiset(s[..i] + [x] + s[i..]) == multiset(s) + multiset{x}
  {
    assert s == s[..i] + s[i..];
  }

  lemma InsertedInOrder<T>(s: seq<T>, x: T, i: nat, key: T -> int)
    requires SortedBy(s, key) && i <= |s|
    requires i > 0 ==> key(s[i - 1]) <= key(x)
    requires forall j :: i <= j < |s| ==> key(x) < key(s[j])
    ensures SortedBy(s[..i] + [x] + s[i..], key)
  {
    var r := s[..i] + [x] + s[i..];
    assert forall j :: 0 <= j < i ==> r[j] == s[j];
    assert forall j :: i < j < |r| ==> r[j] == s[j - 1];
  }

  // std::sort, which puts what compares equal in any order.
  method SortBy<T>(s: seq<T>, key: T -> int) returns (r: seq<T>)
    ensures SortedBy(r, key) && multiset(r) == multiset(s)
  {
    r := [];
    for i := 0 to |s|
      invariant SortedBy(r, key) && multiset(r) == multiset(s[..i])
    {
      assert s[..i + 1] == s[..i] + [s[i]];
      r := InsertSorted(r, s[i], key);
    }
    assert s[..|s|] == s;
  }

  lemma NoDupCount<T(!new)>(s: seq<T>)
    requires forall x :: multiset(s)[x] <= 1
    ensures NoDup(s)
  {
    forall i, j | 0 <= i < j < |s| ensures s[i] != s[j] {
      assert s == s[..j] + s[j..];
      assert multiset(s)[s[i]] == multiset(s[..j])[s[i]] + multiset(s[j..])[s[i]];
      assert s[i] in s[..j] && s[j] in s[j..];
    }
  }

  lemma {:induction false} CountNoDup<T(!new)>(s: seq<T>)
    requires NoDup(s)
    ensures forall x :: multiset(s)[x] <= 1
    decreases |s|
  {
    if s != [] {
      var t := s[..|s| - 1];
      assert s == t + [s[|s| - 1]];
      CountNoDup(t);
      assert s[|s| - 1] !in t;
    }
  }

  // A permutation has the same elements, and each once if they came once.
  lemma SortedKeepsAll<T(!new)>(s: seq<T>, r: seq<T>)
    requires NoDup(s) && multiset(r) == multiset(s)
    ensures NoDup(r) && forall x :: x in r <==> x in s
  {
    CountNoDup(s);
    NoDupCount(r);
    assert forall x :: x in r <==> x in multiset(r);
    assert forall x :: x in s <==> x in multiset(s);
  }

  method AllFreed(slots: seq<Slot>) returns (isEmpty: bool)
    ensures isEmpty <==> forall n :: 0 <= n < |slots| ==> slots[n].Freed?
  {
    for n := 0 to |slots|
      invariant forall m :: 0 <= m < n ==> slots[m].Freed?
    {
      if slots[n].Held? {
        return false;
      }
    }
    isEmpty := true;
  }

  // Frees a slot, and the slot array once all are free.
  method FreeSlot(e: TxInfo, n: nat) returns (f: TxInfo)
    requires SlotsFit(e) && HeldAt(e, n)
    ensures SlotsFit(f) && f.hash == e.hash && f.height == e.height
    ensures forall m: nat :: HeldAt(f, m) <==> HeldAt(e, m) && m != n
    ensures f.outputs.NoOutputs? <==> forall m: nat :: m != n ==> !HeldAt(e, m)
  {
    var slots := e.outputs.slots[n := Freed];
    assert forall m :: 0 <= m < |slots| ==> slots[m] == if m == n then Freed else e.outputs.slots[m];
    var isEmpty := AllFreed(slots);
    f := e.(outputs := if isEmpty then NoOutputs else Outputs(slots));
    assert isEmpty ==> forall m: nat :: HeldAt(e, m) ==> m == n by {
      assert forall m: nat :: HeldAt(e, m) && m != n ==> slots[m].Held?;
    }
    assert forall m: nat :: m < |slots| && slots[m].Held? ==> m != n && HeldAt(e, m);
  }

  ghost predicate OneToOne(num: Hash -> int) {
    forall h, k :: num(h) == num(k) ==> h == k
  }

  // The height of a confirmed transaction.
  ghost function HeightOf(l: Ledger, h: Hash): nat
    requires h in l.confirmed && |l.confirmed| == |l.heights|
  {
    var i :| 0 <= i < |l.confirmed| && l.confirmed[i] == h;
    l.heights[i]
  }

  ghost predicate StillUnspent(l: Ledger, o: Outpoint) {
    o.hash in l.confirmed && InRange(o) && !SpentLive(l, o)
  }

  // A further confirmed transaction.
  ghost function Loaded(l: Ledger, h: Hash, height: nat): Ledger {
    Ledger({}, l.confirmed + [h], l.heights + [height])
  }

  lemma HeightAt(l: Ledger, i: nat)
    requires |l.confirmed| == |l.heights| && NoDup(l.confirmed) && i < |l.confirmed|
    ensures HeightOf(l, l.confirmed[i]) == l.heights[i]
  {
    var k :| 0 <= k < |l.confirmed| && l.confirmed[k] == l.confirmed[i] && HeightOf(l, l.confirmed[i]) == l.heights[k];
  }

  lemma LoadedHeights(l: Ledger, h: Hash, height: nat)
    requires Consistent(l) && h !in l.confirmed
    ensures HeightOf(Loaded(l, h, height), h) == height
    ensures forall k :: k in l.confirmed ==> HeightOf(Loaded(l, h, height), k) == HeightOf(l, k)
  {
    var m := Loaded(l, h, height);
    HeightAt(m, |l.confirmed|);
    forall k | k in l.confirmed ensures HeightOf(m, k) == HeightOf(l, k) {
      var i :| 0 <= i < |l.confirmed| && l.confirmed[i] == k;
      HeightAt(l, i);
      HeightAt(m, i);
    }
  }

  lemma LoadedUnspent(l: Ledger, h: Hash, height: nat, o: Outpoint)
    requires Consistent(l) && l.pool == {} && Legal(l, Accept(h))
    ensures StillUnspent(Loaded(l, h, height), o) <==>
      if o.hash == h then InRange(o) else StillUnspent(l, o) && !Spends(h, o)
  {
    var m := Loaded(l, h, height);
    assert forall k :: Live(m, k) <==> Live(l, k) || k == h;
    assert Live(m, h);
    if SpentLive(l, o) {
      var k :| Live(l, k) && Spends(k, o);
      assert Live(m, k);
    }
  }

  class TxHandler {
    const num: Hash -> int      // the hash as a number
    var txInfo: seq<TxInfo>

    ghost predicate Listed(h: Hash)
      reads this
    {
      exists i :: 0 <= i < |txInfo| && txInfo[i].hash == h
    }

    ghost predicate Valid()
      reads this
    {
      && OneToOne(num)
      && (forall i, j :: 0 <= i < j < |txInfo| ==> num(txInfo[i].hash) < num(txInfo[j].hash))
      && (forall i :: 0 <= i < |txInfo| ==> SlotsFit(txInfo[i]))
    }

    // The slot of this output is there and not freed.
    ghost predicate Holding(o: Outpoint)
      reads this
    {
      exists i :: 0 <= i < |txInfo| && txInfo[i].hash == o.hash && HeldAt(txInfo[i], o.n)
    }

    // The slots left are the unspent outputs of the ledger, but for `spent`.
    ghost predicate Agrees(l: Ledger, spent: set<Outpoint>)
      reads this
    {
      && Valid() && |l.confirmed| == |l.heights|
      && (forall h :: h in l.confirmed ==> Listed(h))
      && (forall o :: Holding(o) <==> StillUnspent(l, o) && o !in spent)
      && (forall i :: 0 <= i < |txInfo| && txInfo[i].hash in l.confirmed ==>
        txInfo[i].height == HeightOf(l, txInfo[i].hash))
    }

    // One entry for every line of the transaction file.
    constructor (lines: seq<Hash>, num: Hash -> int)
      requires NoDup(lines) && OneToOne(num)
      ensures Valid() && this.num == num
      ensures forall h :: Listed(h) <==> h in lines
      ensures Agrees(EMPTY_LEDGER, {})
    {
      var sorted := SortBy(lines, num);
      SortedKeepsAll(lines, sorted);
      this.num := num;
      txInfo := seq(|sorted|, i requires 0 <= i < |sorted| => TxInfo(sorted[i], -1, NoOutputs));
      new;
      forall h ensures Listed(h) <==> h in sorted {
        if h in sorted {
          var i :| 0 <= i < |sorted| && sorted[i] == h;
          assert txInfo[i].hash == h;
        }
      }
    }

    // The last entry not above `h`; ok is false where the original throws.  It is the
    // entry of `h` exactly when there is one.
    method Find(h: Hash) returns (ok: bool, i: nat)
      requires Valid()
      ensures ok <==> txInfo != [] && num(txInfo[0].hash) <= num(h)
      ensures ok ==> i < |txInfo| && (txInfo[i].hash == h <==> Listed(h))
      ensures Listed(h) ==> ok
    {
      var num' := num;
      i := UpperBound(txInfo, (e: TxInfo) => num'(e.hash), num(h));
      ok := i > 0;
      if ok {
        i := i - 1;
      }
    }

    method Replace(i: nat, e: TxInfo)
      requires Valid() && i < |txInfo| && e.hash == txInfo[i].hash && SlotsFit(e)
      modifies this
      ensures Valid() && txInfo == old(txInfo)[i := e]
      ensures forall k :: Listed(k) <==> old(Listed(k))
      ensures forall o :: Holding(o) <==> if o.hash == e.hash then HeldAt(e, o.n) else old(Holding(o))
      ensures forall o: Outpoint :: o.hash == e.hash ==> (old(Holding(o)) <==> HeldAt(old(txInfo)[i], o.n))
    {
      txInfo := txInfo[i := e];
      OneChanged(old(txInfo), i, e);
    }

    method AddOutputs(h: Hash, height: nat) returns (ok: bool)
      requires Valid() && Listed(h)
      modifies this
      ensures ok && Valid()
      ensures forall k :: Listed(k) <==> old(Listed(k))
      ensures forall o :: Holding(o) <==> if o.hash == h then InRange(o) else old(Holding(o))
      ensures forall i :: 0 <= i < |txInfo| ==>
        if txInfo[i].hash == h then txInfo[i].height == height
        else i < |old(txInfo)| && txInfo[i] == old(txInfo)[i]
    {
      var i;
      ok, i := Find(h);
      if !ok {
        return;
      }
      var slots := seq(|h.tx.vout|, n requires 0 <= n < |h.tx.vout| => Held(h.tx.vout[n]));
      var e := TxInfo(txInfo[i].hash, height, Outputs(slots));
      Replace(i, e);
      assert forall n: nat :: HeldAt(e, n) <==> n < |h.tx.vout|;
    }

    // Reads an output through the slot pointers; the original does not check them.
    method GetOutput(o: Outpoint) returns (ok: bool, out: TxOut)
      requires Valid() && Listed(o.hash)
      ensures ok <==> Holding(o)
      ensures ok ==> out == PrevOut(o) && InRange(o)
    {
      out := TxOut(0, []);
      var i;
      ok, i := Find(o.hash);
      if !ok {
        return;
      }
      var e := txInfo[i];
      ok := HeldAt(e, o.n);
      if ok {
        out := e.outputs.slots[o.n].out;
      }
    }

    // Frees one slot, and the slot array once all are free; throws (ok false) when
    // there is nothing to free.
    method DelOutput(o: Outpoint) returns (ok: bool)
      requires Valid() && Listed(o.hash)
      modifies this
      ensures ok <==> old(Holding(o))
      ensures Valid()
      ensures forall k :: Listed(k) <==> old(Listed(k))
      ensures forall p :: Holding(p) <==> old(Holding(p)) && p != o
      ensures |txInfo| == |old(txInfo)|
      ensures forall i :: 0 <= i < |txInfo| ==>
        txInfo[i].hash == old(txInfo)[i].hash && txInfo[i].height == old(txInfo)[i].height
    {
      hide HeldAt, SlotsFit;
      var i;
      ok, i := Find(o.hash);
      if !ok {
        return;
      }
      var e := txInfo[i];
      ok := HeldAt(e, o.n);
      if !ok {
        return;
      }
      var f := FreeSlot(e, o.n);
      Replace(i, f);
    }

    // Reads an unspent output and frees its slot.
    method Spend(o: Outpoint, ghost l: Ledger, ghost spent: set<Outpoint>) returns (ok: bool, out: TxOut)
      requires Agrees(l, spent) && StillUnspent(l, o) && o !in spent
      modifies this
      ensures ok && out == PrevOut(o) && Agrees(l, spent + {o})
      ensures forall k :: Listed(k) <==> old(Listed(k))
    {
      ok, out := GetOutput(o);
      if !ok {
        return;
      }
      ok := DelOutput(o);
    }

    // The outputs of a transaction whose inputs are all spent now.
    method AddConfirmed(h: Hash, height: nat, ghost l: Ledger) returns (ok: bool)
      requires Agrees(l, set o | o in h.tx.vin) && Listed(h)
      requires Consistent(l) && l.pool == {} && Legal(l, Accept(h))
      modifies this
      ensures ok && Agrees(Loaded(l, h, height), {})
      ensures forall k :: Listed(k) <==> old(Listed(k))
    {
      LoadedHeights(l, h, height);
      forall o {
        LoadedUnspent(l, h, height, o);
      }
      ok := AddOutputs(h, height);
    }

    // Frees whatever slots are left.
    method DelOutputAll(i: nat) returns (ok: bool)
      requires i < |txInfo|
      modifies this
      ensures ok <==> old(txInfo)[i].outputs.Outputs?
      ensures ok ==> txInfo == old(txInfo)[i := old(txInfo)[i].(outputs := NoOutputs)]
    {
      var e := txInfo[i];
      if e.outputs.NoOutputs? {
        return false;
      }
      var slots := e.outputs.slots;
      for n := 0 to |slots|
        invariant |slots| == |e.outputs.slots| && |txInfo| == |old(txInfo)|
        invariant txInfo == old(txInfo)[i := e.(outputs := Outputs(slots))]
      {
        if slots[n].Held? {
          slots := slots[n := Freed];
          txInfo := txInfo[i := e.(outputs := Outputs(slots))];
        }
      }
      txInfo := txInfo[i := e.(outputs := NoOutputs)];
      ok := true;
    }

    lemma OneChanged(before: seq<TxInfo>, i: nat, e: TxInfo)
      requires i < |before| && e.hash == before[i].hash && txInfo == before[i := e] && OneToOne(num)
      requires forall j, k :: 0 <= j < k < |before| ==> num(before[j].hash) < num(before[k].hash)
      ensures forall k :: Listed(k) <==> exists j :: 0 <= j < |before| && before[j].hash == k
      ensures forall o :: Holding(o) <==>
        if o.hash == e.hash then HeldAt(e, o.n)
        else exists j :: 0 <= j < |before| && before[j].hash == o.hash && HeldAt(before[j], o.n)
      ensures forall o: Outpoint :: o.hash == e.hash ==>
        (HeldAt(before[i], o.n) <==>
          exists j :: 0 <= j < |before| && before[j].hash == o.hash && HeldAt(before[j], o.n))
    {
      forall k ensures Listed(k) <==> exists j :: 0 <= j < |before| && before[j].hash == k {
        if Listed(k) {
          var j :| 0 <= j < |txInfo| && txInfo[j].hash == k;
          assert before[j].hash == k;
        }
        if j :| 0 <= j < |before| && before[j].hash == k {
          assert txInfo[j].hash == k;
        }
      }
      forall o ensures Holding(o) <==>
        if o.hash == e.hash then HeldAt(e, o.n)
        else exists j :: 0 <= j < |before| && before[j].hash == o.hash && HeldAt(before[j], o.n)
      {
        assert txInfo[i] == e;
        if o.hash != e.hash {
          if j :| 0 <= j < |before| && before[j].hash == o.hash && HeldAt(before[j], o.n) {
            assert txInfo[j] == before[j];
          }
        }
      }
    }
  }
}
