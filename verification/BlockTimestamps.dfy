/**
 The times of the newest blocks, which the log2 producer keeps to know the highest of
 them, and how deep a rollback they allow.
 */
module BlockTimestamps {

  function Min(a: int, b: int): int {
    if a <= b then a else b
  }

  lemma SomeMember(s: set<int>)
    requires s != {}
    ensures exists k :: k in s
  {
    if forall k :: k !in s {
      assert false;
    }
  }

  lemma {:induction false} CountHeights(keys: set<int>, height: int, n: nat)
    requires forall h :: h in keys <==> height - n < h <= height
    ensures |keys| == n
    decreases n
  {
    if n == 0 {
      assert forall h :: h !in keys;
      assert keys == {};
    } else {
      CountHeights(keys - {height}, height - 1, n - 1);
    }
  }

  // The highest of these times, 0 when there are none.
  ghost predicate IsHighest(times: map<int, nat>, top: nat) {
    && (forall h :: h in times ==> times[h] <= top)
    && (top == 0 || exists h :: h in times && times[h] == top)
  }

  class BlockTimestamp {
    const limit: nat
    var blkTimestamps: map<int, nat>
    var currMax: nat

    // The times of the n newest blocks up to `height` are kept.
    ghost predicate Holds(height: int, n: nat)
      reads this
    {
      && n <= limit
      && (forall h :: h in blkTimestamps <==> height - n < h <= height)
      && forall h :: h in blkTimestamps ==> blkTimestamps[h] <= currMax
    }

    constructor (limit: nat)
      ensures this.limit == limit && forall height :: Holds(height, 0)
    {
      this.limit := limit;
      blkTimestamps, currMax := map[], 0;
    }

    method EraseFirst(ghost height: int, ghost k: nat)
      requires k > 0 && forall h :: h in blkTimestamps <==> height - k < h <= height
      modifies this`blkTimestamps
      ensures blkTimestamps == old(blkTimestamps) - {height - k + 1}
    {
      assert height - k + 1 in blkTimestamps;
      var first :| first in blkTimestamps && forall h :: h in blkTimestamps ==> first <= h;
      blkTimestamps := blkTimestamps - {first};
    }

    // Forgets the lowest blocks while there are more than the limit.
    method TrimFront(ghost height: int, ghost n: nat)
      requires n <= limit + 1 && forall h :: h in blkTimestamps <==> height - n < h <= height
      modifies this`blkTimestamps
      ensures forall h :: h in blkTimestamps <==> height - Min(n, limit) < h <= height
      ensures forall h :: h in blkTimestamps ==> h in old(blkTimestamps) && blkTimestamps[h] == old(blkTimestamps)[h]
    {
      ghost var k := n;
      CountHeights(blkTimestamps.Keys, height, k);
      while |blkTimestamps| > limit
        invariant |blkTimestamps| == |blkTimestamps.Keys| == k && Min(n, limit) <= k <= n
        invariant forall h :: h in blkTimestamps <==> height - k < h <= height
        invariant forall h :: h in blkTimestamps ==>
          h in old(blkTimestamps) && blkTimestamps[h] == old(blkTimestamps)[h]
        decreases k
      {
        EraseFirst(height, k);
        k := k - 1;
        CountHeights(blkTimestamps.Keys, height, k);
      }
    }

    // Keeps the time of one more block, and forgets the lowest block past the limit;
    // ok is false where the original finds the height there already.
    method PushBlock(height: int, ts: nat, ghost n: nat) returns (ok: bool)
      requires Holds(height - 1, n)
      modifies this
      ensures ok && Holds(height, Min(n + 1, limit))
      ensures currMax == if ts > old(currMax) then ts else old(currMax)
      ensures forall h :: h in blkTimestamps ==>
        if h == height then blkTimestamps[h] == ts
        else h in old(blkTimestamps) && blkTimestamps[h] == old(blkTimestamps)[h]
    {
      if height in blkTimestamps {
        return false;
      }
      blkTimestamps := blkTimestamps[height := ts];
      if ts > currMax {
        currMax := ts;
      }
      TrimFront(height, n + 1);
      ok := true;
    }

    // Forgets the highest block; ok is false where the original has none to forget.
    method PopBlock(height: int, ghost n: nat) returns (ok: bool)
      requires Holds(height, n)
      modifies this
      ensures ok <==> n > 0
      ensures ok ==> Holds(height - 1, n - 1) && IsHighest(blkTimestamps, currMax)
      ensures ok ==> blkTimestamps == old(blkTimestamps) - {height}
      ensures !ok ==> Holds(height, n)
    {
      CountHeights(blkTimestamps.Keys, height, n);
      assert |blkTimestamps| == |blkTimestamps.Keys|;
      if |blkTimestamps| == 0 {
        return false;
      }
      assert height in blkTimestamps;
      var last :| last in blkTimestamps && forall h :: h in blkTimestamps ==> h <= last;
      blkTimestamps := blkTimestamps - {last};
      RecomputeMax();
      ok := true;
    }

    method RecomputeMax()
      modifies this`currMax
      ensures IsHighest(blkTimestamps, currMax)
    {
      currMax := 0;
      var todo := blkTimestamps.Keys;
      while todo != {}
        invariant todo <= blkTimestamps.Keys
        invariant forall h :: h in blkTimestamps && h !in todo ==> blkTimestamps[h] <= currMax
        invariant currMax == 0 || exists h :: h in blkTimestamps && blkTimestamps[h] == currMax
      {
        SomeMember(todo);
        var h :| h in todo;
        todo := todo - {h};
        if currMax < blkTimestamps[h] {
          currMax := blkTimestamps[h];
        }
      }
    }
  }

  // ---------- How deep a rollback may go ----------

  // Heights of the chain, one block up or down at a time.
  ghost predicate IsPath(path: seq<int>) {
    path != [] && forall i, j :: 0 <= i && j == i + 1 && j < |path| ==> path[j] == path[i] + 1 || path[j] + 1 == path[i]
  }

  // How many times are kept at the end of the path, of k at its start; -1 when a block
  // went that had none.
  function KeptAfter(limit: nat, k: nat, path: seq<int>): int
    requires path != []
    decreases |path|
  {
    if |path| == 1 then k
    else
      var n, pre := |path| - 1, path[..|path| - 1];
      var before := KeptAfter(limit, k, pre);
      if before < 0 then -1
      else if path[n] > path[n - 1] then Min(before + 1, limit)
      else before - 1
  }

  // No height is more than k below the start, or more than the limit below an earlier one.
  ghost predicate Shallow(limit: nat, k: nat, path: seq<int>)
    requires path != []
  {
    && (forall j :: 0 <= j < |path| ==> path[j] >= path[0] - k)
    && forall i, j :: 0 <= i <= j < |path| ==> path[j] >= path[i] - limit
  }

  // As many times are kept as these bounds leave room for.
  ghost predicate KeptIs(limit: nat, k: nat, path: seq<int>, kept: nat)
    requires path != []
  {
    var at := path[|path| - 1];
    && kept <= k + at - path[0]
    && (forall i :: 0 <= i < |path| ==> kept <= limit + at - path[i])
    && (kept == k + at - path[0] || exists i :: 0 <= i < |path| && kept == limit + at - path[i])
  }

  // Rollbacks find a time to forget if and only if none of them goes too deep.
  lemma {:induction false} KeptIsEnough(limit: nat, k: nat, path: seq<int>)
    requires IsPath(path) && k <= limit
    ensures KeptAfter(limit, k, path) >= 0 <==> Shallow(limit, k, path)
    ensures KeptAfter(limit, k, path) >= 0 ==> KeptIs(limit, k, path, KeptAfter(limit, k, path))
    decreases |path|
  {
    if |path| > 1 {
      var pre, n := path[..|path| - 1], |path| - 1;
      assert IsPath(pre) by {
        assert forall i :: 0 <= i < |pre| ==> pre[i] == path[i];
      }
      KeptIsEnough(limit, k, pre);
      ShallowSnoc(limit, k, path);
      if Shallow(limit, k, pre) {
        KeptSnoc(limit, k, path);
      }
    }
  }

  // Up by one more than the limit and down again to the start.
  function UpAndDown(limit: nat): seq<int> {
    seq(2 * limit + 3, i requires 0 <= i < 2 * limit + 3 => if i <= limit + 1 then i else 2 * limit + 2 - i)
  }

  // A rollback by one more than the limit finds none, wherever it started.
  lemma TooDeep(limit: nat, k: nat)
    requires k <= limit
    ensures IsPath(UpAndDown(limit)) && (forall h :: h in UpAndDown(limit) ==> h >= UpAndDown(limit)[0])
    ensures KeptAfter(limit, k, UpAndDown(limit)) < 0
  {
    var path := UpAndDown(limit);
    assert path[limit + 1] == limit + 1 && path[2 * limit + 2] == 0;
    assert !Shallow(limit, k, path);
    KeptIsEnough(limit, k, path);
  }

  lemma ShallowSnoc(limit: nat, k: nat, path: seq<int>)
    requires |path| > 1
    ensures var n := |path| - 1;
      Shallow(limit, k, path) <==>
        && Shallow(limit, k, path[..n])
        && path[n] >= path[0] - k && forall i :: 0 <= i <= n ==> path[n] >= path[i] - limit
  {
    var n := |path| - 1;
    var pre := path[..n];
    assert forall i :: 0 <= i < n ==> pre[i] == path[i];
  }

  lemma KeptSnoc(limit: nat, k: nat, path: seq<int>)
    requires |path| > 1 && IsPath(path) && k <= limit
    requires var pre := path[..|path| - 1];
      KeptAfter(limit, k, pre) >= 0 && KeptIs(limit, k, pre, KeptAfter(limit, k, pre))
    ensures var n, kept := |path| - 1, KeptAfter(limit, k, path);
      && (kept >= 0 <==> path[n] >= path[0] - k && forall i :: 0 <= i <= n ==> path[n] >= path[i] - limit)
      && (kept >= 0 ==> KeptIs(limit, k, path, kept))
  {
    var n := |path| - 1;
    var pre := path[..n];
    var before, kept := KeptAfter(limit, k, pre), KeptAfter(limit, k, path);
    assert pre[0] == path[0] && pre[n - 1] == path[n - 1];
    assert forall i :: 0 <= i < n ==> pre[i] == path[i];
    if path[n] > path[n - 1] {
      assert kept == limit ==> kept == limit + path[n] - path[n];
      assert before + 1 <= limit && before != k + path[n - 1] - path[0] ==>
        exists i :: 0 <= i < |path| && kept == limit + path[n] - path[i] by {
        if before + 1 <= limit && before != k + path[n - 1] - path[0] {
          var i :| 0 <= i < n && before == limit + pre[n - 1] - pre[i];
          assert kept == limit + path[n] - path[i];
        }
      }
    } else if before != k + path[n - 1] - path[0] {
      var i :| 0 <= i < n && before == limit + pre[n - 1] - pre[i];
      assert before - 1 == limit + path[n] - path[i];
    }
  }
}
