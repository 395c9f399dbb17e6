/**
 The window of recent blocks the log1 producer keeps, the block records it writes, and
 the window it rebuilds from them after a restart.
 */
module Log1Chain {
  import opened Log2Spec

  datatype Option<T> = None | Some(value: T)

  // The window: block hashes oldest first, `hi` the height of the newest.
  datatype Window = Window(hi: int, hs: seq<BlockHash>)

  // A block record of log0 or log1.
  datatype Record = Record(height: int, block: Block)

  function CurHeight(w: Window): int {
    if w.hs == [] then -1 else w.hi
  }

  function CurHash(w: Window): BlockHash {
    if w.hs == [] then NoBlock else w.hs[|w.hs| - 1]
  }

  function Trim(hs: seq<BlockHash>, limit: nat): seq<BlockHash> {
    if |hs| > limit then hs[|hs| - limit..] else hs
  }

  // Chain::push; None where it throws.
  function Pushed(w: Window, limit: nat, r: Record): Option<Window> {
    if r.height == CurHeight(w) + 1 then
      if r.block.prev != CurHash(w) then None
      else Some(Window(r.height, Trim(w.hs + [BlockHashOf(r.block)], limit)))
    else if r.height + 1 == CurHeight(w) then
      if |w.hs| <= 3 || r.block.prev != w.hs[|w.hs| - 3] then None
      else Some(Window(w.hi - 1, Trim(w.hs[..|w.hs| - 1], limit)))
    else None
  }

  function Popped(w: Window): Window {
    if w.hs == [] then w else Window(w.hi - 1, w.hs[..|w.hs| - 1])
  }

  // ---------- The live chain and its replay ----------

  // What the producer does to its chain: it pushes a block it was told of, or, while
  // catching up with bitcoind, pops one.  Either way it writes one block record: the
  // pushed block, or the block that is now the newest.  Other writes a line that is no
  // block record: a transaction, or the order to clear the pool.  When the producer is
  // started again it rebuilds the chain from all records so far.
  datatype LiveStep = Push(record: Record) | SyncPop | Other | Restart

  predicate MovesChain(s: LiveStep) {
    s.Push? || s.SyncPop?
  }

  // Some line was written, so that there is a log1 file.
  predicate Written(steps: seq<LiveStep>) {
    exists i :: 0 <= i < |steps| && !steps[i].Restart?
  }

  function LiveNext(w: Window, limit: nat, s: LiveStep): Option<(Window, Record)>
    requires MovesChain(s)
  {
    match s
    case Push(r) =>
      (match Pushed(w, limit, r)
       case None => None
       case Some(v) => Some((v, r)))
    case SyncPop =>
      var v := Popped(w);
      if v.hs == [] || CurHash(v).NoBlock? then None
      else Some((v, Record(v.hi, CurHash(v).block)))
  }

  // The chain that the records give; `w` is the configured start while there is no
  // file.  Files without a block record throw.
  function Restarted(w: Window, limit: nat, rs: seq<Record>, written: bool): Option<(Window, seq<Record>)> {
    if !written then Some((w, rs))
    else
      match Rebuild(limit, rs)
      case None => None
      case Some(u) => if u.hs == [] then None else Some((u, rs))
  }

  // The chain and all records after a run, any number of restarts included; None when
  // the producer stopped with an error.
  function LiveRun(w: Window, limit: nat, steps: seq<LiveStep>): Option<(Window, seq<Record>)>
    decreases |steps|
  {
    if steps == [] then Some((w, []))
    else
      match LiveRun(w, limit, steps[..|steps| - 1])
      case None => None
      case Some((v, rs)) =>
        if steps[|steps| - 1].Restart? then Restarted(w, limit, rs, Written(steps[..|steps| - 1]))
        else if steps[|steps| - 1].Other? then Some((v, rs))
        else
          match LiveNext(v, limit, steps[|steps| - 1])
          case None => None
          case Some((u, r)) => Some((u, rs + [r]))
  }

  // The restart: the first record starts the window, the others are pushed.
  function Rebuild(limit: nat, rs: seq<Record>): Option<Window>
    decreases |rs|
  {
    if rs == [] then Some(Window(-1, []))
    else
      var r := rs[|rs| - 1];
      match Rebuild(limit, rs[..|rs| - 1])
      case None => None
      case Some(w) =>
        if w.hs == [] then Some(Window(r.height, [BlockHashOf(r.block)])) else Pushed(w, limit, r)
  }

  // ---------- What holds of a window ----------

  predicate Follows(g: BlockHash, h: BlockHash) {
    h.BlockHashOf? && h.block.prev == g
  }

  ghost predicate Linked(hs: seq<BlockHash>) {
    forall i, j :: 0 <= i < j < |hs| && j == i + 1 ==> Follows(hs[i], hs[j])
  }

  // Within the limit, and consecutive blocks are linked.
  ghost predicate Sound(w: Window, limit: nat) {
    1 <= |w.hs| <= limit && Linked(w.hs)
  }

  // `r` is the newest part of `w`.
  ghost predicate Suffix(r: Window, w: Window) {
    1 <= |r.hs| <= |w.hs| && r.hi == w.hi && r.hs == w.hs[|w.hs| - |r.hs|..]
  }

  // ---------- When a push is taken ----------

  // The block comes on top of the newest one.
  predicate OnTop(w: Window, r: Record) {
    if w.hs == [] then r.height == 0 && r.block.prev == NoBlock
    else r.height == w.hi + 1 && r.block.prev == w.hs[|w.hs| - 1]
  }

  // One block back, with more than three blocks left, and the right third one.
  predicate OneBack(w: Window, r: Record) {
    |w.hs| > 3 && r.height + 1 == w.hi && r.block.prev == w.hs[|w.hs| - 3]
  }

  // The newest block is there, and of the others only the oldest goes, when the window
  // was full.
  ghost predicate Gained(w: Window, v: Window, limit: nat, r: Record) {
    && v.hi == r.height
    && v.hs == (if |w.hs| < limit || w.hs == [] then w.hs else w.hs[1..]) + [BlockHashOf(r.block)]
  }

  // A push succeeds if and only if its block links forward, or goes back with room.
  lemma PushIsTaken(w: Window, limit: nat, r: Record)
    requires 1 <= limit && |w.hs| <= limit
    ensures Pushed(w, limit, r).Some? <==> OnTop(w, r) || OneBack(w, r)
    ensures OnTop(w, r) ==> Gained(w, Pushed(w, limit, r).value, limit, r)
    ensures OneBack(w, r) ==> Pushed(w, limit, r).value == Window(w.hi - 1, w.hs[..|w.hs| - 1])
  {
  }

  // So it is, at any time of a live run; the window never stops taking blocks.
  lemma LivePushIsTaken(w: Window, limit: nat, steps: seq<LiveStep>, r: Record)
    requires limit >= 1 && Sound(w, limit) && NamesParents(w, limit, steps) && LiveRun(w, limit, steps).Some?
    ensures var (v, rs) := LiveRun(w, limit, steps).value;
      var next := LiveRun(w, limit, steps + [Push(r)]);
      && (next.Some? <==> OnTop(v, r) || OneBack(v, r))
      && (next.Some? ==> next.value.1 == rs + [r])
      && (OnTop(v, r) ==> Gained(v, next.value.0, limit, r) && |next.value.0.hs| >= |v.hs|)
      && (OneBack(v, r) ==> next.value.0 == Window(v.hi - 1, v.hs[..|v.hs| - 1]))
  {
    hide LiveRun, NamesParents, Linked, Pushed, OnTop, OneBack;
    var (v, rs) := LiveRun(w, limit, steps).value;
    ReplayIsSuffix(w, limit, steps);
    LiveSnoc(w, limit, steps, Push(r));
    PushIsTaken(v, limit, r);
  }

  // A pop of the catch-up succeeds if and only if a block is left that is one.
  lemma LivePopIsTaken(w: Window, limit: nat, steps: seq<LiveStep>)
    requires limit >= 1 && Sound(w, limit) && NamesParents(w, limit, steps) && LiveRun(w, limit, steps).Some?
    ensures var (v, rs) := LiveRun(w, limit, steps).value;
      var next := LiveRun(w, limit, steps + [SyncPop]);
      && (next.Some? <==> |v.hs| >= 2 && v.hs[|v.hs| - 2].BlockHashOf?)
      && (next.Some? ==>
        next == Some((Window(v.hi - 1, v.hs[..|v.hs| - 1]), rs + [Record(v.hi - 1, v.hs[|v.hs| - 2].block)])))
  {
    hide LiveRun, NamesParents, Linked;
    ReplayIsSuffix(w, limit, steps);
    LiveSnoc(w, limit, steps, SyncPop);
  }

  lemma LiveNextKeepsSound(w: Window, limit: nat, s: LiveStep)
    requires limit >= 1 && Sound(w, limit) && MovesChain(s) && LiveNext(w, limit, s).Some?
    ensures Sound(LiveNext(w, limit, s).value.0, limit)
  {
  }

  lemma ReplayForward(w: Window, r: Window, limit: nat, rec: Record)
    requires limit >= 1 && Sound(w, limit) && Suffix(r, w)
    requires rec.height == w.hi + 1 && Pushed(w, limit, rec).Some?
    ensures Pushed(r, limit, rec).Some? && Suffix(Pushed(r, limit, rec).value, Pushed(w, limit, rec).value)
  {
    hide Linked, Follows;
    var h := BlockHashOf(rec.block);
    assert CurHash(r) == CurHash(w);
    assert r.hs + [h] == (w.hs + [h])[|w.hs| - |r.hs|..];
  }

  lemma ReplayBackward(w: Window, r: Window, limit: nat, rec: Record)
    requires Sound(w, limit) && Suffix(r, w) && rec.height + 1 == w.hi
    requires |w.hs| > 3 ==> rec.block.prev == w.hs[|w.hs| - 3]
    ensures Pushed(r, limit, rec).Some? <==> |r.hs| > 3
    ensures |r.hs| > 3 ==> Suffix(Pushed(r, limit, rec).value, Popped(w))
  {
    if |r.hs| > 3 {
      assert r.hs[|r.hs| - 3] == w.hs[|w.hs| - 3];
    }
  }

  // One live step keeps the replayed window a suffix, and the replay of its record
  // throws exactly when it goes back with no more than three blocks left.
  lemma ReplayStep(w: Window, r: Window, limit: nat, s: LiveStep)
    requires limit >= 1 && Sound(w, limit) && Suffix(r, w) && MovesChain(s) && LiveNext(w, limit, s).Some?
    ensures var (v, rec) := LiveNext(w, limit, s).value;
      && (Pushed(r, limit, rec).Some? <==> rec.height > w.hi || |r.hs| > 3)
      && (Pushed(r, limit, rec).Some? ==> Suffix(Pushed(r, limit, rec).value, v))
  {
    var (v, rec) := LiveNext(w, limit, s).value;
    if rec.height > w.hi {
      ReplayForward(w, r, limit, rec);
    } else {
      LiveGoesBack(w, limit, s);
      ReplayBackward(w, r, limit, rec);
    }
  }

  // A live step back takes off the newest block, and its record has the right parent.
  lemma LiveGoesBack(w: Window, limit: nat, s: LiveStep)
    requires Sound(w, limit) && MovesChain(s) && LiveNext(w, limit, s).Some?
    requires LiveNext(w, limit, s).value.1.height <= w.hi
    ensures var (v, rec) := LiveNext(w, limit, s).value;
      && rec.height + 1 == w.hi && v == Popped(w)
      && (|w.hs| > 3 ==> rec.block.prev == w.hs[|w.hs| - 3])
  {
    if s.SyncPop? && |w.hs| > 3 {
      assert Follows(w.hs[|w.hs| - 3], w.hs[|w.hs| - 2]);
    }
  }

  lemma FirstRecord(w: Window, limit: nat, s: LiveStep)
    requires limit >= 1 && Sound(w, limit) && MovesChain(s) && LiveNext(w, limit, s).Some?
    requires s.Push? && s.record.height < w.hi ==> w.hs[|w.hs| - 2] == BlockHashOf(s.record.block)
    ensures var (v, rec) := LiveNext(w, limit, s).value;
      Suffix(Window(rec.height, [BlockHashOf(rec.block)]), v)
  {
    hide Linked, Follows;
  }

  // A pushed rollback names the block the chain falls back to.
  ghost predicate NamesParents(w: Window, limit: nat, steps: seq<LiveStep>)
    decreases |steps|
  {
    steps == [] ||
    var pre, s := steps[..|steps| - 1], steps[|steps| - 1];
    && NamesParents(w, limit, pre)
    && (LiveRun(w, limit, pre).Some? ==>
         var v := LiveRun(w, limit, pre).value.0;
         s.Push? && s.record.height < v.hi && |v.hs| >= 2 ==> v.hs[|v.hs| - 2] == BlockHashOf(s.record.block))
  }

  // Whatever the producer went through, restarts included, if its records can be
  // replayed they give a suffix of the live window: same newest block, linked, within
  // the limit.
  lemma {:induction false} ReplayIsSuffix(w: Window, limit: nat, steps: seq<LiveStep>)
    requires limit >= 1 && Sound(w, limit) && NamesParents(w, limit, steps)
    requires LiveRun(w, limit, steps).Some?
    ensures var (v, rs) := LiveRun(w, limit, steps).value;
      && Sound(v, limit)
      && (if rs == [] then v == w else v.hi == rs[|rs| - 1].height)
      && (rs != [] && Rebuild(limit, rs).Some? ==>
        Suffix(Rebuild(limit, rs).value, v) && Sound(Rebuild(limit, rs).value, limit))
    decreases |steps|
  {
    hide Sound, Suffix, Pushed, Popped;
    if steps != [] {
      var pre, s := steps[..|steps| - 1], steps[|steps| - 1];
      ReplayIsSuffix(w, limit, pre);
      var (v, rs) := LiveRun(w, limit, pre).value;
      if s.Restart? {
        RecordsAreWritten(w, limit, pre);
        NoRecords(limit);
        if rs != [] {
          SuffixOfItself(Rebuild(limit, rs).value, v, limit);
        }
      } else if MovesChain(s) {
        NextKeepsSuffix(v, limit, s, rs);
      }
    }
  }

  // A block record is a line.
  lemma {:induction false} RecordsAreWritten(w: Window, limit: nat, steps: seq<LiveStep>)
    requires LiveRun(w, limit, steps).Some?
    ensures LiveRun(w, limit, steps).value.1 != [] ==> Written(steps)
    decreases |steps|
  {
    hide Rebuild, LiveNext;
    if steps != [] {
      var pre, s := steps[..|steps| - 1], steps[|steps| - 1];
      RecordsAreWritten(w, limit, pre);
      assert !s.Restart? ==> Written(steps);
      assert Written(pre) ==> Written(steps) by {
        if Written(pre) {
          var i :| 0 <= i < |pre| && !pre[i].Restart?;
          assert !steps[i].Restart?;
        }
      }
    }
  }

  lemma SuffixOfItself(r: Window, w: Window, limit: nat)
    requires Suffix(r, w) && Sound(w, limit)
    ensures Suffix(r, r) && Sound(r, limit) && r.hi == w.hi
  {
  }

  // One more record, whatever was written before.
  lemma NextKeepsSuffix(v: Window, limit: nat, s: LiveStep, rs: seq<Record>)
    requires limit >= 1 && Sound(v, limit) && MovesChain(s) && LiveNext(v, limit, s).Some?
    requires s.Push? && s.record.height < v.hi && |v.hs| >= 2 ==> v.hs[|v.hs| - 2] == BlockHashOf(s.record.block)
    requires rs != [] && Rebuild(limit, rs).Some? ==> Suffix(Rebuild(limit, rs).value, v)
    ensures var (u, rec) := LiveNext(v, limit, s).value;
      && Sound(u, limit) && u.hi == rec.height
      && (Rebuild(limit, rs + [rec]).Some? ==>
        Suffix(Rebuild(limit, rs + [rec]).value, u) && Sound(Rebuild(limit, rs + [rec]).value, limit))
      && (rs == [] ==> Rebuild(limit, rs + [rec]).Some?)
      && (rs != [] ==>
        (Rebuild(limit, rs + [rec]).Some? <==>
          Rebuild(limit, rs).Some? && (rec.height > v.hi || |Rebuild(limit, rs).value.hs| > 3)))
  {
    var (u, rec) := LiveNext(v, limit, s).value;
    LiveNextKeepsSound(v, limit, s);
    LiveMovesHeight(v, limit, s);
    ReplaySnoc(limit, rs, rec);
    if rs == [] {
      FirstRecord(v, limit, s);
    } else if Rebuild(limit, rs).Some? {
      ReplayStep(v, Rebuild(limit, rs).value, limit, s);
    }
    if Rebuild(limit, rs + [rec]).Some? {
      SuffixOfItself(Rebuild(limit, rs + [rec]).value, u, limit);
    }
  }

  lemma LiveMovesHeight(w: Window, limit: nat, s: LiveStep)
    requires Sound(w, limit) && MovesChain(s) && LiveNext(w, limit, s).Some?
    ensures LiveNext(w, limit, s).value.0.hi == LiveNext(w, limit, s).value.1.height
  {
  }

  lemma ReplaySnoc(limit: nat, rs: seq<Record>, rec: Record)
    ensures Rebuild(limit, rs + [rec]) ==
      match Rebuild(limit, rs)
      case None => None
      case Some(w) =>
        if w.hs == [] then Some(Window(rec.height, [BlockHashOf(rec.block)])) else Pushed(w, limit, rec)
    ensures rs == [] ==> Rebuild(limit, rs) == Some(Window(-1, []))
  {
    assert (rs + [rec])[..|rs|] == rs;
  }

  // ---------- When a restart throws ----------

  // How many blocks a replay of these records holds, going by their heights alone.
  function ReplayedLength(limit: nat, rs: seq<Record>): nat
    decreases |rs|
  {
    if |rs| <= 1 then |rs|
    else
      var k := ReplayedLength(limit, rs[..|rs| - 1]);
      if rs[|rs| - 1].height > rs[|rs| - 2].height then (if k < limit then k + 1 else k)
      else if k > 0 then k - 1 else 0
  }

  // Every record that goes back finds more than three blocks.
  ghost predicate BackwardHasRoom(limit: nat, rs: seq<Record>) {
    forall j :: 1 <= j < |rs| ==> HasRoom(limit, rs, j)
  }

  ghost predicate HasRoom(limit: nat, rs: seq<Record>, j: int)
    requires 1 <= j < |rs|
  {
    rs[j].height < rs[j - 1].height ==> ReplayedLength(limit, rs[..j]) > 3
  }

  // The records of any live run can be replayed if and only if that is so.
  lemma {:induction false} ReplaySucceeds(w: Window, limit: nat, steps: seq<LiveStep>)
    requires limit >= 1 && Sound(w, limit) && NamesParents(w, limit, steps)
    requires LiveRun(w, limit, steps).Some?
    ensures var rs := LiveRun(w, limit, steps).value.1;
      && (Rebuild(limit, rs).Some? <==> BackwardHasRoom(limit, rs))
      && (Rebuild(limit, rs).Some? ==> |Rebuild(limit, rs).value.hs| == ReplayedLength(limit, rs))
    decreases |steps|
  {
    hide Sound, Suffix, Pushed, Popped, BackwardHasRoom, Rebuild, ReplayedLength;
    NoRecords(limit);
    if steps != [] {
      var pre, s := steps[..|steps| - 1], steps[|steps| - 1];
      ReplaySucceeds(w, limit, pre);
      if MovesChain(s) {
        ReplayIsSuffix(w, limit, pre);
        var (v, rs) := LiveRun(w, limit, pre).value;
        NextKeepsSuffix(v, limit, s, rs);
        HeightMovesByOne(v, limit, s);
        RoomSnoc(v, limit, s, rs);
        assert LiveRun(w, limit, steps).value.1 == rs + [LiveNext(v, limit, s).value.1];
      }
    }
  }

  // A restart succeeds if and only if there is no file yet, or there is a block record
  // and all records that go back have room.
  lemma RestartSucceeds(w: Window, limit: nat, steps: seq<LiveStep>)
    requires limit >= 1 && Sound(w, limit) && NamesParents(w, limit, steps)
    requires LiveRun(w, limit, steps).Some?
    ensures var rs := LiveRun(w, limit, steps).value.1;
      LiveRun(w, limit, steps + [Restart]).Some? <==> !Written(steps) || (rs != [] && BackwardHasRoom(limit, rs))
  {
    hide LiveRun, NamesParents, BackwardHasRoom, Rebuild, Sound;
    LiveSnoc(w, limit, steps, Restart);
    ReplaySucceeds(w, limit, steps);
    ReplayIsSuffix(w, limit, steps);
    NoRecords(limit);
  }

  // A first run that writes the order to clear the pool, and no block, cannot be
  // followed by another.
  lemma RestartNeedsBlock(w: Window, limit: nat)
    ensures LiveRun(w, limit, [Other]) == Some((w, [])) && LiveRun(w, limit, [Other, Restart]).None?
  {
    NoSteps(w, limit);
    LiveSnoc(w, limit, [], Other);
    assert [] + [Other] == [Other] && [Other] + [Restart] == [Other, Restart];
    LiveSnoc(w, limit, [Other], Restart);
    assert !([Other][0]).Restart?;
    NoRecords(limit);
  }

  lemma NoRecords(limit: nat)
    ensures Rebuild(limit, []).Some? && Rebuild(limit, []).value.hs == []
    ensures BackwardHasRoom(limit, []) && ReplayedLength(limit, []) == 0
  {
  }

  lemma RoomSnoc(v: Window, limit: nat, s: LiveStep, rs: seq<Record>)
    requires limit >= 1 && Sound(v, limit) && MovesChain(s) && LiveNext(v, limit, s).Some?
    requires rs != [] ==> v.hi == rs[|rs| - 1].height
    requires rs != [] && Rebuild(limit, rs).Some? ==> Suffix(Rebuild(limit, rs).value, v)
    requires Rebuild(limit, rs).Some? <==> BackwardHasRoom(limit, rs)
    requires Rebuild(limit, rs).Some? ==> |Rebuild(limit, rs).value.hs| == ReplayedLength(limit, rs)
    ensures var rec := LiveNext(v, limit, s).value.1;
      && (BackwardHasRoom(limit, rs + [rec]) <==>
        BackwardHasRoom(limit, rs) && (rs != [] && rec.height < v.hi ==> ReplayedLength(limit, rs) > 3))
      && (Rebuild(limit, rs + [rec]).Some? ==>
        |Rebuild(limit, rs + [rec]).value.hs| == ReplayedLength(limit, rs + [rec]))
  {
    hide Sound, Pushed, Popped, ReplayedLength, BackwardHasRoom;
    var rec := LiveNext(v, limit, s).value.1;
    RoomForOneMore(limit, rs, rec);
    ReplaySnoc(limit, rs, rec);
    OneRecord(limit, rec);
    assert [] + [rec] == [rec];
    if rs != [] && Rebuild(limit, rs + [rec]).Some? {
      HeightMovesByOne(v, limit, s);
      SuffixOfItself(Rebuild(limit, rs).value, v, limit);
      LengthSnoc(limit, Rebuild(limit, rs).value, rs, rec);
    }
  }

  lemma OneRecord(limit: nat, rec: Record)
    ensures ReplayedLength(limit, [rec]) == 1
  {
  }

  lemma LengthSnoc(limit: nat, r: Window, rs: seq<Record>, rec: Record)
    requires limit >= 1 && rs != [] && Sound(r, limit) && |r.hs| == ReplayedLength(limit, rs)
    requires r.hi == rs[|rs| - 1].height && (rec.height == r.hi + 1 || rec.height + 1 == r.hi)
    requires Pushed(r, limit, rec).Some?
    ensures |Pushed(r, limit, rec).value.hs| == ReplayedLength(limit, rs + [rec])
  {
    hide Linked;
    assert (rs + [rec])[..|rs|] == rs;
  }

  lemma HeightMovesByOne(w: Window, limit: nat, s: LiveStep)
    requires Sound(w, limit) && MovesChain(s) && LiveNext(w, limit, s).Some?
    ensures var rec := LiveNext(w, limit, s).value.1;
      rec.height == w.hi + 1 || rec.height + 1 == w.hi
  {
  }

  lemma RoomForOneMore(limit: nat, rs: seq<Record>, rec: Record)
    ensures BackwardHasRoom(limit, rs + [rec]) <==>
      BackwardHasRoom(limit, rs) && (rs != [] && rec.height < rs[|rs| - 1].height ==> ReplayedLength(limit, rs) > 3)
  {
    hide ReplayedLength;
    var all := rs + [rec];
    assert all[..|rs|] == rs;
    forall j | 1 <= j < |rs| ensures HasRoom(limit, all, j) <==> HasRoom(limit, rs, j) {
      assert all[..j] == rs[..j];
    }
    assert rs != [] && BackwardHasRoom(limit, all) ==> HasRoom(limit, all, |rs|);
  }

  lemma LiveSnoc(w: Window, limit: nat, steps: seq<LiveStep>, s: LiveStep)
    requires LiveRun(w, limit, steps).Some?
    ensures var (v, rs) := LiveRun(w, limit, steps).value;
      LiveRun(w, limit, steps + [s]) ==
        if s.Restart? then Restarted(w, limit, rs, Written(steps))
        else if s.Other? then Some((v, rs))
        else
          match LiveNext(v, limit, s)
          case None => None
          case Some((u, r)) => Some((u, rs + [r]))
    ensures NamesParents(w, limit, steps) && !s.Push? ==> NamesParents(w, limit, steps + [s])
    ensures NamesParents(w, limit, steps) && s.Push? && s.record.height >= LiveRun(w, limit, steps).value.0.hi ==>
      NamesParents(w, limit, steps + [s])
  {
    assert (steps + [s])[..|steps|] == steps;
  }

  // Two blocks forward and one back are enough to keep a producer from starting again.
  lemma RestartThrows()
    ensures exists w: Window, steps: seq<LiveStep> ::
      && Sound(w, 4032) && NamesParents(w, 4032, steps)
      && LiveRun(w, 4032, steps).Some? && LiveRun(w, 4032, steps + [Restart]).None?
  {
    hide LiveRun, NamesParents, Rebuild, Pushed, Popped;
    var b0 := Block(NoBlock, [], 0);
    var b1 := Block(BlockHashOf(b0), [], 0);
    var b2 := Block(BlockHashOf(b1), [], 0);
    var w := Window(0, [BlockHashOf(b0)]);
    var r1, r2 := Record(1, b1), Record(2, b2);
    var steps := [] + [Push(r1)] + [Push(r2)] + [SyncPop];
    TwoUpOneDown(b0, b1, b2);
    BackTooSoon(r1, r2);
    LiveSnoc(w, 4032, steps, Restart);
    assert steps[0] == Push(r1);
    assert LiveRun(w, 4032, steps + [Restart]).None?;
  }

  lemma TwoUpOneDown(b0: Block, b1: Block, b2: Block)
    requires b1.prev == BlockHashOf(b0) && b2.prev == BlockHashOf(b1)
    ensures var w := Window(0, [BlockHashOf(b0)]);
      var r1, r2 := Record(1, b1), Record(2, b2);
      var steps := [] + [Push(r1)] + [Push(r2)] + [SyncPop];
      && NamesParents(w, 4032, steps)
      && LiveRun(w, 4032, steps) == Some((Window(1, [BlockHashOf(b0), BlockHashOf(b1)]), [] + [r1] + [r2] + [r1]))
  {
    hide LiveRun, NamesParents, Restarted, LiveNext;
    var h0, h1, h2 := BlockHashOf(b0), BlockHashOf(b1), BlockHashOf(b2);
    var w, w1, w2 := Window(0, [h0]), Window(1, [h0, h1]), Window(2, [h0, h1, h2]);
    var r1, r2 := Record(1, b1), Record(2, b2);
    NoSteps(w, 4032);
    OneUp(w, 4032, r1);
    OneUp(w1, 4032, r2);
    assert [h0] + [h1] == [h0, h1] && [h0, h1] + [h2] == [h0, h1, h2];
    LiveSnoc(w, 4032, [], Push(r1));
    LiveSnoc(w, 4032, [] + [Push(r1)], Push(r2));
    OneDown(w2, 4032);
    assert w2.hs[..2] == w1.hs;
    LiveSnoc(w, 4032, [] + [Push(r1)] + [Push(r2)], SyncPop);
  }

  lemma NoSteps(w: Window, limit: nat)
    ensures LiveRun(w, limit, []) == Some((w, [])) && NamesParents(w, limit, [])
  {
  }

  lemma OneUp(w: Window, limit: nat, r: Record)
    requires w.hs != [] && |w.hs| < limit && r.height == w.hi + 1 && r.block.prev == w.hs[|w.hs| - 1]
    ensures LiveNext(w, limit, Push(r)) == Some((Window(r.height, w.hs + [BlockHashOf(r.block)]), r))
  {
  }

  lemma OneDown(w: Window, limit: nat)
    requires |w.hs| >= 2 && w.hs[|w.hs| - 2].BlockHashOf?
    ensures LiveNext(w, limit, SyncPop)
      == Some((Window(w.hi - 1, w.hs[..|w.hs| - 1]), Record(w.hi - 1, w.hs[|w.hs| - 2].block)))
  {
  }

  lemma BackTooSoon(r1: Record, r2: Record)
    requires r1.height == 1 && r2.height == 2 && r2.block.prev == BlockHashOf(r1.block)
    ensures Rebuild(4032, [] + [r1] + [r2] + [r1]).None?
  {
    hide Rebuild;
    ReplaySnoc(4032, [], r1);
    ReplaySnoc(4032, [] + [r1], r2);
    ReplaySnoc(4032, [] + [r1] + [r2], r1);
  }

  // Going back, the chain checks only the parent of the block it is told of: it ends
  // at that block if and only if that block is the one before the newest.
  lemma BackwardTip(w: Window, limit: nat, r: Record)
    requires Sound(w, limit) && r.height + 1 == CurHeight(w) && Pushed(w, limit, r).Some?
    ensures CurHash(Pushed(w, limit, r).value) == BlockHashOf(r.block) <==> w.hs[|w.hs| - 2] == BlockHashOf(r.block)
  {
  }

  // A sibling of that block is taken for it.
  lemma SiblingIsTaken()
    ensures exists w: Window, r: Record ::
      && Sound(w, 4) && r.height + 1 == CurHeight(w) && Pushed(w, 4, r).Some?
      && CurHash(Pushed(w, 4, r).value) != BlockHashOf(r.block)
  {
    var b0 := Block(NoBlock, [], 0);
    var b1 := Block(BlockHashOf(b0), [], 0);
    var b2 := Block(BlockHashOf(b1), [], 0);
    var b3 := Block(BlockHashOf(b2), [], 0);
    var w := Window(3, [BlockHashOf(b0), BlockHashOf(b1), BlockHashOf(b2), BlockHashOf(b3)]);
    var r := Record(2, Block(BlockHashOf(b1), [], 1));
    assert Sound(w, 4) && Pushed(w, 4, r).Some?;
    assert CurHash(Pushed(w, 4, r).value) == BlockHashOf(b2);
  }

  // ---------- The chain object ----------

  // blocks_ as an ordered map from height to hash.
  class Chain {
    const limit: nat
    var blocks: map<int, BlockHash>
    ghost var window: Window

    // The map holds exactly the window; its keys are contiguous.
    ghost predicate Valid()
      reads this
    {
      && limit >= 1 && |window.hs| <= limit
      && HoldsWindow(window.hi, window.hs)
    }

    constructor (limit: nat)
      requires limit >= 1
      ensures Valid() && window == Window(-1, []) && this.limit == limit
    {
      this.limit := limit;
      blocks, window := map[], Window(-1, []);
    }

    // The key `back` places before the end of the map, as reverse iterators find it.
    method KeyFromEnd(back: nat) returns (k: int)
      requires Valid() && back < |window.hs|
      ensures k == window.hi - back
    {
      assert window.hi in blocks;
      k :| k in blocks && forall j :: j in blocks ==> j <= k;
      for i := 0 to back
        invariant k == window.hi - i
      {
        assert k - 1 in blocks;
        var below :| below in blocks && below < k && forall j :: j in blocks && j < k ==> j <= below;
        k := below;
      }
    }

    method GetCurHeight() returns (h: int)
      requires Valid()
      ensures h == CurHeight(window)
    {
      CountKeys();
      if |blocks| == 0 {
        return -1;
      }
      h := KeyFromEnd(0);
    }

    method GetCurHash() returns (h: BlockHash)
      requires Valid()
      ensures h == CurHash(window)
    {
      CountKeys();
      if |blocks| == 0 {
        return NoBlock;
      }
      var k := KeyFromEnd(0);
      h := blocks[k];
    }

    // The number of keys is the length of the window.
    lemma CountKeys()
      requires Valid()
      ensures |blocks| == |window.hs|
    {
      CountRange(blocks.Keys, window.hi - |window.hs| + 1, |window.hs|);
      assert |blocks| == |blocks.Keys|;
    }

    method PushFirst(height: int, hash: BlockHash) returns (ok: bool)
      requires Valid()
      modifies this
      ensures Valid() && (ok <==> old(window).hs == [])
      ensures window == if ok then Window(height, [hash]) else old(window)
    {
      CountKeys();
      if |blocks| != 0 {
        return false;
      }
      blocks := blocks[height := hash];
      window := Window(height, [hash]);
      ok := true;
    }

    // ok is false where the original throws; nothing has changed then.
    method Push(height: int, block: Block) returns (ok: bool)
      requires Valid()
      modifies this
      ensures Valid()
      ensures ok <==> OnTop(old(window), Record(height, block)) || OneBack(old(window), Record(height, block))
      ensures OnTop(old(window), Record(height, block)) ==>
        Gained(old(window), window, limit, Record(height, block))
      ensures ok <==> Pushed(old(window), limit, Record(height, block)).Some?
      ensures window == if ok then Pushed(old(window), limit, Record(height, block)).value else old(window)
    {
      var hash, prevHash := BlockHashOf(block), block.prev;
      var curHeight := GetCurHeight();
      var curHash := GetCurHash();
      if height == curHeight + 1 {
        if prevHash != curHash {
          return false;
        }
        blocks := blocks[height := hash];
        ghost var hs := window.hs + [hash];
        TrimFront(height, hs);
      } else if height + 1 == curHeight {
        CountKeys();
        if |blocks| <= 3 {
          return false;
        }
        var third := KeyFromEnd(2);
        if prevHash != blocks[third] {
          return false;
        }
        EraseLast();
        TrimFront(window.hi, window.hs);
      } else {
        return false;
      }
      ok := true;
    }

    method EraseLast()
      requires Valid() && window.hs != []
      modifies this
      ensures Valid() && window == Popped(old(window))
    {
      var k := KeyFromEnd(0);
      blocks := blocks - {k};
      window := Popped(window);
    }

    // The map holds exactly this window.
    ghost predicate HoldsWindow(hi: int, hs: seq<BlockHash>)
      reads this`blocks
    {
      && (forall k :: k in blocks <==> hi - |hs| < k <= hi)
      && (forall i :: 0 <= i < |hs| ==> blocks[hi - |hs| + 1 + i] == hs[i])
    }

    method EraseFirst(ghost hi: int, ghost hs: seq<BlockHash>)
      requires hs != [] && HoldsWindow(hi, hs)
      modifies this`blocks
      ensures HoldsWindow(hi, hs[1..])
    {
      assert hi - |hs| + 1 in blocks;
      var first :| first in blocks && forall j :: j in blocks ==> first <= j;
      assert first == hi - |hs| + 1;
      blocks := blocks - {first};
    }

    // Erases the oldest blocks while there are more than the limit.
    method TrimFront(ghost hi: int, ghost hs: seq<BlockHash>)
      requires limit >= 1 && |hs| <= limit + 1 && HoldsWindow(hi, hs)
      modifies this
      ensures Valid() && window == Window(hi, Trim(hs, limit))
    {
      ghost var rest := hs;
      CountRange(blocks.Keys, hi - |rest| + 1, |rest|);
      while |blocks| > limit
        invariant |blocks| == |rest| <= |hs| && HoldsWindow(hi, rest)
        invariant rest == hs || (|rest| == limit && rest == hs[1..])
        decreases |blocks|
      {
        EraseFirst(hi, rest);
        rest := rest[1..];
        CountRange(blocks.Keys, hi - |rest| + 1, |rest|);
      }
      window := Window(hi, rest);
    }

    method Pop()
      requires Valid()
      modifies this
      ensures Valid() && window == Popped(old(window))
    {
      CountKeys();
      if |blocks| == 0 {
        return;
      }
      EraseLast();
    }
  }

  lemma {:induction false} CountRange(keys: set<int>, lo: int, n: nat)
    requires forall k :: k in keys <==> lo <= k < lo + n
    ensures |keys| == n
    decreases n
  {
    if n == 0 {
      assert forall k :: k !in keys;
      assert keys == {};
    } else {
      CountRange(keys - {lo + n - 1}, lo, n - 1);
    }
  }

  // initLog1: without a log1 file the chain starts at the configured block; otherwise it
  // is rebuilt from the block records of the files, oldest first, and ok is false when
  // they hold none.
  method InitLog1(limit: nat, beginHeight: int, beginHash: BlockHash, anyFile: bool, records: seq<Record>)
    returns (ok: bool, chain: Chain)
    requires limit >= 1 && (!anyFile ==> records == [])
    ensures fresh(chain) && chain.Valid() && chain.limit == limit
    ensures var begin := Window(beginHeight, [beginHash]);
      && (ok <==> Restarted(begin, limit, records, anyFile).Some?)
      && (ok ==> Restarted(begin, limit, records, anyFile) == Some((chain.window, records)))
  {
    if !anyFile {
      chain := new Chain(limit);
      ok := chain.PushFirst(beginHeight, beginHash);
    } else {
      ok, chain := ReplayLog(limit, records);
      chain.CountKeys();
      if |chain.blocks| == 0 {
        ok := false;
      }
    }
  }

  // Rebuilds the chain from block records.
  method ReplayLog(limit: nat, records: seq<Record>) returns (ok: bool, chain: Chain)
    requires limit >= 1
    ensures fresh(chain) && chain.Valid() && chain.limit == limit
    ensures ok <==> Rebuild(limit, records).Some?
    ensures ok ==> chain.window == Rebuild(limit, records).value
  {
    chain := new Chain(limit);
    for i := 0 to |records|
      invariant fresh(chain) && chain.Valid() && chain.limit == limit
      invariant Rebuild(limit, records[..i]) == Some(chain.window)
    {
      var r := records[i];
      assert records[..i + 1][..i] == records[..i];
      ReplayPrefix(limit, records, i + 1);
      chain.CountKeys();
      if |chain.blocks| == 0 {
        ok := chain.PushFirst(r.height, BlockHashOf(r.block));
      } else {
        ok := chain.Push(r.height, r.block);
      }
      if !ok {
        return;
      }
    }
    assert records[..|records|] == records;
    ok := true;
  }

  // Once a record throws, the whole replay does.
  lemma {:induction false} ReplayPrefix(limit: nat, rs: seq<Record>, i: nat)
    requires i <= |rs|
    ensures Rebuild(limit, rs[..i]).None? ==> Rebuild(limit, rs).None?
    decreases |rs|
  {
    if i == |rs| {
      assert rs[..i] == rs;
    } else {
      assert rs[..|rs| - 1][..i] == rs[..i];
      ReplayPrefix(limit, rs[..|rs| - 1], i);
    }
  }
}
