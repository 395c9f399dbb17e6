/**
 From log1 to log2: the block records of a live log1 chain come at the right place for a
 producer that is at the same block, over whole runs and any number of restarts.
 */
module Log1Feed {
  import opened Transactions
  import opened Ledgers
  import opened Log2Spec
  import opened ItemRuns
  import opened Log1Chain
  import opened BlockTimestamps

  // One block forward on top of the tip, or one block back to the parent of the tip.
  ghost predicate Placed(w: World, height: int, b: Block) {
    || (height == Height(w) + 1 && b.prev == Tip(w))
    || (height + 1 == Height(w) && w.blocks != [] && Last(w.blocks).prev == BlockHashOf(b))
  }

  // What validity asks of an item beside the place of its block.  A block that goes must
  // be one the producer has come by.
  ghost predicate Contents(w: World, item: Log1Item)
    requires ValidWorld(w)
  {
    match item
    case BlockItem(height, b) =>
      if height > Height(w) then ValidBlock(w.ledger, b.vtx)
      else
        && w.blocks != []
        && forall k, o :: Live(w.ledger, k) && Spends(k, o) ==> o.hash != HashOf(Last(w.blocks).vtx[0])
    case _ => ValidItem(w, item)
  }

  lemma PlaceAndContents(w: World, item: Log1Item)
    requires ValidWorld(w)
    ensures ValidItem(w, item) <==> Contents(w, item) && (item.BlockItem? ==> Placed(w, item.height, item.block))
  {
    hide ValidWorld, ValidBlock;
  }

  ghost predicate AtSameBlock(c: Window, w: World) {
    c.hs != [] && c.hi == Height(w) && CurHash(c) == Tip(w)
  }

  // A pushed rollback names the block the chain falls back to.
  ghost predicate NamesParent(c: Window, s: LiveStep) {
    s.Push? && s.record.height < c.hi && |c.hs| >= 2 ==> c.hs[|c.hs| - 2] == BlockHashOf(s.record.block)
  }

  // The record of a live step is placed right for a world at the same block.
  lemma RecordIsPlaced(c: Window, limit: nat, s: LiveStep, w: World)
    requires Sound(c, limit) && AtSameBlock(c, w) && NamesParent(c, s)
    requires MovesChain(s) && LiveNext(c, limit, s).Some?
    ensures var (d, r) := LiveNext(c, limit, s).value;
      && (r.height > Height(w) || w.blocks != [] ==> Placed(w, r.height, r.block))
      && (limit >= 1 ==> d.hs != [] && d.hi == r.height && CurHash(d) == BlockHashOf(r.block))
  {
    var (d, r) := LiveNext(c, limit, s).value;
    HeightMovesByOne(c, limit, s);
    if r.height < c.hi {
      assert Follows(c.hs[|c.hs| - 2], c.hs[|c.hs| - 1]);
    }
  }

  // ---------- Whole runs ----------

  function RecordsOf(items: seq<Log1Item>): seq<Record>
    decreases |items|
  {
    if items == [] then []
    else if Last(items).BlockItem?
    then RecordsOf(Front(items)) + [Record(Last(items).height, Last(items).block)]
    else RecordsOf(Front(items))
  }

  // The contents of each item are valid in the world the ones before it lead to.
  ghost predicate AllContents(w: World, items: seq<Log1Item>)
    requires ValidWorld(w)
    decreases |items|
  {
    items == [] ||
    (AllContents(w, Front(items)) &&
      (ValidItems(w, Front(items)) ==> Contents(Steps(w, Front(items)), Last(items))))
  }

  lemma OneMoreItem(c: Window, limit: nat, s: LiveStep, w: World, item: Log1Item)
    requires ValidWorld(w) && Sound(c, limit) && AtSameBlock(c, w) && NamesParent(c, s) && limit >= 1
    requires MovesChain(s) && LiveNext(c, limit, s).Some? && item.BlockItem?
    requires LiveNext(c, limit, s).value.1 == Record(item.height, item.block)
    requires Contents(w, item)
    ensures ValidItem(w, item) && AtSameBlock(LiveNext(c, limit, s).value.0, Step(w, item))
  {
    hide ValidWorld, ValidItem, Step, LiveNext, Sound, ValidBlock;
    RecordIsPlaced(c, limit, s, w);
    PlaceAndContents(w, item);
    StepMovesOne(w, item);
  }

  lemma RestartStaysInPlace(start: Window, c: Window, limit: nat, rs: seq<Record>, written: bool, w: World)
    requires AtSameBlock(c, w) && Restarted(start, limit, rs, written).Some?
    requires (rs == [] ==> c == start) && (rs != [] ==> written)
    requires rs != [] && Rebuild(limit, rs).Some? ==> Suffix(Rebuild(limit, rs).value, c)
    ensures AtSameBlock(Restarted(start, limit, rs, written).value.0, w)
  {
    NoRecords(limit);
  }

  // If the block records of the items are those of a live chain that starts where the
  // producer is, their places need not be assumed.
  lemma {:induction false} LiveItemsAreValid(start: Window, limit: nat, steps: seq<LiveStep>, w: World,
                                             items: seq<Log1Item>)
    requires limit >= 1 && Sound(start, limit) && NamesParents(start, limit, steps)
    requires LiveRun(start, limit, steps).Some? && RecordsOf(items) == LiveRun(start, limit, steps).value.1
    requires ValidWorld(w) && AtSameBlock(start, w) && AllContents(w, items)
    ensures ValidItems(w, items)
    ensures AtSameBlock(LiveRun(start, limit, steps).value.0, Steps(w, items))
    decreases |items| + |steps|
  {
    hide ValidWorld, ValidItem, Contents, Step, Sound, AtSameBlock, LiveNext, Rebuild, Restarted, NamesParent;
    if items != [] && !Last(items).BlockItem? {
      OtherItemLast(start, limit, steps, w, items);
    } else if steps == [] {
      assert items == [];
      NothingHappened(w);
    } else if steps[|steps| - 1].Other? {
      LiveItemsAreValid(start, limit, steps[..|steps| - 1], w, items);
    } else if steps[|steps| - 1].Restart? {
      RestartLast(start, limit, steps, w, items);
    } else {
      BlockItemLast(start, limit, steps, w, items);
    }
  }

  lemma NothingHappened(w: World)
    requires ValidWorld(w)
    ensures ValidItems(w, []) && Steps(w, []) == w
  {
  }

  lemma {:induction false} OtherItemLast(start: Window, limit: nat, steps: seq<LiveStep>, w: World,
                                         items: seq<Log1Item>)
    requires limit >= 1 && Sound(start, limit) && NamesParents(start, limit, steps)
    requires LiveRun(start, limit, steps).Some? && RecordsOf(items) == LiveRun(start, limit, steps).value.1
    requires ValidWorld(w) && AtSameBlock(start, w) && AllContents(w, items)
    requires items != [] && !Last(items).BlockItem?
    ensures ValidItems(w, items)
    ensures AtSameBlock(LiveRun(start, limit, steps).value.0, Steps(w, items))
    decreases |items| + |steps|, 0
  {
    hide ValidWorld, ValidItem, Contents, Step, Sound, LiveNext, LiveRun, NamesParents;
    var pre, item := Front(items), Last(items);
    LiveItemsAreValid(start, limit, steps, w, pre);
    var v := Steps(w, pre);
    PlaceAndContents(v, item);
    assert items == pre + [item];
    ItemsSnoc(w, pre, item);
    OtherItemsStay(v, item);
  }

  lemma {:induction false} RestartLast(start: Window, limit: nat, steps: seq<LiveStep>, w: World,
                                       items: seq<Log1Item>)
    requires limit >= 1 && Sound(start, limit) && NamesParents(start, limit, steps)
    requires LiveRun(start, limit, steps).Some? && RecordsOf(items) == LiveRun(start, limit, steps).value.1
    requires ValidWorld(w) && AtSameBlock(start, w) && AllContents(w, items)
    requires steps != [] && steps[|steps| - 1].Restart?
    ensures ValidItems(w, items)
    ensures AtSameBlock(LiveRun(start, limit, steps).value.0, Steps(w, items))
    decreases |items| + |steps|, 0
  {
    hide ValidWorld, ValidItem, ValidItems, Steps, AllContents, Sound, AtSameBlock, LiveNext, Rebuild, Suffix;
    var pre := steps[..|steps| - 1];
    var (v, rs) := LiveRun(start, limit, pre).value;
    RestartKeepsRecords(start, limit, rs, Written(pre));
    LiveItemsAreValid(start, limit, pre, w, items);
    ReplayIsSuffix(start, limit, pre);
    RecordsAreWritten(start, limit, pre);
    RestartStaysInPlace(start, v, limit, rs, Written(pre), Steps(w, items));
  }

  lemma RestartKeepsRecords(start: Window, limit: nat, rs: seq<Record>, written: bool)
    ensures var r := Restarted(start, limit, rs, written); r.Some? ==> r.value.1 == rs
  {
  }

  lemma {:induction false} BlockItemLast(start: Window, limit: nat, steps: seq<LiveStep>, w: World,
                                         items: seq<Log1Item>)
    requires limit >= 1 && Sound(start, limit) && NamesParents(start, limit, steps)
    requires LiveRun(start, limit, steps).Some? && RecordsOf(items) == LiveRun(start, limit, steps).value.1
    requires ValidWorld(w) && AtSameBlock(start, w) && AllContents(w, items)
    requires steps != [] && MovesChain(steps[|steps| - 1]) && (items == [] || Last(items).BlockItem?)
    ensures ValidItems(w, items)
    ensures AtSameBlock(LiveRun(start, limit, steps).value.0, Steps(w, items))
    decreases |items| + |steps|, 0
  {
    hide ValidWorld, ValidItem, Contents, Step, Sound, AtSameBlock, LiveNext, Rebuild, Suffix;
    var pre, s := steps[..|steps| - 1], steps[|steps| - 1];
    var (c, rs) := LiveRun(start, limit, pre).value;
    var rec := LiveNext(c, limit, s).value.1;
    var all := rs + [rec];
    assert all[|all| - 1] == rec && all[..|all| - 1] == rs;
    var front, item := Front(items), Last(items);
    LastRecord(items);
    LiveItemsAreValid(start, limit, pre, w, front);
    ReplayIsSuffix(start, limit, pre);
    OneMoreItem(c, limit, s, Steps(w, front), item);
    assert items == front + [item];
    ItemsSnoc(w, front, item);
  }

  lemma LastRecord(items: seq<Log1Item>)
    requires items != [] && Last(items).BlockItem?
    ensures var rs := RecordsOf(items);
      && rs != [] && rs[..|rs| - 1] == RecordsOf(Front(items))
      && rs[|rs| - 1] == Record(Last(items).height, Last(items).block)
  {
  }

  // ---------- How far a live chain goes back ----------

  function RecordPath(height: int, rs: seq<Record>): (path: seq<int>)
    ensures path != []
  {
    [height] + seq(|rs|, i requires 0 <= i < |rs| => rs[i].height)
  }

  lemma {:induction false} PathOfRecords(height: int, items: seq<Log1Item>)
    ensures PathFrom(height, items) == RecordPath(height, RecordsOf(items))
    decreases |items|
  {
    if items != [] {
      PathOfRecords(height, Front(items));
    }
  }

  lemma RestartShrinks(start: Window, c: Window, limit: nat, rs: seq<Record>, written: bool)
    requires Restarted(start, limit, rs, written).Some?
    requires (rs == [] ==> c == start) && (rs != [] ==> written)
    requires rs != [] && Rebuild(limit, rs).Some? ==> Suffix(Rebuild(limit, rs).value, c)
    ensures |Restarted(start, limit, rs, written).value.0.hs| <= |c.hs|
  {
    NoRecords(limit);
  }

  lemma OneMoreRecord(c: Window, limit: nat, s: LiveStep, height: int, rs: seq<Record>, times: nat, kept: nat)
    requires Sound(c, limit) && 1 <= limit <= times && MovesChain(s) && LiveNext(c, limit, s).Some?
    requires c.hi == if rs == [] then height else rs[|rs| - 1].height
    requires KeptAfter(times, kept, RecordPath(height, rs)) + 1 >= |c.hs|
    ensures var (d, r) := LiveNext(c, limit, s).value;
      KeptAfter(times, kept, RecordPath(height, rs + [r])) + 1 >= |d.hs| >= 1
  {
    hide Linked;
    var (d, r) := LiveNext(c, limit, s).value;
    HeightMovesByOne(c, limit, s);
    var path := RecordPath(height, rs + [r]);
    assert path[..|path| - 1] == RecordPath(height, rs) && path[|path| - 2] == c.hi;
  }

  // As long as it runs, a producer that was at the same block keeps a time for every
  // block the window can still let go.
  lemma {:induction false} LiveKeepsTimes(start: Window, limit: nat, times: nat, kept: nat, steps: seq<LiveStep>)
    requires 1 <= limit <= times && Sound(start, limit) && NamesParents(start, limit, steps)
    requires LiveRun(start, limit, steps).Some? && |start.hs| <= kept + 1
    ensures var (v, rs) := LiveRun(start, limit, steps).value;
      KeptAfter(times, kept, RecordPath(start.hi, rs)) + 1 >= |v.hs| >= 1
    decreases |steps|
  {
    hide Sound, Suffix, LiveNext, Rebuild, Restarted, Written, KeptAfter, RecordPath;
    if steps == [] {
      StartKeeps(start, limit, times, kept);
    } else {
      var pre, s := steps[..|steps| - 1], steps[|steps| - 1];
      var (v, rs) := LiveRun(start, limit, pre).value;
      LiveKeepsTimes(start, limit, times, kept, pre);
      ReplayIsSuffix(start, limit, pre);
      ReplayIsSuffix(start, limit, steps);
      if MovesChain(s) {
        OneMoreRecord(v, limit, s, start.hi, rs, times, kept);
      } else if s.Restart? {
        RecordsAreWritten(start, limit, pre);
        RestartShrinks(start, v, limit, rs, Written(pre));
        RestartKeepsRecords(start, limit, rs, Written(pre));
        SoundIsNotEmpty(LiveRun(start, limit, steps).value.0, limit);
      }
    }
  }

  lemma StartKeeps(start: Window, limit: nat, times: nat, kept: nat)
    requires Sound(start, limit) && |start.hs| <= kept + 1
    ensures KeptAfter(times, kept, RecordPath(start.hi, [])) + 1 >= |start.hs| >= 1
  {
  }

  lemma SoundIsNotEmpty(c: Window, limit: nat)
    requires Sound(c, limit)
    ensures |c.hs| >= 1
  {
  }

  // So a live chain never asks for more block times than there are.
  lemma LiveTimesSuffice(start: Window, limit: nat, times: nat, kept: nat, steps: seq<LiveStep>, w: World,
                         items: seq<Log1Item>)
    requires 1 <= limit <= times && Sound(start, limit) && NamesParents(start, limit, steps)
    requires LiveRun(start, limit, steps).Some? && RecordsOf(items) == LiveRun(start, limit, steps).value.1
    requires |start.hs| <= kept + 1 && kept <= times
    requires ValidWorld(w) && AtSameBlock(start, w) && ValidItems(w, items)
    ensures TimesSuffice(times, kept, w, items)
  {
    hide ValidWorld, ValidItems, LiveRun, Sound, KeptAfter, PathFrom, RecordPath;
    LiveKeepsTimes(start, limit, times, kept, steps);
    PathOfRecords(start.hi, items);
    PathOfRun(w, items);
    KeptIsEnough(times, kept, PathFrom(Height(w), items));
  }
}
