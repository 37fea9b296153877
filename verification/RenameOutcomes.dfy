/**
 A rename reaches the index in several ways: its halves pair into one MOVE, or both time out
 and become a DELETE and a MODIFY, in either order. All of them leave the same index.
 */
module RenameOutcomes {
  import opened Common
  import opened FileEvents
  import opened MovePairing
  import opened PathIndex
  import opened MappedStorage
  import opened WatchStorage
  import opened WatchSync
  import WatcherRuns

  /** A list of updates handled one after another, with what each reverse lookup found. */
  ghost predicate GoodLookups(index: Index, disk: Tree, updates: seq<FileUpdate>, found: seq<Option<ObjectKey>>)
    decreases |updates|
  {
    && |found| == |updates|
    && (updates != [] ==>
          && IsLookup(index, updates[0].path, found[0])
          && GoodLookups(Handle(index, disk, updates[0], found[0]).index, disk, updates[1..], found[1..]))
  }

  function HandleAll(index: Index, disk: Tree, updates: seq<FileUpdate>, found: seq<Option<ObjectKey>>): Index
    requires |found| == |updates|
    decreases |updates|
  {
    if updates == [] then index
    else HandleAll(Handle(index, disk, updates[0], found[0]).index, disk, updates[1..], found[1..])
  }

  // ------------------------------------------------------------------ what the halves become

  /** All states in which exactly the halves `a`, then `b`, of one cookie have arrived. */
  lemma {:induction false} StatesOfTwoHalves(steps: seq<PairStep>, a: Notify, b: Notify)
    requires PairRun(steps).Some? && IsRename(a) && IsRename(b) && a.cookie == b.cookie
    requires Halves(steps) <= [a, b]
    ensures var s := PairRun(steps).value;
            var move := FileUpdate(EventMove, if b.kind == InMovedFrom then a.path else b.path);
            match |Halves(steps)|
            case 0 => s == Pairing(map[], [])
            case 1 => s == Pairing(map[a.cookie := a], []) || s == Pairing(map[], [Incomplete(a)])
            case _ =>
              || s == Pairing(map[], [move])
              || s == Pairing(map[b.cookie := b], [Incomplete(a)])
              || s == Pairing(map[], [Incomplete(a), Incomplete(b)])
  {
    if steps != [] {
      var front, last := steps[..|steps| - 1], steps[|steps| - 1];
      assert Halves(front) <= Halves(steps) <= [a, b];
      StatesOfTwoHalves(front, a, b);
      if last.Half? {
        var n := |Halves(front)|;
        assert Halves(steps)[n] == last.e == [a, b][n];
      }
    }
  }

  ghost predicate IsSchedule(steps: seq<PairStep>, from: Notify, to: Notify) {
    && from.kind == InMovedFrom && to.kind == InMovedTo && from.cookie == to.cookie
    && PairRun(steps).Some? && PairRun(steps).value.caches == map[]
    && (Halves(steps) == [from, to] || Halves(steps) == [to, from])
  }

  /** However the two halves and their timers interleave, one of three lists of updates results. */
  lemma ThreeOutcomes(steps: seq<PairStep>, from: Notify, to: Notify)
    requires IsSchedule(steps, from, to)
    ensures var updates := PairRun(steps).value.updates;
            || updates == [FileUpdate(EventMove, to.path)]
            || updates == [FileUpdate(EventDelete, from.path), FileUpdate(EventModify, to.path)]
            || updates == [FileUpdate(EventModify, to.path), FileUpdate(EventDelete, from.path)]
  {
    var c := from.cookie;
    assert c in map[c := from] && c in map[c := to];
    if Halves(steps) == [from, to] {
      StatesOfTwoHalves(steps, from, to);
    } else {
      StatesOfTwoHalves(steps, to, from);
      assert |Halves(steps)| == 2;
      assert Incomplete(to) == FileUpdate(EventModify, to.path);
      assert Incomplete(from) == FileUpdate(EventDelete, from.path);
    }
  }

  // ------------------------------------------------------------------ what the index becomes

  lemma OneUpdate(index: Index, disk: Tree, u: FileUpdate, found: seq<Option<ObjectKey>>)
    requires GoodLookups(index, disk, [u], found)
    ensures IsLookup(index, u.path, found[0])
    ensures HandleAll(index, disk, [u], found) == Handle(index, disk, u, found[0]).index
  {
    assert [u][1..] == [];
  }

  lemma TwoUpdates(index: Index, disk: Tree, u: FileUpdate, v: FileUpdate, found: seq<Option<ObjectKey>>)
    requires GoodLookups(index, disk, [u, v], found)
    ensures IsLookup(index, u.path, found[0])
    ensures var mid := Handle(index, disk, u, found[0]).index;
            && IsLookup(mid, v.path, found[1])
            && HandleAll(index, disk, [u, v], found) == Handle(mid, disk, v, found[1]).index
  {
    assert [u, v][1..] == [v];
    OneUpdate(Handle(index, disk, u, found[0]).index, disk, v, found[1..]);
  }

  /** A rename of a tracked file to an untracked path ends in one and the same index, in which
      only the path of that key has changed. */
  lemma RenameEndsInOneIndex(
    index: Index, disk: Tree, k: ObjectKey, from: Notify, to: Notify,
    steps: seq<PairStep>, found: seq<Option<ObjectKey>>)
    requires Exact(index, disk) && KeyAt(disk, from.path) == Some(k) && KeyAt(disk, to.path) == None
    requires IsSchedule(steps, from, to)
    requires var after := Perform(disk, RenameFile(from.path, to.path));
             GoodLookups(index, after, PairRun(steps).value.updates, found)
    ensures var after := Perform(disk, RenameFile(from.path, to.path));
            var index' := HandleAll(index, after, PairRun(steps).value.updates, found);
            index' == index[k := to.path] && Exact(index', after)
  {
    var p, q := from.path, to.path;
    var op := RenameFile(p, q);
    var after := Perform(disk, op);
    var updates := PairRun(steps).value.updates;
    assert k in index && index[k] == p;
    assert KeyAt(after, q) == Some(k);
    assert forall j | j in index :: index[j] != q by {
      forall j | j in index ensures index[j] != q {
        assert KeyAt(disk, index[j]) == Some(j);
      }
    }
    assert forall j | j in index && index[j] == p :: j == k by {
      forall j | j in index && index[j] == p ensures j == k {
        assert KeyAt(disk, p) == Some(j);
      }
    }
    assert IsLookup(index, q, None);
    ExactIffBenign(index, disk, op, None);
    ThreeOutcomes(steps, from, to);
    var move, gone, written := FileUpdate(EventMove, q), FileUpdate(EventDelete, p), FileUpdate(EventModify, q);
    if updates == [move] {
      OneUpdate(index, after, move, found);
    } else if updates == [gone, written] {
      TwoUpdates(index, after, gone, written, found);
      assert found[0] == Some(k) && found[1] == None;
      assert (index - {k})[k := q] == index[k := q];
    } else {
      TwoUpdates(index, after, written, gone, found);
      assert found[0] == None && found[1] == None;
    }
  }

  /** The same for the watcher as a whole: the two halves of the rename arrive, in either order, in any
      run that leaves nothing to do. */
  lemma WatchedRenameEndsInOneIndex(
    index: Index, disk: Tree, k: ObjectKey, from: Notify, to: Notify,
    steps: seq<WatcherRuns.Step>, extensions: seq<string>, found: seq<Option<ObjectKey>>)
    requires Exact(index, disk) && KeyAt(disk, from.path) == Some(k) && KeyAt(disk, to.path) == None
    requires from.kind == InMovedFrom && to.kind == InMovedTo && from.cookie == to.cookie
    requires WatcherRuns.After(steps, extensions).Some?
    requires WatcherRuns.Arrivals(steps, extensions) == [from, to]
             || WatcherRuns.Arrivals(steps, extensions) == [to, from]
    requires WatcherRuns.After(steps, extensions).value.batch.entries == map[]
    requires WatcherRuns.After(steps, extensions).value.caches == map[]
    requires var after := Perform(disk, RenameFile(from.path, to.path));
             GoodLookups(index, after, WatcherRuns.After(steps, extensions).value.updates, found)
    ensures var after := Perform(disk, RenameFile(from.path, to.path));
            var index' := HandleAll(index, after, WatcherRuns.After(steps, extensions).value.updates, found);
            index' == index[k := to.path] && Exact(index', after)
  {
    var arrived := WatcherRuns.Arrivals(steps, extensions);
    WatcherRuns.TwoHalvesOnly(steps, extensions, arrived[0], arrived[1]);
    RenameEndsInOneIndex(index, disk, k, from, to, WatcherRuns.PairSteps(steps, extensions), found);
  }
}
