/** When updates are handled as they happen: what keeps the index exact, and the subscriber too. */
module WatchSync {
  import opened Common
  import opened FileEvents
  import opened PathIndex
  import opened MappedStorage
  import opened WatchStorage

  datatype DiskOp =
    | WriteFile(path: string, content: Content)
    | RemoveFile(path: string)
    | RenameFile(path: string, to: string)

  predicate Possible(disk: Tree, op: DiskOp) {
    match op
    case WriteFile(_, _) => true
    case RemoveFile(p) => p in disk
    case RenameFile(p, q) => p in disk && p != q
  }

  function Perform(disk: Tree, op: DiskOp): Tree
    requires Possible(disk, op)
  {
    match op
    case WriteFile(p, c) => disk[p := c]
    case RemoveFile(p) => disk - {p}
    case RenameFile(p, q) => (disk - {p})[q := disk[p]]
  }

  /** The update the watcher makes of an operation. */
  function UpdateFor(op: DiskOp): FileUpdate {
    match op
    case WriteFile(p, _) => FileUpdate(EventModify, p)
    case RemoveFile(p) => FileUpdate(EventDelete, p)
    case RenameFile(_, q) => FileUpdate(EventMove, q)
  }

  ghost predicate Unused(disk: Tree, k: ObjectKey) {
    forall p :: KeyAt(disk, p) != Some(k)
  }

  /** Keys stay unique, a rewrite keeps the key of the file, and a rename does not replace a
      tracked file. */
  ghost predicate Benign(disk: Tree, op: DiskOp) {
    match op
    case WriteFile(p, Object(k, _)) =>
      KeyAt(disk, p) == Some(k) || (KeyAt(disk, p) == None && Unused(disk, k))
    case WriteFile(p, Malformed(_)) => KeyAt(disk, p) == None
    case RemoveFile(_) => true
    case RenameFile(_, q) => KeyAt(disk, q) == None
  }

  lemma WriteExact(index: Index, disk: Tree, p: string, c: Content, found: Option<ObjectKey>)
    requires Exact(index, disk) && IsLookup(index, p, found)
    ensures Exact(Handle(index, disk[p := c], FileUpdate(EventModify, p), found).index, disk[p := c])
            <==> Benign(disk, WriteFile(p, c))
  {
    var after := disk[p := c];
    var index' := Handle(index, after, FileUpdate(EventModify, p), found).index;
    assert found == KeyAt(disk, p);
    assert forall q | q != p :: KeyAt(after, q) == KeyAt(disk, q);
  }

  lemma RemoveExact(index: Index, disk: Tree, p: string, found: Option<ObjectKey>)
    requires Exact(index, disk) && IsLookup(index, p, found) && p in disk
    ensures Exact(Handle(index, disk - {p}, FileUpdate(EventDelete, p), found).index, disk - {p})
  {
    var after := disk - {p};
    var index' := Handle(index, after, FileUpdate(EventDelete, p), found).index;
    assert found == KeyAt(disk, p);
    assert forall q | q != p :: KeyAt(after, q) == KeyAt(disk, q);
    forall k, q
      ensures k in index' && index'[k] == q <==> KeyAt(after, q) == Some(k)
    {
      assert k in index && index[k] == q <==> KeyAt(disk, q) == Some(k);
    }
  }

  lemma RenameExact(index: Index, disk: Tree, p: string, q: string, found: Option<ObjectKey>)
    requires Exact(index, disk) && IsLookup(index, q, found) && Possible(disk, RenameFile(p, q))
    ensures var after := Perform(disk, RenameFile(p, q));
            Exact(Handle(index, after, FileUpdate(EventMove, q), found).index, after)
            <==> Benign(disk, RenameFile(p, q))
  {
    var after := Perform(disk, RenameFile(p, q));
    var index' := Handle(index, after, FileUpdate(EventMove, q), found).index;
    assert KeyAt(after, q) == KeyAt(disk, p) && KeyAt(after, p) == None;
    assert forall r | r != p && r != q :: KeyAt(after, r) == KeyAt(disk, r);
    if Benign(disk, RenameFile(p, q)) {
      forall k, r
        ensures k in index' && index'[k] == r <==> KeyAt(after, r) == Some(k)
      {
        assert k in index && index[k] == r <==> KeyAt(disk, r) == Some(k);
        assert k in index && index[k] == p <==> KeyAt(disk, p) == Some(k);
      }
    } else {
      var k := KeyAt(disk, q).value;
      assert k in index && index[k] == q;
      assert k in index' && index'[k] == q;
      assert KeyAt(disk, p) != Some(k);
    }
  }

  /** One operation, handled at once, keeps the index exact if and only if it is benign. */
  lemma ExactIffBenign(index: Index, disk: Tree, op: DiskOp, found: Option<ObjectKey>)
    requires Exact(index, disk) && Possible(disk, op)
    requires IsLookup(index, UpdateFor(op).path, found)
    ensures Exact(Handle(index, Perform(disk, op), UpdateFor(op), found).index, Perform(disk, op))
            <==> Benign(disk, op)
  {
    match op
    case WriteFile(p, c) => WriteExact(index, disk, p, c, found);
    case RemoveFile(p) => RemoveExact(index, disk, p, found);
    case RenameFile(p, q) => RenameExact(index, disk, p, q, found);
  }

  // ------------------------------------------------------------------ the subscriber

  /** A subscriber keeps the set of keys it has been told of and not told deleted. The key of a
      DELETE is in its UID. */
  function Learn(known: set<ObjectKey>, u: Update): set<ObjectKey> {
    if u.event == ObjectDelete then known - {KeyOfUpdate(u)} else known + {KeyOfUpdate(u)}
  }

  function LearnAll(known: set<ObjectKey>, sent: seq<Update>): set<ObjectKey> {
    if sent == [] then known
    else Learn(LearnAll(known, sent[..|sent| - 1]), sent[|sent| - 1])
  }

  lemma {:induction false} LearnConcat(known: set<ObjectKey>, a: seq<Update>, b: seq<Update>)
    ensures LearnAll(known, a + b) == LearnAll(LearnAll(known, a), b)
  {
    if b == [] {
      assert a + b == a;
    } else {
      assert (a + b)[..|a + b| - 1] == a + b[..|b| - 1];
      LearnConcat(known, a, b[..|b| - 1]);
    }
  }

  lemma {:induction false} LearnInitial(files: seq<string>, disk: Tree)
    ensures LearnAll({}, InitialEvents(files, disk)) == MappingsOf(files, disk).Keys
  {
    if files != [] {
      var front := files[..|files| - 1];
      LearnInitial(front, disk);
      var last := InitialEvents(files, disk)[|InitialEvents(front, disk)|..];
      assert InitialEvents(files, disk) == InitialEvents(front, disk) + last;
      LearnConcat({}, InitialEvents(front, disk), last);
      assert |last| == 1 ==> last[..0] == [];
    }
  }

  lemma LearnStep(index: Index, disk: Tree, op: DiskOp, found: Option<ObjectKey>)
    requires Exact(index, disk) && Possible(disk, op) && Benign(disk, op)
    requires IsLookup(index, UpdateFor(op).path, found)
    ensures var out := Handle(index, Perform(disk, op), UpdateFor(op), found);
            LearnAll(index.Keys, out.sent) == out.index.Keys
  {
    var out := Handle(index, Perform(disk, op), UpdateFor(op), found);
    assert |out.sent| == 1 ==> out.sent[..0] == [];
    if op.RenameFile? && KeyAt(disk, op.path).Some? {
      assert index[KeyAt(disk, op.path).value] == op.path;
    }
    if op.WriteFile? && found.Some? {
      assert KeyAt(disk, op.path) == found;
    }
  }

  /** What is sent for a benign operation. An object written is created if its key is new to the index
      and modified if it is not; one whose file goes is deleted; and of anything else nothing is told. */
  lemma OperationsAreTold(index: Index, disk: Tree, op: DiskOp, found: Option<ObjectKey>)
    requires Exact(index, disk) && Possible(disk, op) && Benign(disk, op)
    requires IsLookup(index, UpdateFor(op).path, found)
    ensures Handle(index, Perform(disk, op), UpdateFor(op), found).sent
            == match op
               case WriteFile(_, Object(k, _)) =>
                 [Update(if k in index then ObjectModify else ObjectCreate, Itself(k))]
               case WriteFile(_, Malformed(_)) => []
               case RemoveFile(p) =>
                 if disk[p].Malformed? then []
                 else
                   var k := disk[p].key;
                   [Update(ObjectDelete, StandIn(k.group, k.version, k.kind, "<deleted>", k.id))]
               case RenameFile(_, _) => []
  {
    match op
    case WriteFile(p, Object(k, _)) =>
      assert k in index ==> KeyAt(disk, index[k]) == Some(k);
      assert found == KeyAt(disk, p);
    case WriteFile(_, Malformed(_)) =>
    case RemoveFile(p) =>
      assert found == KeyAt(disk, p);
    case RenameFile(_, _) =>
  }

  // ------------------------------------------------------------------ whole runs

  /** A run: the disk, the index and everything sent so far. */
  datatype World = World(disk: Tree, index: Index, sent: seq<Update>)

  /** An operation whose update is handled at once, and what its reverse lookup found. */
  datatype Round = Round(op: DiskOp, found: Option<ObjectKey>)

  ghost predicate CanFollow(w: World, r: Round) {
    Possible(w.disk, r.op) && IsLookup(w.index, UpdateFor(r.op).path, r.found)
  }

  function Follow(w: World, r: Round): World
    requires Possible(w.disk, r.op)
  {
    var disk := Perform(w.disk, r.op);
    var out := Handle(w.index, disk, UpdateFor(r.op), r.found);
    World(disk, out.index, w.sent + out.sent)
  }

  /** The world after registering `files` and then some rounds; None if a round is impossible
      or not benign. */
  ghost function Live(files: seq<string>, disk: Tree, rounds: seq<Round>): Option<World> {
    if rounds == [] then Some(World(disk, MappingsOf(files, disk), InitialEvents(files, disk)))
    else
      var w, r := Live(files, disk, rounds[..|rounds| - 1]), rounds[|rounds| - 1];
      if w.Some? && CanFollow(w.value, r) && Benign(w.value.disk, r.op)
      then Some(Follow(w.value, r)) else None
  }

  /** From a directory with unique keys, through any benign operations: the index is the exact
      inverse of the directory, and the subscriber knows exactly the keys of the index. */
  lemma {:induction false} IndexAndSubscriberFollow(files: seq<string>, disk: Tree, rounds: seq<Round>)
    requires IsWalk(files, disk) && UniqueKeys(disk)
    requires Live(files, disk, rounds).Some?
    ensures var w := Live(files, disk, rounds).value;
            Exact(w.index, w.disk) && LearnAll({}, w.sent) == w.index.Keys
  {
    if rounds == [] {
      WalkIsExact(files, disk);
      LearnInitial(files, disk);
    } else {
      var front, r := rounds[..|rounds| - 1], rounds[|rounds| - 1];
      IndexAndSubscriberFollow(files, disk, front);
      var w := Live(files, disk, front).value;
      ExactIffBenign(w.index, w.disk, r.op, r.found);
      LearnStep(w.index, w.disk, r.op, r.found);
      LearnConcat({}, w.sent, Handle(w.index, Perform(w.disk, r.op), UpdateFor(r.op), r.found).sent);
    }
  }

  /** At first every event is a MODIFY of an object; from then on an event is a CREATE if and only if
      the subscriber does not know its key by then. */
  ghost predicate ToldInOrder(sent: seq<Update>, initial: nat) {
    && initial <= |sent|
    && (forall i | 0 <= i < initial :: sent[i].event == ObjectModify && sent[i].obj.Itself?)
    && forall i | initial <= i < |sent| ::
         sent[i].event == ObjectCreate <==> KeyOfUpdate(sent[i]) !in LearnAll({}, sent[..i])
  }

  lemma ToldOneMore(sent: seq<Update>, initial: nat, more: seq<Update>)
    requires ToldInOrder(sent, initial) && |more| <= 1
    requires |more| == 1 ==> (more[0].event == ObjectCreate <==> KeyOfUpdate(more[0]) !in LearnAll({}, sent))
    ensures ToldInOrder(sent + more, initial)
  {
    var all := sent + more;
    forall i | initial <= i < |all|
      ensures all[i].event == ObjectCreate <==> KeyOfUpdate(all[i]) !in LearnAll({}, all[..i])
    {
      if i < |sent| {
        assert all[..i] == sent[..i];
      } else {
        assert all[..i] == sent;
      }
    }
  }

  lemma {:induction false} InitialAreModifies(files: seq<string>, disk: Tree)
    ensures forall u | u in InitialEvents(files, disk) :: u.event == ObjectModify && u.obj.Itself?
  {
    if files != [] {
      InitialAreModifies(files[..|files| - 1], disk);
    }
  }

  /** Over a whole run the subscriber is told of every object before anything else happens to it, and
      never told twice that it is new. */
  lemma {:induction false} CreatedIffUnknown(files: seq<string>, disk: Tree, rounds: seq<Round>)
    requires IsWalk(files, disk) && UniqueKeys(disk)
    requires Live(files, disk, rounds).Some?
    ensures ToldInOrder(Live(files, disk, rounds).value.sent, |InitialEvents(files, disk)|)
    ensures InitialEvents(files, disk) <= Live(files, disk, rounds).value.sent
  {
    if rounds == [] {
      InitialAreModifies(files, disk);
    } else {
      var front, r := rounds[..|rounds| - 1], rounds[|rounds| - 1];
      CreatedIffUnknown(files, disk, front);
      IndexAndSubscriberFollow(files, disk, front);
      var w := Live(files, disk, front).value;
      OperationsAreTold(w.index, w.disk, r.op, r.found);
      RemovedIsKnown(w.index, w.disk, r.op);
      ToldOneMore(w.sent, |InitialEvents(files, disk)|,
                  Handle(w.index, Perform(w.disk, r.op), UpdateFor(r.op), r.found).sent);
    }
  }

  lemma RemovedIsKnown(index: Index, disk: Tree, op: DiskOp)
    requires Exact(index, disk) && Possible(disk, op)
    ensures op.RemoveFile? && disk[op.path].Object? ==> disk[op.path].key in index
  {
    if op.RemoveFile? && disk[op.path].Object? {
      assert KeyAt(disk, op.path) == Some(disk[op.path].key);
    }
  }
}
