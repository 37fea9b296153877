/**
 The whole pipeline with its delays: changes of the disk queue as raw events, the watcher
 batches them and releases updates when a timer says so, and the monitor handles the updates
 later still, reading each file as it is by then. Files are created, rewritten and deleted;
 there are no renames and no Suspend calls, and each path has one key of its own for ever.
 */
module Pipeline {
  import opened Common
  import opened FileEvents
  import opened EventConcat
  import opened MovePairing
  import opened Batcher
  import opened FileWatcher
  import opened PathIndex
  import opened MappedStorage
  import opened WatchStorage

  /** What the environment fixes: the watched extensions, and the key of the object at each path. */
  datatype Setting = Setting(extensions: seq<string>, keyOf: string -> ObjectKey, start: Tree)

  ghost predicate GoodSetting(c: Setting) {
    && (forall p, q :: c.keyOf(p) == c.keyOf(q) ==> p == q)
    && (forall p | p in c.start :: KeyAt(c.start, p) == Some(c.keyOf(p)))
  }

  /** `batches` records the batches released so far; nothing reads it but the conditions below. */
  datatype Pipe = Pipe(
    disk: Tree,
    raw: seq<Notify>,
    watcher: Watcher,
    batches: seq<map<string, seq<Notify>>>,
    handled: nat,
    index: Index)

  datatype Step =
    | Touch(path: string, data: string)
    | Erase(path: string)
    | TakeEvent
    | FireTimer
    | ReleaseBatch(order: seq<string>)
    | HandleNext(found: Option<ObjectKey>)

  ghost predicate Enabled(s: Pipe, step: Step) {
    match step
    case Touch(_, _) => true
    case Erase(p) => p in s.disk
    case TakeEvent => s.raw != []
    case FireTimer => s.watcher.batch.timer == Armed
    case ReleaseBatch(order) => 0 < s.watcher.batch.flushes && IsOrder(order, s.watcher.batch.entries)
    case HandleNext(found) =>
      s.handled < |s.watcher.updates| && IsLookup(s.index, s.watcher.updates[s.handled].path, found)
  }

  ghost function Apply(c: Setting, s: Pipe, step: Step): Pipe
    requires Enabled(s, step)
  {
    match step
    case Touch(p, data) =>
      s.(disk := s.disk[p := Object(c.keyOf(p), data)], raw := s.raw + [Notify(InCloseWrite, p, 0, false)])
    case Erase(p) =>
      s.(disk := s.disk - {p}, raw := s.raw + [Notify(InDelete, p, 0, false)])
    case TakeEvent =>
      s.(watcher := Monitor(s.watcher, s.raw[0], c.extensions), raw := s.raw[1..])
    case FireTimer =>
      s.(watcher := s.watcher.(batch := s.watcher.batch.Fire()))
    case ReleaseBatch(order) =>
      s.(watcher := Flush(s.watcher, order), batches := s.batches + [s.watcher.batch.entries])
    case HandleNext(found) =>
      s.(index := Handle(s.index, s.disk, s.watcher.updates[s.handled], found).index, handled := s.handled + 1)
  }

  /** The index tracks exactly the valid files on disk. */
  ghost predicate Tracks(c: Setting, index: Index, disk: Tree) {
    forall k, p :: k in index && index[k] == p <==> p in disk && ValidFile(p, c.extensions) && k == c.keyOf(p)
  }

  /** Nothing is under way. */
  predicate Quiet(s: Pipe) {
    s.raw == [] && s.watcher.batch.entries == map[] && s.handled == |s.watcher.updates|
  }

  /** A quiet state whose index is right. One is that of a watcher just started. */
  ghost predicate Init(c: Setting, s: Pipe) {
    && Quiet(s) && s.watcher.suspendEvent == EventNone && s.watcher.caches == map[]
    && s.disk == c.start && s.batches == [] && Tracks(c, s.index, s.disk)
  }

  /** A run from an initial state. */
  ghost predicate Run(c: Setting, states: seq<Pipe>, steps: seq<Step>) {
    && |states| == |steps| + 1
    && Init(c, states[0])
    && forall i | 0 <= i < |steps| :: Takes(c, states[i], steps[i], states[i + 1])
  }

  ghost predicate Takes(c: Setting, s: Pipe, step: Step, s': Pipe) {
    Enabled(s, step) && s' == Apply(c, s, step)
  }

  // ------------------------------------------------------------------ what batches do to one path

  type Batches = seq<map<string, seq<Notify>>>

  /** Whether the file is there after the events of some batches. */
  predicate There(start: bool, batches: Batches, p: string) {
    if batches == [] then start
    else Replay(There(start, batches[..|batches| - 1], p), Pending(batches[|batches| - 1], p))
  }

  /** Whether the last batch with events of the path that do not cancel out left the file there. */
  predicate Left(start: bool, batches: Batches, p: string) {
    if batches == [] then start
    else
      var events := Pending(batches[|batches| - 1], p);
      if events == [] || Cancelling(events) then Left(start, batches[..|batches| - 1], p)
      else PresentAfter(events[|events| - 1].kind)
  }

  /** The events of the path in its last batch cancel out, though those before left the file there. */
  predicate Lost(start: bool, batches: Batches, p: string) {
    batches != []
    && var front, events := batches[..|batches| - 1], Pending(batches[|batches| - 1], p);
       if events == [] then Lost(start, front, p) else Cancelling(events) && Left(start, front, p)
  }

  /** So a lost path is one that is not there and was last left there. */
  lemma {:induction false} LostMeaning(start: bool, batches: Batches, p: string)
    ensures Lost(start, batches, p) <==> Left(start, batches, p) && !There(start, batches, p)
    ensures There(start, batches, p) ==> Left(start, batches, p)
  {
    if batches != [] {
      var front, events := batches[..|batches| - 1], Pending(batches[|batches| - 1], p);
      LostMeaning(start, front, p);
      ReplayLast(There(start, front, p), events);
      if events != [] && Cancelling(events) {
        CancellingEndsInDelete(events);
      }
    }
  }

  predicate ThereNow(c: Setting, s: Pipe, p: string) {
    There(p in c.start, s.batches, p)
  }

  predicate LeftNow(c: Setting, s: Pipe, p: string) {
    Left(p in c.start, s.batches, p)
  }

  predicate LostNow(c: Setting, s: Pipe, p: string) {
    Lost(p in c.start, s.batches, p)
  }

  // ------------------------------------------------------------------ the invariant

  function UpdatesFor(updates: seq<FileUpdate>, path: string): seq<FileUpdate> {
    if updates == [] then []
    else UpdatesFor(updates[..|updates| - 1], path)
         + if updates[|updates| - 1].path == path then [updates[|updates| - 1]] else []
  }

  lemma {:induction false} UpdatesForConcat(a: seq<FileUpdate>, b: seq<FileUpdate>, path: string)
    ensures UpdatesFor(a + b, path) == UpdatesFor(a, path) + UpdatesFor(b, path)
  {
    if b == [] {
      assert a + b == a;
    } else {
      assert (a + b)[..|a + b| - 1] == a + b[..|b| - 1];
      UpdatesForConcat(a, b[..|b| - 1], path);
    }
  }

  predicate Plain(e: Notify) {
    !IsRename(e) && !e.isDir
  }

  /** The updates for a path that are still to be handled. */
  function Waiting(s: Pipe, p: string): seq<FileUpdate>
    requires s.handled <= |s.watcher.updates|
  {
    UpdatesFor(s.watcher.updates[s.handled..], p)
  }

  /** The events of a path that are not yet released: the batch, then the raw queue. */
  function Gathering(s: Pipe, p: string): seq<Notify> {
    Pending(s.watcher.batch.entries, p) + ForPath(s.raw, p)
  }

  predicate Tracked(c: Setting, s: Pipe, p: string) {
    c.keyOf(p) in s.index
  }

  ghost predicate Shape(c: Setting, s: Pipe) {
    && s.handled <= |s.watcher.updates|
    && s.watcher.suspendEvent == EventNone && s.watcher.caches == map[]
    && (forall p | p in s.disk :: KeyAt(s.disk, p) == Some(c.keyOf(p)))
    && (forall k | k in s.index :: k == c.keyOf(s.index[k]) && ValidFile(s.index[k], c.extensions))
    && (forall e | e in s.raw :: Plain(e))
    && (forall p | p in s.watcher.batch.entries ::
          && ValidFile(p, c.extensions) && s.watcher.batch.entries[p] != []
          && forall e | e in s.watcher.batch.entries[p] :: Plain(e) && e.path == p)
    && (forall j | s.handled <= j < |s.watcher.updates| :: GoodUpdate(c, s.watcher.updates[j]))
  }

  predicate GoodUpdate(c: Setting, u: FileUpdate) {
    (u.event == EventModify || u.event == EventDelete) && ValidFile(u.path, c.extensions)
  }

  /** For one path: the events not yet released lead from its presence at the last release to its
      presence now; the last update on its way says how it was last left; and with no update on its
      way, the index has it no more often than that, and no less often than it is there. */
  ghost predicate Consistent(
    there: bool, left: bool, waiting: seq<FileUpdate>, gathering: seq<Notify>, present: bool, tracked: bool)
  {
    && (present <==> Replay(there, gathering))
    && (waiting != [] ==> (waiting[|waiting| - 1].event == EventModify <==> left))
    && (waiting == [] && !left ==> !tracked)
    && (waiting == [] && there && gathering == [] ==> tracked)
  }

  ghost predicate PathInv(c: Setting, s: Pipe, p: string)
    requires s.handled <= |s.watcher.updates|
  {
    Consistent(ThereNow(c, s, p), LeftNow(c, s, p), Waiting(s, p), Gathering(s, p), p in s.disk, Tracked(c, s, p))
  }

  ghost predicate Inv(c: Setting, s: Pipe) {
    && Shape(c, s)
    && forall p | ValidFile(p, c.extensions) :: PathInv(c, s, p)
  }

  lemma InitInv(c: Setting, s: Pipe)
    requires GoodSetting(c) && Init(c, s)
    ensures Inv(c, s)
  {
    assert forall k | k in s.index :: k == c.keyOf(s.index[k]) && ValidFile(s.index[k], c.extensions);
    forall p | ValidFile(p, c.extensions)
      ensures PathInv(c, s, p)
    {
      assert Gathering(s, p) == [] && Waiting(s, p) == [];
      if p in s.disk {
        assert c.keyOf(p) in s.index && s.index[c.keyOf(p)] == p;
      }
    }
  }

  lemma {:induction false} ReplayConcat(present: bool, a: seq<Notify>, b: seq<Notify>)
    ensures Replay(present, a + b) == Replay(Replay(present, a), b)
    decreases |a|
  {
    if a == [] {
      assert a + b == b;
    } else {
      assert (a + b)[1..] == a[1..] + b;
      ReplayConcat(PresentAfter(a[0].kind), a[1..], b);
    }
  }

  lemma ConsistentAppend(
    there: bool, left: bool, waiting: seq<FileUpdate>, gathering: seq<Notify>, present: bool, tracked: bool, e: Notify)
    requires Consistent(there, left, waiting, gathering, present, tracked)
    ensures Consistent(there, left, waiting, gathering + [e], PresentAfter(e.kind), tracked)
  {
    ReplayConcat(there, gathering, [e]);
    assert [e][1..] == [];
  }

  lemma ChangePath(c: Setting, s: Pipe, step: Step, e: Notify, p: string)
    requires s.handled <= |s.watcher.updates| && Enabled(s, step) && PathInv(c, s, p)
    requires Apply(c, s, step).raw == s.raw + [e]
    requires
      || (step == Erase(e.path) && e.kind == InDelete)
      || (step.Touch? && step.path == e.path && e.kind == InCloseWrite)
    ensures PathInv(c, Apply(c, s, step), p)
  {
    var t := Apply(c, s, step);
    ForPathConcat(s.raw, [e], p);
    assert [e][1..] == [];
    var pending := Pending(s.watcher.batch.entries, p);
    if e.path == p {
      assert Gathering(t, p) == Gathering(s, p) + [e];
      ConsistentAppend(
        ThereNow(c, s, p), LeftNow(c, s, p), Waiting(s, p), Gathering(s, p), p in s.disk, Tracked(c, s, p), e);
    } else {
      assert Gathering(t, p) == Gathering(s, p);
    }
  }

  /** A change of the disk queues one event. */
  lemma ChangeInv(c: Setting, s: Pipe, step: Step)
    requires GoodSetting(c) && Inv(c, s) && Enabled(s, step) && (step.Touch? || step.Erase?)
    ensures Inv(c, Apply(c, s, step))
  {
    var t := Apply(c, s, step);
    var e := t.raw[|s.raw|];
    forall p | p in t.disk
      ensures KeyAt(t.disk, p) == Some(c.keyOf(p))
    {
      assert p in s.disk ==> KeyAt(s.disk, p) == Some(c.keyOf(p));
    }
    forall p | ValidFile(p, c.extensions)
      ensures PathInv(c, t, p)
    {
      ChangePath(c, s, step, e, p);
    }
  }

  /** What monitoring an event does to the list of a path. */
  lemma MonitorPending(w: Watcher, e: Notify, extensions: seq<string>, p: string)
    requires w.suspendEvent == EventNone && !e.isDir && ValidFile(p, extensions)
    ensures var before, after := w.batch.entries, Monitor(w, e, extensions).batch.entries;
            Pending(after, p) == Pending(before, p) + if e.path == p then [e] else []
    ensures Monitor(w, e, extensions).updates == w.updates
  {}

  lemma ForPathHead(events: seq<Notify>, p: string)
    requires events != []
    ensures ForPath(events, p) == (if events[0].path == p then [events[0]] else []) + ForPath(events[1..], p)
  {}

  lemma Regroup(a: seq<Notify>, b: seq<Notify>, c: seq<Notify>)
    ensures (a + b) + c == a + (b + c)
  {}

  lemma TakePath(c: Setting, s: Pipe, p: string)
    requires s.handled <= |s.watcher.updates| && s.raw != [] && PathInv(c, s, p)
    requires s.watcher.suspendEvent == EventNone && !s.raw[0].isDir && ValidFile(p, c.extensions)
    ensures PathInv(c, Apply(c, s, TakeEvent), p)
  {
    var e := s.raw[0];
    MonitorPending(s.watcher, e, c.extensions, p);
    ForPathHead(s.raw, p);
    Regroup(Pending(s.watcher.batch.entries, p), if e.path == p then [e] else [], ForPath(s.raw[1..], p));
    assert Gathering(Apply(c, s, TakeEvent), p) == Gathering(s, p);
  }

  lemma TakeShape(c: Setting, s: Pipe)
    requires Shape(c, s) && s.raw != []
    ensures Shape(c, Apply(c, s, TakeEvent))
  {
    var t, e := Apply(c, s, TakeEvent), s.raw[0];
    assert e in s.raw;
    if Relevant(e, c.extensions) {
      var list := Pending(s.watcher.batch.entries, e.path) + [e];
      assert forall x | x in list :: Plain(x) && x.path == e.path;
      assert t.watcher.batch.entries == s.watcher.batch.entries[e.path := list];
    }
    assert forall x | x in t.raw :: x in s.raw;
  }

  /** Taking an event off the queue only moves it, or drops it if its path is not watched. */
  lemma TakeInv(c: Setting, s: Pipe)
    requires GoodSetting(c) && Inv(c, s) && Enabled(s, TakeEvent)
    ensures Inv(c, Apply(c, s, TakeEvent))
  {
    TakeShape(c, s);
    assert Plain(s.raw[0]) by { assert s.raw[0] in s.raw; }
    forall p | ValidFile(p, c.extensions)
      ensures PathInv(c, Apply(c, s, TakeEvent), p)
    {
      TakePath(c, s, p);
    }
  }

  // ------------------------------------------------------------------ releasing a batch

  /** Plain events convert one by one. */
  lemma {:induction false} ConvertPlain(events: seq<Notify>, caches: Caches, p: string)
    requires forall e | e in events :: Plain(e) && e.path == p
    ensures var out := Convert(events, caches);
            && out.caches == caches
            && |out.updates| == |events|
            && forall i | 0 <= i < |events| ::
                 out.updates[i] == FileUpdate(ConvertEvent(events[i].kind), p) && !IsRename(events[i])
  {
    if events != [] {
      var front := events[..|events| - 1];
      assert forall e | e in front :: e in events;
      assert events[|events| - 1] in events;
      ConvertPlain(front, caches, p);
    }
  }

  lemma {:induction false} UpdatesOfOnePath(updates: seq<FileUpdate>, q: string, p: string)
    requires forall u | u in updates :: u.path == q
    ensures UpdatesFor(updates, p) == if p == q then updates else []
  {
    if updates != [] {
      var front := updates[..|updates| - 1];
      assert forall u | u in front :: u in updates;
      UpdatesOfOnePath(front, q, p);
      assert updates == front + [updates[|updates| - 1]];
    }
  }

  /** The list of one path, rewritten and converted. */
  lemma ListConverts(events: seq<Notify>, caches: Caches, q: string)
    requires forall e | e in events :: Plain(e) && e.path == q
    ensures var list, out := Concatenated(events), Convert(Concatenated(events), caches);
            && out.caches == caches && |out.updates| == |list|
            && (forall u | u in out.updates :: u.path == q && (u.event == EventModify || u.event == EventDelete))
            && (list != [] ==>
                  out.updates[|list| - 1].event == ConvertEvent(events[|events| - 1].kind) && events != [])
  {
    var list := Concatenated(events);
    ConcatenatedIsSuffix(events);
    assert forall e | e in list :: e in events;
    ConvertPlain(list, caches, q);
  }

  ghost predicate PlainEntries(entries: map<string, seq<Notify>>) {
    forall p | p in entries :: forall e | e in entries[p] :: Plain(e) && e.path == p
  }

  /** What a released batch contributes to a path: that path's own list, rewritten and converted. */
  function Share(entries: map<string, seq<Notify>>, p: string): seq<FileUpdate> {
    Convert(Concatenated(Pending(entries, p)), map[]).updates
  }

  lemma ShareOfPath(entries: map<string, seq<Notify>>, q: string, p: string)
    requires PlainEntries(entries) && q in entries
    ensures Convert(Concatenated(entries[q]), map[]) == Emitted(Share(entries, q), map[])
    ensures UpdatesFor(Share(entries, q), p) == if p == q then Share(entries, p) else []
  {
    ListConverts(entries[q], map[], q);
    UpdatesOfOnePath(Share(entries, q), q, p);
  }

  /** A released batch contributes to each path exactly its share, whatever the order. */
  lemma {:induction false} DispatchPerPath(order: seq<string>, entries: map<string, seq<Notify>>, p: string)
    requires forall q | q in order :: q in entries
    requires forall i, j | 0 <= i < j < |order| :: order[i] != order[j]
    requires PlainEntries(entries)
    ensures DispatchAll(order, entries, map[]).caches == map[]
    ensures UpdatesFor(DispatchAll(order, entries, map[]).updates, p)
            == if p in order then Share(entries, p) else []
  {
    if order != [] {
      var front, q := order[..|order| - 1], order[|order| - 1];
      assert q in order && q !in front && forall x | x in front :: x in order;
      assert order == front + [q];
      DispatchPerPath(front, entries, p);
      DispatchOneMore(front, q, entries, p);
    }
  }

  lemma DispatchOneMore(front: seq<string>, q: string, entries: map<string, seq<Notify>>, p: string)
    requires q in entries && q !in front && forall x | x in front :: x in entries
    requires PlainEntries(entries)
    requires DispatchAll(front, entries, map[]).caches == map[]
    requires UpdatesFor(DispatchAll(front, entries, map[]).updates, p) == if p in front then Share(entries, p) else []
    ensures DispatchAll(front + [q], entries, map[]).caches == map[]
    ensures UpdatesFor(DispatchAll(front + [q], entries, map[]).updates, p)
            == if p in front + [q] then Share(entries, p) else []
  {
    assert (front + [q])[..|front|] == front;
    var head := DispatchAll(front, entries, map[]).updates;
    ShareOfPath(entries, q, p);
    assert DispatchAll(front + [q], entries, map[]) == Emitted(head + Share(entries, q), map[]);
    UpdatesForConcat(head, Share(entries, q), p);
  }

  lemma {:induction false} DispatchedAreValid(
    c: Setting, order: seq<string>, entries: map<string, seq<Notify>>)
    requires forall q | q in order :: q in entries && ValidFile(q, c.extensions)
    requires PlainEntries(entries)
    ensures var out := DispatchAll(order, entries, map[]);
            && out.caches == map[]
            && forall u | u in out.updates :: GoodUpdate(c, u)
  {
    if order != [] {
      var front, q := order[..|order| - 1], order[|order| - 1];
      DispatchedAreValid(c, front, entries);
      ListConverts(entries[q], map[], q);
    }
  }

  lemma ReleaseShape(c: Setting, s: Pipe, order: seq<string>)
    requires GoodSetting(c) && Inv(c, s) && Enabled(s, ReleaseBatch(order))
    ensures Shape(c, Apply(c, s, ReleaseBatch(order)))
  {
    DispatchedAreValid(c, order, s.watcher.batch.entries);
  }

  lemma NothingConcatenated()
    ensures Concatenated([]) == []
  {
    ConcatenatedUnfolds([]);
  }

  /** Releasing the gathered events of a path. */
  lemma ConsistentRelease(
    there: bool, left: bool, waiting: seq<FileUpdate>, events: seq<Notify>, rest: seq<Notify>,
    present: bool, tracked: bool, released: seq<FileUpdate>)
    requires Consistent(there, left, waiting, events + rest, present, tracked)
    requires |released| == |Concatenated(events)|
    requires released != [] ==>
               events != [] && released[|released| - 1].event == ConvertEvent(events[|events| - 1].kind)
    requires forall e | e in events :: Plain(e)
    ensures var left' := if events == [] || Cancelling(events) then left else PresentAfter(events[|events| - 1].kind);
            Consistent(Replay(there, events), left', waiting + released, rest, present, tracked)
  {
    ReplayConcat(there, events, rest);
    CollapsesIffCancelling(events);
    if events == [] {
      assert waiting + released == waiting && events + rest == rest;
    } else {
      assert events[|events| - 1] in events;
      ReplayLast(there, events);
      if released == [] {
        CancellingEndsInDelete(events);
        assert waiting + released == waiting;
      } else {
        assert (waiting + released)[|waiting + released| - 1] == released[|released| - 1];
      }
    }
  }

  /** What a release does to the parts that the invariant of one path is about. */
  lemma ReleaseQueue(s: Pipe, order: seq<string>, p: string)
    requires s.handled <= |s.watcher.updates| && PlainEntries(s.watcher.batch.entries)
    requires Enabled(s, ReleaseBatch(order)) && s.watcher.caches == map[]
    ensures UpdatesFor(Flush(s.watcher, order).updates[s.handled..], p)
            == Waiting(s, p) + Share(s.watcher.batch.entries, p)
  {
    var entries := s.watcher.batch.entries;
    DispatchPerPath(order, entries, p);
    var released := DispatchAll(order, entries, map[]).updates;
    var queue := s.watcher.updates[s.handled..];
    assert (s.watcher.updates + released)[s.handled..] == queue + released;
    UpdatesForConcat(queue, released, p);
    if p !in entries {
      NothingConcatenated();
      assert Share(entries, p) == [];
    }
  }

  /** What a release adds to the history of a path. */
  lemma ReleaseHistory(c: Setting, s: Pipe, order: seq<string>, p: string)
    requires Enabled(s, ReleaseBatch(order))
    ensures var t, events := Apply(c, s, ReleaseBatch(order)), Pending(s.watcher.batch.entries, p);
            && ThereNow(c, t, p) == Replay(ThereNow(c, s, p), events)
            && LeftNow(c, t, p) == if events == [] || Cancelling(events) then LeftNow(c, s, p)
                                   else PresentAfter(events[|events| - 1].kind)
  {
    var t := Apply(c, s, ReleaseBatch(order));
    assert t.batches[..|t.batches| - 1] == s.batches;
  }

  lemma ReleaseRest(c: Setting, s: Pipe, order: seq<string>, p: string)
    requires Enabled(s, ReleaseBatch(order))
    ensures Gathering(Apply(c, s, ReleaseBatch(order)), p) == ForPath(s.raw, p)
  {
    assert [] + ForPath(s.raw, p) == ForPath(s.raw, p);
  }

  lemma ReleaseParts(c: Setting, s: Pipe, order: seq<string>, p: string)
    requires Shape(c, s) && Enabled(s, ReleaseBatch(order))
    ensures var t, events := Apply(c, s, ReleaseBatch(order)), Pending(s.watcher.batch.entries, p);
            && t.handled <= |t.watcher.updates|
            && Waiting(t, p) == Waiting(s, p) + Share(s.watcher.batch.entries, p)
            && Tracked(c, t, p) == Tracked(c, s, p) && t.disk == s.disk
  {
    ReleaseQueue(s, order, p);
  }

  lemma ReleasePath(c: Setting, s: Pipe, order: seq<string>, p: string)
    requires Shape(c, s) && PathInv(c, s, p) && Enabled(s, ReleaseBatch(order))
    ensures PathInv(c, Apply(c, s, ReleaseBatch(order)), p)
  {
    var events := Pending(s.watcher.batch.entries, p);
    ReleaseHistory(c, s, order, p);
    ReleaseRest(c, s, order, p);
    ReleaseParts(c, s, order, p);
    ListConverts(events, map[], p);
    ConsistentRelease(
      ThereNow(c, s, p), LeftNow(c, s, p), Waiting(s, p), events, ForPath(s.raw, p), p in s.disk, Tracked(c, s, p),
      Share(s.watcher.batch.entries, p));
  }

  // ------------------------------------------------------------------ handling an update

  lemma {:induction false} UpdatesForHead(updates: seq<FileUpdate>, p: string)
    requires updates != []
    ensures UpdatesFor(updates, p)
            == (if updates[0].path == p then [updates[0]] else []) + UpdatesFor(updates[1..], p)
  {
    assert updates == [updates[0]] + updates[1..];
    UpdatesForConcat([updates[0]], updates[1..], p);
    assert [updates[0]][..0] == [];
  }

  lemma HandleTracked(c: Setting, s: Pipe, found: Option<ObjectKey>, p: string)
    requires GoodSetting(c) && Shape(c, s) && Enabled(s, HandleNext(found))
    ensures var t, u := Apply(c, s, HandleNext(found)), s.watcher.updates[s.handled];
            Tracked(c, t, p)
            == if p != u.path then Tracked(c, s, p)
               else if u.event == EventDelete then false
               else p in s.disk || Tracked(c, s, p)
  {
    var u := s.watcher.updates[s.handled];
    var k := c.keyOf(u.path);
    if k in s.index {
      assert c.keyOf(s.index[k]) == k;
    }
    if found.Some? {
      assert found.value == c.keyOf(s.index[found.value]);
    }
  }

  lemma HandleShape(c: Setting, s: Pipe, found: Option<ObjectKey>)
    requires GoodSetting(c) && Shape(c, s) && Enabled(s, HandleNext(found))
    ensures Shape(c, Apply(c, s, HandleNext(found)))
  {
    var t, u := Apply(c, s, HandleNext(found)), s.watcher.updates[s.handled];
    assert GoodUpdate(c, u);
    forall k | k in t.index
      ensures k == c.keyOf(t.index[k]) && ValidFile(t.index[k], c.extensions)
    {
      assert u.path in s.disk ==> KeyAt(s.disk, u.path) == Some(c.keyOf(u.path));
      assert k in s.index ==> k == c.keyOf(s.index[k]) && ValidFile(s.index[k], c.extensions);
    }
  }

  /** The first waiting update of a path is handled, with the file as it is now. */
  lemma ConsistentHandle(
    there: bool, left: bool, u: FileUpdate, rest: seq<FileUpdate>, gathering: seq<Notify>, present: bool, tracked: bool)
    requires Consistent(there, left, [u] + rest, gathering, present, tracked) && (there ==> left)
    requires u.event == EventModify || u.event == EventDelete
    ensures Consistent(
              there, left, rest, gathering, present, if u.event == EventDelete then false else present || tracked)
  {
    var all := [u] + rest;
    if rest != [] {
      assert all[|all| - 1] == rest[|rest| - 1];
    } else {
      assert all[|all| - 1] == u;
    }
  }

  lemma HandlePath(c: Setting, s: Pipe, found: Option<ObjectKey>, p: string)
    requires GoodSetting(c) && Inv(c, s) && Enabled(s, HandleNext(found)) && PathInv(c, s, p)
    ensures Apply(c, s, HandleNext(found)).handled <= |s.watcher.updates|
    ensures PathInv(c, Apply(c, s, HandleNext(found)), p)
  {
    var t, u := Apply(c, s, HandleNext(found)), s.watcher.updates[s.handled];
    HandleTracked(c, s, found, p);
    var queue := s.watcher.updates[s.handled..];
    assert queue[1..] == t.watcher.updates[t.handled..] && queue[0] == u;
    UpdatesForHead(queue, p);
    if p == u.path {
      assert GoodUpdate(c, u);
      LostMeaning(p in c.start, s.batches, p);
      ConsistentHandle(
        ThereNow(c, s, p), LeftNow(c, s, p), u, Waiting(t, p), Gathering(s, p), p in s.disk, Tracked(c, s, p));
    } else {
      assert [] + Waiting(t, p) == Waiting(t, p);
    }
  }

  lemma HandleInv(c: Setting, s: Pipe, found: Option<ObjectKey>)
    requires GoodSetting(c) && Inv(c, s) && Enabled(s, HandleNext(found))
    ensures Inv(c, Apply(c, s, HandleNext(found)))
  {
    HandleShape(c, s, found);
    forall p | ValidFile(p, c.extensions)
      ensures PathInv(c, Apply(c, s, HandleNext(found)), p)
    {
      HandlePath(c, s, found, p);
    }
  }

  // ------------------------------------------------------------------ the theorems

  lemma StepInv(c: Setting, s: Pipe, step: Step)
    requires GoodSetting(c) && Inv(c, s) && Enabled(s, step)
    ensures Inv(c, Apply(c, s, step))
  {
    match step
    case Touch(_, _) => ChangeInv(c, s, step);
    case Erase(_) => ChangeInv(c, s, step);
    case TakeEvent => TakeInv(c, s);
    case FireTimer =>
      var t := Apply(c, s, step);
      forall p | ValidFile(p, c.extensions)
        ensures PathInv(c, t, p)
      {
        assert PathInv(c, s, p);
      }
    case ReleaseBatch(order) =>
      ReleaseShape(c, s, order);
      forall p | ValidFile(p, c.extensions)
        ensures PathInv(c, Apply(c, s, step), p)
      {
        ReleasePath(c, s, order, p);
      }
    case HandleNext(found) => HandleInv(c, s, found);
  }

  lemma {:induction false} RunInv(c: Setting, states: seq<Pipe>, steps: seq<Step>, i: nat)
    requires GoodSetting(c) && Run(c, states, steps) && i <= |steps|
    ensures Inv(c, states[i])
  {
    if i == 0 {
      InitInv(c, states[0]);
    } else {
      RunInv(c, states, steps, i - 1);
      assert Takes(c, states[i - 1], steps[i - 1], states[i]);
      StepInv(c, states[i - 1], steps[i - 1]);
    }
  }

  /** The index is right just when each valid path has its key in the index while its file is there. */
  lemma TracksByPath(c: Setting, s: Pipe)
    requires GoodSetting(c) && Shape(c, s)
    ensures Tracks(c, s.index, s.disk) <==>
            forall p | ValidFile(p, c.extensions) :: Tracked(c, s, p) <==> p in s.disk
  {
    if forall p | ValidFile(p, c.extensions) :: Tracked(c, s, p) <==> p in s.disk {
      MappedByPath(c, s);
    }
    if Tracks(c, s.index, s.disk) {
      forall p | ValidFile(p, c.extensions)
        ensures Tracked(c, s, p) <==> p in s.disk
      {
        var k := c.keyOf(p);
        assert k in s.index ==> s.index[k] in s.disk && k == c.keyOf(s.index[k]);
        assert p in s.disk ==> k in s.index && s.index[k] == p;
      }
    }
  }

  lemma MappedByPath(c: Setting, s: Pipe)
    requires GoodSetting(c) && Shape(c, s)
    requires forall p | ValidFile(p, c.extensions) :: Tracked(c, s, p) <==> p in s.disk
    ensures Tracks(c, s.index, s.disk)
  {
    forall k, p
      ensures k in s.index && s.index[k] == p <==> p in s.disk && ValidFile(p, c.extensions) && k == c.keyOf(p)
    {
      if k in s.index {
        assert Tracked(c, s, s.index[k]);
      }
      if p in s.disk && ValidFile(p, c.extensions) && k == c.keyOf(p) {
        assert Tracked(c, s, p);
        assert c.keyOf(s.index[k]) == c.keyOf(p);
      }
    }
  }

  /** A quiet state that the invariant holds in, path by path. */
  lemma QuietPath(c: Setting, s: Pipe, p: string)
    requires Quiet(s) && PathInv(c, s, p)
    ensures p in s.disk <==> ThereNow(c, s, p)
    ensures p in s.disk ==> Tracked(c, s, p)
    ensures Tracked(c, s, p) ==> p in s.disk || LostNow(c, s, p)
  {
    assert Waiting(s, p) == [] && Gathering(s, p) == [];
    LostMeaning(p in c.start, s.batches, p);
  }

  /** The file was found, at the start or when a MODIFY of it was handled, and no DELETE of it has been
      handled since. */
  predicate Found(c: Setting, states: seq<Pipe>, steps: seq<Step>, i: nat, p: string)
    requires |states| == |steps| + 1 && i <= |steps|
  {
    if i == 0 then p in c.start
    else FoundAfter(states[i - 1], steps[i - 1], Found(c, states, steps, i - 1, p), p)
  }

  predicate FoundAfter(s: Pipe, step: Step, before: bool, p: string) {
    if step.HandleNext? && s.handled < |s.watcher.updates| && s.watcher.updates[s.handled].path == p
    then s.watcher.updates[s.handled].event == EventModify && (p in s.disk || before)
    else before
  }

  /** The path is in the index after a step as that step and the state before tell. */
  predicate TrackedFollows(c: Setting, states: seq<Pipe>, steps: seq<Step>, i: nat, p: string)
    requires |states| == |steps| + 1 && i < |steps|
  {
    Tracked(c, states[i + 1], p) <==> FoundAfter(states[i], steps[i], Tracked(c, states[i], p), p)
  }

  lemma {:induction false} FoundByInduction(c: Setting, states: seq<Pipe>, steps: seq<Step>, i: nat, p: string)
    requires |states| == |steps| + 1 && i <= |steps| && (Tracked(c, states[0], p) <==> p in c.start)
    requires forall j | 0 <= j < |steps| :: TrackedFollows(c, states, steps, j, p)
    ensures Tracked(c, states[i], p) <==> Found(c, states, steps, i, p)
  {
    if i != 0 {
      FoundByInduction(c, states, steps, i - 1, p);
      assert TrackedFollows(c, states, steps, i - 1, p);
    }
  }

  /** Just the paths that were found are in the index. */
  lemma FoundIsTracked(c: Setting, states: seq<Pipe>, steps: seq<Step>, i: nat, p: string)
    requires GoodSetting(c) && Run(c, states, steps) && i <= |steps| && ValidFile(p, c.extensions)
    ensures Tracked(c, states[i], p) <==> Found(c, states, steps, i, p)
  {
    TrackedAtStart(c, states[0], p);
    forall j | 0 <= j < |steps|
      ensures TrackedFollows(c, states, steps, j, p)
    {
      RunTakes(c, states, steps, j);
      TrackedThen(c, states[j], steps[j], states[j + 1], p);
    }
    FoundByInduction(c, states, steps, i, p);
  }

  lemma RunTakes(c: Setting, states: seq<Pipe>, steps: seq<Step>, i: nat)
    requires GoodSetting(c) && Run(c, states, steps) && i < |steps|
    ensures Inv(c, states[i]) && Takes(c, states[i], steps[i], states[i + 1])
  {
    RunInv(c, states, steps, i);
  }

  lemma TrackedThen(c: Setting, s: Pipe, step: Step, s': Pipe, p: string)
    requires GoodSetting(c) && Inv(c, s) && Takes(c, s, step, s')
    ensures Tracked(c, s', p) <==> FoundAfter(s, step, Tracked(c, s, p), p)
  {
    TrackedAfter(c, s, step, p);
  }

  lemma TrackedAtStart(c: Setting, s: Pipe, p: string)
    requires GoodSetting(c) && Init(c, s) && ValidFile(p, c.extensions)
    ensures Tracked(c, s, p) <==> p in c.start
  {
    InitInv(c, s);
    TracksByPath(c, s);
  }

  /** Only handling an update of the path can add it to the index or remove it. */
  lemma TrackedAfter(c: Setting, s: Pipe, step: Step, p: string)
    requires GoodSetting(c) && Shape(c, s) && Enabled(s, step)
    ensures Tracked(c, Apply(c, s, step), p) <==> FoundAfter(s, step, Tracked(c, s, p), p)
  {
    match step
    case HandleNext(found) =>
      HandleTracked(c, s, found, p);
      assert GoodUpdate(c, s.watcher.updates[s.handled]);
    case _ =>
  }

  /**
   Whatever the interleaving and the delays: once all queues are empty, every file on disk is in
   the index, and a mapping that is wrong is one of a lost path. So the index tracks exactly the
   files on disk if and only if no lost path is one that was found.
   */
  lemma EventuallyTracks(c: Setting, states: seq<Pipe>, steps: seq<Step>, i: nat)
    requires GoodSetting(c) && Run(c, states, steps) && i <= |steps| && Quiet(states[i])
    ensures forall p | ValidFile(p, c.extensions) && p in states[i].disk :: Tracked(c, states[i], p)
    ensures forall p | ValidFile(p, c.extensions) && Tracked(c, states[i], p) && p !in states[i].disk ::
              LostNow(c, states[i], p)
    ensures Tracks(c, states[i].index, states[i].disk) <==>
            forall p | ValidFile(p, c.extensions) && LostNow(c, states[i], p) :: !Found(c, states, steps, i, p)
  {
    var s := states[i];
    RunInv(c, states, steps, i);
    forall p | ValidFile(p, c.extensions)
      ensures p in s.disk ==> Tracked(c, s, p)
      ensures Tracked(c, s, p) ==> p in s.disk || LostNow(c, s, p)
      ensures LostNow(c, s, p) ==> p !in s.disk
      ensures Tracked(c, s, p) <==> Found(c, states, steps, i, p)
    {
      assert PathInv(c, s, p);
      QuietPath(c, s, p);
      LostMeaning(p in c.start, s.batches, p);
      FoundIsTracked(c, states, steps, i, p);
    }
    TracksByPath(c, s);
  }

  // ------------------------------------------------------------------ when updates are handled in time

  /** The disk only changes while nothing waits to be handled, and a batch is released once all
      events have been taken and all updates before it handled. */
  predicate InTime(s: Pipe, step: Step) {
    && (step.Touch? || step.Erase? || step.ReleaseBatch? ==> s.handled == |s.watcher.updates|)
    && (step.ReleaseBatch? ==> s.raw == [])
  }

  predicate AllInTime(states: seq<Pipe>, steps: seq<Step>) {
    |states| == |steps| + 1 && forall i | 0 <= i < |steps| :: InTime(states[i], steps[i])
  }

  /** Then an update finds the file as the batch left it, and the index has a path just as it was
      last left. */
  ghost predicate TimelyInv(c: Setting, s: Pipe) {
    && s.handled <= |s.watcher.updates|
    && (s.handled < |s.watcher.updates| ==> s.raw == [] && s.watcher.batch.entries == map[])
    && forall p | ValidFile(p, c.extensions) ::
         if Waiting(s, p) == [] then Tracked(c, s, p) <==> LeftNow(c, s, p)
         else LeftNow(c, s, p) <==> ThereNow(c, s, p)
  }

  lemma NothingWaits(s: Pipe, p: string)
    requires s.handled == |s.watcher.updates|
    ensures Waiting(s, p) == []
  {}

  lemma TimelyRelease(c: Setting, s: Pipe, order: seq<string>, p: string)
    requires Inv(c, s) && TimelyInv(c, s) && Enabled(s, ReleaseBatch(order)) && InTime(s, ReleaseBatch(order))
    requires ValidFile(p, c.extensions)
    ensures var t := Apply(c, s, ReleaseBatch(order));
            && t.handled <= |t.watcher.updates|
            && if Waiting(t, p) == [] then Tracked(c, t, p) <==> LeftNow(c, t, p)
               else LeftNow(c, t, p) <==> ThereNow(c, t, p)
  {
    var events := Pending(s.watcher.batch.entries, p);
    NothingWaits(s, p);
    ReleaseHistory(c, s, order, p);
    ReleaseParts(c, s, order, p);
    ListConverts(events, map[], p);
    CollapsesIffCancelling(events);
    ReplayLast(ThereNow(c, s, p), events);
    assert [] + Share(s.watcher.batch.entries, p) == Share(s.watcher.batch.entries, p);
  }

  lemma TimelyHandle(c: Setting, s: Pipe, found: Option<ObjectKey>, p: string)
    requires GoodSetting(c) && Inv(c, s) && TimelyInv(c, s) && Enabled(s, HandleNext(found))
    requires ValidFile(p, c.extensions)
    ensures var t := Apply(c, s, HandleNext(found));
            if Waiting(t, p) == [] then Tracked(c, t, p) <==> LeftNow(c, t, p)
            else LeftNow(c, t, p) <==> ThereNow(c, t, p)
  {
    var t, u := Apply(c, s, HandleNext(found)), s.watcher.updates[s.handled];
    var queue := s.watcher.updates[s.handled..];
    assert queue[1..] == t.watcher.updates[t.handled..] && queue[0] == u;
    UpdatesForHead(queue, p);
    HandleTracked(c, s, found, p);
    assert PathInv(c, s, p) && GoodUpdate(c, u);
    if p == u.path {
      assert Waiting(s, p) == [u] + Waiting(t, p);
      assert Gathering(s, p) == [];
    } else {
      assert [] + Waiting(t, p) == Waiting(t, p);
    }
  }

  lemma TimelyStep(c: Setting, s: Pipe, step: Step)
    requires GoodSetting(c) && Inv(c, s) && TimelyInv(c, s) && Enabled(s, step) && InTime(s, step)
    ensures TimelyInv(c, Apply(c, s, step))
  {
    var t := Apply(c, s, step);
    forall p | ValidFile(p, c.extensions)
      ensures t.handled <= |t.watcher.updates|
      ensures if Waiting(t, p) == [] then Tracked(c, t, p) <==> LeftNow(c, t, p)
              else LeftNow(c, t, p) <==> ThereNow(c, t, p)
    {
      match step
      case ReleaseBatch(order) => TimelyRelease(c, s, order, p);
      case HandleNext(found) => TimelyHandle(c, s, found, p);
      case _ => assert t.watcher.updates == s.watcher.updates && t.index == s.index && t.batches == s.batches;
    }
  }

  lemma {:induction false} TimelyRun(c: Setting, states: seq<Pipe>, steps: seq<Step>, i: nat)
    requires GoodSetting(c) && Run(c, states, steps) && AllInTime(states, steps) && i <= |steps|
    ensures TimelyInv(c, states[i])
  {
    if i == 0 {
      TracksByPath(c, states[0]);
    } else {
      TimelyRun(c, states, steps, i - 1);
      RunInv(c, states, steps, i - 1);
      assert Takes(c, states[i - 1], steps[i - 1], states[i]) && InTime(states[i - 1], steps[i - 1]);
      TimelyStep(c, states[i - 1], steps[i - 1]);
    }
  }

  /** With updates handled in time: once all queues are empty, the index tracks exactly the files on
      disk if and only if no path is lost. */
  lemma TimelyTracksExactly(c: Setting, states: seq<Pipe>, steps: seq<Step>, i: nat)
    requires GoodSetting(c) && Run(c, states, steps) && AllInTime(states, steps)
    requires i <= |steps| && Quiet(states[i])
    ensures Tracks(c, states[i].index, states[i].disk)
            <==> forall p | ValidFile(p, c.extensions) :: !LostNow(c, states[i], p)
  {
    var s := states[i];
    EventuallyTracks(c, states, steps, i);
    TimelyRun(c, states, steps, i);
    forall p | ValidFile(p, c.extensions) && LostNow(c, s, p)
      ensures Found(c, states, steps, i, p)
    {
      NothingWaits(s, p);
      LostMeaning(p in c.start, s.batches, p);
      FoundIsTracked(c, states, steps, i, p);
    }
  }
}
