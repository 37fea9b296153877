/**
 pkg/util/watcher/filewatcher.go: the state of the watcher, one function per atomic step, and
 the class whose methods carry the steps out.
 */
module FileWatcher {
  import opened Common
  import opened FileEvents
  import opened EventConcat
  import opened MovePairing
  import opened Batcher

  /** The extension of the last path component, dot included; "" if it has none. */
  function Ext(path: string): string {
    if path == "" || path[|path| - 1] == '/' then ""
    else if path[|path| - 1] == '.' then "."
    else
      var front := Ext(path[..|path| - 1]);
      if front == "" then "" else front + [path[|path| - 1]]
  }

  /** No dot is left once slashes are passed; or the extension runs from the last dot to the end. */
  ghost predicate IsExt(path: string, ext: string) {
    && (ext == "" <==> forall i | 0 <= i < |path| && path[i] == '.' :: '/' in path[i..])
    && (ext != "" ==>
          && |ext| <= |path| && path[|path| - |ext|..] == ext
          && ext[0] == '.' && '.' !in ext[1..] && '/' !in ext)
  }

  lemma ExtAfterSlash(front: string)
    ensures IsExt(front + ['/'], "")
  {
    var path := front + ['/'];
    forall i | 0 <= i < |path|
      ensures '/' in path[i..]
    {
      assert path[i..][|path| - 1 - i] == '/';
    }
  }

  lemma ExtAtDot(front: string)
    ensures IsExt(front + ['.'], ".")
  {
    var path := front + ['.'];
    assert path[|front|..] == ".";
    assert path[|front|] == '.' && '/' !in path[|front|..];
  }

  lemma ExtGrows(front: string, ext: string, last: char)
    requires IsExt(front, ext) && last != '/' && last != '.'
    ensures IsExt(front + [last], if ext == "" then "" else ext + [last])
  {
    var path := front + [last];
    forall i | 0 <= i < |front|
      ensures '/' in path[i..] <==> '/' in front[i..]
    {
      assert path[i..] == front[i..] + [last];
    }
    if ext != "" {
      assert path[|path| - |ext + [last]|..] == front[|front| - |ext|..] + [last];
      assert (ext + [last])[1..] == ext[1..] + [last];
    }
  }

  lemma {:induction false} ExtMeaning(path: string)
    ensures IsExt(path, Ext(path))
  {
    if path != "" {
      var front, last := path[..|path| - 1], path[|path| - 1];
      assert path == front + [last];
      if last == '/' {
        ExtAfterSlash(front);
      } else if last == '.' {
        ExtAtDot(front);
      } else {
        ExtMeaning(front);
        ExtGrows(front, Ext(front), last);
      }
    }
  }

  /** A file is valid if its extension is listed. */
  predicate ValidFile(path: string, extensions: seq<string>) {
    Ext(path) in extensions
  }

  datatype Watcher = Watcher(
    suspendEvent: FileEvent,
    batch: Batch<string, seq<Notify>>,
    caches: Caches,
    updates: seq<FileUpdate>)

  const INITIAL := Watcher(EventNone, Batch(NoTimer, 0, map[]), map[], [])

  // ------------------------------------------------------------------ the steps

  /** The events registered for a path and not yet dispatched. */
  function Pending(entries: map<string, seq<Notify>>, path: string): seq<Notify> {
    if path in entries then entries[path] else []
  }

  predicate Relevant(e: Notify, extensions: seq<string>) {
    !e.isDir && ValidFile(e.path, extensions)
  }

  predicate Swallowed(w: Watcher, e: Notify) {
    w.suspendEvent != EventNone && ConvertEvent(e.kind) == w.suspendEvent
  }

  /** One iteration of the monitoring loop. */
  function Monitor(w: Watcher, e: Notify, extensions: seq<string>): Watcher {
    if !Relevant(e, extensions) then w
    else if Swallowed(w, e) then w.(suspendEvent := EventNone)
    else w.(batch := w.batch.Store(e.path, Pending(w.batch.entries, e.path) + [e]))
  }

  datatype Emitted = Emitted(updates: seq<FileUpdate>, caches: Caches)

  /** The conversion loop over an already concatenated list. */
  function Convert(events: seq<Notify>, caches: Caches): Emitted {
    if events == [] then Emitted([], caches)
    else
      var front, e := Convert(events[..|events| - 1], caches), events[|events| - 1];
      if IsRename(e) then
        var m := Move(front.caches, e);
        Emitted(front.updates + (if m.update.Some? then [m.update.value] else []), m.caches)
      else Emitted(front.updates + [ConvertUpdate(e)], front.caches)
  }

  /** The traversal of a released batch, in the order in which the map is ranged over. */
  function DispatchAll(order: seq<string>, entries: map<string, seq<Notify>>, caches: Caches): Emitted
    requires forall p | p in order :: p in entries
  {
    if order == [] then Emitted([], caches)
    else
      var front := DispatchAll(order[..|order| - 1], entries, caches);
      var last := Convert(Concatenated(entries[order[|order| - 1]]), front.caches);
      Emitted(front.updates + last.updates, last.caches)
  }

  lemma DispatchNext(
    order: seq<string>, i: nat, entries: map<string, seq<Notify>>, caches: Caches,
    front: Emitted, before: seq<FileUpdate>)
    returns (next: Emitted)
    requires i < |order| && forall p | p in order :: p in entries
    requires front == DispatchAll(order[..i], entries, caches)
    ensures next == DispatchAll(order[..i + 1], entries, caches)
    ensures var last := Convert(Concatenated(entries[order[i]]), front.caches);
            && next == Emitted(front.updates + last.updates, last.caches)
            && before + next.updates == (before + front.updates) + last.updates
  {
    assert order[..i + 1][..i] == order[..i];
    next := DispatchAll(order[..i + 1], entries, caches);
  }

  /** A listing of a map's keys, each once. */
  ghost predicate IsOrder<V>(order: seq<string>, entries: map<string, V>) {
    && (forall p :: p in order <==> p in entries)
    && (forall i, j | 0 <= i < j < |order| :: order[i] != order[j])
  }

  /** One iteration of the dispatching loop. */
  function Flush(w: Watcher, order: seq<string>): Watcher
    requires 0 < w.batch.flushes
    requires forall p | p in order :: p in w.batch.entries
  {
    var d := DispatchAll(order, w.batch.entries, w.caches);
    w.(batch := w.batch.Drain(), caches := d.caches, updates := w.updates + d.updates)
  }

  /** The timer of a cached rename half runs out. */
  function TimeOut(w: Watcher, cookie: nat): Watcher
    requires cookie in w.caches && IsRename(w.caches[cookie])
  {
    w.(caches := w.caches - {cookie}, updates := w.updates + [Incomplete(w.caches[cookie])])
  }

  // ------------------------------------------------------------------ the class

  class Watching {
    const extensions: seq<string>
    const batcher: BatchWriter<string, seq<Notify>>
    var suspendEvent: FileEvent
    var moveCaches: Caches
    var updates: seq<FileUpdate>

    ghost function State(): Watcher
      reads this, batcher
    {
      Watcher(suspendEvent, batcher.State(), moveCaches, updates)
    }

    constructor (extensions: seq<string>)
      ensures this.extensions == extensions && State() == INITIAL && !batcher.closed
      ensures fresh(batcher)
    {
      this.extensions := extensions;
      batcher := new BatchWriter();
      suspendEvent, moveCaches, updates := EventNone, map[], [];
    }

    /** The body of the monitoring loop, for one event. */
    method MonitorOne(event: Notify)
      modifies this`suspendEvent, batcher
      ensures State() == Monitor(old(State()), event, extensions)
      ensures event.isDir || Ext(event.path) !in extensions ==> State() == old(State())
      ensures !event.isDir && Ext(event.path) in extensions ==>
                if (event.kind == InDelete && old(suspendEvent) == EventDelete)
                   || (event.kind == InCloseWrite && old(suspendEvent) == EventModify)
                then suspendEvent == EventNone && batcher.State() == old(batcher.State())
                else
                  && suspendEvent == old(suspendEvent) && batcher.timer == Armed
                  && var list := if event.path in old(batcher.entries) then old(batcher.entries)[event.path] else [];
                     batcher.entries == old(batcher.entries)[event.path := list + [event]]
    {
      if event.isDir {
        return;
      }
      if !ValidFile(event.path, extensions) {
        return;
      }
      var updateEvent := ConvertEvent(event.kind);
      if suspendEvent != EventNone && updateEvent == suspendEvent {
        suspendEvent := EventNone;
        return;
      }
      var eventList := [];
      var val := batcher.Load(event.path);
      if val.Some? {
        eventList := val.value;
      }
      eventList := eventList + [event];
      batcher.Store(event.path, eventList);
    }

    method Suspend(updateEvent: FileEvent)
      modifies this`suspendEvent
      ensures State() == old(State()).(suspendEvent := updateEvent)
    {
      suspendEvent := updateEvent;
    }

    /** Handles one rename half. */
    method MoveHalf(event: Notify) returns (moveUpdate: Option<FileUpdate>)
      requires IsRename(event)
      modifies this`moveCaches
      ensures Moved(moveUpdate, moveCaches) == Move(old(moveCaches), event)
      ensures event.cookie !in old(moveCaches) ==>
                moveUpdate == None && moveCaches == old(moveCaches)[event.cookie := event]
      ensures event.cookie in old(moveCaches) ==>
                && moveCaches == old(moveCaches) - {event.cookie}
                && var to := if event.kind == InMovedFrom then old(moveCaches)[event.cookie] else event;
                   moveUpdate == Some(FileUpdate(EventMove, to.path))
    {
      var cookie := event.cookie;
      if cookie !in moveCaches {
        moveCaches := moveCaches[cookie := event];
        return None;
      }
      var sourcePath, destPath := moveCaches[cookie].path, event.path;
      if event.kind == InMovedFrom {
        sourcePath, destPath := destPath, sourcePath;
      }
      moveCaches := moveCaches - {cookie};
      return Some(FileUpdate(EventMove, destPath));
    }

    method SendUpdate(update: FileUpdate)
      modifies this`updates
      ensures updates == old(updates) + [update]
    {
      updates := updates + [update];
    }

    /** The callback of a cached half's timer. */
    method IncompleteMove(cookie: nat)
      requires cookie in moveCaches && IsRename(moveCaches[cookie])
      modifies this`moveCaches, this`updates
      ensures State() == TimeOut(old(State()), cookie)
      ensures var half := old(moveCaches)[cookie];
              && moveCaches == old(moveCaches) - {cookie}
              && updates == old(updates)
                            + [FileUpdate(if half.kind == InMovedFrom then EventDelete else EventModify, half.path)]
    {
      var cached := moveCaches[cookie];
      var event := match cached.kind
        case InMovedFrom => EventDelete
        case _ => EventModify;
      SendUpdate(FileUpdate(event, cached.path));
      moveCaches := moveCaches - {cookie};
    }

    /** Rewrites by the table until no row matches, then converts what is left. */
    method ConcatenateEvents(events: seq<Notify>) returns (result: seq<FileUpdate>)
      modifies this`moveCaches
      ensures Emitted(result, moveCaches) == Convert(Concatenated(events), old(moveCaches))
      decreases |events|
    {
      var i := 0;
      while i < |COMBINED_EVENTS|
        invariant 0 <= i <= |COMBINED_EVENTS|
        invariant FirstMatch(COMBINED_EVENTS, events) == FirstMatch(COMBINED_EVENTS[i..], events)
      {
        var row := COMBINED_EVENTS[i];
        if Matches(row, events) {
          var concatenated := events[|row.input|..];
          if row.output > 0 {
            concatenated := [events[row.output]] + concatenated;
          }
          assert concatenated == Replace(row, events);
          result := ConcatenateEvents(concatenated);
          return;
        }
        assert COMBINED_EVENTS[i..][1..] == COMBINED_EVENTS[i + 1..];
        i := i + 1;
      }
      assert Concatenated(events) == events;
      result := [];
      for k := 0 to |events|
        invariant Emitted(result, moveCaches) == Convert(events[..k], old(moveCaches))
      {
        assert events[..k + 1][..k] == events[..k];
        var event := events[k];
        if IsRename(event) {
          var update := MoveHalf(event);
          if update.Some? {
            result := result + [update.value];
          }
        } else {
          result := result + [ConvertUpdate(event)];
        }
      }
      assert events[..|events|] == events;
    }

    method SendAll(list: seq<FileUpdate>)
      modifies this`updates
      ensures updates == old(updates) + list
    {
      for k := 0 to |list|
        invariant updates == old(updates) + list[..k]
      {
        SendUpdate(list[k]);
        assert list[..k + 1] == list[..k] + [list[k]];
      }
      assert list[..|list|] == list;
    }

    /** The function ranged over a released batch. */
    method DispatchPath(events: seq<Notify>)
      modifies this`moveCaches, this`updates
      ensures var out := Convert(Concatenated(events), old(moveCaches));
              moveCaches == out.caches && updates == old(updates) + out.updates
    {
      var result := ConcatenateEvents(events);
      SendAll(result);
    }

    method DispatchBatch(batch: map<string, seq<Notify>>, order: seq<string>)
      requires forall p | p in order :: p in batch
      modifies this`moveCaches, this`updates
      ensures var d := DispatchAll(order, batch, old(moveCaches));
              moveCaches == d.caches && updates == old(updates) + d.updates
    {
      ghost var caches, before := moveCaches, updates;
      ghost var d := DispatchAll([], batch, caches);
      for i := 0 to |order|
        invariant d == DispatchAll(order[..i], batch, caches)
        invariant moveCaches == d.caches && updates == before + d.updates
      {
        DispatchPath(batch[order[i]]);
        d := DispatchNext(order, i, batch, caches, d, before);
      }
      assert order[..|order|] == order;
    }

    /** The body of the dispatching loop, for one flush; `order` is how the map is ranged over. */
    method DispatchOne(order: seq<string>) returns (ok: bool)
      requires batcher.closed || 0 < batcher.flushes
      requires IsOrder(order, batcher.entries)
      modifies this`moveCaches, this`updates, batcher
      ensures ok == !old(batcher.closed)
      ensures ok ==> State() == Flush(old(State()), order)
      ensures !ok ==> State() == old(State())
    {
      var batch;
      ok, batch := batcher.ProcessBatch();
      if ok {
        DispatchBatch(batch, order);
      }
    }
  }
}
