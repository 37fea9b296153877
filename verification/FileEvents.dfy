/** The vocabulary of pkg/util/watcher: raw inotify events and the updates made from them. */
module FileEvents {

  datatype NotifyKind = InDelete | InCloseWrite | InMovedFrom | InMovedTo

  /** A raw inotify event. Both halves of one rename carry the same cookie. */
  datatype Notify = Notify(kind: NotifyKind, path: string, cookie: nat, isDir: bool)

  datatype FileEvent = EventNone | EventModify | EventDelete | EventMove

  datatype FileUpdate = FileUpdate(event: FileEvent, path: string)

  predicate IsRename(e: Notify) {
    e.kind == InMovedFrom || e.kind == InMovedTo
  }

  /** The event map: rename halves have no entry and convert to NONE. */
  function ConvertEvent(kind: NotifyKind): FileEvent {
    match kind
    case InDelete => EventDelete
    case InCloseWrite => EventModify
    case _ => EventNone
  }

  function ConvertUpdate(e: Notify): FileUpdate
    requires !IsRename(e)
  {
    FileUpdate(ConvertEvent(e.kind), e.path)
  }

  /** The events of a sequence that concern one path, in order. */
  function ForPath(events: seq<Notify>, path: string): seq<Notify> {
    if events == [] then []
    else (if events[0].path == path then [events[0]] else []) + ForPath(events[1..], path)
  }

  /** The events of a sequence that are rename halves, in order. */
  function Renames(events: seq<Notify>): seq<Notify> {
    if events == [] then []
    else (if IsRename(events[0]) then [events[0]] else []) + Renames(events[1..])
  }

  lemma {:induction false} ForPathConcat(a: seq<Notify>, b: seq<Notify>, path: string)
    ensures ForPath(a + b, path) == ForPath(a, path) + ForPath(b, path)
  {
    if a == [] {
      assert a + b == b;
    } else {
      var rest := a[1..] + b;
      assert (a + b)[1..] == rest && (a + b)[0] == a[0];
      ForPathConcat(a[1..], b, path);
      var head := if a[0].path == path then [a[0]] else [];
      assert ForPath(a, path) == head + ForPath(a[1..], path);
      assert ForPath(a + b, path) == head + ForPath(rest, path);
    }
  }

  lemma {:induction false} RenamesConcat(a: seq<Notify>, b: seq<Notify>)
    ensures Renames(a + b) == Renames(a) + Renames(b)
  {
    if a == [] {
      assert a + b == b;
    } else {
      var rest := a[1..] + b;
      assert (a + b)[1..] == rest && (a + b)[0] == a[0];
      RenamesConcat(a[1..], b);
      var head := if IsRename(a[0]) then [a[0]] else [];
      assert Renames(a) == head + Renames(a[1..]);
      assert Renames(a + b) == head + Renames(rest);
    }
  }

  /** Whether the file is present after an event of the given kind. */
  predicate PresentAfter(kind: NotifyKind) {
    kind == InCloseWrite || kind == InMovedTo
  }

  /** Whether a file is present after a list of its events, given whether it was before. */
  predicate Replay(present: bool, events: seq<Notify>)
    decreases |events|
  {
    if events == [] then present else Replay(PresentAfter(events[0].kind), events[1..])
  }

  /** Only the last event decides. */
  lemma {:induction false} ReplayLast(present: bool, events: seq<Notify>)
    ensures Replay(present, events)
            == if events == [] then present else PresentAfter(events[|events| - 1].kind)
    ensures Replay(present, events)
            <==> if events == [] then present
                 else events[|events| - 1].kind == InCloseWrite || events[|events| - 1].kind == InMovedTo
    decreases |events|
  {
    if |events| > 1 {
      ReplayLast(PresentAfter(events[0].kind), events[1..]);
    }
  }
}
