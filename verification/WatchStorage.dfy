/**
 pkg/storage/watch/storage.go: the monitor that turns file updates into changes of the path
 index and events for a subscriber.
 */
module WatchStorage {
  import opened Common
  import opened FileEvents
  import opened PathIndex
  import opened MappedStorage

  datatype ObjectEvent = ObjectCreate | ObjectModify | ObjectDelete

  /** The object of an event. That of a DELETE is a stand-in, since the file is gone: it has the type
      of the object and a fixed name, no namespace, and the identifier in its UID. */
  datatype Partial =
    | Itself(key: ObjectKey)
    | StandIn(group: string, version: string, kind: string, name: string, uid: string)

  const EVENT_DELETE_OBJECT_NAME := "<deleted>"

  function Deleted(k: ObjectKey): Partial {
    StandIn(k.group, k.version, k.kind, EVENT_DELETE_OBJECT_NAME, k.id)
  }

  /** An event sent to the subscriber. */
  datatype Update = Update(event: ObjectEvent, obj: Partial)

  /** Identification by namespace and name, the default: an object without a namespace has none. */
  function IdentifyByName(o: Partial): Option<ObjectKey> {
    match o
    case Itself(key) => Some(key)
    case StandIn(_, _, _, _, _) => None
  }

  /** The key of an event's object for a subscriber that reads the UID of a DELETE. */
  function KeyOfUpdate(u: Update): ObjectKey {
    match u.obj
    case Itself(key) => key
    case StandIn(group, version, kind, _, uid) => ObjectKey(group, version, kind, uid)
  }

  /** What handling one file update does. */
  datatype Outcome = Outcome(index: Index, sent: seq<Update>)

  /** The decisions for one file update. The file is read now, from the disk as it is now. */
  function Handle(index: Index, disk: Tree, u: FileUpdate, found: Option<ObjectKey>): Outcome {
    if u.event == EventDelete then
      match found
      case None => Outcome(index, [])
      case Some(k) => Outcome(index - {k}, [Update(ObjectDelete, Deleted(k))])
    else
      match KeyAt(disk, u.path)
      case None => Outcome(index, [])
      case Some(k) =>
        if u.event == EventMove then Outcome(index[k := u.path], [])
        else if found.None? then Outcome(index[k := u.path], [Update(ObjectCreate, Itself(k))])
        else Outcome(index, if u.event == EventModify then [Update(ObjectModify, Itself(k))] else [])
  }

  /** A DELETE is of the key that was mapped to the path, which only its UID tells; all other events
      are of the key in the file, and those can be identified by name. */
  lemma WhatEventsTell(index: Index, disk: Tree, u: FileUpdate, found: Option<ObjectKey>)
    requires IsLookup(index, u.path, found)
    ensures forall e | e in Handle(index, disk, u, found).sent ::
              && (e.event == ObjectDelete <==> u.event == EventDelete)
              && (if e.event == ObjectDelete
                  then KeyOfUpdate(e) in index && index[KeyOfUpdate(e)] == u.path
                  else KeyAt(disk, u.path) == Some(KeyOfUpdate(e)))
              && IdentifyByName(e.obj) == if e.event == ObjectDelete then None else Some(KeyOfUpdate(e))
  {}

  /** The MODIFY events for the files found at the start, in their order. */
  function InitialEvents(files: seq<string>, disk: Tree): seq<Update> {
    if files == [] then []
    else
      var p := files[|files| - 1];
      InitialEvents(files[..|files| - 1], disk)
      + match KeyAt(disk, p) { case None => [] case Some(k) => [Update(ObjectModify, Itself(k))] }
  }

  /** There is one event for every file that holds an object, and they come in the order of the files. */
  lemma {:induction false} InitialEventsAre(a: seq<string>, p: string, b: seq<string>, disk: Tree)
    ensures InitialEvents([], disk) == []
    ensures InitialEvents([p], disk) == if p in disk && disk[p].Object?
                                        then [Update(ObjectModify, Itself(disk[p].key))] else []
    ensures InitialEvents(a + b, disk) == InitialEvents(a, disk) + InitialEvents(b, disk)
  {
    assert InitialEvents([p][..0], disk) == [];
    if b == [] {
      assert a + b == a;
    } else {
      assert (a + b)[..|a + b| - 1] == a + b[..|b| - 1];
      InitialEventsAre(a, p, b[..|b| - 1], disk);
    }
  }

  class Monitoring {
    const raw: MappedRawStorage
    var attached: bool
    var events: seq<Update>

    constructor (raw: MappedRawStorage)
      ensures this.raw == raw && events == [] && !attached
    {
      this.raw := raw;
      attached, events := false, [];
    }

    method SetUpdateStream()
      modifies this`attached
      ensures attached
    {
      attached := true;
    }

    /** Nothing is sent while there is no stream to send to. */
    method SendEvent(event: ObjectEvent, obj: Partial)
      modifies this`events
      ensures events == old(events) + if attached then [Update(event, obj)] else []
    {
      if attached {
        events := events + [Update(event, obj)];
      }
    }

    /** Registers the files found before monitoring starts. */
    method RegisterFiles(files: seq<string>)
      requires raw.fileMappings == map[]
      modifies this`events, raw
      ensures raw.fileMappings == MappingsOf(files, raw.disk.files)
      ensures events == old(events) + if attached then InitialEvents(files, raw.disk.files) else []
    {
      for i := 0 to |files|
        invariant raw.fileMappings == MappingsOf(files[..i], raw.disk.files)
        invariant events == old(events) + if attached then InitialEvents(files[..i], raw.disk.files) else []
      {
        var file := files[i];
        assert files[..i + 1][..i] == files[..i];
        if file !in raw.disk.files {
          continue;
        }
        var content := raw.disk.files[file];
        if content.Malformed? {
          continue;
        }
        raw.AddMapping(content.key, file);
        SendEvent(ObjectModify, Itself(content.key));
      }
      assert files[..|files|] == files;
    }

    /** One iteration of the monitoring loop; returns what the reverse lookup found, if it was made. */
    method HandleOne(event: FileUpdate) returns (ghost found: Option<ObjectKey>)
      modifies this`events, raw
      ensures IsLookup(old(raw.fileMappings), event.path, found)
      ensures var out := Handle(old(raw.fileMappings), raw.disk.files, event, found);
              raw.fileMappings == out.index && events == old(events) + if attached then out.sent else []
      ensures event.event == EventDelete ==>
                if found.None? then raw.fileMappings == old(raw.fileMappings) && events == old(events)
                else
                  var k := found.value;
                  && raw.fileMappings == old(raw.fileMappings) - {k}
                  && events == old(events)
                               + if !attached then []
                                 else [Update(ObjectDelete, StandIn(k.group, k.version, k.kind, "<deleted>", k.id))]
      ensures event.event != EventDelete && !(event.path in raw.disk.files && raw.disk.files[event.path].Object?) ==>
                raw.fileMappings == old(raw.fileMappings) && events == old(events)
      ensures event.event != EventDelete && event.path in raw.disk.files && raw.disk.files[event.path].Object? ==>
                var k := raw.disk.files[event.path].key;
                && raw.fileMappings == (if event.event == EventMove || found.None?
                                        then old(raw.fileMappings)[k := event.path] else old(raw.fileMappings))
                && events == old(events)
                             + if !attached || event.event == EventMove then []
                               else if found.None? then [Update(ObjectCreate, Itself(k))]
                               else if event.event == EventModify then [Update(ObjectModify, Itself(k))] else []
    {
      var lookup := raw.GetKey(event.path);
      found := lookup;
      if event.event == EventDelete {
        if lookup.None? {
          return;
        }
        raw.RemoveMapping(lookup.value);
        SendEvent(ObjectDelete, Deleted(lookup.value));
        return;
      }
      if event.path !in raw.disk.files {
        return;
      }
      var content := raw.disk.files[event.path];
      if content.Malformed? {
        return;
      }
      if event.event == EventMove {
        raw.AddMapping(content.key, event.path);
        return;
      }
      if lookup.None? {
        raw.AddMapping(content.key, event.path);
        SendEvent(ObjectCreate, Itself(content.key));
      } else if event.event == EventModify {
        SendEvent(ObjectModify, Itself(content.key));
      }
    }
  }
}
