/** pkg/storage/storage.go: the operations on objects, over a storage that goes through the index. */
module ObjectStorage {
  import opened Common
  import opened PathIndex
  import opened MappedStorage

  /** An operation of a transaction's function, with what the encoder, the patcher and the operating
      system make of it. A None key is an object that cannot be identified. */
  datatype Op =
    | OpRead(key: ObjectKey, io: bool, decodes: bool)
    | OpCreate(obj: Option<ObjectKey>, encoded: Option<Content>, io: bool)
    | OpUpdate(obj: Option<ObjectKey>, encoded: Option<Content>, io: bool)
    | OpPatch(key: ObjectKey, readable: bool, patched: Option<Content>, io: bool)
    | OpDelete(key: ObjectKey, io: bool)

  /** Where an object's file is, if the index knows it and it is there. */
  predicate Stored(index: Index, files: Tree, key: ObjectKey) {
    key in index && index[key] in files
  }

  /** The same kind and group, whatever the version. */
  predicate OfKind(key: ObjectKey, kind: ObjectKey) {
    key.kind == kind.kind && key.group == kind.group
  }

  class GenericStorage {
    const raw: MappedRawStorage

    constructor (raw: MappedRawStorage)
      ensures this.raw == raw
    {
      this.raw := raw;
    }

    method Get(key: ObjectKey, io: bool, decodes: bool) returns (content: Option<Content>, err: Err)
      ensures err == None <==> Stored(raw.fileMappings, raw.disk.files, key) && io && decodes
      ensures content == if err == None then Some(raw.disk.files[raw.fileMappings[key]]) else None
    {
      content, err := raw.Read(key, io);
      if err == None && !decodes {
        content, err := None, Some(ErrOther);
      }
    }

    /** The encoded object goes to the storage underneath. */
    method Write(key: ObjectKey, encoded: Option<Content>, io: bool) returns (err: Err)
      modifies raw.disk
      ensures err == None <==> encoded.Some? && key in raw.fileMappings && io
      ensures raw.disk.files == if err == None
                                then old(raw.disk.files)[raw.fileMappings[key] := encoded.value]
                                else old(raw.disk.files)
    {
      if encoded == None {
        return Some(ErrOther);
      }
      err := raw.Write(key, encoded.value, io);
    }

    /** Only an object with no file yet can be created; and since the storage underneath makes up no
        paths, only one whose path is already known. */
    method Create(obj: Option<ObjectKey>, encoded: Option<Content>, io: bool) returns (err: Err)
      modifies raw.disk
      ensures err == None <==>
              && obj.Some? && encoded.Some? && io
              && obj.value in raw.fileMappings && raw.fileMappings[obj.value] !in old(raw.disk.files)
      ensures raw.disk.files == if err == None
                                then old(raw.disk.files)[raw.fileMappings[obj.value] := encoded.value]
                                else old(raw.disk.files)
    {
      if obj == None {
        return Some(ErrOther);
      }
      var there := raw.Exists(obj.value);
      if there {
        return Some(ErrAlreadyExists);
      }
      err := Write(obj.value, encoded, io);
    }

    method Update(obj: Option<ObjectKey>, encoded: Option<Content>, io: bool) returns (err: Err)
      modifies raw.disk
      ensures err == None <==>
              obj.Some? && encoded.Some? && io && Stored(raw.fileMappings, old(raw.disk.files), obj.value)
      ensures raw.disk.files == if err == None
                                then old(raw.disk.files)[raw.fileMappings[obj.value] := encoded.value]
                                else old(raw.disk.files)
    {
      if obj == None {
        return Some(ErrOther);
      }
      var there := raw.Exists(obj.value);
      if !there {
        return Some(ErrNotFound);
      }
      err := Write(obj.value, encoded, io);
    }

    method Patch(key: ObjectKey, readable: bool, patched: Option<Content>, io: bool) returns (err: Err)
      modifies raw.disk
      ensures err == None <==> readable && patched.Some? && io && Stored(raw.fileMappings, old(raw.disk.files), key)
      ensures raw.disk.files == if err == None then old(raw.disk.files)[raw.fileMappings[key] := patched.value]
                                else old(raw.disk.files)
    {
      var content;
      content, err := raw.Read(key, readable);
      if err != None {
        return;
      }
      if patched == None {
        return Some(ErrOther);
      }
      err := raw.Write(key, patched.value, io);
    }

    method Delete(key: ObjectKey, io: bool) returns (err: Err)
      modifies raw, raw.disk
      ensures err == None <==>
              key in old(raw.fileMappings) && (io || old(raw.fileMappings)[key] !in old(raw.disk.files))
      ensures key !in old(raw.fileMappings) ==> err == Some(ErrNotTracked)
      ensures err == None ==>
                && raw.fileMappings == old(raw.fileMappings) - {key}
                && raw.disk.files == old(raw.disk.files) - {old(raw.fileMappings)[key]}
      ensures err != None ==> raw.fileMappings == old(raw.fileMappings) && raw.disk.files == old(raw.disk.files)
    {
      err := raw.Delete(key, io);
    }

    /** Visits the objects of a kind whose files are there, with their contents, until reading one
        or visiting it fails. A listed key without its file is skipped. */
    method WalkKind(kind: ObjectKey, fails: set<ObjectKey>) returns (visited: map<ObjectKey, Content>, err: Err)
      ensures err == None <==> forall k | OfKind(k, kind) && Stored(raw.fileMappings, raw.disk.files, k) :: k !in fails
      ensures err == None ==>
                forall k | OfKind(k, kind) && Stored(raw.fileMappings, raw.disk.files, k) :: k in visited
      ensures forall k | k in visited ::
                && OfKind(k, kind) && Stored(raw.fileMappings, raw.disk.files, k) && k !in fails
                && visited[k] == raw.disk.files[raw.fileMappings[k]]
    {
      visited := map[];
      var keys := raw.List(kind);
      for i := 0 to |keys|
        invariant forall k | k in keys[..i] && Stored(raw.fileMappings, raw.disk.files, k) :: k in visited
        invariant forall k | k in visited ::
                    && OfKind(k, kind) && Stored(raw.fileMappings, raw.disk.files, k) && k !in fails
                    && visited[k] == raw.disk.files[raw.fileMappings[k]]
      {
        assert keys[..i + 1] == keys[..i] + [keys[i]];
        assert keys[i] in keys;
        var there := raw.Exists(keys[i]);
        if there {
          var content;
          content, err := raw.Read(keys[i], keys[i] !in fails);
          if err != None {
            return;
          }
          visited := visited[keys[i] := content.value];
        }
      }
      assert keys[..|keys|] == keys;
      err := None;
    }

    /** The operations of a function, one after another; it may go on after errors. */
    method Perform(ops: seq<Op>)
      modifies raw, raw.disk
      ensures Stores(raw.fileMappings, raw.disk.files) == DoAll(Stores(old(raw.fileMappings), old(raw.disk.files)), ops)
    {
      ghost var before := Stores(raw.fileMappings, raw.disk.files);
      for i := 0 to |ops|
        invariant Stores(raw.fileMappings, raw.disk.files) == DoAll(before, ops[..i])
      {
        assert ops[..i + 1][..i] == ops[..i];
        PerformOne(ops[i]);
      }
      assert ops[..|ops|] == ops;
    }

    method PerformOne(op: Op)
      modifies raw, raw.disk
      ensures Stores(raw.fileMappings, raw.disk.files) == Do(Stores(old(raw.fileMappings), old(raw.disk.files)), op)
    {
      match op
      case OpRead(key, io, decodes) =>
        var content, err := Get(key, io, decodes);
      case OpCreate(obj, encoded, io) =>
        var err := Create(obj, encoded, io);
      case OpUpdate(obj, encoded, io) =>
        var err := Update(obj, encoded, io);
      case OpPatch(key, readable, patched, io) =>
        var err := Patch(key, readable, patched, io);
      case OpDelete(key, io) =>
        var err := Delete(key, io);
    }
  }

  // ------------------------------------------------------------------ what operations do

  datatype Stores = Stores(index: Index, files: Tree)

  /** Puts content in the file of a key, if the file is there just when it should be. */
  function PutFile(s: Stores, key: Option<ObjectKey>, content: Option<Content>, io: bool, there: bool): Stores {
    if key.Some? && content.Some? && io && key.value in s.index && (s.index[key.value] in s.files <==> there)
    then s.(files := s.files[s.index[key.value] := content.value]) else s
  }

  function Do(s: Stores, op: Op): Stores {
    match op
    case OpRead(_, _, _) => s
    case OpCreate(obj, encoded, io) => PutFile(s, obj, encoded, io, false)
    case OpUpdate(obj, encoded, io) => PutFile(s, obj, encoded, io, true)
    case OpPatch(key, readable, patched, io) => PutFile(s, Some(key), patched, readable && io, true)
    case OpDelete(key, io) =>
      if key in s.index && (io || s.index[key] !in s.files)
      then Stores(s.index - {key}, s.files - {s.index[key]}) else s
  }

  function DoAll(s: Stores, ops: seq<Op>): Stores {
    if ops == [] then s else Do(DoAll(s, ops[..|ops| - 1]), ops[|ops| - 1])
  }

  function DeletedKeys(ops: seq<Op>): set<ObjectKey> {
    if ops == [] then {}
    else DeletedKeys(ops[..|ops| - 1]) + if ops[|ops| - 1].OpDelete? then {ops[|ops| - 1].key} else {}
  }

  /** One index is the other without some of the mappings of `keys`. */
  ghost predicate LosesAtMost(before: Index, after: Index, keys: set<ObjectKey>) {
    && (forall k | k in after :: k in before && after[k] == before[k])
    && (forall k | k in before && k !in keys :: k in after)
  }

  /** Operations cost the index at most the keys deleted and bind no key anew, and no file changes
      but those of mapped keys. */
  lemma {:induction false} OperationsStayMapped(s: Stores, ops: seq<Op>)
    ensures LosesAtMost(s.index, DoAll(s, ops).index, DeletedKeys(ops))
    ensures forall p | p !in s.index.Values ::
              && (p in DoAll(s, ops).files <==> p in s.files)
              && (p in s.files ==> DoAll(s, ops).files[p] == s.files[p])
  {
    if ops != [] {
      var front := ops[..|ops| - 1];
      OperationsStayMapped(s, front);
      var mid := DoAll(s, front);
      assert forall k | k in mid.index :: mid.index[k] == s.index[k] && s.index[k] in s.index.Values;
    }
  }

  // ------------------------------------------------------------------ what a list of operations leaves

  /** The operation puts content at a path: a create where there is no file yet, an update or a patch
      where there is one. */
  predicate Puts(s: Stores, op: Op, path: string, content: Content) {
    match op
    case OpCreate(obj, encoded, io) =>
      && obj.Some? && encoded == Some(content) && io
      && obj.value in s.index && s.index[obj.value] == path && path !in s.files
    case OpUpdate(obj, encoded, io) =>
      && obj.Some? && encoded == Some(content) && io
      && obj.value in s.index && s.index[obj.value] == path && path in s.files
    case OpPatch(key, readable, patched, io) =>
      && readable && patched == Some(content) && io
      && key in s.index && s.index[key] == path && path in s.files
    case _ => false
  }

  /** The operation removes the mapping of a key; the file must be gone by then, or go with it. */
  predicate Drops(s: Stores, op: Op, key: ObjectKey) {
    op.OpDelete? && op.key == key && key in s.index && (s.index[key] in s.files ==> op.io)
  }

  /** The operation changes what is at the path. */
  ghost predicate Alters(s: Stores, op: Op, path: string) {
    || (exists content :: Puts(s, op, path, content))
    || (op.OpDelete? && Drops(s, op, op.key) && s.index[op.key] == path)
  }

  /** From the operation at `from` on, none changes what is at the path. */
  ghost predicate LeftAlone(s: Stores, ops: seq<Op>, path: string, from: nat) {
    forall j | from <= j < |ops| :: !Alters(DoAll(s, ops[..j]), ops[j], path)
  }

  /** The operation at `i` is the last to change what is at the path, and it puts the content there. */
  ghost predicate PutLast(s: Stores, ops: seq<Op>, path: string, content: Content, i: nat) {
    i < |ops| && Puts(DoAll(s, ops[..i]), ops[i], path, content) && LeftAlone(s, ops, path, i + 1)
  }

  predicate KeepsAt(files: Tree, path: string, content: Content) {
    path in files && files[path] == content
  }

  lemma OneOperation(s: Stores, op: Op, path: string, content: Content)
    ensures KeepsAt(Do(s, op).files, path, content)
            <==> Puts(s, op, path, content) || (KeepsAt(s.files, path, content) && !Alters(s, op, path))
  {
    if Puts(s, op, path, content) {
    } else if Alters(s, op, path) {
      if other :| Puts(s, op, path, other) {
        assert Do(s, op).files[path] == other;
      }
    } else {
      match op
      case OpCreate(obj, encoded, io) => assert encoded.Some? ==> !Puts(s, op, path, encoded.value);
      case OpUpdate(obj, encoded, io) => assert encoded.Some? ==> !Puts(s, op, path, encoded.value);
      case OpPatch(key, readable, patched, io) => assert patched.Some? ==> !Puts(s, op, path, patched.value);
      case _ =>
    }
  }

  lemma LeftAloneOneMore(s: Stores, ops: seq<Op>, path: string, from: nat)
    requires ops != [] && from <= |ops| - 1
    ensures LeftAlone(s, ops, path, from)
            <==> && LeftAlone(s, ops[..|ops| - 1], path, from)
                 && !Alters(DoAll(s, ops[..|ops| - 1]), ops[|ops| - 1], path)
  {
    var front := ops[..|ops| - 1];
    assert forall j | from <= j < |front| :: ops[..j] == front[..j] && ops[j] == front[j];
  }

  lemma PutLastOneMore(s: Stores, ops: seq<Op>, path: string, content: Content, i: nat)
    requires ops != []
    ensures var front, last := ops[..|ops| - 1], ops[|ops| - 1];
            PutLast(s, ops, path, content, i)
            <==> if i == |front| then Puts(DoAll(s, front), last, path, content)
                 else PutLast(s, front, path, content, i) && !Alters(DoAll(s, front), last, path)
  {
    var front := ops[..|ops| - 1];
    if i < |front| {
      assert ops[..i] == front[..i] && ops[i] == front[i];
      LeftAloneOneMore(s, ops, path, i + 1);
    }
  }

  /** A file is, in the end, as the last operation that changed it left it, or as it was at first. */
  lemma {:induction false} FilesAfter(s: Stores, ops: seq<Op>, path: string, content: Content)
    ensures KeepsAt(DoAll(s, ops).files, path, content)
            <==> || (exists i: nat :: PutLast(s, ops, path, content, i))
                 || (path in s.files && s.files[path] == content && LeftAlone(s, ops, path, 0))
  {
    if ops != [] {
      var front, last := ops[..|ops| - 1], ops[|ops| - 1];
      var mid := DoAll(s, front);
      FilesAfter(s, front, path, content);
      OneOperation(mid, last, path, content);
      LeftAloneOneMore(s, ops, path, 0);
      forall i: nat
        ensures PutLast(s, ops, path, content, i)
                <==> if i == |front| then Puts(mid, last, path, content)
                     else PutLast(s, front, path, content, i) && !Alters(mid, last, path)
      {
        PutLastOneMore(s, ops, path, content, i);
      }
      if Puts(mid, last, path, content) {
        assert PutLast(s, ops, path, content, |front|);
      }
    }
  }

  lemma OneMapping(s: Stores, op: Op, key: ObjectKey)
    ensures key in Do(s, op).index <==> key in s.index && !Drops(s, op, key)
    ensures key in Do(s, op).index ==> Do(s, op).index[key] == s.index[key]
  {}

  /** A mapping is lost just by a delete that succeeds, and none is changed or added. */
  lemma {:induction false} MappingsAfter(s: Stores, ops: seq<Op>, key: ObjectKey)
    ensures key in DoAll(s, ops).index
            <==> key in s.index && forall j | 0 <= j < |ops| :: !Drops(DoAll(s, ops[..j]), ops[j], key)
    ensures key in DoAll(s, ops).index ==> DoAll(s, ops).index[key] == s.index[key]
  {
    if ops != [] {
      var front, last := ops[..|ops| - 1], ops[|ops| - 1];
      MappingsAfter(s, front, key);
      OneMapping(DoAll(s, front), last, key);
      assert forall j | 0 <= j < |front| :: ops[..j] == front[..j] && ops[j] == front[j];
    }
  }
}
