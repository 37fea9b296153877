/** pkg/storage/mappedrawstorage.go: storage over a flat directory, through the path index. */
module MappedStorage {
  import opened Common
  import opened PathIndex

  datatype Error = ErrNotTracked | ErrNotFound | ErrAlreadyExists | ErrIO | ErrOther

  /** The outcome of an operation: nil, or an error. */
  type Err = Option<Error>

  /** The directory on disk, shared by everything that reads or writes it. */
  class Disk {
    var files: Tree
    constructor (files: Tree)
      ensures this.files == files
    {
      this.files := files;
    }
  }

  /** `path` is what ranging over the index finds for `key`'s reverse lookup: some key bound to
      the path, or none if there is none. Which one is not determined when there are several. */
  ghost predicate IsLookup(index: Index, path: string, found: Option<ObjectKey>) {
    match found
    case None => forall k | k in index :: index[k] != path
    case Some(k) => k in index && index[k] == path
  }

  /** Whether the operating system carries out a call is up to `io`. */
  class MappedRawStorage {
    const disk: Disk
    var fileMappings: Index

    constructor (disk: Disk)
      ensures this.disk == disk && fileMappings == map[]
    {
      this.disk := disk;
      fileMappings := map[];
    }

    method RealPath(key: ObjectKey) returns (path: string, err: Err)
      ensures err == if key in fileMappings then None else Some(ErrNotTracked)
      ensures err == None ==> path == fileMappings[key]
    {
      if key !in fileMappings {
        return "", Some(ErrNotTracked);
      }
      return fileMappings[key], None;
    }

    method Read(key: ObjectKey, io: bool) returns (content: Option<Content>, err: Err)
      ensures key !in fileMappings ==> err == Some(ErrNotTracked)
      ensures key in fileMappings ==> err == if fileMappings[key] in disk.files && io then None else Some(ErrIO)
      ensures err == None <==> content.Some?
      ensures err == None ==> content.value == disk.files[fileMappings[key]]
    {
      var file;
      file, err := RealPath(key);
      if err != None {
        return None, err;
      }
      if file in disk.files && io {
        return Some(disk.files[file]), None;
      }
      return None, Some(ErrIO);
    }

    method Exists(key: ObjectKey) returns (exists_: bool)
      ensures exists_ == (key in fileMappings && fileMappings[key] in disk.files)
    {
      var file, err := RealPath(key);
      if err != None {
        return false;
      }
      return file in disk.files;
    }

    /** Only writes files that are already known, so the index stays as it is. */
    method Write(key: ObjectKey, content: Content, io: bool) returns (err: Err)
      modifies disk
      ensures err == if key !in fileMappings then Some(ErrNotTracked) else if io then None else Some(ErrIO)
      ensures disk.files == if err == None then old(disk.files)[fileMappings[key] := content] else old(disk.files)
    {
      var file;
      file, err := RealPath(key);
      if err != None {
        return;
      }
      if !io {
        return Some(ErrIO);
      }
      disk.files := disk.files[file := content];
      return None;
    }

    /** Removes the file if it is there, and then the mapping. */
    method Delete(key: ObjectKey, io: bool) returns (err: Err)
      modifies this, disk
      ensures key !in old(fileMappings) ==>
                err == Some(ErrNotTracked) && fileMappings == old(fileMappings) && disk.files == old(disk.files)
      ensures key in old(fileMappings) ==>
                var file := old(fileMappings)[key];
                if file in old(disk.files) && !io
                then err == Some(ErrIO) && fileMappings == old(fileMappings) && disk.files == old(disk.files)
                else && err == None
                     && fileMappings == old(fileMappings) - {key}
                     && disk.files == old(disk.files) - {file}
    {
      var file;
      file, err := RealPath(key);
      if err != None {
        return;
      }
      if file in disk.files {
        if io {
          disk.files := disk.files - {file};
        } else {
          err := Some(ErrIO);
        }
      }
      if err == None {
        RemoveMapping(key);
      }
    }

    /** Keys of the same group and kind, whatever the version, each once. */
    method List(kind: ObjectKey) returns (result: seq<ObjectKey>)
      ensures forall k :: k in result <==> k in fileMappings && k.kind == kind.kind && k.group == kind.group
      ensures forall i, j | 0 <= i < j < |result| :: result[i] != result[j]
    {
      result := [];
      var keys := fileMappings.Keys;
      while keys != {}
        invariant keys <= fileMappings.Keys
        invariant forall k ::
                    k in result <==> k in fileMappings && k !in keys && k.kind == kind.kind && k.group == kind.group
        invariant forall i, j | 0 <= i < j < |result| :: result[i] != result[j]
        decreases keys
      {
        var k :| k in keys;
        keys := keys - {k};
        if k.kind == kind.kind && k.group == kind.group {
          result := result + [k];
        }
      }
    }

    /** Ranges over the index for a key bound to the path. */
    method GetKey(path: string) returns (found: Option<ObjectKey>)
      ensures IsLookup(fileMappings, path, found)
    {
      var keys := fileMappings.Keys;
      while keys != {}
        invariant keys <= fileMappings.Keys
        invariant forall k | k in fileMappings && fileMappings[k] == path :: k in keys
        decreases keys
      {
        var k :| k in keys;
        if fileMappings[k] == path {
          return Some(k);
        }
        keys := keys - {k};
      }
      return None;
    }

    method AddMapping(key: ObjectKey, path: string)
      modifies this
      ensures fileMappings == old(fileMappings)[key := path]
    {
      fileMappings := fileMappings[key := path];
    }

    method RemoveMapping(key: ObjectKey)
      modifies this
      ensures fileMappings == old(fileMappings) - {key}
    {
      fileMappings := fileMappings - {key};
    }

    method SetMappings(m: Index)
      modifies this
      ensures fileMappings == m
    {
      fileMappings := m;
    }
  }
}
