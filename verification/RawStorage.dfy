/** pkg/storage/rawstorage.go: one file per object, <dir>/<kind>/<identifier>/metadata<ext>. */
module RawStorage {
  import opened Common
  import opened FileTree
  import opened Paths

  datatype StorageError = ErrUnsupported | ErrNotFound | ErrOS

  /** Where the storage lives, and the file extension of its objects. */
  datatype Place = Place(dir: string, ext: string)

  ghost predicate GoodPlace(p: Place) {
    NoSlash(p.ext)
  }

  /** The address of the base directory. */
  function Top(p: Place): FileTree.Address {
    Paths.Address(Rooted(p.dir), Base(p.dir))
  }

  function KindDir(p: Place, kind: string): FileTree.Address {
    Top(p) + [kind]
  }

  /** The address of an object's file. */
  function FileOf(p: Place, k: KindAndId): FileTree.Address {
    Top(p) + [k.kind, k.id, MetadataName(p.ext)]
  }

  predicate Named(k: KindAndId) {
    IsName(k.kind) && IsName(k.id)
  }

  lemma FileOfKeyPath(p: Place, k: KindAndId)
    requires GoodPlace(p) && Named(k)
    ensures Split(KeyPath(p.dir, p.ext, k.kind, k.id)) == FileOf(p, k)
  {
    KeyPathForm(p.dir, p.ext, k.kind, k.id);
    var tail := [k.kind, k.id, MetadataName(p.ext)];
    assert Paths.Address(Rooted(p.dir), Base(p.dir) + tail) == Paths.Address(Rooted(p.dir), Base(p.dir)) + tail;
  }

  // ------------------------------------------------------------------ the map it stands for

  /** The key whose file is at an address below the base directory, if it has that shape. */
  predicate IsObjectFile(p: Place, a: FileTree.Address) {
    Top(p) <= a && |a| == |Top(p)| + 3 && a[|a| - 1] == MetadataName(p.ext)
  }

  function KeyOf(p: Place, a: FileTree.Address): KindAndId
    requires IsObjectFile(p, a)
  {
    KindAndId(a[|Top(p)|], a[|Top(p)| + 1])
  }

  /** The objects in the tree, by key. */
  function Contents(p: Place, t: Dir): map<KindAndId, string> {
    map k | k in (set a | a in t.files && IsObjectFile(p, a) :: KeyOf(p, a)) && FileOf(p, k) in t.files ::
      t.files[FileOf(p, k)]
  }

  lemma ContentsAt(p: Place, t: Dir, k: KindAndId)
    ensures k in Contents(p, t) <==> FileOf(p, k) in t.files
    ensures k in Contents(p, t) ==> Contents(p, t)[k] == t.files[FileOf(p, k)]
  {
    var a := FileOf(p, k);
    assert IsObjectFile(p, a) && KeyOf(p, a) == k;
  }

  lemma FileOfInjective(p: Place, k: KindAndId, k': KindAndId)
    requires FileOf(p, k) == FileOf(p, k')
    ensures k == k'
  {
    var n, a, b := |Top(p)|, FileOf(p, k), FileOf(p, k');
    assert a[n] == k.kind && a[n + 1] == k.id && b[n] == k'.kind && b[n + 1] == k'.id;
  }

  /** Below the base directory there are only kind directories, object directories with their
      file, and those files, each with its directories; and no file blocks the way there. */
  ghost predicate Tidy(p: Place, t: Dir) {
    var n := |Top(p)|;
    && (forall i | 0 <= i <= n :: Top(p)[..i] !in t.files)
    && (forall a | a in t.files && Top(p) <= a ::
          IsObjectFile(p, a) && Named(KeyOf(p, a)) && Parent(a) in t.dirs && Parent(Parent(a)) in t.dirs)
    && (forall a | a in t.dirs && Top(p) <= a ::
          |a| <= n + 2 && (|a| == n + 2 ==> a + [MetadataName(p.ext)] in t.files))
  }

  // ------------------------------------------------------------------ the operations

  lemma Shapes(p: Place, k: KindAndId)
    ensures var a := FileOf(p, k);
            && Parent(a) == Top(p) + [k.kind, k.id] && Parent(Parent(a)) == KindDir(p, k.kind)
            && Top(p) <= a && a == Parent(a) + [MetadataName(p.ext)]
  {
    var a := FileOf(p, k);
    assert Parent(Parent(a)) == KindDir(p, k.kind);
  }

  /** What writing an object does to the tree. */
  function Put(p: Place, t: Dir, k: KindAndId, content: string): Dir {
    var a := FileOf(p, k);
    WriteFile(if a in t.files then t else MkdirAll(t, Parent(a)), a, content)
  }

  lemma PrefixOfObjectDir(p: Place, k: KindAndId, i: nat)
    requires i <= |Top(p)| + 2
    ensures var d := Top(p) + [k.kind, k.id];
            && (i <= |Top(p)| ==> d[..i] == Top(p)[..i])
            && (i == |Top(p)| + 1 ==> d[..i] == KindDir(p, k.kind))
            && (i == |Top(p)| + 2 ==> d[..i] == d)
  {}

  lemma PutPossible(p: Place, t: Dir, k: KindAndId)
    requires Tidy(p, t)
    ensures var a := FileOf(p, k);
            && (a !in t.files ==> CanMkdirAll(t, Parent(a)))
            && CanWriteFile(if a in t.files then t else MkdirAll(t, Parent(a)), a)
  {
    var a := FileOf(p, k);
    Shapes(p, k);
    forall i | 0 <= i <= |Parent(a)|
      ensures Parent(a)[..i] !in t.files
    {
      PrefixOfObjectDir(p, k, i);
      if i > |Top(p)| {
        assert Top(p) <= Parent(a)[..i];
      }
    }
    var d := Parent(a);
    assert d[..|d|] == d;
    assert d in MkdirAll(t, d).dirs;
    assert a !in t.dirs;
    assert forall i | 0 <= i <= |d| :: |d[..i]| < |a|;
  }

  /** A directory made on the way to an object's file. */
  lemma MadeDirs(p: Place, k: KindAndId, t: Dir, b: FileTree.Address)
    requires b in MkdirAll(t, Top(p) + [k.kind, k.id]).dirs && Top(p) <= b && b !in t.dirs
    ensures |b| <= |Top(p)| + 2 && (|b| == |Top(p)| + 2 ==> b == Top(p) + [k.kind, k.id])
  {
    var d := Top(p) + [k.kind, k.id];
    var i :| 0 <= i <= |d| && b == d[..i];
  }

  lemma PutTidy(p: Place, t: Dir, k: KindAndId, content: string)
    requires GoodPlace(p) && Tidy(p, t) && Named(k)
    ensures Tidy(p, Put(p, t, k, content))
  {
    var t', a := Put(p, t, k, content), FileOf(p, k);
    var d := Parent(a);
    Shapes(p, k);
    assert KeyOf(p, a) == k;
    forall i | 0 <= i <= |Top(p)|
      ensures Top(p)[..i] !in t'.files
    {
      assert |Top(p)[..i]| < |a|;
    }
    if a !in t.files {
      PrefixOfObjectDir(p, k, |Top(p)| + 1);
      PrefixOfObjectDir(p, k, |Top(p)| + 2);
      assert d[..|Top(p)| + 1] in t'.dirs && d[..|Top(p)| + 2] in t'.dirs;
    }
    forall b | b in t'.dirs && Top(p) <= b
      ensures |b| <= |Top(p)| + 2 && (|b| == |Top(p)| + 2 ==> b + [MetadataName(p.ext)] in t'.files)
    {
      if b !in t.dirs {
        MadeDirs(p, k, t, b);
      }
    }
  }

  /** Writing an object changes the map at that key and nowhere else. */
  lemma PutRefines(p: Place, t: Dir, k: KindAndId, content: string)
    ensures Contents(p, Put(p, t, k, content)) == Contents(p, t)[k := content]
  {
    var t' := Put(p, t, k, content);
    forall j
      ensures j in Contents(p, t') <==> j in Contents(p, t)[k := content]
      ensures j in Contents(p, t') ==> Contents(p, t')[j] == Contents(p, t)[k := content][j]
    {
      ContentsAt(p, t', j);
      ContentsAt(p, t, j);
      if FileOf(p, j) == FileOf(p, k) {
        FileOfInjective(p, j, k);
      }
    }
  }

  /** What deleting an object does to the tree. */
  function Drop(p: Place, t: Dir, k: KindAndId): Dir {
    RemoveAll(t, Parent(FileOf(p, k)))
  }

  lemma OwnDirectory(p: Place, k: KindAndId, j: KindAndId)
    ensures Within(FileOf(p, j), Parent(FileOf(p, k))) <==> j == k
  {
    Shapes(p, k);
    Shapes(p, j);
    var n, a, d := |Top(p)|, FileOf(p, j), Parent(FileOf(p, k));
    assert d[n] == k.kind && d[n + 1] == k.id && a[n] == j.kind && a[n + 1] == j.id;
    assert d <= a <==> a[..|d|] == d;
    assert a[..|d|] == Top(p) + [j.kind, j.id];
  }

  lemma DropTidy(p: Place, t: Dir, k: KindAndId)
    requires Tidy(p, t)
    ensures Tidy(p, Drop(p, t, k))
  {
    var t', d := Drop(p, t, k), Parent(FileOf(p, k));
    Shapes(p, k);
    forall b | b in t'.dirs && Top(p) <= b && |b| == |Top(p)| + 2
      ensures b + [MetadataName(p.ext)] in t'.files
    {
      assert b != d;
      assert (b + [MetadataName(p.ext)])[..|d|] == b;
    }
    forall a | a in t'.files && Top(p) <= a
      ensures Parent(a) in t'.dirs && Parent(Parent(a)) in t'.dirs
    {
      assert d <= Parent(a) ==> d <= a;
    }
  }

  /** Deleting an object removes its key and disturbs no other. */
  lemma DropRefines(p: Place, t: Dir, k: KindAndId)
    ensures Contents(p, Drop(p, t, k)) == Contents(p, t) - {k}
  {
    var t' := Drop(p, t, k);
    forall j
      ensures j in Contents(p, t') <==> j in Contents(p, t) - {k}
      ensures j in Contents(p, t') ==> Contents(p, t')[j] == Contents(p, t)[j]
    {
      ContentsAt(p, t', j);
      ContentsAt(p, t, j);
      OwnDirectory(p, k, j);
    }
  }

  lemma EntryIsStored(p: Place, t: Dir, k: KindAndId, b: FileTree.Address)
    requires Tidy(p, t) && (b in t.files || b in t.dirs)
    requires b != [] && Parent(b) == KindDir(p, k.kind) && b[|b| - 1] == k.id
    ensures FileOf(p, k) in t.files
  {
    Shapes(p, k);
    assert b == Parent(b) + [k.id] == Top(p) + [k.kind, k.id];
    assert Top(p) <= b && |b| == |Top(p)| + 2;
  }

  /** The directory of a kind lists exactly the identifiers stored under it. */
  lemma EntriesAreIds(p: Place, t: Dir, kind: string, id: string)
    requires Tidy(p, t)
    ensures id in Entries(t, KindDir(p, kind)) <==> KindAndId(kind, id) in Contents(p, t)
  {
    var k := KindAndId(kind, id);
    ContentsAt(p, t, k);
    if id in Entries(t, KindDir(p, kind)) {
      var b :| (b in t.files || b in t.dirs) && b != [] && Parent(b) == KindDir(p, kind) && b[|b| - 1] == id;
      EntryIsStored(p, t, k, b);
    }
    if FileOf(p, k) in t.files {
      Shapes(p, k);
      var d := Parent(FileOf(p, k));
      assert d in t.dirs && d[|d| - 1] == id && Parent(d) == KindDir(p, kind);
    }
  }

  // ------------------------------------------------------------------ whole runs

  datatype Op = OpWrite(k: KindAndId, content: string) | OpDelete(k: KindAndId)

  function Perform(p: Place, t: Dir, op: Op): Dir {
    match op
    case OpWrite(k, content) => Put(p, t, k, content)
    case OpDelete(k) => if FileOf(p, k) in t.files then Drop(p, t, k) else t
  }

  function PerformAll(p: Place, t: Dir, ops: seq<Op>): Dir {
    if ops == [] then t else Perform(p, PerformAll(p, t, ops[..|ops| - 1]), ops[|ops| - 1])
  }

  function OnMap(m: map<KindAndId, string>, op: Op): map<KindAndId, string> {
    match op
    case OpWrite(k, content) => m[k := content]
    case OpDelete(k) => m - {k}
  }

  function OnMapAll(m: map<KindAndId, string>, ops: seq<Op>): map<KindAndId, string> {
    if ops == [] then m else OnMap(OnMapAll(m, ops[..|ops| - 1]), ops[|ops| - 1])
  }

  lemma PerformRefines(p: Place, t: Dir, op: Op)
    requires GoodPlace(p) && Tidy(p, t) && Named(op.k)
    ensures Tidy(p, Perform(p, t, op)) && Contents(p, Perform(p, t, op)) == OnMap(Contents(p, t), op)
  {
    match op
    case OpWrite(k, content) =>
      PutTidy(p, t, k, content);
      PutRefines(p, t, k, content);
    case OpDelete(k) =>
      if FileOf(p, k) in t.files {
        DropTidy(p, t, k);
        DropRefines(p, t, k);
      } else {
        NothingToDrop(p, t, k);
      }
  }

  lemma NothingToDrop(p: Place, t: Dir, k: KindAndId)
    requires FileOf(p, k) !in t.files
    ensures Contents(p, t) - {k} == Contents(p, t)
  {
    ContentsAt(p, t, k);
  }

  /** Any sequence of writes and deletes does to the tree what it does to a map. */
  lemma {:induction false} TreeRefinesMap(p: Place, t: Dir, ops: seq<Op>)
    requires GoodPlace(p) && Tidy(p, t) && forall op | op in ops :: Named(op.k)
    ensures Tidy(p, PerformAll(p, t, ops))
    ensures Contents(p, PerformAll(p, t, ops)) == OnMapAll(Contents(p, t), ops)
  {
    if ops != [] {
      var front, last := ops[..|ops| - 1], ops[|ops| - 1];
      assert last in ops && forall op | op in front :: op in ops;
      TreeRefinesMap(p, t, front);
      PerformRefines(p, PerformAll(p, t, front), last);
    }
  }

  // ------------------------------------------------------------------ the class

  class GenericRawStorage {
    const place: Place
    const group: string
    const version: string
    const tree: FileTree.DirTree

    constructor (place: Place, group: string, version: string, tree: FileTree.DirTree)
      ensures this.place == place && this.group == group && this.version == version && this.tree == tree
    {
      this.place, this.group, this.version, this.tree := place, group, version, tree;
    }

    ghost function Objects(): map<KindAndId, string>
      reads tree
    {
      Contents(place, tree.t)
    }

    ghost predicate Valid()
      reads tree
    {
      GoodPlace(place) && Tidy(place, tree.t)
    }

    predicate Supports(key: ObjectKey) {
      key.group == group && key.version == version
    }

    /** The directory entry of a key: where it is stored, without its group and version. */
    function Entry(key: ObjectKey): KindAndId {
      KindAndId(key.kind, key.id)
    }

    method Exists(key: ObjectKey) returns (found: bool)
      requires Valid() && Named(Entry(key))
      ensures found <==> key.group == group && key.version == version && KindAndId(key.kind, key.id) in Objects()
    {
      if !Supports(key) {
        return false;
      }
      FileOfKeyPath(place, Entry(key));
      ContentsAt(place, tree.t, Entry(key));
      return Split(KeyPath(place.dir, place.ext, key.kind, key.id)) in tree.t.files;
    }

    method Read(key: ObjectKey) returns (content: Option<string>, err: Option<StorageError>)
      requires Valid() && Named(Entry(key))
      ensures err == if !(key.group == group && key.version == version) then Some(ErrUnsupported)
                     else if KindAndId(key.kind, key.id) in Objects() then None else Some(ErrNotFound)
      ensures content == if err == None then Some(Objects()[KindAndId(key.kind, key.id)]) else None
      ensures err == None ==>
                var file := Split(KeyPath(place.dir, place.ext, key.kind, key.id));
                file in tree.t.files && content == Some(tree.t.files[file])
    {
      if !Supports(key) {
        return None, Some(ErrUnsupported);
      }
      var found := Exists(key);
      if !found {
        return None, Some(ErrNotFound);
      }
      FileOfKeyPath(place, Entry(key));
      ContentsAt(place, tree.t, Entry(key));
      return Some(tree.t.files[Split(KeyPath(place.dir, place.ext, key.kind, key.id))]), None;
    }

    method Write(key: ObjectKey, content: string) returns (err: Option<StorageError>)
      requires Valid() && Named(Entry(key))
      modifies tree
      ensures Valid()
      ensures err == if key.group == group && key.version == version then None else Some(ErrUnsupported)
      ensures err == None ==>
                var file := Split(KeyPath(place.dir, place.ext, key.kind, key.id));
                file in tree.t.files && tree.t.files[file] == content
      ensures Objects() == if err == None then old(Objects())[KindAndId(key.kind, key.id) := content]
                           else old(Objects())
    {
      if !Supports(key) {
        return Some(ErrUnsupported);
      }
      var file := Split(KeyPath(place.dir, place.ext, key.kind, key.id));
      FileOfKeyPath(place, Entry(key));
      PutPossible(place, tree.t, Entry(key));
      PutTidy(place, tree.t, Entry(key), content);
      PutRefines(place, tree.t, Entry(key), content);
      ContentsAt(place, tree.t, Entry(key));
      var found := Exists(key);
      if !found {
        var made := tree.Mkdirs(Parent(file));
        if !made {
          return Some(ErrOS);
        }
      }
      var ok := tree.Write(file, content);
      return if ok then None else Some(ErrOS);
    }

    method Delete(key: ObjectKey) returns (err: Option<StorageError>)
      requires Valid() && Named(Entry(key))
      modifies tree
      ensures Valid()
      ensures err == if !(key.group == group && key.version == version) then Some(ErrUnsupported)
                     else if KindAndId(key.kind, key.id) in old(Objects()) then None else Some(ErrNotFound)
      ensures Objects() == if err == None then old(Objects()) - {KindAndId(key.kind, key.id)} else old(Objects())
    {
      if !Supports(key) {
        return Some(ErrUnsupported);
      }
      var found := Exists(key);
      if !found {
        return Some(ErrNotFound);
      }
      FileOfKeyPath(place, Entry(key));
      DropTidy(place, tree.t, Entry(key));
      DropRefines(place, tree.t, Entry(key));
      tree.Remove(Parent(Split(KeyPath(place.dir, place.ext, key.kind, key.id))));
      return None;
    }

    /** Every stored key of the kind, each once; an error if the kind has no directory yet. */
    method List(kind: ObjectKey) returns (result: seq<ObjectKey>, err: Option<StorageError>)
      requires Valid() && IsName(kind.kind)
      ensures err == if !(kind.group == group && kind.version == version) then Some(ErrUnsupported)
                     else if KindDir(place, kind.kind) in tree.t.dirs then None else Some(ErrOS)
      ensures err == None ==>
                forall k :: k in result <==> && k.kind == kind.kind && k.group == group && k.version == version
                                             && KindAndId(k.kind, k.id) in Objects()
      ensures forall i, j | 0 <= i < j < |result| :: result[i] != result[j]
    {
      result := [];
      if !Supports(kind) {
        return result, Some(ErrUnsupported);
      }
      var ok, names := tree.ReadDir(KindDir(place, kind.kind));
      if !ok {
        return result, Some(ErrOS);
      }
      for i := 0 to |names|
        invariant |result| == i
        invariant forall j | 0 <= j < i :: result[j] == ObjectKey(group, version, kind.kind, names[j])
      {
        result := result + [ObjectKey(kind.group, kind.version, kind.kind, names[i])];
      }
      forall k
        ensures k in result <==> k.kind == kind.kind && Supports(k) && Entry(k) in Objects()
      {
        if k.kind == kind.kind && Supports(k) {
          EntriesAreIds(place, tree.t, k.kind, k.id);
          if k.id in names {
            var j :| 0 <= j < |names| && names[j] == k.id;
            assert result[j] == k;
          }
        }
      }
      return result, None;
    }

    /** The reverse of the path of a key; the error cases are the two of GetKey. */
    method GetKey(p: string) returns (key: Option<ObjectKey>)
      ensures key == match Paths.GetKey(place.dir, p)
                     case None => None
                     case Some(k) => Some(ObjectKey(group, version, k.kind, k.id))
    {
      var splitDir, splitPath := Split(Clean(place.dir)), Split(Clean(p));
      if |splitPath| < |splitDir| + 2 {
        return None;
      }
      for i := 0 to |splitDir|
        invariant forall j | 0 <= j < i :: splitDir[j] == splitPath[j]
      {
        if splitDir[i] != splitPath[i] {
          assert splitPath[..|splitDir|][i] != splitDir[i];
          return None;
        }
      }
      assert splitDir == splitPath[..|splitDir|];
      return Some(ObjectKey(group, version, splitPath[|splitDir|], splitPath[|splitDir| + 1]));
    }
  }
}
