/** A tree of files and directories, addressed by lists of path components. */
module FileTree {

  type Address = seq<string>

  datatype Dir = Dir(files: map<Address, string>, dirs: set<Address>)

  function Parent(a: Address): Address {
    if a == [] then [] else a[..|a| - 1]
  }

  /** `a` is `top` or lies below it. */
  predicate Within(a: Address, top: Address) {
    top <= a
  }

  /** os.MkdirAll fails if a file is in the way. */
  ghost predicate CanMkdirAll(t: Dir, a: Address) {
    forall i | 0 <= i <= |a| :: a[..i] !in t.files
  }

  function MkdirAll(t: Dir, a: Address): Dir {
    t.(dirs := t.dirs + set i | 0 <= i <= |a| :: a[..i])
  }

  /** A file can be written if its directory is there and it is not a directory itself. */
  predicate CanWriteFile(t: Dir, a: Address) {
    a != [] && Parent(a) in t.dirs && a !in t.dirs
  }

  function WriteFile(t: Dir, a: Address, content: string): Dir {
    t.(files := t.files[a := content])
  }

  function RemoveAll(t: Dir, top: Address): Dir {
    Dir(map a | a in t.files && !Within(a, top) :: t.files[a], set a | a in t.dirs && !Within(a, top))
  }

  /** The names of the entries of a directory. */
  ghost function Entries(t: Dir, a: Address): set<string> {
    (set b | b in t.files && b != [] && Parent(b) == a :: b[|b| - 1])
    + (set b | b in t.dirs && b != [] && Parent(b) == a :: b[|b| - 1])
  }

  /** The tree on disk. Its methods are the operating system's calls. */
  class DirTree {
    var t: Dir

    constructor (t: Dir)
      ensures this.t == t
    {
      this.t := t;
    }

    method Mkdirs(a: Address) returns (ok: bool)
      modifies this
      ensures ok <==> CanMkdirAll(old(t), a)
      ensures t == if ok then MkdirAll(old(t), a) else old(t)
    {
      for i := 0 to |a| + 1
        invariant forall j | 0 <= j < i :: a[..j] !in t.files
        invariant t == old(t)
      {
        if a[..i] in t.files {
          return false;
        }
      }
      t := MkdirAll(t, a);
      return true;
    }

    method Write(a: Address, content: string) returns (ok: bool)
      modifies this
      ensures ok == CanWriteFile(old(t), a)
      ensures t == if ok then WriteFile(old(t), a, content) else old(t)
    {
      ok := CanWriteFile(t, a);
      if ok {
        t := WriteFile(t, a, content);
      }
    }

    method Remove(top: Address)
      modifies this
      ensures t == RemoveAll(old(t), top)
    {
      t := RemoveAll(t, top);
    }

    /** The entries of a directory, each once; fails if it is not one. */
    method ReadDir(a: Address) returns (ok: bool, names: seq<string>)
      ensures ok == (a in t.dirs)
      ensures ok ==> (forall x :: x in names <==> x in Entries(t, a))
      ensures forall i, j | 0 <= i < j < |names| :: names[i] != names[j]
    {
      names := [];
      if a !in t.dirs {
        return false, names;
      }
      var left := (set b | b in t.files && b != [] && Parent(b) == a :: b[|b| - 1])
                  + (set b | b in t.dirs && b != [] && Parent(b) == a :: b[|b| - 1]);
      ghost var all := left;
      while left != {}
        invariant left <= all
        invariant forall x :: x in names <==> x in all && x !in left
        invariant forall i, j | 0 <= i < j < |names| :: names[i] != names[j]
        decreases left
      {
        var x :| x in left;
        left := left - {x};
        names := names + [x];
      }
      return true, names;
    }
  }
}
