/** Slash-separated paths: splitting, joining and cleaning, and the paths of stored objects. */
module Paths {
  import opened Common

  /** The components between slashes; a path always has at least one, possibly empty. */
  function Split(s: string): (parts: seq<string>)
    ensures parts != []
  {
    if s == "" then [""]
    else
      var parts := Split(s[1..]);
      if s[0] == '/' then [""] + parts else [[s[0]] + parts[0]] + parts[1..]
  }

  function Join(parts: seq<string>): string {
    if parts == [] then ""
    else if |parts| == 1 then parts[0]
    else parts[0] + "/" + Join(parts[1..])
  }

  predicate NoSlash(s: string) {
    '/' !in s
  }

  /** An ordinary component: one that names an entry of a directory. */
  predicate IsName(s: string) {
    NoSlash(s) && s != "" && s != "." && s != ".."
  }

  // ------------------------------------------------------------------ cleaning

  /** One component of a path is read: "" and "." say nothing, ".." takes back the one before. */
  function Push(stack: seq<string>, rooted: bool, part: string): seq<string> {
    if part == "" || part == "." then stack
    else if part == ".." then
      if stack != [] && stack[|stack| - 1] != ".." then stack[..|stack| - 1]
      else if rooted then stack
      else stack + [".."]
    else stack + [part]
  }

  function PushAll(stack: seq<string>, rooted: bool, parts: seq<string>): seq<string> {
    if parts == [] then stack
    else Push(PushAll(stack, rooted, parts[..|parts| - 1]), rooted, parts[|parts| - 1])
  }

  predicate Rooted(s: string) {
    s != "" && s[0] == '/'
  }

  /** The components that remain of a path once cleaned. */
  function Base(s: string): seq<string> {
    PushAll([], Rooted(s), Split(s))
  }

  function Render(rooted: bool, stack: seq<string>): string {
    if rooted then "/" + Join(stack) else if stack == [] then "." else Join(stack)
  }

  /** path.Clean: the shortest path with the same meaning. */
  function Clean(s: string): string {
    Render(Rooted(s), Base(s))
  }

  function NonEmpty(elems: seq<string>): seq<string> {
    if elems == [] then []
    else (if elems[0] == "" then [] else [elems[0]]) + NonEmpty(elems[1..])
  }

  /** path.Join: empty elements are skipped, and the result is cleaned. */
  function PathJoin(elems: seq<string>): string {
    if NonEmpty(elems) == [] then "" else Clean(Join(NonEmpty(elems)))
  }

  // ------------------------------------------------------------------ splitting undoes joining

  lemma {:induction false} SplitNoSlash(s: string)
    requires NoSlash(s)
    ensures Split(s) == [s]
  {
    if s != "" {
      assert s[0] in s;
      assert forall ch | ch in s[1..] :: ch in s;
      SplitNoSlash(s[1..]);
      assert [s[0]] + s[1..] == s;
    }
  }

  lemma {:induction false} SplitAtSlash(a: string, b: string)
    ensures Split(a + "/" + b) == Split(a) + Split(b)
  {
    var s := a + "/" + b;
    if a == "" {
      assert s[0] == '/' && s[1..] == b;
    } else {
      assert s[0] == a[0] && s[1..] == a[1..] + "/" + b;
      SplitAtSlash(a[1..], b);
    }
  }

  lemma {:induction false} SplitOfJoin(parts: seq<string>)
    requires parts != [] && forall p | p in parts :: NoSlash(p)
    ensures Split(Join(parts)) == parts
  {
    assert parts[0] in parts;
    SplitNoSlash(parts[0]);
    if |parts| == 1 {
      assert parts == [parts[0]];
    } else {
      assert forall p | p in parts[1..] :: p in parts;
      SplitOfJoin(parts[1..]);
      SplitAtSlash(parts[0], Join(parts[1..]));
      assert parts == [parts[0]] + parts[1..];
    }
  }

  lemma {:induction false} SplitPartsHaveNoSlash(s: string)
    ensures forall p | p in Split(s) :: NoSlash(p)
  {
    if s != "" {
      SplitPartsHaveNoSlash(s[1..]);
      var parts := Split(s[1..]);
      assert parts[0] in parts;
      assert forall p | p in parts[1..] :: p in parts;
    }
  }

  // ------------------------------------------------------------------ cleaning is stable

  /** A cleaned list of components: no empty one, no ".", and ".." only at the front of a
      relative path. */
  ghost predicate Normal(stack: seq<string>, rooted: bool) {
    && (forall p | p in stack :: NoSlash(p) && p != "" && p != ".")
    && forall i | 0 <= i < |stack| && stack[i] == ".." :: !rooted && (i == 0 || stack[i - 1] == "..")
  }

  lemma PushNormal(stack: seq<string>, rooted: bool, part: string)
    requires Normal(stack, rooted) && NoSlash(part)
    ensures Normal(Push(stack, rooted, part), rooted)
  {
    var pushed := Push(stack, rooted, part);
    assert pushed == stack || (stack != [] && pushed == stack[..|stack| - 1]) || pushed == stack + [part];
    if pushed == stack + [part] && pushed != stack {
      forall i | 0 <= i < |pushed| && pushed[i] == ".."
        ensures !rooted && (i == 0 || pushed[i - 1] == "..")
      {
        assert i < |stack| ==> stack[i] == "..";
      }
    }
  }

  lemma {:induction false} PushAllNormal(rooted: bool, parts: seq<string>)
    requires forall p | p in parts :: NoSlash(p)
    ensures Normal(PushAll([], rooted, parts), rooted)
  {
    if parts != [] {
      var front := parts[..|parts| - 1];
      assert forall p | p in front :: p in parts;
      PushAllNormal(rooted, front);
      assert parts[|parts| - 1] in parts;
      PushNormal(PushAll([], rooted, front), rooted, parts[|parts| - 1]);
    }
  }

  lemma BaseNormal(s: string)
    ensures Normal(Base(s), Rooted(s))
  {
    SplitPartsHaveNoSlash(s);
    PushAllNormal(Rooted(s), Split(s));
  }

  lemma PushOnNormal(rooted: bool, front: seq<string>, last: string)
    requires Normal(front + [last], rooted)
    ensures Push(front, rooted, last) == front + [last]
  {
    assert (front + [last])[|front|] == last;
    assert last in front + [last];
    if last == ".." && front != [] {
      assert (front + [last])[|front| - 1] == front[|front| - 1];
    }
  }

  lemma {:induction false} PushAllOfNormal(rooted: bool, stack: seq<string>)
    requires Normal(stack, rooted)
    ensures PushAll([], rooted, stack) == stack
  {
    if stack != [] {
      var front, last := stack[..|stack| - 1], stack[|stack| - 1];
      assert forall p | p in front :: p in stack;
      assert last in stack;
      PushAllOfNormal(rooted, front);
      PushOnNormal(rooted, front, last);
      assert stack == front + [last];
    }
  }

  lemma {:induction false} PushAllConcat(stack: seq<string>, rooted: bool, a: seq<string>, b: seq<string>)
    ensures PushAll(stack, rooted, a + b) == PushAll(PushAll(stack, rooted, a), rooted, b)
  {
    if b == [] {
      assert a + b == a;
    } else {
      assert (a + b)[..|a + b| - 1] == a + b[..|b| - 1];
      PushAllConcat(stack, rooted, a, b[..|b| - 1]);
    }
  }

  /** How a path with at least one component is split into components. */
  function Address(rooted: bool, stack: seq<string>): seq<string> {
    (if rooted then [""] else []) + stack
  }

  lemma SplitRender(rooted: bool, stack: seq<string>)
    requires Normal(stack, rooted) && stack != []
    ensures Split(Render(rooted, stack)) == Address(rooted, stack)
    ensures Rooted(Render(rooted, stack)) == rooted
  {
    SplitOfJoin(stack);
    if rooted {
      assert Render(rooted, stack)[1..] == Join(stack);
    } else {
      assert stack[0] in stack;
      FirstOfJoin(stack);
    }
  }

  lemma FirstOfJoin(stack: seq<string>)
    requires stack != [] && stack[0] != "" && NoSlash(stack[0])
    ensures Join(stack) != "" && Join(stack)[0] == stack[0][0] != '/'
  {
    assert stack[0][0] in stack[0];
  }

  /** The root, and the current directory. */
  lemma CleanOfNothing(rooted: bool)
    ensures Clean(Render(rooted, [])) == Render(rooted, [])
  {
    var s := Render(rooted, []);
    if rooted {
      assert s == "/" && s[1..] == "";
      assert Split(s) == [""] + Split("") == ["", ""];
      assert ["", ""][..1] == [""] && [""][..0] == [];
      assert PushAll([], true, [""]) == Push([], true, "");
      assert Base(s) == Push(Push([], true, ""), true, "") == [];
    } else {
      assert s == ".";
      SplitNoSlash(s);
      assert ["."][..0] == [];
      assert Base(s) == Push([], false, ".") == [];
    }
  }

  /** Cleaning a cleaned path changes nothing. */
  lemma CleanIdempotent(s: string)
    ensures Clean(Clean(s)) == Clean(s)
  {
    var rooted, stack := Rooted(s), Base(s);
    BaseNormal(s);
    if stack != [] {
      CleanOfRender(rooted, stack);
    } else {
      CleanOfNothing(rooted);
    }
  }

  lemma CleanOfRender(rooted: bool, stack: seq<string>)
    requires Normal(stack, rooted) && stack != []
    ensures Clean(Render(rooted, stack)) == Render(rooted, stack)
    ensures Base(Render(rooted, stack)) == stack
  {
    SplitRender(rooted, stack);
    PushAllOfNormal(rooted, stack);
    if rooted {
      assert [""][..0] == [];
      PushAllConcat([], rooted, [""], stack);
    } else {
      assert Address(rooted, stack) == stack;
    }
  }

  // ------------------------------------------------------------------ cleaning keeps the meaning

  /** Where a walk over components leads from a directory. */
  function Walk(from: seq<string>, parts: seq<string>): seq<string> {
    if parts == [] then from
    else
      var at, part := Walk(from, parts[..|parts| - 1]), parts[|parts| - 1];
      if part == "" || part == "." then at
      else if part == ".." then if at == [] then [] else at[..|at| - 1]
      else at + [part]
  }

  /** The file or directory that a path names, seen from a directory. */
  function Resolve(cwd: seq<string>, s: string): seq<string> {
    Walk(if Rooted(s) then [] else cwd, Split(s))
  }

  lemma {:induction false} WalkConcat(from: seq<string>, a: seq<string>, b: seq<string>)
    ensures Walk(from, a + b) == Walk(Walk(from, a), b)
  {
    if b == [] {
      assert a + b == a;
    } else {
      assert (a + b)[..|a + b| - 1] == a + b[..|b| - 1];
      WalkConcat(from, a, b[..|b| - 1]);
    }
  }

  lemma WalkPush(from: seq<string>, stack: seq<string>, rooted: bool, part: string)
    requires Normal(stack, rooted) && (rooted ==> from == [])
    ensures Walk(from, Push(stack, rooted, part)) == Walk(Walk(from, stack), [part])
  {
    assert [part][..0] == [];
    if part == ".." && stack != [] && stack[|stack| - 1] != ".." {
      assert stack[|stack| - 1] in stack;
    } else if Push(stack, rooted, part) != stack {
      WalkConcat(from, stack, [part]);
    } else if part == ".." && stack != [] {
      assert false;
    }
  }

  lemma {:induction false} WalkPushAll(from: seq<string>, rooted: bool, parts: seq<string>)
    requires (forall p | p in parts :: NoSlash(p)) && (rooted ==> from == [])
    ensures Walk(from, PushAll([], rooted, parts)) == Walk(from, parts)
  {
    if parts != [] {
      var front, last := parts[..|parts| - 1], parts[|parts| - 1];
      assert forall p | p in front :: p in parts;
      WalkPushAll(from, rooted, front);
      PushAllNormal(rooted, front);
      WalkPush(from, PushAll([], rooted, front), rooted, last);
      WalkConcat(from, front, [last]);
      assert parts == front + [last];
    }
  }

  lemma ResolveRender(cwd: seq<string>, rooted: bool, stack: seq<string>)
    requires Normal(stack, rooted)
    ensures Resolve(cwd, Render(rooted, stack)) == Walk(if rooted then [] else cwd, stack)
  {
    if stack == [] {
      SplitOfNothing(rooted);
      assert ["", ""][..1] == [""] && [""][..0] == [] && ["."][..0] == [];
      assert Rooted(Render(rooted, [])) == rooted;
      if rooted {
        assert Split("/") == ["", ""];
      }
    } else {
      SplitRender(rooted, stack);
      if rooted {
        WalkConcat([], [""], stack);
        assert [""][..0] == [];
      } else {
        assert Address(false, stack) == stack;
      }
    }
  }

  /** A cleaned path names the same file, from every directory. */
  lemma CleanKeepsMeaning(cwd: seq<string>, s: string)
    ensures Resolve(cwd, Clean(s)) == Resolve(cwd, s)
  {
    SplitPartsHaveNoSlash(s);
    BaseNormal(s);
    ResolveRender(cwd, Rooted(s), Base(s));
    WalkPushAll(if Rooted(s) then [] else cwd, Rooted(s), Split(s));
  }

  /** Of the components of a cleaned path none is empty or a dot, and none goes up but at the front of a
      path that is not rooted. */
  lemma CleanHasNoDetours(s: string)
    requires Clean(s) != "/" && Clean(s) != "."
    ensures var parts := Split(Clean(s));
            forall i | 0 <= i < |parts| ::
              && parts[i] != "." && (parts[i] == "" <==> i == 0 && Rooted(s))
              && (parts[i] == ".." ==> !Rooted(s) && (i == 0 || parts[i - 1] == ".."))
  {
    BaseNormal(s);
    if Base(s) != [] {
      var parts, n := Split(Clean(s)), if Rooted(s) then 1 else 0;
      SplitRender(Rooted(s), Base(s));
      forall i | 0 <= i < |parts|
        ensures parts[i] != "." && (parts[i] == "" <==> i == 0 && Rooted(s))
        ensures parts[i] == ".." ==> !Rooted(s) && (i == 0 || parts[i - 1] == "..")
      {
        if i >= n {
          assert parts[i] == Base(s)[i - n] && Base(s)[i - n] in Base(s);
        }
      }
    }
  }

  lemma PushDownAndUp(rooted: bool, parts: seq<string>, name: string)
    requires IsName(name)
    ensures PushAll([], rooted, parts + [name] + [".."]) == PushAll([], rooted, parts)
  {
    var down := parts + [name];
    assert down[..|parts|] == parts && (down + [".."])[..|down|] == down;
    assert PushAll([], rooted, down) == PushAll([], rooted, parts) + [name];
  }

  /** Going down into a directory and back up again is nothing. */
  lemma DownAndUp(s: string, name: string)
    requires s != "" && IsName(name)
    ensures Clean(s + "/" + name + "/..") == Clean(s)
  {
    var down := s + "/" + name;
    SplitAtSlash(down, "..");
    SplitAtSlash(s, name);
    SplitNoSlash(name);
    SplitNoSlash("..");
    assert down + "/" + ".." == s + "/" + name + "/..";
    assert Rooted(down + "/..") == Rooted(s);
    PushDownAndUp(Rooted(s), Split(s), name);
  }

  lemma SplitOfNothing(rooted: bool)
    ensures Split(Render(rooted, [])) == Address(rooted, []) + [if rooted then "" else "."]
  {
    if rooted {
      assert Render(true, []) == "/" && "/"[1..] == "";
    } else {
      SplitNoSlash(".");
    }
  }

  // ------------------------------------------------------------------ the paths of objects

  function MetadataName(ext: string): string {
    "metadata" + ext
  }

  /** GenericRawStorage.keyPath. */
  function KeyPath(dir: string, ext: string, kind: string, id: string): string {
    PathJoin([dir, kind, id, MetadataName(ext)])
  }

  lemma MetadataIsName(ext: string)
    requires NoSlash(ext)
    ensures IsName(MetadataName(ext))
  {
    assert MetadataName(ext)[0] == 'm';
    assert forall ch | ch in MetadataName(ext) :: ch in "metadata" || ch in ext;
    assert forall ch | ch in "metadata" :: ch != '/';
  }

  lemma PushNames(stack: seq<string>, rooted: bool, a: string, b: string, c: string)
    requires IsName(a) && IsName(b) && IsName(c)
    ensures PushAll(stack, rooted, [a, b, c]) == stack + [a, b, c]
  {
    assert [a, b, c][..2] == [a, b] && [a, b][..1] == [a] && [a][..0] == [];
    assert PushAll(stack, rooted, []) == stack;
    assert PushAll(stack, rooted, [a]) == stack + [a];
    assert PushAll(stack, rooted, [a, b]) == stack + [a] + [b];
  }

  lemma NormalExtended(stack: seq<string>, rooted: bool, a: string, b: string, c: string)
    requires Normal(stack, rooted) && IsName(a) && IsName(b) && IsName(c)
    ensures Normal(stack + [a, b, c], rooted)
  {}

  lemma JoinFour(dir: string, a: string, b: string, c: string)
    requires dir != "" && IsName(a) && IsName(b) && IsName(c)
    ensures NonEmpty([dir, a, b, c]) == [dir, a, b, c]
    ensures Join([dir, a, b, c]) == dir + "/" + Join([a, b, c])
  {
    assert [dir, a, b, c][1..] == [a, b, c] && [a, b, c][1..] == [b, c] && [b, c][1..] == [c] && [c][1..] == [];
    assert NonEmpty([c]) == [c];
    assert NonEmpty([b, c]) == [b, c];
    assert NonEmpty([a, b, c]) == [a, b, c];
  }

  /** The path of an object is its base directory, cleaned, with three more components. */
  lemma KeyPathForm(dir: string, ext: string, kind: string, id: string)
    requires IsName(kind) && IsName(id) && NoSlash(ext)
    ensures Normal(Base(dir) + [kind, id, MetadataName(ext)], Rooted(dir))
    ensures KeyPath(dir, ext, kind, id) == Render(Rooted(dir), Base(dir) + [kind, id, MetadataName(ext)])
    ensures Split(KeyPath(dir, ext, kind, id)) == Address(Rooted(dir), Base(dir) + [kind, id, MetadataName(ext)])
  {
    var m := MetadataName(ext);
    MetadataIsName(ext);
    BaseNormal(dir);
    NormalExtended(Base(dir), Rooted(dir), kind, id, m);
    SplitRender(Rooted(dir), Base(dir) + [kind, id, m]);
    SplitOfJoin([kind, id, m]);
    PushNames(Base(dir), Rooted(dir), kind, id, m);
    if dir == "" {
      assert ["", kind, id, m][1..] == [kind, id, m];
      JoinFour("x", kind, id, m);
      assert ["x", kind, id, m][1..] == [kind, id, m];
      assert NonEmpty(["", kind, id, m]) == [kind, id, m];
      FirstOfJoin([kind, id, m]);
      assert Split("") == [""] && [""][..0] == [];
      assert Base("") == [];
    } else {
      JoinFour(dir, kind, id, m);
      SplitAtSlash(dir, Join([kind, id, m]));
      PushAllConcat([], Rooted(dir), Split(dir), [kind, id, m]);
    }
  }

  /** Objects with different kinds or identifiers have different paths, whatever the directory. */
  lemma KeyPathInjective(dir: string, ext: string, kind: string, id: string, kind': string, id': string)
    requires IsName(kind) && IsName(id) && IsName(kind') && IsName(id') && NoSlash(ext)
    requires KeyPath(dir, ext, kind, id) == KeyPath(dir, ext, kind', id')
    ensures kind == kind' && id == id'
  {
    KeyPathForm(dir, ext, kind, id);
    KeyPathForm(dir, ext, kind', id');
    var n := |Address(Rooted(dir), Base(dir))|;
    var a := Address(Rooted(dir), Base(dir) + [kind, id, MetadataName(ext)]);
    var b := Address(Rooted(dir), Base(dir) + [kind', id', MetadataName(ext)]);
    assert a[n] == kind && a[n + 1] == id && b[n] == kind' && b[n + 1] == id';
  }

  datatype KindAndId = KindAndId(kind: string, id: string)

  /** GenericRawStorage.GetKey, but for the group and version: None stands for its two errors. */
  function GetKey(dir: string, p: string): Option<KindAndId> {
    var splitDir, splitPath := Split(Clean(dir)), Split(Clean(p));
    if |splitPath| < |splitDir| + 2 then None
    else if splitDir != splitPath[..|splitDir|] then None
    else Some(KindAndId(splitPath[|splitDir|], splitPath[|splitDir| + 1]))
  }

  lemma CleanOfKeyPath(dir: string, ext: string, kind: string, id: string)
    requires IsName(kind) && IsName(id) && NoSlash(ext)
    ensures Clean(KeyPath(dir, ext, kind, id)) == KeyPath(dir, ext, kind, id)
  {
    KeyPathForm(dir, ext, kind, id);
    CleanOfRender(Rooted(dir), Base(dir) + [kind, id, MetadataName(ext)]);
  }

  /** The base directory, cleaned, is the root or the current directory just when nothing is
      left of its components. */
  lemma CleanTrivial(dir: string)
    ensures Clean(dir) == "/" || Clean(dir) == "." <==> Base(dir) == []
  {
    BaseNormal(dir);
    var stack := Base(dir);
    if stack == [] {
      assert Join([]) == "" && "/" + "" == "/";
    } else {
      SplitRender(Rooted(dir), stack);
      SplitNoSlash(".");
      assert stack[0] in stack;
      assert "/"[1..] == "" && Split("/") == [""] + Split("");
    }
  }

  /** A path of the base's components and three more is taken apart there, unless the cleaned base
      directory splits into one component more than it has. */
  lemma KeyAfterBase(dir: string, p: string, base: seq<string>, tail: seq<string>)
    requires Split(Clean(p)) == base + tail && |tail| == 3 && tail[0] != "" && tail[0] != "."
    requires Split(Clean(dir)) == base || Split(Clean(dir)) == base + [""] || Split(Clean(dir)) == base + ["."]
    ensures GetKey(dir, p) == if Split(Clean(dir)) == base then Some(KindAndId(tail[0], tail[1])) else None
  {
    var n := |base|;
    assert (base + tail)[..n] == base && (base + tail)[n] == tail[0] && (base + tail)[n + 1] == tail[1];
    if Split(Clean(dir)) != base {
      assert Split(Clean(dir))[n] != (base + tail)[..n + 1][n];
    }
  }

  lemma PickOut(rooted: bool, stack: seq<string>, more: seq<string>)
    ensures Address(rooted, stack) <= Address(rooted, stack + more)
    ensures Address(rooted, stack + more)[|Address(rooted, stack)|..] == more
  {
    assert Address(rooted, stack + more) == Address(rooted, stack) + more;
  }

  /** GetKey recovers the key from its path if and only if the cleaned base directory is neither
      the root nor the current directory; otherwise it rejects the path. */
  lemma GetKeyRecovers(dir: string, ext: string, kind: string, id: string)
    requires IsName(kind) && IsName(id) && NoSlash(ext)
    ensures GetKey(dir, KeyPath(dir, ext, kind, id))
            == if Clean(dir) == "/" || Clean(dir) == "." then None else Some(KindAndId(kind, id))
  {
    var p, stack, tail := KeyPath(dir, ext, kind, id), Base(dir), [kind, id, MetadataName(ext)];
    CleanOfKeyPath(dir, ext, kind, id);
    KeyPathForm(dir, ext, kind, id);
    CleanTrivial(dir);
    BaseNormal(dir);
    if stack != [] {
      SplitRender(Rooted(dir), stack);
      PickOut(Rooted(dir), stack, tail);
    } else {
      SplitOfNothing(Rooted(dir));
      assert Address(Rooted(dir), [] + tail) == Address(Rooted(dir), []) + tail;
    }
    KeyAfterBase(dir, p, Address(Rooted(dir), stack), tail);
  }

  lemma {:induction false} JoinConcat(a: seq<string>, b: seq<string>)
    requires a != [] && b != []
    ensures Join(a + b) == Join(a) + "/" + Join(b)
  {
    if |a| == 1 {
      assert a + b == [a[0]] + b && (a + b)[1..] == b;
    } else {
      assert (a + b)[1..] == a[1..] + b && (a + b)[0] == a[0];
      JoinConcat(a[1..], b);
      assert Join(a) + "/" + Join(b) == a[0] + "/" + (Join(a[1..]) + "/" + Join(b));
    }
  }

  lemma JoinThree(a: string, b: string, c: string)
    ensures Join([a, b, c]) == a + "/" + (b + "/" + c)
  {
    assert [a, b, c][1..] == [b, c] && [b, c][1..] == [c];
    assert Join([c]) == c;
    assert Join([b, c]) == b + "/" + c;
  }

  lemma SlashesRegroup(a: string, b: string, c: string, d: string)
    ensures a + "/" + (b + "/" + (c + "/" + d)) == a + "/" + b + "/" + c + "/" + d
  {}

  /** Below a clean directory of its own, an object is at <dir>/<kind>/<identifier>/metadata<ext>. */
  lemma KeyPathBelow(dir: string, ext: string, kind: string, id: string)
    requires IsName(kind) && IsName(id) && NoSlash(ext)
    requires Clean(dir) == dir && dir != "/" && dir != "."
    ensures KeyPath(dir, ext, kind, id) == dir + "/" + kind + "/" + id + "/" + ("metadata" + ext)
  {
    KeyPathForm(dir, ext, kind, id);
    CleanTrivial(dir);
    RenderBelow(Rooted(dir), Base(dir), kind, id, MetadataName(ext));
  }

  lemma RenderBelow(rooted: bool, stack: seq<string>, a: string, b: string, c: string)
    requires stack != []
    ensures Render(rooted, stack + [a, b, c]) == Render(rooted, stack) + "/" + a + "/" + b + "/" + c
  {
    JoinConcat(stack, [a, b, c]);
    JoinThree(a, b, c);
    SlashesRegroup(Join(stack), a, b, c);
    SlashesRegroup(Render(rooted, stack), a, b, c);
    if rooted {
      var below := a + "/" + (b + "/" + c);
      assert "/" + (Join(stack) + "/" + below) == ("/" + Join(stack)) + "/" + below;
    }
  }

  lemma TwoAfter(path: seq<string>, base: seq<string>, a: string, b: string, rest: seq<string>)
    requires path == base + [a, b] + rest
    ensures |base| + 2 <= |path| && path[..|base|] == base && path[|base|] == a && path[|base| + 1] == b
  {}

  lemma TwoThere(path: seq<string>, base: seq<string>)
    requires |base| + 2 <= |path| && path[..|base|] == base
    ensures path == base + [path[|base|], path[|base| + 1]] + path[|base| + 2..]
  {}

  /** The path lies below the base directory, where it goes on with the kind and the identifier. */
  ghost predicate IsBelow(path: seq<string>, base: seq<string>, k: KindAndId) {
    exists rest :: path == base + [k.kind, k.id] + rest
  }

  lemma BelowByParts(path: seq<string>, base: seq<string>, k: KindAndId)
    ensures IsBelow(path, base, k) <==>
            |base| + 2 <= |path| && path[..|base|] == base && path[|base|] == k.kind && path[|base| + 1] == k.id
  {
    if IsBelow(path, base, k) {
      var rest :| path == base + [k.kind, k.id] + rest;
      TwoAfter(path, base, k.kind, k.id, rest);
    }
    if |base| + 2 <= |path| && path[..|base|] == base && path[|base|] == k.kind && path[|base| + 1] == k.id {
      TwoThere(path, base);
    }
  }

  /** GetKey takes just the paths below the base directory, and names the two components after it. */
  lemma GetKeyExactly(dir: string, p: string, k: KindAndId)
    ensures GetKey(dir, p) == Some(k) <==> IsBelow(Split(Clean(p)), Split(Clean(dir)), k)
  {
    BelowByParts(Split(Clean(p)), Split(Clean(dir)), k);
  }
}
