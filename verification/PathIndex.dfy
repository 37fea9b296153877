/** The index from object keys to file paths, and what it means for it to describe a tree. */
module PathIndex {
  import opened Common

  type Index = map<ObjectKey, string>

  /** No two files hold objects with the same key. */
  ghost predicate UniqueKeys(tree: Tree) {
    forall p, q :: KeyAt(tree, p).Some? && KeyAt(tree, p) == KeyAt(tree, q) ==> p == q
  }

  /** The index maps a key to a path exactly when the file at that path holds that key. */
  ghost predicate Exact(index: Index, tree: Tree) {
    forall k, p :: k in index && index[k] == p <==> KeyAt(tree, p) == Some(k)
  }

  /** The index made by walking over `files`: a file that does not decode is skipped, and a
      later file takes over the key of an earlier one. */
  function MappingsOf(files: seq<string>, tree: Tree): Index {
    if files == [] then map[]
    else
      var front, p := MappingsOf(files[..|files| - 1], tree), files[|files| - 1];
      match KeyAt(tree, p)
      case None => front
      case Some(k) => front[k := p]
  }

  /** A walk of a tree: it lists its files and no others. */
  ghost predicate IsWalk(files: seq<string>, tree: Tree) {
    forall p :: p in files <==> p in tree
  }

  /** `i` is the last place in the walk where `k` is found. */
  ghost predicate LastWith(files: seq<string>, tree: Tree, k: ObjectKey, i: nat) {
    && i < |files| && KeyAt(tree, files[i]) == Some(k)
    && forall j | i < j < |files| :: KeyAt(tree, files[j]) != Some(k)
  }

  /** Walking over one more file moves the last place of its key there, and of no other key. */
  lemma LastWithStep(files: seq<string>, tree: Tree, k: ObjectKey, i: nat)
    requires files != []
    ensures var n := |files| - 1;
            LastWith(files, tree, k, i)
            <==> if KeyAt(tree, files[n]) == Some(k) then i == n else LastWith(files[..n], tree, k, i)
  {}

  /** What the walk computes, read off the tree: the keys found, each with its last file. */
  lemma {:induction false} MappingsMeaning(files: seq<string>, tree: Tree, k: ObjectKey)
    ensures k in MappingsOf(files, tree) <==> exists i: nat :: LastWith(files, tree, k, i)
    ensures forall i: nat | LastWith(files, tree, k, i) ::
              k in MappingsOf(files, tree) ==> MappingsOf(files, tree)[k] == files[i]
  {
    if files != [] {
      var n := |files| - 1;
      MappingsMeaning(files[..n], tree, k);
      forall i: nat
        ensures LastWith(files, tree, k, i)
                <==> if KeyAt(tree, files[n]) == Some(k) then i == n else LastWith(files[..n], tree, k, i)
      {
        LastWithStep(files, tree, k, i);
      }
      if k in MappingsOf(files, tree) {
        if KeyAt(tree, files[n]) == Some(k) {
          assert LastWith(files, tree, k, n);
        } else {
          var i: nat :| LastWith(files[..n], tree, k, i);
          assert LastWith(files, tree, k, i);
        }
      }
    }
  }

  /** A key that is found has a last place. */
  lemma {:induction false} LastExists(files: seq<string>, tree: Tree, p: string)
    requires p in files && KeyAt(tree, p).Some?
    ensures exists i: nat :: LastWith(files, tree, KeyAt(tree, p).value, i)
  {
    var n, k := |files| - 1, KeyAt(tree, p).value;
    if KeyAt(tree, files[n]) == Some(k) {
      assert LastWith(files, tree, k, n);
    } else {
      assert files == files[..n] + [files[n]];
      LastExists(files[..n], tree, p);
      var i: nat :| LastWith(files[..n], tree, k, i);
      LastWithStep(files, tree, k, i);
    }
  }

  /** Two exact indexes of one tree are equal. */
  lemma ExactIsUnique(a: Index, b: Index, tree: Tree)
    requires Exact(a, tree) && Exact(b, tree)
    ensures a == b
  {
    forall k | k in a
      ensures k in b && b[k] == a[k]
    {
      assert KeyAt(tree, a[k]) == Some(k);
    }
    forall k | k in b
      ensures k in a
    {
      assert KeyAt(tree, b[k]) == Some(k);
    }
  }

  /** A walk yields the exact index if and only if no key occurs twice; so then its order
      does not matter. */
  lemma WalkIsExact(files: seq<string>, tree: Tree)
    requires IsWalk(files, tree)
    ensures Exact(MappingsOf(files, tree), tree) <==> UniqueKeys(tree)
  {
    var m := MappingsOf(files, tree);
    if UniqueKeys(tree) {
      forall k, p
        ensures k in m && m[k] == p <==> KeyAt(tree, p) == Some(k)
      {
        MappingsMeaning(files, tree, k);
        if KeyAt(tree, p) == Some(k) {
          LastExists(files, tree, p);
          var i: nat :| LastWith(files, tree, k, i);
          assert files[i] == p;
        } else if k in m {
          var i: nat :| LastWith(files, tree, k, i);
        }
      }
    }
    if Exact(m, tree) {
      forall p, q | KeyAt(tree, p).Some? && KeyAt(tree, p) == KeyAt(tree, q)
        ensures p == q
      {
        var k := KeyAt(tree, p).value;
        assert k in m && m[k] == p && m[k] == q;
      }
    }
  }
}
