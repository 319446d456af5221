/** The installer's file operations and `InstallerRollback`, over a file tree in which any
    operation may fail. */
module InstallerFiles {

  // ---------------------------------------------------------------- file trees

  type Path = seq<string>

  datatype Tree = Tree(files: map<Path, string>, dirs: set<Path>)
  {
    predicate Exists(p: Path) { p in files || p in dirs }

    function Without(gone: set<Path>): Tree { Tree(files - gone, dirs - gone) }

    /** `d` and everything below it. */
    function Subtree(d: Path): set<Path> { set p | p in files.Keys + dirs && d <= p }
  }

  /** Every path below the root lies in a directory. */
  predicate Closed(t: Tree)
  {
    && [] in t.dirs && t.files.Keys !! t.dirs
    && forall p, k :: p in t.files.Keys + t.dirs && 0 <= k < |p| ==> p[..k] in t.dirs
  }

  /** Nothing of `old_` is missing in `new_`. */
  predicate Kept(old_: Tree, new_: Tree) { old_.dirs <= new_.dirs && old_.files.Keys <= new_.files.Keys }

  /** A closed tree has nothing below a path it does not have. */
  lemma NothingBelow(t: Tree, d: Path, p: Path)
    requires Closed(t) && !t.Exists(d) && d <= p
    ensures !t.Exists(p)
  {
    assert p[..|d|] == d;
    assert d == p ==> !t.Exists(p);
  }

  lemma SubtreeGone(t: Tree, d: Path)
    requires Closed(t) && d != []
    ensures Closed(t.Without(t.Subtree(d)))
  {
    var t' := t.Without(t.Subtree(d));
    forall p, k | t'.Exists(p) && 0 <= k < |p| ensures p[..k] in t'.dirs {
      assert t.Exists(p) && p[..k] in t.dirs;
      assert d <= p[..k] ==> d <= p;
    }
  }

  /** `reliable` file systems fail only where the tree leaves no choice. */
  class FileSystem {
    const reliable: bool
    var tree: Tree

    constructor (t: Tree, reliable: bool)
      ensures tree == t && this.reliable == reliable
    {
      tree := t;
      this.reliable := reliable;
    }

    /** `Path.write_text`: an error may leave a new file behind. */
    method WriteText(p: Path, content: string) returns (ok: bool)
      requires Closed(tree)
      modifies this
      ensures Closed(tree) && tree.dirs == old(tree).dirs
      ensures tree.files.Keys == old(tree).files.Keys || tree.files.Keys == old(tree).files.Keys + {p}
      ensures forall q :: q in old(tree).files && q != p ==> tree.files[q] == old(tree).files[q]
      ensures ok ==> p in tree.files && tree.files[p] == content
    {
      var opens: bool := *;
      if reliable { opens := true; }
      if !opens || p in tree.dirs || p == [] || p[..|p| - 1] !in tree.dirs { return false; }
      ok := *;
      ok := ok || reliable;
      var partial: string := *;
      forall k | 0 <= k < |p| ensures p[..k] in tree.dirs {
        assert k < |p| - 1 ==> p[..|p| - 1][..k] == p[..k];
      }
      tree := tree.(files := tree.files[p := if ok then content else partial]);
    }

    /** `Path.mkdir(parents=True, exist_ok=True)`: an error may leave ancestors behind. */
    method MakeDirs(p: Path) returns (ok: bool)
      requires Closed(tree)
      modifies this
      ensures Closed(tree) && tree.files == old(tree).files && old(tree).dirs <= tree.dirs
      ensures forall q :: q in tree.dirs && q !in old(tree).dirs ==> q <= p
      ensures ok ==> p in tree.dirs
      ensures reliable && (forall k :: 0 <= k <= |p| ==> p[..k] !in old(tree).files) ==> ok
    {
      for k := 0 to |p|
        invariant Closed(tree) && tree.files == old(tree).files && old(tree).dirs <= tree.dirs
        invariant forall q :: q in tree.dirs && q !in old(tree).dirs ==> q <= p
        invariant p[..k] in tree.dirs
      {
        var dir := p[..k + 1];
        if dir in tree.files { return false; }
        if dir !in tree.dirs {
          var made: bool := *;
          if !made && !reliable { return false; }
          forall i | 0 <= i < |dir| ensures dir[..i] in tree.dirs {
            assert dir[..i] == p[..i];
            assert i < k ==> p[..k][..i] == p[..i];
          }
          tree := tree.(dirs := tree.dirs + {dir});
        }
      }
      assert p[..|p|] == p;
      return true;
    }

    /** `Path.unlink`. */
    method Unlink(p: Path) returns (ok: bool)
      requires Closed(tree)
      modifies this
      ensures Closed(tree) && tree == if ok then old(tree).Without({p}) else old(tree)
      ensures ok ==> p in old(tree).files
      ensures reliable && p in old(tree).files ==> ok
    {
      ok := *;
      ok := (ok || reliable) && p in tree.files;
      if p !in tree.files { return false; }
      if ok {
        assert tree.dirs - {p} == tree.dirs;
        tree := tree.Without({p});
      }
    }

    /** `shutil.rmtree`: an error may leave part of the subtree. */
    method RemoveTree(d: Path) returns (ok: bool)
      requires Closed(tree) && d != []
      modifies this
      ensures Closed(tree)
      ensures exists gone :: gone <= old(tree).Subtree(d) && tree == old(tree).Without(gone)
      ensures ok ==> tree == old(tree).Without(old(tree).Subtree(d))
      ensures reliable && d in old(tree).dirs ==> ok
    {
      ok := *;
      ok := ok || reliable;
      var gone: set<Path> := tree.Subtree(d);
      if d !in tree.dirs { ok := false; gone := {}; }
      else if !ok {
        var part: set<Path> := *;
        gone := gone * part;
      }
      SubtreeGone(tree, d);
      assert gone <= tree.Subtree(d);
      if !ok && !Closed(tree.Without(gone)) { gone := {}; }
      assert tree.Without({}) == tree;
      tree := tree.Without(gone);
    }
  }
}
