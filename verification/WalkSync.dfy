/** From the walk to the sync: what the merger emits meets what the scanner needs,
    and an exact scan leaves the rows of the tree's own dirs. */
module WalkSync {
  import opened Basics
  import opened Joins
  import opened Tables
  import opened Changeset
  import opened Walk
  import opened WalkTree
  import opened Scanner

  /** Paths are stored with slashes, and the walked root as ".". */
  function RelPath(p: Path): string {
    if p == [] then "." else Join(p, '/')
  }

  /** A name that the file system can hold. */
  ghost predicate ProperName(name: string) {
    PlainWord(name, '/') && name != "."
  }

  ghost predicate ProperPath(p: Path) {
    forall name :: name in p ==> ProperName(name)
  }

  ghost predicate ProperTree(node: Node) {
    node.Folder? ==>
      forall i :: 0 <= i < |node.entries| ==> ProperName(node.entries[i].name) && ProperTree(node.entries[i])
  }

  lemma RelPathInjective(p: Path, q: Path)
    requires ProperPath(p) && ProperPath(q) && RelPath(p) == RelPath(q)
    ensures p == q
  {
    var v, w := if p == [] then ["."] else p, if q == [] then ["."] else q;
    assert RelPath(p) == Join(v, '/') && RelPath(q) == Join(w, '/');
    JoinInjective(v, w, '/');
    assert p != [] ==> p[0] in p;
    assert q != [] ==> q[0] in q;
  }

  // ----- names in the results -----

  ghost predicate ProperResult(r: WalkResult) {
    ProperPath(r.dir) && forall f :: f in r.files ==> ProperPath(f.name)
  }

  lemma {:induction false} OwnProper(entries: seq<Node>)
    requires forall i :: 0 <= i < |entries| ==> ProperName(entries[i].name)
    ensures forall f :: f in OwnFiles(entries) ==> ProperPath(f.name)
  {
    if entries != [] { OwnProper(entries[..|entries| - 1]); }
  }

  lemma {:induction false} ResultsProper(node: Node, dir: Path)
    requires node.Folder? && ProperTree(node) && ProperPath(dir)
    ensures forall r :: r in Results(node, dir) ==> ProperResult(r)
    decreases node, 1
  {
    OwnProper(node.entries);
    ChildrenProper(node, |node.entries|, dir);
  }

  lemma {:induction false} ChildrenProper(node: Node, n: nat, dir: Path)
    requires node.Folder? && ProperTree(node) && ProperPath(dir) && n <= |node.entries|
    ensures forall r :: r in ChildResults(node, n, dir) ==> ProperResult(r)
    decreases node, 0, n
  {
    if n > 0 {
      var e := node.entries[n - 1];
      ChildrenProper(node, n - 1, dir);
      assert ProperName(e.name) && ProperTree(e);
      if Entered(e) { ResultsProper(e, dir + [e.name]); }
    }
  }

  lemma {:induction false} FilePathsProper(dir: Path, files: seq<WalkEntry>)
    requires ProperPath(dir) && forall f :: f in files ==> ProperPath(f.name)
    ensures forall p :: p in FilePaths(dir, files) ==> ProperPath(p.path)
  {
    if files != [] { FilePathsProper(dir, files[..|files| - 1]); }
  }

  lemma {:induction false} AllPathsProper(results: seq<WalkResult>)
    requires forall r :: r in results ==> ProperResult(r)
    ensures forall p :: p in AllPaths(results) ==> ProperPath(p.path)
  {
    if results != [] {
      var last := results[|results| - 1];
      assert last in results;
      AllPathsProper(results[..|results| - 1]);
      FilePathsProper(last.dir, last.files);
    }
  }

  // ----- the emitted dirs and files -----

  lemma {:induction false} FileCounted(dir: Path, files: seq<WalkEntry>, i: nat)
    requires i < |files|
    ensures FoundIn(dir, files[i]) in FilePaths(dir, files)
  {
    var n := |files| - 1;
    if i < n { FileCounted(dir, files[..n], i); }
  }

  lemma {:induction false} TwiceCounted(dir: Path, files: seq<WalkEntry>, i: nat, j: nat)
    requires i < j < |files| && files[i] == files[j]
    ensures FilePaths(dir, files)[FoundIn(dir, files[i])] > 1
  {
    var n := |files| - 1;
    if j < n {
      TwiceCounted(dir, files[..n], i, j);
    } else {
      FileCounted(dir, files[..n], i);
    }
  }

  lemma {:induction false} ResultCounted(emitted: seq<WalkResult>, k: nat)
    requires k < |emitted|
    ensures FilePaths(emitted[k].dir, emitted[k].files) <= AllPaths(emitted)
  {
    var n := |emitted| - 1;
    if k < n { ResultCounted(emitted[..n], k); }
  }

  lemma {:induction false} NonDiscDistinct(results: seq<WalkResult>)
    requires PostOrder(results)
    ensures Distinct(NonDiscDirs(results))
    ensures forall d :: d in NonDiscDirs(results) <==> Seen(results, d) && !IsDisc(d)
  {
    hide IsDisc;
    if results != [] {
      var n := |results| - 1;
      var rest, last := results[..n], results[n];
      assert PostOrder(rest) by {
        forall i, j | 0 <= i < j < n ensures !(rest[i].dir <= rest[j].dir) {
          assert rest[i] == results[i] && rest[j] == results[j];
        }
      }
      NonDiscDistinct(rest);
      forall d ensures Seen(results, d) <==> Seen(rest, d) || d == last.dir {
        SeenLast(results, d);
      }
      forall i | 0 <= i < n ensures rest[i].dir != last.dir { assert !(results[i].dir <= results[n].dir); }
    }
  }

  lemma SeenLast(results: seq<WalkResult>, d: Path)
    requires results != []
    ensures var n := |results| - 1;
      Seen(results, d) <==> Seen(results[..n], d) || d == results[n].dir
  {
  }

  /** What a sync worker is handed for an emitted dir; `stat` is the outcome of Info. */
  function VisitOf(r: WalkResult, stat: Path -> Option<Stat>): Visit {
    Visit(RelPath(r.dir),
      seq(|r.files|, i requires 0 <= i < |r.files| =>
        Walked(RelPath(r.files[i].name), r.files[i].kind, stat(r.dir + r.files[i].name))))
  }

  function VisitsOf(emitted: seq<WalkResult>, stat: Path -> Option<Stat>): (visits: seq<Visit>)
    ensures |visits| == |emitted|
    ensures forall k | 0 <= k < |emitted| :: visits[k] == VisitOf(emitted[k], stat)
  {
    seq(|emitted|, k requires 0 <= k < |emitted| => VisitOf(emitted[k], stat))
  }

  /** What a successful WalkRoot promises about its emitted dirs. */
  ghost predicate Emits(root: Node, emitted: seq<WalkResult>)
    requires root.Folder?
  {
    && AllPaths(emitted) <= AllPaths(Results(root, []))
    && Dirs(emitted) == NonDiscDirs(Results(root, []))
  }

  lemma WalkRootEmits(root: Node, emitted: seq<WalkResult>, pending: multiset<Found>)
    requires root.Folder? && WellFormed(root)
    requires forall p: Found :: (AllPaths(emitted) + pending)[p] == if FileAt(root, p.path, p.kind) then 1 else 0
    requires Dirs(emitted) == NonDiscDirs(Results(root, []))
    ensures Emits(root, emitted)
  {
    forall p ensures AllPaths(emitted)[p] <= AllPaths(Results(root, []))[p] {
      CountResults(root, [], p);
      assert p.path[0..] == p.path;
      assert AllPaths(emitted)[p] <= (AllPaths(emitted) + pending)[p];
    }
  }

  /** The dirs and file names handed to the workers are distinct as stored strings. */
  lemma EmittedWalkable(root: Node, emitted: seq<WalkResult>, stat: Path -> Option<Stat>)
    requires root.Folder? && WellFormed(root) && ProperTree(root) && Emits(root, emitted)
    ensures Walkable(VisitsOf(emitted, stat))
  {
    var results := Results(root, []);
    ResultsProper(root, []);
    ResultsPostOrder(root, []);
    NonDiscDistinct(results);
    forall k | 0 <= k < |emitted| ensures ProperPath(emitted[k].dir) { EmittedDir(root, emitted, k); }
    forall k, l | 0 <= k < l < |emitted| ensures RelPath(emitted[k].dir) != RelPath(emitted[l].dir) {
      assert Dirs(emitted)[k] != Dirs(emitted)[l];
      if RelPath(emitted[k].dir) == RelPath(emitted[l].dir) { RelPathInjective(emitted[k].dir, emitted[l].dir); }
    }
    forall k | 0 <= k < |emitted| ensures DistinctNames(VisitsOf(emitted, stat)[k].files) {
      EmittedNames(root, emitted, k);
    }
  }

  lemma EmittedDir(root: Node, emitted: seq<WalkResult>, k: nat)
    requires root.Folder? && WellFormed(root) && ProperTree(root) && Emits(root, emitted) && k < |emitted|
    ensures ProperPath(emitted[k].dir) && !IsDisc(emitted[k].dir) && Seen(Results(root, []), emitted[k].dir)
  {
    var results := Results(root, []);
    ResultsProper(root, []);
    ResultsPostOrder(root, []);
    NonDiscDistinct(results);
    assert Dirs(emitted)[k] in NonDiscDirs(results);
    var i :| 0 <= i < |results| && results[i].dir == emitted[k].dir;
    assert results[i] in results;
  }

  lemma EmittedNames(root: Node, emitted: seq<WalkResult>, k: nat)
    requires root.Folder? && WellFormed(root) && ProperTree(root) && Emits(root, emitted) && k < |emitted|
    ensures var files := emitted[k].files;
      forall i, j :: 0 <= i < j < |files| ==> RelPath(files[i].name) != RelPath(files[j].name)
  {
    var dir, files, results := emitted[k].dir, emitted[k].files, Results(root, []);
    ResultsProper(root, []);
    AllPathsProper(results);
    ResultCounted(emitted, k);
    forall i | 0 <= i < |files|
      ensures ProperPath(files[i].name) && FileAt(root, dir + files[i].name, files[i].kind)
      ensures FilePaths(dir, files)[FoundIn(dir, files[i])] <= 1
    {
      var p := FoundIn(dir, files[i]);
      FileCounted(dir, files, i);
      CountResults(root, [], p);
      assert FilePaths(dir, files)[p] <= AllPaths(emitted)[p] <= AllPaths(results)[p] <= 1;
      assert p.path[0..] == p.path && ProperPath(p.path);
    }
    forall i, j | 0 <= i < j < |files| ensures RelPath(files[i].name) != RelPath(files[j].name) {
      if files[i].name == files[j].name {
        OneKind(root, dir + files[i].name, files[i].kind, files[j].kind);
        TwiceCounted(dir, files, i, j);
      } else if RelPath(files[i].name) == RelPath(files[j].name) {
        RelPathInjective(files[i].name, files[j].name);
      }
    }
  }

  /** A dir of the tree that is scanned as an album dir of its own. */
  ghost predicate AlbumDir(root: Node, p: Path)
    requires root.Folder?
  {
    Seen(Results(root, []), p) && !IsDisc(p)
  }

  /** After an exact scan the location's present rows are the tree's visible dirs
      other than disc dirs, one row each. */
  lemma ScanMatchesTree(root: Node, emitted: seq<WalkResult>, stat: Path -> Option<Stat>, dirs: map<Id, DirRow>,
                        location: Id)
    requires root.Folder? && WellFormed(root) && ProperTree(root) && Emits(root, emitted)
    requires UniquePaths(dirs) && Exact(dirs, location, VisitsOf(emitted, stat))
    ensures forall d | d in dirs && dirs[d].location == location ::
      !dirs[d].missing <==> exists p :: AlbumDir(root, p) && dirs[d].relpath == RelPath(p)
    ensures forall p | AlbumDir(root, p) :: exists d :: ScanStore.AtPath(dirs, location, RelPath(p), d)
  {
    var visits := VisitsOf(emitted, stat);
    forall path: string ensures Visited(visits, path) <==> exists p :: AlbumDir(root, p) && path == RelPath(p) {
      VisitedIsAlbumDir(root, emitted, stat, path);
    }
    forall p | AlbumDir(root, p) ensures exists d :: ScanStore.AtPath(dirs, location, RelPath(p), d) {
      assert Visited(visits, RelPath(p));
    }
  }

  lemma VisitedIsAlbumDir(root: Node, emitted: seq<WalkResult>, stat: Path -> Option<Stat>, path: string)
    requires root.Folder? && WellFormed(root) && ProperTree(root) && Emits(root, emitted)
    ensures Visited(VisitsOf(emitted, stat), path) <==> exists p :: AlbumDir(root, p) && path == RelPath(p)
  {
    var visits := VisitsOf(emitted, stat);
    ResultsPostOrder(root, []);
    NonDiscDistinct(Results(root, []));
    if Visited(visits, path) {
      var k :| 0 <= k < |visits| && visits[k].relpath == path;
      EmittedDir(root, emitted, k);
      assert AlbumDir(root, emitted[k].dir) && path == RelPath(emitted[k].dir);
    }
    if p :| AlbumDir(root, p) && path == RelPath(p) {
      assert p in Dirs(emitted);
      var k :| 0 <= k < |emitted| && Dirs(emitted)[k] == p;
      assert visits[k].relpath == path;
    }
  }
}
