/** A whole walk through the disc merger. */
module WalkTree {
  import opened Basics
  import opened Tables
  import opened Walk

  // ----- where results lie -----

  lemma {:induction false} OwnFilesBase(entries: seq<Node>)
    ensures BaseNames(OwnFiles(entries))
  {
    if entries != [] { OwnFilesBase(entries[..|entries| - 1]); }
  }

  /** Results lie under the folder they come from, and below it only inside a child. */
  lemma {:induction false} ResultsUnder(node: Node, dir: Path)
    requires node.Folder?
    ensures forall r :: r in Results(node, dir) ==> dir <= r.dir
    decreases node, 1
  {
    ChildrenUnder(node, |node.entries|, dir);
  }

  ghost predicate InChild(node: Node, n: nat, dir: Path, d: Path)
    requires node.Folder? && n <= |node.entries|
  {
    exists i :: 0 <= i < n && dir + [node.entries[i].name] <= d
  }

  lemma {:induction false} ChildrenUnder(node: Node, n: nat, dir: Path)
    requires node.Folder? && n <= |node.entries|
    ensures forall r :: r in ChildResults(node, n, dir) ==> InChild(node, n, dir, r.dir)
    decreases node, 0, n
  {
    if n > 0 {
      ChildrenUnder(node, n - 1, dir);
      var e := node.entries[n - 1];
      if Entered(e) { ResultsUnder(e, dir + [e.name]); }
      forall r | r in ChildResults(node, n, dir) ensures InChild(node, n, dir, r.dir) {
        if r in ChildResults(node, n - 1, dir) {
          var i :| 0 <= i < n - 1 && dir + [node.entries[i].name] <= r.dir;
        }
      }
    }
  }

  /** Nothing under two different children. */
  lemma Apart(node: Node, i: nat, j: nat, dir: Path, d: Path)
    requires node.Folder? && i < |node.entries| && j < |node.entries| && node.entries[i].name != node.entries[j].name
    requires dir + [node.entries[i].name] <= d
    ensures !(dir + [node.entries[j].name] <= d)
  {
    assert (dir + [node.entries[i].name])[|dir|] == node.entries[i].name;
    assert (dir + [node.entries[j].name])[|dir|] == node.entries[j].name;
  }

  // ----- the recursive walk -----

  /** Nothing seen so far is the dir, above it or below it. */
  ghost predicate Untouched(seen: seq<WalkResult>, dir: Path) {
    forall r :: r in seen ==> !(dir <= r.dir) && !(r.dir <= dir)
  }

  lemma ChildUntouched(node: Node, n: nat, dir: Path, before: seq<WalkResult>)
    requires WellFormed(node) && node.Folder? && n < |node.entries| && Untouched(before, dir)
    ensures Untouched(before + ChildResults(node, n, dir), dir + [node.entries[n].name])
  {
    ChildrenUnder(node, n, dir);
    var child := dir + [node.entries[n].name];
    forall r | r in before + ChildResults(node, n, dir) ensures !(child <= r.dir) && !(r.dir <= child) {
      if r in before {
        assert dir <= child;
        assert r.dir <= child ==> r.dir == child || r.dir <= dir;
      } else {
        var i :| 0 <= i < n && dir + [node.entries[i].name] <= r.dir;
        Apart(node, i, n, dir, r.dir);
        assert |r.dir| >= |child|;
      }
    }
  }

  lemma OwnUnseen(node: Node, dir: Path, before: seq<WalkResult>)
    requires node.Folder? && Untouched(before, dir)
    ensures var seen := before + ChildResults(node, |node.entries|, dir);
      !Seen(seen, dir) && !Seen(seen, Parent(dir))
  {
    ChildrenUnder(node, |node.entries|, dir);
    var seen := before + ChildResults(node, |node.entries|, dir);
    forall i | 0 <= i < |seen| ensures seen[i].dir != dir && seen[i].dir != Parent(dir) {
      assert Parent(dir) <= dir;
      if i < |before| {
        assert seen[i] in before;
      } else {
        assert seen[i] in ChildResults(node, |node.entries|, dir);
        assert |seen[i].dir| > |dir|;
      }
    }
  }

  /** Children first, then the dir itself; any error stops the walk. */
  method WalkPostOrder(node: Node, dir: Path, merger: DiscMerger) returns (ok: bool)
    requires !node.Leaf? && WellFormed(node) && merger.Valid() && Untouched(merger.seen, dir)
    modifies merger
    ensures ok ==> Readable(node) && merger.Valid() && merger.seen == old(merger.seen) + Results(node, dir)
    ensures Readable(node) && merger.cancelAfter == None ==> ok
    decreases node
  {
    hide Merged, Seen, Untouched, OwnFiles;
    if node.Unreadable? {
      return false;
    }
    ghost var before := merger.seen;
    for i := 0 to |node.entries|
      invariant merger.Valid() && merger.seen == before + ChildResults(node, i, dir)
      invariant forall j | 0 <= j < i && !Hidden(node.entries[j].name) :: Readable(node.entries[j])
    {
      var e := node.entries[i];
      if e.Leaf? || Hidden(e.name) {
        continue;
      }
      ChildUntouched(node, i, dir, before);
      ok := WalkPostOrder(e, dir + [e.name], merger);
      if !ok {
        return;
      }
      assert before + ChildResults(node, i + 1, dir) ==
        before + ChildResults(node, i, dir) + Results(e, dir + [e.name]);
    }
    OwnUnseen(node, dir, before);
    OwnFilesBase(node.entries);
    ok := merger.Process(WalkResult(dir, OwnFiles(node.entries)));
    assert before + Results(node, dir)
      == before + ChildResults(node, |node.entries|, dir) + [WalkResult(dir, OwnFiles(node.entries))];
  }

  // ----- order -----

  /** No dir comes before itself again or before anything inside it. */
  ghost predicate PostOrder(results: seq<WalkResult>) {
    forall i, j :: 0 <= i < j < |results| ==> !(results[i].dir <= results[j].dir)
  }

  lemma {:induction false} ResultsPostOrder(node: Node, dir: Path)
    requires node.Folder? && WellFormed(node)
    ensures PostOrder(Results(node, dir))
    decreases node, 1
  {
    ChildrenPostOrder(node, |node.entries|, dir);
    ChildrenUnder(node, |node.entries|, dir);
    var children := ChildResults(node, |node.entries|, dir);
    forall i | 0 <= i < |children| ensures !(children[i].dir <= dir) {
      assert children[i] in children;
    }
  }

  lemma {:induction false} ChildrenPostOrder(node: Node, n: nat, dir: Path)
    requires node.Folder? && WellFormed(node) && n <= |node.entries|
    ensures PostOrder(ChildResults(node, n, dir))
    decreases node, 0, n
  {
    if n > 0 {
      var e := node.entries[n - 1];
      var before := ChildResults(node, n - 1, dir);
      ChildrenPostOrder(node, n - 1, dir);
      if Entered(e) {
        var last := Results(e, dir + [e.name]);
        ResultsPostOrder(e, dir + [e.name]);
        ResultsUnder(e, dir + [e.name]);
        ChildrenUnder(node, n - 1, dir);
        forall i, j | 0 <= i < |before| && 0 <= j < |last| ensures !(before[i].dir <= last[j].dir) {
          assert before[i] in before && last[j] in last;
          var k :| 0 <= k < n - 1 && dir + [node.entries[k].name] <= before[i].dir;
          Apart(node, n - 1, k, dir, last[j].dir);
        }
      }
    }
  }

  /** The parent of every walked dir but the root is walked too. */
  lemma {:induction false} ParentsWalked(node: Node, dir: Path, d: Path)
    requires node.Folder? && Seen(Results(node, dir), d) && d != dir
    ensures d != [] && Seen(Results(node, dir), Parent(d))
    decreases node, 1
  {
    var results := Results(node, dir);
    var i :| 0 <= i < |results| && results[i].dir == d;
    var children := ChildResults(node, |node.entries|, dir);
    ParentsWalkedChild(node, |node.entries|, dir, i);
    assert results[|children|].dir == dir;
    if Parent(d) != dir {
      var j :| 0 <= j < |children| && children[j].dir == Parent(d);
      assert results[j].dir == Parent(d);
    }
  }

  lemma {:induction false} ParentsWalkedChild(node: Node, n: nat, dir: Path, i: nat)
    requires node.Folder? && n <= |node.entries| && i < |ChildResults(node, n, dir)|
    ensures var d := ChildResults(node, n, dir)[i].dir;
      d != [] && (Parent(d) == dir || Seen(ChildResults(node, n, dir), Parent(d)))
    decreases node, 0, n
  {
    var before := ChildResults(node, n - 1, dir);
    var all := ChildResults(node, n, dir);
    var d := all[i].dir;
    if i < |before| {
      ParentsWalkedChild(node, n - 1, dir, i);
      if Parent(d) != dir {
        var j :| 0 <= j < |before| && before[j].dir == Parent(d);
        assert all[j].dir == Parent(d);
      }
    } else {
      var e := node.entries[n - 1];
      var last := Results(e, dir + [e.name]);
      assert last[i - |before|].dir == d;
      if d != dir + [e.name] {
        ParentsWalked(e, dir + [e.name], d);
        var j :| 0 <= j < |last| && last[j].dir == Parent(d);
        assert all[|before| + j].dir == Parent(d);
      }
    }
  }

  // ----- every file once -----

  /** The tree has a regular file of this kind at the path, and no name on the path
      starts with a dot. */
  ghost predicate FileAt(node: Node, q: Path, kind: FileKind)
    decreases node
  {
    && node.Folder? && q != []
    && exists i :: 0 <= i < |node.entries| && var e := node.entries[i];
         && e.name == q[0] && !(e.name != "" && e.name[0] == '.')
         && if |q| == 1 then e.Leaf? && e.regular && ClassifyKind(e.name) == Some(kind)
            else e.Folder? && FileAt(e, q[1..], kind)
  }

  /** A path has one file, of one kind. */
  lemma {:induction false} OneKind(node: Node, q: Path, a: FileKind, b: FileKind)
    requires WellFormed(node) && FileAt(node, q, a) && FileAt(node, q, b)
    ensures a == b
    decreases node
  {
    var i :| 0 <= i < |node.entries| && node.entries[i].name == q[0]
      && if |q| == 1 then ClassifyKind(node.entries[i].name) == Some(a)
         else node.entries[i].Folder? && FileAt(node.entries[i], q[1..], a);
    var j :| 0 <= j < |node.entries| && node.entries[j].name == q[0]
      && if |q| == 1 then ClassifyKind(node.entries[j].name) == Some(b)
         else node.entries[j].Folder? && FileAt(node.entries[j], q[1..], b);
    assert i == j;
    if |q| > 1 { OneKind(node.entries[i], q[1..], a, b); }
  }

  predicate Picked(e: Node) {
    e.Leaf? && e.regular && !Hidden(e.name) && ClassifyKind(e.name).Some?
  }

  ghost predicate PickedAs(e: Node, dir: Path, p: Found) {
    Picked(e) && p == Found(dir + [e.name], ClassifyKind(e.name).value)
  }

  ghost predicate OwnAt(entries: seq<Node>, dir: Path, p: Found) {
    exists i :: 0 <= i < |entries| && PickedAs(entries[i], dir, p)
  }

  lemma NoFilePaths(dir: Path)
    ensures FilePaths(dir, []) == multiset{}
  {
  }

  lemma OneFilePath(dir: Path, f: WalkEntry)
    ensures FilePaths(dir, [f]) == multiset{FoundIn(dir, f)}
  {
  }

  lemma {:induction false} CountOwn(entries: seq<Node>, dir: Path, p: Found)
    requires forall i, j :: 0 <= i < j < |entries| ==> entries[i].name != entries[j].name
    ensures FilePaths(dir, OwnFiles(entries))[p] == if OwnAt(entries, dir, p) then 1 else 0
  {
    hide ClassifyKind, FilePaths;
    if entries == [] {
      assert FilePaths(dir, []) == multiset{} by { NoFilePaths(dir); }
    } else {
      var n := |entries| - 1;
      var init := entries[..n];
      CountOwn(init, dir, p);
      assert OwnAt(entries, dir, p) <==> OwnAt(init, dir, p) || PickedAs(entries[n], dir, p) by {
        assert forall i :: 0 <= i < n ==> init[i] == entries[i];
      }
      if OwnAt(init, dir, p) {
        var i :| 0 <= i < n && PickedAs(init[i], dir, p);
        assert p.path[|dir|] == init[i].name == entries[i].name != entries[n].name;
        assert (dir + [entries[n].name])[|dir|] == entries[n].name;
      }
      if Picked(entries[n]) {
        var last := WalkEntry([entries[n].name], ClassifyKind(entries[n].name).value);
        FilePathsAppend(dir, OwnFiles(init), [last]);
        OneFilePath(dir, last);
      } else {
        assert OwnFiles(entries) == OwnFiles(init);
      }
    }
  }

  lemma {:induction false} AllPathsAppend(a: seq<WalkResult>, b: seq<WalkResult>)
    ensures AllPaths(a + b) == AllPaths(a) + AllPaths(b)
  {
    if b == [] {
      assert a + b == a;
    } else {
      assert (a + b)[..|a + b| - 1] == a + b[..|b| - 1];
      AllPathsAppend(a, b[..|b| - 1]);
    }
  }

  ghost predicate ChildAt(node: Node, n: nat, dir: Path, p: Found)
    requires node.Folder? && n <= |node.entries|
  {
    exists i :: 0 <= i < n && InEntry(node.entries[i], dir, p)
  }

  ghost predicate InEntry(e: Node, dir: Path, p: Found) {
    Entered(e) && dir + [e.name] <= p.path && FileAt(e, p.path[|dir| + 1..], p.kind)
  }

  lemma {:induction false} CountChildren(node: Node, n: nat, dir: Path, p: Found)
    requires node.Folder? && WellFormed(node) && n <= |node.entries|
    ensures AllPaths(ChildResults(node, n, dir))[p] == if ChildAt(node, n, dir, p) then 1 else 0
    decreases node, 0, n
  {
    hide FilePaths, FileAt, Results, WellFormed, AllPaths;
    if n == 0 {
      assert AllPaths([]) == multiset{} by { NoPaths(); }
    } else {
      var e := node.entries[n - 1];
      CountChildren(node, n - 1, dir, p);
      OneChild(node, n, dir, p);
      if Entered(e) {
        assert WellFormed(e) by { EntriesWellFormed(node, n - 1); }
        CountResults(e, dir + [e.name], p);
        AllPathsAppend(ChildResults(node, n - 1, dir), Results(e, dir + [e.name]));
      } else {
        assert ChildResults(node, n, dir) == ChildResults(node, n - 1, dir);
      }
    }
  }

  lemma NoPaths()
    ensures AllPaths([]) == multiset{}
  {
  }

  lemma EntriesWellFormed(node: Node, i: nat)
    requires node.Folder? && WellFormed(node) && i < |node.entries|
    ensures WellFormed(node.entries[i])
  {
  }

  /** A path leads into at most one child. */
  lemma OneChild(node: Node, n: nat, dir: Path, p: Found)
    requires node.Folder? && WellFormed(node) && 0 < n <= |node.entries|
    ensures ChildAt(node, n, dir, p) <==> ChildAt(node, n - 1, dir, p) || InEntry(node.entries[n - 1], dir, p)
    ensures !(ChildAt(node, n - 1, dir, p) && InEntry(node.entries[n - 1], dir, p))
  {
    hide FileAt, Entered;
    if ChildAt(node, n - 1, dir, p) {
      var i :| 0 <= i < n - 1 && InEntry(node.entries[i], dir, p);
      Apart(node, i, n - 1, dir, p.path);
    }
  }

  /** The visited files are exactly the tree's visible media files, each visited once. */
  lemma {:induction false} CountResults(node: Node, dir: Path, p: Found)
    requires node.Folder? && WellFormed(node)
    ensures AllPaths(Results(node, dir))[p] == if dir <= p.path && FileAt(node, p.path[|dir|..], p.kind) then 1 else 0
    decreases node, 1
  {
    hide FilePaths, ChildResults;
    var n := |node.entries|;
    var own := WalkResult(dir, OwnFiles(node.entries));
    CountChildren(node, n, dir, p);
    CountOwn(node.entries, dir, p);
    AllPathsAppend(ChildResults(node, n, dir), [own]);
    assert AllPaths([own]) == FilePaths(dir, own.files) by {
      assert [own][..0] == [];
    }
    FileAtCases(node, dir, p);
  }

  /** A file lies in the folder itself or inside one of its children. */
  lemma FileAtCases(node: Node, dir: Path, p: Found)
    requires node.Folder?
    ensures dir <= p.path && FileAt(node, p.path[|dir|..], p.kind) <==>
      OwnAt(node.entries, dir, p) || ChildAt(node, |node.entries|, dir, p)
    ensures !(OwnAt(node.entries, dir, p) && ChildAt(node, |node.entries|, dir, p))
  {
  }

  // ----- the whole walk -----

  /** After a successful walk of a tree: every media file is emitted or still
      pending, under its own path and exactly once; every walked dir that is not
      a disc is emitted once, after everything inside it; and what stays pending
      are the disc dirs whose parent is a disc dir too. */
  method WalkRoot(root: Node, cancelAfter: Option<nat>) returns (ok: bool, merger: DiscMerger)
    requires root.Folder? && WellFormed(root)
    ensures Readable(root) && cancelAfter == None ==> ok
    ensures ok ==> Readable(root)
    ensures ok ==>
      && (forall p: Found :: (AllPaths(merger.emitted) + PendingPaths(merger.pending))[p]
            == if FileAt(root, p.path, p.kind) then 1 else 0)
      && Dirs(merger.emitted) == NonDiscDirs(Results(root, []))
      && PostOrder(Results(root, []))
      && PlainNames(merger.emitted)
      && (forall d :: d in merger.pending <==> Seen(Results(root, []), d) && IsDisc(d) && IsDisc(Parent(d)))
  {
    hide FilePaths, PendingPaths, IsDiscName, FileAt, OwnFiles;
    merger := new DiscMerger(cancelAfter);
    assert merger.Valid() by { EmptyMerged(); }
    ok := WalkPostOrder(root, [], merger);
    if ok {
      var results := Results(root, []);
      assert merger.seen == results;
      ResultsPostOrder(root, []);
      forall p: Found ensures AllPaths(results)[p] == if FileAt(root, p.path, p.kind) then 1 else 0 {
        CountResults(root, [], p);
        assert p.path[0..] == p.path;
      }
      RootNotDisc();
      forall d ensures d in merger.pending <==> Seen(results, d) && IsDisc(d) && IsDisc(Parent(d)) {
        assert d in merger.pending <==> Waits(results, d);
        if Seen(results, d) && IsDisc(d) { ParentsWalked(root, [], d); }
      }
    }
  }

  lemma EmptyMerged()
    ensures Merged([], map[], [])
  {
  }
}
