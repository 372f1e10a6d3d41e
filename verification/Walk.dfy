/** The recursive post-order walk and the buffering disc merger behind it. A
    path is its list of components, and the walked root is the empty path. */
module Walk {
  import opened Basics
  import opened Tables

  type Path = seq<string>

  /** A directory entry. Unreadable stands for a folder whose listing fails. */
  datatype Node =
    | Folder(name: string, entries: seq<Node>)
    | Unreadable(name: string)
    | Leaf(name: string, regular: bool)

  /** A file's name within the emitted dir: its base name, or disc folder and base name. */
  datatype WalkEntry = WalkEntry(name: Path, kind: FileKind)
  datatype WalkResult = WalkResult(dir: Path, files: seq<WalkEntry>)

  // ----- names -----

  /** Case folding, as far as the letters of the disc pattern go. */
  function FoldCase(c: char): char {
    if 'A' <= c <= 'Z' then c - 'A' + 'a' else if c == '\U{17F}' then 's' else c
  }

  /** Lowercasing, as far as it yields ASCII letters. */
  function ToLower(c: char): char {
    if 'A' <= c <= 'Z' then c - 'A' + 'a' else if c == '\U{130}' then 'i' else if c == '\U{212A}' then 'k' else c
  }

  predicate Separator(c: char) {
    c in "\t\n\r ._-" || c == '\U{0C}'
  }

  predicate Digit(c: char) {
    '0' <= c <= '9'
  }

  function SkipSeparators(s: string): string {
    if s != "" && Separator(s[0]) then SkipSeparators(s[1..]) else s
  }

  function SkipDigits(s: string): string {
    if s != "" && Digit(s[0]) then SkipDigits(s[1..]) else s
  }

  /** What may follow "cd" or "disc": separators, digits, then nothing or a
      separator and anything but a line break. */
  predicate DiscNumber(s: string) {
    var number := SkipSeparators(s);
    var rest := SkipDigits(number);
    && number != "" && Digit(number[0])
    && (rest == "" || (Separator(rest[0]) && forall i :: 1 <= i < |rest| ==> rest[i] != '\n'))
  }

  predicate IsDiscName(name: string) {
    || (|name| >= 2 && FoldCase(name[0]) == 'c' && FoldCase(name[1]) == 'd' && DiscNumber(name[2..]))
    || (|name| >= 4 && FoldCase(name[0]) == 'd' && FoldCase(name[1]) == 'i' && FoldCase(name[2]) == 's'
        && FoldCase(name[3]) == 'c' && DiscNumber(name[4..]))
  }

  function Base(p: Path): string {
    if p == [] then "." else p[|p| - 1]
  }

  function Parent(p: Path): Path {
    if p == [] then [] else p[..|p| - 1]
  }

  predicate IsDisc(p: Path) {
    IsDiscName(Base(p))
  }

  predicate Hidden(name: string) {
    name != "" && name[0] == '.'
  }

  function Extension(name: string): string
    decreases |name|
  {
    if name == "" then ""
    else if exists i :: 1 <= i < |name| && name[i] == '.' then Extension(name[1..])
    else if name[0] == '.' then name
    else ""
  }

  function LowerAll(s: string): string {
    if s == "" then "" else [ToLower(s[0])] + LowerAll(s[1..])
  }

  function ClassifyKind(name: string): Option<FileKind> {
    var ext := LowerAll(Extension(name));
    if ext in [".flac", ".mp3", ".ogg", ".m4a", ".aiff", ".aif", ".wav", ".opus", ".ape", ".wv"] then Some(Audio)
    else if ext in [".jpg", ".jpeg", ".png", ".gif", ".webp"] then Some(Image)
    else None
  }

  // ----- what a walk visits -----

  function OwnFiles(entries: seq<Node>): seq<WalkEntry> {
    if entries == [] then []
    else
      var n := |entries| - 1;
      var e := entries[n];
      OwnFiles(entries[..n]) +
      if e.Leaf? && e.regular && !Hidden(e.name) && ClassifyKind(e.name).Some?
      then [WalkEntry([e.name], ClassifyKind(e.name).value)] else []
  }

  predicate Entered(e: Node) {
    e.Folder? && !Hidden(e.name)
  }

  /** The results of a whole subtree, children before their parent. */
  function Results(node: Node, dir: Path): seq<WalkResult>
    requires node.Folder?
    decreases node, 1
  {
    ChildResults(node, |node.entries|, dir) + [WalkResult(dir, OwnFiles(node.entries))]
  }

  /** The results of the folders among the first n entries. */
  function ChildResults(node: Node, n: nat, dir: Path): seq<WalkResult>
    requires node.Folder? && n <= |node.entries|
    decreases node, 0, n
  {
    if n == 0 then []
    else
      var e := node.entries[n - 1];
      ChildResults(node, n - 1, dir) + if Entered(e) then Results(e, dir + [e.name]) else []
  }

  /** Entry names are distinct within a folder. */
  ghost predicate WellFormed(node: Node) {
    node.Folder? ==>
      && (forall i, j :: 0 <= i < j < |node.entries| ==> node.entries[i].name != node.entries[j].name)
      && (forall i :: 0 <= i < |node.entries| ==> WellFormed(node.entries[i]))
  }

  /** Every folder that the walk enters can be listed. */
  ghost predicate Readable(node: Node) {
    match node
    case Folder(_, entries) => forall i :: 0 <= i < |entries| && !Hidden(entries[i].name) ==> Readable(entries[i])
    case Unreadable(_) => false
    case Leaf(_, _) => true
  }

  // ----- files by their full path -----

  /** A file at its full path, and what kind it is handed over as. */
  datatype Found = Found(path: Path, kind: FileKind)

  function FoundIn(dir: Path, f: WalkEntry): Found {
    Found(dir + f.name, f.kind)
  }

  function FilePaths(dir: Path, files: seq<WalkEntry>): multiset<Found> {
    if files == [] then multiset{}
    else FilePaths(dir, files[..|files| - 1]) + multiset{FoundIn(dir, files[|files| - 1])}
  }

  function AllPaths(results: seq<WalkResult>): multiset<Found> {
    if results == [] then multiset{}
    else
      var last := results[|results| - 1];
      AllPaths(results[..|results| - 1]) + FilePaths(last.dir, last.files)
  }

  ghost function Pick(m: map<Path, multiset<Found>>): Path
    requires m.Keys != {}
    ensures Pick(m) in m
  {
    var d :| d in m.Keys; d
  }

  ghost function Total(m: map<Path, multiset<Found>>): multiset<Found>
    decreases |m|
  {
    if m.Keys == {} then multiset{} else m[Pick(m)] + Total(m - {Pick(m)})
  }

  lemma {:induction false} TotalRemove(m: map<Path, multiset<Found>>, d: Path)
    requires d in m
    ensures Total(m) == m[d] + Total(m - {d})
    decreases |m|
  {
    var first := Pick(m);
    if first != d {
      var rest := (m - {first}) - {d};
      TotalRemove(m - {first}, d);
      TotalRemove(m - {d}, first);
      assert (m - {d}) - {first} == rest;
      Swap(m[first], m[d], Total(rest));
    }
  }

  lemma Swap(a: multiset<Found>, b: multiset<Found>, c: multiset<Found>)
    ensures a + (b + c) == b + (a + c)
  {
  }

  lemma Rebalance(sent: multiset<Found>, waiting: multiset<Found>, told: multiset<Found>, own: multiset<Found>,
                  merged: multiset<Found>, left: multiset<Found>)
    requires sent + waiting == told && merged + left == own + waiting
    ensures (sent + merged) + left == told + own
  {
    assert (sent + merged) + left == sent + (merged + left);
    assert sent + (own + waiting) == (sent + waiting) + own;
  }

  function Contents(pending: map<Path, WalkResult>): map<Path, multiset<Found>> {
    map d | d in pending :: FilePaths(pending[d].dir, pending[d].files)
  }

  /** Paths of the files that wait in the merger. */
  ghost function PendingPaths(pending: map<Path, WalkResult>): multiset<Found> {
    Total(Contents(pending))
  }

  lemma PendingRemove(pending: map<Path, WalkResult>, d: Path)
    requires d in pending
    ensures PendingPaths(pending) == FilePaths(pending[d].dir, pending[d].files) + PendingPaths(pending - {d})
  {
    TotalRemove(Contents(pending), d);
    assert Contents(pending - {d}) == Contents(pending) - {d};
  }

  lemma {:induction false} FilePathsAppend(dir: Path, a: seq<WalkEntry>, b: seq<WalkEntry>)
    ensures FilePaths(dir, a + b) == FilePaths(dir, a) + FilePaths(dir, b)
  {
    if b == [] {
      assert a + b == a;
    } else {
      assert (a + b)[..|a + b| - 1] == a + b[..|b| - 1];
      FilePathsAppend(dir, a, b[..|b| - 1]);
    }
  }

  /** A disc's files, renamed for its parent album. */
  function Prefixed(disc: string, files: seq<WalkEntry>): seq<WalkEntry> {
    seq(|files|, i requires 0 <= i < |files| => files[i].(name := [disc] + files[i].name))
  }

  lemma {:induction false} PrefixedPaths(dir: Path, disc: string, files: seq<WalkEntry>)
    ensures FilePaths(dir, Prefixed(disc, files)) == FilePaths(dir + [disc], files)
  {
    if files != [] {
      var n := |files| - 1;
      PrefixedPaths(dir, disc, files[..n]);
      assert Prefixed(disc, files)[..n] == Prefixed(disc, files[..n]);
      assert dir + ([disc] + files[n].name) == (dir + [disc]) + files[n].name;
      assert FoundIn(dir, Prefixed(disc, files)[n]) == FoundIn(dir + [disc], files[n]);
    }
  }

  // ----- the merger's invariant -----

  ghost predicate Seen(results: seq<WalkResult>, d: Path) {
    exists i :: 0 <= i < |results| && results[i].dir == d
  }

  function NonDiscDirs(results: seq<WalkResult>): seq<Path> {
    if results == [] then []
    else
      var last := results[|results| - 1];
      NonDiscDirs(results[..|results| - 1]) + if IsDisc(last.dir) then [] else [last.dir]
  }

  function Dirs(results: seq<WalkResult>): seq<Path> {
    seq(|results|, i requires 0 <= i < |results| => results[i].dir)
  }

  /** A disc dir waits until its parent is seen, and for ever if the parent is a disc. */
  ghost predicate Waits(seen: seq<WalkResult>, d: Path) {
    Seen(seen, d) && IsDisc(d) && (IsDisc(Parent(d)) || !Seen(seen, Parent(d)))
  }

  /** Emitted names are base names, or a disc folder and a base name. */
  ghost predicate PlainNames(emitted: seq<WalkResult>) {
    forall r :: r in emitted ==> MergedNames(r.files)
  }

  /** Where everything seen so far has gone. */
  ghost predicate Merged(seen: seq<WalkResult>, pending: map<Path, WalkResult>, emitted: seq<WalkResult>) {
    && (forall d :: d in pending <==> Waits(seen, d))
    && (forall d :: d in pending ==> pending[d].dir == d && pending[d] in seen)
    && Dirs(emitted) == NonDiscDirs(seen)
    && AllPaths(emitted) + PendingPaths(pending) == AllPaths(seen)
    && PlainNames(emitted)
    && (forall r :: r in seen ==> BaseNames(r.files))
  }

  class DiscMerger {
    var pending: map<Path, WalkResult>
    var emitted: seq<WalkResult>
    ghost var seen: seq<WalkResult>
    /** The emitter is cancelled once it has taken this many dirs. */
    const cancelAfter: Option<nat>

    constructor (cancelAfter: Option<nat>)
      ensures pending == map[] && emitted == [] && seen == [] && this.cancelAfter == cancelAfter
    {
      pending, emitted, seen := map[], [], [];
      this.cancelAfter := cancelAfter;
    }

    ghost predicate Valid()
      reads this
    {
      Merged(seen, pending, emitted)
    }

    method Emit(res: WalkResult) returns (ok: bool)
      modifies `emitted
      ensures emitted == if ok then old(emitted) + [res] else old(emitted)
      ensures cancelAfter == None ==> ok
    {
      ok := cancelAfter.None? || |emitted| < cancelAfter.value;
      if ok { emitted := emitted + [res]; }
    }

    /** Folds the waiting discs of `dir` into its files, in any order. */
    method TakeDiscs(dir: Path, files: seq<WalkEntry>) returns (merged: seq<WalkEntry>)
      requires OnlyDiscs(pending) && BaseNames(files)
      modifies `pending
      ensures pending == map d | d in old(pending) && Parent(d) != dir :: old(pending)[d]
      ensures FilePaths(dir, merged) + PendingPaths(pending) == FilePaths(dir, files) + PendingPaths(old(pending))
      ensures MergedNames(merged)
    {
      hide FilePaths, PendingPaths, MergedNames, Prefixed;
      assert MergedNames(files) by { BaseNamesMerge(files); }
      merged := files;
      var todo := set d | d in pending && Parent(d) == dir;
      ghost var before := pending;
      while todo != {}
        invariant todo <= pending.Keys
        invariant forall d :: d in todo <==> d in pending && Parent(d) == dir
        invariant forall d :: d in pending ==> d in before && pending[d] == before[d]
        invariant forall d :: d in before && Parent(d) != dir ==> d in pending
        invariant FilePaths(dir, merged) + PendingPaths(pending) == FilePaths(dir, files) + PendingPaths(before)
        invariant MergedNames(merged)
        decreases todo
      {
        var d :| d in todo;
        var disc := pending[d];
        TakeOne(dir, merged, pending, d);
        pending := pending - {d};
        todo := todo - {d};
        merged := merged + Prefixed(Base(disc.dir), disc.files);
      }
    }

    /** Buffers a disc dir; any other dir takes its discs and is emitted. */
    method Process(res: WalkResult) returns (ok: bool)
      requires Valid() && BaseNames(res.files)
      requires !Seen(seen, res.dir) && !Seen(seen, Parent(res.dir))
      modifies this
      ensures ok ==> Valid() && seen == old(seen) + [res]
      ensures cancelAfter == None ==> ok
    {
      ghost var told := seen;
      RootNotDisc();
      if IsDisc(res.dir) {
        ghost var before := pending;
        pending := pending[res.dir := res];
        seen := seen + [res];
        MergedBuffer(told, before, emitted, res);
        return true;
      }
      ghost var before, sent := pending, emitted;
      var files := TakeDiscs(res.dir, res.files);
      ok := Emit(WalkResult(res.dir, files));
      if ok {
        seen := seen + [res];
        MergedEmit(told, before, sent, res, files);
      }
    }
  }

  /** One disc moves from the waiting ones into its parent's files. */
  lemma TakeOne(dir: Path, merged: seq<WalkEntry>, pending: map<Path, WalkResult>, d: Path)
    requires OnlyDiscs(pending) && d in pending && Parent(d) == dir && MergedNames(merged)
    ensures var moved := Prefixed(Base(pending[d].dir), pending[d].files);
      && FilePaths(dir, merged + moved) + PendingPaths(pending - {d}) == FilePaths(dir, merged) + PendingPaths(pending)
      && MergedNames(merged + moved)
  {
    hide FilePaths, PendingPaths, IsDiscName;
    var disc := pending[d];
    PendingRemove(pending, d);
    assert d == dir + [Base(disc.dir)];
    PrefixedPaths(dir, Base(disc.dir), disc.files);
    FilePathsAppend(dir, merged, Prefixed(Base(disc.dir), disc.files));
  }

  ghost predicate BaseNames(files: seq<WalkEntry>) {
    forall f :: f in files ==> |f.name| == 1
  }

  ghost predicate MergedNames(files: seq<WalkEntry>) {
    forall f :: f in files ==> |f.name| == 1 || (|f.name| == 2 && IsDiscName(f.name[0]))
  }

  lemma BaseNamesMerge(files: seq<WalkEntry>)
    requires BaseNames(files)
    ensures MergedNames(files)
  {
  }

  ghost predicate OnlyDiscs(pending: map<Path, WalkResult>) {
    forall d :: d in pending ==> pending[d].dir == d && d != [] && IsDisc(d) && BaseNames(pending[d].files)
  }

  lemma MergedBuffer(seen: seq<WalkResult>, pending: map<Path, WalkResult>, emitted: seq<WalkResult>, res: WalkResult)
    requires Merged(seen, pending, emitted) && IsDisc(res.dir) && BaseNames(res.files)
    requires !Seen(seen, res.dir) && !Seen(seen, Parent(res.dir))
    ensures Merged(seen + [res], pending[res.dir := res], emitted)
  {
    hide IsDisc, FilePaths, PendingPaths, MergedNames;
    var after, now := seen + [res], pending[res.dir := res];
    SeenMore(seen, res);
    PendingRemove(now, res.dir);
    assert now - {res.dir} == pending;
    RootNotDisc();
    assert Parent(res.dir) != res.dir;
    forall d ensures d in now <==> Waits(after, d) {
      assert d in pending <==> Waits(seen, d);
      ChildOfDisc(seen, d, res.dir);
    }
  }

  /** Seeing a disc frees none of the discs inside it. */
  lemma ChildOfDisc(seen: seq<WalkResult>, d: Path, disc: Path)
    requires IsDisc(disc)
    ensures Parent(d) == disc ==> IsDisc(Parent(d))
  {
  }

  lemma EmitPaths(seen: seq<WalkResult>, pending: map<Path, WalkResult>, now: map<Path, WalkResult>,
                  emitted: seq<WalkResult>, res: WalkResult, files: seq<WalkEntry>)
    requires AllPaths(emitted) + PendingPaths(pending) == AllPaths(seen)
    requires FilePaths(res.dir, files) + PendingPaths(now) == FilePaths(res.dir, res.files) + PendingPaths(pending)
    ensures AllPaths(emitted + [WalkResult(res.dir, files)]) + PendingPaths(now) == AllPaths(seen + [res])
  {
    hide FilePaths, PendingPaths;
    var after, sent := seen + [res], emitted + [WalkResult(res.dir, files)];
    assert after[..|after| - 1] == seen && sent[..|sent| - 1] == emitted;
    Rebalance(AllPaths(emitted), PendingPaths(pending), AllPaths(seen), FilePaths(res.dir, res.files),
              FilePaths(res.dir, files), PendingPaths(now));
  }

  lemma MergedEmit(seen: seq<WalkResult>, pending: map<Path, WalkResult>, emitted: seq<WalkResult>, res: WalkResult,
                   files: seq<WalkEntry>)
    requires Merged(seen, pending, emitted) && !IsDisc(res.dir) && BaseNames(res.files) && MergedNames(files)
    requires !Seen(seen, res.dir) && !Seen(seen, Parent(res.dir))
    requires var now := map d | d in pending && Parent(d) != res.dir :: pending[d];
      FilePaths(res.dir, files) + PendingPaths(now) == FilePaths(res.dir, res.files) + PendingPaths(pending)
    ensures var now := map d | d in pending && Parent(d) != res.dir :: pending[d];
      Merged(seen + [res], now, emitted + [WalkResult(res.dir, files)])
  {
    hide IsDisc, FilePaths, PendingPaths, MergedNames, AllPaths, BaseNames, Seen, NonDiscDirs, Parent;
    var now := map d | d in pending && Parent(d) != res.dir :: pending[d];
    var after, sent := seen + [res], emitted + [WalkResult(res.dir, files)];
    SeenMore(seen, res);
    assert Dirs(sent) == Dirs(emitted) + [res.dir];
    forall d ensures d in now <==> Waits(after, d) {
      assert d in pending <==> Waits(seen, d);
    }
    assert forall d :: d in now ==> now[d].dir == d && now[d] in after;
    assert Dirs(sent) == NonDiscDirs(after);
    EmitPaths(seen, pending, now, emitted, res, files);
  }

  lemma RootNotDisc()
    ensures !IsDisc([])
  {
  }

  lemma SeenMore(seen: seq<WalkResult>, res: WalkResult)
    ensures var after := seen + [res];
      && after[..|after| - 1] == seen
      && (forall d :: Seen(after, d) <==> Seen(seen, d) || d == res.dir)
      && AllPaths(after) == AllPaths(seen) + FilePaths(res.dir, res.files)
      && NonDiscDirs(after) == NonDiscDirs(seen) + if IsDisc(res.dir) then [] else [res.dir]
  {
    var after := seen + [res];
    assert after[..|after| - 1] == seen;
    forall d ensures Seen(after, d) <==> Seen(seen, d) || d == res.dir {
      if Seen(seen, d) {
        var i :| 0 <= i < |seen| && seen[i].dir == d;
        assert after[i].dir == d;
      }
      assert after[|seen|].dir == res.dir;
    }
  }
}
