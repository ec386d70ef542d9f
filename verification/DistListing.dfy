/** Listing the JavaScript modules of an installed package, up to a limit
    (scripts/openclaw-npm-postpublish-verify.ts): a stack of folders still to be read. */
module DistListing {
  import opened Wrappers
  import opened Sequences

  /** A folder with its entries in reading order, a regular file with a module's name, or anything else. */
  datatype Node = Folder(entries: seq<Entry>) | JavaScriptModule | Other

  datatype Entry = Entry(name: string, node: Node)

  /** A path relative to the dist folder. */
  type Rel = seq<string>

  type Skip = Rel -> bool

  /** A folder on the stack. */
  datatype Pending = Pending(at: Rel, entries: seq<Entry>)

  // ---- the traversal, as functions

  function NodeSize(n: Node): nat {
    if n.Folder? then 1 + EntriesSize(n.entries) else 0
  }

  function EntriesSize(entries: seq<Entry>): nat {
    if entries == [] then 0 else EntriesSize(entries[..|entries| - 1]) + NodeSize(entries[|entries| - 1].node)
  }

  function StackSize(stack: seq<Pending>): nat {
    if stack == [] then 0 else StackSize(stack[..|stack| - 1]) + 1 + EntriesSize(stack[|stack| - 1].entries)
  }

  /** What an entry of a folder adds to the files and to the stack. */
  function FileOf(at: Rel, e: Entry, skip: Skip): seq<Rel> {
    if !skip(at + [e.name]) && e.node.JavaScriptModule? then [at + [e.name]] else []
  }

  function FolderOf(at: Rel, e: Entry, skip: Skip): seq<Pending> {
    if !skip(at + [e.name]) && e.node.Folder? then [Pending(at + [e.name], e.node.entries)] else []
  }

  function FilesIn(p: Pending, skip: Skip): seq<Rel>
    decreases |p.entries|
  {
    if p.entries == [] then []
    else
      var n := |p.entries| - 1;
      FilesIn(Pending(p.at, p.entries[..n]), skip) + FileOf(p.at, p.entries[n], skip)
  }

  function FoldersIn(p: Pending, skip: Skip): (r: seq<Pending>)
    ensures StackSize(r) <= EntriesSize(p.entries)
    decreases |p.entries|
  {
    if p.entries == [] then []
    else
      var n := |p.entries| - 1;
      var before := FoldersIn(Pending(p.at, p.entries[..n]), skip);
      StackSizeAppend(before, FolderOf(p.at, p.entries[n], skip));
      before + FolderOf(p.at, p.entries[n], skip)
  }

  lemma {:induction false} StackSizeAppend(a: seq<Pending>, b: seq<Pending>)
    ensures StackSize(a + b) == StackSize(a) + StackSize(b)
    ensures |b| == 1 ==> StackSize(b) == 1 + EntriesSize(b[0].entries)
    decreases |b|
  {
    if b == [] {
      assert a + b == a;
    } else {
      assert (a + b)[..|a + b| - 1] == a + b[..|b| - 1];
      StackSizeAppend(a, b[..|b| - 1]);
    }
  }

  /** The files in the order in which they are found. */
  function Listed(stack: seq<Pending>, skip: Skip): seq<Rel>
    decreases StackSize(stack)
  {
    if stack == [] then []
    else
      var rest, top := stack[..|stack| - 1], stack[|stack| - 1];
      StackSizeAppend(rest, FoldersIn(top, skip));
      FilesIn(top, skip) + Listed(rest + FoldersIn(top, skip), skip)
  }

  // ---- the traversal in place

  predicate Exceeds(files: seq<Rel>, maxFiles: Option<nat>) { maxFiles.Some? && |files| > maxFiles.value }

  /** Files found before the limit is hit; the last one may be the one that hits it. */
  predicate Cut(files: seq<Rel>, all: seq<Rel>, maxFiles: Option<nat>) {
    Exceeds(all, maxFiles) && files == all[..maxFiles.value + 1]
  }

  lemma CutLonger(files: seq<Rel>, all: seq<Rel>, more: seq<Rel>, maxFiles: Option<nat>)
    requires Cut(files, all, maxFiles)
    ensures Cut(files, all + more, maxFiles)
  {
  }

  lemma PrefixIn(p: Pending, i: nat, skip: Skip)
    requires i < |p.entries|
    ensures FilesIn(Pending(p.at, p.entries[..i + 1]), skip) == FilesIn(Pending(p.at, p.entries[..i]), skip)
      + FileOf(p.at, p.entries[i], skip)
    ensures FoldersIn(Pending(p.at, p.entries[..i + 1]), skip) == FoldersIn(Pending(p.at, p.entries[..i]), skip)
      + FolderOf(p.at, p.entries[i], skip)
  {
    assert p.entries[..i + 1][..i] == p.entries[..i];
  }

  lemma {:induction false} FilesPrefix(p: Pending, i: nat, skip: Skip) returns (more: seq<Rel>)
    requires i <= |p.entries|
    ensures FilesIn(p, skip) == FilesIn(Pending(p.at, p.entries[..i]), skip) + more
    decreases |p.entries| - i
  {
    if i == |p.entries| {
      assert p.entries[..i] == p.entries;
      more := [];
    } else {
      PrefixIn(p, i, skip);
      var tail := FilesPrefix(p, i + 1, skip);
      more := FileOf(p.at, p.entries[i], skip) + tail;
      Associative(FilesIn(Pending(p.at, p.entries[..i]), skip), FileOf(p.at, p.entries[i], skip), tail);
    }
  }

  lemma CutIs(files: seq<Rel>, more: seq<Rel>, maxFiles: Option<nat>)
    requires maxFiles.Some? && |files| == maxFiles.value + 1
    ensures Cut(files, files + more, maxFiles)
  {
  }

  /** One entry: a folder is put on the stack, a module is a file, and nothing comes of a skipped one. */
  method ReadEntry(at: Rel, entry: Entry, skip: Skip) returns (file: seq<Rel>, folder: seq<Pending>)
    ensures file == FileOf(at, entry, skip) && folder == FolderOf(at, entry, skip)
  {
    var relativePath := at + [entry.name];
    if skip(relativePath) { return [], []; }
    if entry.node.Folder? { return [], [Pending(relativePath, entry.node.entries)]; }
    if entry.node.JavaScriptModule? { return [relativePath], []; }
    return [], [];
  }

  lemma CutInside(found: seq<Rel>, p: Pending, i: nat, skip: Skip, maxFiles: Option<nat>)
    requires i <= |p.entries| && maxFiles.Some?
    requires |found + FilesIn(Pending(p.at, p.entries[..i]), skip)| == maxFiles.value + 1
    ensures Cut(found + FilesIn(Pending(p.at, p.entries[..i]), skip), found + FilesIn(p, skip), maxFiles)
  {
    var more := FilesPrefix(p, i, skip);
    var now := FilesIn(Pending(p.at, p.entries[..i]), skip);
    Associative(found, now, more);
    CutIs(found + now, more, maxFiles);
  }

  /** Reading one folder. */
  method ReadFolder(p: Pending, skip: Skip, maxFiles: Option<nat>, found: seq<Rel>)
    returns (files: seq<Rel>, folders: seq<Pending>, exceeded: bool)
    requires !Exceeds(found, maxFiles)
    ensures exceeded ==> Cut(files, found + FilesIn(p, skip), maxFiles)
    ensures !exceeded
         ==> !Exceeds(files, maxFiles) && files == found + FilesIn(p, skip) && folders == FoldersIn(p, skip)
  {
    files, folders := found, [];
    ghost var here: seq<Rel> := [];
    for i := 0 to |p.entries|
      invariant !Exceeds(files, maxFiles) && files == found + here
      invariant here == FilesIn(Pending(p.at, p.entries[..i]), skip)
      invariant folders == FoldersIn(Pending(p.at, p.entries[..i]), skip)
    {
      PrefixIn(p, i, skip);
      var file, folder := ReadEntry(p.at, p.entries[i], skip);
      Associative(found, here, file);
      here := here + file;
      folders := folders + folder;
      files := files + file;
      if Exceeds(files, maxFiles) {
        CutInside(found, p, i + 1, skip, maxFiles);
        return files, folders, true;
      }
    }
    assert p.entries[..|p.entries|] == p.entries;
    return files, folders, false;
  }

  lemma ListedStep(rest: seq<Pending>, top: Pending, skip: Skip)
    ensures Listed(rest + [top], skip) == FilesIn(top, skip) + Listed(rest + FoldersIn(top, skip), skip)
    ensures StackSize(rest + FoldersIn(top, skip)) < StackSize(rest + [top])
  {
    assert (rest + [top])[..|rest|] == rest;
    StackSizeAppend(rest, FoldersIn(top, skip));
    StackSizeAppend(rest, [top]);
  }

  /** The files of the dist folder, if there is one; when they are more than allowed, the first ones, one too many. */
  method ListDistJavaScriptFiles(dist: Option<seq<Entry>>, skip: Skip, maxFiles: Option<nat>)
    returns (files: seq<Rel>, limitExceeded: bool)
    ensures var all := if dist.Some? then Listed([Pending([], dist.value)], skip) else [];
      limitExceeded == Exceeds(all, maxFiles) && files == if limitExceeded then all[..maxFiles.value + 1] else all
  {
    files := [];
    if dist.None? { return [], false; }
    var pending := [Pending([], dist.value)];
    ghost var all := Listed(pending, skip);
    while pending != []
      invariant files + Listed(pending, skip) == all && !Exceeds(files, maxFiles)
      decreases StackSize(pending)
    {
      var rest, top := pending[..|pending| - 1], pending[|pending| - 1];
      assert pending == rest + [top];
      ListedStep(rest, top, skip);
      Associative(files, FilesIn(top, skip), Listed(rest + FoldersIn(top, skip), skip));
      ghost var read := files + FilesIn(top, skip);
      var folders, exceeded;
      files, folders, exceeded := ReadFolder(top, skip, maxFiles, files);
      if exceeded {
        CutLonger(files, read, Listed(rest + FoldersIn(top, skip), skip), maxFiles);
        return files, true;
      }
      pending := rest + folders;
    }
    return files, false;
  }

  // ---- which files those are

  /** Following a path down from a folder: no step is skipped, and it ends at a module. */
  predicate Lies(at: Rel, entries: seq<Entry>, path: Rel, skip: Skip)
    decreases |path|
  {
    path != [] && !skip(at + [path[0]])
    && exists k :: 0 <= k < |entries| && entries[k].name == path[0] && Ends(at, entries[k].node, path, skip)
  }

  predicate Ends(at: Rel, n: Node, path: Rel, skip: Skip)
    requires path != []
    decreases |path|, 0
  {
    match n
    case JavaScriptModule => |path| == 1
    case Folder(sub) => Lies(at + [path[0]], sub, path[1..], skip)
    case Other => false
  }

  ghost predicate LiesUnder(p: Pending, f: Rel, skip: Skip) {
    p.at <= f && Lies(p.at, p.entries, f[|p.at|..], skip)
  }

  /** One folder's share of a file. */
  ghost predicate Holds(at: Rel, e: Entry, f: Rel, skip: Skip) {
    at <= f && f[|at|..] != [] && !skip(at + [f[|at|]]) && e.name == f[|at|] && Ends(at, e.node, f[|at|..], skip)
  }

  lemma HoldsIs(at: Rel, e: Entry, f: Rel, skip: Skip)
    ensures Holds(at, e, f, skip)
         <==> f in FileOf(at, e, skip) || exists q :: q in FolderOf(at, e, skip) && LiesUnder(q, f, skip)
  {
    var here := at + [e.name];
    if here <= f {
      assert at <= f && f[|at|] == e.name && f[|at|..][1..] == f[|here|..];
      assert |f[|at|..]| == 1 <==> f == here;
    }
    if Holds(at, e, f, skip) {
      assert here <= f;
      if e.node.Folder? { assert LiesUnder(Pending(here, e.node.entries), f, skip); }
    }
  }

  lemma UnderIs(p: Pending, f: Rel, skip: Skip)
    ensures LiesUnder(p, f, skip) <==> SomeHolds(p, |p.entries|, f, skip)
  {
    if LiesUnder(p, f, skip) {
      var path := f[|p.at|..];
      var k :| 0 <= k < |p.entries| && p.entries[k].name == path[0] && Ends(p.at, p.entries[k].node, path, skip);
      assert Holds(p.at, p.entries[k], f, skip);
    }
  }

  ghost predicate Found(files: seq<Rel>, folders: seq<Pending>, f: Rel, skip: Skip) {
    f in files || exists q :: q in folders && LiesUnder(q, f, skip)
  }

  lemma FoundMore(files: seq<Rel>, folders: seq<Pending>, files': seq<Rel>, folders': seq<Pending>, f: Rel, skip: Skip)
    ensures Found(files + files', folders + folders', f, skip)
         <==> Found(files, folders, f, skip) || Found(files', folders', f, skip)
  {
    if q :| q in folders + folders' && LiesUnder(q, f, skip) { assert q in folders || q in folders'; }
    if q :| q in folders && LiesUnder(q, f, skip) { assert q in folders + folders'; }
    if q :| q in folders' && LiesUnder(q, f, skip) { assert q in folders + folders'; }
  }

  /** One of the first n entries leads to the file. */
  ghost predicate SomeHolds(p: Pending, n: nat, f: Rel, skip: Skip)
    requires n <= |p.entries|
  {
    exists k :: 0 <= k < n && Holds(p.at, p.entries[k], f, skip)
  }

  lemma SomeHoldsMore(p: Pending, n: nat, f: Rel, skip: Skip)
    requires n < |p.entries|
    ensures SomeHolds(p, n + 1, f, skip) <==> SomeHolds(p, n, f, skip) || Holds(p.at, p.entries[n], f, skip)
  {
  }

  lemma {:induction false} EntriesAre(p: Pending, n: nat, f: Rel, skip: Skip)
    requires n <= |p.entries|
    ensures var q := Pending(p.at, p.entries[..n]);
      Found(FilesIn(q, skip), FoldersIn(q, skip), f, skip) <==> SomeHolds(p, n, f, skip)
    decreases n
  {
    if n > 0 {
      var q, e := Pending(p.at, p.entries[..n - 1]), p.entries[n - 1];
      EntriesAre(p, n - 1, f, skip);
      PrefixIn(p, n - 1, skip);
      HoldsIs(p.at, e, f, skip);
      FoundMore(FilesIn(q, skip), FoldersIn(q, skip), FileOf(p.at, e, skip), FolderOf(p.at, e, skip), f, skip);
      SomeHoldsMore(p, n - 1, f, skip);
    }
  }

  /** What lies under a folder is one of its files or lies under one of its folders. */
  lemma FolderUnder(top: Pending, f: Rel, skip: Skip)
    ensures Found(FilesIn(top, skip), FoldersIn(top, skip), f, skip) <==> LiesUnder(top, f, skip)
  {
    EntriesAre(top, |top.entries|, f, skip);
    assert top.entries[..|top.entries|] == top.entries;
    UnderIs(top, f, skip);
  }

  ghost predicate InStack(stack: seq<Pending>, f: Rel, skip: Skip) { Found([], stack, f, skip) }

  lemma StackSnoc(rest: seq<Pending>, top: Pending, f: Rel, skip: Skip)
    ensures InStack(rest + [top], f, skip) <==> InStack(rest, f, skip) || LiesUnder(top, f, skip)
  {
    FoundMore([], rest, [], [top], f, skip);
    var none: seq<Rel> := [];
    assert none + none == none;
    assert top in [top];
  }

  /** A file is listed exactly when a path leads to it from a folder on the stack, none of whose steps is skipped. */
  lemma {:induction false} ListedIs(stack: seq<Pending>, f: Rel, skip: Skip)
    ensures f in Listed(stack, skip) <==> InStack(stack, f, skip)
    decreases StackSize(stack)
  {
    if stack != [] {
      var rest, top := stack[..|stack| - 1], stack[|stack| - 1];
      assert stack == rest + [top];
      ListedStep(rest, top, skip);
      ListedIs(rest + FoldersIn(top, skip), f, skip);
      StackSnoc(rest, top, f, skip);
      FolderUnder(top, f, skip);
      FoundMore([], rest, [], FoldersIn(top, skip), f, skip);
      var none: seq<Rel> := [];
      assert none + none == none;
    }
  }

  /** From the dist folder itself. */
  lemma ListedMeaning(dist: seq<Entry>, f: Rel, skip: Skip)
    ensures f in Listed([Pending([], dist)], skip) <==> Lies([], dist, f, skip)
  {
    ListedIs([Pending([], dist)], f, skip);
    StackSnoc([], Pending([], dist), f, skip);
    assert [] + [Pending([], dist)] == [Pending([], dist)];
    assert f[0..] == f;
  }

  // ---- no file is listed twice

  /** In every folder, different entries have different names. */
  predicate Tidy(entries: seq<Entry>) {
    (forall i, j :: 0 <= i < j < |entries| ==> entries[i].name != entries[j].name)
    && forall k :: 0 <= k < |entries| && entries[k].node.Folder? ==> Tidy(entries[k].node.entries)
  }

  /** The first n entries name this file or folder. */
  ghost predicate Names(p: Pending, n: nat, at: Rel)
    requires n <= |p.entries|
  {
    exists k :: 0 <= k < n && at == p.at + [p.entries[k].name]
  }

  lemma NamesApart(p: Pending, n: nat, at: Rel)
    requires Tidy(p.entries) && n < |p.entries| && Names(p, n, at)
    ensures at != p.at + [p.entries[n].name]
  {
    var k :| 0 <= k < n && at == p.at + [p.entries[k].name];
    assert at[|p.at|] == p.entries[k].name;
  }

  ghost predicate FilesOnce(p: Pending, n: nat, files: seq<Rel>)
    requires n <= |p.entries|
  {
    NoDup(files) && forall f :: f in files ==> Names(p, n, f)
  }

  ghost predicate FoldersOnce(p: Pending, n: nat, folders: seq<Pending>)
    requires n <= |p.entries|
  {
    (forall i, j :: 0 <= i < j < |folders| ==> folders[i].at != folders[j].at)
    && forall i :: 0 <= i < |folders| ==> Names(p, n, folders[i].at) && Tidy(folders[i].entries)
  }

  lemma NamesMore(p: Pending, n: nat, at: Rel)
    requires n < |p.entries|
    ensures Names(p, n, at) ==> Names(p, n + 1, at)
    ensures Names(p, n + 1, p.at + [p.entries[n].name])
  {
  }

  lemma {:induction false} ContentsOnce(p: Pending, n: nat, skip: Skip)
    requires Tidy(p.entries) && n <= |p.entries|
    ensures FilesOnce(p, n, FilesIn(Pending(p.at, p.entries[..n]), skip))
    ensures FoldersOnce(p, n, FoldersIn(Pending(p.at, p.entries[..n]), skip))
    decreases n
  {
    if n > 0 {
      var before := Pending(p.at, p.entries[..n - 1]);
      ContentsOnce(p, n - 1, skip);
      PrefixIn(p, n - 1, skip);
      FilesOnceMore(p, n - 1, FilesIn(before, skip), skip);
      FoldersOnceMore(p, n - 1, FoldersIn(before, skip), skip);
    }
  }

  lemma FilesOnceMore(p: Pending, n: nat, files: seq<Rel>, skip: Skip)
    requires Tidy(p.entries) && n < |p.entries| && FilesOnce(p, n, files)
    ensures FilesOnce(p, n + 1, files + FileOf(p.at, p.entries[n], skip))
  {
    forall f | f in files ensures Names(p, n + 1, f) && f != p.at + [p.entries[n].name] {
      NamesMore(p, n, f);
      NamesApart(p, n, f);
    }
    NamesMore(p, n, p.at);
    NoDupAppend(files, FileOf(p.at, p.entries[n], skip));
  }

  lemma FoldersOnceMore(p: Pending, n: nat, folders: seq<Pending>, skip: Skip)
    requires Tidy(p.entries) && n < |p.entries| && FoldersOnce(p, n, folders)
    ensures FoldersOnce(p, n + 1, folders + FolderOf(p.at, p.entries[n], skip))
  {
    forall i | 0 <= i < |folders| ensures Names(p, n + 1, folders[i].at)
      && folders[i].at != p.at + [p.entries[n].name] {
      NamesMore(p, n, folders[i].at);
      NamesApart(p, n, folders[i].at);
    }
    NamesMore(p, n, p.at);
  }

  lemma {:induction false} OneFolderOnce(p: Pending, skip: Skip)
    requires Tidy(p.entries)
    ensures FilesOnce(p, |p.entries|, FilesIn(p, skip)) && FoldersOnce(p, |p.entries|, FoldersIn(p, skip))
  {
    ContentsOnce(p, |p.entries|, skip);
    assert p.entries[..|p.entries|] == p.entries;
  }

  /** No file lies under two folders of the stack. */
  ghost predicate Apart(stack: seq<Pending>, skip: Skip) {
    (forall i :: 0 <= i < |stack| ==> Tidy(stack[i].entries))
    && forall i, j :: 0 <= i < j < |stack| ==> AreApart(stack[i], stack[j], skip)
  }

  lemma OtherPlace(a: Pending, b: Pending, f: Rel, skip: Skip)
    requires |a.at| == |b.at| && a.at != b.at && LiesUnder(a, f, skip)
    ensures !LiesUnder(b, f, skip)
  {
    assert f[..|a.at|] == a.at;
  }

  ghost predicate AreApart(a: Pending, b: Pending, skip: Skip) {
    forall f :: LiesUnder(a, f, skip) ==> !LiesUnder(b, f, skip)
  }

  lemma FoldersApart(top: Pending, i: nat, j: nat, skip: Skip)
    requires Tidy(top.entries) && i < j < |FoldersIn(top, skip)|
    ensures AreApart(FoldersIn(top, skip)[i], FoldersIn(top, skip)[j], skip)
  {
    var a, b := FoldersIn(top, skip)[i], FoldersIn(top, skip)[j];
    OneFolderOnce(top, skip);
    forall f | LiesUnder(a, f, skip) ensures !LiesUnder(b, f, skip) { OtherPlace(a, b, f, skip); }
  }

  lemma InsideTop(p: Pending, top: Pending, q: Pending, skip: Skip)
    requires AreApart(p, top, skip) && q in FoldersIn(top, skip)
    ensures AreApart(p, q, skip)
  {
    forall f | LiesUnder(p, f, skip) ensures !LiesUnder(q, f, skip) { FolderUnder(top, f, skip); }
  }

  lemma ApartOf(rest: seq<Pending>, top: Pending, skip: Skip)
    requires Apart(rest + [top], skip)
    ensures Tidy(top.entries) && forall i :: 0 <= i < |rest| ==> Tidy(rest[i].entries) && AreApart(rest[i], top, skip)
    ensures forall i, j :: 0 <= i < j < |rest| ==> AreApart(rest[i], rest[j], skip)
  {
    var stack := rest + [top];
    assert Tidy(stack[|rest|].entries);
    forall i | 0 <= i < |rest| ensures Tidy(rest[i].entries) && AreApart(rest[i], top, skip) {
      assert Tidy(stack[i].entries) && AreApart(stack[i], stack[|rest|], skip);
    }
    forall i, j | 0 <= i < j < |rest| ensures AreApart(rest[i], rest[j], skip) {
      assert AreApart(stack[i], stack[j], skip);
    }
  }

  lemma StackStaysApart(rest: seq<Pending>, top: Pending, skip: Skip)
    requires Apart(rest + [top], skip)
    ensures Apart(rest + FoldersIn(top, skip), skip)
  {
    var folders := FoldersIn(top, skip);
    ApartOf(rest, top, skip);
    OneFolderOnce(top, skip);
    forall i, j | 0 <= i < |rest| && 0 <= j < |folders| ensures AreApart(rest[i], folders[j], skip) {
      InsideTop(rest[i], top, folders[j], skip);
    }
    forall i, j | 0 <= i < j < |folders| ensures AreApart(folders[i], folders[j], skip) {
      FoldersApart(top, i, j, skip);
    }
    ApartConcat(rest, folders, skip);
  }

  lemma ApartConcat(a: seq<Pending>, b: seq<Pending>, skip: Skip)
    requires forall i :: 0 <= i < |a| ==> Tidy(a[i].entries)
    requires forall i :: 0 <= i < |b| ==> Tidy(b[i].entries)
    requires forall i, j :: 0 <= i < j < |a| ==> AreApart(a[i], a[j], skip)
    requires forall i, j :: 0 <= i < |a| && 0 <= j < |b| ==> AreApart(a[i], b[j], skip)
    requires forall i, j :: 0 <= i < j < |b| ==> AreApart(b[i], b[j], skip)
    ensures Apart(a + b, skip)
  {
    var all := a + b;
    forall i, j | 0 <= i < j < |all| ensures AreApart(all[i], all[j], skip) {
      if j < |a| {
        assert AreApart(a[i], a[j], skip);
      } else if i < |a| {
        assert AreApart(a[i], b[j - |a|], skip);
      } else {
        assert AreApart(b[i - |a|], b[j - |a|], skip);
      }
    }
  }

  lemma FilesElsewhere(rest: seq<Pending>, top: Pending, f: Rel, skip: Skip)
    requires Apart(rest + [top], skip) && f in FilesIn(top, skip)
    ensures f !in Listed(rest + FoldersIn(top, skip), skip)
  {
    var folders := FoldersIn(top, skip);
    ApartOf(rest, top, skip);
    OneFolderOnce(top, skip);
    ListedIs(rest + folders, f, skip);
    FolderUnder(top, f, skip);
    forall i | 0 <= i < |rest| ensures !LiesUnder(rest[i], f, skip) { assert AreApart(rest[i], top, skip); }
    forall i | 0 <= i < |folders| ensures !LiesUnder(folders[i], f, skip) {
      assert Names(top, |top.entries|, folders[i].at) && Names(top, |top.entries|, f);
      assert |folders[i].at| == |f|;
    }
  }

  /** When no folder has two entries of one name, every file is listed at most once. */
  lemma {:induction false} ListedOnce(stack: seq<Pending>, skip: Skip)
    requires Apart(stack, skip)
    ensures NoDup(Listed(stack, skip))
    decreases StackSize(stack)
  {
    if stack != [] {
      var rest, top := stack[..|stack| - 1], stack[|stack| - 1];
      assert stack == rest + [top];
      ListedStep(rest, top, skip);
      StackStaysApart(rest, top, skip);
      ListedOnce(rest + FoldersIn(top, skip), skip);
      OneFolderOnce(top, skip);
      forall f | f in FilesIn(top, skip) ensures f !in Listed(rest + FoldersIn(top, skip), skip) {
        FilesElsewhere(rest, top, f, skip);
      }
      NoDupAppend(FilesIn(top, skip), Listed(rest + FoldersIn(top, skip), skip));
    }
  }

  /** From the dist folder itself. */
  lemma DistListedOnce(dist: seq<Entry>, skip: Skip)
    requires Tidy(dist)
    ensures NoDup(Listed([Pending([], dist)], skip))
  {
    ListedOnce([Pending([], dist)], skip);
  }
}
