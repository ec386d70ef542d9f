/** The order in which modules are listed (scripts/openclaw-npm-postpublish-verify.ts), told on the tree of folders: a
    folder's
    own modules in reading order, then all that is below its folders, from the last folder to the first. */
module DistOrder {
  import opened Wrappers
  import opened Sequences
  import opened DistListing

  predicate Kept(at: Rel, e: Entry, skip: Skip) { !skip(at + [e.name]) }

  /** The modules among a folder's entries, in reading order. */
  function Own(at: Rel, entries: seq<Entry>, skip: Skip): seq<Rel> {
    if entries == [] then []
    else
      (if Kept(at, entries[0], skip) && entries[0].node.JavaScriptModule? then [at + [entries[0].name]] else [])
      + Own(at, entries[1..], skip)
  }

  lemma {:induction false} OwnAppend(at: Rel, a: seq<Entry>, b: seq<Entry>, skip: Skip)
    ensures Own(at, a + b, skip) == Own(at, a, skip) + Own(at, b, skip)
    decreases |a|
  {
    if a == [] {
      assert a + b == b;
    } else {
      assert (a + b)[1..] == a[1..] + b;
      OwnAppend(at, a[1..], b, skip);
    }
  }

  lemma {:induction false} FilesInIsOwn(p: Pending, skip: Skip)
    ensures FilesIn(p, skip) == Own(p.at, p.entries, skip)
    decreases |p.entries|
  {
    if p.entries != [] {
      var n := |p.entries| - 1;
      FilesInIsOwn(Pending(p.at, p.entries[..n]), skip);
      OwnAppend(p.at, p.entries[..n], [p.entries[n]], skip);
      InitAndLast(p.entries);
      assert [p.entries[n]][1..] == [];
    }
  }

  /** A folder and everything below it. */
  function Walked(at: Rel, entries: seq<Entry>, skip: Skip): seq<Rel>
    decreases EntriesSize(entries), |entries|, 1
  {
    Own(at, entries, skip) + Below(at, entries, skip)
  }

  /** Everything below the folders among these entries, the last folder first. */
  function Below(at: Rel, entries: seq<Entry>, skip: Skip): seq<Rel>
    decreases EntriesSize(entries), |entries|, 0
  {
    if entries == [] then []
    else
      var n := |entries| - 1;
      var e := entries[n];
      assert EntriesSize(entries) == EntriesSize(entries[..n]) + NodeSize(e.node);
      (if Kept(at, e, skip) && e.node.Folder? then Walked(at + [e.name], e.node.entries, skip) else [])
      + Below(at, entries[..n], skip)
  }

  /** The stack, from its top. */
  function WalkedStack(stack: seq<Pending>, skip: Skip): seq<Rel> {
    if stack == [] then []
    else
      var top := stack[|stack| - 1];
      Walked(top.at, top.entries, skip) + WalkedStack(stack[..|stack| - 1], skip)
  }

  lemma {:induction false} WalkedStackAppend(a: seq<Pending>, b: seq<Pending>, skip: Skip)
    ensures WalkedStack(a + b, skip) == WalkedStack(b, skip) + WalkedStack(a, skip)
    decreases |b|
  {
    if b == [] {
      assert a + b == a;
    } else {
      assert (a + b)[..|a + b| - 1] == a + b[..|b| - 1];
      WalkedStackAppend(a, b[..|b| - 1], skip);
    }
  }

  lemma {:induction false} FoldersInWalk(p: Pending, skip: Skip)
    ensures WalkedStack(FoldersIn(p, skip), skip) == Below(p.at, p.entries, skip)
    decreases |p.entries|
  {
    if p.entries != [] {
      var n := |p.entries| - 1;
      var before, last := FoldersIn(Pending(p.at, p.entries[..n]), skip), FolderOf(p.at, p.entries[n], skip);
      FoldersInWalk(Pending(p.at, p.entries[..n]), skip);
      WalkedStackAppend(before, last, skip);
      OneFolder(p.at, p.entries[n], skip);
    }
  }

  lemma OneFolder(at: Rel, e: Entry, skip: Skip)
    ensures WalkedStack(FolderOf(at, e, skip), skip)
         == if Kept(at, e, skip) && e.node.Folder? then Walked(at + [e.name], e.node.entries, skip) else []
  {
    var folder := FolderOf(at, e, skip);
    if folder != [] { assert folder[..|folder| - 1] == []; }
  }

  lemma {:induction false} StackIsWalked(stack: seq<Pending>, skip: Skip)
    ensures Listed(stack, skip) == WalkedStack(stack, skip)
    decreases StackSize(stack)
  {
    if stack != [] {
      var rest, top := stack[..|stack| - 1], stack[|stack| - 1];
      InitAndLast(stack);
      ListedStep(rest, top, skip);
      StackIsWalked(rest + FoldersIn(top, skip), skip);
      WalkedStackAppend(rest, FoldersIn(top, skip), skip);
      FilesInIsOwn(top, skip);
      FoldersInWalk(top, skip);
      Associative(FilesIn(top, skip), Below(top.at, top.entries, skip), WalkedStack(rest, skip));
    }
  }

  /** The listing of the dist folder is the walk over its tree. */
  lemma ListedInOrder(dist: seq<Entry>, skip: Skip)
    ensures Listed([Pending([], dist)], skip) == Walked([], dist, skip)
  {
    StackIsWalked([Pending([], dist)], skip);
    assert [Pending([], dist)][..0] == [];
  }
}
