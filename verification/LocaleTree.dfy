/** Locale bundles: nested objects of strings, flattened to dotted keys and rebuilt from them
    (scripts/control-ui-i18n.ts). Objects and maps keep their insertion order. */
module LocaleTree {
  import opened Wrappers
  import opened Text

  /** An object's properties in insertion order. */
  datatype TranslationMap = Nil | Cons(key: string, value: Value, rest: TranslationMap)
  datatype Value = Text(text: string) | Nested(entries: TranslationMap)

  function Get(m: TranslationMap, key: string): Option<Value> {
    if m.Nil? then None else if m.key == key then Some(m.value) else Get(m.rest, key)
  }

  /** Assigning a property: replaced in place, or added at the end. */
  function Put(m: TranslationMap, key: string, value: Value): TranslationMap {
    if m.Nil? then Cons(key, value, Nil)
    else if m.key == key then Cons(key, value, m.rest)
    else Cons(m.key, m.value, Put(m.rest, key, value))
  }

  // ---- insertion-ordered string maps

  type FlatMap = seq<(string, string)>

  function IndexOfKey(flat: FlatMap, key: string): (i: nat)
    ensures i <= |flat|
    ensures i < |flat| ==> flat[i].0 == key
    ensures forall j :: 0 <= j < i ==> flat[j].0 != key
  {
    if flat == [] || flat[0].0 == key then 0 else 1 + IndexOfKey(flat[1..], key)
  }

  function MapGet(flat: FlatMap, key: string): Option<string> {
    var i := IndexOfKey(flat, key);
    if i < |flat| then Some(flat[i].1) else None
  }

  function MapSet(flat: FlatMap, key: string, text: string): FlatMap {
    var i := IndexOfKey(flat, key);
    if i < |flat| then flat[i := (key, text)] else flat + [(key, text)]
  }

  ghost predicate DistinctKeys(flat: FlatMap) {
    forall i, j :: 0 <= i < j < |flat| ==> flat[i].0 != flat[j].0
  }

  lemma MapGetAt(flat: FlatMap, i: nat)
    requires DistinctKeys(flat) && i < |flat|
    ensures MapGet(flat, flat[i].0) == Some(flat[i].1)
  {
  }

  lemma MapSetDistinct(flat: FlatMap, key: string, text: string)
    requires DistinctKeys(flat)
    ensures DistinctKeys(MapSet(flat, key, text))
  {
  }

  // ---- flattening

  function FullKey(prefix: string, key: string): string {
    if prefix != "" then prefix + "." + key else key
  }

  function FlattenInto(m: TranslationMap, prefix: string, out: FlatMap): FlatMap {
    match m
    case Nil => out
    case Cons(key, Text(text), rest) => FlattenInto(rest, prefix, MapSet(out, FullKey(prefix, key), text))
    case Cons(key, Nested(sub), rest) => FlattenInto(rest, prefix, FlattenInto(sub, FullKey(prefix, key), out))
  }

  function Flatten(m: TranslationMap): FlatMap { FlattenInto(m, "", []) }

  lemma {:induction false} FlattenDistinct(m: TranslationMap, prefix: string, out: FlatMap)
    requires DistinctKeys(out)
    ensures DistinctKeys(FlattenInto(m, prefix, out))
    decreases m
  {
    match m
    case Nil =>
    case Cons(key, Text(text), rest) =>
      MapSetDistinct(out, FullKey(prefix, key), text);
      FlattenDistinct(rest, prefix, MapSet(out, FullKey(prefix, key), text));
    case Cons(key, Nested(sub), rest) =>
      FlattenDistinct(sub, FullKey(prefix, key), out);
      FlattenDistinct(rest, prefix, FlattenInto(sub, FullKey(prefix, key), out));
  }

  // ---- what flattening means, for any tree

  /** The texts in order, each under the joined keys on the way to it. */
  function Entries(m: TranslationMap, prefix: string): FlatMap {
    match m
    case Nil => []
    case Cons(key, Text(text), rest) => [(FullKey(prefix, key), text)] + Entries(rest, prefix)
    case Cons(key, Nested(sub), rest) => Entries(sub, FullKey(prefix, key)) + Entries(rest, prefix)
  }

  function SetEach(out: FlatMap, entries: FlatMap): FlatMap
    decreases |entries|
  {
    if entries == [] then out else SetEach(MapSet(out, entries[0].0, entries[0].1), entries[1..])
  }

  lemma {:induction false} SetEachAppend(out: FlatMap, a: FlatMap, b: FlatMap)
    ensures SetEach(out, a + b) == SetEach(SetEach(out, a), b)
    decreases |a|
  {
    if a == [] {
      assert a + b == b;
    } else {
      assert (a + b)[1..] == a[1..] + b;
      SetEachAppend(MapSet(out, a[0].0, a[0].1), a[1..], b);
    }
  }

  lemma {:induction false} FlattenSetsEach(m: TranslationMap, prefix: string, out: FlatMap)
    ensures FlattenInto(m, prefix, out) == SetEach(out, Entries(m, prefix))
    decreases m
  {
    match m
    case Nil =>
    case Cons(key, Text(text), rest) =>
      FlattenSetsEach(rest, prefix, MapSet(out, FullKey(prefix, key), text));
      assert Entries(m, prefix)[1..] == Entries(rest, prefix);
    case Cons(key, Nested(sub), rest) =>
      FlattenSetsEach(sub, FullKey(prefix, key), out);
      FlattenSetsEach(rest, prefix, FlattenInto(sub, FullKey(prefix, key), out));
      SetEachAppend(out, Entries(sub, FullKey(prefix, key)), Entries(rest, prefix));
  }

  /** The last text under a key, if there is one. */
  function LastText(entries: FlatMap, key: string): Option<string> {
    if entries == [] then None
    else if entries[|entries| - 1].0 == key then Some(entries[|entries| - 1].1)
    else LastText(entries[..|entries| - 1], key)
  }

  lemma MapGetSet(flat: FlatMap, key: string, text: string, k: string)
    ensures MapGet(MapSet(flat, key, text), k) == if k == key then Some(text) else MapGet(flat, k)
  {
    var i, r := IndexOfKey(flat, key), MapSet(flat, key, text);
    var j := IndexOfKey(flat, k);
    IndexOfKeyIs(r, k, if k == key then i else if j < |flat| then j else |r|);
  }

  lemma {:induction false} IndexOfKeyIs(flat: FlatMap, key: string, i: nat)
    requires i <= |flat| && (i < |flat| ==> flat[i].0 == key) && forall j :: 0 <= j < i ==> flat[j].0 != key
    ensures IndexOfKey(flat, key) == i
  {
    var k := IndexOfKey(flat, key);
    assert !(k < i) && !(i < k);
  }

  lemma {:induction false} SetEachReads(entries: FlatMap, key: string)
    ensures MapGet(SetEach([], entries), key) == LastText(entries, key)
    decreases |entries|
  {
    if entries != [] {
      var n := |entries| - 1;
      assert entries == entries[..n] + [entries[n]];
      SetEachAppend([], entries[..n], [entries[n]]);
      SetEachReads(entries[..n], key);
      assert [entries[n]][1..] == [];
      MapGetSet(SetEach([], entries[..n]), entries[n].0, entries[n].1, key);
    }
  }

  /** Whatever the tree, a key of its flattening has the last of the texts whose joined keys are that key. */
  lemma FlattenReadsLast(m: TranslationMap, key: string)
    ensures MapGet(Flatten(m), key) == LastText(Entries(m, ""), key)
  {
    FlattenSetsEach(m, "", []);
    SetEachReads(Entries(m, ""), key);
  }

  method FlattenTranslations(value: TranslationMap, prefix: string, out: FlatMap) returns (flat: FlatMap)
    ensures flat == FlattenInto(value, prefix, out)
    decreases value
  {
    flat := out;
    var entries := value;
    while entries.Cons?
      invariant entries.Cons? ==> entries == value || entries < value
      invariant FlattenInto(entries, prefix, flat) == FlattenInto(value, prefix, out)
      decreases entries
    {
      var fullKey := FullKey(prefix, entries.key);
      match entries.value {
        case Text(text) => flat := MapSet(flat, fullKey, text);
        case Nested(sub) => flat := FlattenTranslations(sub, fullKey, flat);
      }
      entries := entries.rest;
    }
  }

  // ---- rebuilding

  type Path = seq<string>

  function SubMap(m: TranslationMap, key: string): TranslationMap {
    match Get(m, key)
    case Some(Nested(sub)) => sub
    case _ => Nil
  }

  /** The cursor walk: a missing or textual step is replaced by a fresh object. */
  function SetPath(m: TranslationMap, parts: Path, value: string): TranslationMap
    requires parts != []
    decreases |parts|
  {
    if |parts| == 1 then Put(m, parts[0], Text(value))
    else Put(m, parts[0], Nested(SetPath(SubMap(m, parts[0]), parts[1..], value)))
  }

  function SetNestedValue(root: TranslationMap, dottedKey: string, value: string): TranslationMap {
    SetPath(root, SplitOn(dottedKey, '.'), value)
  }

  /** Inserting the entries of a flat map one after the other. */
  function Rebuild(root: TranslationMap, flat: FlatMap): TranslationMap
    decreases |flat|
  {
    if flat == [] then root else Rebuild(SetNestedValue(root, flat[0].0, flat[0].1), flat[1..])
  }

  method RebuildTree(flat: FlatMap) returns (root: TranslationMap)
    ensures root == Rebuild(Nil, flat)
  {
    root := Nil;
    var i := 0;
    while i < |flat|
      invariant 0 <= i <= |flat|
      invariant Rebuild(root, flat[i..]) == Rebuild(Nil, flat)
    {
      assert flat[i..][1..] == flat[i + 1..];
      root := SetNestedValue(root, flat[i].0, flat[i].1);
      i := i + 1;
    }
  }

  // ---- the same on paths instead of dotted keys

  type Leaf = (Path, string)

  function Under(p: Path, leaves: seq<Leaf>): (r: seq<Leaf>)
    ensures |r| == |leaves|
    ensures forall i :: 0 <= i < |leaves| ==> r[i] == (p + leaves[i].0, leaves[i].1)
  {
    if leaves == [] then [] else [(p + leaves[0].0, leaves[0].1)] + Under(p, leaves[1..])
  }

  function Leaves(m: TranslationMap): seq<Leaf> {
    match m
    case Nil => []
    case Cons(key, Text(text), rest) => [([key], text)] + Leaves(rest)
    case Cons(key, Nested(sub), rest) => Under([key], Leaves(sub)) + Leaves(rest)
  }

  function SetLeaves(m: TranslationMap, leaves: seq<Leaf>): TranslationMap
    decreases |leaves|
  {
    if leaves == [] then m
    else if leaves[0].0 == [] then SetLeaves(m, leaves[1..])
    else SetLeaves(SetPath(m, leaves[0].0, leaves[0].1), leaves[1..])
  }

  ghost predicate NonEmptyPaths(leaves: seq<Leaf>) { forall i :: 0 <= i < |leaves| ==> leaves[i].0 != [] }

  lemma {:induction false} SetLeavesAppend(m: TranslationMap, a: seq<Leaf>, b: seq<Leaf>)
    ensures SetLeaves(m, a + b) == SetLeaves(SetLeaves(m, a), b)
    decreases |a|
  {
    if a == [] {
      assert a + b == b;
    } else {
      assert (a + b)[1..] == a[1..] + b;
      var m' := if a[0].0 == [] then m else SetPath(m, a[0].0, a[0].1);
      SetLeavesAppend(m', a[1..], b);
    }
  }

  lemma PutPut(m: TranslationMap, key: string, v: Value, w: Value)
    ensures Put(Put(m, key, v), key, w) == Put(m, key, w)
    ensures Get(Put(m, key, v), key) == Some(v)
  {
  }

  /** Inserting leaves below one key only rebuilds the object at that key. */
  lemma {:induction false} SetLeavesUnder(m: TranslationMap, key: string, leaves: seq<Leaf>)
    requires leaves != [] && NonEmptyPaths(leaves)
    ensures SetLeaves(m, Under([key], leaves)) == Put(m, key, Nested(SetLeaves(SubMap(m, key), leaves)))
    decreases |leaves|
  {
    var sub := SetPath(SubMap(m, key), leaves[0].0, leaves[0].1);
    var m' := Put(m, key, Nested(sub));
    assert ([key] + leaves[0].0)[1..] == leaves[0].0;
    assert Under([key], leaves)[1..] == Under([key], leaves[1..]);
    PutPut(m, key, Nested(sub), Nested(SetLeaves(sub, leaves[1..])));
    if |leaves| > 1 {
      SetLeavesUnder(m', key, leaves[1..]);
    } else {
      assert leaves[1..] == [];
    }
  }

  /** What a locale source satisfies: keys are non-empty, dot-free and distinct within one object,
      and no object is empty below the root. */
  ghost predicate WellFormed(m: TranslationMap) {
    m.Cons? ==>
      && m.key != "" && '.' !in m.key && Get(m.rest, m.key) == None
      && (m.value.Nested? ==> m.value.entries != Nil && WellFormed(m.value.entries))
      && WellFormed(m.rest)
  }

  function Append(a: TranslationMap, b: TranslationMap): TranslationMap {
    if a.Nil? then b else Cons(a.key, a.value, Append(a.rest, b))
  }

  lemma PutNew(m: TranslationMap, key: string, v: Value, tail: TranslationMap)
    requires Get(m, key) == None
    ensures Append(Put(m, key, v), tail) == Append(m, Cons(key, v, tail))
    ensures forall k :: Get(Put(m, key, v), k) == if k == key then Some(v) else Get(m, k)
  {
  }

  lemma {:induction false} LeavesNonEmpty(m: TranslationMap)
    requires WellFormed(m)
    ensures NonEmptyPaths(Leaves(m))
    ensures m != Nil ==> Leaves(m) != []
  {
    if m.Cons? {
      LeavesNonEmpty(m.rest);
      if m.value.Nested? {
        LeavesNonEmpty(m.value.entries);
      }
    }
  }

  lemma {:induction false} SetLeavesRebuilds(done: TranslationMap, m: TranslationMap)
    requires WellFormed(m)
    requires forall k :: Get(m, k) != None ==> Get(done, k) == None
    ensures SetLeaves(done, Leaves(m)) == Append(done, m)
    decreases m
  {
    match m
    case Nil => AppendNil(done);
    case Cons(key, value, rest) =>
      assert Get(m, key) != None;
      var done' := Put(done, key, value);
      PutNew(done, key, value, rest);
      forall k | Get(rest, k) != None ensures Get(done', k) == None { assert Get(m, k) != None; }
      SetLeavesRebuilds(done', rest);
      if value.Text? {
        SetLeavesAppend(done, [([key], value.text)], Leaves(rest));
        assert SetLeaves(done, [([key], value.text)]) == done';
      } else {
        LeavesNonEmpty(value.entries);
        SetLeavesUnder(done, key, Leaves(value.entries));
        SetLeavesRebuilds(Nil, value.entries);
        SetLeavesAppend(done, Under([key], Leaves(value.entries)), Leaves(rest));
      }
  }

  lemma AppendNil(m: TranslationMap)
    ensures Append(m, Nil) == m
  {
  }

  // ---- dotted keys stand for paths

  function Dotted(leaves: seq<Leaf>): (r: FlatMap)
    ensures |r| == |leaves|
    ensures forall i :: 0 <= i < |leaves| ==> r[i] == (Join(leaves[i].0, '.'), leaves[i].1)
  {
    if leaves == [] then [] else [(Join(leaves[0].0, '.'), leaves[0].1)] + Dotted(leaves[1..])
  }

  ghost predicate GoodPath(p: Path) { p != [] && Free(p, '.') && (|p| > 1 ==> p[0] != "") }

  /** A path that dotted keys can begin with. */
  ghost predicate GoodPrefix(p: Path) { p == [] || (GoodPath(p) && p[0] != "") }

  lemma {:induction false} RebuildDotted(m: TranslationMap, leaves: seq<Leaf>)
    requires forall i :: 0 <= i < |leaves| ==> GoodPath(leaves[i].0)
    ensures Rebuild(m, Dotted(leaves)) == SetLeaves(m, leaves)
    decreases |leaves|
  {
    if leaves != [] {
      assert GoodPath(leaves[0].0);
      SplitJoin(leaves[0].0, '.');
      assert Dotted(leaves)[1..] == Dotted(leaves[1..]);
      RebuildDotted(SetPath(m, leaves[0].0, leaves[0].1), leaves[1..]);
    }
  }

  /** What a tree needs for its leaves to have dotted keys of their own: keys are dot-free and distinct within one
      object, and no object stands under an empty key at the root. */
  ghost predicate Keyed(m: TranslationMap, root: bool) {
    m.Cons? ==>
      && '.' !in m.key && (root && m.value.Nested? ==> m.key != "") && Get(m.rest, m.key) == None
      && (m.value.Nested? ==> Keyed(m.value.entries, false))
      && Keyed(m.rest, root)
  }

  lemma {:induction false} WellFormedIsKeyed(m: TranslationMap, root: bool)
    requires WellFormed(m)
    ensures Keyed(m, root)
    decreases m
  {
    if m.Cons? {
      WellFormedIsKeyed(m.rest, root);
      if m.value.Nested? { WellFormedIsKeyed(m.value.entries, false); }
    }
  }

  ghost predicate LeafPath(m: TranslationMap, root: bool, p: Path) {
    p != [] && Free(p, '.') && (root && |p| > 1 ==> p[0] != "") && Get(m, p[0]) != None
  }

  ghost predicate LeafPathsOf(m: TranslationMap, root: bool, leaves: seq<Leaf>) {
    forall i :: 0 <= i < |leaves| ==> LeafPath(m, root, leaves[i].0)
  }

  ghost predicate DistinctPaths(leaves: seq<Leaf>) {
    forall i, j :: 0 <= i < j < |leaves| ==> leaves[i].0 != leaves[j].0
  }

  function FirstLeaves(m: TranslationMap): seq<Leaf>
    requires m.Cons?
  {
    if m.value.Text? then [([m.key], m.value.text)] else Under([m.key], Leaves(m.value.entries))
  }

  lemma LeafPathUnder(m: TranslationMap, root: bool, p: Path)
    requires m.Cons? && m.value.Nested? && '.' !in m.key && (root ==> m.key != "")
    requires LeafPath(m.value.entries, false, p)
    ensures LeafPath(m, root, [m.key] + p)
  {
    assert forall k :: 1 <= k < |[m.key] + p| ==> ([m.key] + p)[k] == p[k - 1];
  }

  lemma FirstLeafPaths(m: TranslationMap, root: bool)
    requires m.Cons? && Keyed(m, root)
    requires m.value.Nested? ==> LeafPathsOf(m.value.entries, false, Leaves(m.value.entries))
    ensures LeafPathsOf(m, root, FirstLeaves(m))
    ensures forall i :: 0 <= i < |FirstLeaves(m)| ==> FirstLeaves(m)[i].0 != [] && FirstLeaves(m)[i].0[0] == m.key
  {
    if m.value.Nested? {
      var sub := Leaves(m.value.entries);
      forall i | 0 <= i < |sub| ensures LeafPath(m, root, FirstLeaves(m)[i].0) {
        assert LeafPath(m.value.entries, false, sub[i].0);
        LeafPathUnder(m, root, sub[i].0);
      }
    }
  }

  lemma RestLeafPaths(m: TranslationMap, root: bool)
    requires m.Cons? && Keyed(m, root) && LeafPathsOf(m.rest, root, Leaves(m.rest))
    ensures LeafPathsOf(m, root, Leaves(m.rest))
    ensures forall i :: 0 <= i < |Leaves(m.rest)| ==> Leaves(m.rest)[i].0 != [] && Leaves(m.rest)[i].0[0] != m.key
  {
    forall i | 0 <= i < |Leaves(m.rest)|
      ensures LeafPath(m, root, Leaves(m.rest)[i].0) && Leaves(m.rest)[i].0[0] != m.key
    {
      assert LeafPath(m.rest, root, Leaves(m.rest)[i].0);
    }
  }

  lemma LeafPathsAppend(m: TranslationMap, root: bool, a: seq<Leaf>, b: seq<Leaf>)
    requires LeafPathsOf(m, root, a) && LeafPathsOf(m, root, b)
    ensures LeafPathsOf(m, root, a + b)
  {
  }

  lemma LeavesAre(m: TranslationMap)
    requires m.Cons?
    ensures Leaves(m) == FirstLeaves(m) + Leaves(m.rest)
  {
  }

  /** Leaf paths are dot-free and start with a key of the tree. */
  lemma {:induction false} LeafPaths(m: TranslationMap, root: bool)
    requires Keyed(m, root)
    ensures LeafPathsOf(m, root, Leaves(m))
    decreases m
  {
    if m.Cons? {
      if m.value.Nested? { LeafPaths(m.value.entries, false); }
      LeafPaths(m.rest, root);
      FirstLeafPaths(m, root);
      RestLeafPaths(m, root);
      LeavesAre(m);
      LeafPathsAppend(m, root, FirstLeaves(m), Leaves(m.rest));
    }
  }

  lemma UnderDistinct(p: Path, leaves: seq<Leaf>)
    requires DistinctPaths(leaves)
    ensures DistinctPaths(Under(p, leaves))
  {
    var r := Under(p, leaves);
    forall i, j | 0 <= i < j < |r| ensures r[i].0 != r[j].0 {
      assert r[i].0[|p|..] == leaves[i].0 && r[j].0[|p|..] == leaves[j].0;
    }
  }

  lemma DistinctAppend(a: seq<Leaf>, b: seq<Leaf>, key: string)
    requires DistinctPaths(a) && DistinctPaths(b)
    requires forall i :: 0 <= i < |a| ==> a[i].0 != [] && a[i].0[0] == key
    requires forall i :: 0 <= i < |b| ==> b[i].0 != [] && b[i].0[0] != key
    ensures DistinctPaths(a + b)
  {
  }

  /** Leaf paths are pairwise different. */
  lemma {:induction false} LeavesDistinct(m: TranslationMap, root: bool)
    requires Keyed(m, root)
    ensures DistinctPaths(Leaves(m))
    decreases m
  {
    if m.Cons? {
      if m.value.Nested? {
        LeavesDistinct(m.value.entries, false);
        UnderDistinct([m.key], Leaves(m.value.entries));
        LeafPaths(m.value.entries, false);
      }
      LeavesDistinct(m.rest, root);
      LeafPaths(m.rest, root);
      FirstLeafPaths(m, root);
      RestLeafPaths(m, root);
      LeavesAre(m);
      DistinctAppend(FirstLeaves(m), Leaves(m.rest), m.key);
    }
  }

  lemma GoodLeafPaths(m: TranslationMap)
    requires Keyed(m, true)
    ensures forall i :: 0 <= i < |Leaves(m)| ==> GoodPath(Leaves(m)[i].0)
    ensures DistinctPaths(Leaves(m))
  {
    LeafPaths(m, true);
    LeavesDistinct(m, true);
    forall i | 0 <= i < |Leaves(m)| ensures GoodPath(Leaves(m)[i].0) { assert LeafPath(m, true, Leaves(m)[i].0); }
  }

  lemma GoodPathsDottedDiffer(p: Path, q: Path)
    requires GoodPath(p) && GoodPath(q) && p != q
    ensures Join(p, '.') != Join(q, '.')
  {
    SplitJoin(p, '.');
    SplitJoin(q, '.');
  }

  lemma DottedDistinct(leaves: seq<Leaf>)
    requires forall i :: 0 <= i < |leaves| ==> GoodPath(leaves[i].0)
    requires DistinctPaths(leaves)
    ensures DistinctKeys(Dotted(leaves))
  {
    forall i, j | 0 <= i < j < |leaves| ensures Dotted(leaves)[i].0 != Dotted(leaves)[j].0 {
      GoodPathsDottedDiffer(leaves[i].0, leaves[j].0);
    }
  }

  lemma FullKeyDotted(p: Path, key: string)
    requires GoodPrefix(p)
    ensures FullKey(Join(p, '.'), key) == Join(p + [key], '.')
    decreases |p|
  {
    if |p| > 1 {
      assert (p + [key])[1..] == p[1..] + [key];
      JoinSnoc(p, key);
    }
  }

  lemma {:induction false} JoinSnoc(p: Path, key: string)
    requires p != []
    ensures Join(p + [key], '.') == Join(p, '.') + "." + key
    decreases |p|
  {
    if |p| > 1 {
      assert (p + [key])[1..] == p[1..] + [key];
      JoinSnoc(p[1..], key);
    } else {
      assert (p + [key])[1..] == [key];
    }
  }

  lemma MapSetNew(out: FlatMap, key: string, text: string)
    requires DistinctKeys(out + [(key, text)])
    ensures MapSet(out, key, text) == out + [(key, text)]
  {
    var all := out + [(key, text)];
    forall i | 0 <= i < |out| ensures out[i].0 != key { assert all[i].0 != all[|out|].0; }
  }

  lemma DistinctPrefix(a: FlatMap, b: FlatMap, c: FlatMap)
    requires DistinctKeys(a + (b + c))
    ensures DistinctKeys(a + b) && a + (b + c) == a + b + c
  {
    var all := a + (b + c);
    assert all == a + b + c;
    forall i, j | 0 <= i < j < |a + b| ensures (a + b)[i].0 != (a + b)[j].0 {
      assert (a + b)[i] == all[i] && (a + b)[j] == all[j];
    }
  }

  lemma UnderUnder(p: Path, q: Path, leaves: seq<Leaf>)
    ensures Under(p, Under(q, leaves)) == Under(p + q, leaves)
    ensures Under([], leaves) == leaves
  {
    forall i | 0 <= i < |leaves| ensures Under(p, Under(q, leaves))[i] == Under(p + q, leaves)[i] {
      assert p + (q + leaves[i].0) == (p + q) + leaves[i].0;
    }
    forall i | 0 <= i < |leaves| ensures Under([], leaves)[i] == leaves[i] {
      assert [] + leaves[i].0 == leaves[i].0;
    }
  }

  /** The dotted entries that an object contributes below prefix path p, and their two halves:
      those of its first property and those of the rest. */
  function Contribution(p: Path, m: TranslationMap): FlatMap { Dotted(Under(p, Leaves(m))) }

  function FirstContribution(p: Path, m: TranslationMap): FlatMap
    requires m.Cons?
  {
    if m.value.Text? then [(Join(p + [m.key], '.'), m.value.text)] else Contribution(p + [m.key], m.value.entries)
  }

  lemma {:induction false} ContributionAppend(p: Path, a: seq<Leaf>, b: seq<Leaf>)
    ensures Dotted(Under(p, a + b)) == Dotted(Under(p, a)) + Dotted(Under(p, b))
    decreases |a|
  {
    if a == [] {
      assert a + b == b;
    } else {
      assert (a + b)[1..] == a[1..] + b;
      ContributionAppend(p, a[1..], b);
    }
  }

  lemma ContributionSplit(p: Path, m: TranslationMap)
    requires m.Cons?
    ensures Contribution(p, m) == FirstContribution(p, m) + Contribution(p, m.rest)
  {
    match m.value
    case Text(text) =>
      ContributionAppend(p, [([m.key], text)], Leaves(m.rest));
      assert Dotted(Under(p, [([m.key], text)])) == FirstContribution(p, m);
    case Nested(sub) =>
      ContributionAppend(p, Under([m.key], Leaves(sub)), Leaves(m.rest));
      UnderUnder(p, [m.key], Leaves(sub));
  }

  lemma GoodPathSnoc(p: Path, key: string)
    requires GoodPrefix(p) && '.' !in key
    ensures GoodPath(p + [key]) && (p != [] || key != "" ==> GoodPrefix(p + [key]))
  {
  }

  lemma {:induction false} FlattenIsDotted(m: TranslationMap, p: Path, out: FlatMap)
    requires Keyed(m, p == []) && GoodPrefix(p)
    requires DistinctKeys(out + Contribution(p, m))
    ensures FlattenInto(m, Join(p, '.'), out) == out + Contribution(p, m)
    decreases m
  {
    if m.Cons? {
      var head, tail := FirstContribution(p, m), Contribution(p, m.rest);
      FlattenStep(m, p, out);
      if m.value.Nested? {
        GoodPathSnoc(p, m.key);
        FlattenIsDotted(m.value.entries, p + [m.key], out);
      }
      FlattenIsDotted(m.rest, p, out + head);
    }
  }

  /** The first property of an object, and what is left to do after it. */
  lemma FlattenStep(m: TranslationMap, p: Path, out: FlatMap)
    requires m.Cons? && GoodPrefix(p)
    requires DistinctKeys(out + Contribution(p, m))
    ensures out + Contribution(p, m) == out + FirstContribution(p, m) + Contribution(p, m.rest)
    ensures DistinctKeys(out + FirstContribution(p, m))
    ensures FullKey(Join(p, '.'), m.key) == Join(p + [m.key], '.')
    ensures m.value.Text? ==> MapSet(out, Join(p + [m.key], '.'), m.value.text) == out + FirstContribution(p, m)
  {
    ContributionSplit(p, m);
    DistinctPrefix(out, FirstContribution(p, m), Contribution(p, m.rest));
    FullKeyDotted(p, m.key);
    if m.value.Text? { MapSetNew(out, Join(p + [m.key], '.'), m.value.text); }
  }

  /** The flattening of such a tree: its leaves in order under their dotted keys, all different. */
  lemma FlattenLeaves(m: TranslationMap)
    requires Keyed(m, true)
    ensures Flatten(m) == Dotted(Leaves(m)) && DistinctKeys(Flatten(m))
  {
    GoodLeafPaths(m);
    DottedDistinct(Leaves(m));
    UnderUnder([], [], Leaves(m));
    FlattenContributes(m);
  }

  lemma FlattenContributes(m: TranslationMap)
    requires Keyed(m, true) && DistinctKeys(Contribution([], m))
    ensures Flatten(m) == Contribution([], m)
  {
    var none: FlatMap := [];
    assert none + Contribution([], m) == Contribution([], m);
    FlattenIsDotted(m, [], none);
  }

  /** Rebuilding undoes flattening, order included. */
  lemma RebuildFlatten(m: TranslationMap)
    requires WellFormed(m)
    ensures Rebuild(Nil, Flatten(m)) == m
  {
    WellFormedIsKeyed(m, true);
    FlattenLeaves(m);
    GoodLeafPaths(m);
    RebuildDotted(Nil, Leaves(m));
    SetLeavesRebuilds(Nil, m);
  }

  // ---- translated values under the source's keys

  /** The source's keys with other values. */
  function WithTexts(flat: FlatMap, texts: string -> string): (r: FlatMap)
    ensures |r| == |flat| && forall i :: 0 <= i < |flat| ==> r[i] == (flat[i].0, texts(flat[i].0))
  {
    if flat == [] then [] else [(flat[0].0, texts(flat[0].0))] + WithTexts(flat[1..], texts)
  }

  /** The source's shape with other values. */
  function Retext(m: TranslationMap, p: Path, texts: string -> string): TranslationMap {
    match m
    case Nil => Nil
    case Cons(key, Text(_), rest) => Cons(key, Text(texts(Join(p + [key], '.'))), Retext(rest, p, texts))
    case Cons(key, Nested(sub), rest) => Cons(key, Nested(Retext(sub, p + [key], texts)), Retext(rest, p, texts))
  }

  lemma {:induction false} RetextShape(m: TranslationMap, p: Path, texts: string -> string)
    ensures WellFormed(m) ==> WellFormed(Retext(m, p, texts))
    ensures Retext(m, p, texts) == Nil <==> m == Nil
    ensures forall k :: Get(Retext(m, p, texts), k) == None <==> Get(m, k) == None
    decreases m
  {
    if m.Cons? {
      RetextShape(m.rest, p, texts);
      if m.value.Nested? { RetextShape(m.value.entries, p + [m.key], texts); }
    }
  }

  lemma {:induction false} RetextLeaves(m: TranslationMap, p: Path, texts: string -> string)
    ensures Contribution(p, Retext(m, p, texts)) == WithTexts(Contribution(p, m), texts)
    decreases m
  {
    if m.Cons? {
      var m' := Retext(m, p, texts);
      RetextLeaves(m.rest, p, texts);
      if m.value.Nested? { RetextLeaves(m.value.entries, p + [m.key], texts); }
      ContributionSplit(p, m);
      ContributionSplit(p, m');
      assert FirstContribution(p, m') == WithTexts(FirstContribution(p, m), texts);
    }
  }

  /** Inserting translated values under the source's keys clobbers nothing: the result flattens to exactly
      those keys with those values, and it has the source's shape. */
  lemma RebuildTranslated(m: TranslationMap, texts: string -> string)
    requires WellFormed(m)
    ensures Flatten(Rebuild(Nil, WithTexts(Flatten(m), texts))) == WithTexts(Flatten(m), texts)
    ensures Rebuild(Nil, WithTexts(Flatten(m), texts)) == Retext(m, [], texts)
    ensures WellFormed(Retext(m, [], texts))
  {
    var m' := Retext(m, [], texts);
    RetextShape(m, [], texts);
    WellFormedIsKeyed(m, true);
    WellFormedIsKeyed(m', true);
    FlattenLeaves(m);
    FlattenLeaves(m');
    RetextLeaves(m, [], texts);
    UnderUnder([], [], Leaves(m));
    UnderUnder([], [], Leaves(m'));
    RebuildFlatten(m');
  }

  // ---- which flat maps survive being rebuilt

  /** Reading a string back along a path. */
  function Lookup(m: TranslationMap, p: Path): Option<string>
    decreases |p|
  {
    if p == [] then None
    else
      match Get(m, p[0])
      case Some(Text(text)) => if |p| == 1 then Some(text) else None
      case Some(Nested(sub)) => Lookup(sub, p[1..])
      case None => None
  }

  predicate Comparable(p: Path, q: Path) { p <= q || q <= p }

  lemma GetPut(m: TranslationMap, key: string, v: Value)
    ensures forall k :: Get(Put(m, key, v), k) == if k == key then Some(v) else Get(m, k)
  {
  }

  /** One insertion: readable itself, hiding every comparable path, leaving all others alone. */
  lemma {:induction false} LookupSetPath(m: TranslationMap, p: Path, v: string, q: Path)
    requires p != [] && q != []
    ensures Lookup(SetPath(m, p, v), q)
         == if p == q then Some(v) else if Comparable(p, q) then None else Lookup(m, q)
    decreases |p|
  {
    assert p == [p[0]] + p[1..] && q == [q[0]] + q[1..];
    var below := if |p| == 1 then Text(v) else Nested(SetPath(SubMap(m, p[0]), p[1..], v));
    GetPut(m, p[0], below);
    if q[0] == p[0] {
      if |p| > 1 && |q| > 1 {
        LookupSetPath(SubMap(m, p[0]), p[1..], v, q[1..]);
        assert p[1..] <= q[1..] <==> p <= q;
        assert q[1..] <= p[1..] <==> q <= p;
      }
    } else {
      assert !(p <= q) && !(q <= p);
    }
  }

  /** Some entry's path is comparable with the key's. */
  predicate Hides(flat: FlatMap, key: string) {
    exists i :: 0 <= i < |flat| && Comparable(SplitOn(flat[i].0, '.'), SplitOn(key, '.'))
  }

  ghost predicate NoKey(flat: FlatMap, key: string) { forall i :: 0 <= i < |flat| ==> flat[i].0 != key }

  lemma {:induction false} LookupRebuild(m: TranslationMap, flat: FlatMap, key: string)
    requires NoKey(flat, key)
    ensures Lookup(Rebuild(m, flat), SplitOn(key, '.'))
         == if Hides(flat, key) then None else Lookup(m, SplitOn(key, '.'))
    decreases |flat|
  {
    if flat != [] {
      var p, q := SplitOn(flat[0].0, '.'), SplitOn(key, '.');
      JoinSplit(flat[0].0, '.');
      JoinSplit(key, '.');
      LookupSetPath(m, p, flat[0].1, q);
      LookupRebuild(SetPath(m, p, flat[0].1), flat[1..], key);
      if i :| 0 <= i < |flat| && Comparable(SplitOn(flat[i].0, '.'), q) {
        if i > 0 { assert flat[i] == flat[1..][i - 1]; }
      }
    }
  }

  lemma {:induction false} RebuildAppend(m: TranslationMap, a: FlatMap, b: FlatMap)
    ensures Rebuild(m, a + b) == Rebuild(Rebuild(m, a), b)
    decreases |a|
  {
    if a == [] {
      assert a + b == b;
    } else {
      assert (a + b)[1..] == a[1..] + b;
      RebuildAppend(SetNestedValue(m, a[0].0, a[0].1), a[1..], b);
    }
  }

  lemma ReadsAmong(before: FlatMap, key: string, text: string, after: FlatMap)
    requires NoKey(after, key)
    ensures Lookup(Rebuild(Nil, before + ([(key, text)] + after)), SplitOn(key, '.'))
         == if Hides(after, key) then None else Some(text)
  {
    var m := Rebuild(Nil, before);
    RebuildAppend(Nil, before, [(key, text)] + after);
    assert ([(key, text)] + after)[1..] == after;
    LookupSetPath(m, SplitOn(key, '.'), text, SplitOn(key, '.'));
    LookupRebuild(SetNestedValue(m, key, text), after, key);
  }

  /** What is read back under one of the keys: its text, unless a later key's path is comparable. */
  lemma RebuildReads(flat: FlatMap, i: nat)
    requires DistinctKeys(flat) && i < |flat|
    ensures Lookup(Rebuild(Nil, flat), SplitOn(flat[i].0, '.'))
         == if Hides(flat[i + 1..], flat[i].0) then None else Some(flat[i].1)
  {
    AroundIndex(flat, i);
    ReadsAmong(flat[..i], flat[i].0, flat[i].1, flat[i + 1..]);
  }

  lemma AroundIndex(flat: FlatMap, i: nat)
    requires DistinctKeys(flat) && i < |flat|
    ensures flat[..i] + ([(flat[i].0, flat[i].1)] + flat[i + 1..]) == flat
    ensures NoKey(flat[i + 1..], flat[i].0)
  {
  }

  /** No insertion clobbers an earlier one exactly when no key's path is a prefix of another's. */
  lemma RebuildKeepsAllIff(flat: FlatMap)
    requires DistinctKeys(flat)
    ensures (forall i :: 0 <= i < |flat| ==> Lookup(Rebuild(Nil, flat), SplitOn(flat[i].0, '.')) == Some(flat[i].1))
       <==> (forall i, j :: 0 <= i < j < |flat| ==> !ComparableKeys(flat[i].0, flat[j].0))
  {
    forall i | 0 <= i < |flat|
      ensures Lookup(Rebuild(Nil, flat), SplitOn(flat[i].0, '.')) == Some(flat[i].1)
         <==> forall j :: i < j < |flat| ==> !ComparableKeys(flat[i].0, flat[j].0)
    {
      RebuildReads(flat, i);
      HidesAfter(flat, i);
    }
  }

  predicate ComparableKeys(k: string, l: string) { Comparable(SplitOn(k, '.'), SplitOn(l, '.')) }

  lemma HidesAfter(flat: FlatMap, i: nat)
    requires i < |flat|
    ensures Hides(flat[i + 1..], flat[i].0) <==> exists j :: i < j < |flat| && ComparableKeys(flat[i].0, flat[j].0)
  {
    var after := flat[i + 1..];
    if k :| 0 <= k < |after| && Comparable(SplitOn(after[k].0, '.'), SplitOn(flat[i].0, '.')) {
      assert flat[i + 1 + k] == after[k];
      assert ComparableKeys(flat[i].0, flat[i + 1 + k].0);
    }
    if j :| i < j < |flat| && ComparableKeys(flat[i].0, flat[j].0) { assert after[j - i - 1] == flat[j]; }
  }
}
