/** Which flat maps are read back, key by key, from the bundle that is built from them (scripts/control-ui-i18n.ts). */
module LocaleReadBack {
  import opened Wrappers
  import opened Text
  import opened LocaleTree

  // ---- what building leaves behind

  lemma {:induction false} PutKeyed(m: TranslationMap, key: string, value: Value, root: bool)
    requires Keyed(m, root) && '.' !in key && (value.Nested? ==> (root ==> key != "") && Keyed(value.entries, false))
    ensures Keyed(Put(m, key, value), root)
    decreases m
  {
    if m.Cons? && m.key != key {
      PutKeyed(m.rest, key, value, root);
      GetPut(m.rest, key, value);
    }
  }

  lemma {:induction false} SubMapKeyed(m: TranslationMap, key: string, root: bool)
    requires Keyed(m, root)
    ensures Keyed(SubMap(m, key), false)
    decreases m
  {
    if m.Cons? && m.key != key { SubMapKeyed(m.rest, key, root); }
  }

  lemma {:induction false} SetPathKeyed(m: TranslationMap, parts: Path, value: string, root: bool)
    requires Keyed(m, root) && parts != [] && Free(parts, '.') && (root && |parts| > 1 ==> parts[0] != "")
    ensures Keyed(SetPath(m, parts, value), root)
    decreases |parts|
  {
    if |parts| > 1 {
      SubMapKeyed(m, parts[0], root);
      assert forall k :: 0 <= k < |parts[1..]| ==> parts[1..][k] == parts[k + 1];
      SetPathKeyed(SubMap(m, parts[0]), parts[1..], value, false);
      PutKeyed(m, parts[0], Nested(SetPath(SubMap(m, parts[0]), parts[1..], value)), root);
    } else {
      PutKeyed(m, parts[0], Text(value), root);
    }
  }

  /** The dotted key begins with a dot. */
  predicate DotLed(key: string) { key != "" && key[0] == '.' }

  predicate NoneDotLed(flat: FlatMap) { forall i :: 0 <= i < |flat| ==> !DotLed(flat[i].0) }

  lemma HeadPart(key: string)
    requires !DotLed(key) && |SplitOn(key, '.')| > 1
    ensures SplitOn(key, '.')[0] != ""
  {
    JoinSplit(key, '.');
  }

  lemma {:induction false} RebuildKeyed(m: TranslationMap, flat: FlatMap, root: bool)
    requires Keyed(m, root) && (root ==> NoneDotLed(flat))
    ensures Keyed(Rebuild(m, flat), root)
    decreases |flat|
  {
    if flat != [] {
      JoinSplit(flat[0].0, '.');
      if root && |SplitOn(flat[0].0, '.')| > 1 { HeadPart(flat[0].0); }
      SetPathKeyed(m, SplitOn(flat[0].0, '.'), flat[0].1, root);
      RebuildKeyed(SetNestedValue(m, flat[0].0, flat[0].1), flat[1..], root);
    }
  }

  // ---- reading along a path and reading the flattening

  lemma {:induction false} LookupIsLeaf(m: TranslationMap, p: Path, text: string) returns (i: nat)
    requires Lookup(m, p) == Some(text)
    ensures i < |Leaves(m)| && Leaves(m)[i] == (p, text)
    decreases m
  {
    if m.key != p[0] {
      var j := LookupIsLeaf(m.rest, p, text);
      i := |Leaves(m)| - |Leaves(m.rest)| + j;
    } else if m.value.Text? {
      i := 0;
      assert p == [m.key];
    } else {
      i := LookupIsLeaf(m.value.entries, p[1..], text);
      LeavesAre(m);
      assert FirstLeaves(m)[i] == ([m.key] + p[1..], text) && [m.key] + p[1..] == p;
    }
  }

  lemma {:induction false} LeafIsLookup(m: TranslationMap, root: bool, i: nat)
    requires Keyed(m, root) && i < |Leaves(m)|
    ensures Lookup(m, Leaves(m)[i].0) == Some(Leaves(m)[i].1)
    decreases m
  {
    var n := |Leaves(m)| - |Leaves(m.rest)|;
    if i >= n {
      LeafIsLookup(m.rest, root, i - n);
      LeafPaths(m.rest, root);
      assert Leaves(m)[i] == Leaves(m.rest)[i - n];
      assert LeafPath(m.rest, root, Leaves(m.rest)[i - n].0);
      LookupInRest(m, Leaves(m)[i].0);
    } else if m.value.Nested? {
      LeafIsLookup(m.value.entries, false, i);
      assert Leaves(m)[i].0[1..] == Leaves(m.value.entries)[i].0;
      LeafPaths(m.value.entries, false);
      assert LeafPath(m.value.entries, false, Leaves(m.value.entries)[i].0);
    }
  }

  lemma LookupInRest(m: TranslationMap, p: Path)
    requires m.Cons? && p != [] && m.key != p[0]
    ensures Lookup(m, p) == Lookup(m.rest, p)
  {
  }

  /** A text found along a key's path is found under the key in the flattening. */
  lemma FlattenReads(m: TranslationMap, key: string, text: string)
    requires Keyed(m, true) && Lookup(m, SplitOn(key, '.')) == Some(text)
    ensures MapGet(Flatten(m), key) == Some(text)
  {
    var i := LookupIsLeaf(m, SplitOn(key, '.'), text);
    JoinSplit(key, '.');
    FlattenLeaves(m);
    MapGetAt(Flatten(m), i);
  }

  /** And the other way round. */
  lemma FlattenReadsOnly(m: TranslationMap, key: string)
    requires Keyed(m, true) && MapGet(Flatten(m), key).Some?
    ensures Lookup(m, SplitOn(key, '.')) == MapGet(Flatten(m), key)
  {
    FlattenLeaves(m);
    GoodLeafPaths(m);
    var i := IndexOfKey(Flatten(m), key);
    var p := Leaves(m)[i].0;
    assert GoodPath(p);
    SplitJoin(p, '.');
    LeafIsLookup(m, true, i);
  }

  // ---- main results

  /** The key does not begin with a dot, and a later one's path is no prefix of its or the other way round. */
  predicate KeysApart(flat: FlatMap, i: nat, j: nat)
    requires i <= j < |flat|
  {
    !DotLed(flat[i].0) && (i < j ==> !ComparableKeys(flat[i].0, flat[j].0))
  }

  ghost predicate Faithful(flat: FlatMap) { forall i: nat, j: nat :: i <= j < |flat| ==> KeysApart(flat, i, j) }

  lemma FaithfulMeans(flat: FlatMap)
    ensures Faithful(flat)
       <==> NoneDotLed(flat) && forall i, j :: 0 <= i < j < |flat| ==> !ComparableKeys(flat[i].0, flat[j].0)
  {
    if Faithful(flat) {
      forall i | 0 <= i < |flat| ensures !DotLed(flat[i].0) { assert KeysApart(flat, i, i); }
      forall i, j | 0 <= i < j < |flat| ensures !ComparableKeys(flat[i].0, flat[j].0) { assert KeysApart(flat, i, j); }
    }
  }

  /** Every entry of a faithful map is read back from the flattened bundle, whatever its text. */
  lemma FaithfulReadsBack(flat: FlatMap, i: nat)
    requires DistinctKeys(flat) && Faithful(flat) && i < |flat|
    ensures MapGet(Flatten(Rebuild(Nil, flat)), flat[i].0) == Some(flat[i].1)
  {
    FaithfulMeans(flat);
    RebuildKeyed(Nil, flat, true);
    RebuildKeepsAllIff(flat);
    FlattenReads(Rebuild(Nil, flat), flat[i].0, flat[i].1);
  }

  lemma GoodPathNotDotLed(p: Path)
    requires GoodPath(p)
    ensures !DotLed(Join(p, '.'))
  {
    if |p| > 1 { assert Join(p, '.')[0] == p[0][0] && p[0][0] in p[0]; }
    if Join(p, '.') != "" && |p| == 1 { assert p[0][0] in p[0]; }
  }

  /** A well-formed source flattens to a faithful map. */
  lemma WellFormedIsFaithful(m: TranslationMap)
    requires WellFormed(m)
    ensures Faithful(Flatten(m)) && DistinctKeys(Flatten(m))
  {
    var flat := Flatten(m);
    WellFormedIsKeyed(m, true);
    FlattenLeaves(m);
    GoodLeafPaths(m);
    RebuildFlatten(m);
    forall i | 0 <= i < |flat|
      ensures !DotLed(flat[i].0) && Lookup(Rebuild(Nil, flat), SplitOn(flat[i].0, '.')) == Some(flat[i].1)
    {
      assert GoodPath(Leaves(m)[i].0);
      GoodPathNotDotLed(Leaves(m)[i].0);
      SplitJoin(Leaves(m)[i].0, '.');
      LeafIsLookup(m, true, i);
    }
    RebuildKeepsAllIff(flat);
    FaithfulMeans(flat);
  }

  /** Faithfulness is a matter of the keys alone. */
  lemma SameKeysFaithful(a: FlatMap, b: FlatMap)
    requires |a| == |b| && forall i :: 0 <= i < |a| ==> a[i].0 == b[i].0
    requires Faithful(a)
    ensures Faithful(b)
  {
    forall i: nat, j: nat | i <= j < |b| ensures KeysApart(b, i, j) { assert KeysApart(a, i, j); }
  }

  /** Where no key begins with a dot, an entry whose path is comparable with a later one's is not read back. */
  lemma ClobberedIsLost(flat: FlatMap, i: nat, j: nat)
    requires DistinctKeys(flat) && NoneDotLed(flat) && i < j < |flat| && ComparableKeys(flat[i].0, flat[j].0)
    ensures MapGet(Flatten(Rebuild(Nil, flat)), flat[i].0) == None
  {
    RebuildKeyed(Nil, flat, true);
    RebuildReads(flat, i);
    HidesAfter(flat, i);
    if MapGet(Flatten(Rebuild(Nil, flat)), flat[i].0).Some? { FlattenReadsOnly(Rebuild(Nil, flat), flat[i].0); }
  }

  /** With a key that begins with a dot it can be read back as that one's text: here "a" has the text of ".a". */
  lemma DotLedStandsIn()
    ensures var flat := [("a", "x"), ("a.b", "y"), (".a", "z")];
      DistinctKeys(flat) && ComparableKeys("a", "a.b") && MapGet(Flatten(Rebuild(Nil, flat)), "a") == Some("z")
  {
    SplitsAre();
    var one := SetNestedValue(Nil, "a", "x");
    assert one == Cons("a", Text("x"), Nil);
    var two := SetNestedValue(one, "a.b", "y");
    assert two == Cons("a", Nested(Cons("b", Text("y"), Nil)), Nil) by {
      assert ["a", "b"][1..] == ["b"];
    }
    var three := SetNestedValue(two, ".a", "z");
    assert three == Cons("a", Nested(Cons("b", Text("y"), Nil)), Cons("", Nested(Cons("a", Text("z"), Nil)), Nil)) by {
      assert ["", "a"][1..] == ["a"];
    }
    var flat := [("a", "x"), ("a.b", "y"), (".a", "z")];
    assert flat[1..] == [("a.b", "y"), (".a", "z")] && flat[1..][1..] == [(".a", "z")] && flat[1..][1..][1..] == [];
    assert Rebuild(two, [(".a", "z")]) == three by { assert [(".a", "z")][1..] == []; }
    assert Rebuild(Nil, flat) == three;
    FlattenOfThree();
  }

  lemma FlattenOfThree()
    ensures Flatten(Cons("a", Nested(Cons("b", Text("y"), Nil)), Cons("", Nested(Cons("a", Text("z"), Nil)), Nil)))
         == [("a.b", "y"), ("a", "z")]
  {
    var first := [("a.b", "y")];
    assert FullKey("a", "b") == "a.b";
    assert FlattenInto(Cons("b", Text("y"), Nil), "a", []) == first;
    assert MapSet(first, "a", "z") == first + [("a", "z")];
    assert FlattenInto(Cons("a", Text("z"), Nil), "", first) == first + [("a", "z")];
    var rest := Cons("", Nested(Cons("a", Text("z"), Nil)), Nil);
    assert FlattenInto(rest, "", first) == first + [("a", "z")];
  }

  lemma SplitsAre()
    ensures SplitOn("a", '.') == ["a"] && SplitOn("a.b", '.') == ["a", "b"] && SplitOn(".a", '.') == ["", "a"]
  {
    SplitJoin(["a"], '.');
    SplitJoin(["a", "b"], '.');
    SplitJoin(["", "a"], '.');
    assert ["a", "b"][1..] == ["b"] && ["", "a"][1..] == ["a"];
    assert Join(["a", "b"], '.') == "a.b" && Join(["", "a"], '.') == ".a";
  }

  lemma {:induction false} FlattenNotDotLed(m: TranslationMap, prefix: string, out: FlatMap)
    requires Keyed(m, false) && !DotLed(prefix) && NoneDotLed(out)
    ensures NoneDotLed(FlattenInto(m, prefix, out))
    decreases m
  {
    if m.Cons? {
      var fullKey := FullKey(prefix, m.key);
      assert !DotLed(fullKey) by { assert m.key != "" ==> m.key[0] in m.key; }
      if m.value.Text? {
        FlattenNotDotLed(m.rest, prefix, MapSet(out, fullKey, m.value.text));
      } else {
        FlattenNotDotLed(m.value.entries, fullKey, out);
        FlattenNotDotLed(m.rest, prefix, FlattenInto(m.value.entries, fullKey, out));
      }
    }
  }

  /** An entry whose key begins with a dot is never read back, whatever the other entries. */
  lemma DotLedIsLost(flat: FlatMap, key: string)
    requires DotLed(key)
    ensures MapGet(Flatten(Rebuild(Nil, flat)), key) == None
  {
    RebuildKeyed(Nil, flat, false);
    FlattenNotDotLed(Rebuild(Nil, flat), "", []);
  }

  /** A bundle with the dotted keys as they are. */
  function DottedTree(flat: FlatMap): TranslationMap {
    if flat == [] then Nil else Cons(flat[0].0, Text(flat[0].1), DottedTree(flat[1..]))
  }

  lemma {:induction false} FlattenDottedTree(done: FlatMap, flat: FlatMap)
    requires DistinctKeys(done + flat)
    ensures FlattenInto(DottedTree(flat), "", done) == done + flat
    decreases |flat|
  {
    if flat == [] {
      assert done + flat == done;
    } else {
      var first := [flat[0]];
      assert done + flat == done + (first + flat[1..]);
      DistinctPrefix(done, first, flat[1..]);
      MapSetNew(done, flat[0].0, flat[0].1);
      FlattenDottedTree(done + first, flat[1..]);
    }
  }

  // ---- which keys are read back depends on the keys alone

  ghost predicate SameKeys(a: FlatMap, b: FlatMap) { |a| == |b| && forall i :: 0 <= i < |a| ==> a[i].0 == b[i].0 }

  /** The same keys in the same order, at every level, with texts at the same places. */
  predicate SameShape(m: TranslationMap, n: TranslationMap)
    decreases m
  {
    m.Cons? == n.Cons?
    && (m.Cons? ==>
          m.key == n.key && m.value.Text? == n.value.Text?
          && (m.value.Nested? ==> SameShape(m.value.entries, n.value.entries)) && SameShape(m.rest, n.rest))
  }

  predicate ValuesAlike(v: Value, w: Value) {
    v.Text? == w.Text? && (v.Nested? ==> SameShape(v.entries, w.entries))
  }

  lemma {:induction false} PutShape(m: TranslationMap, n: TranslationMap, key: string, v: Value, w: Value)
    requires SameShape(m, n) && ValuesAlike(v, w)
    ensures SameShape(Put(m, key, v), Put(n, key, w))
    decreases m
  {
    if m.Cons? && m.key != key { PutShape(m.rest, n.rest, key, v, w); }
  }

  lemma {:induction false} SubMapShape(m: TranslationMap, n: TranslationMap, key: string)
    requires SameShape(m, n)
    ensures SameShape(SubMap(m, key), SubMap(n, key))
    decreases m
  {
    if m.Cons? && m.key != key { SubMapShape(m.rest, n.rest, key); }
  }

  lemma {:induction false} SetPathShape(m: TranslationMap, n: TranslationMap, parts: Path, v: string, w: string)
    requires SameShape(m, n) && parts != []
    ensures SameShape(SetPath(m, parts, v), SetPath(n, parts, w))
    decreases |parts|
  {
    if |parts| == 1 {
      PutShape(m, n, parts[0], Text(v), Text(w));
    } else {
      var (a, b) := (SubMap(m, parts[0]), SubMap(n, parts[0]));
      SubMapShape(m, n, parts[0]);
      SetPathShape(a, b, parts[1..], v, w);
      PutShape(m, n, parts[0], Nested(SetPath(a, parts[1..], v)), Nested(SetPath(b, parts[1..], w)));
    }
  }

  lemma {:induction false} RebuildShape(m: TranslationMap, n: TranslationMap, a: FlatMap, b: FlatMap)
    requires SameShape(m, n) && SameKeys(a, b)
    ensures SameShape(Rebuild(m, a), Rebuild(n, b))
    decreases |a|
  {
    if a != [] {
      SetPathShape(m, n, SplitOn(a[0].0, '.'), a[0].1, b[0].1);
      RebuildShape(SetNestedValue(m, a[0].0, a[0].1), SetNestedValue(n, b[0].0, b[0].1), a[1..], b[1..]);
    }
  }

  lemma SameIndex(a: FlatMap, b: FlatMap, key: string)
    requires SameKeys(a, b)
    ensures IndexOfKey(a, key) == IndexOfKey(b, key)
  {
    var i := IndexOfKey(a, key);
    IndexOfKeyIs(b, key, i);
  }

  lemma MapSetSameKeys(a: FlatMap, b: FlatMap, key: string, v: string, w: string)
    requires SameKeys(a, b)
    ensures SameKeys(MapSet(a, key, v), MapSet(b, key, w))
  {
    SameIndex(a, b, key);
  }

  lemma {:induction false} FlattenShape(m: TranslationMap, n: TranslationMap, prefix: string, a: FlatMap, b: FlatMap)
    requires SameShape(m, n) && SameKeys(a, b)
    ensures SameKeys(FlattenInto(m, prefix, a), FlattenInto(n, prefix, b))
    decreases m
  {
    if m.Cons? {
      var key := FullKey(prefix, m.key);
      if m.value.Text? {
        MapSetSameKeys(a, b, key, m.value.text, n.value.text);
        FlattenShape(m.rest, n.rest, prefix, MapSet(a, key, m.value.text), MapSet(b, key, n.value.text));
      } else {
        var (c, d) := (FlattenInto(m.value.entries, key, a), FlattenInto(n.value.entries, key, b));
        FlattenShape(m.value.entries, n.value.entries, key, a, b);
        FlattenShape(m.rest, n.rest, prefix, c, d);
      }
    }
  }

  /** Whether a key is read back from a bundle depends only on the keys that the bundle is built from. */
  lemma ReadBackByKeys(a: FlatMap, b: FlatMap, key: string)
    requires SameKeys(a, b)
    ensures MapGet(Flatten(Rebuild(Nil, a)), key).Some? == MapGet(Flatten(Rebuild(Nil, b)), key).Some?
  {
    RebuildShape(Nil, Nil, a, b);
    FlattenShape(Rebuild(Nil, a), Rebuild(Nil, b), "", [], []);
    SameIndex(Flatten(Rebuild(Nil, a)), Flatten(Rebuild(Nil, b)), key);
  }
}
