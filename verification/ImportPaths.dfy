/** Where a relative import leads (scripts/openclaw-npm-postpublish-verify.ts): the path it names and the files that are
    tried for it, told by the parts of the paths. */
module ImportPaths {
  import opened Wrappers
  import opened Text
  import opened ImportGraph

  // ---- paths

  ghost predicate AreNames(parts: seq<string>) {
    forall k :: 0 <= k < |parts| ==> parts[k] != "" && parts[k] != "." && parts[k] != ".." && '/' !in parts[k]
  }

  ghost predicate AreDots(parts: seq<string>) { forall k :: 0 <= k < |parts| ==> parts[k] == "." || parts[k] == ".." }

  function CountUps(parts: seq<string>): (n: nat)
    ensures n <= |parts|
  {
    if parts == [] then 0 else (if parts[0] == ".." then 1 else 0) + CountUps(parts[1..])
  }

  /** The folder so many levels up, and no further than the root. */
  function Up(dir: Path, n: nat): Path { if n >= |dir| then [] else dir[..|dir| - n] }

  lemma {:induction false} WalkNames(dir: Path, names: seq<string>)
    requires AreNames(names)
    ensures Walk(dir, names) == dir + names
    decreases |names|
  {
    if names != [] {
      WalkNames(dir + [names[0]], names[1..]);
      assert dir + [names[0]] + names[1..] == dir + names;
    } else {
      assert dir + names == dir;
    }
  }

  /** One dot stays where it is, two go up, and names go down. */
  lemma {:induction false} WalkDots(dir: Path, dots: seq<string>, names: seq<string>)
    requires AreDots(dots) && AreNames(names)
    ensures Walk(dir, dots + names) == Up(dir, CountUps(dots)) + names
    decreases |dots|
  {
    if dots == [] {
      assert dots + names == names;
      WalkNames(dir, names);
    } else {
      assert (dots + names)[1..] == dots[1..] + names;
      WalkDots(if dots[0] == ".." then Up(dir, 1) else dir, dots[1..], names);
      if dots[0] == ".." { UpAgain(dir, CountUps(dots[1..])); }
    }
  }

  lemma UpAgain(dir: Path, n: nat)
    ensures Up(Up(dir, 1), n) == Up(dir, n + 1)
  {
  }

  lemma {:induction false} WalkAppend(dir: Path, a: seq<string>, b: seq<string>)
    ensures Walk(dir, a + b) == Walk(Walk(dir, a), b)
    decreases |a|
  {
    if a == [] {
      assert a + b == b;
    } else {
      assert (a + b)[1..] == a[1..] + b;
      if a[0] == "" || a[0] == "." {
        WalkAppend(dir, a[1..], b);
      } else if a[0] == ".." {
        WalkAppend(if dir == [] then [] else dir[..|dir| - 1], a[1..], b);
      } else {
        WalkAppend(dir + [a[0]], a[1..], b);
      }
    }
  }

  lemma DownAndUp(there: Path, name: string)
    requires AreNames([name])
    ensures Walk(there, [name, ".."]) == there
  {
    var down := there + [name];
    assert [name][0] == name;
    assert [name, ".."][1..] == [".."] && [".."][1..] == [] && down[..|down| - 1] == there;
    assert Walk(there, [name, ".."]) == Walk(down, [".."]);
    assert Walk(down, [".."]) == Walk(there, []);
  }

  /** Going down and up again, staying, or a doubled slash leads nowhere, wherever it stands in the path. */
  lemma WalkNormalizes(dir: Path, a: seq<string>, name: string, b: seq<string>)
    requires AreNames([name])
    ensures Walk(dir, a + [name, ".."] + b) == Walk(dir, a + ["."] + b) == Walk(dir, a + [""] + b) == Walk(dir, a + b)
  {
    var there := Walk(dir, a);
    DownAndUp(there, name);
    WalkAppend(dir, a, b);
    forall detour | detour in {[name, ".."], ["."], [""]} ensures Walk(dir, a + detour + b) == Walk(there, b) {
      WalkAppend(dir, a + detour, b);
      WalkAppend(dir, a, detour);
      assert ["."][1..] == [] && [""][1..] == [];
    }
  }

  // ---- specifiers

  /** A specifier such as ./a or ../../a/b. */
  function Specifier(dots: seq<string>, names: seq<string>): string { Join(dots + names, '/') }

  lemma {:induction false} JoinLast(parts: seq<string>)
    requires parts != [] && parts[|parts| - 1] != ""
    ensures var s := Join(parts, '/'); s != "" && s[|s| - 1] == parts[|parts| - 1][|parts[|parts| - 1]| - 1]
  {
    if |parts| > 1 {
      JoinLast(parts[1..]);
      var rest := Join(parts[1..], '/');
      assert Join(parts, '/') == parts[0] + ['/'] + rest;
      assert (parts[0] + ['/'] + rest)[|parts[0]| + |rest|] == rest[|rest| - 1];
    }
  }

  lemma SpecifierParts(dots: seq<string>, names: seq<string>)
    requires dots != [] && AreDots(dots) && names != [] && AreNames(names)
    ensures var s := Specifier(dots, names);
      "." <= s && SplitOn(s, '/') == dots + names && s[|s| - 1] != '/'
  {
    var parts := dots + names;
    forall k | 0 <= k < |parts| ensures '/' !in parts[k] {
      if k >= |dots| { assert parts[k] == names[k - |dots|]; }
    }
    SplitJoin(parts, '/');
    JoinLast(parts);
    assert parts[0] == dots[0];
  }

  /** The seven files tried for a name in a folder. */
  function Tried(folder: Path, name: string): seq<Path> {
    [folder + [name], folder + [name + ".js"], folder + [name + ".mjs"], folder + [name + ".cjs"],
     folder + [name, "index.js"], folder + [name, "index.mjs"], folder + [name, "index.cjs"]]
  }

  lemma TriedAre(folder: Path, name: string)
    requires name != ""
    ensures Candidates(folder + [name]) == Tried(folder, name)
  {
    var base := folder + [name];
    assert base[..|base| - 1] == folder && base[|base| - 1] == name;
    assert forall index: string :: base + [index] == folder + [name, index];
  }

  /** An import leads to the first of the seven files that is usable, of the name it gives in the folder that is as many
      levels up from its own file as it has double dots, and then down along its other names. */
  lemma ResolvesTo(dist: Path, disk: Disk, home: Path, file: string, dots: seq<string>, names: seq<string>,
                   name: string)
    requires file != "" && dots != [] && AreDots(dots) && AreNames(names + [name])
    requires home != [] ==> home[|home| - 1] != ""
    ensures Resolve(dist, disk, home + [file], Specifier(dots, names + [name]))
         == FirstUsable(dist, disk, Tried(Up(home, CountUps(dots)) + names, name))
  {
    var importer, specifier, folder := home + [file], Specifier(dots, names + [name]), Up(home, CountUps(dots)) + names;
    assert Directory(importer) == home;
    SpecifierParts(dots, names + [name]);
    WalkDots(home, dots, names + [name]);
    assert JoinPath(home, specifier) == folder + [name];
    assert (names + [name])[|names|] == name;
    TriedAre(folder, name);
  }

  /** Anything else but a relative specifier leads nowhere. */
  lemma ForeignLeadsNowhere(dist: Path, disk: Disk, importer: Path, specifier: string)
    requires specifier == "" || specifier[0] != '.'
    ensures Resolve(dist, disk, importer, specifier) == None
  {
  }

  /** Usable is what exists strictly below the dist folder, except below names that begin with two dots. */
  lemma UsableIff(dist: Path, disk: Disk, names: seq<string>)
    requires AreNames(names)
    ensures Usable(dist, disk, dist + names)
            <==> names != [] && !(".." <= names[0]) && dist + names in disk
    ensures forall p :: AreNames(p) && !(dist <= p) ==> !Usable(dist, disk, p)
  {
    var p := dist + names;
    if names != [] { assert p[|p| - 1] == names[|names| - 1] && p[|dist|] == names[0]; }
    if names == [] { assert p == dist; }
  }

  /** What counts as an import of zod: the first part of the specifier is zod. */
  lemma ImportsZodIff(specifier: string)
    ensures ImportsZod(specifier) <==> SplitOn(specifier, '/')[0] == "zod"
  {
    var i := IndexOf(specifier, '/');
    if "zod/" <= specifier { IndexOfIs(specifier, '/', 3); }
    if specifier == "zod" { IndexOfIs(specifier, '/', 3); }
    if i == 3 && specifier[..3] == "zod" { assert |specifier| == 3 || specifier[..4] == "zod/"; }
  }
}
