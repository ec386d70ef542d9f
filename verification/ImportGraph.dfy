/** Whether an installed package's zod bundle is self-contained (scripts/openclaw-npm-postpublish-verify.ts): a worklist
    over the relative imports of installed files, which may form cycles. */
module ImportGraph {
  import opened Wrappers
  import opened Text

  /** The parts of an absolute path; an empty last part is a trailing slash. */
  type Path = seq<string>

  /** What is on disk under a path: a regular file, with its size and, if it can be parsed, what it imports; or
      something else that exists. */
  datatype Entry = File(size: nat, imports: Option<seq<string>>) | NoFile

  type Disk = map<Path, Entry>

  const MAX_INSTALLED_ROOT_DIST_JS_BYTES: nat := 6 * 1024 * 1024

  // ---- resolving a specifier

  function Plain(p: Path): Path { if p != [] && p[|p| - 1] == "" then p[..|p| - 1] else p }

  function Directory(p: Path): Path { var q := Plain(p); if q == [] then [] else q[..|q| - 1] }

  /** Going along the parts of a relative path. */
  function Walk(dir: Path, parts: seq<string>): Path
    decreases |parts|
  {
    if parts == [] then dir
    else if parts[0] == "" || parts[0] == "." then Walk(dir, parts[1..])
    else if parts[0] == ".." then Walk(if dir == [] then [] else dir[..|dir| - 1], parts[1..])
    else Walk(dir + [parts[0]], parts[1..])
  }

  function JoinPath(dir: Path, specifier: string): Path {
    var p := Walk(Plain(dir), SplitOn(specifier, '/'));
    if specifier != "" && specifier[|specifier| - 1] == '/' then p + [""] else p
  }

  function Extended(p: Path, extension: string): Path {
    if p == [] then [extension] else p[..|p| - 1] + [p[|p| - 1] + extension]
  }

  function Candidates(base: Path): seq<Path> {
    [base, Extended(base, ".js"), Extended(base, ".mjs"), Extended(base, ".cjs"),
     Plain(base) + ["index.js"], Plain(base) + ["index.mjs"], Plain(base) + ["index.cjs"]]
  }

  /** Below the dist directory, as far as the relative path shows: it is neither empty nor begins with two dots. */
  predicate Inside(dist: Path, p: Path) {
    var q := Plain(p);
    |q| > |dist| && q[..|dist|] == dist && !(".." <= q[|dist|])
  }

  predicate Usable(dist: Path, disk: Disk, p: Path) { Inside(dist, p) && p in disk }

  function FirstUsable(dist: Path, disk: Disk, candidates: seq<Path>): (r: Option<Path>)
    ensures r.Some? ==> Usable(dist, disk, r.value)
  {
    if candidates == [] then None
    else if Usable(dist, disk, candidates[0]) then Some(candidates[0])
    else FirstUsable(dist, disk, candidates[1..])
  }

  function Resolve(dist: Path, disk: Disk, importer: Path, specifier: string): (r: Option<Path>)
    ensures r.Some? ==> Usable(dist, disk, r.value)
  {
    if !("." <= specifier) then None else FirstUsable(dist, disk, Candidates(JoinPath(Directory(importer), specifier)))
  }

  method ResolveInstalledDistRelativeImport(dist: Path, disk: Disk, importer: Path, specifier: string)
    returns (r: Option<Path>)
    ensures r == Resolve(dist, disk, importer, specifier)
  {
    if !("." <= specifier) { return None; }
    var candidates := Candidates(JoinPath(Directory(importer), specifier));
    assert candidates[0..] == candidates;
    for i := 0 to |candidates|
      invariant FirstUsable(dist, disk, candidates) == FirstUsable(dist, disk, candidates[i..])
    {
      assert candidates[i..][1..] == candidates[i + 1..];
      if !Usable(dist, disk, candidates[i]) { continue; }
      return Some(candidates[i]);
    }
    return None;
  }

  /** The first usable candidate is taken, and none only if none is usable. */
  lemma {:induction false} FirstUsableIs(dist: Path, disk: Disk, candidates: seq<Path>, k: nat)
    requires k < |candidates| && Usable(dist, disk, candidates[k])
    requires forall j :: 0 <= j < k ==> !Usable(dist, disk, candidates[j])
    ensures FirstUsable(dist, disk, candidates) == Some(candidates[k])
    decreases k
  {
    if k > 0 { FirstUsableIs(dist, disk, candidates[1..], k - 1); }
  }

  lemma {:induction false} FirstUsableFound(dist: Path, disk: Disk, candidates: seq<Path>)
    ensures FirstUsable(dist, disk, candidates) == None
         <==> forall k :: 0 <= k < |candidates| ==> !Usable(dist, disk, candidates[k])
    decreases |candidates|
  {
    if candidates != [] && !Usable(dist, disk, candidates[0]) {
      FirstUsableFound(dist, disk, candidates[1..]);
      assert forall k :: 1 <= k < |candidates| ==> candidates[k] == candidates[1..][k - 1];
    }
  }

  // ---- the graph

  predicate ImportsZod(specifier: string) { specifier == "zod" || "zod/" <= specifier }

  predicate Regular(e: Entry) { e.File? && e.size <= MAX_INSTALLED_ROOT_DIST_JS_BYTES }

  /** A file that is present, regular, not too large, parseable and free of zod. */
  predicate Good(disk: Disk, p: Path) {
    p in disk && disk[p].File? && disk[p].size <= 6291456 && disk[p].imports.Some?
    && forall k :: 0 <= k < |disk[p].imports.value| ==> !ImportsZod(disk[p].imports.value[k])
  }

  function Specifiers(disk: Disk, p: Path): seq<string> {
    if p in disk && disk[p].File? && disk[p].imports.Some? then disk[p].imports.value else []
  }

  /** One of the first n specifiers leads from p to q. */
  ghost predicate Leads(dist: Path, disk: Disk, p: Path, specifiers: seq<string>, n: nat, q: Path)
    requires n <= |specifiers|
  {
    exists k :: 0 <= k < n && Resolve(dist, disk, p, specifiers[k]) == Some(q)
  }

  lemma LeadsMore(dist: Path, disk: Disk, p: Path, specifiers: seq<string>, n: nat, q: Path)
    requires n < |specifiers|
    ensures Leads(dist, disk, p, specifiers, n + 1, q)
       <==> Leads(dist, disk, p, specifiers, n, q) || Resolve(dist, disk, p, specifiers[n]) == Some(q)
  {
  }

  /** The files that the first n specifiers lead to. */
  ghost predicate Collects(dist: Path, disk: Disk, p: Path, specifiers: seq<string>, n: nat, found: seq<Path>)
    requires n <= |specifiers|
  {
    forall q :: q in found <==> Leads(dist, disk, p, specifiers, n, q)
  }

  lemma CollectsMore(dist: Path, disk: Disk, p: Path, specifiers: seq<string>, n: nat, found: seq<Path>)
    requires n < |specifiers| && Collects(dist, disk, p, specifiers, n, found)
    ensures var resolved := Resolve(dist, disk, p, specifiers[n]);
      Collects(dist, disk, p, specifiers, n + 1, if resolved.Some? then found + [resolved.value] else found)
  {
    var resolved := Resolve(dist, disk, p, specifiers[n]);
    var more := if resolved.Some? then found + [resolved.value] else found;
    forall q ensures q in more <==> Leads(dist, disk, p, specifiers, n + 1, q) {
      LeadsMore(dist, disk, p, specifiers, n, q);
      assert q in more <==> q in found || resolved == Some(q);
    }
  }

  ghost predicate Edge(dist: Path, disk: Disk, p: Path, q: Path) {
    Leads(dist, disk, p, Specifiers(disk, p), |Specifiers(disk, p)|, q)
  }

  ghost predicate Chain(dist: Path, disk: Disk, files: seq<Path>) {
    forall k :: 0 <= k < |files| - 1 ==> Edge(dist, disk, files[k], files[k + 1])
  }

  ghost predicate Connects(dist: Path, disk: Disk, from: Path, to: Path, files: seq<Path>) {
    files != [] && files[0] == from && files[|files| - 1] == to && Chain(dist, disk, files)
  }

  /** Some chain of imports leads there. */
  ghost predicate Reachable(dist: Path, disk: Disk, from: Path, to: Path) {
    exists files :: Connects(dist, disk, from, to, files)
  }

  lemma ReachesItself(dist: Path, disk: Disk, p: Path)
    ensures Reachable(dist, disk, p, p)
  {
    assert Connects(dist, disk, p, p, [p]);
  }

  lemma ReachesNext(dist: Path, disk: Disk, from: Path, p: Path, q: Path)
    requires Reachable(dist, disk, from, p) && Edge(dist, disk, p, q)
    ensures Reachable(dist, disk, from, q)
  {
    var files :| Connects(dist, disk, from, p, files);
    var more := files + [q];
    forall k | 0 <= k < |more| - 1 ensures Edge(dist, disk, more[k], more[k + 1]) {
      if k < |files| - 1 { assert more[k] == files[k] && more[k + 1] == files[k + 1]; }
    }
    assert Connects(dist, disk, from, q, more);
  }

  /** A set that contains the start and whatever its members import contains all that is reachable. */
  lemma {:induction false} ClosedContains(dist: Path, disk: Disk, from: Path, to: Path, files: seq<Path>,
                                          all: set<Path>)
    requires from in all && Connects(dist, disk, from, to, files)
    requires forall p, q :: p in all && Edge(dist, disk, p, q) ==> q in all
    ensures to in all
    decreases |files|
  {
    if |files| > 1 {
      var init := files[..|files| - 1];
      forall k | 0 <= k < |init| - 1 ensures Edge(dist, disk, init[k], init[k + 1]) {
        assert Edge(dist, disk, files[k], files[k + 1]);
      }
      ClosedContains(dist, disk, from, init[|init| - 1], init, all);
      assert Edge(dist, disk, files[|files| - 2], files[|files| - 1]);
    }
  }

  /** The walk never leaves the dist directory. */
  lemma StaysInside(dist: Path, disk: Disk, from: Path, to: Path)
    requires Reachable(dist, disk, from, to) && to != from
    ensures Usable(dist, disk, to)
  {
    var files :| Connects(dist, disk, from, to, files);
    assert |files| >= 2;
    assert Edge(dist, disk, files[|files| - 2], files[|files| - 1]);
  }

  // ---- the check

  datatype Error =
    | Missing
    | InvalidArtifact(path: Path)
    | Unparseable(path: Path)
    | NotSelfContained(path: Path, specifier: string)

  /** The error says what is wrong with a file. */
  predicate Blames(disk: Disk, entry: Path, p: Path, e: Error) {
    match e
    case Missing => p == entry && p !in disk
    case InvalidArtifact(path) => path == p && p in disk && !Regular(disk[p])
    case Unparseable(path) => path == p && p in disk && Regular(disk[p]) && disk[p].imports.None?
    case NotSelfContained(path, specifier) =>
      path == p && p in disk && Regular(disk[p]) && specifier in Specifiers(disk, p) && ImportsZod(specifier)
  }

  lemma BlamedIsNotGood(disk: Disk, entry: Path, p: Path, e: Error)
    requires Blames(disk, entry, p, e)
    ensures !Good(disk, p)
  {
  }

  /** What waits or was visited: reachable, complete, and what was visited is good. */
  ghost predicate Explored(dist: Path, disk: Disk, entry: Path, pending: seq<Path>, visited: set<Path>) {
    (forall p :: p in pending || p in visited ==> Reachable(dist, disk, entry, p) && (p == entry || p in disk))
    && (entry in pending || entry in visited)
    && (forall p :: p in visited ==> Good(disk, p))
    && (forall p, q :: p in visited && Edge(dist, disk, p, q) ==> q in pending || q in visited)
  }

  /** The relative imports of one file, put on the stack, or the first import of zod. */
  method Expand(dist: Path, disk: Disk, p: Path, specifiers: seq<string>)
    returns (error: Option<Error>, found: seq<Path>)
    requires specifiers == Specifiers(disk, p) && p in disk && Regular(disk[p])
    ensures error == None <==> forall k :: 0 <= k < |specifiers| ==> !ImportsZod(specifiers[k])
    ensures error.Some?
         ==> exists k :: 0 <= k < |specifiers| && ImportsZod(specifiers[k])
                         && error.value == NotSelfContained(p, specifiers[k])
    ensures error == None ==> forall q :: q in found <==> Edge(dist, disk, p, q)
  {
    found := [];
    for i := 0 to |specifiers|
      invariant forall k :: 0 <= k < i ==> !ImportsZod(specifiers[k])
      invariant Collects(dist, disk, p, specifiers, i, found)
    {
      if ImportsZod(specifiers[i]) { return Some(NotSelfContained(p, specifiers[i])), found; }
      var resolved := ResolveInstalledDistRelativeImport(dist, disk, p, specifiers[i]);
      CollectsMore(dist, disk, p, specifiers, i, found);
      if resolved.Some? { found := found + [resolved.value]; }
    }
    return None, found;
  }

  /** One file: what is wrong with it, or else what it imports. */
  method Inspect(dist: Path, disk: Disk, entry: Path, p: Path) returns (error: Option<Error>, found: seq<Path>)
    requires p == entry || p in disk
    ensures error == None <==> Good(disk, p)
    ensures error.Some? ==> Blames(disk, entry, p, error.value)
    ensures error == None ==> forall q :: q in found <==> Edge(dist, disk, p, q)
  {
    if p !in disk { return Some(Missing), []; }
    if !Regular(disk[p]) { return Some(InvalidArtifact(p)), []; }
    if disk[p].imports.None? { return Some(Unparseable(p)), []; }
    error, found := Expand(dist, disk, p, disk[p].imports.value);
  }

  lemma ExploreMore(dist: Path, disk: Disk, entry: Path, pending: seq<Path>, visited: set<Path>, p: Path,
                    found: seq<Path>)
    requires Explored(dist, disk, entry, pending + [p], visited) && Good(disk, p)
    requires forall q :: q in found <==> Edge(dist, disk, p, q)
    ensures Explored(dist, disk, entry, pending + found, visited + {p})
  {
    forall q | q in found ensures Reachable(dist, disk, entry, q) && q in disk {
      assert p in pending + [p];
      ReachesNext(dist, disk, entry, p, q);
    }
    forall q | q in pending ensures Reachable(dist, disk, entry, q) && (q == entry || q in disk) {
      assert q in pending + [p];
    }
    assert p in pending + [p];
    if entry in pending + [p] && entry != p { assert entry in pending; }
    forall a, b | a in visited + {p} && Edge(dist, disk, a, b) ensures b in pending + found || b in visited + {p} {
      if a in visited && b !in visited && b != p { assert b in pending + [p]; }
    }
  }

  lemma ExploreAgain(dist: Path, disk: Disk, entry: Path, pending: seq<Path>, visited: set<Path>, p: Path)
    requires Explored(dist, disk, entry, pending + [p], visited) && p in visited
    ensures Explored(dist, disk, entry, pending, visited)
  {
    forall q | q in pending + [p] ensures q in pending || q in visited {
    }
    assert forall q :: q in pending ==> q in pending + [p];
  }

  lemma AllExplored(dist: Path, disk: Disk, entry: Path, visited: set<Path>, p: Path)
    requires Explored(dist, disk, entry, [], visited) && Reachable(dist, disk, entry, p)
    ensures Good(disk, p)
  {
    var files :| Connects(dist, disk, entry, p, files);
    ClosedContains(dist, disk, entry, p, files, visited);
  }

  /** There is no error exactly when every file reachable from the entry is good; an error names a reachable file and
      what is wrong with it. */
  method CollectInstalledPluginSdkZodArtifactErrors(packageRoot: Path, disk: Disk) returns (errors: seq<Error>)
    ensures var dist, entry := packageRoot + ["dist"], packageRoot + ["dist", "plugin-sdk", "zod.js"];
      (errors == [] <==> forall p :: Reachable(dist, disk, entry, p) ==> Good(disk, p))
      && (errors != []
         ==> |errors| == 1 && exists p :: Reachable(dist, disk, entry, p) && Blames(disk, entry, p, errors[0]))
  {
    var dist, entry := packageRoot + ["dist"], packageRoot + ["dist", "plugin-sdk", "zod.js"];
    var pending, visited := [entry], {};
    ReachesItself(dist, disk, entry);
    while pending != []
      invariant Explored(dist, disk, entry, pending, visited)
      decreases disk.Keys - visited, |pending|
    {
      var p, rest := pending[|pending| - 1], pending[..|pending| - 1];
      assert pending == rest + [p];
      assert p in pending;
      if p in visited {
        ExploreAgain(dist, disk, entry, rest, visited, p);
        pending := rest;
        continue;
      }
      var error, found := Inspect(dist, disk, entry, p);
      if error.Some? {
        BlamedIsNotGood(disk, entry, p, error.value);
        return [error.value];
      }
      ExploreMore(dist, disk, entry, rest, visited, p, found);
      assert p in disk.Keys - visited;
      visited := visited + {p};
      pending := rest + found;
    }
    forall p | Reachable(dist, disk, entry, p) ensures Good(disk, p) {
      AllExplored(dist, disk, entry, visited, p);
    }
    return [];
  }
}
