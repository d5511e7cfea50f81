/**
 * The `bin/setup.js` scaffolder: copy the package's own tree into the current
 * directory, skipping the ignore list at every depth, renaming `_gitignore`,
 * rewriting every `package.json`, then make sure `uploads` exists. The copy
 * is described twice: as the list of file-system operations it performs
 * (`PlanDir`), and as the recursive method that performs them on a file system.
 */
module Setup {
  import opened Wrappers
  import opened Js

  /**
   * A directory entry as `readdirSync(src, { withFileTypes: true })` lists it,
   * with its contents. The source tree is a snapshot taken before the copy, so
   * the source and the target are taken to be disjoint.
   */
  datatype Entry = File(name: string, content: string) | Dir(name: string, entries: seq<Entry>)

  /** A path as its segments. */
  type Path = seq<string>

  const IgnoreList: seq<string> := ["node_modules", "bin", ".git", ".npmignore", "package-lock.json", "dist", "build"]

  /** What copyDir asks of the file system. */
  datatype Op =
    | EnsureDir(path: Path)                    // create the directory unless something exists there
    | Write(path: Path, content: string)       // copy a file verbatim
    | WritePackage(path: Path, content: string)  // rewrite a package.json read from the source

  function Target(op: Op): Path {
    match op
    case EnsureDir(p) => p
    case Write(p, _) => p
    case WritePackage(p, _) => p
  }

  function Size(e: Entry): nat {
    match e
    case File(_, _) => 1
    case Dir(_, es) => 1 + SizeAll(es)
  }

  function SizeAll(es: seq<Entry>): nat {
    if es == [] then 0 else Size(es[0]) + SizeAll(es[1..])
  }

  /** The name an entry is written under. */
  function DestName(n: string): string {
    if n == "_gitignore" then ".gitignore" else n
  }

  /**
   * `copyDir(src, dest)` for a source directory holding `entries`: it first
   * makes sure `dest` exists, and it never touches a path outside `dest` or
   * one that passes through an ignored name.
   */
  function PlanDir(entries: seq<Entry>, dest: Path): (ops: seq<Op>)
    ensures |ops| >= 1 && ops[0] == EnsureDir(dest)
    ensures AllUnder(ops, dest)
    decreases SizeAll(entries), 2
  {
    assert Under(dest, dest);
    AllUnderAppend([EnsureDir(dest)], PlanEntries(entries, dest), dest);
    [EnsureDir(dest)] + PlanEntries(entries, dest)
  }

  /** The loop body of copyDir, over the entries in listing order. */
  function PlanEntries(entries: seq<Entry>, dest: Path): (ops: seq<Op>)
    ensures AllUnder(ops, dest)
    decreases SizeAll(entries), 1
  {
    if entries == [] then []
    else
      AllUnderAppend(PlanEntry(entries[0], dest), PlanEntries(entries[1..], dest), dest);
      PlanEntry(entries[0], dest) + PlanEntries(entries[1..], dest)
  }

  /** One entry: nothing for an ignored name, the subtree for a directory, one write for a file. */
  function PlanEntry(e: Entry, dest: Path): (ops: seq<Op>)
    ensures AllUnder(ops, dest)
    ensures e.name in IgnoreList ==> ops == []
    ensures e.name !in IgnoreList && e.File? ==> |ops| == 1 && !ops[0].EnsureDir? && ops[0].content == e.content
    decreases Size(e), 0
  {
    if e.name in IgnoreList then []
    else
      match e
      case Dir(n, es) =>
        AllUnderChild(PlanDir(es, dest + [n]), dest, n);
        PlanDir(es, dest + [n])
      case File(n, c) =>
        var p := if n == "package.json" then dest + [n] else dest + [DestName(n)];
        assert p[..|dest|] == dest;
        assert Under(dest, p);
        if n == "package.json" then [WritePackage(dest + [n], c)]
        else [Write(dest + [DestName(n)], c)]
  }

  // ----- the plan, described without the traversal -----

  /**
   * A file named `n` with content `c` sits at relative directory `r` of the
   * source, and no directory on the way is ignored.
   */
  predicate SourceHas(entries: seq<Entry>, r: Path, n: string, c: string)
    decreases SizeAll(entries)
  {
    exists i :: 0 <= i < |entries| && Reaches(entries, i, r, n, c)
  }

  predicate Reaches(entries: seq<Entry>, i: nat, r: Path, n: string, c: string)
    requires i < |entries|
    decreases SizeAll(entries), 0
  {
    SizeAllAt(entries, i);
    if r == [] then entries[i] == File(n, c) && n !in IgnoreList
    else
      && entries[i].Dir? && entries[i].name == r[0] && r[0] !in IgnoreList
      && SourceHas(entries[i].entries, r[1..], n, c)
  }

  lemma {:induction false} SizeAllAt(es: seq<Entry>, i: nat)
    requires i < |es|
    ensures Size(es[i]) <= SizeAll(es)
    decreases i
  {
    if i > 0 {
      SizeAllAt(es[1..], i - 1);
    }
  }

  lemma {:induction false} PlanEntriesAppend(a: seq<Entry>, b: seq<Entry>, dest: Path)
    ensures PlanEntries(a + b, dest) == PlanEntries(a, dest) + PlanEntries(b, dest)
    decreases |a|
  {
    if a != [] {
      assert a + b != [] && (a + b)[0] == a[0] && (a + b)[1..] == a[1..] + b;
      assert PlanEntries(a + b, dest) == PlanEntry(a[0], dest) + PlanEntries(a[1..] + b, dest);
      PlanEntriesAppend(a[1..], b, dest);
      var x, y, z := PlanEntry(a[0], dest), PlanEntries(a[1..], dest), PlanEntries(b, dest);
      assert PlanEntries(a, dest) == x + y;
      assert x + (y + z) == (x + y) + z;
    } else {
      assert a + b == b;
    }
  }

  /** A source file named `n`, holding `c`, found at relative directory `r`: the operation that copies it. */
  function CopyOp(dest: Path, r: Path, n: string, c: string): Op {
    if n == "package.json" then WritePackage(dest + r + [n], c) else Write(dest + r + [DestName(n)], c)
  }

  lemma {:induction false} PlanEntriesHas(entries: seq<Entry>, i: nat, dest: Path, op: Op)
    requires i < |entries| && op in PlanEntry(entries[i], dest)
    ensures op in PlanEntries(entries, dest)
    decreases i
  {
    if i > 0 {
      PlanEntriesHas(entries[1..], i - 1, dest, op);
    }
  }

  lemma {:induction false} PlanEntriesFrom(entries: seq<Entry>, dest: Path, op: Op) returns (i: nat)
    requires op in PlanEntries(entries, dest)
    ensures i < |entries| && op in PlanEntry(entries[i], dest)
    decreases |entries|
  {
    if op in PlanEntry(entries[0], dest) {
      i := 0;
    } else {
      var j := PlanEntriesFrom(entries[1..], dest, op);
      i := j + 1;
    }
  }

  /**
   * Every file the source holds outside the ignored names is copied: verbatim
   * under its own name, `_gitignore` as `.gitignore`, and every `package.json`
   * at any depth rewritten.
   */
  lemma {:induction false} PlanCopiesSource(entries: seq<Entry>, dest: Path, r: Path, n: string, c: string)
    requires SourceHas(entries, r, n, c)
    ensures CopyOp(dest, r, n, c) in PlanEntries(entries, dest)
    decreases SizeAll(entries)
  {
    var i :| 0 <= i < |entries| && Reaches(entries, i, r, n, c);
    SizeAllAt(entries, i);
    if r == [] {
      assert dest + r == dest;
      assert CopyOp(dest, r, n, c) in PlanEntry(entries[i], dest);
    } else {
      var d := entries[i];
      PlanCopiesSource(d.entries, dest + [r[0]], r[1..], n, c);
      assert dest + [r[0]] + r[1..] == dest + r;
      assert CopyOp(dest + [r[0]], r[1..], n, c) == CopyOp(dest, r, n, c);
      assert PlanEntry(d, dest) == [EnsureDir(dest + [r[0]])] + PlanEntries(d.entries, dest + [r[0]]);
    }
    PlanEntriesHas(entries, i, dest, CopyOp(dest, r, n, c));
  }

  /** Every file the plan writes comes from a source file that is not ignored, at the matching place. */
  lemma {:induction false} PlanWritesOnlySource(entries: seq<Entry>, dest: Path, op: Op)
    requires op in PlanEntries(entries, dest) && !op.EnsureDir?
    ensures exists r, n :: SourceHas(entries, r, n, op.content) && op == CopyOp(dest, r, n, op.content)
    decreases SizeAll(entries)
  {
    var i := PlanEntriesFrom(entries, dest, op);
    SizeAllAt(entries, i);
    var e := entries[i];
    match e
    case File(n, c) =>
      assert n !in IgnoreList && c == op.content;
      assert dest + [] == dest;
      assert Reaches(entries, i, [], n, c);
      assert op == CopyOp(dest, [], n, c);
    case Dir(m, es) =>
      assert m !in IgnoreList;
      assert op in PlanEntries(es, dest + [m]);
      PlanWritesOnlySource(es, dest + [m], op);
      var r', n :| SourceHas(es, r', n, op.content) && op == CopyOp(dest + [m], r', n, op.content);
      var r := [m] + r';
      assert r[0] == m && r[1..] == r';
      assert Reaches(entries, i, r, n, op.content);
      assert dest + [m] + r' == dest + r;
      assert op == CopyOp(dest, r, n, op.content);
  }

  // ----- where the plan writes -----

  /** `p` is `dest` or lies below it, and no segment below `dest` is an ignored name. */
  predicate Under(dest: Path, p: Path) {
    && |dest| <= |p| && p[..|dest|] == dest
    && forall j :: |dest| <= j < |p| ==> p[j] !in IgnoreList
  }

  predicate AllUnder(ops: seq<Op>, dest: Path) {
    forall i :: 0 <= i < |ops| ==> Under(dest, Target(ops[i]))
  }

  lemma UnderChild(dest: Path, n: string, p: Path)
    requires n !in IgnoreList && Under(dest + [n], p)
    ensures Under(dest, p)
  {
    assert p[..|dest|] == (dest + [n])[..|dest|];
  }

  lemma AllUnderChild(ops: seq<Op>, dest: Path, n: string)
    requires n !in IgnoreList && AllUnder(ops, dest + [n])
    ensures AllUnder(ops, dest)
  {
    forall i | 0 <= i < |ops| ensures Under(dest, Target(ops[i])) {
      UnderChild(dest, n, Target(ops[i]));
    }
  }

  lemma AllUnderAppend(a: seq<Op>, b: seq<Op>, dest: Path)
    requires AllUnder(a, dest) && AllUnder(b, dest)
    ensures AllUnder(a + b, dest)
  {
    forall i | 0 <= i < |a + b| ensures Under(dest, Target((a + b)[i])) {
      if i >= |a| { assert (a + b)[i] == b[i - |a|]; }
    }
  }

  // ----- package.json -----

  const AppName := "my-backend-app"
  const AppVersion := "1.0.0"
  const AppDescription := "Backend application generated from node-backend-structure"

  /**
   * handlePackageJson's edit: drop `bin`, then set name, version and
   * description. The result has no `bin`, the three new fields, and every
   * other field as it was.
   */
  function RewritePackage(pkg: Object): (r: Object)
    ensures Get(r, "bin") == None
    ensures Get(r, "name") == Some(Str(AppName))
    ensures Get(r, "version") == Some(Str(AppVersion))
    ensures Get(r, "description") == Some(Str(AppDescription))
    ensures forall k :: k != "bin" && k != "name" && k != "version" && k != "description"
                        ==> Get(r, k) == Get(pkg, k)
  {
    var p0 := Delete(pkg, "bin");
    var p1 := Set(p0, "name", Str(AppName));
    var p2 := Set(p1, "version", Str(AppVersion));
    var r := Set(p2, "description", Str(AppDescription));
    assert Get(r, "bin") == Get(p2, "bin") == Get(p1, "bin") == Get(p0, "bin");
    assert Get(r, "name") == Get(p2, "name") == Get(p1, "name");
    assert Get(r, "version") == Get(p2, "version");
    assert forall k :: k != "bin" && k != "name" && k != "version" && k != "description"
                       ==> Get(r, k) == Get(p2, k) == Get(p1, k) == Get(p0, k);
    r
  }

  /** A package that already has the three fields keeps its key order, less `bin`. */
  lemma RewriteKeepsLayout(pkg: Object)
    requires "name" in Keys(pkg) && "version" in Keys(pkg) && "description" in Keys(pkg)
    ensures Keys(RewritePackage(pkg)) == RemoveAll(Keys(pkg), "bin")
  {
    var p := Delete(pkg, "bin");
    DeleteKeys(pkg, "bin");
    assert Get(pkg, "name") != None && Get(pkg, "version") != None && Get(pkg, "description") != None;
    assert "name" in Keys(p) && "version" in Keys(p) && "description" in Keys(p);
    var p1 := Set(p, "name", Str(AppName));
    SetKeys(p, "name", Str(AppName));
    var p2 := Set(p1, "version", Str(AppVersion));
    SetKeys(p1, "version", Str(AppVersion));
    SetKeys(p2, "description", Str(AppDescription));
  }

  /** Rewriting a rewritten package.json changes nothing. */
  lemma RewriteIdempotent(pkg: Object)
    ensures RewritePackage(RewritePackage(pkg)) == RewritePackage(pkg)
  {
    var q := RewritePackage(pkg);
    DeleteAbsent(q, "bin");
    SetSame(q, "name", Str(AppName));
    SetSame(q, "version", Str(AppVersion));
    SetSame(q, "description", Str(AppDescription));
  }

  // ----- the file system the operations act on -----

  /** The directories and the files (with their contents) that exist. */
  datatype Fs = Fs(dirs: set<Path>, files: map<Path, string>)

  /** `JSON.parse` and `JSON.stringify(_, null, 2)` on package objects. */
  datatype Json = Json(parse: string -> Result<Object, string>, stringify: Object -> string)

  function Parent(p: Path): Path
    requires p != []
  {
    p[..|p| - 1]
  }

  /** The file system is a tree: the root exists, every entry sits in a directory, no path is both. */
  predicate Wf(fs: Fs) {
    && [] in fs.dirs
    && (forall p :: p in fs.dirs && p != [] ==> Parent(p) in fs.dirs)
    && (forall p :: p in fs.files ==> p != [] && Parent(p) in fs.dirs && p !in fs.dirs)
  }

  /** `copyFileSync` / `writeFileSync`: the parent must be a directory, and `p` must not be one. */
  function WriteFile(fs: Fs, p: Path, c: string): Option<Fs> {
    if p != [] && Parent(p) in fs.dirs && p !in fs.dirs then Some(fs.(files := fs.files[p := c])) else None
  }

  /**
   * One operation; None is the exception that ends the run. A step that
   * succeeds keeps the tree shape, touches only its target, and leaves
   * something at its target; a copied file holds the source's content.
   */
  function Step(fs: Fs, op: Op, json: Json): (r: Option<Fs>)
    ensures r.Some? && Wf(fs) ==> Wf(r.value)
    ensures r.Some? ==> forall q :: q != Target(op) ==> SameAt(fs, r.value, q)
    ensures r.Some? ==> Target(op) in r.value.dirs || Target(op) in r.value.files
    ensures r.Some? && op.Write? ==> op.path in r.value.files && r.value.files[op.path] == op.content
  {
    match op
    case EnsureDir(p) =>
      if p in fs.dirs || p in fs.files then Some(fs)
      else if p != [] && Parent(p) in fs.dirs then
        MakeDirEffect(fs, p);
        Some(fs.(dirs := fs.dirs + {p}))
      else None
    case Write(p, c) =>
      WriteFileFrame(fs, p, c);
      WriteFile(fs, p, c)
    case WritePackage(p, c) =>
      match json.parse(c)
      case Err(_) => None
      case Ok(pkg) =>
        WriteFileFrame(fs, p, json.stringify(RewritePackage(pkg)));
        WriteFile(fs, p, json.stringify(RewritePackage(pkg)))
  }

  lemma StepPackage(fs: Fs, p: Path, c: string, json: Json)
    ensures Step(fs, WritePackage(p, c), json) ==
      if json.parse(c).Err? then None else WriteFile(fs, p, json.stringify(RewritePackage(json.parse(c).value)))
  {
  }

  /** Nothing at `q` differs between `fs` and `fs'`. */
  predicate SameAt(fs: Fs, fs': Fs, q: Path) {
    && (q in fs'.dirs <==> q in fs.dirs)
    && (q in fs'.files <==> q in fs.files)
    && (q in fs.files ==> fs'.files[q] == fs.files[q])
  }

  lemma MakeDirEffect(fs: Fs, p: Path)
    requires p !in fs.dirs && p !in fs.files && p != [] && Parent(p) in fs.dirs
    ensures Wf(fs) ==> Wf(fs.(dirs := fs.dirs + {p}))
  {
    if Wf(fs) {
      var fs' := fs.(dirs := fs.dirs + {p});
      forall q | q in fs'.files ensures q != [] && Parent(q) in fs'.dirs && q !in fs'.dirs {
        assert q in fs.files;
      }
    }
  }

  lemma WriteFileFrame(fs: Fs, p: Path, c: string)
    ensures WriteFile(fs, p, c).Some? && Wf(fs) ==> Wf(WriteFile(fs, p, c).value)
    ensures WriteFile(fs, p, c).Some? ==> forall q :: q != p ==> SameAt(fs, WriteFile(fs, p, c).value, q)
    ensures WriteFile(fs, p, c).Some? ==> p in WriteFile(fs, p, c).value.files && WriteFile(fs, p, c).value.files[p] == c
  {
    if WriteFile(fs, p, c).Some? && Wf(fs) {
      WriteFileKeepsTree(fs, p, c);
    }
  }

  lemma WriteFileKeepsTree(fs: Fs, p: Path, c: string)
    requires Wf(fs) && WriteFile(fs, p, c).Some?
    ensures Wf(WriteFile(fs, p, c).value)
  {
    var fs' := fs.(files := fs.files[p := c]);
    assert WriteFile(fs, p, c).value == fs';
    forall q | q in fs'.files ensures q != [] && Parent(q) in fs'.dirs && q !in fs'.dirs {
      if q != p { assert q in fs.files; }
    }
  }

  datatype Outcome = Outcome(fs: Fs, ok: bool)

  /**
   * Run operations in order; the first failure stops the run and leaves what
   * was done so far. A run keeps the tree shape and changes nothing at a path
   * no operation targets.
   */
  function Apply(fs: Fs, ops: seq<Op>, json: Json): (out: Outcome)
    ensures Wf(fs) ==> Wf(out.fs)
    ensures forall q :: q !in Targets(ops) ==> SameAt(fs, out.fs, q)
    decreases |ops|
  {
    if ops == [] then Outcome(fs, true)
    else
      match Step(fs, ops[0], json)
      case None => Outcome(fs, false)
      case Some(fs') => Apply(fs', ops[1..], json)
  }

  lemma {:induction false} ApplyAppend(fs: Fs, a: seq<Op>, b: seq<Op>, json: Json)
    ensures Apply(fs, a + b, json)
         == if Apply(fs, a, json).ok then Apply(Apply(fs, a, json).fs, b, json) else Apply(fs, a, json)
    decreases |a|
  {
    if a == [] {
      assert a + b == b;
    } else {
      assert (a + b)[0] == a[0] && (a + b)[1..] == a[1..] + b;
      match Step(fs, a[0], json)
      case None =>
      case Some(fs') => ApplyAppend(fs', a[1..], b, json);
    }
  }

  /** The paths a run of `ops` may touch. */
  function Targets(ops: seq<Op>): set<Path> {
    if ops == [] then {} else {Target(ops[0])} + Targets(ops[1..])
  }

  lemma {:induction false} TargetsUnder(ops: seq<Op>, dest: Path, q: Path)
    requires AllUnder(ops, dest) && q in Targets(ops)
    ensures Under(dest, q)
    decreases |ops|
  {
    if q != Target(ops[0]) {
      assert AllUnder(ops[1..], dest) by {
        forall i | 0 <= i < |ops[1..]| ensures Under(dest, Target(ops[1..][i])) {
          assert ops[1..][i] == ops[i + 1];
        }
      }
      TargetsUnder(ops[1..], dest, q);
    }
  }

  // ----- the whole scaffolder -----

  /** Copy the package tree into `root`, then make sure `root/uploads` exists. */
  function InitPlan(source: seq<Entry>, root: Path): seq<Op> {
    PlanDir(source, root) + [EnsureDir(root + ["uploads"])]
  }

  lemma InitPlanUnder(source: seq<Entry>, root: Path)
    ensures AllUnder(InitPlan(source, root), root)
  {
    var uploads := root + ["uploads"];
    assert uploads[..|root|] == root;
    assert Under(root, uploads);
    AllUnderAppend(PlanDir(source, root), [EnsureDir(uploads)], root);
  }

  /** The scaffolder keeps the tree shape and touches nothing outside `root` or through an ignored name. */
  lemma InitFrame(fs: Fs, source: seq<Entry>, root: Path, json: Json, q: Path)
    requires Wf(fs) && !Under(root, q)
    ensures Wf(Apply(fs, InitPlan(source, root), json).fs)
    ensures SameAt(fs, Apply(fs, InitPlan(source, root), json).fs, q)
  {
    var ops := InitPlan(source, root);
    InitPlanUnder(source, root);
    if q in Targets(ops) {
      TargetsUnder(ops, root, q);
    }
  }

  /** When the scaffolder finishes without an error, something exists at `root/uploads`. */
  lemma InitMakesUploads(fs: Fs, source: seq<Entry>, root: Path, json: Json)
    requires Wf(fs) && Apply(fs, InitPlan(source, root), json).ok
    ensures var out := Apply(fs, InitPlan(source, root), json).fs;
            root + ["uploads"] in out.dirs || root + ["uploads"] in out.files
  {
    var uploads := root + ["uploads"];
    ApplyAppend(fs, PlanDir(source, root), [EnsureDir(uploads)], json);
    assert [EnsureDir(uploads)][1..] == [];
  }

  // ----- the imperative copy -----

  /** The operations copyDir has performed once it has handled the first `k` entries. */
  function Done(entries: seq<Entry>, k: nat, dest: Path): seq<Op>
    requires k <= |entries|
  {
    [EnsureDir(dest)] + PlanEntries(entries[..k], dest)
  }

  lemma DoneNext(entries: seq<Entry>, k: nat, dest: Path)
    requires k < |entries|
    ensures Done(entries, k + 1, dest) == Done(entries, k, dest) + PlanEntry(entries[k], dest)
  {
    var a, e := entries[..k], entries[k];
    assert entries[..k + 1] == a + [e];
    PlanEntriesAppend(a, [e], dest);
    assert PlanEntries([e], dest) == PlanEntry(e, dest) + PlanEntries([], dest);
    var x, y := PlanEntries(a, dest), PlanEntry(e, dest);
    assert [EnsureDir(dest)] + (x + y) == ([EnsureDir(dest)] + x) + y;
  }

  lemma DoneSplit(entries: seq<Entry>, k: nat, dest: Path)
    requires k <= |entries|
    ensures PlanDir(entries, dest) == Done(entries, k, dest) + PlanEntries(entries[k..], dest)
  {
    assert entries == entries[..k] + entries[k..];
    PlanEntriesAppend(entries[..k], entries[k..], dest);
    var x, y := PlanEntries(entries[..k], dest), PlanEntries(entries[k..], dest);
    assert [EnsureDir(dest)] + (x + y) == ([EnsureDir(dest)] + x) + y;
  }

  /** Handling entry `k` after the first `k` succeeded runs that entry's plan from where they left off. */
  lemma CopyNext(start: Fs, entries: seq<Entry>, k: nat, dest: Path, json: Json)
    requires k < |entries| && Apply(start, Done(entries, k, dest), json).ok
    ensures Apply(start, Done(entries, k + 1, dest), json)
         == Apply(Apply(start, Done(entries, k, dest), json).fs, PlanEntry(entries[k], dest), json)
  {
    DoneNext(entries, k, dest);
    ApplyAppend(start, Done(entries, k, dest), PlanEntry(entries[k], dest), json);
  }

  /** A failure while handling entry `k` is the failure of the whole copy. */
  lemma CopyStops(start: Fs, entries: seq<Entry>, k: nat, dest: Path, json: Json)
    requires k < |entries| && !Apply(start, Done(entries, k + 1, dest), json).ok
    ensures Apply(start, PlanDir(entries, dest), json) == Apply(start, Done(entries, k + 1, dest), json)
  {
    DoneSplit(entries, k + 1, dest);
    ApplyAppend(start, Done(entries, k + 1, dest), PlanEntries(entries[k + 1..], dest), json);
  }

  /** The file system as a mutable object, with the calls setup.js makes on it. */
  class FileSystem {
    var dirs: set<Path>
    var files: map<Path, string>

    constructor (fs: Fs)
      ensures State() == fs
    {
      dirs := fs.dirs;
      files := fs.files;
    }

    function State(): Fs
      reads this
    {
      Fs(dirs, files)
    }

    /** `if (!existsSync(p)) mkdirSync(p, ...)`; false when mkdir throws. */
    method MakeDirIfMissing(p: Path, ghost json: Json) returns (ok: bool)
      modifies this
      ensures ok == Step(old(State()), EnsureDir(p), json).Some?
      ensures State() == if ok then Step(old(State()), EnsureDir(p), json).value else old(State())
    {
      if p in dirs || p in files {
        return true;
      }
      if p != [] && Parent(p) in dirs {
        dirs := dirs + {p};
        return true;
      }
      return false;
    }

    /** `copyFileSync` to `p`, or `writeFileSync` of content already produced; false when it throws. */
    method WriteFileAt(p: Path, c: string) returns (ok: bool)
      modifies this
      ensures ok == WriteFile(old(State()), p, c).Some?
      ensures State() == if ok then WriteFile(old(State()), p, c).value else old(State())
    {
      if p != [] && Parent(p) in dirs && p !in dirs {
        files := files[p := c];
        return true;
      }
      return false;
    }

    /** handlePackageJson: parse, rewrite, write back. */
    method HandlePackageJson(p: Path, source: string, json: Json) returns (ok: bool)
      modifies this
      ensures ok == Step(old(State()), WritePackage(p, source), json).Some?
      ensures State() == if ok then Step(old(State()), WritePackage(p, source), json).value else old(State())
    {
      ghost var before := State();
      StepPackage(before, p, source, json);
      var parsed := json.parse(source);
      if parsed.Err? {
        return false;
      }
      var pkg := RewritePackage(parsed.value);
      ok := WriteFileAt(p, json.stringify(pkg));
    }

    /** copyDir: what it leaves behind, and whether it throws, is exactly the run of its plan. */
    method CopyDir(entries: seq<Entry>, dest: Path, json: Json) returns (ok: bool)
      modifies this
      ensures Outcome(State(), ok) == Apply(old(State()), PlanDir(entries, dest), json)
      decreases SizeAll(entries), 1
    {
      ghost var start := State();
      assert PlanDir(entries, dest)[0] == EnsureDir(dest);
      assert PlanDir(entries, dest)[1..] == PlanEntries(entries, dest);
      ok := MakeDirIfMissing(dest, json);
      if !ok {
        return;
      }
      assert Done(entries, 0, dest) == [EnsureDir(dest)];
      assert [EnsureDir(dest)][1..] == [];
      var k := 0;
      while k < |entries|
        invariant 0 <= k <= |entries|
        invariant Outcome(State(), true) == Apply(start, Done(entries, k, dest), json)
      {
        SizeAllAt(entries, k);
        ok := CopyEntry(entries[k], dest, json);
        CopyNext(start, entries, k, dest, json);
        if !ok {
          CopyStops(start, entries, k, dest, json);
          return;
        }
        k := k + 1;
      }
      assert entries[..k] == entries;
    }

    /** One pass of copyDir's loop: skip an ignored name, recurse into a directory, copy a file. */
    method CopyEntry(e: Entry, dest: Path, json: Json) returns (ok: bool)
      modifies this
      ensures Outcome(State(), ok) == Apply(old(State()), PlanEntry(e, dest), json)
      decreases Size(e), 0
    {
      if e.name in IgnoreList {
        return true;
      }
      if e.Dir? {
        ok := CopyDir(e.entries, dest + [e.name], json);
        return;
      }
      var op := if e.name == "package.json" then WritePackage(dest + [e.name], e.content)
                else Write(dest + [DestName(e.name)], e.content);
      assert PlanEntry(e, dest) == [op];
      assert [op][1..] == [];
      if e.name == "package.json" {
        ok := HandlePackageJson(dest + [e.name], e.content, json);
      } else if e.name == "_gitignore" {
        ok := WriteFileAt(dest + [".gitignore"], e.content);
      } else {
        ok := WriteFileAt(dest + [e.name], e.content);
      }
    }

    /** The top level of setup.js: exit code 1 when anything threw, 0 otherwise. */
    method Init(source: seq<Entry>, root: Path, json: Json) returns (exitCode: int)
      modifies this
      ensures State() == Apply(old(State()), InitPlan(source, root), json).fs
      ensures exitCode == if Apply(old(State()), InitPlan(source, root), json).ok then 0 else 1
    {
      ghost var start := State();
      ApplyAppend(start, PlanDir(source, root), [EnsureDir(root + ["uploads"])], json);
      var ok := CopyDir(source, root, json);
      if ok {
        ok := MakeDirIfMissing(root + ["uploads"], json);
        assert [EnsureDir(root + ["uploads"])][1..] == [];
      }
      exitCode := if ok then 0 else 1;
    }
  }
}
