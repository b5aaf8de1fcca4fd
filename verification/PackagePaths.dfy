/**
 Where a relative import points, and what that comes to: the normal form of a path, the file a specifier means, and the
 line an import between two units gives rise to.
 */
module PackagePaths {
  import opened Prelude
  import opened LayerCycle
  import opened PackageLayers

  // ---------------------------------------------------------------- the normal form of a path

  predicate Plain(segment: string) {
    segment != "" && segment != "." && segment != ".."
  }

  predicate AllPlain(path: Path) {
    forall i | 0 <= i < |path| :: Plain(path[i])
  }

  function Ups(n: nat): Path {
    seq(n, i => "..")
  }

  /** Some ways up, and then plain segments. */
  ghost predicate IsNormal(path: Path) {
    exists n: nat :: UpsThenPlain(path, n)
  }

  predicate UpsThenPlain(path: Path, n: nat) {
    && n <= |path| && (forall i | 0 <= i < n :: path[i] == "..")
    && (forall i | n <= i < |path| :: Plain(path[i]))
  }

  lemma {:induction false} NormalIsNormal(path: Path)
    ensures IsNormal(Normal(path))
  {
    if path == [] {
      assert UpsThenPlain(Normal(path), 0);
    } else {
      var n := |path| - 1;
      NormalIsNormal(path[..n]);
      var before, last := Normal(path[..n]), path[n];
      var ups: nat :| UpsThenPlain(before, ups);
      if last == ".." && (before == [] || before[|before| - 1] == "..") {
        assert UpsThenPlain(before + [last], ups + 1);
      } else if last == ".." {
        assert UpsThenPlain(before[..|before| - 1], ups);
      } else if Plain(last) {
        assert UpsThenPlain(before + [last], ups);
      }
    }
  }

  /** A path in normal form stays as it is. */
  lemma {:induction false} NormalStays(path: Path)
    requires IsNormal(path)
    ensures Normal(path) == path
  {
    hide *;
    if path == [] {
      NormalNothing();
    } else {
      var n := |path| - 1;
      FormerIsNormal(path);
      NormalStays(path[..n]);
      LastStays(path);
    }
  }

  lemma NormalNothing()
    ensures Normal([]) == []
  {
  }

  lemma FormerIsNormal(path: Path)
    requires path != [] && IsNormal(path)
    ensures IsNormal(path[..|path| - 1])
  {
    var n := |path| - 1;
    var ups: nat :| UpsThenPlain(path, ups);
    assert UpsThenPlain(path[..n], if ups <= n then ups else n);
  }

  lemma LastStays(path: Path)
    requires path != [] && IsNormal(path) && Normal(path[..|path| - 1]) == path[..|path| - 1]
    ensures Normal(path) == path
  {
    var n := |path| - 1;
    assert path[n] != "" && path[n] != "." && (path[n] == ".." && n > 0 ==> path[n - 1] == "..") by {
      var ups: nat :| UpsThenPlain(path, ups);
    }
    hide IsNormal;
    assert path == path[..n] + [path[n]];
    assert n > 0 ==> path[..n][n - 1] == path[n - 1];
  }

  /** What comes before may be taken in its normal form. */
  lemma {:induction false} NormalBefore(a: Path, b: Path)
    ensures Normal(a + b) == Normal(Normal(a) + b)
  {
    if b == [] {
      NormalIsNormal(a);
      NormalStays(Normal(a));
      assert a + b == a && Normal(a) + b == Normal(a);
    } else {
      var n := |b| - 1;
      NormalBefore(a, b[..n]);
      assert (a + b)[..|a| + n] == a + b[..n];
      assert (Normal(a) + b)[..|Normal(a)| + n] == Normal(a) + b[..n];
    }
  }

  /** A segment that says nothing goes, wherever it is. */
  lemma NormalDrops(a: Path, s: string, b: Path)
    requires s == "" || s == "."
    ensures Normal(a + [s] + b) == Normal(a + b)
  {
    assert (a + [s])[..|a|] == a;
    NormalBefore(a + [s], b);
    NormalBefore(a, b);
  }

  /** And so does a plain segment with the way up after it. */
  lemma NormalTakesBack(a: Path, s: string, b: Path)
    requires Plain(s)
    ensures Normal(a + [s, ".."] + b) == Normal(a + b)
  {
    var one, two := a + [s], a + [s, ".."];
    assert one[..|a|] == a && two[..|a| + 1] == one;
    assert Normal(one) == Normal(a) + [s];
    assert Normal(two) == Normal(a);
    NormalBefore(two, b);
    NormalBefore(a, b);
  }

  /** Ways up take back plain segments one by one, and what is left of them stands at the front. */
  lemma {:induction false} NormalClimbs(folder: Path, n: nat, q: Path)
    requires AllPlain(folder) && AllPlain(q)
    ensures Normal(folder + Ups(n) + q)
         == if n <= |folder| then folder[..|folder| - n] + q else Ups(n - |folder|) + q
  {
    hide Normal;
    if n == 0 || folder == [] {
      ClimbsNone(folder, n, q);
    } else {
      hide AllPlain, Ups;
      var k := |folder| - 1;
      ClimbsOnce(folder, n, q);
      NormalTakesBack(folder[..k], folder[k], Ups(n - 1) + q);
      NormalClimbs(folder[..k], n - 1, q);
    }
  }

  lemma ClimbsNone(folder: Path, n: nat, q: Path)
    requires AllPlain(folder) && AllPlain(q) && (n == 0 || folder == [])
    ensures Normal(folder + Ups(n) + q)
         == if n <= |folder| then folder[..|folder| - n] + q else Ups(n - |folder|) + q
  {
    hide Normal, AllPlain, IsNormal, Ups;
    ClimbsIsNormal(folder, n, q);
    NormalStays(folder + Ups(n) + q);
    if n == 0 {
      NoWayUp(folder, q);
    } else {
      NoFolder(n, q);
    }
  }

  lemma NoWayUp(folder: Path, q: Path)
    ensures folder + Ups(0) + q == folder[..|folder| - 0] + q
  {
    assert folder + Ups(0) == folder;
  }

  lemma NoFolder(n: nat, q: Path)
    ensures [] + Ups(n) + q == Ups(n - 0) + q
  {
    assert [] + Ups(n) == Ups(n);
  }

  lemma ClimbsIsNormal(folder: Path, n: nat, q: Path)
    requires AllPlain(folder) && AllPlain(q) && (n == 0 || folder == [])
    ensures IsNormal(folder + Ups(n) + q)
  {
    var path := folder + Ups(n) + q;
    assert n == 0 ==> path == folder + q;
    assert UpsThenPlain(path, n);
  }

  lemma ClimbsOnce(folder: Path, n: nat, q: Path)
    requires AllPlain(folder) && folder != [] && 0 < n
    ensures var k := |folder| - 1;
      && AllPlain(folder[..k]) && Plain(folder[k])
      && folder + Ups(n) + q == folder[..k] + [folder[k], ".."] + (Ups(n - 1) + q)
      && folder[..k] + (Ups(n - 1) + q) == folder[..k] + Ups(n - 1) + q
      && (n - 1 <= k ==> folder[..k][..k - (n - 1)] == folder[..|folder| - n])
  {
    assert Ups(n) == [".."] + Ups(n - 1);
  }

  // ---------------------------------------------------------------- where a specifier points

  /** From a file in `folder`, so many ways up — or `.` — and then `q`, is just that path. */
  lemma ResolveClimbs(folder: Path, name: string, n: nat, q: Path)
    requires AllPlain(folder) && AllPlain(q) && q != []
    ensures Resolve(folder + [name], (if n == 0 then ["."] else Ups(n)) + q)
         == if n <= |folder| then folder[..|folder| - n] + q else Ups(n - |folder|) + q
  {
    hide Normal, AllPlain;
    var up := if n == 0 then ["."] else Ups(n);
    NormalClimbs(folder, n, q);
    UpsNone(folder, q);
    assert folder + (up + q) == folder + up + q;
    if n == 0 {
      NormalDrops(folder, ".", q);
    }
    ResolveJoins(folder, name, up, q);
    assert q[|q| - 1] != "" by {
      LastPlain(q);
    }
  }

  lemma LastPlain(q: Path)
    requires AllPlain(q) && q != []
    ensures q[|q| - 1] != ""
  {
  }

  lemma UpsNone(folder: Path, q: Path)
    ensures folder + Ups(0) + q == folder + q
  {
    assert folder + Ups(0) == folder;
  }

  lemma ResolveJoins(folder: Path, name: string, up: Path, q: Path)
    requires q != []
    ensures var normal := Normal(folder + (up + q));
      q[|q| - 1] != "" && normal != [] ==> Resolve(folder + [name], up + q) == normal
  {
    hide Normal;
    assert (folder + [name])[..|folder|] == folder;
    var joined := folder + (up + q);
    assert joined[|joined| - 1] == q[|q| - 1];
  }

  /** The paths a specifier may mean, in the order they are tried. */
  function Candidates(base: Path): seq<Path>
    requires base != []
  {
    var folder, name := base[..|base| - 1], base[|base| - 1];
    [base, folder + [name + ".ts"], folder + [name, "index.ts"], folder + [name + ".css"]]
  }

  /** It means the first of them that is a file, and none if none is. */
  lemma TargetIsFirst(files: seq<File>, base: Path)
    requires base != []
    ensures match Target(files, base)
            case None => forall i | 0 <= i < 4 :: !HasFile(files, Candidates(base)[i])
            case Some(path) =>
              exists i | 0 <= i < 4 ::
                && Candidates(base)[i] == path && HasFile(files, path)
                && forall j | 0 <= j < i :: !HasFile(files, Candidates(base)[j])
  {
    hide HasFile;
    var c := Candidates(base);
    assert c[2] == base + ["index.ts"];
    if Target(files, base).Some? {
      var i := if HasFile(files, c[0]) then 0 else if HasFile(files, c[1]) then 1 else if HasFile(files, c[2]) then 2 else 3;
      assert c[i] == Target(files, base).value;
    }
  }

  // ---------------------------------------------------------------- the unit of a path

  /** A path is in the unit whose key is the deepest of its folders that are keys — unless a key lies deeper in that folder
      and the path is not directly in it. */
  lemma UnitExactly(rel: Path, layers: map<Unit, seq<Unit>>, u: Unit)
    requires rel != []
    ensures UnitOf(rel, layers) == Some(u)
       <==> && u in layers && u != [] && u < rel
            && (forall key <- layers :: key < rel ==> |key| <= |u|)
            && (|rel| == |u| + 1 || forall key <- layers :: !(u < key))
  {
    LongestIs(rel, layers, |rel| - 1);
    var longest := LongestKey(rel, layers, |rel| - 1);
    forall key | key in layers && key < rel && key != [] ensures longest.Some? && |key| <= |longest.value| {
      assert rel[..|key|] == key;
    }
    if u in layers && u != [] && u < rel && forall key <- layers :: key < rel ==> |key| <= |u| {
      assert longest.value == rel[..|longest.value|] && u == rel[..|u|];
    }
  }

  lemma LongestIs(rel: Path, layers: map<Unit, seq<Unit>>, n: nat)
    requires n < |rel|
    ensures LongestKey(rel, layers, n).Some? ==> LongestKey(rel, layers, n).value < rel
  {
  }

  /** A file directly in a unit's folder is the unit's. */
  lemma DirectlyIn(p: Project, u: Unit, name: string)
    requires u in p.layers && u != []
    ensures UnitIn(p, p.root + u + [name]) == Some(u)
  {
    var path := p.root + u + [name];
    assert path[|p.root|..] == u + [name];
    UnitExactly(u + [name], p.layers, u);
  }

  // ---------------------------------------------------------------- the line of an import

  /** `n` ways up from a file's folder and then down to `name`. */
  function Climb(n: nat, folder: Path, name: string): Path {
    (if n == 0 then ["."] else Ups(n)) + (folder + [name])
  }

  /** A file below a project's root, as many ways up as stay below it, and the file meant there. */
  ghost predicate Leads(p: Project, files: seq<File>, path: Path, d: Path, name: string, n: nat, e: Path, goal: string) {
    && p.root != [] && p.root[0] == p.name && AllPlain(p.root) && AllPlain(d) && AllPlain(e) && Plain(goal)
    && path == p.root + d + [name] && n <= |d|
    && var base := p.root + (d[..|d| - n] + e) + [goal];
       !HasFile(files, base) && HasFile(files, p.root + (d[..|d| - n] + e) + [goal + ".ts"])
  }

  function Goal(p: Project, d: Path, n: nat, e: Path, goal: string): Path
    requires n <= |d|
  {
    p.root + (d[..|d| - n] + e) + [goal + ".ts"]
  }

  lemma LeadsThere(p: Project, files: seq<File>, path: Path, d: Path, name: string, n: nat, e: Path, goal: string)
    requires Leads(p, files, path, d, name, n, e, goal)
    ensures var s := Climb(n, e, goal); var base := Resolve(path, s);
      && IsRelative(s) && base[0] == p.name && Target(files, base) == Some(Goal(p, d, n, e, goal))
  {
    hide HasFile, Resolve;
    var folder, q := p.root + d, e + [goal];
    ResolveClimbs(folder, name, n, q);
    assert folder[..|folder| - n] == p.root + d[..|d| - n];
    var base := p.root + (d[..|d| - n] + e) + [goal];
    assert folder[..|folder| - n] + q == base;
    assert base[..|base| - 1] + [base[|base| - 1] + ".ts"] == Goal(p, d, n, e, goal);
  }

  /** An import that climbs and comes down within its project is reported exactly when the unit it comes to is neither its
      own, nor the kernel, nor one its own unit's table lists, nor a spec's support. */
  lemma ClimbingImport(projects: seq<Project>, files: seq<File>, p: Project, path: Path, d: Path, name: string, n: nat,
                       e: Path, goal: string, a: Unit, b: Unit)
    requires Leads(p, files, path, d, name, n, e, goal)
    requires UnitIn(p, path) == Some(a) && UnitIn(p, Goal(p, d, n, e, goal)) == Some(b)
    ensures ImportLine(projects, files, p, path, Climb(n, e, goal))
         == if b == a || p.kernel == Some(b) || b in p.layers[a] || (IsSpecLike(path) && p.specSupport == Some(b))
            then None else Some(NotInTable(path, a, b, Climb(n, e, goal)))
  {
    hide Resolve, Target, UnitIn, Leads, IsSpecLike;
    LeadsThere(p, files, path, d, name, n, e, goal);
    RootsPlain(p, files, path, d, name, n, e, goal);
  }

  lemma RootsPlain(p: Project, files: seq<File>, path: Path, d: Path, name: string, n: nat, e: Path, goal: string)
    requires Leads(p, files, path, d, name, n, e, goal)
    ensures p.name != ".."
  {
  }

  /** So of a whole tree: the gate has that line exactly then. */
  lemma ClimbingImportReported(projects: seq<Project>, files: seq<File>, cycles: seq<Option<seq<Unit>>>, p: Project,
                               f: File, d: Path, name: string, n: nat, e: Path, goal: string, a: Unit, b: Unit)
    requires (forall q <- projects :: q.Valid()) && CyclesOf(projects, cycles)
    requires WellFormed(projects) && p in projects && f in files && Climb(n, e, goal) in f.specifiers
    requires Leads(p, files, f.path, d, name, n, e, goal)
    requires UnitIn(p, f.path) == Some(a) && UnitIn(p, Goal(p, d, n, e, goal)) == Some(b)
    ensures NotInTable(f.path, a, b, Climb(n, e, goal)) in Report(projects, files, cycles)
       <==> !(b == a || p.kernel == Some(b) || b in p.layers[a] || (IsSpecLike(f.path) && p.specSupport == Some(b)))
  {
    var s := Climb(n, e, goal);
    var v := NotInTable(f.path, a, b, s);
    ClimbingImport(projects, files, p, f.path, d, name, n, e, goal, a, b);
    assert f.path[0] == p.name && Below(f.path, [p.name]);
    OwnProject(projects, p, f.path);
    ReportExact(projects, files, cycles, v);
    ImportMembers(projects, files, p, f.path, s, v);
    hide Report, Leads, ImportLine, ImportViolates, IsSpecLike, UnitIn, Goal, WellFormed, Climb;
    if ImportViolates(projects, files, p, f.path, s, v) {
      assert InProjectViolates(projects, files, f, v);
    }
    if Violates(projects, files, v) {
      OnlyItsFiles(projects, files, p, f, s, v);
    }
  }

  lemma OnlyItsFiles(projects: seq<Project>, files: seq<File>, p: Project, f: File, s: Path, v: Violation)
    requires Violates(projects, files, v) && v.NotInTable? && v.file == f.path && v.specifier == s
    requires ProjectOf(projects, f.path) == Some(p)
    ensures ImportViolates(projects, files, p, f.path, s, v)
  {
    hide UnitIn, Reached, Allowed;
    var g :| g in files && InProjectViolates(projects, files, g, v);
  }

  /** An import that climbs out of its project into another is reported as that; out to no project, it is not this gate's. */
  lemma ImportAcross(projects: seq<Project>, files: seq<File>, p: Project, folder: Path, name: string, q: Path)
    requires AllPlain(folder) && folder != [] && AllPlain(q) && q != [] && q[0] != p.name
    ensures var path, s := folder + [name], Ups(|folder|) + q;
      ImportLine(projects, files, p, path, s)
      == if IsProjectName(projects, q[0]) then Some(AcrossProjects(path, s)) else None
  {
    hide Target, UnitIn, Normal;
    ResolveClimbs(folder, name, |folder|, q);
    assert folder[..0] + q == q;
  }

  /** A file below the root that names its own package is reported, unless a spec or a story takes the spec-support
      entry; other packages are not this gate's. */
  lemma ImportByName(projects: seq<Project>, files: seq<File>, p: Project, path: Path, package: string, entry: Path)
    requires package != "" && package[0] != '.'
    ensures var s := [package] + entry;
      ImportLine(projects, files, p, path, s)
      == if package == p.name && Below(path, p.root) && !(p.specSupport == Some(entry) && IsSpecLike(path))
         then Some(OwnEntry(path, s)) else None
  {
    hide Target, UnitIn, Normal, IsSpecLike;
    var s := [package] + entry;
    NamesPackage(p.name, package, entry);
    if p.specSupport.Some? {
      var spec := [p.name] + p.specSupport.value;
      assert s == spec ==> s[0] == spec[0] && s[1..] == spec[1..];
    }
  }

  lemma NamesPackage(name: string, package: string, entry: Path)
    ensures [name] <= [package] + entry <==> package == name
  {
    assert ([package] + entry)[..1] == [package];
    assert [package] == [name] ==> [package][0] == [name][0];
  }

  /** The files taken for specs and stories. */
  lemma SpecsAndStories(folder: Path, name: string)
    ensures IsSpecLike(folder + [name])
       <==> exists stem: string :: name == stem + ".spec.ts" || name == stem + ".stories.ts"
  {
    EndsWithIs(name, ".spec.ts");
    EndsWithIs(name, ".stories.ts");
    if EndsWith(name, ".spec.ts") || EndsWith(name, ".stories.ts") {
      var stem := if EndsWith(name, ".spec.ts") then name[..|name| - |".spec.ts"|] else name[..|name| - |".stories.ts"|];
      assert name == stem + ".spec.ts" || name == stem + ".stories.ts";
    }
  }

  lemma EndsWithIs(s: string, suffix: string)
    ensures EndsWith(s, suffix) ==> s == s[..|s| - |suffix|] + suffix
    ensures forall stem: string :: EndsWith(stem + suffix, suffix)
  {
  }
}
