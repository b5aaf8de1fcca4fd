/** Which test modules a mutation scope selects: those that import one of its packages, directly or through helpers. */
module TestSelection {
  import opened Prelude
  import opened Reach
  import opened Texts

  /** A file under the tests' root, by its path's segments. */
  type File = seq<string>

  /** The names each module under the tests' root imports. */
  type Imports = map<File, seq<string>>

  predicate StartsWith(text: string, prefix: string) {
    prefix <= text
  }

  /** `_selects`. */
  predicate Selects(imported: seq<string>, packages: seq<string>) {
    exists name <- imported, package <- packages :: name == package || StartsWith(name, package + ".")
  }

  predicate IsConftest(file: File) {
    file != [] && file[|file| - 1] == "conftest.py"
  }

  /** `_resolve_tests_helper`: the module or else the package file the name stands for, if there is one. */
  function ResolveHelper(imports: Imports, name: string): (helper: Option<File>)
    ensures helper.Some? ==> helper.value in imports
  {
    var parts := Split(name, '.')[1..];
    if (name != "tests" && !StartsWith(name, "tests.")) || parts == [] then None
    else
      var last := |parts| - 1;
      var asModule, asPackage := parts[..last] + [parts[last] + ".py"], parts + ["__init__.py"];
      if asModule in imports then Some(asModule) else if asPackage in imports then Some(asPackage) else None
  }

  /** `file` imports the helper module `helper`, which is followed. */
  ghost predicate Follows(imports: Imports, file: File, helper: File) {
    && file in imports && !(helper != [] && helper[|helper| - 1] == "conftest.py")
    && exists name <- imports[file] :: ResolveHelper(imports, name) == Some(helper)
  }

  ghost function Followed(imports: Imports): (File, File) -> bool {
    (file, helper) => Follows(imports, file, helper)
  }

  ghost predicate SelectsAt(imports: Imports, packages: seq<string>, file: File) {
    file in imports && Selects(imports[file], packages)
  }

  /** Some module `file` reaches over helpers imports one of the packages itself. */
  ghost predicate ReachesPackage(imports: Imports, packages: seq<string>, file: File) {
    exists m :: Reaches(Followed(imports), file, m) && SelectsAt(imports, packages, m)
  }

  /** The modules in `done` import no package, and follow only modules in `seen`. */
  ghost predicate Exhausted(imports: Imports, packages: seq<string>, done: set<File>, seen: set<File>) {
    && (forall m <- done :: !SelectsAt(imports, packages, m))
    && (forall m <- done, h | Follows(imports, m, h) :: h in seen)
  }

  /** The recursion, `visited` being the set its calls share: a `false` answer means that all it visited is exhausted. */
  method Search(imports: Imports, packages: seq<string>, path: File, visited: set<File>)
    returns (selected: bool, seen: set<File>)
    requires path in imports && visited <= imports.Keys
    ensures visited <= seen <= imports.Keys
    ensures selected ==> ReachesPackage(imports, packages, path)
    ensures !selected ==> Exhausted(imports, packages, seen - visited, seen) && (path in seen || IsConftest(path))
    decreases |imports.Keys - visited|
  {
    hide Reaches, Selects, ResolveHelper, Exhausted, Follows, ReachesPackage;
    ExhaustedNone(imports, packages);
    if path in visited || IsConftest(path) {
      assert visited - visited == {};
      return false, visited;
    }
    seen := visited + {path};
    var imported := imports[path];
    if Selects(imported, packages) {
      SelectsHere(imports, packages, path);
      return true, seen;
    }
    assert seen - visited - {path} == {};
    ExhaustedGrows(imports, packages, {}, {}, {}, seen);
    for i := 0 to |imported|
      invariant visited + {path} <= seen <= imports.Keys
      invariant Exhausted(imports, packages, seen - visited - {path}, seen)
      invariant forall j | 0 <= j < i :: HelperSeen(imports, imported[j], seen)
    {
      var helper := ResolveHelper(imports, imported[i]);
      if helper.Some? && !IsConftest(helper.value) {
        ghost var before := seen;
        Fewer(imports.Keys - seen, imports.Keys - visited, path);
        var found, more := Search(imports, packages, helper.value, seen);
        if found {
          FollowsHere(imports, path, imported[i]);
          FirstReaches(imports, packages, path, helper.value);
          return true, more;
        }
        seen := more;
        ExhaustedGrows(imports, packages, before - visited - {path}, before, seen - before, seen);
        assert seen - visited - {path} == (before - visited - {path}) + (seen - before);
      }
    }
    ExhaustedHere(imports, packages, path, seen);
    ExhaustedGrows(imports, packages, seen - visited - {path}, seen, {path}, seen);
    assert seen - visited == (seen - visited - {path}) + {path};
    return false, seen;
  }

  predicate HelperSeen(imports: Imports, name: string, seen: set<File>) {
    var helper := ResolveHelper(imports, name);
    helper.None? || IsConftest(helper.value) || helper.value in seen
  }

  lemma ExhaustedNone(imports: Imports, packages: seq<string>)
    ensures forall seen :: Exhausted(imports, packages, {}, seen)
  {
  }

  lemma ExhaustedGrows(imports: Imports, packages: seq<string>, done: set<File>, seen: set<File>, more: set<File>,
                       now: set<File>)
    requires Exhausted(imports, packages, done, seen) && Exhausted(imports, packages, more, now) && seen <= now
    ensures Exhausted(imports, packages, done + more, now)
  {
    hide Follows, SelectsAt;
  }

  lemma ExhaustedHere(imports: Imports, packages: seq<string>, path: File, seen: set<File>)
    requires path in imports && !Selects(imports[path], packages)
    requires forall j | 0 <= j < |imports[path]| :: HelperSeen(imports, imports[path][j], seen)
    ensures Exhausted(imports, packages, {path}, seen)
  {
    hide Selects, ResolveHelper;
  }

  lemma SelectsHere(imports: Imports, packages: seq<string>, path: File)
    requires path in imports && Selects(imports[path], packages)
    ensures ReachesPackage(imports, packages, path)
  {
    hide Reaches;
    ReachesSelf(Followed(imports), path);
  }

  lemma FollowsHere(imports: Imports, path: File, name: string)
    requires path in imports && name in imports[path]
    requires ResolveHelper(imports, name).Some? && !IsConftest(ResolveHelper(imports, name).value)
    ensures Follows(imports, path, ResolveHelper(imports, name).value)
  {
    hide ResolveHelper;
  }

  lemma FirstReaches(imports: Imports, packages: seq<string>, path: File, helper: File)
    requires Follows(imports, path, helper) && ReachesPackage(imports, packages, helper)
    ensures ReachesPackage(imports, packages, path)
  {
    hide Reaches;
    var m :| Reaches(Followed(imports), helper, m) && SelectsAt(imports, packages, m);
    ReachesFirst(Followed(imports), path, helper, m);
  }

  /** `test_module_selected`: exact, however the helpers import one another in circles. */
  method TestModuleSelected(imports: Imports, packages: seq<string>, path: File) returns (selected: bool)
    requires path in imports
    ensures selected <==> !IsConftest(path) && ReachesPackage(imports, packages, path)
  {
    hide Reaches;
    if IsConftest(path) {
      return false;
    }
    var seen;
    selected, seen := Search(imports, packages, path, {});
    if !selected {
      assert seen - {} == seen;
      forall m | Reaches(Followed(imports), path, m) ensures !SelectsAt(imports, packages, m) {
        ReachesKeeps(Followed(imports), path, m, x => x in seen);
      }
    }
  }

  // ---------------------------------------------------------------- which names are meant

  /** A name is a package's, or of a module in it, exactly when its segments begin with the package's. */
  lemma NamesIn(name: string, package: string)
    ensures name == package || StartsWith(name, package + ".") <==> Split(package, '.') <= Split(name, '.')
  {
    hide Split;
    var p, n := Split(package, '.'), Split(name, '.');
    JoinedSplit(package, '.');
    JoinedSplit(name, '.');
    if StartsWith(name, package + ".") {
      var rest := name[|package| + 1..];
      assert name == package + ['.'] + rest;
      SplitBoth(package, rest, '.');
    }
    if p < n {
      assert n == p + n[|p|..];
      JoinedBoth(p, n[|p|..], '.');
      assert "." == ['.'];
      assert name == package + "." + Joined(n[|p|..], '.');
      assert name[..|package| + 1] == package + ".";
    } else if p == n {
      assert name == package;
    }
  }

  /** A module is selected by name when a package's segments begin those of a name it imports. */
  lemma SelectsExactly(imported: seq<string>, packages: seq<string>)
    ensures Selects(imported, packages)
       <==> exists name <- imported, package <- packages :: Split(package, '.') <= Split(name, '.')
  {
    hide Split;
    forall name, package
      ensures name == package || StartsWith(name, package + ".") <==> Split(package, '.') <= Split(name, '.')
    {
      NamesIn(name, package);
    }
  }

  /** A dotted name below `tests` is a helper's: the module's of that path if there is one, or else the package's; any other
      name is none's. */
  lemma ResolvesExactly(imports: Imports, name: string, path: File, last: string)
    requires Split(name, '.') == ["tests"] + path + [last]
    ensures ResolveHelper(imports, name)
         == if path + [last + ".py"] in imports then Some(path + [last + ".py"])
            else if path + [last, "__init__.py"] in imports then Some(path + [last, "__init__.py"])
            else None
  {
    hide Split;
    TestsName(name);
    var parts := Split(name, '.')[1..];
    assert parts == path + [last];
    assert parts[..|parts| - 1] == path;
    assert parts + ["__init__.py"] == path + [last, "__init__.py"];
  }

  lemma ResolvesNone(imports: Imports, name: string)
    requires |Split(name, '.')| == 1 || Split(name, '.')[0] != "tests"
    ensures ResolveHelper(imports, name) == None
  {
    hide Split;
    TestsName(name);
  }

  lemma TestsName(name: string)
    ensures name == "tests" || StartsWith(name, "tests.") <==> Split(name, '.')[0] == "tests"
  {
    hide Split;
    NamesIn(name, "tests");
    SplitWhole("tests", '.');
    assert "tests" + "." == "tests.";
    assert Split(name, '.')[0] == "tests" ==> Split(name, '.') == ["tests"] + Split(name, '.')[1..];
  }
}
