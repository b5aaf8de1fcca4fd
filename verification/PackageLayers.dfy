/**
 The package-layer gate: every violation over a tree of files, and what a clean report means — the imports between a
 project's units have a topological order.
 */
module PackageLayers {
  import opened Prelude
  import opened LayerCycle

  /** A file's path below `projects/`, as segments, and every module specifier its source names. */
  datatype File = File(path: Path, specifiers: seq<Path>)

  datatype Violation =
    | EmptyUnit(root: Path, key: Unit)
    | UndeclaredDep(root: Path, key: Unit, dep: Unit)
    | UndeclaredSpecial(root: Path, unit: Unit)
    | TableCycle(root: Path, walk: seq<Unit>)
    | InNoUnit(file: Path)
    | OwnEntry(file: Path, specifier: Path)
    | AcrossProjects(file: Path, specifier: Path)
    | NotInTable(file: Path, unit: Unit, target: Unit, specifier: Path)

  // ---------------------------------------------------------------- paths

  predicate EndsWith(s: string, suffix: string) {
    |suffix| <= |s| && s[|s| - |suffix|..] == suffix
  }

  predicate IsSpecLike(path: Path) {
    path != [] && (EndsWith(path[|path| - 1], ".spec.ts") || EndsWith(path[|path| - 1], ".stories.ts"))
  }

  /** `path` lies somewhere below `folder`. */
  predicate Below(path: Path, folder: Path) {
    folder < path
  }

  predicate IsRelative(specifier: Path) {
    specifier != [] && specifier[0] != "" && specifier[0][0] == '.'
  }

  /** The POSIX normal form of a relative path: empty and `.` segments go, and `..` takes back the segment before it. */
  function Normal(segments: Path): Path {
    if segments == [] then []
    else
      var before, last := Normal(segments[..|segments| - 1]), segments[|segments| - 1];
      if last == "" || last == "." then before
      else if last == ".." && before != [] && before[|before| - 1] != ".." then before[..|before| - 1]
      else before + [last]
  }

  /** Where `specifier` points from `file`: a path that comes out empty is `.`, and a trailing slash is kept. */
  function Resolve(file: Path, specifier: Path): (base: Path)
    ensures base != []
  {
    var joined := (if file == [] then [] else file[..|file| - 1]) + specifier;
    var normal := if Normal(joined) == [] then ["."] else Normal(joined);
    if joined != [] && joined[|joined| - 1] == "" then normal + [""] else normal
  }

  predicate HasFile(files: seq<File>, path: Path) {
    exists i :: 0 <= i < |files| && files[i].path == path
  }

  function Suffixed(base: Path, suffix: string): Path
    requires base != []
  {
    base[..|base| - 1] + [base[|base| - 1] + suffix]
  }

  /** The first of the paths a specifier may mean that is a file. */
  function Target(files: seq<File>, base: Path): Option<Path>
    requires base != []
  {
    if HasFile(files, base) then Some(base)
    else if HasFile(files, Suffixed(base, ".ts")) then Some(Suffixed(base, ".ts"))
    else if HasFile(files, base + ["index.ts"]) then Some(base + ["index.ts"])
    else if HasFile(files, Suffixed(base, ".css")) then Some(Suffixed(base, ".css"))
    else None
  }

  // ---------------------------------------------------------------- units

  /** The longest key among the first `n` segments of `rel`, if any. */
  function LongestKey(rel: Path, layers: map<Unit, seq<Unit>>, n: nat): (key: Option<Unit>)
    requires n <= |rel|
    ensures key.Some? ==> key.value in layers && key.value <= rel && 1 <= |key.value| <= n
    ensures forall k | 1 <= k <= n && rel[..k] in layers :: key.Some? && k <= |key.value|
  {
    if n == 0 then None
    else if rel[..n] in layers then Some(rel[..n])
    else LongestKey(rel, layers, n - 1)
  }

  /** No deeper key of the table lies in this one's folder, so that whatever is in there is this unit's. */
  predicate OwnsSubfolders(layers: map<Unit, seq<Unit>>, unit: Unit) {
    forall key <- layers :: !(unit < key)
  }

  /** The unit of a path taken from a project's root: the deepest of its folders in the table, but none where that has
      deeper keys and the path goes past it into a folder outside the table. */
  function UnitOf(rel: Path, layers: map<Unit, seq<Unit>>): (unit: Option<Unit>)
    requires rel != []
    ensures unit.Some? ==> unit.value in layers && unit.value < rel
  {
    var key := LongestKey(rel, layers, |rel| - 1);
    if key.Some? && (OwnsSubfolders(layers, key.value) || |rel| == |key.value| + 1) then key else None
  }

  method LayerUnitOf(rel: Path, p: Project) returns (unit: Option<Unit>)
    requires rel != [] && p.Valid()
    ensures unit == UnitOf(rel, p.layers)
  {
    unit := None;
    var i := 1;
    while i < |rel|
      invariant 1 <= i <= |rel| && unit == LongestKey(rel, p.layers, i - 1)
    {
      if rel[..i] in p.layers {
        unit := Some(rel[..i]);
      }
      i := i + 1;
    }
    if unit.None? {
      return;
    }
    var owns := true;
    i := 0;
    while i < |p.keys|
      invariant i <= |p.keys| && owns == forall k | 0 <= k < i :: !(unit.value < p.keys[k])
    {
      if unit.value < p.keys[i] {
        owns := false;
      }
      i := i + 1;
    }
    assert owns == OwnsSubfolders(p.layers, unit.value) by {
      if owns {
        forall key <- p.layers ensures !(unit.value < key) {
          assert key in p.keys;
        }
      } else {
        var k :| 0 <= k < |p.keys| && unit.value < p.keys[k];
        assert p.keys[k] in p.layers;
      }
    }
    if !(owns || |rel| == |unit.value| + 1) {
      unit := None;
    }
  }

  /** The unit of `path` in `p`, if it lies below `p`'s source root. */
  function UnitIn(p: Project, path: Path): (unit: Option<Unit>)
    ensures unit.Some? ==> unit.value in p.layers
  {
    if Below(path, p.root) then UnitOf(path[|p.root|..], p.layers) else None
  }

  /** The first project `path` lies in. */
  function ProjectOf(projects: seq<Project>, path: Path): (project: Option<Project>)
    ensures project.Some? ==> project.value in projects && Below(path, [project.value.name])
  {
    if projects == [] then None
    else if Below(path, [projects[0].name]) then Some(projects[0])
    else ProjectOf(projects[1..], path)
  }

  predicate IsProjectName(projects: seq<Project>, name: string) {
    exists i :: 0 <= i < |projects| && projects[i].name == name
  }

  // ---------------------------------------------------------------- what is a violation

  /** What the table itself gets wrong, cycles aside. */
  predicate TableViolates(p: Project, files: seq<File>, v: Violation) {
    match v
    case EmptyUnit(root, key) =>
      root == p.root && key in p.layers && forall i | 0 <= i < |files| :: !Below(files[i].path, p.root + key)
    case UndeclaredDep(root, key, dep) =>
      root == p.root && key in p.layers && dep in p.layers[key] && dep !in p.layers
    case UndeclaredSpecial(root, unit) =>
      root == p.root && (p.kernel == Some(unit) || p.specSupport == Some(unit)) && unit !in p.layers
    case _ => false
  }

  /** An import the table cannot govern: a file of the package naming the package itself. The spec-support unit's entry is
      left to specs and stories. */
  predicate StepsAround(p: Project, path: Path, specifier: Path) {
    && !IsRelative(specifier)
    && Below(path, p.root)
    && [p.name] <= specifier
    && !(p.specSupport.Some? && specifier == [p.name] + p.specSupport.value && IsSpecLike(path))
  }

  /** A relative import that leaves its project for another. */
  predicate Crosses(projects: seq<Project>, p: Project, path: Path, specifier: Path) {
    && IsRelative(specifier)
    && var base := Resolve(path, specifier);
       !([".."] < base) && IsProjectName(projects, base[0]) && base[0] != p.name
  }

  /** The unit a relative import within `p` reaches, when that is a file below `p`'s root with one. */
  function Reached(files: seq<File>, p: Project, path: Path, specifier: Path): (unit: Option<Unit>)
    ensures unit.Some? ==> unit.value in p.layers
  {
    var base := Resolve(path, specifier);
    if IsRelative(specifier) && base[0] == p.name && !([".."] < base) && Target(files, base).Some?
    then UnitIn(p, Target(files, base).value)
    else None
  }

  /** The table, or the rules beside it, let a file of `unit` import `target`. */
  predicate Allowed(p: Project, path: Path, unit: Unit, target: Unit) {
    || target == unit
    || p.kernel == Some(target)
    || (IsSpecLike(path) && p.specSupport == Some(target))
    || (unit in p.layers && target in p.layers[unit])
  }

  /** What importing `s` from `path`, a file of project `p`, gets wrong. */
  predicate ImportViolates(projects: seq<Project>, files: seq<File>, p: Project, path: Path, s: Path, v: Violation) {
    match v
    case OwnEntry(file, specifier) => file == path && specifier == s && StepsAround(p, path, s)
    case AcrossProjects(file, specifier) => file == path && specifier == s && Crosses(projects, p, path, s)
    case NotInTable(file, unit, target, specifier) =>
      && file == path && specifier == s
      && UnitIn(p, path) == Some(unit) && Reached(files, p, path, s) == Some(target)
      && !Allowed(p, path, unit, target)
    case _ => false
  }

  /** What `file`, of project `p`, gets wrong. */
  predicate FileViolates(projects: seq<Project>, files: seq<File>, p: Project, file: File, v: Violation) {
    || (v == InNoUnit(file.path) && Below(file.path, p.root) && UnitIn(p, file.path).None?)
    || (exists s <- file.specifiers :: ImportViolates(projects, files, p, file.path, s, v))
  }

  // ---------------------------------------------------------------- the lines, in order

  /** One line for each unit `key` names that is not declared, as often as it is named. */
  function DepLines(p: Project, key: Unit, n: nat): seq<Violation>
    requires key in p.layers && n <= |p.layers[key]|
  {
    if n == 0 then []
    else
      var dep := p.layers[key][n - 1];
      DepLines(p, key, n - 1) + if dep !in p.layers then [UndeclaredDep(p.root, key, dep)] else []
  }

  function KeyLines(p: Project, files: seq<File>, key: Unit): seq<Violation>
    requires key in p.layers
  {
    (if exists i :: 0 <= i < |files| && Below(files[i].path, p.root + key) then [] else [EmptyUnit(p.root, key)])
    + DepLines(p, key, |p.layers[key]|)
  }

  function KeysLines(p: Project, files: seq<File>, n: nat): seq<Violation>
    requires p.Valid() && n <= |p.keys|
  {
    if n == 0 then [] else KeysLines(p, files, n - 1) + KeyLines(p, files, p.keys[n - 1])
  }

  function SpecialLine(p: Project, unit: Option<Unit>): seq<Violation> {
    if unit.Some? && unit.value !in p.layers then [UndeclaredSpecial(p.root, unit.value)] else []
  }

  function TableLines(p: Project, files: seq<File>, cycle: Option<seq<Unit>>): seq<Violation>
    requires p.Valid()
  {
    KeysLines(p, files, |p.keys|) + SpecialLine(p, p.kernel) + SpecialLine(p, p.specSupport)
    + if cycle.Some? then [TableCycle(p.root, cycle.value)] else []
  }

  /** The tables' lines, project by project. */
  function TablesLines(projects: seq<Project>, files: seq<File>, cycles: seq<Option<seq<Unit>>>, n: nat): seq<Violation>
    requires (forall p <- projects :: p.Valid()) && n <= |projects| && n <= |cycles|
  {
    if n == 0 then []
    else TablesLines(projects, files, cycles, n - 1) + TableLines(projects[n - 1], files, cycles[n - 1])
  }

  /** The one line an import may give rise to. */
  function ImportLine(projects: seq<Project>, files: seq<File>, p: Project, path: Path, s: Path): Option<Violation> {
    if StepsAround(p, path, s) then Some(OwnEntry(path, s))
    else if Crosses(projects, p, path, s) then Some(AcrossProjects(path, s))
    else
      var unit, target := UnitIn(p, path), Reached(files, p, path, s);
      if unit.None? || target.None? || Allowed(p, path, unit.value, target.value) then None
      else Some(NotInTable(path, unit.value, target.value, s))
  }

  function ImportsLines(projects: seq<Project>, files: seq<File>, p: Project, file: File, n: nat): seq<Violation>
    requires n <= |file.specifiers|
  {
    if n == 0 then []
    else
      var line := ImportLine(projects, files, p, file.path, file.specifiers[n - 1]);
      ImportsLines(projects, files, p, file, n - 1) + if line.Some? then [line.value] else []
  }

  function FileLines(projects: seq<Project>, files: seq<File>, p: Project, file: File): seq<Violation> {
    (if Below(file.path, p.root) && UnitIn(p, file.path).None? then [InNoUnit(file.path)] else [])
    + ImportsLines(projects, files, p, file, |file.specifiers|)
  }

  /** The files' lines, file by file; one in no project has none. */
  function SourcesLines(projects: seq<Project>, files: seq<File>, n: nat): seq<Violation>
    requires n <= |files|
  {
    if n == 0 then []
    else
      var p := ProjectOf(projects, files[n - 1].path);
      SourcesLines(projects, files, n - 1)
      + if p.Some? then FileLines(projects, files, p.value, files[n - 1]) else []
  }

  // ---------------------------------------------------------------- which lines those are

  lemma {:induction false} DepMembers(p: Project, key: Unit, n: nat, v: Violation)
    requires key in p.layers && n <= |p.layers[key]|
    ensures v in DepLines(p, key, n)
       <==> v.UndeclaredDep? && v.root == p.root && v.key == key && v.dep in p.layers[key][..n] && v.dep !in p.layers
  {
    if n > 0 {
      DepMembers(p, key, n - 1, v);
      assert p.layers[key][..n] == p.layers[key][..n - 1] + [p.layers[key][n - 1]];
    }
  }

  lemma KeyMembers(p: Project, files: seq<File>, key: Unit, v: Violation)
    requires key in p.layers
    ensures v in KeyLines(p, files, key) <==> !v.UndeclaredSpecial? && TableViolates(p, files, v) && v.key == key
  {
    hide DepLines;
    DepMembers(p, key, |p.layers[key]|, v);
    assert p.layers[key][..|p.layers[key]|] == p.layers[key];
  }

  lemma {:induction false} KeysMembers(p: Project, files: seq<File>, n: nat, v: Violation)
    requires p.Valid() && n <= |p.keys|
    ensures v in KeysLines(p, files, n)
       <==> !v.UndeclaredSpecial? && TableViolates(p, files, v) && v.key in p.keys[..n]
  {
    hide KeyLines;
    if n > 0 {
      KeysMembers(p, files, n - 1, v);
      KeyMembers(p, files, p.keys[n - 1], v);
      assert p.keys[..n] == p.keys[..n - 1] + [p.keys[n - 1]];
    }
  }

  lemma TableMembers(p: Project, files: seq<File>, cycle: Option<seq<Unit>>, v: Violation)
    requires p.Valid()
    ensures v in TableLines(p, files, cycle)
       <==> TableViolates(p, files, v) || (cycle.Some? && v == TableCycle(p.root, cycle.value))
  {
    hide KeysLines;
    KeysMembers(p, files, |p.keys|, v);
    assert p.keys[..|p.keys|] == p.keys;
  }

  lemma {:induction false} TablesMembers(projects: seq<Project>, files: seq<File>, cycles: seq<Option<seq<Unit>>>, n: nat,
                                         v: Violation)
    requires (forall p <- projects :: p.Valid()) && n <= |projects| == |cycles|
    ensures v in TablesLines(projects, files, cycles, n)
       <==> exists i :: 0 <= i < n && InTable(projects, files, cycles, i, v)
  {
    hide TableLines, TableViolates;
    if n > 0 {
      TablesMembers(projects, files, cycles, n - 1, v);
      TableMembers(projects[n - 1], files, cycles[n - 1], v);
      assert v in TableLines(projects[n - 1], files, cycles[n - 1]) <==> InTable(projects, files, cycles, n - 1, v);
    }
  }

  ghost predicate InTable(projects: seq<Project>, files: seq<File>, cycles: seq<Option<seq<Unit>>>, i: nat, v: Violation)
    requires i < |projects| == |cycles|
  {
    || TableViolates(projects[i], files, v)
    || (cycles[i].Some? && v == TableCycle(projects[i].root, cycles[i].value))
  }

  /** An import's line is the one violation it makes. */
  lemma ImportMembers(projects: seq<Project>, files: seq<File>, p: Project, path: Path, s: Path, v: Violation)
    ensures ImportViolates(projects, files, p, path, s, v) <==> ImportLine(projects, files, p, path, s) == Some(v)
  {
    hide UnitIn, Resolve, Target, Allowed, Below;
  }

  lemma {:induction false} ImportsMembers(projects: seq<Project>, files: seq<File>, p: Project, file: File, n: nat,
                                          v: Violation)
    requires n <= |file.specifiers|
    ensures v in ImportsLines(projects, files, p, file, n)
       <==> exists s <- file.specifiers[..n] :: ImportViolates(projects, files, p, file.path, s, v)
  {
    hide ImportLine, ImportViolates;
    if n > 0 {
      var s := file.specifiers[n - 1];
      ImportsMembers(projects, files, p, file, n - 1, v);
      ImportMembers(projects, files, p, file.path, s, v);
      assert file.specifiers[..n] == file.specifiers[..n - 1] + [s];
    }
  }

  lemma FileMembers(projects: seq<Project>, files: seq<File>, p: Project, file: File, v: Violation)
    ensures v in FileLines(projects, files, p, file) <==> FileViolates(projects, files, p, file, v)
  {
    hide ImportsLines, ImportViolates, UnitIn, Below;
    ImportsMembers(projects, files, p, file, |file.specifiers|, v);
    assert file.specifiers[..|file.specifiers|] == file.specifiers;
  }

  lemma {:induction false} SourcesMembers(projects: seq<Project>, files: seq<File>, n: nat, v: Violation)
    requires n <= |files|
    ensures v in SourcesLines(projects, files, n) <==> exists f <- files[..n] :: InProjectViolates(projects, files, f, v)
  {
    hide FileLines, InProjectViolates, ProjectOf;
    if n > 0 {
      SourcesMembers(projects, files, n - 1, v);
      SourceMembers(projects, files, files[n - 1], v);
      assert files[..n] == files[..n - 1] + [files[n - 1]];
      assert forall f :: f in files[..n] <==> f in files[..n - 1] || f == files[n - 1];
    }
  }

  lemma SourceMembers(projects: seq<Project>, files: seq<File>, f: File, v: Violation)
    ensures InProjectViolates(projects, files, f, v)
       <==> ProjectOf(projects, f.path).Some? && v in FileLines(projects, files, ProjectOf(projects, f.path).value, f)
  {
    hide FileLines, FileViolates, ProjectOf;
    if ProjectOf(projects, f.path).Some? {
      FileMembers(projects, files, ProjectOf(projects, f.path).value, f, v);
    }
  }

  /** Every line the gate may print but a table's cycle. */
  ghost predicate Violates(projects: seq<Project>, files: seq<File>, v: Violation) {
    || (exists p <- projects :: TableViolates(p, files, v))
    || (exists f <- files :: InProjectViolates(projects, files, f, v))
  }

  ghost predicate InProjectViolates(projects: seq<Project>, files: seq<File>, f: File, v: Violation) {
    var p := ProjectOf(projects, f.path);
    p.Some? && FileViolates(projects, files, p.value, f, v)
  }

  /** The table's keys stand in a topological order. */
  ghost predicate HasOrder(p: Project) {
    exists order :: Topological(p, order) && forall u :: u in p.keys ==> u in order
  }

  /** What each table's search for a cycle came to: a closed walk, or none, the table having an order. */
  ghost predicate CyclesOf(projects: seq<Project>, cycles: seq<Option<seq<Unit>>>) {
    && |cycles| == |projects|
    && forall i | 0 <= i < |projects| :: CycleOf(projects[i], cycles[i])
  }

  ghost predicate CycleOf(p: Project, cycle: Option<seq<Unit>>) {
    match cycle
    case None => HasOrder(p) && !exists walk :: ClosedWalk(p, walk)
    case Some(walk) => ClosedWalk(p, walk)
  }

  /** Everything reported: the tables' lines and then the files'. */
  function Report(projects: seq<Project>, files: seq<File>, cycles: seq<Option<seq<Unit>>>): seq<Violation>
    requires (forall p <- projects :: p.Valid()) && |cycles| == |projects|
  {
    TablesLines(projects, files, cycles, |projects|) + SourcesLines(projects, files, |files|)
  }

  /** What is reported is exactly what there is, and for each table with a cycle, a closed walk of it. */
  lemma ReportExact(projects: seq<Project>, files: seq<File>, cycles: seq<Option<seq<Unit>>>, v: Violation)
    requires (forall p <- projects :: p.Valid()) && CyclesOf(projects, cycles)
    ensures !v.TableCycle? ==> (v in Report(projects, files, cycles) <==> Violates(projects, files, v))
    ensures v.TableCycle? && v in Report(projects, files, cycles) ==>
              exists p <- projects :: v.root == p.root && ClosedWalk(p, v.walk)
  {
    hide TablesLines, SourcesLines, InProjectViolates, ClosedWalk, InTable, TableViolates;
    TablesMembers(projects, files, cycles, |projects|, v);
    SourcesMembers(projects, files, |files|, v);
    assert files[..|files|] == files;
    if v.TableCycle? && v in Report(projects, files, cycles) {
      CycleInTables(projects, files, cycles, v);
    }
    if !v.TableCycle? {
      TablesViolate(projects, files, cycles, v);
    }
  }

  lemma TablesViolate(projects: seq<Project>, files: seq<File>, cycles: seq<Option<seq<Unit>>>, v: Violation)
    requires |projects| == |cycles| && !v.TableCycle?
    ensures (exists i :: 0 <= i < |projects| && InTable(projects, files, cycles, i, v))
       <==> exists p <- projects :: TableViolates(p, files, v)
  {
    hide TableViolates;
    if p :| p in projects && TableViolates(p, files, v) {
      var i :| 0 <= i < |projects| && projects[i] == p;
      assert InTable(projects, files, cycles, i, v);
    }
  }

  lemma CycleInTables(projects: seq<Project>, files: seq<File>, cycles: seq<Option<seq<Unit>>>, v: Violation)
    requires (forall p <- projects :: p.Valid()) && CyclesOf(projects, cycles)
    requires v.TableCycle? && v in Report(projects, files, cycles)
    ensures exists p <- projects :: v.root == p.root && ClosedWalk(p, v.walk)
  {
    hide TablesLines, SourcesLines, ClosedWalk;
    TablesMembers(projects, files, cycles, |projects|, v);
    SourcesMembers(projects, files, |files|, v);
    var i :| 0 <= i < |projects| && InTable(projects, files, cycles, i, v);
    assert projects[i] in projects && CycleOf(projects[i], cycles[i]);
  }

  /** A table with a closed walk has a line of its own for one. */
  lemma {:induction false} CycleReported(projects: seq<Project>, files: seq<File>, cycles: seq<Option<seq<Unit>>>, i: nat,
                                         n: nat)
    requires (forall p <- projects :: p.Valid()) && i < n <= |projects| == |cycles| && cycles[i].Some?
    ensures TableCycle(projects[i].root, cycles[i].value) in TablesLines(projects, files, cycles, n)
  {
    hide KeysLines;
    if i < n - 1 {
      CycleReported(projects, files, cycles, i, n - 1);
    }
  }

  // ---------------------------------------------------------------- the sweep

  method TableViolations(p: Project, files: seq<File>) returns (lines: seq<Violation>, cycle: Option<seq<Unit>>)
    requires p.Valid()
    ensures lines == TableLines(p, files, cycle) && CycleOf(p, cycle)
  {
    hide KeyLines;
    lines := [];
    for i := 0 to |p.keys|
      invariant lines == KeysLines(p, files, i)
    {
      var found := KeyViolations(p, files, p.keys[i]);
      lines := lines + found;
    }
    if p.kernel.Some? && p.kernel.value !in p.layers {
      lines := lines + [UndeclaredSpecial(p.root, p.kernel.value)];
    }
    if p.specSupport.Some? && p.specSupport.value !in p.layers {
      lines := lines + [UndeclaredSpecial(p.root, p.specSupport.value)];
    }
    ghost var order;
    cycle, order := FindCycle(p);
    if cycle.Some? {
      lines := lines + [TableCycle(p.root, cycle.value)];
    }
  }

  /** One key's lines: its folder holding no file, and each unit it names that is not declared. */
  method KeyViolations(p: Project, files: seq<File>, key: Unit) returns (lines: seq<Violation>)
    requires key in p.layers
    ensures lines == KeyLines(p, files, key)
  {
    lines := [];
    var present := false;
    for i := 0 to |files|
      invariant present == exists k :: 0 <= k < i && Below(files[k].path, p.root + key)
    {
      if Below(files[i].path, p.root + key) {
        present := true;
      }
    }
    if !present {
      lines := lines + [EmptyUnit(p.root, key)];
    }
    ghost var first := lines;
    var deps := p.layers[key];
    for i := 0 to |deps|
      invariant lines == first + DepLines(p, key, i)
    {
      if deps[i] !in p.layers {
        lines := lines + [UndeclaredDep(p.root, key, deps[i])];
      }
    }
  }

  method FileViolations(projects: seq<Project>, files: seq<File>, p: Project, file: File)
    returns (lines: seq<Violation>)
    requires p.Valid() && IsProjectName(projects, p.name)
    ensures lines == FileLines(projects, files, p, file)
  {
    hide UnitOf, ImportLine;
    lines := [];
    var path, underRoot := file.path, Below(file.path, p.root);
    var unit := None;
    if underRoot {
      unit := LayerUnitOf(path[|p.root|..], p);
      if unit.None? {
        lines := lines + [InNoUnit(path)];
      }
    }
    ghost var first := lines;
    for i := 0 to |file.specifiers|
      invariant lines == first + ImportsLines(projects, files, p, file, i)
    {
      var line := SpecifierViolation(projects, files, p, path, unit, file.specifiers[i]);
      if line.Some? {
        lines := lines + [line.value];
      }
    }
  }

  method SpecifierViolation(projects: seq<Project>, files: seq<File>, p: Project, path: Path, unit: Option<Unit>, s: Path)
    returns (line: Option<Violation>)
    requires p.Valid() && IsProjectName(projects, p.name) && unit == UnitIn(p, path)
    ensures line == ImportLine(projects, files, p, path, s)
  {
    hide Target, Resolve, UnitOf, IsSpecLike, IsProjectName;
    line := None;
    if !IsRelative(s) {
      if Below(path, p.root) && [p.name] <= s {
        var specEntry := p.specSupport.Some? && s == [p.name] + p.specSupport.value;
        if !(specEntry && IsSpecLike(path)) {
          line := Some(OwnEntry(path, s));
        }
      }
      return;
    }
    var base := Resolve(path, s);
    if [".."] < base || !IsProjectName(projects, base[0]) {
      return;
    }
    if base[0] != p.name {
      return Some(AcrossProjects(path, s));
    }
    if unit.None? {
      return;
    }
    var target := Target(files, base);
    if target.None? || !Below(target.value, p.root) {
      return;
    }
    var targetUnit := LayerUnitOf(target.value[|p.root|..], p);
    if targetUnit.None? || targetUnit == unit || targetUnit == p.kernel {
      return;
    }
    if IsSpecLike(path) && targetUnit == p.specSupport {
      return;
    }
    if targetUnit.value !in p.layers[unit.value] {
      line := Some(NotInTable(path, unit.value, targetUnit.value, s));
    }
  }

  /** `packageLayerViolations`: exactly the violations there are, and a cycle of each table that has one, table by table
      and then file by file, each line where and as often as what it reports comes up. */
  method PackageLayerViolations(projects: seq<Project>, files: seq<File>)
    returns (lines: seq<Violation>, ghost cycles: seq<Option<seq<Unit>>>)
    requires forall p <- projects :: p.Valid()
    ensures CyclesOf(projects, cycles) && lines == Report(projects, files, cycles)
    ensures forall v: Violation | !v.TableCycle? :: v in lines <==> Violates(projects, files, v)
    ensures forall v: Violation | v in lines && v.TableCycle? ::
              exists p <- projects :: v.root == p.root && ClosedWalk(p, v.walk)
    ensures forall p <- projects :: (exists walk :: ClosedWalk(p, walk)) ==>
                                      exists v <- lines :: v.TableCycle? && v.root == p.root && ClosedWalk(p, v.walk)
    ensures lines == [] && WellFormed(projects) ==> forall p <- projects :: Layered(p, files)
  {
    hide Violates, ClosedWalk, HasOrder, TablesLines, SourcesLines, WellFormed, Layered;
    var tables;
    tables, cycles := TablesViolations(projects, files);
    var sources := SourcesViolations(projects, files);
    lines := tables + sources;
    forall v: Violation
      ensures !v.TableCycle? ==> (v in lines <==> Violates(projects, files, v))
      ensures v.TableCycle? && v in lines ==> exists p <- projects :: v.root == p.root && ClosedWalk(p, v.walk)
    {
      ReportExact(projects, files, cycles, v);
    }
    forall p | p in projects && exists walk :: ClosedWalk(p, walk)
      ensures exists v <- lines :: v.TableCycle? && v.root == p.root && ClosedWalk(p, v.walk)
    {
      var v := CycleLine(projects, files, cycles, p);
    }
    if lines == [] && WellFormed(projects) {
      forall p <- projects ensures Layered(p, files) {
        CleanHasOrder(projects, files, cycles, p);
        CleanMeansLayered(projects, files, p);
      }
    }
  }

  lemma CycleLine(projects: seq<Project>, files: seq<File>, cycles: seq<Option<seq<Unit>>>, p: Project)
    returns (v: Violation)
    requires (forall q <- projects :: q.Valid()) && CyclesOf(projects, cycles)
    requires p in projects && exists walk :: ClosedWalk(p, walk)
    ensures v in Report(projects, files, cycles) && v.TableCycle? && v.root == p.root && ClosedWalk(p, v.walk)
  {
    hide TablesLines, SourcesLines, ClosedWalk, HasOrder;
    var i :| 0 <= i < |projects| && projects[i] == p;
    assert CycleOf(projects[i], cycles[i]);
    CycleReported(projects, files, cycles, i, |projects|);
    v := TableCycle(p.root, cycles[i].value);
  }

  lemma CleanHasOrder(projects: seq<Project>, files: seq<File>, cycles: seq<Option<seq<Unit>>>, p: Project)
    requires (forall q <- projects :: q.Valid()) && CyclesOf(projects, cycles)
    requires p in projects && Report(projects, files, cycles) == []
    ensures HasOrder(p)
  {
    hide TablesLines, SourcesLines, ClosedWalk, HasOrder;
    var i :| 0 <= i < |projects| && projects[i] == p;
    assert CycleOf(projects[i], cycles[i]);
    if cycles[i].Some? {
      CycleReported(projects, files, cycles, i, |projects|);
    }
  }

  method TablesViolations(projects: seq<Project>, files: seq<File>)
    returns (lines: seq<Violation>, ghost cycles: seq<Option<seq<Unit>>>)
    requires forall p <- projects :: p.Valid()
    ensures CyclesOf(projects, cycles) && lines == TablesLines(projects, files, cycles, |projects|)
  {
    hide TableLines, CycleOf;
    lines, cycles := [], [];
    for i := 0 to |projects|
      invariant |cycles| == i && forall k | 0 <= k < i :: CycleOf(projects[k], cycles[k])
      invariant lines == TablesLines(projects, files, cycles, i)
    {
      var found, cycle := TableViolations(projects[i], files);
      TablesBefore(projects, files, cycles, cycle, i);
      lines, cycles := lines + found, cycles + [cycle];
    }
  }

  lemma {:induction false} TablesBefore(projects: seq<Project>, files: seq<File>, cycles: seq<Option<seq<Unit>>>,
                                        cycle: Option<seq<Unit>>, n: nat)
    requires (forall p <- projects :: p.Valid()) && n <= |projects| && n <= |cycles|
    ensures TablesLines(projects, files, cycles + [cycle], n) == TablesLines(projects, files, cycles, n)
  {
    hide TableLines;
    if n > 0 {
      TablesBefore(projects, files, cycles, cycle, n - 1);
    }
  }

  method SourcesViolations(projects: seq<Project>, files: seq<File>) returns (lines: seq<Violation>)
    requires forall p <- projects :: p.Valid()
    ensures lines == SourcesLines(projects, files, |files|)
  {
    hide FileLines, ProjectOf;
    lines := [];
    for i := 0 to |files|
      invariant lines == SourcesLines(projects, files, i)
    {
      var project := ProjectOf(projects, files[i].path);
      if project.Some? {
        Named(projects, project.value);
        var found := FileViolations(projects, files, project.value, files[i]);
        lines := lines + found;
      }
    }
  }

  lemma Named(projects: seq<Project>, p: Project)
    requires p in projects
    ensures IsProjectName(projects, p.name)
  {
  }

  // ---------------------------------------------------------------- what a clean report means

  /** Each project has its own name, and its source root lies in its own folder. */
  ghost predicate WellFormed(projects: seq<Project>) {
    && (forall p <- projects :: p.root != [] && p.root[0] == p.name && p.name != "..")
    && (forall p, q | p in projects && q in projects && p.name == q.name :: p == q)
  }

  /** `f`, not a spec or a story, imports the file `g` by a relative path, both below `p`'s source root. */
  ghost predicate Imports(p: Project, files: seq<File>, f: File, g: Path) {
    && f in files && !IsSpecLike(f.path) && Below(f.path, p.root) && Below(g, p.root)
    && exists s <- f.specifiers :: IsRelative(s) && Target(files, Resolve(f.path, s)) == Some(g)
  }

  /** The imports between `p`'s units, each file taken to its unit, go down one order of the units: every import stays in
      its unit or reaches a unit earlier in it. No import of a file below the root goes by its own package's entry. */
  ghost predicate LayeredBy(p: Project, files: seq<File>, order: seq<Unit>) {
    && (forall f, g | Imports(p, files, f, g) ::
          && UnitIn(p, f.path).Some? && UnitIn(p, g).Some?
          && (UnitIn(p, g) == UnitIn(p, f.path)
              || (&& UnitIn(p, f.path).value in order && UnitIn(p, g).value in order
                  && Place(order, UnitIn(p, g).value) < Place(order, UnitIn(p, f.path).value))))
    && (forall f <- files, s <- f.specifiers :: !StepsAround(p, f.path, s))
  }

  ghost predicate Layered(p: Project, files: seq<File>) {
    exists order :: LayeredBy(p, files, order)
  }

  lemma {:induction false} OwnProject(projects: seq<Project>, p: Project, path: Path)
    requires p in projects && Below(path, [p.name])
    requires forall q <- projects :: q.name == p.name ==> q == p
    ensures ProjectOf(projects, path) == Some(p)
  {
    assert path[0] == p.name;
    if projects[0] != p {
      assert projects[0].name != p.name;
      assert p in projects[1..];
      OwnProject(projects[1..], p, path);
    }
  }

  /** A path below a project's root that a relative import means is meant from within the project. */
  lemma TargetInProject(files: seq<File>, p: Project, base: Path)
    requires base != [] && p.root != [] && Target(files, base).Some? && Below(Target(files, base).value, p.root)
    ensures base[0] == p.root[0]
  {
    var t := Target(files, base).value;
    assert 2 <= |t| && t[0] == p.root[0];
  }

  lemma {:induction false} TargetIsFile(files: seq<File>, base: Path)
    requires base != [] && Target(files, base).Some?
    ensures HasFile(files, Target(files, base).value)
  {
  }

  /** A file below the root of a clean tree is in a unit. */
  lemma CleanFile(projects: seq<Project>, files: seq<File>, p: Project, f: File)
    requires WellFormed(projects) && p in projects && f in files && Below(f.path, p.root)
    requires forall v: Violation | !v.TableCycle? :: !Violates(projects, files, v)
    ensures UnitIn(p, f.path).Some?
    ensures forall s, v: Violation | s in f.specifiers :: !ImportViolates(projects, files, p, f.path, s, v)
  {
    assert f.path[0] == p.root[0];
    OwnProject(projects, p, f.path);
    assert !InProjectViolates(projects, files, f, InNoUnit(f.path)) by {
      assert !Violates(projects, files, InNoUnit(f.path));
    }
    forall s, v: Violation | s in f.specifiers ensures !ImportViolates(projects, files, p, f.path, s, v) {
      assert v.TableCycle? || !InProjectViolates(projects, files, f, v) by {
        assert v.TableCycle? || !Violates(projects, files, v);
      }
    }
  }

  lemma CleanImport(projects: seq<Project>, files: seq<File>, p: Project, f: File, g: Path)
    requires WellFormed(projects) && p in projects && Imports(p, files, f, g)
    requires forall v: Violation | !v.TableCycle? :: !Violates(projects, files, v)
    ensures UnitIn(p, f.path).Some? && UnitIn(p, g).Some?
    ensures UnitIn(p, g) == UnitIn(p, f.path) || UnitIn(p, g).value in p.Edges(UnitIn(p, f.path).value)
  {
    CleanFile(projects, files, p, f);
    var s :| s in f.specifiers && IsRelative(s) && Target(files, Resolve(f.path, s)) == Some(g);
    var base := Resolve(f.path, s);
    TargetIsFile(files, base);
    var i :| 0 <= i < |files| && files[i].path == g;
    CleanFile(projects, files, p, files[i]);
    TargetInProject(files, p, base);
    var unit, target := UnitIn(p, f.path).value, UnitIn(p, g).value;
    assert Reached(files, p, f.path, s) == Some(target);
    assert !ImportViolates(projects, files, p, f.path, s, NotInTable(f.path, unit, target, s));
  }

  lemma CleanMeansLayered(projects: seq<Project>, files: seq<File>, p: Project)
    requires WellFormed(projects) && p in projects && p.Valid() && HasOrder(p)
    requires forall v: Violation | !v.TableCycle? :: !Violates(projects, files, v)
    ensures Layered(p, files)
  {
    var order :| Topological(p, order) && forall u :: u in p.keys ==> u in order;
    forall f, g | Imports(p, files, f, g)
      ensures UnitIn(p, f.path).Some? && UnitIn(p, g).Some?
      ensures UnitIn(p, g) != UnitIn(p, f.path) ==>
                && UnitIn(p, f.path).value in order && UnitIn(p, g).value in order
                && Place(order, UnitIn(p, g).value) < Place(order, UnitIn(p, f.path).value)
    {
      CleanImport(projects, files, p, f, g);
      var unit, target := UnitIn(p, f.path).value, UnitIn(p, g).value;
      assert unit in p.keys;
      if target != unit { EdgesGoDown(p, order, unit, target); }
    }
    forall f, s | f in files && s in f.specifiers ensures !StepsAround(p, f.path, s) {
      if Below(f.path, p.root) {
        CleanFile(projects, files, p, f);
        assert !ImportViolates(projects, files, p, f.path, s, OwnEntry(f.path, s));
      }
    }
    assert LayeredBy(p, files, order);
  }
}
