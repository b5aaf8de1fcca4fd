/** The files a bundle loads at once: those its entry reaches over static imports, and how each came to be loaded. */
module EagerFiles {
  import opened Prelude
  import opened Reach

  type File = string

  datatype Import = Import(path: File, statement: bool, external: bool)

  type Inputs = map<File, seq<Import>>

  function ImportsOf(inputs: Inputs, file: File): seq<Import> {
    if file in inputs then inputs[file] else []
  }

  predicate Eager(imp: Import) {
    imp.statement && !imp.external
  }

  ghost predicate ImportsStatically(inputs: Inputs, file: File, path: File) {
    exists imp <- ImportsOf(inputs, file) :: imp.statement && !imp.external && imp.path == path
  }

  ghost function Static(inputs: Inputs): (File, File) -> bool {
    (file, path) => ImportsStatically(inputs, file, path)
  }

  /** Every file there is. */
  ghost function Files(inputs: Inputs, main: File): set<File> {
    {main} + set f, imp | f in inputs && imp in inputs[f] :: imp.path
  }

  /** `parent` names, for each file but the entry that was pushed, one visited before it that imports it. */
  ghost predicate Recorded(inputs: Inputs, main: File, visited: seq<File>, parent: map<File, File>) {
    && (forall f <- parent :: parent[f] in visited && ImportsStatically(inputs, parent[f], f))
    && (forall i | 0 <= i < |visited| && visited[i] != main :: visited[i] in parent && parent[visited[i]] in visited[..i])
  }

  ghost predicate Distinct(files: seq<File>) {
    forall i, j | 0 <= i < j < |files| :: files[i] != files[j]
  }

  /** What the walk keeps: all it met is reachable, and all a visited file imports is visited or waiting. */
  ghost predicate Walking(inputs: Inputs, main: File, visited: seq<File>, stack: seq<File>, parent: map<File, File>) {
    && Distinct(visited) && Recorded(inputs, main, visited, parent)
    && (main in visited || main in stack)
    && (forall f :: f in visited || f in stack ==> f in Files(inputs, main) && Reaches(Static(inputs), main, f))
    && (forall f :: f in stack ==> f == main || f in parent)
  }

  ghost predicate Followed(inputs: Inputs, file: File, visited: seq<File>, stack: seq<File>) {
    forall path | ImportsStatically(inputs, file, path) :: path in visited || path in stack
  }

  ghost predicate AllFollowed(inputs: Inputs, visited: seq<File>, stack: seq<File>) {
    forall f <- visited :: Followed(inputs, f, visited, stack)
  }

  /** `cur`, taken off the stack, was visited already. */
  lemma PoppedAgain(inputs: Inputs, main: File, visited: seq<File>, stack: seq<File>, parent: map<File, File>, cur: File)
    requires Walking(inputs, main, visited, stack + [cur], parent) && AllFollowed(inputs, visited, stack + [cur])
    requires cur in visited
    ensures Walking(inputs, main, visited, stack, parent) && AllFollowed(inputs, visited, stack)
  {
    hide ImportsStatically, Files, Reaches, Recorded, Distinct;
    assert forall f :: f in stack + [cur] <==> f in stack || f == cur;
  }

  /** `cur`, taken off the stack, is visited now. */
  lemma PoppedFirst(inputs: Inputs, main: File, visited: seq<File>, stack: seq<File>, parent: map<File, File>, cur: File)
    requires Walking(inputs, main, visited, stack + [cur], parent) && AllFollowed(inputs, visited, stack + [cur])
    requires cur !in visited
    ensures Walking(inputs, main, visited + [cur], stack, parent)
    ensures forall f <- visited :: Followed(inputs, f, visited + [cur], stack)
  {
    hide ImportsStatically, Files, Reaches, Recorded;
    assert forall f :: f in stack + [cur] <==> f in stack || f == cur;
    assert forall f :: f in visited + [cur] <==> f in visited || f == cur;
    RecordedMore(inputs, main, visited, parent, cur);
  }

  lemma RecordedMore(inputs: Inputs, main: File, visited: seq<File>, parent: map<File, File>, cur: File)
    requires Recorded(inputs, main, visited, parent) && (cur == main || cur in parent)
    ensures Recorded(inputs, main, visited + [cur], parent)
  {
    hide ImportsStatically;
    forall i | 0 <= i <= |visited| ensures (visited + [cur])[..i] == visited[..i] {
    }
  }

  ghost function Unvisited(inputs: Inputs, main: File, visited: seq<File>): set<File> {
    Files(inputs, main) - set f | f in visited
  }

  lemma FewerUnvisited(inputs: Inputs, main: File, visited: seq<File>, cur: File)
    requires cur in Files(inputs, main) && cur !in visited
    ensures |Unvisited(inputs, main, visited + [cur])| < |Unvisited(inputs, main, visited)|
  {
    hide Files;
    assert Unvisited(inputs, main, visited + [cur]) == Unvisited(inputs, main, visited) - {cur};
  }

  lemma AllReached(inputs: Inputs, main: File, visited: seq<File>, parent: map<File, File>)
    requires Walking(inputs, main, visited, [], parent) && AllFollowed(inputs, visited, [])
    ensures forall f :: f in visited <==> Reaches(Static(inputs), main, f)
  {
    hide Reaches, ImportsStatically, Files;
    forall f | Reaches(Static(inputs), main, f) ensures f in visited {
      ReachesKeeps(Static(inputs), main, f, g => g in visited);
    }
  }

  // ---------------------------------------------------------------- the order of the walk

  /** What `file` imports that is eager, among its first `n` imports. */
  function EagerPaths(inputs: Inputs, file: File, n: nat): seq<File>
    requires n <= |ImportsOf(inputs, file)|
  {
    if n == 0 then []
    else
      var imp := ImportsOf(inputs, file)[n - 1];
      EagerPaths(inputs, file, n - 1) + if Eager(imp) then [imp.path] else []
  }

  function AllEagerPaths(inputs: Inputs, file: File): seq<File> {
    EagerPaths(inputs, file, |ImportsOf(inputs, file)|)
  }

  lemma {:induction false} PathsImportedBy(inputs: Inputs, file: File, n: nat, path: File)
    requires n <= |ImportsOf(inputs, file)|
    ensures path in EagerPaths(inputs, file, n)
       <==> exists imp <- ImportsOf(inputs, file)[..n] :: Eager(imp) && imp.path == path
  {
    if n > 0 {
      PathsImportedBy(inputs, file, n - 1, path);
      var imports := ImportsOf(inputs, file);
      assert imports[..n] == imports[..n - 1] + [imports[n - 1]];
    }
  }

  lemma PathsImported(inputs: Inputs, main: File, file: File, path: File)
    ensures path in AllEagerPaths(inputs, file) <==> ImportsStatically(inputs, file, path)
    ensures path in AllEagerPaths(inputs, file) ==> path in Files(inputs, main)
  {
    var imports := ImportsOf(inputs, file);
    PathsImportedBy(inputs, file, |imports|, path);
    assert imports[..|imports|] == imports;
  }

  function LastFirst(files: seq<File>): (r: seq<File>)
    ensures |r| == |files| && forall f :: f in r <==> f in files
  {
    if files == [] then []
    else
      assert forall f :: f in files <==> f == files[0] || f in files[1..];
      LastFirst(files[1..]) + [files[0]]
  }

  lemma {:induction false} LastFirstBoth(a: seq<File>, b: seq<File>)
    ensures LastFirst(a + b) == LastFirst(b) + LastFirst(a)
  {
    if a == [] {
      assert a + b == b;
    } else {
      assert (a + b)[1..] == a[1..] + b;
      LastFirstBoth(a[1..], b);
    }
  }

  /** Each of `files` in turn is entered unless it was, and with it, before the next, what it imports, its last import
      first. */
  ghost function DepthFirst(inputs: Inputs, main: File, files: seq<File>, visited: seq<File>): (walked: seq<File>)
    requires forall f <- files :: f in Files(inputs, main)
    ensures visited <= walked
    decreases |Unvisited(inputs, main, visited)|, |files| + 1
  {
    if files == [] then visited
    else
      var walked := Entered(inputs, main, files[0], visited);
      FewerLeft(inputs, main, visited, walked);
      DepthFirst(inputs, main, files[1..], walked)
  }

  ghost function Entered(inputs: Inputs, main: File, file: File, visited: seq<File>): (walked: seq<File>)
    requires file in Files(inputs, main)
    ensures visited <= walked
    decreases |Unvisited(inputs, main, visited)|, 0
  {
    if file in visited then visited
    else
      FewerUnvisited(inputs, main, visited, file);
      assert forall path <- AllEagerPaths(inputs, file) :: path in Files(inputs, main) by {
        forall path <- AllEagerPaths(inputs, file) ensures path in Files(inputs, main) {
          PathsImported(inputs, main, file, path);
        }
      }
      DepthFirst(inputs, main, LastFirst(AllEagerPaths(inputs, file)), visited + [file])
  }

  lemma FirstEntered(inputs: Inputs, main: File, file: File, rest: seq<File>, visited: seq<File>)
    requires file in Files(inputs, main) && forall f <- rest :: f in Files(inputs, main)
    ensures DepthFirst(inputs, main, [file] + rest, visited)
         == DepthFirst(inputs, main, rest, Entered(inputs, main, file, visited))
  {
    hide Files, Entered;
    assert ([file] + rest)[1..] == rest;
  }

  lemma EnteredIs(inputs: Inputs, main: File, file: File, visited: seq<File>)
    requires file in Files(inputs, main)
    ensures file in visited ==> Entered(inputs, main, file, visited) == visited
    ensures forall f <- AllEagerPaths(inputs, file) :: f in Files(inputs, main)
    ensures file !in visited ==>
              Entered(inputs, main, file, visited)
              == DepthFirst(inputs, main, LastFirst(AllEagerPaths(inputs, file)), visited + [file])
  {
    hide Files, AllEagerPaths;
    forall f <- AllEagerPaths(inputs, file) ensures f in Files(inputs, main) {
      PathsImported(inputs, main, file, f);
    }
  }

  lemma FewerLeft(inputs: Inputs, main: File, visited: seq<File>, walked: seq<File>)
    requires visited <= walked
    ensures |Unvisited(inputs, main, walked)| <= |Unvisited(inputs, main, visited)|
  {
    hide Files;
    assert forall f <- visited :: f in walked;
    Smaller(Unvisited(inputs, main, walked), Unvisited(inputs, main, visited));
  }

  lemma {:induction false} DepthFirstBoth(inputs: Inputs, main: File, a: seq<File>, b: seq<File>, visited: seq<File>)
    requires forall f :: f in a || f in b ==> f in Files(inputs, main)
    ensures DepthFirst(inputs, main, a + b, visited)
         == DepthFirst(inputs, main, b, DepthFirst(inputs, main, a, visited))
    decreases |a|
  {
    hide Files, Entered;
    if a == [] {
      assert a + b == b;
    } else {
      assert (a + b)[1..] == a[1..] + b;
      DepthFirstBoth(inputs, main, a[1..], b, Entered(inputs, main, a[0], visited));
    }
  }

  /** `files` without those in `visited`. */
  function Without(files: seq<File>, visited: seq<File>): (left: seq<File>)
    ensures forall f <- left :: f in files
  {
    if files == [] then []
    else (if files[0] in visited then [] else [files[0]]) + Without(files[1..], visited)
  }

  lemma {:induction false} WithoutBoth(a: seq<File>, b: seq<File>, visited: seq<File>)
    ensures Without(a + b, visited) == Without(a, visited) + Without(b, visited)
  {
    if a == [] {
      assert a + b == b;
    } else {
      assert (a + b)[1..] == a[1..] + b;
      WithoutBoth(a[1..], b, visited);
    }
  }

  lemma WithoutMore(files: seq<File>, f: File, visited: seq<File>)
    ensures Without(files + [f], visited) == Without(files, visited) + if f in visited then [] else [f]
  {
    WithoutBoth(files, [f], visited);
    assert [f][1..] == [];
  }

  lemma {:induction false} WithoutLastFirst(files: seq<File>, visited: seq<File>)
    ensures Without(LastFirst(files), visited) == LastFirst(Without(files, visited))
  {
    if files != [] {
      WithoutBoth(LastFirst(files[1..]), [files[0]], visited);
      WithoutLastFirst(files[1..], visited);
      LastFirstBoth(Without([files[0]], visited), Without(files[1..], visited));
      assert files == [files[0]] + files[1..];
    }
  }

  /** What is visited already makes no difference. */
  lemma {:induction false} DepthFirstWithout(inputs: Inputs, main: File, files: seq<File>, seen: seq<File>,
                                             visited: seq<File>)
    requires (forall f <- files :: f in Files(inputs, main)) && forall f <- seen :: f in visited
    ensures DepthFirst(inputs, main, Without(files, seen), visited) == DepthFirst(inputs, main, files, visited)
    decreases |files|
  {
    hide Files, Entered, DepthFirst;
    if files != [] {
      var file, rest := files[0], files[1..];
      var walked := Entered(inputs, main, file, visited);
      assert files == [file] + rest;
      DepthFirstWithout(inputs, main, rest, seen, walked);
      FirstEntered(inputs, main, file, rest, visited);
      if file in seen {
        assert Without(files, seen) == Without(rest, seen);
        EnteredIs(inputs, main, file, visited);
      } else {
        assert Without(files, seen) == [file] + Without(rest, seen);
        FirstEntered(inputs, main, file, Without(rest, seen), visited);
      }
    }
  }

  /** What is still to come of the walk, once `visited` with `stack` waiting. */
  ghost predicate Ahead(inputs: Inputs, main: File, visited: seq<File>, stack: seq<File>) {
    && (forall f <- stack :: f in Files(inputs, main))
    && DepthFirst(inputs, main, LastFirst(stack), visited) == DepthFirst(inputs, main, [main], [])
  }

  lemma AheadAtFirst(inputs: Inputs, main: File)
    ensures Ahead(inputs, main, [], [main])
  {
    hide Files, Entered;
    MainIsFile(inputs, main);
    assert LastFirst([main]) == [main] by {
      assert [main][1..] == [];
    }
  }

  lemma MainIsFile(inputs: Inputs, main: File)
    ensures main in Files(inputs, main)
  {
  }

  lemma AheadAgain(inputs: Inputs, main: File, visited: seq<File>, stack: seq<File>, cur: File)
    requires Ahead(inputs, main, visited, stack + [cur]) && cur in visited
    ensures Ahead(inputs, main, visited, stack)
  {
    hide Files, Entered, DepthFirst;
    AheadFirst(inputs, main, visited, stack, cur);
    EnteredIs(inputs, main, cur, visited);
  }

  lemma AheadFirst(inputs: Inputs, main: File, visited: seq<File>, stack: seq<File>, cur: File)
    requires Ahead(inputs, main, visited, stack + [cur])
    ensures (forall f <- stack :: f in Files(inputs, main)) && cur in Files(inputs, main) && main in Files(inputs, main)
    ensures DepthFirst(inputs, main, LastFirst(stack), Entered(inputs, main, cur, visited))
         == DepthFirst(inputs, main, [main], [])
  {
    MainIsFile(inputs, main);
    hide Files, Entered, DepthFirst;
    LastPopped(stack, cur);
    assert forall f <- stack :: f in stack + [cur];
    assert cur in stack + [cur];
    FirstEntered(inputs, main, cur, LastFirst(stack), visited);
  }

  lemma LastPopped(stack: seq<File>, cur: File)
    ensures LastFirst(stack + [cur]) == [cur] + LastFirst(stack)
  {
    LastFirstBoth(stack, [cur]);
    assert [cur][1..] == [];
  }

  lemma AheadOn(inputs: Inputs, main: File, visited: seq<File>, stack: seq<File>, cur: File)
    requires Ahead(inputs, main, visited, stack + [cur]) && cur !in visited
    ensures Ahead(inputs, main, visited + [cur], stack + Without(AllEagerPaths(inputs, cur), visited + [cur]))
  {
    hide Files, AllEagerPaths, Entered, DepthFirst;
    var paths, now := AllEagerPaths(inputs, cur), visited + [cur];
    AheadFirst(inputs, main, visited, stack, cur);
    EnteredIs(inputs, main, cur, visited);
    var left := Without(paths, now);
    LastFirstBoth(stack, left);
    WithoutLastFirst(paths, now);
    DepthFirstWithout(inputs, main, LastFirst(paths), now, now);
    DepthFirstBoth(inputs, main, LastFirst(left), LastFirst(stack), now);
  }

  /** Each importer recorded is the first visited that imports the file. */
  ghost predicate FirstImporters(inputs: Inputs, visited: seq<File>, parent: map<File, File>) {
    forall i, f | 0 <= i < |visited| && ImportsStatically(inputs, visited[i], f) ::
      f in parent && parent[f] in visited[..i + 1]
  }

  /** What is recorded for what `cur` imports: `cur`, unless there was one. */
  ghost predicate RecordsOn(inputs: Inputs, cur: File, recorded: map<File, File>, parent: map<File, File>) {
    && (forall f <- recorded :: f in parent && parent[f] == recorded[f])
    && (forall f <- parent :: f in recorded || parent[f] == cur)
    && (forall f | ImportsStatically(inputs, cur, f) :: f in parent)
  }

  lemma FirstImportersOn(inputs: Inputs, visited: seq<File>, cur: File, recorded: map<File, File>, parent: map<File, File>)
    requires FirstImporters(inputs, visited, recorded) && RecordsOn(inputs, cur, recorded, parent)
    requires forall f <- recorded :: recorded[f] in visited
    ensures FirstImporters(inputs, visited + [cur], parent)
  {
    hide ImportsStatically, RecordsOn;
    var now := visited + [cur];
    forall i, f | 0 <= i < |now| && ImportsStatically(inputs, now[i], f)
      ensures f in parent && parent[f] in now[..i + 1]
    {
      ImporterOn(inputs, visited, cur, recorded, parent, i, f);
    }
  }

  lemma ImporterOn(inputs: Inputs, visited: seq<File>, cur: File, recorded: map<File, File>, parent: map<File, File>,
                   i: nat, f: File)
    requires FirstImporters(inputs, visited, recorded) && RecordsOn(inputs, cur, recorded, parent)
    requires forall f <- recorded :: recorded[f] in visited
    requires i <= |visited| && ImportsStatically(inputs, (visited + [cur])[i], f)
    ensures f in parent && parent[f] in (visited + [cur])[..i + 1]
  {
    hide ImportsStatically;
    var now := visited + [cur];
    if i < |visited| {
      assert now[i] == visited[i];
      assert f in recorded && recorded[f] in visited[..i + 1];
      assert now[..i + 1] == visited[..i + 1];
    } else {
      assert now[..i + 1] == now;
      assert cur in now && forall g <- visited :: g in now;
    }
  }

  /** `computeEagerFiles`: the files reached in the order they were visited, depth first and the last import first, and for
      each the first visited that imports it. */
  method ComputeEagerFiles(inputs: Inputs, main: File) returns (visited: seq<File>, parent: map<File, File>)
    ensures Distinct(visited) && forall f :: f in visited <==> Reaches(Static(inputs), main, f)
    ensures Recorded(inputs, main, visited, parent) && FirstImporters(inputs, visited, parent)
    ensures main in Files(inputs, main) && visited == DepthFirst(inputs, main, [main], [])
  {
    hide Walking, AllFollowed, Followed, Files, Reaches, ImportsStatically, Static, Recorded, Distinct, Ahead, RecordsOn,
         FirstImporters, Without, AllEagerPaths;
    visited, parent := [], map[];
    var stack := [main];
    WalkBegins(inputs, main);
    AheadAtFirst(inputs, main);
    NoImporters(inputs);
    while stack != []
      invariant Walking(inputs, main, visited, stack, parent) && AllFollowed(inputs, visited, stack)
      invariant Ahead(inputs, main, visited, stack) && FirstImporters(inputs, visited, parent)
      decreases |Unvisited(inputs, main, visited)|, |stack|
    {
      var cur := stack[|stack| - 1];
      assert stack == stack[..|stack| - 1] + [cur];
      stack := stack[..|stack| - 1];
      if cur in visited {
        PoppedAgain(inputs, main, visited, stack, parent, cur);
        AheadAgain(inputs, main, visited, stack, cur);
        continue;
      }
      PoppedFirst(inputs, main, visited, stack, parent, cur);
      OnStack(inputs, main, visited, stack, parent, cur);
      FewerUnvisited(inputs, main, visited, cur);
      ghost var before, recorded := visited, parent;
      AheadOn(inputs, main, visited, stack, cur);
      RecordedVisited(inputs, main, visited, stack + [cur], parent);
      visited := visited + [cur];
      assert forall f <- visited | f != cur :: f in before;
      stack, parent := Expand(inputs, main, visited, stack, parent, cur);
      FirstImportersOn(inputs, before, cur, recorded, parent);
    }
    WalkDone(inputs, main, visited);
    AllReached(inputs, main, visited, parent);
    WalkKept(inputs, main, visited, parent);
  }

  lemma NoImporters(inputs: Inputs)
    ensures FirstImporters(inputs, [], map[])
  {
  }

  lemma RecordedVisited(inputs: Inputs, main: File, visited: seq<File>, stack: seq<File>, parent: map<File, File>)
    requires Walking(inputs, main, visited, stack, parent)
    ensures forall f <- parent :: parent[f] in visited
  {
  }

  lemma WalkDone(inputs: Inputs, main: File, visited: seq<File>)
    requires Ahead(inputs, main, visited, [])
    ensures main in Files(inputs, main) && visited == DepthFirst(inputs, main, [main], [])
  {
  }

  lemma WalkBegins(inputs: Inputs, main: File)
    ensures Walking(inputs, main, [], [main], map[]) && AllFollowed(inputs, [], [main])
  {
    hide Reaches;
    ReachesSelf(Static(inputs), main);
  }

  lemma OnStack(inputs: Inputs, main: File, visited: seq<File>, stack: seq<File>, parent: map<File, File>, cur: File)
    requires Walking(inputs, main, visited + [cur], stack, parent)
    ensures cur in Files(inputs, main)
  {
    assert cur in visited + [cur];
  }

  lemma WalkKept(inputs: Inputs, main: File, visited: seq<File>, parent: map<File, File>)
    requires Walking(inputs, main, visited, [], parent)
    ensures Distinct(visited) && Recorded(inputs, main, visited, parent)
  {
  }

  /** The inner loop: what `cur`, just visited, imports. */
  method Expand(inputs: Inputs, main: File, visited: seq<File>, before: seq<File>, recorded: map<File, File>, cur: File)
    returns (stack: seq<File>, parent: map<File, File>)
    requires cur in visited && Walking(inputs, main, visited, before, recorded)
    requires forall f <- visited | f != cur :: Followed(inputs, f, visited, before)
    ensures Walking(inputs, main, visited, stack, parent) && AllFollowed(inputs, visited, stack)
    ensures stack == before + Without(AllEagerPaths(inputs, cur), visited)
    ensures RecordsOn(inputs, cur, recorded, parent)
  {
    hide Walking, Followed, AllFollowed, Files, Reaches, ImportsStatically, Static, Without, EagerPaths, Pushed;
    stack, parent := before, recorded;
    var imports := ImportsOf(inputs, cur);
    PushedNone(inputs, cur, visited, before, recorded);
    for k := 0 to |imports|
      invariant Walking(inputs, main, visited, stack, parent)
      invariant stack == before + Without(EagerPaths(inputs, cur, k), visited)
      invariant Pushed(inputs, cur, k, visited, stack, recorded, parent)
    {
      var imp := imports[k];
      PushedMore(inputs, main, cur, k, visited, stack, recorded, parent);
      assert stack + [] == stack;
      if !Eager(imp) {
        continue;
      }
      if imp.path !in parent {
        parent := parent[imp.path := cur];
      }
      if imp.path !in visited {
        stack := stack + [imp.path];
      }
    }
    PushedAll(inputs, cur, visited, before, stack, recorded, parent);
  }

  /** Of the first `k` imports of `cur`, each eager one is visited or waiting, and recorded. */
  ghost predicate Pushed(inputs: Inputs, cur: File, k: nat, visited: seq<File>, stack: seq<File>,
                         recorded: map<File, File>, parent: map<File, File>)
    requires k <= |ImportsOf(inputs, cur)|
  {
    && (forall f <- recorded :: f in parent && parent[f] == recorded[f])
    && (forall f <- parent :: f in recorded || parent[f] == cur)
    && (forall imp <- ImportsOf(inputs, cur)[..k] | Eager(imp) ::
          imp.path in parent && (imp.path in visited || imp.path in stack))
  }

  lemma PushedNone(inputs: Inputs, cur: File, visited: seq<File>, stack: seq<File>, recorded: map<File, File>)
    ensures Pushed(inputs, cur, 0, visited, stack, recorded, recorded)
    ensures stack == stack + Without(EagerPaths(inputs, cur, 0), visited)
  {
  }

  /** One import more. */
  lemma PushedMore(inputs: Inputs, main: File, cur: File, k: nat, visited: seq<File>, stack: seq<File>,
                   recorded: map<File, File>, parent: map<File, File>)
    requires k < |ImportsOf(inputs, cur)| && cur in visited && Walking(inputs, main, visited, stack, parent)
    requires Pushed(inputs, cur, k, visited, stack, recorded, parent)
    ensures var imp := ImportsOf(inputs, cur)[k];
      var parent' := if Eager(imp) && imp.path !in parent then parent[imp.path := cur] else parent;
      var more := if Eager(imp) && imp.path !in visited then [imp.path] else [];
      && Walking(inputs, main, visited, stack + more, parent')
      && Pushed(inputs, cur, k + 1, visited, stack + more, recorded, parent')
      && Without(EagerPaths(inputs, cur, k + 1), visited) == Without(EagerPaths(inputs, cur, k), visited) + more
  {
    hide Walking, Pushed, EagerPaths, Without, ImportsStatically;
    var imp := ImportsOf(inputs, cur)[k];
    WithoutOneMore(inputs, cur, k, visited);
    PushedOneMore(inputs, cur, k, visited, stack, recorded, parent);
    assert stack + [] == stack;
    if Eager(imp) {
      ImportedHere(inputs, cur, k);
      WalkingRecords(inputs, main, cur, visited, stack, parent, imp.path);
      if imp.path !in visited {
        WalkingPushes(inputs, main, cur, visited, stack,
                      if imp.path !in parent then parent[imp.path := cur] else parent, imp.path);
      }
    }
  }

  lemma ImportedHere(inputs: Inputs, cur: File, k: nat)
    requires k < |ImportsOf(inputs, cur)| && Eager(ImportsOf(inputs, cur)[k])
    ensures ImportsStatically(inputs, cur, ImportsOf(inputs, cur)[k].path)
  {
    assert ImportsOf(inputs, cur)[k] in ImportsOf(inputs, cur);
  }

  lemma WithoutOneMore(inputs: Inputs, cur: File, k: nat, visited: seq<File>)
    requires k < |ImportsOf(inputs, cur)|
    ensures var imp := ImportsOf(inputs, cur)[k];
      Without(EagerPaths(inputs, cur, k + 1), visited)
      == Without(EagerPaths(inputs, cur, k), visited) + if Eager(imp) && imp.path !in visited then [imp.path] else []
  {
    hide Without;
    var before, imp := EagerPaths(inputs, cur, k), ImportsOf(inputs, cur)[k];
    WithoutMore(before, imp.path, visited);
    assert !Eager(imp) ==> EagerPaths(inputs, cur, k + 1) == before;
    assert Without(before, visited) + [] == Without(before, visited);
  }

  lemma PushedOneMore(inputs: Inputs, cur: File, k: nat, visited: seq<File>, stack: seq<File>,
                      recorded: map<File, File>, parent: map<File, File>)
    requires k < |ImportsOf(inputs, cur)| && Pushed(inputs, cur, k, visited, stack, recorded, parent)
    ensures var imp := ImportsOf(inputs, cur)[k];
      var parent' := if Eager(imp) && imp.path !in parent then parent[imp.path := cur] else parent;
      Pushed(inputs, cur, k + 1, visited, stack + if Eager(imp) && imp.path !in visited then [imp.path] else [], recorded,
             parent')
  {
    var imports := ImportsOf(inputs, cur);
    var imp := imports[k];
    var parent' := if Eager(imp) && imp.path !in parent then parent[imp.path := cur] else parent;
    var stack' := stack + if Eager(imp) && imp.path !in visited then [imp.path] else [];
    assert imports[..k + 1] == imports[..k] + [imp];
    assert forall f <- stack :: f in stack';
    assert Eager(imp) && imp.path !in visited ==> stack'[|stack|] == imp.path;
  }

  lemma WalkingRecords(inputs: Inputs, main: File, cur: File, visited: seq<File>, stack: seq<File>,
                       parent: map<File, File>, path: File)
    requires cur in visited && Walking(inputs, main, visited, stack, parent) && ImportsStatically(inputs, cur, path)
    ensures var parent' := if path !in parent then parent[path := cur] else parent;
      path in parent' && Walking(inputs, main, visited, stack, parent')
  {
    hide Reaches, Distinct, ImportsStatically, Files, Static;
  }

  lemma WalkingPushes(inputs: Inputs, main: File, cur: File, visited: seq<File>, stack: seq<File>,
                      parent: map<File, File>, path: File)
    requires cur in visited && Walking(inputs, main, visited, stack, parent) && ImportsStatically(inputs, cur, path)
    requires path in parent
    ensures Walking(inputs, main, visited, stack + [path], parent)
  {
    StaticIs(inputs, cur, path);
    PathsImported(inputs, main, cur, path);
    hide Reaches, Distinct, ImportsStatically, Files, Static, Recorded, AllEagerPaths;
    ReachesOn(Static(inputs), main, cur, path);
    assert forall f :: f in stack + [path] <==> f in stack || f == path;
  }

  lemma StaticIs(inputs: Inputs, cur: File, path: File)
    ensures Static(inputs)(cur, path) <==> ImportsStatically(inputs, cur, path)
  {
  }

  lemma PushedAll(inputs: Inputs, cur: File, visited: seq<File>, before: seq<File>, stack: seq<File>,
                  recorded: map<File, File>, parent: map<File, File>)
    requires Pushed(inputs, cur, |ImportsOf(inputs, cur)|, visited, stack, recorded, parent) && before <= stack
    requires cur in visited && forall f <- visited | f != cur :: Followed(inputs, f, visited, before)
    ensures RecordsOn(inputs, cur, recorded, parent) && AllFollowed(inputs, visited, stack)
  {
    var imports := ImportsOf(inputs, cur);
    assert imports[..|imports|] == imports;
    assert forall f <- before :: f in stack;
  }

  // ---------------------------------------------------------------- how a file came to be loaded

  /** `chain` goes from file to recorded importer, each an import really made, and ends at the entry. */
  ghost predicate LeadsToEntry(inputs: Inputs, main: File, parent: map<File, File>, chain: seq<File>) {
    if |chain| <= 1 then chain == [main]
    else
      && chain[0] in parent && parent[chain[0]] == chain[1] && ImportsStatically(inputs, chain[1], chain[0])
      && LeadsToEntry(inputs, main, parent, chain[1..])
  }

  /** Following the recorded importers from any file loaded comes to the entry, in no more steps than files visited before
      it — though imports may run in circles. */
  lemma {:induction false} ImportersLeadToEntry(inputs: Inputs, main: File, visited: seq<File>, parent: map<File, File>,
                                                i: nat) returns (chain: seq<File>)
    requires Recorded(inputs, main, visited, parent) && i < |visited|
    ensures 1 <= |chain| <= i + 1 && chain[0] == visited[i] && LeadsToEntry(inputs, main, parent, chain)
  {
    if visited[i] == main {
      chain := [main];
    } else {
      var j := ImporterVisited(inputs, main, visited, parent, i);
      hide ImportsStatically, Recorded;
      var rest := ImportersLeadToEntry(inputs, main, visited, parent, j);
      chain := [visited[i]] + rest;
      assert chain[1..] == rest;
    }
  }

  lemma ImporterVisited(inputs: Inputs, main: File, visited: seq<File>, parent: map<File, File>, i: nat) returns (j: nat)
    requires Recorded(inputs, main, visited, parent) && i < |visited| && visited[i] != main
    ensures j < i && visited[i] in parent && parent[visited[i]] == visited[j]
    ensures ImportsStatically(inputs, visited[j], visited[i])
  {
    hide ImportsStatically;
    assert parent[visited[i]] in visited[..i];
    j :| 0 <= j < i && visited[j] == parent[visited[i]];
  }

  datatype Violation = Violation(file: File, pattern: string, importer: Option<File>)

  type Pattern = (string, File -> bool)

  /** The first forbidden pattern a file matches. */
  function Hit(forbidden: seq<Pattern>, file: File): (hit: Option<string>)
    ensures hit.Some? <==> exists p <- forbidden :: p.1(file)
    ensures hit.Some? ==> exists i: nat :: FirstMatch(forbidden, file, i) && forbidden[i].0 == hit.value
  {
    if forbidden == [] then None
    else if forbidden[0].1(file) then
      assert FirstMatch(forbidden, file, 0);
      Some(forbidden[0].0)
    else
      assert forall p :: p in forbidden <==> p == forbidden[0] || p in forbidden[1..];
      assert forall i: nat :: FirstMatch(forbidden[1..], file, i) ==> FirstMatch(forbidden, file, i + 1);
      Hit(forbidden[1..], file)
  }

  ghost predicate FirstMatch(forbidden: seq<Pattern>, file: File, i: nat) {
    i < |forbidden| && forbidden[i].1(file) && forall j | 0 <= j < i :: !forbidden[j].1(file)
  }

  /** The files a forbidden pattern matches, in order. */
  function Forbidden(eager: seq<File>, forbidden: seq<Pattern>): (files: seq<File>)
    ensures forall f :: f in files <==> f in eager && Hit(forbidden, f).Some?
  {
    if eager == [] then []
    else
      var last := |eager| - 1;
      assert forall f :: f in eager <==> f in eager[..last] || f == eager[last];
      Forbidden(eager[..last], forbidden) + if Hit(forbidden, eager[last]).Some? then [eager[last]] else []
  }

  /** They keep their order, each as often as it was there. */
  lemma {:induction false} ForbiddenBoth(a: seq<File>, b: seq<File>, forbidden: seq<Pattern>)
    ensures Forbidden(a + b, forbidden) == Forbidden(a, forbidden) + Forbidden(b, forbidden)
  {
    hide Hit;
    if b == [] {
      assert a + b == a;
    } else {
      var last := |b| - 1;
      assert (a + b)[..|a + b| - 1] == a + b[..last];
      ForbiddenBoth(a, b[..last], forbidden);
    }
  }

  /** `findViolations` over the files in the order they were visited: one for each forbidden file, naming the importer
      recorded for it, none recorded being the entry. */
  method FindViolations(eager: seq<File>, parent: map<File, File>, forbidden: seq<Pattern>)
    returns (violations: seq<Violation>)
    ensures |violations| == |Forbidden(eager, forbidden)|
    ensures forall i | 0 <= i < |violations| ::
              var f := Forbidden(eager, forbidden)[i];
              Hit(forbidden, f).Some? && violations[i] == Violation(f, Hit(forbidden, f).value, Lookup(parent, f))
  {
    violations := [];
    for i := 0 to |eager|
      invariant |violations| == |Forbidden(eager[..i], forbidden)|
      invariant forall j | 0 <= j < |violations| ::
                  var f := Forbidden(eager[..i], forbidden)[j];
                  Hit(forbidden, f).Some? && violations[j] == Violation(f, Hit(forbidden, f).value, Lookup(parent, f))
    {
      assert eager[..i + 1][..i] == eager[..i];
      var hit := Hit(forbidden, eager[i]);
      if hit.Some? {
        violations := violations + [Violation(eager[i], hit.value, Lookup(parent, eager[i]))];
      }
    }
    assert eager[..|eager|] == eager;
  }

  /** A bundle's check: it reports a file exactly when the entry reaches a forbidden one over static imports, and names
      for each but the entry a file that is loaded too and imports it. */
  method Check(inputs: Inputs, main: File, forbidden: seq<Pattern>) returns (violations: seq<Violation>)
    ensures forall f :: (exists v <- violations :: v.file == f)
                   <==> Reaches(Static(inputs), main, f) && exists p <- forbidden :: p.1(f)
    ensures forall v <- violations | v.file != main ::
              && v.importer.Some? && Reaches(Static(inputs), main, v.importer.value)
              && ImportsStatically(inputs, v.importer.value, v.file)
  {
    hide Reaches, ImportsStatically, Hit, Forbidden;
    var eager, parent := ComputeEagerFiles(inputs, main);
    violations := FindViolations(eager, parent, forbidden);
    var files := Forbidden(eager, forbidden);
    forall f ensures (exists v <- violations :: v.file == f) <==> f in files {
      if f in files {
        var i :| 0 <= i < |files| && files[i] == f;
        assert violations[i] in violations;
      }
    }
  }
}
