/**
 The package-layer table of one project and the search for a cycle in it. A path is its segments, and a unit is a
 path below the project's source root.
 */
module LayerCycle {
  import opened Prelude

  type Path = seq<string>
  type Unit = Path

  /** `keys` are the table's keys in the order they are written, `layers` the units each may import. */
  datatype Project = Project(
    name: string,
    root: Path,
    kernel: Option<Unit>,
    specSupport: Option<Unit>,
    keys: seq<Unit>,
    layers: map<Unit, seq<Unit>>)
  {
    /** The keys written are the table's keys. */
    ghost predicate Valid() {
      forall u :: u in keys <==> u in layers
    }

    /** What `unit` may import: what the table lists for it, and the kernel, which all but the kernel may. */
    function Edges(unit: Unit): seq<Unit> {
      (if unit in layers then layers[unit] else [])
      + (if kernel.Some? && unit != kernel.value then [kernel.value] else [])
    }

    /** Every unit the table names. */
    ghost function Units(): set<Unit> {
      layers.Keys
      + (set u, i | u in layers && 0 <= i < |layers[u]| :: layers[u][i])
      + (if kernel.Some? then {kernel.value} else {})
    }
  }

  /** Each unit may import the next. */
  ghost predicate Walk(p: Project, walk: seq<Unit>) {
    forall i, j | 0 <= i < |walk| - 1 && j == i + 1 :: walk[j] in p.Edges(walk[i])
  }

  /** A walk along the table's edges that ends where it began. */
  ghost predicate ClosedWalk(p: Project, walk: seq<Unit>) {
    && 2 <= |walk|
    && walk[0] == walk[|walk| - 1]
    && Walk(p, walk)
  }

  /** Each unit in `order` comes after every unit it may import. */
  ghost predicate Topological(p: Project, order: seq<Unit>) {
    forall k, v | 0 <= k < |order| && v in p.Edges(order[k]) :: v in order[..k]
  }

  lemma EdgesStayInUnits(p: Project, unit: Unit)
    ensures forall v :: v in p.Edges(unit) ==> v in p.Units()
  {
  }

  /** A table whose kernel comes first and imports nothing, each other unit after every one it lists, is in order: the
      kernel's own edges add no cycle to a table without one. */
  lemma KernelFirst(p: Project, order: seq<Unit>)
    requires forall k, v | 0 <= k < |order| && order[k] in p.layers && v in p.layers[order[k]] :: v in order[..k]
    requires p.kernel.Some? ==> order != [] && order[0] == p.kernel.value
    ensures Topological(p, order)
  {
    forall k, v | 0 <= k < |order| && v in p.Edges(order[k]) ensures v in order[..k] {
      if p.kernel == Some(v) && order[k] != v {
        assert order[..k][0] == v;
      }
    }
  }

  // ---------------------------------------------------------------- an order leaves no cycle

  /** Where `u` stands in `order`. */
  ghost function Place(order: seq<Unit>, u: Unit): nat
    requires u in order
    ensures Place(order, u) < |order| && order[Place(order, u)] == u
    ensures u !in order[..Place(order, u)]
  {
    if order[0] == u then 0
    else
      assert u in order[1..];
      var k := 1 + Place(order[1..], u);
      assert order[..k] == [order[0]] + order[1..][..k - 1];
      k
  }

  lemma EdgesGoDown(p: Project, order: seq<Unit>, u: Unit, v: Unit)
    requires Topological(p, order) && u in order && v in p.Edges(u)
    ensures v in order && Place(order, v) < Place(order, u)
  {
    var k := Place(order, u);
    assert v in order[..k];
    var i :| 0 <= i < k && order[i] == v;
    assert Place(order, v) <= i || v in order[..Place(order, v)];
  }

  lemma {:induction false} WalksGoDown(p: Project, order: seq<Unit>, walk: seq<Unit>, k: nat)
    requires Topological(p, order) && k < |walk| && walk[0] in order
    requires Walk(p, walk)
    ensures walk[k] in order && Place(order, walk[k]) + k <= Place(order, walk[0])
  {
    if 0 < k {
      WalksGoDown(p, order, walk, k - 1);
      EdgesGoDown(p, order, walk[k - 1], walk[k - 1 + 1]);
    }
  }

  /** A table whose keys all stand in a topological order has no closed walk, not even through units it does not
      declare. */
  lemma OrderedMeansAcyclic(p: Project, order: seq<Unit>, walk: seq<Unit>)
    requires p.Valid() && Topological(p, order) && (forall u :: u in p.keys ==> u in order)
    ensures !ClosedWalk(p, walk)
  {
    if ClosedWalk(p, walk) {
      var n := |walk| - 1;
      if walk[0] in order {
        WalksGoDown(p, order, walk, n);
      } else {
        // An undeclared unit's only edge is to the kernel, so the walk goes on from the kernel.
        assert walk[0 + 1] in p.Edges(walk[0]);
        assert walk[1] == p.kernel.value != walk[0];
        assert walk[1 + 1] in p.Edges(walk[1]);
        var rest := walk[1..];
        assert Walk(p, rest);
        WalksGoDown(p, order, rest, n - 1);
      }
    }
  }

  // ---------------------------------------------------------------- the search

  datatype Colour = Open | Done

  /** The open units are the stack's, each an edge on from the one below; the done ones stand in a topological order. */
  ghost predicate SearchOk(p: Project, state: map<Unit, Colour>, stack: seq<Unit>, order: seq<Unit>) {
    && (forall u :: u in stack <==> u in state && state[u] == Open)
    && (forall u :: u in order <==> u in state && state[u] == Done)
    && (forall i, j | 0 <= i < j < |stack| :: stack[i] != stack[j])
    && Walk(p, stack)
    && Topological(p, order)
    && state.Keys <= p.Units()
  }

  /** The state `layerCycle`'s inner `visit` closes over: each unit's colour, and the units open, outermost first. */
  class Search {
    const project: Project
    var state: map<Unit, Colour>
    var stack: seq<Unit>
    /** The units done, in the order they were finished. */
    ghost var order: seq<Unit>

    constructor (project: Project)
      ensures this.project == project && Valid() && stack == [] && order == [] && state == map[]
    {
      this.project := project;
      state, stack, order := map[], [], [];
    }

    ghost predicate Valid()
      reads this
    {
      SearchOk(project, state, stack, order)
    }

    /** `stack.indexOf(unit)`. */
    method IndexOf(unit: Unit) returns (at: nat)
      requires unit in stack
      ensures at < |stack| && stack[at] == unit
    {
      at := 0;
      while stack[at] != unit
        invariant at < |stack| && unit in stack[at..]
        decreases |stack| - at
      {
        at := at + 1;
      }
    }

    method Enter(unit: Unit)
      requires Valid() && unit in project.Units() && unit !in state
      requires stack != [] ==> unit in project.Edges(stack[|stack| - 1])
      modifies this
      ensures Valid() && stack == old(stack) + [unit] && state == old(state)[unit := Open] && order == old(order)
    {
      Entered(project, state, stack, order, unit);
      state := state[unit := Open];
      stack := stack + [unit];
    }

    method Leave(unit: Unit)
      requires Valid() && stack != [] && stack[|stack| - 1] == unit && AllDone(state, project.Edges(unit))
      modifies this
      ensures Valid() && stack == old(stack)[..|old(stack)| - 1] && state == old(state)[unit := Done]
      ensures order == old(order) + [unit]
    {
      Finished(project, state, stack, order, unit);
      stack := stack[..|stack| - 1];
      state := state[unit := Done];
      order := order + [unit];
    }

    method Visit(unit: Unit) returns (cycle: Option<seq<Unit>>)
      requires Valid() && unit in project.Units()
      requires stack != [] ==> unit in project.Edges(stack[|stack| - 1])
      modifies this
      ensures cycle.Some? ==> ClosedWalk(project, cycle.value)
      ensures cycle.None? ==> Valid() && stack == old(stack) && AllDone(state, [unit]) && Grew(old(state), state)
      decreases |project.Units() - state.Keys|, 0
    {
      hide SearchOk, ClosedWalk, Project.Units, Project.Edges;
      if unit in state {
        if state[unit] == Done {
          return None;
        }
        OpenStands(project, state, stack, order, unit);
        var at := IndexOf(unit);
        StackCloses(project, state, stack, order, unit, at);
        return Some(stack[at..] + [unit]);
      }
      Enter(unit);
      EdgesStayInUnits(project, unit);
      ShrinksBy(project.Units(), old(state).Keys, state.Keys, unit);
      cycle := VisitAll(project.Edges(unit), unit);
      if cycle.None? {
        Leave(unit);
      }
    }

    /** The loop of a visit, over edges of the unit just opened. */
    method VisitAll(units: seq<Unit>, unit: Unit) returns (cycle: Option<seq<Unit>>)
      requires Valid() && stack != [] && stack[|stack| - 1] == unit
      requires forall i | 0 <= i < |units| :: units[i] in project.Units() && units[i] in project.Edges(unit)
      modifies this
      ensures cycle.Some? ==> ClosedWalk(project, cycle.value)
      ensures cycle.None? ==> Valid() && stack == old(stack) && AllDone(state, units) && Grew(old(state), state)
      decreases |project.Units() - state.Keys|, 1
    {
      hide SearchOk, ClosedWalk, Project.Units, Project.Edges, Grew, AllDone;
      NoneDone(state);
      assert units[..0] == [];
      for i := 0 to |units|
        invariant Valid() && stack == old(stack) && Ran(old(state), state, units[..i])
      {
        ghost var earlier := state;
        RanFurther(project.Units(), old(state), state, units[..i]);
        cycle := Visit(units[i]);
        if cycle.Some? {
          return;
        }
        MoreDone(old(state), earlier, state, units, i);
      }
      assert units[..|units|] == units;
      RanDone(old(state), state, units);
      return None;
    }
  }

  /** Units once done stay so, and none is forgotten. */
  ghost predicate Grew(before: map<Unit, Colour>, now: map<Unit, Colour>) {
    forall u <- before :: u in now && (before[u] == Done ==> now[u] == Done)
  }

  ghost predicate AllDone(state: map<Unit, Colour>, units: seq<Unit>) {
    forall u <- units :: u in state && state[u] == Done
  }

  /** How far a loop over `units` has come. */
  ghost predicate Ran(before: map<Unit, Colour>, now: map<Unit, Colour>, units: seq<Unit>) {
    Grew(before, now) && AllDone(now, units)
  }

  lemma NoneDone(state: map<Unit, Colour>)
    ensures Ran(state, state, [])
  {
  }

  lemma MoreDone(first: map<Unit, Colour>, before: map<Unit, Colour>, now: map<Unit, Colour>, units: seq<Unit>, i: nat)
    requires i < |units| && Ran(first, before, units[..i]) && Grew(before, now) && AllDone(now, [units[i]])
    ensures Ran(first, now, units[..i + 1])
  {
    assert units[i] in [units[i]];
    assert units[..i + 1] == units[..i] + [units[i]];
  }

  lemma RanFurther(all: set<Unit>, before: map<Unit, Colour>, now: map<Unit, Colour>, units: seq<Unit>)
    requires Ran(before, now, units)
    ensures |all - now.Keys| <= |all - before.Keys|
  {
    assert forall u <- before.Keys :: u in now.Keys;
    Smaller(all - now.Keys, all - before.Keys);
  }

  lemma RanDone(before: map<Unit, Colour>, now: map<Unit, Colour>, units: seq<Unit>)
    requires Ran(before, now, units)
    ensures Grew(before, now) && AllDone(now, units)
  {
  }

  lemma ShrinksBy(all: set<Unit>, before: set<Unit>, now: set<Unit>, unit: Unit)
    requires unit in all && unit !in before && unit in now
    requires forall u <- before :: u in now
    ensures |all - now| < |all - before|
  {
    assert unit in all - before && unit !in all - now;
    assert (all - before) == (all - now) + ((all - before) - (all - now));
  }

  lemma OpenStands(p: Project, state: map<Unit, Colour>, stack: seq<Unit>, order: seq<Unit>, unit: Unit)
    requires SearchOk(p, state, stack, order) && unit in state && state[unit] == Open
    ensures unit in stack
  {
  }

  lemma Entered(p: Project, state: map<Unit, Colour>, stack: seq<Unit>, order: seq<Unit>, unit: Unit)
    requires SearchOk(p, state, stack, order) && unit in p.Units() && unit !in state
    requires stack != [] ==> unit in p.Edges(stack[|stack| - 1])
    ensures SearchOk(p, state[unit := Open], stack + [unit], order)
  {
    hide Project.Edges, Project.Units;
  }

  /** Finishing a unit after everything it may import keeps the order topological. */
  lemma Finished(p: Project, state: map<Unit, Colour>, stack: seq<Unit>, order: seq<Unit>, unit: Unit)
    requires SearchOk(p, state, stack, order) && stack != [] && stack[|stack| - 1] == unit
    requires AllDone(state, p.Edges(unit))
    ensures SearchOk(p, state[unit := Done], stack[..|stack| - 1], order + [unit])
  {
    hide Project.Edges, Project.Units;
    assert stack == stack[..|stack| - 1] + [unit];
    assert unit !in stack[..|stack| - 1];
    forall k, v | 0 <= k < |order| + 1 && v in p.Edges((order + [unit])[k]) ensures v in (order + [unit])[..k] {
      if k < |order| {
        assert (order + [unit])[..k] == order[..k];
      } else {
        assert (order + [unit])[..k] == order;
      }
    }
  }

  /** An edge back to an open unit closes a walk along the stack. */
  lemma StackCloses(p: Project, state: map<Unit, Colour>, stack: seq<Unit>, order: seq<Unit>, unit: Unit, at: nat)
    requires SearchOk(p, state, stack, order) && at < |stack| && stack[at] == unit
    requires unit in p.Edges(stack[|stack| - 1])
    ensures ClosedWalk(p, stack[at..] + [unit])
  {
    var walk := stack[at..] + [unit];
    forall i, j | 0 <= i < |walk| - 1 && j == i + 1 ensures walk[j] in p.Edges(walk[i]) {
      if i < |walk| - 2 { assert stack[at + j] in p.Edges(stack[at + i]); }
    }
  }

  /** `layerCycle`: a closed walk of the table's edges, or none exactly when there is none; then the units stand in a
      topological order. */
  method FindCycle(project: Project) returns (cycle: Option<seq<Unit>>, ghost order: seq<Unit>)
    requires project.Valid()
    ensures cycle.Some? ==> ClosedWalk(project, cycle.value)
    ensures cycle.None? <==> !exists walk :: ClosedWalk(project, walk)
    ensures cycle.None? ==> Topological(project, order) && forall u :: u in project.keys ==> u in order
  {
    hide SearchOk, ClosedWalk, Grew, AllDone;
    var search := new Search(project);
    order := [];
    NoneDone(search.state);
    assert project.keys[..0] == [];
    ghost var first := search.state;
    for i := 0 to |project.keys|
      invariant search.Valid() && search.project == project && search.stack == []
      invariant Ran(first, search.state, project.keys[..i])
    {
      ghost var earlier := search.state;
      KeysAreUnits(project, i);
      cycle := search.Visit(project.keys[i]);
      if cycle.Some? {
        return;
      }
      MoreDone(first, earlier, search.state, project.keys, i);
    }
    order := search.order;
    assert project.keys[..|project.keys|] == project.keys;
    RanDone(first, search.state, project.keys);
    cycle := None;
    DoneInOrder(project, search.state, search.stack, order);
    forall walk ensures !ClosedWalk(project, walk) { OrderedMeansAcyclic(project, order, walk); }
  }

  lemma KeysAreUnits(p: Project, i: nat)
    requires p.Valid() && i < |p.keys|
    ensures p.keys[i] in p.Units()
  {
    assert p.keys[i] in p.keys;
  }

  lemma DoneInOrder(p: Project, state: map<Unit, Colour>, stack: seq<Unit>, order: seq<Unit>)
    requires SearchOk(p, state, stack, order) && AllDone(state, p.keys)
    ensures Topological(p, order) && forall u :: u in p.keys ==> u in order
  {
  }
}
