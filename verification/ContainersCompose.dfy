/** The containers-compose sweep's two searches: the query-bearing helpers, and what a `computed()` callback derives. */
module ContainersCompose {
  import opened Prelude
  import opened Reach

  const TANSTACK_INJECTORS: set<string> := {
    "injectQuery", "injectMutation", "injectMutationState", "injectInfiniteQuery", "injectQueries", "injectQueryClient"
  }

  /** A top-level function, or constant holding one: its name and the identifiers its body calls bare. */
  datatype Declared = Declared(name: string, calls: set<string>)

  predicate IsHelper(d: Declared) {
    "inject" <= d.name
  }

  /** `name` is a helper whose body calls `callee`. */
  ghost predicate Calls(decls: seq<Declared>, name: string, callee: string) {
    exists d <- decls :: "inject" <= d.name && d.name == name && callee in d.calls
  }

  ghost function Calling(decls: seq<Declared>): (string, string) -> bool {
    (name, callee) => Calls(decls, name, callee)
  }

  /** `name` is an injector, or calls one through helpers. */
  ghost predicate BearsQuery(decls: seq<Declared>, name: string) {
    exists injector <- TANSTACK_INJECTORS :: Reaches(Calling(decls), name, injector)
  }

  /** The calls recorded by helper, those of one name together; `names` keeps the order the map was filled in. */
  method Record(decls: seq<Declared>) returns (callsByHelper: map<string, set<string>>, names: seq<string>)
    ensures forall name :: name in callsByHelper <==> name in names
    ensures forall name <- callsByHelper, callee :: callee in callsByHelper[name] <==> Calls(decls, name, callee)
    ensures forall name, callee | Calls(decls, name, callee) :: name in callsByHelper
  {
    hide Calls;
    callsByHelper, names := map[], [];
    CallsNone();
    assert decls[..0] == [];
    for i := 0 to |decls|
      invariant forall name :: name in callsByHelper <==> name in names
      invariant forall name <- callsByHelper, callee :: callee in callsByHelper[name] <==> Calls(decls[..i], name, callee)
      invariant forall name, callee | Calls(decls[..i], name, callee) :: name in callsByHelper
    {
      var d := decls[i];
      CallsMore(decls, i);
      if IsHelper(d) {
        if d.name !in callsByHelper {
          names := names + [d.name];
        }
        var calls := if d.name in callsByHelper then callsByHelper[d.name] else {};
        callsByHelper := callsByHelper[d.name := calls + d.calls];
      }
      ghost var upTo := decls[..i + 1];
      forall name, callee | Calls(upTo, name, callee) ensures name in callsByHelper {
        assert Calls(decls[..i], name, callee) || name == d.name;
      }
      forall name, callee | name in callsByHelper
        ensures callee in callsByHelper[name] <==> Calls(upTo, name, callee)
      {
        assert Calls(upTo, name, callee)
          <==> Calls(decls[..i], name, callee) || (IsHelper(d) && d.name == name && callee in d.calls);
      }
    }
    assert decls[..|decls|] == decls;
  }

  lemma CallsNone()
    ensures forall name, callee :: !Calls([], name, callee)
  {
  }

  lemma CallsMore(decls: seq<Declared>, i: nat)
    requires i < |decls|
    ensures forall name, callee ::
              Calls(decls[..i + 1], name, callee)
              <==> Calls(decls[..i], name, callee)
                   || (IsHelper(decls[i]) && decls[i].name == name && callee in decls[i].calls)
  {
    forall name, callee
      ensures Calls(decls[..i + 1], name, callee)
         <==> Calls(decls[..i], name, callee)
              || (IsHelper(decls[i]) && decls[i].name == name && callee in decls[i].calls)
    {
      assert forall d :: d in decls[..i + 1] <==> d in decls[..i] || d == decls[i];
    }
  }

  /** `queryBearingHelpers`: exactly the names that are injectors or call one through helpers — so in whatever order the
      declarations are read. */
  method QueryBearingHelpers(decls: seq<Declared>) returns (helpers: set<string>)
    ensures forall name :: name in helpers <==> BearsQuery(decls, name)
  {
    hide Reaches, Calls, BearsQuery;
    var callsByHelper, names := Record(decls);
    helpers := TANSTACK_INJECTORS;
    InjectorsBear(decls);
    var grew := true;
    while grew
      invariant TANSTACK_INJECTORS <= helpers && forall h <- helpers :: BearsQuery(decls, h)
      invariant !grew ==> forall name <- callsByHelper :: name in helpers || callsByHelper[name] * helpers == {}
      decreases |callsByHelper.Keys - helpers|, grew
    {
      ghost var before := helpers;
      ghost var h;
      helpers, grew, h := Pass(decls, callsByHelper, names, helpers);
      if grew {
        assert callsByHelper.Keys - helpers <= callsByHelper.Keys - before - {h};
        Fewer(callsByHelper.Keys - helpers, callsByHelper.Keys - before, h);
      }
    }
    forall g, callee | Calls(decls, g, callee) && callee in helpers ensures g in helpers {
      assert callee in callsByHelper[g] * helpers;
    }
    forall name | BearsQuery(decls, name) ensures name in helpers {
      OnlyThose(decls, helpers, name);
    }
  }

  /** One pass over the helpers recorded: each that calls a member joins; `h` is one that did. */
  method Pass(decls: seq<Declared>, callsByHelper: map<string, set<string>>, names: seq<string>, before: set<string>)
    returns (helpers: set<string>, grew: bool, ghost h: string)
    requires forall name :: name in callsByHelper <==> name in names
    requires forall name <- callsByHelper, callee <- callsByHelper[name] :: Calls(decls, name, callee)
    requires forall g <- before :: BearsQuery(decls, g)
    ensures before <= helpers && forall g <- helpers :: BearsQuery(decls, g)
    ensures grew ==> h in callsByHelper && h in helpers && h !in before
    ensures !grew ==> helpers == before
    ensures !grew ==> forall name <- callsByHelper :: name in helpers || callsByHelper[name] * helpers == {}
  {
    hide Calls, BearsQuery;
    helpers, grew, h := before, false, "";
    for k := 0 to |names|
      invariant before <= helpers && forall g <- helpers :: BearsQuery(decls, g)
      invariant grew ==> h in callsByHelper && h in helpers && h !in before
      invariant !grew ==> helpers == before
      invariant !grew ==> forall j | 0 <= j < k :: names[j] in helpers || callsByHelper[names[j]] * helpers == {}
    {
      var name := names[k];
      if name !in helpers && callsByHelper[name] * helpers != {} {
        CallerBears(decls, name, callsByHelper[name], helpers);
        helpers, grew, h := helpers + {name}, true, name;
      }
    }
  }

  lemma InjectorsBear(decls: seq<Declared>)
    ensures forall injector <- TANSTACK_INJECTORS :: BearsQuery(decls, injector)
  {
    hide Reaches;
    forall injector <- TANSTACK_INJECTORS ensures BearsQuery(decls, injector) {
      ReachesSelf(Calling(decls), injector);
    }
  }

  lemma CallerBears(decls: seq<Declared>, name: string, calls: set<string>, helpers: set<string>)
    requires calls * helpers != {} && forall callee <- calls :: Calls(decls, name, callee)
    requires forall h <- helpers :: BearsQuery(decls, h)
    ensures BearsQuery(decls, name)
  {
    hide Reaches, Calls;
    var callee :| callee in calls * helpers;
    var injector :| injector in TANSTACK_INJECTORS && Reaches(Calling(decls), callee, injector);
    ReachesFirst(Calling(decls), name, callee, injector);
  }

  /** A set that holds the injectors and every helper calling one of its members misses nothing. */
  lemma OnlyThose(decls: seq<Declared>, helpers: set<string>, name: string)
    requires TANSTACK_INJECTORS <= helpers && BearsQuery(decls, name)
    requires forall h, callee | Calls(decls, h, callee) && callee in helpers :: h in helpers
    ensures name in helpers
  {
    hide Reaches, Calls;
    if name !in helpers {
      var injector :| injector in TANSTACK_INJECTORS && Reaches(Calling(decls), name, injector);
      ReachesKeeps(Calling(decls), name, injector, x => x !in helpers);
      assert false;
    }
  }
}
