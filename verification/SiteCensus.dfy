/** The census of sites that restate an invariant: checking the sites declared, and writing the sites observed. */
module SiteCensus {
  import opened Prelude
  import opened Ordering

  /** Where a span stands: its file and symbol. */
  type Key = (string, string)

  datatype Role = Owner | Allowed

  datatype Site = Site(key: Key, role: Role, reason: Option<string>)

  datatype Span = Span(key: Key, text: string)

  datatype Fact = Fact(id: string, sites: seq<Site>)

  /** Whether a fact's markers match a span's text. */
  type Matcher = (string, string) -> bool

  datatype Finding = NewSite(fact: string, key: Key) | StaleSite(fact: string, key: Key)

  // ---------------------------------------------------------------- what is declared and what is observed

  /** `{key: site}`: each key where it first stands, and the last site with it. */
  function Order(sites: seq<Site>): seq<Key> {
    if sites == [] then []
    else
      var n := |sites| - 1;
      if sites[n].key in Order(sites[..n]) then Order(sites[..n]) else Order(sites[..n]) + [sites[n].key]
  }

  function Last(sites: seq<Site>): (last: map<Key, Site>)
    ensures forall k :: k in last <==> k in Order(sites)
    ensures forall k <- last :: last[k].key == k && last[k] in sites
    ensures forall s <- sites :: s.key in last
  {
    if sites == [] then map[]
    else Last(sites[..|sites| - 1])[sites[|sites| - 1].key := sites[|sites| - 1]]
  }

  function Declared(sites: seq<Site>, role: Role): set<Key> {
    set k | k in Last(sites) && Last(sites)[k].role == role
  }

  /** The keys of the spans a fact's markers match. */
  function Matching(fact: Fact, spans: seq<Span>, matches: Matcher): set<Key> {
    set s | s in spans && matches(fact.id, s.text) :: s.key
  }

  /** `measure` passes over the keys of all owner sites; `check` over those whose last site is the owner. */
  function AnyOwner(sites: seq<Site>): set<Key> {
    set s | s in sites && s.role == Owner :: s.key
  }

  /** An owner's site whose key a later site takes for another role. */
  predicate Overridden(sites: seq<Site>, k: Key) {
    k in AnyOwner(sites) && k in Declared(sites, Allowed)
  }

  function Measured(fact: Fact, spans: seq<Span>, matches: Matcher): set<Key> {
    Matching(fact, spans, matches) - AnyOwner(fact.sites)
  }

  predicate Clean(fact: Fact, spans: seq<Span>, matches: Matcher) {
    Matching(fact, spans, matches) - Declared(fact.sites, Owner) == Declared(fact.sites, Allowed)
  }

  // ---------------------------------------------------------------- sorting keys

  predicate KeyBefore(a: Key, b: Key) {
    if a.0 != b.0 then Before(a.0, b.0) else Before(a.1, b.1)
  }

  ghost predicate Sorted(keys: seq<Key>) {
    forall i, j | 0 <= i < j < |keys| :: KeyBefore(keys[i], keys[j])
  }

  lemma KeyOrder(a: Key, b: Key, c: Key)
    ensures KeyBefore(a, b) || a == b || KeyBefore(b, a)
    ensures !(KeyBefore(a, b) && KeyBefore(b, a))
    ensures KeyBefore(a, b) && KeyBefore(b, c) ==> KeyBefore(a, c)
  {
    hide Before;
    BeforeTotal(a.0, b.0);
    BeforeTotal(a.1, b.1);
    BeforeAsymmetric(a.0, b.0);
    BeforeAsymmetric(b.0, c.0);
    BeforeAsymmetric(a.1, b.1);
    if Before(a.0, b.0) && Before(b.0, c.0) { BeforeTransitive(a.0, b.0, c.0); }
    if Before(a.1, b.1) && Before(b.1, c.1) { BeforeTransitive(a.1, b.1, c.1); }
    if Before(a.0, b.0) && Before(b.0, a.0) { BeforeAsymmetric(a.0, b.0); }
  }

  method SortKeys(keys: set<Key>) returns (sorted: seq<Key>)
    ensures Sorted(sorted) && forall k :: k in sorted <==> k in keys
  {
    sorted := [];
    var left := keys;
    while left != {}
      invariant left <= keys && Sorted(sorted) && forall k :: k in sorted <==> k in keys - left
      decreases |left|
    {
      var k :| k in left;
      left := left - {k};
      sorted := InsertKey(sorted, k);
    }
  }

  method InsertKey(sorted: seq<Key>, k: Key) returns (more: seq<Key>)
    requires Sorted(sorted) && k !in sorted
    ensures Sorted(more) && forall x :: x in more <==> x in sorted || x == k
  {
    hide KeyBefore;
    var i := 0;
    while i < |sorted| && KeyBefore(sorted[i], k)
      invariant 0 <= i <= |sorted| && forall j | 0 <= j < i :: KeyBefore(sorted[j], k)
    {
      i := i + 1;
    }
    more := sorted[..i] + [k] + sorted[i..];
    forall j | i <= j < |sorted| ensures KeyBefore(k, sorted[j]) {
      KeyOrder(sorted[i], k, k);
      KeyOrder(k, sorted[i], sorted[j]);
    }
    assert sorted == sorted[..i] + sorted[i..];
  }

  // ---------------------------------------------------------------- the operations

  /** New sites come first, and each kind in its keys' order. */
  predicate FindingBefore(a: Finding, b: Finding) {
    if a.NewSite? == b.NewSite? then KeyBefore(a.key, b.key) else a.NewSite?
  }

  /** `check`, for one fact: first the sites observed and not declared, then those declared and not observed. */
  method CheckFact(fact: Fact, spans: seq<Span>, matches: Matcher) returns (findings: seq<Finding>)
    ensures findings == [] <==> Clean(fact, spans, matches)
    ensures Finds(fact, spans, matches, findings)
  {
    hide Last, Matching, FindingBefore, Sorted, Reported;
    var owners, allowed := Declared(fact.sites, Owner), Declared(fact.sites, Allowed);
    var observed := ObservedBut(fact, spans, matches, owners);
    var newly := SortKeys(observed - allowed);
    var gone := SortKeys(allowed - observed);
    findings := Reported(newly, k => NewSite(fact.id, k)) + Reported(gone, k => StaleSite(fact.id, k));
    FoundBoth(fact.id, newly, gone, observed - allowed, allowed - observed);
    NoneApart(Matching(fact, spans, matches), owners, allowed);
  }

  /** Both kinds of findings, over sorted keys. */
  lemma FoundBoth(id: string, newly: seq<Key>, gone: seq<Key>, more: set<Key>, fewer: set<Key>)
    requires Sorted(newly) && (forall k :: k in newly <==> k in more)
    requires Sorted(gone) && (forall k :: k in gone <==> k in fewer)
    ensures var findings := Reported(newly, k => NewSite(id, k)) + Reported(gone, k => StaleSite(id, k));
      && (findings == [] <==> more == {} && fewer == {})
      && (forall f: Finding :: f in findings <==> f.fact == id && f.key in if f.NewSite? then more else fewer)
      && (forall i, j | 0 <= i < j < |findings| :: FindingBefore(findings[i], findings[j]))
  {
    hide KeyBefore;
    var a, b := Reported(newly, k => NewSite(id, k)), Reported(gone, k => StaleSite(id, k));
    assert newly != [] ==> newly[0] in more;
    assert gone != [] ==> gone[0] in fewer;
    forall f: Finding ensures f in a + b <==> f.fact == id && f.key in if f.NewSite? then more else fewer {
      if f.fact == id {
        assert f == if f.NewSite? then NewSite(id, f.key) else StaleSite(id, f.key);
      }
    }
  }

  lemma NoneSorted(sorted: seq<Key>, keys: set<Key>)
    requires forall k :: k in sorted <==> k in keys
    ensures |sorted| == 0 <==> keys == {}
  {
    assert sorted != [] ==> sorted[0] in keys;
  }

  /** The owners' keys are never allowed ones. */
  lemma NoneApart(matching: set<Key>, owners: set<Key>, allowed: set<Key>)
    requires owners !! allowed
    ensures allowed - (matching - owners) == allowed - matching
    ensures matching - owners - allowed == {} && allowed - matching == {} <==> matching - owners == allowed
  {
  }

  /** `fact` gives rise to `f`: a site matched that none declares, or one declared that nothing matches. */
  predicate Gives(fact: Fact, spans: seq<Span>, matches: Matcher, f: Finding) {
    && f.fact == fact.id
    && match f
       case NewSite(_, k) =>
         && k in Matching(fact, spans, matches)
         && k !in Declared(fact.sites, Owner) && k !in Declared(fact.sites, Allowed)
       case StaleSite(_, k) => k in Declared(fact.sites, Allowed) && k !in Matching(fact, spans, matches)
  }

  /** `found` is all `fact` gives rise to, in order and so each once. */
  ghost predicate Finds(fact: Fact, spans: seq<Span>, matches: Matcher, found: seq<Finding>) {
    && (forall f :: f in found <==> Gives(fact, spans, matches, f))
    && (forall i, j | 0 <= i < j < |found| :: FindingBefore(found[i], found[j]))
  }

  /** The findings from one place of `starts` to the next are one fact's, fact by fact. */
  ghost predicate FindsEach(facts: seq<Fact>, spans: seq<Span>, matches: Matcher, findings: seq<Finding>, starts: seq<nat>) {
    && |starts| == |facts| + 1 && starts[0] == 0 && starts[|facts|] == |findings|
    && (forall i | 0 <= i < |facts| :: FindsFrom(facts[i], spans, matches, findings, starts[i], starts[i + 1]))
  }

  ghost predicate FindsFrom(fact: Fact, spans: seq<Span>, matches: Matcher, findings: seq<Finding>, start: nat, end: nat) {
    start <= end <= |findings| && Finds(fact, spans, matches, findings[start..end])
  }

  /** `check`, over every fact of the registry: the findings of each in turn. */
  method Check(facts: seq<Fact>, spans: seq<Span>, matches: Matcher)
    returns (exitCode: int, findings: seq<Finding>, ghost starts: seq<nat>)
    ensures exitCode == (if forall f <- facts :: Clean(f, spans, matches) then 0 else 1)
    ensures findings == [] <==> exitCode == 0
    ensures forall f :: f in findings <==> exists fact <- facts :: Gives(fact, spans, matches, f)
    ensures FindsEach(facts, spans, matches, findings, starts)
  {
    hide Clean, Gives, Finds, FindsEach;
    exitCode, findings, starts := 0, [], [0];
    FindsNone(spans, matches);
    assert facts[..0] == [];
    for i := 0 to |facts|
      invariant exitCode == if forall j | 0 <= j < i :: Clean(facts[j], spans, matches) then 0 else 1
      invariant findings == [] <==> exitCode == 0
      invariant forall f :: f in findings <==> exists fact <- facts[..i] :: Gives(fact, spans, matches, f)
      invariant FindsEach(facts[..i], spans, matches, findings, starts)
    {
      var found := CheckFact(facts[i], spans, matches);
      FindsIn(facts[i], spans, matches, found);
      FindsOneMore(facts[..i], facts[i], spans, matches, findings, starts, found);
      assert facts[..i + 1] == facts[..i] + [facts[i]];
      findings, starts := findings + found, starts + [|findings + found|];
      if found != [] {
        exitCode := 1;
      }
    }
    assert facts[..|facts|] == facts;
  }

  lemma FindsNone(spans: seq<Span>, matches: Matcher)
    ensures FindsEach([], spans, matches, [], [0])
  {
  }

  lemma FindsIn(fact: Fact, spans: seq<Span>, matches: Matcher, found: seq<Finding>)
    requires Finds(fact, spans, matches, found)
    ensures forall f :: f in found <==> Gives(fact, spans, matches, f)
  {
  }

  lemma FindsOneMore(facts: seq<Fact>, fact: Fact, spans: seq<Span>, matches: Matcher, findings: seq<Finding>,
                     starts: seq<nat>, found: seq<Finding>)
    requires FindsEach(facts, spans, matches, findings, starts) && Finds(fact, spans, matches, found)
    ensures FindsEach(facts + [fact], spans, matches, findings + found, starts + [|findings + found|])
  {
    hide Finds;
    var more, ends := findings + found, starts + [|findings + found|];
    forall i | 0 <= i < |facts| + 1
      ensures FindsFrom((facts + [fact])[i], spans, matches, more, ends[i], ends[i + 1])
    {
      if i < |facts| {
        assert FindsFrom(facts[i], spans, matches, findings, starts[i], starts[i + 1]);
        assert more[ends[i]..ends[i + 1]] == findings[starts[i]..starts[i + 1]];
      } else {
        assert more[ends[i]..ends[i + 1]] == found;
      }
    }
  }

  function Reported(keys: seq<Key>, finding: Key -> Finding): (findings: seq<Finding>)
    ensures |findings| == |keys| && forall i | 0 <= i < |keys| :: findings[i] == finding(keys[i])
    ensures forall f :: f in findings <==> exists k <- keys :: f == finding(k)
  {
    var findings := seq(|keys|, i requires 0 <= i < |keys| => finding(keys[i]));
    assert forall i | 0 <= i < |keys| :: findings[i] == finding(keys[i]) && keys[i] in keys;
    findings
  }

  /** The spans' loop, passing over `owners`. */
  method ObservedBut(fact: Fact, spans: seq<Span>, matches: Matcher, owners: set<Key>) returns (observed: set<Key>)
    ensures observed == Matching(fact, spans, matches) - owners
  {
    observed := {};
    for i := 0 to |spans|
      invariant observed == Matching(fact, spans[..i], matches) - owners
    {
      assert forall s :: s in spans[..i + 1] <==> s in spans[..i] || s == spans[i];
      var key := spans[i].key;
      if key !in owners && matches(fact.id, spans[i].text) {
        observed := observed + {key};
      }
    }
    assert spans[..|spans|] == spans;
  }

  /** `measure`. */
  method Measure(facts: seq<Fact>, spans: seq<Span>, matches: Matcher) returns (observed: map<string, set<Key>>)
    requires forall i, j | 0 <= i < j < |facts| :: facts[i].id != facts[j].id
    ensures forall f <- facts :: f.id in observed && observed[f.id] == Measured(f, spans, matches)
  {
    hide Matching;
    observed := map[];
    for i := 0 to |facts|
      invariant forall j | 0 <= j < i ::
                  facts[j].id in observed && observed[facts[j].id] == Measured(facts[j], spans, matches)
    {
      var found := ObservedBut(facts[i], spans, matches, AnyOwner(facts[i].sites));
      observed := observed[facts[i].id := found];
    }
  }

  /** The declared sites a write keeps: an owner's, and those observed. */
  function Kept(order: seq<Key>, last: map<Key, Site>, found: set<Key>): (kept: seq<Site>)
    requires forall k <- order :: k in last
  {
    if order == [] then []
    else
      var n := |order| - 1;
      var k := order[n];
      if last[k].role == Owner || k in found then Kept(order[..n], last, found) + [last[k]]
      else Kept(order[..n], last, found)
  }

  lemma {:induction false} KeptMembers(order: seq<Key>, last: map<Key, Site>, found: set<Key>)
    requires forall k <- order :: k in last
    ensures forall s :: s in Kept(order, last, found)
                   <==> exists k <- order :: last[k] == s && (s.role == Owner || k in found)
  {
    if order != [] {
      var n := |order| - 1;
      KeptMembers(order[..n], last, found);
      assert forall j :: j in order <==> j in order[..n] || j == order[n];
    }
  }

  /** `sites` as a write leaves them: what it keeps, where it stood, and then what is newly observed, in order. */
  ghost predicate Written(sites: seq<Site>, found: set<Key>, written: seq<Site>) {
    var kept := Kept(Order(sites), Last(sites), found);
    && kept <= written
    && Sorted(KeysOf(written[|kept|..]))
    && (forall s <- written[|kept|..] :: s == Site(s.key, Allowed, None))
    && (forall k :: k in KeysOf(written[|kept|..]) <==> k in found && k !in Last(sites))
  }

  function KeysOf(sites: seq<Site>): (keys: seq<Key>)
    ensures |keys| == |sites| && forall i | 0 <= i < |sites| :: keys[i] == sites[i].key
  {
    seq(|sites|, i requires 0 <= i < |sites| => sites[i].key)
  }

  /** `apply_write_sites`: each fact's sites replaced in place. */
  method ApplyWriteSites(facts: array<Fact>, observed: map<string, set<Key>>)
    requires forall i | 0 <= i < facts.Length :: facts[i].id in observed
    modifies facts
    ensures forall i | 0 <= i < facts.Length ::
              && facts[i].id == old(facts[i].id)
              && Written(old(facts[i].sites), observed[facts[i].id], facts[i].sites)
  {
    hide Written;
    for i := 0 to facts.Length
      invariant forall j | i <= j < facts.Length :: facts[j] == old(facts[j])
      invariant forall j | 0 <= j < i ::
                  && facts[j].id == old(facts[j].id)
                  && Written(old(facts[j].sites), observed[facts[j].id], facts[j].sites)
    {
      var sites := WriteSites(facts[i].sites, observed[facts[i].id]);
      facts[i] := facts[i].(sites := sites);
    }
  }

  method WriteSites(sites: seq<Site>, found: set<Key>) returns (written: seq<Site>)
    ensures Written(sites, found, written)
  {
    var declared := Last(sites);
    var kept := Kept(Order(sites), declared, found);
    var newly := SortKeys(found - declared.Keys);
    var more := seq(|newly|, i requires 0 <= i < |newly| => Site(newly[i], Allowed, None));
    written := kept + more;
    assert written[|kept|..] == more && KeysOf(more) == newly;
  }

  // ---------------------------------------------------------------- what a write declares

  ghost predicate Distinct(sites: seq<Site>) {
    forall i, j | 0 <= i < j < |sites| :: sites[i].key != sites[j].key
  }

  /** Where keys are distinct, each site is the last with its key, and stands where its key first does. */
  lemma DistinctDeclared(sites: seq<Site>)
    requires Distinct(sites)
    ensures Order(sites) == KeysOf(sites)
    ensures forall i | 0 <= i < |sites| :: Last(sites)[sites[i].key] == sites[i]
  {
    hide Order, Last, Distinct;
    DistinctUpTo(sites, |sites|);
    assert sites[..|sites|] == sites && KeysOf(sites)[..|sites|] == KeysOf(sites);
  }

  ghost predicate DeclaredUpTo(sites: seq<Site>, n: nat)
    requires n <= |sites|
  {
    && Order(sites[..n]) == KeysOf(sites)[..n]
    && forall i | 0 <= i < n :: sites[i].key in Last(sites[..n]) && Last(sites[..n])[sites[i].key] == sites[i]
  }

  lemma {:induction false} DistinctUpTo(sites: seq<Site>, n: nat)
    requires Distinct(sites) && n <= |sites|
    ensures DeclaredUpTo(sites, n)
  {
    if n == 0 {
      assert sites[..0] == [] && KeysOf(sites)[..0] == [];
      DeclaredNone();
    } else {
      hide *;
      DistinctUpTo(sites, n - 1);
      DistinctNext(sites, n - 1);
    }
  }

  lemma DistinctNext(sites: seq<Site>, n: nat)
    requires Distinct(sites) && n < |sites| && DeclaredUpTo(sites, n)
    ensures DeclaredUpTo(sites, n + 1)
  {
    hide *;
    DeclaredMore(sites, n);
    NewKey(sites, n);
    NextDeclared(sites, n, Order(sites[..n]), Last(sites[..n]), Order(sites[..n + 1]), Last(sites[..n + 1]));
    DeclaredBy(sites, n + 1);
  }

  /** Keys are declared up to `n` by an order and a map, given apart. */
  ghost predicate DeclaredAs(sites: seq<Site>, n: nat, order: seq<Key>, last: map<Key, Site>) {
    && n <= |sites| && order == KeysOf(sites)[..n]
    && forall i | 0 <= i < n :: sites[i].key in last && last[sites[i].key] == sites[i]
  }

  lemma DeclaredBy(sites: seq<Site>, n: nat)
    requires n <= |sites|
    ensures DeclaredUpTo(sites, n) <==> DeclaredAs(sites, n, Order(sites[..n]), Last(sites[..n]))
  {
    hide Order, Last, KeysOf;
  }

  lemma NewKey(sites: seq<Site>, n: nat)
    requires Distinct(sites) && n < |sites| && DeclaredUpTo(sites, n)
    ensures DeclaredAs(sites, n, Order(sites[..n]), Last(sites[..n])) && sites[n].key !in Order(sites[..n])
  {
    hide Order, Last;
  }

  lemma NextDeclared(sites: seq<Site>, n: nat, order: seq<Key>, last: map<Key, Site>, order': seq<Key>,
                     last': map<Key, Site>)
    requires Distinct(sites) && n < |sites| && DeclaredAs(sites, n, order, last)
    requires order' == order + [sites[n].key] && last' == last[sites[n].key := sites[n]]
    ensures DeclaredAs(sites, n + 1, order', last')
  {
    assert KeysOf(sites)[..n + 1] == KeysOf(sites)[..n] + [sites[n].key];
  }

  lemma DeclaredNone()
    ensures Order([]) == []
  {
  }

  lemma DeclaredMore(sites: seq<Site>, n: nat)
    requires n < |sites|
    ensures var before, k := sites[..n], sites[n].key;
      && Order(sites[..n + 1]) == (if k in Order(before) then Order(before) else Order(before) + [k])
      && Last(sites[..n + 1]) == Last(before)[k := sites[n]]
  {
    assert sites[..n + 1][..n] == sites[..n];
  }

  lemma {:induction false} OrderDistinct(sites: seq<Site>)
    ensures forall i, j | 0 <= i < j < |Order(sites)| :: Order(sites)[i] != Order(sites)[j]
  {
    if sites != [] {
      OrderDistinct(sites[..|sites| - 1]);
    }
  }

  lemma {:induction false} KeptDistinct(order: seq<Key>, last: map<Key, Site>, found: set<Key>)
    requires forall k <- order :: k in last && last[k].key == k
    requires forall i, j | 0 <= i < j < |order| :: order[i] != order[j]
    ensures Distinct(Kept(order, last, found))
    ensures forall s <- Kept(order, last, found) :: s.key in order
  {
    if order != [] {
      var n := |order| - 1;
      KeptDistinct(order[..n], last, found);
      var kept := Kept(order[..n], last, found);
      assert forall i | 0 <= i < |kept| :: kept[i] in kept && kept[i].key != order[n];
    }
  }

  lemma WrittenDistinct(sites: seq<Site>, found: set<Key>, written: seq<Site>)
    requires Written(sites, found, written)
    ensures Distinct(written)
  {
    hide Order, Last, Before;
    var order, last := Order(sites), Last(sites);
    OrderDistinct(sites);
    KeptDistinct(order, last, found);
    var kept := Kept(order, last, found);
    var newly := written[|kept|..];
    assert written == kept + newly;
    forall i, j | 0 <= i < j < |written| ensures written[i].key != written[j].key {
      if i < |kept| && |kept| <= j {
        assert written[i] in kept && KeysOf(newly)[j - |kept|] in KeysOf(newly);
      } else if |kept| <= i {
        assert KeyBefore(KeysOf(newly)[i - |kept|], KeysOf(newly)[j - |kept|]);
        KeyOrder(written[i].key, written[j].key, written[j].key);
      }
    }
  }

  /** An owner's last site, and an observed key's, is kept as it was; what no owner has is declared just where it was
      observed. */
  lemma WrittenSites(sites: seq<Site>, found: set<Key>, written: seq<Site>)
    requires Written(sites, found, written)
    ensures forall s :: s in written
                   <==> || (s.key in Last(sites) && s == Last(sites)[s.key] && (s.role == Owner || s.key in found))
                        || (s.key in found && s.key !in Last(sites) && s == Site(s.key, Allowed, None))
  {
    hide Order, Last, KeyBefore, Kept;
    KeptMembers(Order(sites), Last(sites), found);
    var kept := Kept(Order(sites), Last(sites), found);
    var newly := written[|kept|..];
    assert written == kept + newly;
    forall s ensures s in newly <==> s.key in found && s.key !in Last(sites) && s == Site(s.key, Allowed, None) {
      if s.key in found && s.key !in Last(sites) && s == Site(s.key, Allowed, None) {
        var i :| 0 <= i < |newly| && KeysOf(newly)[i] == s.key;
        assert newly[i] in newly;
      }
    }
  }

  lemma DeclaredOf(sites: seq<Site>, role: Role)
    requires Distinct(sites)
    ensures forall k :: k in Declared(sites, role) <==> exists s <- sites :: s.key == k && s.role == role
  {
    hide Last, Order;
    DistinctDeclared(sites);
    forall s <- sites ensures Last(sites)[s.key] == s {
      var i :| 0 <= i < |sites| && sites[i] == s;
    }
  }

  /** Which keys a write leaves declared, and as what: the owners declared before, and all else that was observed. */
  lemma WrittenDeclares(sites: seq<Site>, found: set<Key>, written: seq<Site>)
    requires Written(sites, found, written)
    ensures Declared(written, Owner) == AnyOwner(written) == Declared(sites, Owner)
    ensures Declared(written, Allowed) == found - Declared(sites, Owner)
  {
    WrittenDistinct(sites, found, written);
    WrittenSites(sites, found, written);
    DeclaredOf(written, Owner);
    DeclaredOf(written, Allowed);
    hide Last, Order, Written, Distinct;
    OwnersWritten(sites, found, written);
    AllowedWritten(sites, found, written);
  }

  lemma OwnersWritten(sites: seq<Site>, found: set<Key>, written: seq<Site>)
    requires forall s :: s in written
                   <==> || (s.key in Last(sites) && s == Last(sites)[s.key] && (s.role == Owner || s.key in found))
                        || (s.key in found && s.key !in Last(sites) && s == Site(s.key, Allowed, None))
    ensures forall k :: (exists s <- written :: s.key == k && s.role == Owner) <==> k in Declared(sites, Owner)
  {
    hide Last;
    forall k | k in Declared(sites, Owner) ensures exists s <- written :: s.key == k && s.role == Owner {
      assert Last(sites)[k] in written;
    }
  }

  lemma AllowedWritten(sites: seq<Site>, found: set<Key>, written: seq<Site>)
    requires forall s :: s in written
                   <==> || (s.key in Last(sites) && s == Last(sites)[s.key] && (s.role == Owner || s.key in found))
                        || (s.key in found && s.key !in Last(sites) && s == Site(s.key, Allowed, None))
    ensures forall k :: (exists s <- written :: s.key == k && s.role == Allowed) <==> k in found - Declared(sites, Owner)
  {
    hide Last;
    forall k | k in found - Declared(sites, Owner) ensures exists s <- written :: s.key == k && s.role == Allowed {
      var s := if k in Last(sites) then Last(sites)[k] else Site(k, Allowed, None);
      assert s in written;
    }
  }

  // ---------------------------------------------------------------- a write, checked

  /** A key some markers match whose owner's site another overrides: `measure` passes over it, and `check` does not. */
  ghost predicate SeenBothWays(fact: Fact, spans: seq<Span>, matches: Matcher) {
    exists k :: k in Matching(fact, spans, matches) && Overridden(fact.sites, k)
  }

  lemma OwnersSplit(sites: seq<Site>)
    ensures forall k :: k in AnyOwner(sites) <==> k in Declared(sites, Owner) || Overridden(sites, k)
    ensures forall k :: !(k in Declared(sites, Owner) && Overridden(sites, k))
  {
    hide Last, Order;
  }

  /** Where each site has its own key, none is. */
  lemma DistinctSeenOneWay(fact: Fact, spans: seq<Span>, matches: Matcher)
    requires Distinct(fact.sites)
    ensures !SeenBothWays(fact, spans, matches)
  {
    hide Last, Order, Matching;
    DeclaredOf(fact.sites, Owner);
    DeclaredOf(fact.sites, Allowed);
    OwnersSplit(fact.sites);
  }

  /** A check finds nothing new and nothing stale after what was measured is written — exactly when no key is seen both
      ways. */
  lemma WriteThenCheck(fact: Fact, spans: seq<Span>, matches: Matcher, written: seq<Site>)
    requires Written(fact.sites, Measured(fact, spans, matches), written)
    ensures Clean(Fact(fact.id, written), spans, matches) <==> !SeenBothWays(fact, spans, matches)
  {
    hide Last, Order, Written, AnyOwner, Declared, Overridden;
    WrittenDeclares(fact.sites, Measured(fact, spans, matches), written);
    OwnersSplit(fact.sites);
    assert Matching(Fact(fact.id, written), spans, matches) == Matching(fact, spans, matches);
    OverriddenAlone(Matching(fact, spans, matches), fact.sites);
  }

  lemma OverriddenAlone(matching: set<Key>, sites: seq<Site>)
    requires forall k :: k in AnyOwner(sites) <==> k in Declared(sites, Owner) || Overridden(sites, k)
    requires forall k :: !(k in Declared(sites, Owner) && Overridden(sites, k))
    ensures matching - Declared(sites, Owner) == matching - AnyOwner(sites) - Declared(sites, Owner)
       <==> !exists k :: k in matching && Overridden(sites, k)
  {
    hide AnyOwner, Declared, Overridden;
    var rest := matching - Declared(sites, Owner);
    if k :| k in matching && Overridden(sites, k) {
      assert k in rest && k !in matching - AnyOwner(sites);
    }
  }

  /** Writing again what is measured again changes nothing, under the same condition. */
  lemma WriteAgain(fact: Fact, spans: seq<Span>, matches: Matcher, written: seq<Site>, again: seq<Site>)
    requires Written(fact.sites, Measured(fact, spans, matches), written)
    requires Written(written, Measured(Fact(fact.id, written), spans, matches), again)
    ensures written == again <==> !SeenBothWays(fact, spans, matches)
  {
    hide Last, Order, AnyOwner, Declared, Overridden, Kept;
    var found, more := Measured(fact, spans, matches), Measured(Fact(fact.id, written), spans, matches);
    WrittenDeclares(fact.sites, found, written);
    WrittenDistinct(fact.sites, found, written);
    OwnersSplit(fact.sites);
    assert Matching(Fact(fact.id, written), spans, matches) == Matching(fact, spans, matches);
    KeptWhole(written, more);
    KeysDeclared(written);
    OverriddenAlone(Matching(fact, spans, matches), fact.sites);
    var newly := again[|written|..];
    assert again == written + newly;
    NoneSorted(KeysOf(newly), more - Declared(written, Owner) - Declared(written, Allowed));
  }

  lemma KeysDeclared(sites: seq<Site>)
    ensures forall k :: k in Last(sites) <==> k in Declared(sites, Owner) || k in Declared(sites, Allowed)
  {
    hide Last;
  }

  /** A write keeps all of what is declared once, when all of it is an owner's or observed. */
  lemma KeptWhole(sites: seq<Site>, found: set<Key>)
    requires Distinct(sites) && Declared(sites, Allowed) <= found
    ensures Kept(Order(sites), Last(sites), found) == sites
  {
    DistinctDeclared(sites);
    DeclaredOf(sites, Allowed);
    hide Order, Last, Distinct, Declared;
    assert forall s <- sites | s.role == Allowed :: s.key in found;
    KeptUpTo(sites, Last(sites), found, |sites|);
    assert KeysOf(sites)[..|sites|] == KeysOf(sites) && sites[..|sites|] == sites;
  }

  lemma {:induction false} KeptUpTo(sites: seq<Site>, last: map<Key, Site>, found: set<Key>, n: nat)
    requires n <= |sites| && forall i | 0 <= i < |sites| :: sites[i].key in last && last[sites[i].key] == sites[i]
    requires forall s <- sites | s.role == Allowed :: s.key in found
    ensures forall k <- KeysOf(sites)[..n] :: k in last
    ensures Kept(KeysOf(sites)[..n], last, found) == sites[..n]
  {
    if n > 0 {
      KeptUpTo(sites, last, found, n - 1);
      assert KeysOf(sites)[..n][..n - 1] == KeysOf(sites)[..n - 1];
      assert sites[n - 1] in sites;
      assert sites[..n] == sites[..n - 1] + [sites[n - 1]];
    }
  }

  /** Where an owner's site is overridden and its key is matched, a write leaves no site with that key, though an owner's is
      never to be removed; and a check then finds the key new. */
  lemma OverriddenOwnerIsRemoved(fact: Fact, spans: seq<Span>, matches: Matcher, k: Key, written: seq<Site>)
    requires k in Matching(fact, spans, matches) && Overridden(fact.sites, k)
    requires Written(fact.sites, Measured(fact, spans, matches), written)
    ensures forall s <- written :: s.key != k
    ensures !Clean(Fact(fact.id, written), spans, matches)
  {
    hide Last, Written, Matching, Clean;
    WriteThenCheck(fact, spans, matches, written);
    WrittenSites(fact.sites, Measured(fact, spans, matches), written);
  }

  /** It takes no more than an owner's site and an allowed one after it. */
  lemma OwnerOverridden(id: string, k: Key, text: string, matches: Matcher)
    requires matches(id, text)
    ensures var fact, spans := Fact(id, [Site(k, Owner, None), Site(k, Allowed, None)]), [Span(k, text)];
      k in Matching(fact, spans, matches) && Overridden(fact.sites, k)
  {
    var sites, spans := [Site(k, Owner, None), Site(k, Allowed, None)], [Span(k, text)];
    assert sites[..1] == [sites[0]];
    assert Last([sites[0]]) == map[k := sites[0]];
    assert Last(sites) == map[k := sites[1]];
    assert spans[0] in spans && sites[0] in sites;
  }
}
