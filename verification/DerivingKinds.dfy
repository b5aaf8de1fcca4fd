/** What a `computed()` callback derives: in its own syntax, or in the bodies it reaches through `this`. */
module DerivingKinds {
  import opened Prelude
  import opened Reach

  /** A syntax node: the deriving constructs at it, the member it reads of `this` if it reads one, and its children. */
  datatype Node = Node(constructs: seq<string>, member: Option<string>, children: seq<Node>)

  /** A class's function bodies by member name. */
  type Bodies = map<string, Node>

  /** The construct stands somewhere in `n`. */
  predicate Holds(n: Node, construct: string) {
    construct in n.constructs || exists c <- n.children :: Holds(c, construct)
  }

  predicate Mentions(n: Node, member: string) {
    n.member == Some(member) || exists c <- n.children :: Mentions(c, member)
  }

  ghost predicate Leads(bodies: Bodies, a: string, b: string) {
    a in bodies && b in bodies && Mentions(bodies[a], b)
  }

  ghost function Leading(bodies: Bodies): (string, string) -> bool {
    (a, b) => Leads(bodies, a, b)
  }

  function Via(member: string): string {
    " via this." + member
  }

  /** `kind` names a construct of the body of `member`, and the member it was reached by. */
  ghost predicate HoldsAt(bodies: Bodies, member: string, kind: string) {
    member in bodies && exists c :: Holds(bodies[member], c) && kind == c + (" via this." + member)
  }

  /** `kind` names a construct in `n`, or one in a body `n` reaches through members of `this`. */
  ghost predicate Derives(bodies: Bodies, n: Node, via: string, kind: string) {
    || (exists c :: Holds(n, c) && kind == c + via)
    || exists a, b :: a in bodies && Mentions(n, a) && Reaches(Leading(bodies), a, b) && HoldsAt(bodies, b, kind)
  }

  /** Every construct of the bodies in `done` was found, and they mention only members in `seen`. */
  ghost predicate Exhausted(bodies: Bodies, done: set<string>, seen: set<string>, found: seq<string>) {
    && (forall m <- done, kind | HoldsAt(bodies, m, kind) :: kind in found)
    && (forall m <- done, b | Leads(bodies, m, b) :: b in seen)
  }

  /** Every construct of one node was found, and it mentions only members in `seen`. */
  ghost predicate Visited(bodies: Bodies, n: Node, via: string, seen: set<string>, found: seq<string>) {
    && (forall c | Holds(n, c) :: c + via in found)
    && (forall m <- bodies | Mentions(n, m) :: m in seen)
  }

  /** What was found past `kinds` is really there, and nothing twice. */
  ghost predicate Sound(bodies: Bodies, n: Node, via: string, kinds: seq<string>, found: seq<string>) {
    && kinds <= found
    && (forall k <- found | k !in kinds :: Derives(bodies, n, via, k))
    && (Distinct(kinds) ==> Distinct(found))
  }

  ghost predicate Distinct(kinds: seq<string>) {
    forall i, j | 0 <= i < j < |kinds| :: kinds[i] != kinds[j]
  }

  // ---------------------------------------------------------------- the order of what is found

  /** Each construct with how it was reached. */
  function Tagged(constructs: seq<string>, via: string): (tagged: seq<string>)
    ensures |tagged| == |constructs| && forall i | 0 <= i < |constructs| :: tagged[i] == constructs[i] + via
  {
    seq(|constructs|, i requires 0 <= i < |constructs| => constructs[i] + via)
  }

  /** What is come upon in source order, a member's body standing where the member is first mentioned; and the members seen
      by then. */
  function Reading(n: Node, bodies: Bodies, seen: set<string>, via: string): (read: (set<string>, seq<string>))
    requires seen <= bodies.Keys
    ensures seen <= read.0 <= bodies.Keys
    decreases |bodies.Keys - seen|, n, 1, 0
  {
    var body := ReadingMember(n, bodies, seen);
    Smaller(bodies.Keys - body.0, bodies.Keys - seen);
    var rest := ReadingChildren(n, |n.children|, bodies, body.0, via);
    (rest.0, Tagged(n.constructs, via) + body.1 + rest.1)
  }

  function ReadingMember(n: Node, bodies: Bodies, seen: set<string>): (read: (set<string>, seq<string>))
    requires seen <= bodies.Keys
    ensures seen <= read.0 <= bodies.Keys
    decreases |bodies.Keys - seen|, n, 0, 0
  {
    if n.member.Some? && n.member.value in bodies && n.member.value !in seen then
      var member := n.member.value;
      Fewer(bodies.Keys - (seen + {member}), bodies.Keys - seen, member);
      Reading(bodies[member], bodies, seen + {member}, Via(member))
    else (seen, [])
  }

  /** The same of the first `k` children of `n`. */
  function ReadingChildren(n: Node, k: nat, bodies: Bodies, seen: set<string>, via: string)
    : (read: (set<string>, seq<string>))
    requires k <= |n.children| && seen <= bodies.Keys
    ensures seen <= read.0 <= bodies.Keys
    decreases |bodies.Keys - seen|, n, 0, k
  {
    if k == 0 then (seen, [])
    else
      var before := ReadingChildren(n, k - 1, bodies, seen, via);
      Smaller(bodies.Keys - before.0, bodies.Keys - seen);
      var last := Reading(n.children[k - 1], bodies, before.0, via);
      (last.0, before.1 + last.1)
  }

  /** The constructs of a tree in source order: a node's own, and then its children's, one child after another. */
  function InOrder(n: Node): seq<string>
    decreases n, 1, 0
  {
    n.constructs + InOrderOf(n, |n.children|)
  }

  function InOrderOf(n: Node, k: nat): seq<string>
    requires k <= |n.children|
    decreases n, 0, k
  {
    if k == 0 then [] else InOrderOf(n, k - 1) + InOrder(n.children[k - 1])
  }

  lemma TaggedBoth(a: seq<string>, b: seq<string>, via: string)
    ensures Tagged(a + b, via) == Tagged(a, via) + Tagged(b, via)
  {
  }

  /** A callback that follows nothing is read in source order. */
  lemma {:induction false} ReadInOrder(n: Node, bodies: Bodies, seen: set<string>, via: string)
    requires seen <= bodies.Keys && forall m <- bodies :: !Mentions(n, m)
    ensures Reading(n, bodies, seen, via) == (seen, Tagged(InOrder(n), via))
    decreases n, 1, 0
  {
    assert n.member.Some? ==> Mentions(n, n.member.value);
    assert Tagged(n.constructs, via) + [] == Tagged(n.constructs, via);
    ReadChildrenInOrder(n, |n.children|, bodies, seen, via);
    TaggedBoth(n.constructs, InOrderOf(n, |n.children|), via);
  }

  lemma {:induction false} ReadChildrenInOrder(n: Node, k: nat, bodies: Bodies, seen: set<string>, via: string)
    requires k <= |n.children| && seen <= bodies.Keys && forall m <- bodies :: !Mentions(n, m)
    ensures ReadingChildren(n, k, bodies, seen, via) == (seen, Tagged(InOrderOf(n, k), via))
    decreases n, 0, k
  {
    if k > 0 {
      ReadChildrenInOrder(n, k - 1, bodies, seen, via);
      forall m <- bodies ensures !Mentions(n.children[k - 1], m) {
        assert n.children[k - 1] in n.children;
      }
      ReadInOrder(n.children[k - 1], bodies, seen, via);
      TaggedBoth(InOrderOf(n, k - 1), InOrder(n.children[k - 1]), via);
    }
  }

  /** `kinds` with what of `more` it does not hold yet, in order. */
  function Listed(kinds: seq<string>, more: seq<string>): seq<string> {
    if more == [] then kinds
    else
      var before, last := Listed(kinds, more[..|more| - 1]), more[|more| - 1];
      if last in before then before else before + [last]
  }

  lemma {:induction false} ListedBoth(kinds: seq<string>, a: seq<string>, b: seq<string>)
    ensures Listed(kinds, a + b) == Listed(Listed(kinds, a), b)
  {
    if b == [] {
      assert a + b == a;
    } else {
      assert (a + b)[..|a + b| - 1] == a + b[..|b| - 1];
      ListedBoth(kinds, a, b[..|b| - 1]);
    }
  }

  // ---------------------------------------------------------------- the visit

  /** `derivingKinds` at one node, `seen` and `kinds` being what its calls share. */
  method Visit(n: Node, bodies: Bodies, seen: set<string>, via: string, kinds: seq<string>)
    returns (now: set<string>, found: seq<string>)
    requires seen <= bodies.Keys
    ensures seen <= now <= bodies.Keys && Sound(bodies, n, via, kinds, found)
    ensures Exhausted(bodies, now - seen, now, found) && Visited(bodies, n, via, now, found)
    ensures var read := Reading(n, bodies, seen, via); now == read.0 && found == Listed(kinds, read.1)
    decreases |bodies.Keys - seen|, n, 1
  {
    hide Holds, Mentions, Derives, Sound, Exhausted, Visited, Listed, ReadingChildren;
    ListedBoth(kinds, Tagged(n.constructs, via), ReadingMember(n, bodies, seen).1);
    ListedNone(Listed(kinds, Tagged(n.constructs, via)));
    now := seen;
    found := AddAll(n, bodies, via, kinds);
    ghost var own := found;
    ExhaustedNone(bodies, seen, found);
    if n.member.Some? && n.member.value in bodies && n.member.value !in seen {
      var member := n.member.value;
      Fewer(bodies.Keys - (seen + {member}), bodies.Keys - seen, member);
      now, found := Visit(bodies[member], bodies, seen + {member}, Via(member), found);
      MemberSound(bodies, n, via, kinds, own, found);
      ExhaustedBody(bodies, member, seen, now, found);
    }
    ghost var before, some := now, found;
    Smaller(bodies.Keys - now, bodies.Keys - seen);
    ListedBoth(kinds, Tagged(n.constructs, via) + ReadingMember(n, bodies, seen).1,
               ReadingChildren(n, |n.children|, bodies, now, via).1);
    now, found := VisitChildren(n, bodies, now, via, found);
    SoundOn(bodies, n, via, kinds, some, found);
    ExhaustedOn(bodies, seen, before, some, now, found);
    SoundKeeps(bodies, n, via, own, some, found, kinds);
    VisitedAll(bodies, n, via, now, found);
  }

  method VisitChildren(n: Node, bodies: Bodies, seen: set<string>, via: string, kinds: seq<string>)
    returns (now: set<string>, found: seq<string>)
    requires seen <= bodies.Keys
    ensures seen <= now <= bodies.Keys && Sound(bodies, n, via, kinds, found)
    ensures Exhausted(bodies, now - seen, now, found)
    ensures forall c <- n.children :: Visited(bodies, c, via, now, found)
    ensures var read := ReadingChildren(n, |n.children|, bodies, seen, via); now == read.0 && found == Listed(kinds, read.1)
    decreases |bodies.Keys - seen|, n, 0
  {
    hide Holds, Mentions, Derives, Sound, Exhausted, Visited, Listed, Reading;
    now, found := seen, kinds;
    ListedNone(kinds);
    SoundNone(bodies, n, via, kinds);
    ExhaustedNone(bodies, seen, found);
    for k := 0 to |n.children|
      invariant seen <= now <= bodies.Keys && Sound(bodies, n, via, kinds, found)
      invariant Exhausted(bodies, now - seen, now, found)
      invariant forall j | 0 <= j < k :: Visited(bodies, n.children[j], via, now, found)
      invariant var read := ReadingChildren(n, k, bodies, seen, via); now == read.0 && found == Listed(kinds, read.1)
    {
      ghost var before, some := now, found;
      ListedBoth(kinds, ReadingChildren(n, k, bodies, seen, via).1, Reading(n.children[k], bodies, now, via).1);
      Smaller(bodies.Keys - now, bodies.Keys - seen);
      now, found := Visit(n.children[k], bodies, now, via, found);
      ChildSound(bodies, n, k, via, some, found);
      forall j | 0 <= j < k ensures Visited(bodies, n.children[j], via, now, found) {
        VisitedStill(bodies, n.children[j], via, before, some, now, found);
      }
      SoundOn(bodies, n, via, kinds, some, found);
      ExhaustedOn(bodies, seen, before, some, now, found);
    }
  }

  /** `add` for each construct at `n`: what is not yet listed. */
  method AddAll(n: Node, bodies: Bodies, via: string, kinds: seq<string>) returns (found: seq<string>)
    ensures Sound(bodies, n, via, kinds, found) && forall c <- n.constructs :: c + via in found
    ensures found == Listed(kinds, Tagged(n.constructs, via))
  {
    hide Derives, Tagged;
    found := kinds;
    var tagged := Tagged(n.constructs, via);
    for i := 0 to |n.constructs|
      invariant Sound(bodies, n, via, kinds, found) && forall j | 0 <= j < i :: n.constructs[j] + via in found
      invariant found == Listed(kinds, tagged[..i])
    {
      assert tagged[..i + 1][..i] == tagged[..i];
      if n.constructs[i] + via !in found {
        OwnDerives(bodies, n, via, n.constructs[i]);
        found := found + [n.constructs[i] + via];
      }
    }
    assert tagged[..|tagged|] == tagged;
  }

  lemma ListedNone(kinds: seq<string>)
    ensures Listed(kinds, []) == kinds
  {
  }

  // ---------------------------------------------------------------- what is found is there

  lemma OwnDerives(bodies: Bodies, n: Node, via: string, c: string)
    requires c in n.constructs
    ensures Derives(bodies, n, via, c + via)
  {
    assert Holds(n, c);
  }

  lemma SoundNone(bodies: Bodies, n: Node, via: string, kinds: seq<string>)
    ensures Sound(bodies, n, via, kinds, kinds)
  {
  }

  lemma SoundOn(bodies: Bodies, n: Node, via: string, kinds: seq<string>, some: seq<string>, found: seq<string>)
    requires Sound(bodies, n, via, kinds, some) && Sound(bodies, n, via, some, found)
    ensures Sound(bodies, n, via, kinds, found) && some <= found
  {
    hide Derives, Distinct;
  }

  lemma SoundKeeps(bodies: Bodies, n: Node, via: string, own: seq<string>, some: seq<string>, found: seq<string>,
                   kinds: seq<string>)
    requires own <= some && Sound(bodies, n, via, some, found) && Sound(bodies, n, via, kinds, found)
    requires forall c <- n.constructs :: c + via in own
    ensures forall c <- n.constructs :: c + via in found
  {
  }

  lemma MemberSound(bodies: Bodies, n: Node, via: string, kinds: seq<string>, own: seq<string>, found: seq<string>)
    requires n.member.Some? && n.member.value in bodies && Sound(bodies, n, via, kinds, own)
    requires Sound(bodies, bodies[n.member.value], Via(n.member.value), own, found)
    ensures Sound(bodies, n, via, kinds, found) && own <= found
  {
    hide Derives, Distinct;
    var m := n.member.value;
    forall k <- found | k !in own ensures Derives(bodies, n, via, k) {
      MemberDerives(bodies, n, via, k);
    }
  }

  lemma MemberDerives(bodies: Bodies, n: Node, via: string, kind: string)
    requires n.member.Some? && n.member.value in bodies
    requires Derives(bodies, bodies[n.member.value], Via(n.member.value), kind)
    ensures Derives(bodies, n, via, kind)
  {
    hide Reaches, Holds;
    var m := n.member.value;
    assert Mentions(n, m);
    if exists c :: Holds(bodies[m], c) && kind == c + Via(m) {
      ReachesSelf(Leading(bodies), m);
      assert HoldsAt(bodies, m, kind);
    } else {
      var a, b :| a in bodies && Mentions(bodies[m], a) && Reaches(Leading(bodies), a, b) && HoldsAt(bodies, b, kind);
      ReachesFirst(Leading(bodies), m, a, b);
    }
  }

  lemma ChildSound(bodies: Bodies, n: Node, k: nat, via: string, some: seq<string>, found: seq<string>)
    requires k < |n.children| && Sound(bodies, n.children[k], via, some, found)
    ensures Sound(bodies, n, via, some, found) && some <= found
  {
    hide Derives, Distinct;
    forall kind <- found | kind !in some ensures Derives(bodies, n, via, kind) {
      ChildDerives(bodies, n, k, via, kind);
    }
  }

  lemma ChildDerives(bodies: Bodies, n: Node, k: nat, via: string, kind: string)
    requires k < |n.children| && Derives(bodies, n.children[k], via, kind)
    ensures Derives(bodies, n, via, kind)
  {
    hide Reaches, HoldsAt;
    var child := n.children[k];
    assert child in n.children;
    if c :| Holds(child, c) && kind == c + via {
      assert Holds(n, c);
    } else {
      var a, b :| a in bodies && Mentions(child, a) && Reaches(Leading(bodies), a, b) && HoldsAt(bodies, b, kind);
      assert Mentions(n, a);
    }
  }

  // ---------------------------------------------------------------- what is there is found

  lemma ExhaustedNone(bodies: Bodies, seen: set<string>, found: seq<string>)
    ensures Exhausted(bodies, seen - seen, seen, found)
  {
  }

  lemma ExhaustedBoth(bodies: Bodies, done: set<string>, seen: set<string>, some: seq<string>,
                      more: set<string>, now: set<string>, found: seq<string>)
    requires Exhausted(bodies, done, seen, some) && Exhausted(bodies, more, now, found)
    requires seen <= now && some <= found
    ensures Exhausted(bodies, done + more, now, found)
  {
    hide HoldsAt, Leads;
  }

  /** The same, for all that came to be seen between `start` and `now`. */
  lemma ExhaustedOn(bodies: Bodies, start: set<string>, seen: set<string>, some: seq<string>, now: set<string>,
                    found: seq<string>)
    requires start <= seen <= now && some <= found
    requires Exhausted(bodies, seen - start, seen, some) && Exhausted(bodies, now - seen, now, found)
    ensures Exhausted(bodies, now - start, now, found)
  {
    hide Exhausted;
    ExhaustedBoth(bodies, seen - start, seen, some, now - seen, now, found);
    assert (seen - start) + (now - seen) == now - start;
  }

  /** A body visited is exhausted with all it brought in. */
  lemma ExhaustedBody(bodies: Bodies, member: string, seen: set<string>, now: set<string>, found: seq<string>)
    requires member in bodies && member !in seen && seen + {member} <= now
    requires Exhausted(bodies, now - (seen + {member}), now, found)
    requires Visited(bodies, bodies[member], Via(member), now, found)
    ensures Exhausted(bodies, now - seen, now, found)
  {
    hide Holds, Mentions;
    assert now - seen == (now - (seen + {member})) + {member};
  }

  lemma VisitedStill(bodies: Bodies, n: Node, via: string, seen: set<string>, some: seq<string>, now: set<string>,
                     found: seq<string>)
    requires Visited(bodies, n, via, seen, some) && seen <= now && some <= found
    ensures Visited(bodies, n, via, now, found)
  {
    hide Holds, Mentions;
  }

  lemma VisitedAll(bodies: Bodies, n: Node, via: string, seen: set<string>, found: seq<string>)
    requires forall c <- n.children :: Visited(bodies, c, via, seen, found)
    requires forall c <- n.constructs :: c + via in found
    requires n.member.Some? && n.member.value in bodies ==> n.member.value in seen
    ensures Visited(bodies, n, via, seen, found)
  {
  }

  /** A callback's kinds are exactly the constructs in it, and those in the bodies it reaches through `this`, each named
      with its member and once, in the order they are come upon, however the bodies mention one another in circles. */
  method KindsOf(callback: Node, bodies: Bodies) returns (kinds: seq<string>)
    ensures forall kind :: kind in kinds <==> Derives(bodies, callback, "", kind)
    ensures Distinct(kinds) && kinds == Listed([], Reading(callback, bodies, {}, "").1)
  {
    hide Reaches, Holds, Mentions, Listed, Reading;
    var seen;
    seen, kinds := Visit(callback, bodies, {}, "", []);
    assert seen - {} == seen;
    forall a, b, kind
      | a in bodies && Mentions(callback, a) && Reaches(Leading(bodies), a, b) && HoldsAt(bodies, b, kind)
      ensures kind in kinds
    {
      ReachesKeeps(Leading(bodies), a, b, x => x in seen);
    }
  }
}
