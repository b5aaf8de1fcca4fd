/**
 The locks one hub transaction declares, and the order the store takes them in: its tenant's row first, then each
 chunk's row by id, then each keyed row by namespace and key. A close takes every tenant's row, by id.
 */
module LockOrder {
  import opened Ordering

  datatype Lock =
    | TenantRow(tenant: string)
    | ChunkRow(tenant: string, chunk: string)
    | KeyRow(tenant: string, namespace: string, key: string)

  function Rank(l: Lock): nat {
    match l
    case TenantRow(_) => 0
    case ChunkRow(_, _) => 1
    case KeyRow(_, _, _) => 2
  }

  function Major(l: Lock): string {
    match l
    case TenantRow(_) => ""
    case ChunkRow(_, chunk) => chunk
    case KeyRow(_, namespace, _) => namespace
  }

  function Minor(l: Lock): string {
    if l.KeyRow? then l.key else ""
  }

  /** The one order all transactions take locks in. */
  predicate Precedes(a: Lock, b: Lock) {
    if Rank(a) != Rank(b) then Rank(a) < Rank(b)
    else if a.tenant != b.tenant then Before(a.tenant, b.tenant)
    else if Major(a) != Major(b) then Before(Major(a), Major(b))
    else Before(Minor(a), Minor(b))
  }

  lemma PrecedesTotal(a: Lock, b: Lock)
    ensures Precedes(a, b) || a == b || Precedes(b, a)
  {
    BeforeTotal(a.tenant, b.tenant);
    BeforeTotal(Major(a), Major(b));
    BeforeTotal(Minor(a), Minor(b));
  }

  lemma PrecedesAsymmetric(a: Lock, b: Lock)
    ensures !(Precedes(a, b) && Precedes(b, a))
    ensures !Precedes(a, a)
  {
    BeforeAsymmetric(a.tenant, b.tenant);
    BeforeAsymmetric(Major(a), Major(b));
    BeforeAsymmetric(Minor(a), Minor(b));
  }

  lemma PrecedesTransitive(a: Lock, b: Lock, c: Lock)
    requires Precedes(a, b) && Precedes(b, c)
    ensures Precedes(a, c)
  {
    if Before(a.tenant, b.tenant) && Before(b.tenant, c.tenant) { BeforeTransitive(a.tenant, b.tenant, c.tenant); }
    if Before(Major(a), Major(b)) && Before(Major(b), Major(c)) { BeforeTransitive(Major(a), Major(b), Major(c)); }
    if Before(Minor(a), Minor(b)) && Before(Minor(b), Minor(c)) { BeforeTransitive(Minor(a), Minor(b), Minor(c)); }
    BeforeAsymmetric(a.tenant, b.tenant);
    BeforeAsymmetric(Major(a), Major(b));
    BeforeAsymmetric(Minor(a), Minor(b));
  }

  /** Each lock once, in order. */
  ghost predicate Ascending(s: seq<Lock>) {
    forall i, j | 0 <= i < j < |s| :: Precedes(s[i], s[j])
  }

  /** `sorted(frozenset(...))`, one element at a time. */
  function Insert(s: seq<Lock>, l: Lock): seq<Lock> {
    if s == [] then [l]
    else if s[0] == l then s
    else if Precedes(l, s[0]) then [l] + s
    else [s[0]] + Insert(s[1..], l)
  }

  function Sorted(s: seq<Lock>): seq<Lock> {
    if s == [] then [] else Insert(Sorted(s[1..]), s[0])
  }

  lemma {:induction false} InsertKeeps(s: seq<Lock>, l: Lock)
    requires Ascending(s)
    ensures Ascending(Insert(s, l))
    ensures forall x :: x in Insert(s, l) <==> x in s || x == l
  {
    if s != [] && s[0] != l {
      if Precedes(l, s[0]) {
        forall j | 1 <= j < |s| ensures Precedes(l, s[j]) { PrecedesTransitive(l, s[0], s[j]); }
      } else {
        var rest := Insert(s[1..], l);
        InsertKeeps(s[1..], l);
        PrecedesTotal(s[0], l);
        forall j | 0 <= j < |rest| ensures Precedes(s[0], rest[j]) {
          assert rest[j] in rest;
          if rest[j] != l {
            var k :| 0 <= k < |s[1..]| && s[1..][k] == rest[j];
          }
        }
        assert s == [s[0]] + s[1..];
      }
    }
  }

  lemma {:induction false} SortedKeeps(s: seq<Lock>)
    ensures Ascending(Sorted(s))
    ensures forall x :: x in Sorted(s) <==> x in s
  {
    if s != [] {
      SortedKeeps(s[1..]);
      InsertKeeps(Sorted(s[1..]), s[0]);
      assert s == [s[0]] + s[1..];
    }
  }

  /** An ascending sequence is decided by the locks in it. */
  lemma {:induction false} AscendingUnique(a: seq<Lock>, b: seq<Lock>)
    requires Ascending(a) && Ascending(b)
    requires forall x :: x in a <==> x in b
    ensures a == b
  {
    assert a != [] ==> a[0] in b;
    assert b != [] ==> b[0] in a;
    if a != [] {
      if a[0] != b[0] {
        assert a[0] in b && b[0] in a;
        var i :| 0 <= i < |b| && b[i] == a[0];
        var j :| 0 <= j < |a| && a[j] == b[0];
        PrecedesAsymmetric(a[0], b[0]);
        assert false;
      }
      forall x ensures x in a[1..] <==> x in b[1..] {
        assert x in a <==> x in b;
        PrecedesAsymmetric(a[0], a[0]);
        assert a == [a[0]] + a[1..] && b == [b[0]] + b[1..];
      }
      AscendingUnique(a[1..], b[1..]);
    }
  }

  // ---------------------------------------------------------------- what a transaction declares

  /** A unit of writes in one tenant declares chunks and keys, as sequences with no promised order and perhaps with
      repeats. An ordinary one first takes its tenant's row; an unguarded one only reads that the tenant is open, so that
      writers of one tenant meet at the chunks and keys. A close locks every tenant's row. */
  datatype Unit =
    | Ordinary(tenant: string, chunks: seq<string>, keys: seq<(string, string)>)
    | Unguarded(tenant: string, chunks: seq<string>, keys: seq<(string, string)>)
    | CloseAll(tenants: seq<string>)

  function Chunks(u: Unit): seq<Lock>
    requires !u.CloseAll?
  {
    seq(|u.chunks|, i requires 0 <= i < |u.chunks| => ChunkRow(u.tenant, u.chunks[i]))
  }

  function Keys(u: Unit): seq<Lock>
    requires !u.CloseAll?
  {
    seq(|u.keys|, i requires 0 <= i < |u.keys| => KeyRow(u.tenant, u.keys[i].0, u.keys[i].1))
  }

  function Rows(u: Unit): seq<Lock>
    requires u.CloseAll?
  {
    seq(|u.tenants|, i requires 0 <= i < |u.tenants| => TenantRow(u.tenants[i]))
  }

  /** `_canonical`: the chunks sorted, and then the keys. */
  function Canonical(u: Unit): seq<Lock>
    requires !u.CloseAll?
  {
    Sorted(Chunks(u)) + Sorted(Keys(u))
  }

  /** The locks `u` takes, in the order it takes them. */
  function Plan(u: Unit): seq<Lock> {
    match u
    case Ordinary(t, _, _) => [TenantRow(t)] + Canonical(u)
    case Unguarded(_, _, _) => Canonical(u)
    case CloseAll(_) => Sorted(Rows(u))
  }

  /** What `u` declared, order aside. */
  predicate Declares(u: Unit, l: Lock) {
    if u.CloseAll? then l.TenantRow? && l.tenant in u.tenants
    else
      && l.tenant == u.tenant
      && match l
         case TenantRow(_) => u.Ordinary?
         case ChunkRow(_, chunk) => chunk in u.chunks
         case KeyRow(_, namespace, key) => (namespace, key) in u.keys
  }

  /** Every transaction takes exactly what it declared, each lock once, in the one global order. */
  lemma PlanAscends(u: Unit)
    ensures Ascending(Plan(u))
    ensures forall l :: l in Plan(u) <==> Declares(u, l)
  {
    if u.CloseAll? {
      SortedKeeps(Rows(u));
      forall l ensures l in Rows(u) <==> Declares(u, l) {
        if Declares(u, l) {
          var i :| 0 <= i < |u.tenants| && u.tenants[i] == l.tenant;
          assert Rows(u)[i] == l;
        }
      }
    } else {
      hide Before, Sorted, Chunks, Keys;
      CanonicalAscends(u);
      forall l ensures l in Plan(u) <==> Declares(u, l) {
        assert l in Plan(u) <==> l in Canonical(u) || (u.Ordinary? && l == TenantRow(u.tenant));
      }
      assert forall i | 0 <= i < |Canonical(u)| :: Canonical(u)[i] in Canonical(u);
    }
  }

  /** What that order is: the tenant's row first, where it is taken, then the chunks' rows by chunk id, then the keyed rows
      by namespace and key; a close's rows by tenant. */
  lemma PlanOrder(u: Unit, i: nat, j: nat)
    requires i < j < |Plan(u)|
    ensures !Plan(u)[j].TenantRow? || u.CloseAll?
    ensures Plan(u)[i].KeyRow? ==> Plan(u)[j].KeyRow?
    ensures match (Plan(u)[i], Plan(u)[j])
            case (TenantRow(a), TenantRow(b)) => Before(a, b)
            case (ChunkRow(_, a), ChunkRow(_, b)) => Before(a, b)
            case (KeyRow(_, n, a), KeyRow(_, m, b)) => if n == m then Before(a, b) else Before(n, m)
            case _ => true
  {
    hide Before, Sorted, Canonical;
    PlanAscends(u);
    assert Plan(u)[i] in Plan(u) && Plan(u)[j] in Plan(u);
    assert Precedes(Plan(u)[i], Plan(u)[j]);
    BeforeAsymmetric("", "");
    assert Declares(u, Plan(u)[i]) && Declares(u, Plan(u)[j]);
  }

  lemma CanonicalAscends(u: Unit)
    requires !u.CloseAll?
    ensures Ascending(Canonical(u))
    ensures forall l :: l in Canonical(u) <==> !l.TenantRow? && Declares(u, l)
  {
    hide Before, Sorted;
    SortedKeeps(Chunks(u));
    SortedKeeps(Keys(u));
    ChunksDeclared(u);
    KeysDeclared(u);
    var c, k := Sorted(Chunks(u)), Sorted(Keys(u));
    assert forall i | 0 <= i < |c| :: c[i] in c;
    assert forall i | 0 <= i < |k| :: k[i] in k;
  }

  lemma ChunksDeclared(u: Unit)
    requires !u.CloseAll?
    ensures forall l :: l in Chunks(u) <==> l.ChunkRow? && Declares(u, l)
  {
    forall l ensures l in Chunks(u) <==> l.ChunkRow? && Declares(u, l) {
      if l.ChunkRow? && Declares(u, l) {
        var i :| 0 <= i < |u.chunks| && u.chunks[i] == l.chunk;
        assert Chunks(u)[i] == l;
      }
    }
  }

  lemma KeysDeclared(u: Unit)
    requires !u.CloseAll?
    ensures forall l :: l in Keys(u) <==> l.KeyRow? && Declares(u, l)
  {
    forall l ensures l in Keys(u) <==> l.KeyRow? && Declares(u, l) {
      if l.KeyRow? && Declares(u, l) {
        var i :| 0 <= i < |u.keys| && u.keys[i] == (l.namespace, l.key);
        assert Keys(u)[i] == l;
      }
    }
  }

  /** The order a lock set is declared in, and how often each lock is named, make no difference: two units declaring
      the same locks take them in the same order. */
  lemma PlanIgnoresDeclarationOrder(u: Unit, v: Unit)
    requires forall l :: Declares(u, l) <==> Declares(v, l)
    ensures Plan(u) == Plan(v)
  {
    PlanAscends(u);
    PlanAscends(v);
    AscendingUnique(Plan(u), Plan(v));
  }
}
