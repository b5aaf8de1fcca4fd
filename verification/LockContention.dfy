/**
 Where writers wait for one another: at the first lock both declare, and nowhere else — their tenant's row when both take
 it, a chunk's or a key's row when one does not.
 */
module LockContention {
  import opened LockOrder
  import opened LockProtocol
  import opened Ordering

  /** `l` is the first lock `u` and `v` both declare. */
  ghost predicate FirstShared(u: Unit, v: Unit, l: Lock) {
    && Declares(u, l) && Declares(v, l)
    && forall m | Declares(u, m) && Declares(v, m) :: m == l || Precedes(l, m)
  }

  // ---------------------------------------------------------------- they wait nowhere else

  /** A lock declared before one that is taken, or wanted next, is held. */
  lemma HeldBefore(s: Db, id: TxnId, m: Lock, k: nat)
    requires Inv(s) && Running(s, id) && k <= s.txns[id].taken && k < |s.txns[id].plan|
    requires Declares(s.txns[id].unit, m) && Precedes(m, s.txns[id].plan[k])
    ensures m in s.holder && s.holder[m] == id
  {
    hide Precedes, Declares, Plan;
    var plan := s.txns[id].plan;
    PlanAscends(s.txns[id].unit);
    var i :| 0 <= i < |plan| && plan[i] == m;
    PrecedesAsymmetric(m, plan[k]);
    assert HoldsAt(s, id, i);
  }

  /** Whoever waits waits at the first lock the two declare: an earlier one, both would hold. */
  lemma WaitAtFirstShared(s: Db, id: TxnId, other: TxnId)
    requires Inv(s) && WaitsFor(s, id, other)
    ensures other in s.txns && FirstShared(s.txns[id].unit, s.txns[other].unit, Wanted(s, id))
  {
    hide Precedes, Declares, Plan;
    var l, u := Wanted(s, id), s.txns[id].unit;
    assert Running(s, other) && Took(s, other, l);
    var v, taken := s.txns[other].unit, s.txns[other].plan[..s.txns[other].taken];
    PlanAscends(u);
    PlanAscends(v);
    var k :| 0 <= k < |taken| && taken[k] == l;
    forall m | Declares(u, m) && Declares(v, m) ensures m == l || Precedes(l, m) {
      PrecedesTotal(l, m);
      if Precedes(m, l) {
        HeldBefore(s, id, m, s.txns[id].taken);
        HeldBefore(s, other, m, k);
      }
    }
  }

  /** Two writers of one tenant that take its row first meet there: the one that waits has taken nothing yet, so it
      reaches no chunk or key while the other runs. */
  lemma GuardedMeetAtTenant(s: Db, id: TxnId, other: TxnId)
    requires Inv(s) && WaitsFor(s, id, other) && s.txns[id].unit.Ordinary?
    requires other in s.txns && s.txns[other].unit.Ordinary?
    ensures Wanted(s, id) == TenantRow(s.txns[id].unit.tenant) && s.txns[id].taken == 0
  {
    hide Precedes, Canonical;
    var u, row := s.txns[id].unit, TenantRow(s.txns[id].unit.tenant);
    WaitAtFirstShared(s, id, other);
    PlanAscends(u);
    assert Declares(u, row) && Declares(s.txns[other].unit, row);
    assert Plan(u)[0] == row;
    PrecedesAsymmetric(row, Wanted(s, id));
  }

  // ---------------------------------------------------------------- and there they do

  function Acquires(id: TxnId, n: nat): seq<Step> {
    seq(n, k => Acquire(id))
  }

  /** Two writers begin, the first takes `held` locks, and the second takes `reach`. */
  ghost function Met(u: Unit, v: Unit, held: nat, reach: nat): seq<Step> {
    [Begin(0, u), Begin(1, v)] + Acquires(0, held) + Acquires(1, reach)
  }

  /** `s` with the next `n` locks of `id` taken. */
  ghost predicate TookOn(s: Db, id: TxnId, n: nat, after: Db)
    requires id in s.txns
  {
    var t := s.txns[id];
    && after.txns == s.txns[id := t.(taken := t.taken + n)] && t.taken + n <= |t.plan|
    && (forall l :: l in after.holder <==> l in s.holder || l in t.plan[t.taken..t.taken + n])
    && (forall l <- after.holder :: after.holder[l] == if l in t.plan[t.taken..t.taken + n] then id else s.holder[l])
  }

  /** The next `n` locks of `id` are free, or its own. */
  ghost predicate FreeAhead(s: Db, id: TxnId, n: nat) {
    && Running(s, id) && s.txns[id].taken + n <= |s.txns[id].plan|
    && forall l <- s.txns[id].plan[s.txns[id].taken..s.txns[id].taken + n] :: l !in s.holder || s.holder[l] == id
  }

  /** A run goes on while a transaction takes locks no other holds. */
  lemma {:induction false} TakesOn(run: seq<Db>, steps: seq<Step>, id: TxnId, n: nat) returns (on: seq<Db>)
    requires IsRun(run, steps) && FreeAhead(run[|steps|], id, n)
    ensures |on| == |run| + n && IsRun(on, steps + Acquires(id, n))
    ensures TookOn(run[|steps|], id, n, on[|steps| + n])
  {
    hide *;
    RunIsLonger(run, steps);
    if n == 0 {
      on := run;
      NoneTaken(run[|steps|], id);
      assert steps + Acquires(id, 0) == steps by {
        NoAcquires(id);
      }
    } else {
      FewerFree(run[|steps|], id, n - 1);
      var before := TakesOn(run, steps, id, n - 1);
      var last := before[|steps| + (n - 1)];
      NextTaken(run[|steps|], id, n - 1, last);
      OneAcquireMore(steps, id, n - 1);
      RunGoesOn(before, steps + Acquires(id, n - 1), Acquire(id));
      on := before + [Take(last, Acquire(id))];
    }
  }

  lemma RunIsLonger(run: seq<Db>, steps: seq<Step>)
    requires IsRun(run, steps)
    ensures |run| == |steps| + 1
  {
  }

  lemma NoAcquires(id: TxnId)
    ensures Acquires(id, 0) == []
  {
  }

  lemma OneAcquireMore(steps: seq<Step>, id: TxnId, n: nat)
    ensures |steps + Acquires(id, n)| == |steps| + n
    ensures steps + Acquires(id, n + 1) == steps + Acquires(id, n) + [Acquire(id)]
  {
  }

  lemma NoneTaken(s: Db, id: TxnId)
    requires FreeAhead(s, id, 0)
    ensures id in s.txns && TookOn(s, id, 0, s)
  {
  }

  lemma FewerFree(s: Db, id: TxnId, n: nat)
    requires FreeAhead(s, id, n + 1)
    ensures FreeAhead(s, id, n)
  {
    var t := s.txns[id];
    assert t.plan[t.taken..t.taken + n + 1] == t.plan[t.taken..t.taken + n] + [t.plan[t.taken + n]];
  }

  lemma NextTaken(s: Db, id: TxnId, n: nat, last: Db)
    requires FreeAhead(s, id, n + 1) && TookOn(s, id, n, last)
    ensures id in s.txns && CanTake(last, Acquire(id)) && TookOn(s, id, n + 1, Take(last, Acquire(id)))
  {
    var t := s.txns[id];
    assert t.plan[t.taken..t.taken + (n + 1)] == t.plan[t.taken..t.taken + n] + [t.plan[t.taken + n]];
    assert t.plan[t.taken + n] in t.plan[t.taken..t.taken + (n + 1)];
  }

  lemma RunGoesOn(run: seq<Db>, steps: seq<Step>, step: Step)
    requires IsRun(run, steps) && CanTake(run[|steps|], step)
    ensures IsRun(run + [Take(run[|steps|], step)], steps + [step])
  {
    hide CanTake, Take;
  }

  /** The run in which both have begun. */
  ghost function Begun(u: Unit, v: Unit): (run: seq<Db>)
    ensures IsRun(run, [Begin(0, u), Begin(1, v)])
    ensures run[2] == Db(map[0 := Txn(u, Plan(u), 0, false), 1 := Txn(v, Plan(v), 0, false)], map[])
  {
    var s0 := Db(map[], map[]);
    var s1 := Take(s0, Begin(0, u));
    [s0, s1, Take(s1, Begin(1, v))]
  }

  /** Before the first lock both declare, the second writer's plan holds none of the first's. */
  lemma ApartBefore(u: Unit, v: Unit, l: Lock, reach: nat, m: Lock)
    requires FirstShared(u, v, l) && reach < |Plan(v)| && Plan(v)[reach] == l && m in Plan(v)[..reach]
    ensures m !in Plan(u)
  {
    hide Plan, Precedes, Declares;
    PlanAscends(u);
    PlanAscends(v);
    var k :| 0 <= k < reach && Plan(v)[k] == m;
    PrecedesAsymmetric(m, l);
  }

  /** At the first lock they both declare, two writers do come to wait: once the first took that far, or any farther, the
      second takes all it declared before that lock and finds it taken. */
  lemma WritersContend(u: Unit, v: Unit, l: Lock, held: nat) returns (run: seq<Db>, reach: nat)
    requires FirstShared(u, v, l) && held <= |Plan(u)| && l in Plan(u)[..held]
    ensures reach < |Plan(v)| && Plan(v)[reach] == l
    ensures IsRun(run, Met(u, v, held, reach)) && |run| == held + reach + 3
    ensures var s := run[held + reach + 2];
      && WaitsFor(s, 1, 0) && Wanted(s, 1) == l
      && s.txns == map[0 := Txn(u, Plan(u), held, false), 1 := Txn(v, Plan(v), reach, false)]
  {
    hide *;
    var steps := [Begin(0, u), Begin(1, v)];
    reach := PlaceOf(u, v, l);
    RunIsLonger(Begun(u, v), steps);
    FirstFree(u, v, held);
    var ahead := TakesOn(Begun(u, v), steps, 0, held);
    var more := steps + Acquires(0, held);
    RunIsLonger(ahead, more);
    SecondFree(u, v, l, reach, held, ahead[held + 2]);
    run := TakesOn(ahead, more, 1, reach);
    RunIsLonger(run, more + Acquires(1, reach));
    assert more + Acquires(1, reach) == Met(u, v, held, reach) by {
      MetInTurn(u, v, held, reach);
    }
    ThenWaits(u, v, l, reach, held, ahead[held + 2], run[held + reach + 2]);
  }

  lemma MetInTurn(u: Unit, v: Unit, held: nat, reach: nat)
    ensures [Begin(0, u), Begin(1, v)] + Acquires(0, held) + Acquires(1, reach) == Met(u, v, held, reach)
  {
  }

  lemma FirstFree(u: Unit, v: Unit, held: nat)
    requires held <= |Plan(u)|
    ensures FreeAhead(Begun(u, v)[2], 0, held)
  {
    hide Plan, Begun;
  }

  lemma SecondFree(u: Unit, v: Unit, l: Lock, reach: nat, held: nat, s: Db)
    requires FirstShared(u, v, l) && reach < |Plan(v)| && Plan(v)[reach] == l
    requires TookOn(Begun(u, v)[2], 0, held, s)
    ensures FreeAhead(s, 1, reach)
  {
    hide Plan, FirstShared, Begun;
    forall m <- Plan(v)[..reach] ensures m !in s.holder {
      ApartBefore(u, v, l, reach, m);
    }
  }

  lemma ThenWaits(u: Unit, v: Unit, l: Lock, reach: nat, held: nat, s: Db, after: Db)
    requires FirstShared(u, v, l) && reach < |Plan(v)| && Plan(v)[reach] == l
    requires held <= |Plan(u)| && l in Plan(u)[..held]
    requires TookOn(Begun(u, v)[2], 0, held, s) && TookOn(s, 1, reach, after)
    ensures WaitsFor(after, 1, 0) && Wanted(after, 1) == l
    ensures after.txns == map[0 := Txn(u, Plan(u), held, false), 1 := Txn(v, Plan(v), reach, false)]
  {
    hide Plan, FirstShared, Begun;
    TxnsThen(u, v, reach, held, s, after);
    if l in Plan(v)[..reach] {
      ApartBefore(u, v, l, reach, l);
    }
  }

  lemma TxnsThen(u: Unit, v: Unit, reach: nat, held: nat, s: Db, after: Db)
    requires TookOn(Begun(u, v)[2], 0, held, s) && TookOn(s, 1, reach, after)
    ensures s.txns == map[0 := Txn(u, Plan(u), held, false), 1 := Txn(v, Plan(v), 0, false)]
    ensures after.txns == map[0 := Txn(u, Plan(u), held, false), 1 := Txn(v, Plan(v), reach, false)]
  {
    hide Plan, Begun;
  }

  lemma PlaceOf(u: Unit, v: Unit, l: Lock) returns (reach: nat)
    requires FirstShared(u, v, l)
    ensures reach < |Plan(v)| && Plan(v)[reach] == l
  {
    PlanAscends(v);
    reach :| 0 <= reach < |Plan(v)| && Plan(v)[reach] == l;
  }

  /** Two writers with the same locks, in whatever order each declares them, wait at the first of all: at a chunk's row if
      they take no tenant row and declare a chunk, and at a key's if they declare none. */
  lemma MirroredWritersContend(u: Unit, v: Unit, held: nat) returns (run: seq<Db>)
    requires (forall l :: Declares(u, l) <==> Declares(v, l)) && 0 < held <= |Plan(u)|
    ensures IsRun(run, Met(u, v, held, 0))
    ensures WaitsFor(run[held + 2], 1, 0) && Wanted(run[held + 2], 1) == Plan(u)[0]
    ensures u.Unguarded? ==> if u.chunks != [] then Plan(u)[0].ChunkRow? else Plan(u)[0].KeyRow?
  {
    hide Precedes, Plan;
    PlanIgnoresDeclarationOrder(u, v);
    PlanAscends(u);
    var l := Plan(u)[0];
    assert l in Plan(u)[..held];
    forall m | Declares(u, m) ensures m == l || Precedes(l, m) {
      var k :| 0 <= k < |Plan(u)| && Plan(u)[k] == m;
    }
    var reach;
    run, reach := WritersContend(u, v, l, held);
    PrecedesAsymmetric(l, l);
    if u.Unguarded? && u.chunks != [] {
      ChunksFirst(u, u.chunks[0], l);
    }
  }

  lemma ChunksFirst(u: Unit, chunk: string, l: Lock)
    requires !u.CloseAll? && Declares(u, l) && !l.TenantRow? && chunk in u.chunks
    requires ChunkRow(u.tenant, chunk) == l || Precedes(l, ChunkRow(u.tenant, chunk))
    ensures l.ChunkRow?
  {
  }

  function Mint(tenant: string, chunk: string, errand: string): Unit {
    Unguarded(tenant, [chunk], [("cadence_errand", errand), ("queue_ranking", "ready"), ("queue_ranking", "not_ready")])
  }

  function Promote(tenant: string, chunk: string): Unit {
    Unguarded(tenant, [chunk], [("queue_ranking", "ready"), ("queue_ranking", "not_ready")])
  }

  /** A cadence's mint and the queue's promote, of two chunks, wait at the backlog's ranking lock, whichever is first and
      has taken all it declared. */
  lemma MintAndPromoteContend(tenant: string, n: string, a: string, errand: string)
      returns (minting: seq<Db>, promoting: seq<Db>, x: nat, y: nat)
    requires n != a
    ensures var u, v := Mint(tenant, n, errand), Promote(tenant, a);
      && IsRun(minting, Met(u, v, |Plan(u)|, x)) && WaitsFor(minting[|Plan(u)| + x + 2], 1, 0)
      && Wanted(minting[|Plan(u)| + x + 2], 1) == KeyRow(tenant, "queue_ranking", "not_ready")
      && IsRun(promoting, Met(v, u, |Plan(v)|, y)) && WaitsFor(promoting[|Plan(v)| + y + 2], 1, 0)
      && Wanted(promoting[|Plan(v)| + y + 2], 1) == KeyRow(tenant, "queue_ranking", "not_ready")
  {
    hide Plan, Precedes;
    var u, v, l := Mint(tenant, n, errand), Promote(tenant, a), KeyRow(tenant, "queue_ranking", "not_ready");
    RankingShared(tenant, n, a, errand);
    PlanAscends(u);
    PlanAscends(v);
    assert Plan(u)[..|Plan(u)|] == Plan(u) && Plan(v)[..|Plan(v)|] == Plan(v);
    minting, x := WritersContend(u, v, l, |Plan(u)|);
    promoting, y := WritersContend(v, u, l, |Plan(v)|);
  }

  lemma RankingShared(tenant: string, n: string, a: string, errand: string)
    requires n != a
    ensures FirstShared(Mint(tenant, n, errand), Promote(tenant, a), KeyRow(tenant, "queue_ranking", "not_ready"))
    ensures FirstShared(Promote(tenant, a), Mint(tenant, n, errand), KeyRow(tenant, "queue_ranking", "not_ready"))
  {
    var l, m := KeyRow(tenant, "queue_ranking", "not_ready"), KeyRow(tenant, "queue_ranking", "ready");
    assert Before("not_ready", "ready");
    assert "cadence_errand" != "queue_ranking" by {
      assert "cadence_errand"[0] != "queue_ranking"[0];
    }
    assert Declares(Promote(tenant, a), l) by {
      assert Promote(tenant, a).keys[1] == ("queue_ranking", "not_ready");
    }
    assert Declares(Mint(tenant, n, errand), l) by {
      assert Mint(tenant, n, errand).keys[2] == ("queue_ranking", "not_ready");
    }
    forall k | Declares(Mint(tenant, n, errand), k) && Declares(Promote(tenant, a), k) ensures k == l || k == m {
    }
    assert Precedes(l, m);
  }

  /** The order is what keeps them apart: two writers that took mirrored sets of decision rows as declared would come to
      wait for each other, and neither could ever take its next step. */
  lemma DeclaredOrderDeadlocks(u: Unit, v: Unit, a: Lock, b: Lock) returns (s: Db)
    requires a != b
    ensures var start := Db(map[0 := Txn(u, [a, b], 0, false), 1 := Txn(v, [b, a], 0, false)], map[]);
      CanTake(start, Acquire(0)) && CanTake(Take(start, Acquire(0)), Acquire(1))
      && s == Take(Take(start, Acquire(0)), Acquire(1))
    ensures WaitsFor(s, 0, 1) && WaitsFor(s, 1, 0)
    ensures forall m :: !CanTake(s, Acquire(m)) && !CanTake(s, Commit(m))
  {
    var start := Db(map[0 := Txn(u, [a, b], 0, false), 1 := Txn(v, [b, a], 0, false)], map[]);
    var s1 := Take(start, Acquire(0));
    s := Take(s1, Acquire(1));
  }
}
