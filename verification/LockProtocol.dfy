/**
 Any number of transactions over any lock sets, each taking its locks in the canonical order and holding every one to
 its commit or rollback, as a step relation.
 */
module LockProtocol {
  import opened LockOrder
  import opened Totals

  type TxnId = nat

  /** A transaction: its unit, the locks it is to take in order, how many it has taken, and whether it has ended. */
  datatype Txn = Txn(unit: Unit, plan: seq<Lock>, taken: nat, ended: bool)

  /** The store: every transaction so far, and who holds each locked row. */
  datatype Db = Db(txns: map<TxnId, Txn>, holder: map<Lock, TxnId>)

  datatype Step = Begin(id: TxnId, unit: Unit) | Acquire(id: TxnId) | Commit(id: TxnId) | Rollback(id: TxnId)

  predicate Running(s: Db, id: TxnId) {
    id in s.txns && !s.txns[id].ended
  }

  /** The lock `id` takes next, if it has not taken them all. */
  predicate Wants(s: Db, id: TxnId) {
    Running(s, id) && s.txns[id].taken < |s.txns[id].plan|
  }

  function Wanted(s: Db, id: TxnId): Lock
    requires Wants(s, id)
  {
    s.txns[id].plan[s.txns[id].taken]
  }

  /** A lock is taken when it is free or already the taker's own. */
  predicate CanTake(s: Db, step: Step) {
    match step
    case Begin(id, _) => id !in s.txns
    case Acquire(id) => Wants(s, id) && (Wanted(s, id) in s.holder ==> s.holder[Wanted(s, id)] == id)
    case Commit(id) => Running(s, id) && s.txns[id].taken == |s.txns[id].plan|
    case Rollback(id) => Running(s, id)
  }

  /** What ending a transaction leaves: it lets go every lock it held at once. */
  function Released(s: Db, id: TxnId): Db
    requires id in s.txns
  {
    Db(s.txns[id := s.txns[id].(ended := true)], map l | l in s.holder && s.holder[l] != id :: s.holder[l])
  }

  function Take(s: Db, step: Step): Db
    requires CanTake(s, step)
  {
    match step
    case Begin(id, unit) => s.(txns := s.txns[id := Txn(unit, Plan(unit), 0, false)])
    case Acquire(id) =>
      Db(s.txns[id := s.txns[id].(taken := s.txns[id].taken + 1)], s.holder[Wanted(s, id) := id])
    case Commit(id) => Released(s, id)
    case Rollback(id) => Released(s, id)
  }

  // ---------------------------------------------------------------- what every step keeps

  /** Every locked row is held by a running transaction that took it in its plan's order, and every running transaction
      holds every lock it has taken. */
  ghost predicate Inv(s: Db) {
    && (forall l <- s.holder :: Running(s, s.holder[l]) && Took(s, s.holder[l], l))
    && (forall id, k | Running(s, id) && 0 <= k < s.txns[id].taken :: HoldsAt(s, id, k))
    && (forall id <- s.txns :: s.txns[id].taken <= |s.txns[id].plan| && s.txns[id].plan == Plan(s.txns[id].unit))
  }

  ghost predicate HoldsAt(s: Db, id: TxnId, k: nat) {
    && id in s.txns && k < |s.txns[id].plan|
    && s.txns[id].plan[k] in s.holder && s.holder[s.txns[id].plan[k]] == id
  }

  ghost predicate Took(s: Db, id: TxnId, l: Lock) {
    && id in s.txns && s.txns[id].taken <= |s.txns[id].plan|
    && l in s.txns[id].plan[..s.txns[id].taken]
  }

  lemma BeginKeeps(s: Db, id: TxnId, unit: Unit)
    requires Inv(s) && CanTake(s, Begin(id, unit))
    ensures Inv(Take(s, Begin(id, unit)))
  {
    var s' := Take(s, Begin(id, unit));
    forall i, k | Running(s', i) && 0 <= k < s'.txns[i].taken ensures HoldsAt(s', i, k) { assert HoldsAt(s, i, k); }
    forall l <- s'.holder ensures Running(s', s'.holder[l]) && Took(s', s'.holder[l], l) { assert Took(s, s.holder[l], l); }
  }

  lemma AcquireKeeps(s: Db, id: TxnId)
    requires Inv(s) && CanTake(s, Acquire(id))
    ensures Inv(Take(s, Acquire(id)))
  {
    hide Plan, HoldsAt, Took;
    var s' := Take(s, Acquire(id));
    forall i, k | Running(s', i) && 0 <= k < s'.txns[i].taken ensures HoldsAt(s', i, k) {
      AcquireHolds(s, id, i, k);
    }
    forall l <- s'.holder ensures Running(s', s'.holder[l]) && Took(s', s'.holder[l], l) {
      AcquireTook(s, id, l);
    }
  }

  lemma AcquireHolds(s: Db, id: TxnId, i: TxnId, k: nat)
    requires CanTake(s, Acquire(id)) && Running(s, i)
    requires k < s.txns[i].taken ==> HoldsAt(s, i, k)
    requires k < Take(s, Acquire(id)).txns[i].taken
    ensures HoldsAt(Take(s, Acquire(id)), i, k)
  {
    hide Plan;
  }

  lemma AcquireTook(s: Db, id: TxnId, l: Lock)
    requires CanTake(s, Acquire(id)) && (l in s.holder || l == Wanted(s, id))
    requires l in s.holder ==> Running(s, s.holder[l]) && Took(s, s.holder[l], l)
    ensures var s' := Take(s, Acquire(id)); Running(s', s'.holder[l]) && Took(s', s'.holder[l], l)
  {
    hide Plan;
    var plan, n := s.txns[id].plan, s.txns[id].taken;
    assert plan[..n + 1] == plan[..n] + [plan[n]];
  }

  lemma EndKeeps(s: Db, id: TxnId)
    requires Inv(s) && Running(s, id)
    ensures Inv(Released(s, id))
  {
    var s' := Released(s, id);
    forall i, k | Running(s', i) && 0 <= k < s'.txns[i].taken ensures HoldsAt(s', i, k) { assert HoldsAt(s, i, k); }
    forall l <- s'.holder ensures Running(s', s'.holder[l]) && Took(s', s'.holder[l], l) { assert Took(s, s.holder[l], l); }
  }

  lemma TakeKeeps(s: Db, step: Step)
    requires Inv(s) && CanTake(s, step)
    ensures Inv(Take(s, step))
  {
    match step
    case Begin(id, unit) => BeginKeeps(s, id, unit);
    case Acquire(id) => AcquireKeeps(s, id);
    case Commit(id) => EndKeeps(s, id);
    case Rollback(id) => EndKeeps(s, id);
  }

  /** Whoever may commit holds every lock its unit declared. */
  lemma CommitsHoldingAll(s: Db, id: TxnId, l: Lock)
    requires Inv(s) && CanTake(s, Commit(id)) && Declares(s.txns[id].unit, l)
    ensures l in s.holder && s.holder[l] == id
  {
    hide Plan, Declares;
    var plan := s.txns[id].plan;
    PlanAscends(s.txns[id].unit);
    var k :| 0 <= k < |plan| && plan[k] == l;
    assert HoldsAt(s, id, k);
  }

  /** Ending lets go exactly what it held. */
  lemma EndLetsGo(s: Db, id: TxnId, l: Lock)
    requires id in s.txns
    ensures var s' := Released(s, id);
      && s'.txns[id].ended && (l in s'.holder <==> l in s.holder && s.holder[l] != id)
      && (l in s'.holder ==> s'.holder[l] == s.holder[l])
  {
  }

  // ---------------------------------------------------------------- no deadlock

  /** `id` waits for `other`: the lock it wants is `other`'s. */
  predicate WaitsFor(s: Db, id: TxnId, other: TxnId) {
    Wants(s, id) && Wanted(s, id) in s.holder && s.holder[Wanted(s, id)] == other && other != id
  }

  /** Whoever holds the lock `id` wants is past it: it wants a later lock, or none. */
  lemma WaitingAscends(s: Db, id: TxnId, other: TxnId)
    requires Inv(s) && WaitsFor(s, id, other)
    ensures Running(s, other)
    ensures Wants(s, other) ==> Precedes(Wanted(s, id), Wanted(s, other))
  {
    var l := Wanted(s, id);
    assert Took(s, other, l);
    PlanAscends(s.txns[other].unit);
  }

  /** A chain of waits, each transaction waiting for the next. */
  ghost predicate WaitChain(s: Db, chain: seq<TxnId>) {
    0 < |chain| && forall i | 0 <= i < |chain| - 1 :: WaitsFor(s, chain[i], chain[i + 1])
  }

  lemma {:induction false} WaitChainAscends(s: Db, chain: seq<TxnId>)
    requires Inv(s) && WaitChain(s, chain) && 2 <= |chain|
    ensures Wants(s, chain[0])
    ensures Wants(s, chain[|chain| - 1]) ==> Precedes(Wanted(s, chain[0]), Wanted(s, chain[|chain| - 1]))
  {
    assert WaitsFor(s, chain[0], chain[1]);
    WaitingAscends(s, chain[0], chain[1]);
    if 2 < |chain| && Wants(s, chain[|chain| - 1]) {
      var rest := chain[1..];
      forall i | 0 <= i < |rest| - 1 ensures WaitsFor(s, rest[i], rest[i + 1]) {
        assert WaitsFor(s, chain[i + 1], chain[i + 1 + 1]);
      }
      WaitChainAscends(s, rest);
      PrecedesTransitive(Wanted(s, chain[0]), Wanted(s, rest[0]), Wanted(s, rest[|rest| - 1]));
    }
  }

  /** The wait-for relation has no cycle, however many transactions wait. */
  lemma NoWaitCycle(s: Db, chain: seq<TxnId>)
    requires Inv(s) && WaitChain(s, chain) && 2 <= |chain|
    ensures chain[0] != chain[|chain| - 1]
  {
    WaitChainAscends(s, chain);
    if chain[0] == chain[|chain| - 1] {
      PrecedesAsymmetric(Wanted(s, chain[0]), Wanted(s, chain[0]));
    }
  }

  /** The held locks after `l`: what is left of the ways a chain of waits can go on. */
  ghost function HeldAfter(s: Db, l: Lock): set<Lock> {
    set h | h in s.holder && Precedes(l, h)
  }

  /** Following the waits from any running transaction reaches one that can take its next lock or commit. */
  lemma {:induction false} SomeoneMoves(s: Db, id: TxnId) returns (mover: TxnId)
    requires Inv(s) && Running(s, id)
    ensures CanTake(s, Acquire(mover)) || CanTake(s, Commit(mover))
    decreases if Wants(s, id) then 1 + |HeldAfter(s, Wanted(s, id))| else 0
  {
    mover := id;
    if Wants(s, id) && Wanted(s, id) in s.holder && s.holder[Wanted(s, id)] != id {
      var l, other := Wanted(s, id), s.holder[Wanted(s, id)];
      WaitingAscends(s, id, other);
      if Wants(s, other) {
        var m := Wanted(s, other);
        if m in s.holder && s.holder[m] != other {
          forall h <- HeldAfter(s, m) ensures h in HeldAfter(s, l) { PrecedesTransitive(l, m, h); }
          PrecedesAsymmetric(m, m);
          assert m in HeldAfter(s, l) && m !in HeldAfter(s, m);
          assert HeldAfter(s, m) < HeldAfter(s, l);
          CardinalityFalls(HeldAfter(s, m), HeldAfter(s, l));
          mover := SomeoneMoves(s, other);
        } else {
          mover := other;
        }
      } else {
        mover := other;
      }
    }
  }

  lemma CardinalityFalls<T>(a: set<T>, b: set<T>)
    requires a < b
    ensures |a| < |b|
  {
    var x :| x in b && x !in a;
    assert b == a + (b - a);
  }

  // ---------------------------------------------------------------- whole runs

  ghost predicate IsRun(run: seq<Db>, steps: seq<Step>) {
    && |run| == |steps| + 1
    && run[0] == Db(map[], map[])
    && (forall i | 0 <= i < |steps| :: CanTake(run[i], steps[i]) && run[i + 1] == Take(run[i], steps[i]))
  }

  lemma {:induction false} RunKeeps(run: seq<Db>, steps: seq<Step>, i: nat)
    requires IsRun(run, steps) && i < |run|
    ensures Inv(run[i])
  {
    if 0 < i {
      RunKeeps(run, steps, i - 1);
      TakeKeeps(run[i - 1], steps[i - 1]);
    }
  }

  /** At every moment of every run, while any transaction is unfinished, one of them can take its next lock or commit. */
  lemma NeverDeadlocked(run: seq<Db>, steps: seq<Step>, i: nat, id: TxnId)
    requires IsRun(run, steps) && i < |run| && Running(run[i], id)
    ensures exists m :: CanTake(run[i], Acquire(m)) || CanTake(run[i], Commit(m))
  {
    RunKeeps(run, steps, i);
    var m := SomeoneMoves(run[i], id);
  }

  /** A transaction's steps left: its locks yet to take, and its commit. */
  function StepsLeft(t: Txn): nat {
    if t.ended || |t.plan| < t.taken then 0 else |t.plan| - t.taken + 1
  }

  ghost function Work(s: Db): nat {
    Total(map id | id in s.txns :: StepsLeft(s.txns[id]))
  }

  lemma TakeLowersWork(s: Db, step: Step)
    requires Inv(s) && CanTake(s, step) && !step.Begin?
    ensures Work(Take(s, step)) < Work(s)
  {
    var s' := Take(s, step);
    var m := map id | id in s.txns :: StepsLeft(s.txns[id]);
    var m' := map id | id in s'.txns :: StepsLeft(s'.txns[id]);
    assert StepsLeft(s'.txns[step.id]) < StepsLeft(s.txns[step.id]);
    TotalUpdated(m, step.id, m'[step.id]);
    assert m' == m[step.id := m'[step.id]];
  }

  /** Once no new transaction begins, all of them finish: a stretch of other steps is no longer than the work then left,
      and it can always go on until every transaction has ended. */
  lemma AllFinish(run: seq<Db>, steps: seq<Step>, i: nat, j: nat)
    requires IsRun(run, steps) && i <= j < |run|
    requires forall k | i <= k < j :: !steps[k].Begin?
    ensures Work(run[j]) + (j - i) <= Work(run[i])
    ensures forall id <- run[j].txns ::
              run[j].txns[id].ended || exists m :: CanTake(run[j], Acquire(m)) || CanTake(run[j], Commit(m))
  {
    forall id <- run[j].txns ensures
        run[j].txns[id].ended || exists m :: CanTake(run[j], Acquire(m)) || CanTake(run[j], Commit(m)) {
      if !run[j].txns[id].ended { NeverDeadlocked(run, steps, j, id); }
    }
    WorkFalls(run, steps, i, j);
  }

  lemma {:induction false} WorkFalls(run: seq<Db>, steps: seq<Step>, i: nat, j: nat)
    requires IsRun(run, steps) && i <= j < |run|
    requires forall k | i <= k < j :: !steps[k].Begin?
    ensures Work(run[j]) + (j - i) <= Work(run[i])
    decreases j
  {
    hide Plan, StepsLeft, Work, Inv;
    if i < j {
      WorkFalls(run, steps, i, j - 1);
      RunKeeps(run, steps, j - 1);
      TakeLowersWork(run[j - 1], steps[j - 1]);
    }
  }

  /** Two transactions that both took a lock took it one after the other ended: whoever takes it at `j`, after another
      took it at `i`, finds the other ended. */
  lemma SecondTakesAfterFirstEnded(run: seq<Db>, steps: seq<Step>, i: nat, j: nat)
    requires IsRun(run, steps) && i < j < |steps|
    requires steps[i].Acquire? && steps[j].Acquire? && steps[i].id != steps[j].id
    requires Wanted(run[i], steps[i].id) == Wanted(run[j], steps[j].id)
    ensures steps[i].id in run[j].txns && run[j].txns[steps[i].id].ended
  {
    var id, n := steps[i].id, run[i].txns[steps[i].id].taken;
    TakenStays(run, steps, i + 1, j, id);
    RunKeeps(run, steps, j);
    assert run[j].txns[id].ended || HoldsAt(run[j], id, n);
  }

  lemma {:induction false} TakenStays(run: seq<Db>, steps: seq<Step>, i: nat, j: nat, id: TxnId)
    requires IsRun(run, steps) && i <= j < |run| && id in run[i].txns
    ensures id in run[j].txns && run[j].txns[id].plan == run[i].txns[id].plan
    ensures run[i].txns[id].taken <= run[j].txns[id].taken
    decreases j
  {
    if i < j { TakenStays(run, steps, i, j - 1, id); }
  }
}
