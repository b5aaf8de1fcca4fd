/**
 What closes over whole runs: what a shutdown closes, what is closed besides, and what the close of a tenant answers.
 */
module TenantCloses {
  import opened Prelude
  import opened TenantProtocol
  import opened TenantInvariants
  import opened TenantTheorems
  import opened TenantServing

  // ---------------------------------------------------------------- a shutdown

  /** The objects of every entry still cached that was served at `s0` are among `objects`. */
  ghost predicate Gathers(s0: Hub, cache: Cache, objects: set<nat>) {
    forall t <- cache.entries | ServedThen(s0, cache, t) :: cache.cells[cache.entries[t]].served.value.objects in objects
  }

  /** `t`'s entry was served at `s0` already. */
  ghost predicate ServedThen(s0: Hub, cache: Cache, t: TenantId)
    requires t in cache.entries
  {
    var c := cache.entries[t];
    && c < |s0.cache.cells| && s0.cache.cells[c].served.Some?
    && c < |cache.cells| && cache.cells[c].served.Some?
  }

  ghost predicate ShutKnows(s0: Hub, s: Hub, p: Pid) {
    Outside(s, p)
    || match s.threads[p]
       case ShutLeave(_, objects) => Gathers(s0, s.cache, objects)
       case ShutClose(_, objects) => Gathers(s0, s.cache, objects)
       case _ => true
  }

  /** An entry cached later and served before was cached before. */
  lemma GathersOn(s0: Hub, c: Cache, c': Cache, objects: set<nat>)
    requires CellsOk(c) && CellsOk(c') && CacheGrows(s0.cache, c) && CacheGrows(c, c') && Gathers(s0, c, objects)
    ensures Gathers(s0, c', objects)
  {
    forall t <- c'.entries | ServedThen(s0, c', t)
      ensures c'.cells[c'.entries[t]].served.value.objects in objects
    {
      var i := c'.entries[t];
      assert c.cells[i].tenant == t && c.cells[i] == s0.cache.cells[i] == c'.cells[i];
      assert t in c.entries && c.entries[t] == i;
      assert ServedThen(s0, c, t);
    }
  }

  lemma StepKnows(s0: Hub, s: Hub, step: Step, p: Pid)
    requires Inv(s) && CanTake(s, step) && CacheGrows(s0.cache, s.cache) && ShutKnows(s0, s, p)
    ensures ShutKnows(s0, Take(s, step), p)
  {
    hide Gathers;
    TakeKeeps(s, step);
    var s' := Take(s, step);
    if step.Go? && step.p == p {
      GoKnows(s0, s, p);
    } else {
      StandsStill(s, step, p);
      if !Outside(s, p) {
        match s.threads[p]
        case ShutLeave(_, objects) => GathersOn(s0, s.cache, s'.cache, objects);
        case ShutClose(_, objects) => GathersOn(s0, s.cache, s'.cache, objects);
        case _ =>
      }
    }
  }

  lemma GoKnows(s0: Hub, s: Hub, p: Pid)
    requires Inv(s) && CanTake(s, Go(p)) && CacheGrows(s0.cache, s.cache) && ShutKnows(s0, s, p)
    ensures ShutKnows(s0, Advance(s, p), p)
  {
    var pc := s.threads[p];
    NextIs(s, p, pc);
    Kinds(pc);
    if House(pc) {
      HouseKnows(s0, s, p, pc);
    } else {
      NextStaysIn(s, p, pc);
    }
  }

  lemma HouseKnows(s0: Hub, s: Hub, p: Pid, pc: Pc)
    requires Inv(s) && House(pc) && p in s.threads && s.threads[p] == pc && ShutKnows(s0, s, p)
    ensures ShutKnows(s0, At(HouseNext(s, p, pc).0, p, HouseNext(s, p, pc).1), p)
  {
    if pc.ShutGather? {
      forall t <- s.cache.entries | ServedThen(s0, s.cache, t)
        ensures s.cache.cells[s.cache.entries[t]].served.value.objects in HeldObjects(s.cache) {
      }
    }
  }

  lemma {:induction false} ShutKnowsSince(run: seq<Hub>, steps: seq<Step>, i: nat, j: nat, p: Pid)
    requires IsRun(run, steps) && i <= j < |run| && Outside(run[i], p)
    ensures ShutKnows(run[i], run[j], p)
    decreases j
  {
    hide ShutKnows, Later;
    if i == j {
      OutsideKnows(run[i], p);
    } else {
      ShutKnowsSince(run, steps, i, j - 1, p);
      RunKeeps(run, steps, j - 1);
      assert CacheGrows(run[i].cache, run[j - 1].cache) by {
        RunGoesForward(run, steps, i, j - 1);
        LaterCache(run[i], run[j - 1]);
      }
      StepKnows(run[i], run[j - 1], steps[j - 1], p);
    }
  }

  lemma OutsideKnows(s: Hub, p: Pid)
    requires Outside(s, p)
    ensures ShutKnows(s, s, p)
  {
  }

  lemma LaterCache(s: Hub, s': Hub)
    requires Later(s, s')
    ensures CacheGrows(s.cache, s'.cache)
  {
  }

  /** When a shutdown's `close_served` comes back, whatever was served when it was called is closed, but for what an
      eviction has taken out and closes itself. */
  lemma ShutdownCloses(run: seq<Hub>, steps: seq<Step>, i: nat, j: nat, p: Pid, t: TenantId)
    requires IsRun(run, steps) && i <= j < |steps| && Outside(run[i], p)
    requires steps[j] == Go(p) && run[j].threads[p].ShutClose?
    requires t in run[i].cache.entries && t in run[j + 1].cache.entries
    ensures var c := run[i].cache.entries[t];
      && run[j + 1].cache.entries[t] == c < |run[i].cache.cells|
      && (run[i].cache.cells[c].served.Some? ==>
            run[i].cache.cells[c].served.value.objects in run[j + 1].cache.closed)
  {
    ShutKnowsSince(run, steps, i, j, p);
    RunKeeps(run, steps, i);
    RunKeeps(run, steps, j);
    RunGoesForward(run, steps, i, j);
    ShutTakes(run[j], p);
    SameEntry(run[i].cache, run[j].cache, t);
    var c := run[i].cache.entries[t];
    if run[i].cache.cells[c].served.Some? {
      assert ServedThen(run[i], run[j].cache, t);
    }
  }

  lemma ShutTakes(s: Hub, p: Pid)
    requires Inv(s) && CanTake(s, Go(p)) && s.threads[p].ShutClose?
    ensures Advance(s, p).cache == s.cache.(closed := s.cache.closed + s.threads[p].objects)
  {
  }

  lemma SameEntry(c: Cache, c': Cache, t: TenantId)
    requires CellsOk(c) && CellsOk(c') && CacheGrows(c, c') && t in c.entries && t in c'.entries
    ensures c'.entries[t] == c.entries[t] < |c.cells|
  {
    var i := c.entries[t];
    assert c'.cells[i].tenant == t;
  }

  // ---------------------------------------------------------------- nothing else is closed

  /** Only brokers of evicted tenants are closed, and — where no shutdown closed any — only objects that served one. */
  ghost predicate ClosedRight(s: Hub, shut: bool) {
    && (forall b <- s.brokers.closed :: b < |s.brokers.made| && s.brokers.made[b] in s.cache.evicted)
    && (!shut ==> forall o <- s.cache.closed :: ServedEvicted(s.cache, o))
    && (forall p <- s.threads :: DroppedOwn(s.brokers, s.threads[p]))
  }

  ghost predicate ServedEvicted(c: Cache, o: nat) {
    o < |c.servings| && c.servings[o] < |c.cells| && c.cells[c.servings[o]].tenant in c.evicted
  }

  /** The broker an eviction has dropped is its tenant's. */
  ghost predicate DroppedOwn(b: Brokers, pc: Pc) {
    pc.EvictHush? && pc.dropped.Some? ==> pc.dropped.value < |b.made| && b.made[pc.dropped.value] == pc.t
  }

  predicate Shuts(s: Hub, step: Step) {
    step.Go? && step.p in s.threads && s.threads[step.p].ShutClose?
  }

  lemma StepCloses(s: Hub, step: Step, shut: bool)
    requires Inv(s) && CanTake(s, step) && ClosedRight(s, shut)
    ensures ClosedRight(Take(s, step), shut || Shuts(s, step))
  {
    hide DroppedOwn;
    var s' := Take(s, step);
    TakeKeeps(s, step);
    StepMemory(s, step, shut);
    forall p <- s'.threads ensures DroppedOwn(s'.brokers, s'.threads[p]) {
      if step == Go(p) {
        GoDrops(s, p, s.threads[p]);
      } else {
        StandsStill(s, step, p);
        OthersDrop(s, step, p);
      }
    }
  }

  lemma OthersDrop(s: Hub, step: Step, p: Pid)
    requires Inv(s) && CanTake(s, step) && step != Go(p) && p in Take(s, step).threads
    requires p in s.threads ==> DroppedOwn(s.brokers, s.threads[p])
    ensures DroppedOwn(Take(s, step).brokers, Take(s, step).threads[p])
  {
    TakeKeeps(s, step);
    StandsStill(s, step, p);
  }

  lemma GoDrops(s: Hub, p: Pid, pc: Pc)
    requires Inv(s) && CanTake(s, Go(p)) && s.threads[p] == pc && DroppedOwn(s.brokers, pc)
    ensures DroppedOwn(Advance(s, p).brokers, Advance(s, p).threads[p])
  {
    hide OpenNext, ReadNext, HouseNext;
    NextIs(s, p, pc);
    Kinds(pc);
    NextDeletes(s, p, pc);
  }

  /** Only a deletion comes to where deletions do. */
  lemma NextDeletes(s: Hub, p: Pid, pc: Pc)
    requires !pc.Idle? && 0 < |s.store.history| && CellNamed(s.cache, pc)
    ensures NextOf(s, p, pc).1.EvictHush? ==> pc.EvictDrop?
  {
    Kinds(pc);
  }

  lemma StepMemory(s: Hub, step: Step, shut: bool)
    requires Inv(s) && CanTake(s, step) && ClosedRight(s, shut)
    ensures var s' := Take(s, step);
      && (forall b <- s'.brokers.closed :: b < |s'.brokers.made| && s'.brokers.made[b] in s'.cache.evicted)
      && (!shut && !Shuts(s, step) ==> forall o <- s'.cache.closed :: ServedEvicted(s'.cache, o))
  {
    if step.Go? {
      GoMemory(s, step.p, s.threads[step.p], shut);
    }
  }

  /** What a step adds to what is closed. */
  lemma GoMemory(s: Hub, p: Pid, pc: Pc, shut: bool)
    requires Inv(s) && CanTake(s, Go(p)) && s.threads[p] == pc && ClosedRight(s, shut)
    ensures var s' := Advance(s, p);
      && (forall b <- s'.brokers.closed :: b < |s'.brokers.made| && s'.brokers.made[b] in s'.cache.evicted)
      && (!shut && !pc.ShutClose? ==> forall o <- s'.cache.closed :: ServedEvicted(s'.cache, o))
  {
    hide Inv, NextOf, ServedEvicted;
    assert PcOk(s, p, pc) && SharedOk(s) by {
      InvAt(s, p);
    }
    var s' := Advance(s, p);
    MemoryGrows(s, p);
    Adds(s, p, pc);
    forall b <- s'.brokers.closed ensures b < |s'.brokers.made| && s'.brokers.made[b] in s'.cache.evicted {
      if b !in s.brokers.closed {
        DropsOwn(s, p, pc, b);
      }
    }
    forall o <- s'.cache.closed ensures !shut && !pc.ShutClose? ==> ServedEvicted(s'.cache, o) {
      if !shut && !pc.ShutClose? {
        if o !in s.cache.closed {
          ClosesOwn(s, p, pc, o);
        }
        StaysEvicted(s.cache, s'.cache, o);
      }
    }
  }

  lemma InvAt(s: Hub, p: Pid)
    requires Inv(s) && p in s.threads
    ensures SharedOk(s) && PcOk(s, p, s.threads[p])
  {
  }

  lemma MemoryGrows(s: Hub, p: Pid)
    requires Inv(s) && CanTake(s, Go(p))
    ensures var s' := Advance(s, p);
      && CacheGrows(s.cache, s'.cache) && s.brokers.made <= s'.brokers.made && s.cache.evicted <= s'.cache.evicted
  {
    TakeKeeps(s, Go(p));
  }

  lemma DropsOwn(s: Hub, p: Pid, pc: Pc, b: nat)
    requires PcOk(s, p, pc) && pc.EvictHush? && pc.dropped == Some(b) && DroppedOwn(s.brokers, pc)
    ensures b < |s.brokers.made| && s.brokers.made[b] in s.cache.evicted
  {
  }

  lemma ClosesOwn(s: Hub, p: Pid, pc: Pc, o: nat)
    requires PcOk(s, p, pc) && SharedOk(s) && pc.EvictObjects? && pc.popped.Some? && CellNamed(s.cache, pc)
    requires s.cache.cells[pc.popped.value].served.Some?
    requires s.cache.cells[pc.popped.value].served.value.objects == o
    ensures ServedEvicted(s.cache, o)
  {
  }

  lemma StaysEvicted(c: Cache, c': Cache, o: nat)
    requires CacheGrows(c, c') && c.servings <= c'.servings && ServedEvicted(c, o)
    ensures ServedEvicted(c', o)
  {
  }

  lemma Adds(s: Hub, p: Pid, pc: Pc)
    requires !pc.Idle? && 0 < |s.store.history| && CellNamed(s.cache, pc)
    ensures AddsAtMost(s, pc, NextOf(s, p, pc).0)
  {
    hide AddsAtMost, OpenNext, DeleteNext, ReadNext, HouseNext;
    NextIs(s, p, pc);
    Kinds(pc);
    if Opening(pc) {
      OpenAdds(s, p, pc);
    } else if Deleting(pc) {
      DeleteAdds(s, p, pc);
    } else if Reading(pc) {
      ReadAdds(s, p, pc);
    } else {
      HouseAdds(s, p, pc);
    }
  }

  /** An eviction closes its tenant's broker and then its objects, a shutdown the objects it gathered, and no other step
      any. */
  ghost predicate AddsAtMost(s: Hub, pc: Pc, s': Hub)
    requires CellNamed(s.cache, pc)
  {
    && s.cache.servings <= s'.cache.servings
    && (forall b <- s'.brokers.closed :: b in s.brokers.closed || (pc.EvictHush? && pc.dropped == Some(b)))
    && (forall o <- s'.cache.closed ::
          || o in s.cache.closed || pc.ShutClose?
          || (pc.EvictObjects? && pc.popped.Some? && s.cache.cells[pc.popped.value].served.Some?
              && s.cache.cells[pc.popped.value].served.value.objects == o))
  }

  lemma OpenAdds(s: Hub, p: Pid, pc: Pc)
    requires Opening(pc) && 0 < |s.store.history| && CellNamed(s.cache, pc)
    ensures AddsAtMost(s, pc, OpenNext(s, p, pc).0)
  {
  }

  lemma DeleteAdds(s: Hub, p: Pid, pc: Pc)
    requires Deleting(pc) && 0 < |s.store.history| && CellNamed(s.cache, pc)
    ensures AddsAtMost(s, pc, DeleteNext(s, p, pc).0)
  {
  }

  lemma ReadAdds(s: Hub, p: Pid, pc: Pc)
    requires Reading(pc) && 0 < |s.store.history| && CellNamed(s.cache, pc)
    ensures AddsAtMost(s, pc, ReadNext(s, p, pc).0)
  {
  }

  lemma HouseAdds(s: Hub, p: Pid, pc: Pc)
    requires House(pc) && CellNamed(s.cache, pc)
    ensures AddsAtMost(s, pc, HouseNext(s, p, pc).0)
  {
  }

  lemma {:induction false} ClosedRightThen(run: seq<Hub>, steps: seq<Step>, j: nat, shut: bool)
    requires IsRun(run, steps) && j < |run|
    requires !shut ==> forall k | 0 <= k < j :: !Shuts(run[k], steps[k])
    ensures ClosedRight(run[j], shut)
  {
    hide ClosedRight, Shuts;
    if j == 0 {
      NoneClosed(run[0], shut);
    } else {
      ClosedRightThen(run, steps, j - 1, shut);
      RunKeeps(run, steps, j - 1);
      StepCloses(run[j - 1], steps[j - 1], shut);
      MoreShut(run[j], shut || Shuts(run[j - 1], steps[j - 1]), shut);
    }
  }

  lemma NoneClosed(s: Hub, shut: bool)
    requires Init(s)
    ensures ClosedRight(s, shut)
  {
  }

  lemma MoreShut(s: Hub, shut: bool, more: bool)
    requires ClosedRight(s, shut) && (shut ==> more)
    ensures ClosedRight(s, more)
  {
  }

  /** A tenant that is not closed keeps its broker open at all times, and what serves it until a shutdown. */
  lemma OpenTenantStaysServed(run: seq<Hub>, steps: seq<Step>, j: nat, t: TenantId)
    requires IsRun(run, steps) && j < |run| && t !in run[j].store.closedAt
    ensures forall b | 0 <= b < |run[j].brokers.made| && run[j].brokers.made[b] == t :: b !in run[j].brokers.closed
    ensures (forall k | 0 <= k < j :: !Shuts(run[k], steps[k])) ==>
              forall c | 0 <= c < |run[j].cache.cells| && run[j].cache.cells[c].tenant == t
                         && run[j].cache.cells[c].served.Some? ::
                run[j].cache.cells[c].served.value.objects !in run[j].cache.closed
  {
    RunKeeps(run, steps, j);
    ClosedRightThen(run, steps, j, true);
    if forall k | 0 <= k < j :: !Shuts(run[k], steps[k]) {
      ClosedRightThen(run, steps, j, false);
      forall c | 0 <= c < |run[j].cache.cells| && run[j].cache.cells[c].tenant == t
                 && run[j].cache.cells[c].served.Some?
        ensures run[j].cache.cells[c].served.value.objects !in run[j].cache.closed
      {
        var o := run[j].cache.cells[c].served.value.objects;
        assert run[j].cache.servings[o] == c;
        assert !ServedEvicted(run[j].cache, o);
      }
    }
  }

  // ---------------------------------------------------------------- what a close answers

  lemma StepLeavesOne(s: Hub, step: Step)
    requires Inv(s) && CanTake(s, step) && s.store.Open() != map[]
    ensures 0 < |Take(s, step).store.history| && Take(s, step).store.Open() != map[]
  {
    if step.Go? {
      var pc := s.threads[step.p];
      Stores(s, step.p, pc);
      if pc.CloseCommit? && CloseOutcomeOf(s.store, pc.t).Closed? {
        AnotherStays(s.store, pc.t);
      }
    } else if step.Create? {
      assert step.tenant in Take(s, step).store.Open();
    } else if step.Rename? {
      assert step.tenant in Take(s, step).store.Open();
    }
  }

  lemma AnotherStays(store: Store, t: TenantId)
    requires 0 < |store.history| && CloseOutcomeOf(store, t).Closed?
    ensures Close(store, t).Open() != map[]
  {
    var others := store.Open().Keys - {t};
    assert store.Open().Keys == others + {t};
    var u :| u in others;
    assert u in Close(store, t).Open();
  }

  /** Only a close writes the store. */
  lemma Stores(s: Hub, p: Pid, pc: Pc)
    requires !pc.Idle? && 0 < |s.store.history| && CellNamed(s.cache, pc)
    ensures NextOf(s, p, pc).0.store == if pc.CloseCommit? then Close(s.store, pc.t) else s.store
  {
    hide OpenNext, DeleteNext, ReadNext, HouseNext;
    NextIs(s, p, pc);
    Kinds(pc);
    NextForgets(s, p, pc);
    if pc.CloseCommit? {
      CommitStores(s, p, pc);
    }
  }

  lemma CommitStores(s: Hub, p: Pid, pc: Pc)
    requires 0 < |s.store.history| && pc.CloseCommit?
    ensures DeleteNext(s, p, pc).0.store == Close(s.store, pc.t)
  {
  }

  /** Whoever closes what, the last open tenant is never closed. */
  lemma {:induction false} OneTenantStays(run: seq<Hub>, steps: seq<Step>, i: nat, j: nat)
    requires IsRun(run, steps) && i <= j < |run| && 0 < |run[i].store.history| && run[i].store.Open() != map[]
    ensures 0 < |run[j].store.history| && run[j].store.Open() != map[]
    decreases j
  {
    if i < j {
      OneTenantStays(run, steps, i, j - 1);
      RunKeeps(run, steps, j - 1);
      StepLeavesOne(run[j - 1], steps[j - 1]);
    }
  }

  /** The tenant a deletion goes on to forget, its close committed. */
  function Forgetting(pc: Pc): Option<TenantId> {
    match pc
    case EvictWait(t, _) => Some(t)
    case EvictPop(t, _) => Some(t)
    case EvictLeave(t, _, _, _) => Some(t)
    case EvictDrop(t, _, _) => Some(t)
    case EvictHush(t, _, _, _) => Some(t)
    case EvictObjects(t, _, _) => Some(t)
    case LoadWait(Forget(t), _) => Some(t)
    case LoadRead(Forget(t), _) => Some(t)
    case LoadSwap(Forget(t), _, _) => Some(t)
    case LoadLeave(Forget(t), _, _) => Some(t)
    case _ => None
  }

  /** The close of `t` is thread `p`'s, committed since `s0`. */
  ghost predicate Committed(s0: Hub, s: Hub, p: Pid, t: TenantId) {
    t !in s0.store.closedAt && ClosedBy(s, p, t)
  }

  /** At some version from `s0`'s on, no tenant but `t` was open. */
  ghost predicate WasAlone(s0: Hub, s: Hub, t: TenantId) {
    exists v :: 0 <= v && |s0.store.history| - 1 <= v < |s.store.history| && s.store.history[v].Keys == {t}
  }

  /** What a close's outcome says of the store, for a call begun since `s0`. */
  ghost predicate OutcomeTrue(s0: Hub, s: Hub, p: Pid, t: TenantId, outcome: CloseOutcome)
    requires 0 < |s0.store.history|
  {
    match outcome
    case Closed => Committed(s0, s, p, t) && t in s.forgotten
    case AlreadyClosed => t in s.store.closedAt
    case NoSuchTenant => t !in s0.store.Open() && t !in s0.store.closedAt
    case LastTenant => WasAlone(s0, s, t)
  }

  ghost predicate CloseKnows(s0: Hub, s: Hub, p: Pid)
    requires 0 < |s0.store.history|
  {
    Outside(s, p)
    || (&& (Forgetting(s.threads[p]).Some? ==> Committed(s0, s, p, Forgetting(s.threads[p]).value))
        && (s.threads[p].CloseDone? ==> OutcomeTrue(s0, s, p, s.threads[p].t, s.threads[p].outcome)))
  }

  lemma CloseKnowsOn(s0: Hub, s: Hub, s': Hub, p: Pid)
    requires Inv(s) && Inv(s') && 0 < |s0.store.history| && CloseKnows(s0, s, p)
    requires StoreGrows(s0.store, s.store) && StoreGrows(s.store, s'.store) && s.forgotten <= s'.forgotten
    requires forall t <- s.closers :: t in s'.closers && s'.closers[t] == s.closers[t]
    requires p in s.threads && p in s'.threads && s'.threads[p] == s.threads[p]
    ensures CloseKnows(s0, s', p)
  {
    hide Inv;
    if s.threads[p].CloseDone? && s.threads[p].outcome.LastTenant? {
      var v :| 0 <= v && |s0.store.history| - 1 <= v < |s.store.history| && s.store.history[v].Keys == {s.threads[p].t};
      assert s'.store.history[v] == s.store.history[v];
    }
  }

  lemma StepCloseKnows(s0: Hub, s: Hub, step: Step, p: Pid)
    requires Inv(s0) && Inv(s) && CanTake(s, step) && StoreGrows(s0.store, s.store) && CloseKnows(s0, s, p)
    ensures CloseKnows(s0, Take(s, step), p)
  {
    hide CloseKnows;
    TakeKeeps(s, step);
    if step.Go? && step.p == p {
      GoCloseKnows(s0, s, p, s.threads[p]);
    } else {
      OtherCloseKnows(s0, s, step, p);
    }
  }

  lemma OtherCloseKnows(s0: Hub, s: Hub, step: Step, p: Pid)
    requires Inv(s0) && Inv(s) && CanTake(s, step) && StoreGrows(s0.store, s.store) && CloseKnows(s0, s, p)
    requires step != Go(p)
    ensures CloseKnows(s0, Take(s, step), p)
  {
    StoreThere(s0);
    StoreThere(s);
    hide CloseKnows, Inv, StoreGrows, Take;
    var s' := Take(s, step);
    OtherStands(s, step, p);
    CloseGrows(s, step);
    if p in s.threads && p in s'.threads && s'.threads[p] == s.threads[p] {
      CloseKnowsOn(s0, s, s', p);
    } else {
      NothingClosed(s0, s', p);
    }
  }

  /** Where another takes a step, a thread stands where it stood, is outside, or begins a call. */
  lemma OtherStands(s: Hub, step: Step, p: Pid)
    requires 0 < |s.store.history| && CanTake(s, step) && step != Go(p)
    ensures var s' := Take(s, step);
      || (p in s.threads && p in s'.threads && s'.threads[p] == s.threads[p])
      || Outside(s', p) || (p in s'.threads && Forgetting(s'.threads[p]).None? && !s'.threads[p].CloseDone?)
  {
    StandsStill(s, step, p);
  }

  lemma NothingClosed(s0: Hub, s: Hub, p: Pid)
    requires 0 < |s0.store.history|
    requires Outside(s, p) || (p in s.threads && Forgetting(s.threads[p]).None? && !s.threads[p].CloseDone?)
    ensures CloseKnows(s0, s, p)
  {
  }

  lemma CloseGrows(s: Hub, step: Step)
    requires Inv(s) && CanTake(s, step)
    ensures var s' := Take(s, step);
      && Inv(s') && StoreGrows(s.store, s'.store) && s.forgotten <= s'.forgotten
      && (forall t <- s.closers :: t in s'.closers && s'.closers[t] == s.closers[t])
  {
    TakeKeeps(s, step);
  }

  lemma GoCloseKnows(s0: Hub, s: Hub, p: Pid, pc: Pc)
    requires Inv(s0) && Inv(s) && CanTake(s, Go(p)) && StoreGrows(s0.store, s.store) && CloseKnows(s0, s, p)
    requires s.threads[p] == pc
    ensures CloseKnows(s0, Advance(s, p), p)
  {
    var s', pc' := Advance(s, p), NextOf(s, p, pc).1;
    NextForgets(s, p, pc);
    if pc.CloseCommit? {
      CommitKnows(s0, s, p, pc);
    }
  }

  /** Where a deletion goes on: what it forgets it has closed, and it is answered when it has forgotten it. */
  lemma NextForgets(s: Hub, p: Pid, pc: Pc)
    requires !pc.Idle? && 0 < |s.store.history| && CellNamed(s.cache, pc)
    ensures ForgetsOn(s, pc, NextOf(s, p, pc))
  {
    hide ForgetsOn, OpenNext, DeleteNext, ReadNext, HouseNext;
    NextIs(s, p, pc);
    Kinds(pc);
    if Opening(pc) {
      OpenForgets(s, p, pc);
    } else if Deleting(pc) {
      DeleteForgets(s, p, pc);
    } else if Reading(pc) {
      ReadForgets(s, p, pc);
    } else {
      HouseForgets(s, p, pc);
    }
  }

  ghost predicate ForgetsOn(s: Hub, pc: Pc, next: (Hub, Pc)) {
    && (!pc.CloseCommit? ==> next.0.store == s.store && next.0.closers == s.closers)
    && (ReadPcOk(s, pc) && !pc.CloseCommit? ==>
          && (Forgetting(next.1).Some? ==> Forgetting(pc) == Forgetting(next.1))
          && (next.1.CloseDone? ==>
                next.1.outcome.Closed? && Forgetting(pc) == Some(next.1.t) && next.1.t in next.0.forgotten))
  }

  lemma OpenForgets(s: Hub, p: Pid, pc: Pc)
    requires Opening(pc) && 0 < |s.store.history| && CellNamed(s.cache, pc)
    ensures ForgetsOn(s, pc, OpenNext(s, p, pc))
  {
  }

  lemma DeleteForgets(s: Hub, p: Pid, pc: Pc)
    requires Deleting(pc) && 0 < |s.store.history| && CellNamed(s.cache, pc)
    ensures ForgetsOn(s, pc, DeleteNext(s, p, pc))
  {
  }

  lemma ReadForgets(s: Hub, p: Pid, pc: Pc)
    requires Reading(pc) && 0 < |s.store.history|
    ensures ForgetsOn(s, pc, ReadNext(s, p, pc))
  {
  }

  lemma HouseForgets(s: Hub, p: Pid, pc: Pc)
    requires House(pc)
    ensures ForgetsOn(s, pc, HouseNext(s, p, pc))
  {
  }

  lemma CommitKnows(s0: Hub, s: Hub, p: Pid, pc: Pc)
    requires Inv(s0) && Inv(s) && CanTake(s, Go(p)) && StoreGrows(s0.store, s.store) && pc.CloseCommit?
    requires s.threads[p] == pc
    ensures CloseKnows(s0, Advance(s, p), p)
  {
    assert s0.store.Valid() && s.store.Valid();
    hide Inv, DeleteNext, CloseKnows, StoreGrows;
    NextIs(s, p, pc);
    CommitKnown(s0, s, p, pc, DeleteNext(s, p, pc));
  }

  lemma CommitKnown(s0: Hub, s: Hub, p: Pid, pc: Pc, next: (Hub, Pc))
    requires s0.store.Valid() && s.store.Valid() && StoreGrows(s0.store, s.store) && pc.CloseCommit?
    requires next == DeleteNext(s, p, pc)
    ensures CloseKnows(s0, At(next.0, p, next.1), p)
  {
    hide DeleteNext, CloseOutcomeOf, StoreGrows, Close, OutcomeTrue;
    CommitNext(s, p, pc);
    if !CloseOutcomeOf(s.store, pc.t).Closed? {
      NotClosed(s0, s, p, pc.t);
      OutcomeShared(s0, s, At(next.0, p, next.1), p, pc.t, CloseOutcomeOf(s.store, pc.t));
    } else {
      NotClosedYet(s0.store, s.store, pc.t);
    }
  }

  lemma CommitNext(s: Hub, p: Pid, pc: Pc)
    requires 0 < |s.store.history| && pc.CloseCommit?
    ensures var outcome, next := CloseOutcomeOf(s.store, pc.t), DeleteNext(s, p, pc);
      if outcome.Closed?
      then next == (s.(store := Close(s.store, pc.t), closers := s.closers[pc.t := p]), EvictWait(pc.t, pc.at))
           && pc.t in Close(s.store, pc.t).closedAt
      else next == (s, CloseDone(pc.t, pc.at, outcome))
  {
  }

  lemma OutcomeShared(s0: Hub, s: Hub, s': Hub, p: Pid, t: TenantId, outcome: CloseOutcome)
    requires 0 < |s0.store.history| && s'.(threads := s.threads) == s && OutcomeTrue(s0, s, p, t, outcome)
    ensures OutcomeTrue(s0, s', p, t, outcome)
  {
  }

  lemma NotClosedYet(store0: Store, store: Store, t: TenantId)
    requires StoreGrows(store0, store) && 0 < |store.history| && CloseOutcomeOf(store, t).Closed?
    ensures t !in store0.closedAt
  {
  }

  lemma NotClosed(s0: Hub, s: Hub, p: Pid, t: TenantId)
    requires s0.store.Valid() && s.store.Valid() && StoreGrows(s0.store, s.store)
    requires !CloseOutcomeOf(s.store, t).Closed?
    ensures OutcomeTrue(s0, s, p, t, CloseOutcomeOf(s.store, t))
  {
    OpenStays(s0.store, s.store, t);
    var v := s.store.Version();
    assert s.store.Open() == s.store.history[v];
  }

  lemma OpenStays(store0: Store, store: Store, t: TenantId)
    requires store0.Valid() && store.Valid() && StoreGrows(store0, store)
    ensures t in store0.Open() ==> t in store.Open() || t in store.closedAt
  {
    var v := store0.Version();
    assert store.history[v] == store0.history[v];
  }

  lemma {:induction false} CloseKnowsSince(run: seq<Hub>, steps: seq<Step>, i: nat, j: nat, p: Pid)
    requires IsRun(run, steps) && i <= j < |run| && Outside(run[i], p)
    ensures 0 < |run[i].store.history| && CloseKnows(run[i], run[j], p)
    decreases j
  {
    hide CloseKnows, Inv;
    RunKeeps(run, steps, i);
    StoreThere(run[i]);
    if i == j {
      OutsideCloses(run[i], p);
    } else {
      CloseKnowsSince(run, steps, i, j - 1, p);
      RunKeeps(run, steps, j - 1);
      RunGoesForward(run, steps, i, j - 1);
      StepCloseKnows(run[i], run[j - 1], steps[j - 1], p);
    }
  }

  lemma StoreThere(s: Hub)
    requires Inv(s)
    ensures 0 < |s.store.history|
  {
  }

  lemma OutsideCloses(s: Hub, p: Pid)
    requires Outside(s, p) && 0 < |s.store.history|
    ensures CloseKnows(s, s, p)
  {
  }

  /** A close is answered truly: `Closed` to the one call whose close it was, the tenant then forgotten; `AlreadyClosed` if
      the tenant is closed, `NoSuchTenant` if it was not there, and `LastTenant` if it was the last one open meanwhile. */
  lemma ClosesAnswerTruly(run: seq<Hub>, steps: seq<Step>, i: nat, j: nat, p: Pid)
    requires IsRun(run, steps) && i <= j < |run| && Outside(run[i], p)
    requires p in run[j].threads && run[j].threads[p].CloseDone?
    ensures 0 < |run[i].store.history|
    ensures OutcomeTrue(run[i], run[j], p, run[j].threads[p].t, run[j].threads[p].outcome)
  {
    CloseKnowsSince(run, steps, i, j, p);
  }

  /** However many calls close a tenant at once, one thread alone is answered `Closed`, and for one call alone. */
  lemma ClosedOnce(run: seq<Hub>, steps: seq<Step>, i: nat, j: nat, k: nat, p: Pid, q: Pid)
    requires IsRun(run, steps) && i <= j < |run| && k < |run| && Outside(run[i], p)
    requires p in run[j].threads && run[j].threads[p].CloseDone? && run[j].threads[p].outcome.Closed?
    requires q in run[k].threads && run[k].threads[q].CloseDone? && run[k].threads[q].outcome.Closed?
    requires run[j].threads[p].t == run[k].threads[q].t
    ensures p == q && i < k
  {
    var t := run[j].threads[p].t;
    CloseKnowsSince(run, steps, i, j, p);
    assert Outside(run[0], q);
    CloseKnowsSince(run, steps, 0, k, q);
    ClosersStay(run, steps, j, k, t);
    ClosersStay(run, steps, k, j, t);
    if k <= i {
      RunGoesForward(run, steps, k, i);
    }
  }

  lemma {:induction false} ClosersStay(run: seq<Hub>, steps: seq<Step>, j: nat, k: nat, t: TenantId)
    requires IsRun(run, steps) && j < |run| && k < |run|
    ensures j <= k && t in run[j].closers ==> t in run[k].closers && run[k].closers[t] == run[j].closers[t]
    decreases k
  {
    hide Inv;
    if j < k {
      ClosersStay(run, steps, j, k - 1, t);
      RunKeeps(run, steps, k - 1);
      TakeKeeps(run[k - 1], steps[k - 1]);
    }
  }
}
