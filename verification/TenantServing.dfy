/**
 What serving comes to over whole runs: who is handed a tenant's services, and what a shutdown closes.
 */
module TenantServing {
  import opened TenantProtocol
  import opened TenantInvariants
  import opened TenantTheorems

  // ---------------------------------------------------------------- opens

  /** The entry at `c` is `t`'s, and served. */
  predicate ServedFor(cache: Cache, t: TenantId, c: nat) {
    c < |cache.cells| && cache.cells[c].tenant == t && cache.cells[c].served.Some?
  }

  /** Thread `p` is outside, or inside a call for whose opener the tenant is served once it has been handed the entry. */
  ghost predicate ServedOn(s: Hub, p: Pid) {
    Outside(s, p)
    || match s.threads[p]
       case OpenLeave(t, _, _, found) => found.Ok? ==> ServedFor(s.cache, t, found.value)
       case OpenRead(t, _, _, c) => ServedFor(s.cache, t, c)
       case OpenDone(t, _, _, answer) => !answer.Unwired? && (answer.Handed? ==> ServedFor(s.cache, t, answer.cell))
       case _ => true
  }

  /** The thread's own step keeps that, once the cache is wired. */
  lemma OwnStepServes(s: Hub, p: Pid)
    requires Inv(s) && s.cache.wired && CanTake(s, Go(p)) && ServedOn(s, p)
    ensures ServedOn(Advance(s, p), p)
  {
    var pc := s.threads[p];
    assert PcOk(s, p, pc) && SharedOk(s);
    hide Inv, OpenNext, DeleteNext, ReadNext, HouseNext, SharedOk, PcOk;
    NextIs(s, p, pc);
    Kinds(pc);
    if Opening(pc) {
      OpenStepServes(s, p, pc);
    } else {
      NextOpens(s, p, pc);
    }
  }

  /** Only an opener comes to where openers do. */
  lemma NextOpens(s: Hub, p: Pid, pc: Pc)
    requires !pc.Idle? && 0 < |s.store.history| && CellNamed(s.cache, pc)
    ensures Opening(NextOf(s, p, pc).1) ==> Opening(pc)
  {
    Kinds(pc);
  }

  lemma OpenStepServes(s: Hub, p: Pid, pc: Pc)
    requires SharedOk(s) && PcOk(s, p, pc) && s.cache.wired
    requires 0 < |s.store.history| && Opening(pc) && CellNamed(s.cache, pc) && p in s.threads && s.threads[p] == pc
    requires ServedOn(s, p)
    ensures ServedOn(At(OpenNext(s, p, pc).0, p, OpenNext(s, p, pc).1), p)
  {
  }

  /** Where another thread steps, or another thread begins a call, it is kept as well. */
  lemma StepServes(s: Hub, step: Step, p: Pid)
    requires Inv(s) && s.cache.wired && CanTake(s, step) && ServedOn(s, p)
    ensures ServedOn(Take(s, step), p)
  {
    if step.Go? && step.p == p {
      OwnStepServes(s, p);
    } else {
      StandsStill(s, step, p);
      CellsStay(s, step);
    }
  }

  lemma StandsStill(s: Hub, step: Step, p: Pid)
    requires 0 < |s.store.history| && CanTake(s, step) && step != Go(p)
    ensures Outside(Take(s, step), p) || (p in s.threads && Take(s, step).threads[p] == s.threads[p])
         || (step.Begin? && step.p == p && Take(s, step).threads[p] == step.call)
  {
    if step.Go? {
      NextTakesOne(s, step.p, s.threads[step.p]);
    }
  }

  lemma CellsStay(s: Hub, step: Step)
    requires Inv(s) && CanTake(s, step)
    ensures CacheGrows(s.cache, Take(s, step).cache)
  {
    TakeKeeps(s, step);
  }

  lemma {:induction false} ServedSince(run: seq<Hub>, steps: seq<Step>, i: nat, j: nat, p: Pid)
    requires IsRun(run, steps) && i <= j < |run| && Outside(run[i], p) && run[i].cache.wired
    ensures ServedOn(run[j], p)
    decreases j
  {
    hide ServedOn, Outside;
    if i == j {
      OutsideServed(run[i], p);
    } else {
      ServedSince(run, steps, i, j - 1, p);
      RunKeeps(run, steps, j - 1);
      RunGoesForward(run, steps, i, j - 1);
      StepServes(run[j - 1], steps[j - 1], p);
    }
  }

  lemma OutsideServed(s: Hub, p: Pid)
    requires Outside(s, p)
    ensures ServedOn(s, p)
  {
  }

  /** Every open begun once the cache is wired is handed the tenant's own served entry, its broker the tenant's, unless the
      store refuses the tenant. */
  lemma ServedIsHanded(run: seq<Hub>, steps: seq<Step>, i: nat, j: nat, p: Pid)
    requires IsRun(run, steps) && i <= j < |run| && Outside(run[i], p) && run[i].cache.wired
    requires p in run[j].threads && run[j].threads[p].OpenDone? && !run[j].threads[p].answer.Refused?
    ensures run[j].threads[p].answer.Handed?
    ensures var c, cells, made := run[j].threads[p].answer.cell, run[j].cache.cells, run[j].brokers.made;
      && c < |cells| && cells[c].tenant == run[j].threads[p].t && cells[c].served.Some?
      && cells[c].served.value.broker < |made| && made[cells[c].served.value.broker] == cells[c].tenant
  {
    ServedSince(run, steps, i, j, p);
    RunKeeps(run, steps, j);
  }

  /** At any time, what an open hands out is the tenant's entry, served if its services or sweeps were asked for; and it
      hands out nothing for want of serving only where they were. */
  ghost predicate AnswerOk(s: Hub, p: Pid) {
    Outside(s, p)
    || match s.threads[p]
       case OpenDone(t, kind, _, Handed(c)) =>
         c < |s.cache.cells| && s.cache.cells[c].tenant == t && (kind.Stores? || s.cache.cells[c].served.Some?)
       case OpenDone(_, kind, _, Unwired) => kind.Services? || kind.Sweeps?
       case _ => true
  }

  lemma StepAnswers(s: Hub, step: Step, p: Pid)
    requires Inv(s) && CanTake(s, step) && AnswerOk(s, p)
    ensures AnswerOk(Take(s, step), p)
  {
    if step.Go? && step.p == p {
      GoAnswers(s, p, s.threads[p]);
    } else {
      StandsStill(s, step, p);
      CellsStay(s, step);
    }
  }

  lemma GoAnswers(s: Hub, p: Pid, pc: Pc)
    requires Inv(s) && CanTake(s, Go(p)) && s.threads[p] == pc && AnswerOk(s, p)
    ensures AnswerOk(Advance(s, p), p)
  {
    assert PcOk(s, p, pc);
    hide Inv, OpenNext, DeleteNext, ReadNext, HouseNext;
    NextIs(s, p, pc);
    Kinds(pc);
    if Opening(pc) {
      OpenAnswers(s, p, pc);
    } else {
      NextOpens(s, p, pc);
    }
  }

  lemma OpenAnswers(s: Hub, p: Pid, pc: Pc)
    requires Opening(pc) && 0 < |s.store.history| && CellNamed(s.cache, pc) && PcOk(s, p, pc)
    ensures AnswerOk(At(OpenNext(s, p, pc).0, p, OpenNext(s, p, pc).1), p)
  {
  }

  lemma {:induction false} OpensAnswer(run: seq<Hub>, steps: seq<Step>, j: nat, p: Pid)
    requires IsRun(run, steps) && j < |run|
    ensures AnswerOk(run[j], p)
  {
    hide AnswerOk;
    if j == 0 {
      NoneAnswered(run[0], p);
    } else {
      OpensAnswer(run, steps, j - 1, p);
      RunKeeps(run, steps, j - 1);
      StepAnswers(run[j - 1], steps[j - 1], p);
    }
  }

  lemma NoneAnswered(s: Hub, p: Pid)
    requires Init(s)
    ensures AnswerOk(s, p)
  {
  }

  /** No open goes without services for want of serving but one that asked for them, and began before the cache was
      wired. */
  lemma UnwiredOnlyBefore(run: seq<Hub>, steps: seq<Step>, i: nat, j: nat, p: Pid)
    requires IsRun(run, steps) && i <= j < |run| && Outside(run[i], p)
    requires p in run[j].threads && run[j].threads[p].OpenDone? && run[j].threads[p].answer.Unwired?
    ensures run[j].threads[p].kind.Services? || run[j].threads[p].kind.Sweeps?
    ensures !run[i].cache.wired
  {
    OpensAnswer(run, steps, j, p);
    if run[i].cache.wired {
      ServedIsHanded(run, steps, i, j, p);
    }
  }

  // ---------------------------------------------------------------- wiring

  /** A thread about to come back from `serve` has wired the cache. */
  ghost predicate WiringOk(s: Hub) {
    forall p <- s.threads :: s.threads[p].WireLeave? ==> s.cache.wired
  }

  lemma {:induction false} WiringKept(run: seq<Hub>, steps: seq<Step>, j: nat)
    requires IsRun(run, steps) && j < |run|
    ensures WiringOk(run[j])
  {
    hide WiringOk;
    if j == 0 {
      NoneWiring(run[0]);
    } else {
      WiringKept(run, steps, j - 1);
      RunKeeps(run, steps, j - 1);
      StepWires(run[j - 1], steps[j - 1]);
    }
  }

  lemma NoneWiring(s: Hub)
    requires Init(s)
    ensures WiringOk(s)
  {
  }

  lemma StepWires(s: Hub, step: Step)
    requires Inv(s) && CanTake(s, step) && WiringOk(s)
    ensures WiringOk(Take(s, step))
  {
    hide OpenNext, DeleteNext, ReadNext;
    CellsStay(s, step);
    forall p <- Take(s, step).threads ensures Take(s, step).threads[p].WireLeave? ==> Take(s, step).cache.wired {
      if step == Go(p) {
        Kinds(s.threads[p]);
        NextStaysIn(s, p, s.threads[p]);
      } else {
        StandsStill(s, step, p);
      }
    }
  }

  /** Only the calls that keep house come to where they do. */
  lemma NextStaysIn(s: Hub, p: Pid, pc: Pc)
    requires !pc.Idle? && 0 < |s.store.history| && CellNamed(s.cache, pc)
    ensures House(NextOf(s, p, pc).1) ==> House(pc)
  {
    Kinds(pc);
  }

  /** Once a `serve` has come back the cache is wired for good. */
  lemma ServeWires(run: seq<Hub>, steps: seq<Step>, i: nat, j: nat, p: Pid)
    requires IsRun(run, steps) && i < j < |run| && steps[i] == Go(p) && run[i].threads[p].WireLeave?
    ensures run[j].cache.wired
  {
    WiringKept(run, steps, i);
    RunGoesForward(run, steps, i, j);
  }
}
