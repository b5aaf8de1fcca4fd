/**
 What holds over whole runs of the tenant protocol, whatever the interleaving.
 */
module TenantTheorems {
  import opened Totals
  import opened TenantProtocol
  import opened TenantInvariants

  /** The states a run passes through; `steps[i]` leads from `run[i]` to `run[i + 1]`. */
  ghost predicate IsRun(run: seq<Hub>, steps: seq<Step>) {
    && |run| == |steps| + 1
    && Init(run[0])
    && (forall i | 0 <= i < |steps| ::
          0 < |run[i].store.history| && CanTake(run[i], steps[i]) && run[i + 1] == Take(run[i], steps[i]))
  }

  lemma {:induction false} RunKeeps(run: seq<Hub>, steps: seq<Step>, i: nat)
    requires IsRun(run, steps) && i < |run|
    ensures Inv(run[i])
  {
    if i == 0 {
      InitHolds(run[0]);
    } else {
      RunKeeps(run, steps, i - 1);
      TakeKeeps(run[i - 1], steps[i - 1]);
    }
  }

  /** What a stretch of a run never takes back. */
  ghost predicate Later(s: Hub, s': Hub) {
    && StoreGrows(s.store, s'.store)
    && CacheGrows(s.cache, s'.cache)
    && BrokersGrow(s.brokers, s'.brokers, s.cache.evicted)
    && s.forgotten <= s'.forgotten
    && (s.held.Some? ==> s'.held.Some? && s.held.value.version <= s'.held.value.version)
  }

  lemma LaterComposes(s: Hub, s': Hub, s'': Hub)
    requires Later(s, s') && Later(s', s'')
    ensures Later(s, s'')
  {
  }

  lemma {:induction false} RunGoesForward(run: seq<Hub>, steps: seq<Step>, i: nat, j: nat)
    requires IsRun(run, steps) && i <= j < |run|
    ensures Later(run[i], run[j])
    decreases j
  {
    if i < j {
      RunGoesForward(run, steps, i, j - 1);
      RunKeeps(run, steps, j - 1);
      TakeKeeps(run[j - 1], steps[j - 1]);
      LaterComposes(run[i], run[j - 1], run[j]);
    }
  }

  /** Thread `p` is not inside a call. */
  ghost predicate Outside(s: Hub, p: Pid) {
    p !in s.threads || s.threads[p].Idle?
  }

  lemma StartKept(s: Hub, p: Pid, pc: Pc)
    requires !pc.Idle? && 0 < |s.store.history| && CellNamed(s.cache, pc)
    ensures var pc' := NextOf(s, p, pc).1; pc'.Idle? || pc'.at == pc.at
  {
    Kinds(pc);
    if Opening(pc) {
      var pc' := OpenNext(s, p, pc).1;
      assert pc'.Idle? || pc'.at == pc.at;
    } else if Deleting(pc) {
      var pc' := DeleteNext(s, p, pc).1;
      assert pc'.Idle? || pc'.at == pc.at;
    }
  }

  /** Thread `p` is outside, or inside a call begun when all of `at` was already so. */
  ghost predicate SinceThen(s: Hub, p: Pid, at: Start) {
    Outside(s, p) || (at.gone <= s.threads[p].at.gone && at.version <= s.threads[p].at.version)
  }

  lemma StepSince(s: Hub, step: Step, p: Pid, at: Start)
    requires 0 < |s.store.history| && CanTake(s, step) && SinceThen(s, p, at)
    requires at.gone <= s.forgotten && at.version <= s.store.Version()
    ensures SinceThen(Take(s, step), p, at)
  {
    if step.Go? && step.p == p {
      StartKept(s, p, s.threads[p]);
    } else if step.Go? {
      NextTakesOne(s, step.p, s.threads[step.p]);
    }
  }

  /** A call under way at `j` that was not under way at `i` knows everything that was so at `i`. */
  lemma {:induction false} BegunSince(run: seq<Hub>, steps: seq<Step>, i: nat, j: nat, p: Pid)
    requires IsRun(run, steps) && i <= j < |run| && Outside(run[i], p)
    ensures 0 < |run[i].store.history| && SinceThen(run[j], p, Now(run[i]))
    decreases j
  {
    assert 0 < |run[i].store.history| by { RunKeeps(run, steps, i); }
    if i < j {
      BegunSince(run, steps, i, j - 1, p);
      assert Now(run[i]).gone <= run[j - 1].forgotten && Now(run[i]).version < |run[j - 1].store.history| by {
        RunGoesForward(run, steps, i, j - 1);
      }
      StepSince(run[j - 1], steps[j - 1], p, Now(run[i]));
    }
  }

  // ---------------------------------------------------------------- a forgotten tenant

  /** Code past the open check for `t`, still inside the cache's lock. */
  predicate PastCheck(pc: Pc, t: TenantId) {
    && (pc.OpenBuild? || pc.OpenServe? || pc.OpenBroker? || pc.OpenBind? || (pc.OpenLeave? && pc.found.Ok?))
    && pc.t == t
  }

  /** Past the cache's lock with `t`'s entry in hand, or handed out. */
  predicate HasEntry(pc: Pc, t: TenantId) {
    ((pc.OpenDone? && pc.answer.Handed?) || pc.OpenRead?) && pc.t == t
  }

  /** Once `forget_closed(t)` has come back — at `i` — then ever after nothing is cached for `t`, no thread is inside the
      cache's lock past the open check for it, and a thread that still has its entry in hand was already inside a call at
      `i`; its broker is dropped and closed, what serving it built is closed, and neither a store bundle nor a broker is
      ever made for it again. */
  lemma ForgottenLeavesNothing(run: seq<Hub>, steps: seq<Step>, i: nat, j: nat, t: TenantId)
    requires IsRun(run, steps) && i <= j < |run| && t in run[i].forgotten
    ensures t !in run[j].cache.entries
    ensures forall p <- run[j].threads :: !PastCheck(run[j].threads[p], t)
    ensures forall p <- run[j].threads :: HasEntry(run[j].threads[p], t) ==> !Outside(run[i], p)
    ensures BrokerGone(run[j].brokers, t) && ObjectsGone(run[j].cache, t)
    ensures forall c | |run[i].cache.cells| <= c < |run[j].cache.cells| :: run[j].cache.cells[c].tenant != t
    ensures forall b | |run[i].brokers.made| <= b < |run[j].brokers.made| :: run[j].brokers.made[b] != t
  {
    RunKeeps(run, steps, i);
    RunKeeps(run, steps, j);
    RunGoesForward(run, steps, i, j);
    forall p <- run[j].threads
      ensures !PastCheck(run[j].threads[p], t)
      ensures HasEntry(run[j].threads[p], t) ==> !Outside(run[i], p)
    {
      assert PcOk(run[j], p, run[j].threads[p]);
      if Outside(run[i], p) { BegunSince(run, steps, i, j, p); }
    }
  }

  /** Every open of a forgotten tenant begun after `forget_closed` came back is refused as closed — even when its close
      committed between another opener's check and its insert. */
  lemma ForgottenIsRefused(run: seq<Hub>, steps: seq<Step>, i: nat, j: nat, p: Pid)
    requires IsRun(run, steps) && i <= j < |run|
    requires Outside(run[i], p) && p in run[j].threads && run[j].threads[p].OpenDone?
    requires run[j].threads[p].t in run[i].forgotten
    ensures run[j].threads[p].answer == Refused(TenantClosed)
  {
    RunKeeps(run, steps, j);
    BegunSince(run, steps, i, j, p);
    assert PcOk(run[j], p, run[j].threads[p]);
  }

  /** No open is refused but truly: the tenant was not open when the call began, or it has been closed. */
  lemma RefusedOnlyTruly(run: seq<Hub>, steps: seq<Step>, i: nat, j: nat, p: Pid)
    requires IsRun(run, steps) && i <= j < |run|
    requires Outside(run[i], p) && p in run[j].threads && run[j].threads[p].OpenDone?
    requires 0 < |run[i].store.history| && run[j].threads[p].t in run[i].store.Open()
    requires run[j].threads[p].t !in run[j].store.closedAt
    ensures !run[j].threads[p].answer.Refused?
  {
    RunKeeps(run, steps, j);
    BegunSince(run, steps, i, j, p);
    RunGoesForward(run, steps, i, j);
    assert PcOk(run[j], p, run[j].threads[p]);
  }

  // ---------------------------------------------------------------- at most one of everything

  /** However many threads open a tenant, at however many moments, they are all handed the one entry — so the one
      stores bundle and the one cycle-check lock — ever built for it. */
  lemma OneBundlePerTenant(run: seq<Hub>, steps: seq<Step>, i: nat, j: nat, p: Pid, q: Pid)
    requires IsRun(run, steps) && i < |run| && j < |run|
    requires p in run[i].threads && run[i].threads[p].OpenDone? && run[i].threads[p].answer.Handed?
    requires q in run[j].threads && run[j].threads[q].OpenDone? && run[j].threads[q].answer.Handed?
    requires run[i].threads[p].t == run[j].threads[q].t
    ensures run[i].threads[p].answer == run[j].threads[q].answer
  {
    RunKeeps(run, steps, i);
    RunKeeps(run, steps, j);
    assert PcOk(run[i], p, run[i].threads[p]) && PcOk(run[j], q, run[j].threads[q]);
    if i <= j { RunGoesForward(run, steps, i, j); } else { RunGoesForward(run, steps, j, i); }
  }

  /** At most one stores bundle, one broker and one set of served objects is ever built for a tenant. */
  lemma BuiltAtMostOnce(run: seq<Hub>, steps: seq<Step>, i: nat, a: nat, b: nat)
    requires IsRun(run, steps) && i < |run|
    ensures a < b < |run[i].cache.cells| ==> run[i].cache.cells[a].tenant != run[i].cache.cells[b].tenant
    ensures a < b < |run[i].brokers.made| ==> run[i].brokers.made[a] != run[i].brokers.made[b]
    ensures a < b < |run[i].cache.servings| ==>
              run[i].cache.servings[a] < |run[i].cache.cells| && run[i].cache.servings[b] < |run[i].cache.cells|
              && run[i].cache.cells[run[i].cache.servings[a]].tenant != run[i].cache.cells[run[i].cache.servings[b]].tenant
  {
    RunKeeps(run, steps, i);
  }

  // ---------------------------------------------------------------- the copy of the open set

  /** The tenants a lookup's answer names. */
  function Reports(why: Why, copy: Copy): set<TenantId> {
    match why
    case Name(t) => if t in copy.tenants then {t} else {}
    case NameAgain(t) => if t in copy.tenants then {t} else {}
    case Only => if |copy.tenants| == 1 then copy.tenants.Keys else {}
    case _ => copy.tenants.Keys
  }

  /** The copy held never goes back to an older read of the store. */
  lemma HeldNeverGoesBack(run: seq<Hub>, steps: seq<Step>, i: nat, j: nat)
    requires IsRun(run, steps) && i <= j < |run| && run[i].held.Some?
    ensures run[j].held.Some? && run[i].held.value.version <= run[j].held.value.version
    ensures Genuine(run[j].store, run[j].held.value)
  {
    RunGoesForward(run, steps, i, j);
    RunKeeps(run, steps, j);
  }

  /** A refresh begun after a commit returns the open set as of that commit or later, and from then on nothing older
      is held. */
  lemma RefreshSeesEarlierCommits(run: seq<Hub>, steps: seq<Step>, i: nat, j: nat, k: nat, p: Pid)
    requires IsRun(run, steps) && i <= j <= k < |run|
    requires Outside(run[i], p) && p in run[j].threads && run[j].threads[p].ReadDone? && run[j].threads[p].why.Refresh?
    ensures 0 < |run[i].store.history| && run[i].store.Version() <= run[j].threads[p].copy.version
    ensures Genuine(run[j].store, run[j].threads[p].copy)
    ensures run[k].held.Some? && run[i].store.Version() <= run[k].held.value.version
  {
    RunKeeps(run, steps, j);
    BegunSince(run, steps, i, j, p);
    assert PcOk(run[j], p, run[j].threads[p]);
    HeldNeverGoesBack(run, steps, j, k);
  }

  /** No lookup begun after `forget_closed(t)` came back names `t`. */
  lemma ForgottenIsNeverReported(run: seq<Hub>, steps: seq<Step>, i: nat, j: nat, p: Pid, t: TenantId)
    requires IsRun(run, steps) && i <= j < |run|
    requires Outside(run[i], p) && p in run[j].threads && run[j].threads[p].ReadDone?
    requires t in run[i].forgotten
    ensures t !in Reports(run[j].threads[p].why, run[j].threads[p].copy)
  {
    RunKeeps(run, steps, j);
    BegunSince(run, steps, i, j, p);
    assert PcOk(run[j], p, run[j].threads[p]);
    var copy := run[j].threads[p].copy;
    assert run[j].store.closedAt[t] <= copy.version;
    assert t !in run[j].store.history[copy.version];
  }

  /** A name lookup never misses a tenant that was open when it began and has not been closed, however old the copy
      held was. */
  lemma NameFindsOpenTenants(run: seq<Hub>, steps: seq<Step>, i: nat, j: nat, p: Pid, t: TenantId)
    requires IsRun(run, steps) && i <= j < |run| && 0 < |run[i].store.history|
    requires Outside(run[i], p) && p in run[j].threads && run[j].threads[p].ReadDone?
    requires run[j].threads[p].why == Name(t) || run[j].threads[p].why == NameAgain(t)
    requires t in run[i].store.Open() && t !in run[j].store.closedAt
    ensures t in Reports(run[j].threads[p].why, run[j].threads[p].copy)
  {
    RunKeeps(run, steps, j);
    BegunSince(run, steps, i, j, p);
    RunGoesForward(run, steps, i, j);
    assert PcOk(run[j], p, run[j].threads[p]);
    var copy, v := run[j].threads[p].copy, run[i].store.Version();
    if run[j].threads[p].why.NameAgain? {
      assert t in run[j].store.history[v];
      assert t in run[j].store.history[copy.version];
    }
  }

  // ---------------------------------------------------------------- every call comes back

  /** How many steps a thread's call may still take. */
  function StepsLeft(pc: Pc): nat {
    match pc
    case Idle => 0
    case OpenWait(_, _, _) => 10
    case OpenLook(_, _, _) => 9
    case OpenConfirm(_, _, _) => 8
    case OpenBuild(_, _, _) => 7
    case OpenServe(_, _, _, _) => 6
    case OpenBroker(_, _, _, _) => 5
    case OpenBind(_, _, _, _, _) => 4
    case OpenLeave(_, _, _, _) => 3
    case OpenRead(_, _, _, _) => 2
    case OpenDone(_, _, _, _) => 1
    case CloseCommit(_, _) => 12
    case EvictWait(_, _) => 11
    case EvictPop(_, _) => 10
    case EvictLeave(_, _, _, _) => 9
    case EvictDrop(_, _, _) => 8
    case EvictHush(_, _, _, _) => 7
    case EvictObjects(_, _, _) => 6
    case CloseDone(_, _, _) => 1
    case HeldRead(_, _) => 10
    case LoadWait(why, _) => if why.Name? then 9 else 5
    case LoadRead(why, _) => if why.Name? then 8 else 4
    case LoadSwap(why, _, _) => if why.Name? then 7 else 3
    case LoadLeave(why, _, _) => if why.Name? then 6 else 2
    case ReadDone(_, _, _) => 1
    case WireWait(_) => 3
    case WireSet(_) => 2
    case WireLeave(_) => 1
    case ShutWait(_) => 4
    case ShutGather(_) => 3
    case ShutLeave(_, _) => 2
    case ShutClose(_, _) => 1
  }

  ghost function Work(s: Hub): nat {
    Total(map p | p in s.threads :: StepsLeft(s.threads[p]))
  }

  lemma NextTakesOne(s: Hub, p: Pid, pc: Pc)
    requires !pc.Idle? && 0 < |s.store.history| && CellNamed(s.cache, pc)
    ensures StepsLeft(NextOf(s, p, pc).1) < StepsLeft(pc)
    ensures NextOf(s, p, pc).0.threads == s.threads
  {
    hide *;
    Kinds(pc);
    NextIs(s, p, pc);
    if Opening(pc) {
      OpenTakesOne(s, p, pc);
    } else if Deleting(pc) {
      DeleteTakesOne(s, p, pc);
    } else if Reading(pc) {
      ReadTakesOne(s, p, pc);
    } else {
      HouseTakesOne(s, p, pc);
    }
  }

  lemma NextIs(s: Hub, p: Pid, pc: Pc)
    requires !pc.Idle? && 0 < |s.store.history| && CellNamed(s.cache, pc)
    ensures Opening(pc) ==> NextOf(s, p, pc) == OpenNext(s, p, pc)
    ensures Deleting(pc) ==> NextOf(s, p, pc) == DeleteNext(s, p, pc)
    ensures Reading(pc) ==> NextOf(s, p, pc) == ReadNext(s, p, pc)
    ensures House(pc) ==> NextOf(s, p, pc) == HouseNext(s, p, pc)
  {
    hide OpenNext, DeleteNext, ReadNext, HouseNext;
  }

  lemma OpenTakesOne(s: Hub, p: Pid, pc: Pc)
    requires Opening(pc) && 0 < |s.store.history| && CellNamed(s.cache, pc)
    ensures StepsLeft(OpenNext(s, p, pc).1) < StepsLeft(pc) && OpenNext(s, p, pc).0.threads == s.threads
  {
  }

  lemma DeleteTakesOne(s: Hub, p: Pid, pc: Pc)
    requires Deleting(pc) && 0 < |s.store.history| && CellNamed(s.cache, pc)
    ensures StepsLeft(DeleteNext(s, p, pc).1) < StepsLeft(pc) && DeleteNext(s, p, pc).0.threads == s.threads
  {
  }

  lemma ReadTakesOne(s: Hub, p: Pid, pc: Pc)
    requires Reading(pc) && 0 < |s.store.history|
    ensures StepsLeft(ReadNext(s, p, pc).1) < StepsLeft(pc) && ReadNext(s, p, pc).0.threads == s.threads
  {
  }

  lemma HouseTakesOne(s: Hub, p: Pid, pc: Pc)
    requires House(pc)
    ensures StepsLeft(HouseNext(s, p, pc).1) < StepsLeft(pc) && HouseNext(s, p, pc).0.threads == s.threads
  {
  }

  lemma GoLowersWork(s: Hub, p: Pid)
    requires 0 < |s.store.history| && CanTake(s, Go(p))
    ensures Work(Take(s, Go(p))) < Work(s)
  {
    NextTakesOne(s, p, s.threads[p]);
    var s' := Take(s, Go(p));
    var m := map q | q in s.threads :: StepsLeft(s.threads[q]);
    var m' := map q | q in s'.threads :: StepsLeft(s'.threads[q]);
    TotalUpdated(m, p, m'[p]);
    assert m' == m[p := m'[p]];
  }

  /** Thread `q` is inside a call and waits for no lock anyone holds. */
  lemma MayGo(s: Hub, q: Pid)
    requires Inv(s) && Enabled(s, q)
    ensures 0 < |s.store.history| && CanTake(s, Go(q))
  {
    InvNamesCells(s, q);
  }

  /** The two locks never hold each other up: while any thread is inside a call, some thread can take its next step. */
  lemma NeverStuck(s: Hub, p: Pid)
    requires Inv(s) && p in s.threads && !s.threads[p].Idle?
    ensures 0 < |s.store.history| && exists q :: CanTake(s, Go(q))
  {
    var q := if WantsCache(s.threads[p]) && s.cacheLock.Some? then s.cacheLock.value
             else if WantsLoad(s.threads[p]) && s.loadLock.Some? then s.loadLock.value
             else p;
    assert Enabled(s, q) by { HolderEnabled(s, p, q); }
    MayGo(s, q);
  }

  lemma HolderEnabled(s: Hub, p: Pid, q: Pid)
    requires Exclusive(s) && p in s.threads && !s.threads[p].Idle?
    requires q == if WantsCache(s.threads[p]) && s.cacheLock.Some? then s.cacheLock.value
                  else if WantsLoad(s.threads[p]) && s.loadLock.Some? then s.loadLock.value
                  else p
    ensures Enabled(s, q)
  {
  }

  /** Once no new call begins, every call comes back within the work then left: a stretch of steps inside calls is no
      longer than that work, and where no such step can be taken every thread is outside. */
  lemma {:induction false} CallsComeBack(run: seq<Hub>, steps: seq<Step>, i: nat, j: nat)
    requires IsRun(run, steps) && i <= j < |run|
    requires forall k | i <= k < j :: steps[k].Go?
    ensures Work(run[j]) + (j - i) <= Work(run[i])
    ensures 0 < |run[j].store.history|
    ensures forall p <- run[j].threads :: run[j].threads[p].Idle? || exists q :: CanTake(run[j], Go(q))
  {
    RunKeeps(run, steps, j);
    forall p <- run[j].threads ensures run[j].threads[p].Idle? || exists q :: CanTake(run[j], Go(q)) {
      if !run[j].threads[p].Idle? { NeverStuck(run[j], p); }
    }
    WorkFalls(run, steps, i, j);
  }

  lemma {:induction false} WorkFalls(run: seq<Hub>, steps: seq<Step>, i: nat, j: nat)
    requires IsRun(run, steps) && i <= j < |run|
    requires forall k | i <= k < j :: steps[k].Go?
    ensures Work(run[j]) + (j - i) <= Work(run[i])
    decreases j
  {
    if i < j {
      WorkFalls(run, steps, i, j - 1);
      GoLowersWork(run[j - 1], steps[j - 1].p);
    }
  }
}
