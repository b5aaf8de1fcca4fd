/**
 What every step of the tenant protocol keeps: the two locks exclude, the cache and the brokers hold nothing of an
 evicted tenant, everything is built at most once per tenant, and the copies of the open set are genuine and current
 enough for the thread that holds them.

 The proof is rely-guarantee. Each step restores what the threads share and what its own thread counts on
 (`...Memory`, `...Stands`), and guarantees every other thread that nothing it counts on is taken back (`Guarantees`,
 `Stable...`).
 */
module TenantInvariants {
  import opened Prelude
  import opened TenantProtocol

  // ---------------------------------------------------------------- the locks

  ghost predicate Exclusive(s: Hub) {
    && (s.cacheLock.Some? ==> s.cacheLock.value in s.threads && HoldsCache(s.threads[s.cacheLock.value]))
    && (s.loadLock.Some? ==> s.loadLock.value in s.threads && HoldsLoad(s.threads[s.loadLock.value]))
    && (forall p <- s.threads :: HoldsCache(s.threads[p]) ==> s.cacheLock == Some(p))
    && (forall p <- s.threads :: HoldsLoad(s.threads[p]) ==> s.loadLock == Some(p))
  }

  // ---------------------------------------------------------------- what the threads share

  /** The map names each cached tenant's own cell, an evicted tenant has none, and no tenant ever had two cells. */
  ghost predicate CellsOk(c: Cache) {
    && (forall t <- c.entries :: c.entries[t] < |c.cells| && c.cells[c.entries[t]].tenant == t && t !in c.evicted)
    && (forall i | 0 <= i < |c.cells| ::
          && (c.cells[i].tenant in c.entries || c.cells[i].tenant in c.evicted)
          && (c.cells[i].tenant in c.entries ==> c.entries[c.cells[i].tenant] == i))
    && (forall i, j | 0 <= i < j < |c.cells| :: c.cells[i].tenant != c.cells[j].tenant)
  }

  /** Each set of built objects is the one set its cell serves, and each served cell has its own. */
  ghost predicate ServingsOk(c: Cache) {
    && (forall i | 0 <= i < |c.servings| ::
          && c.servings[i] < |c.cells|
          && c.cells[c.servings[i]].served.Some?
          && c.cells[c.servings[i]].served.value.objects == i)
    && (forall i | 0 <= i < |c.cells| && c.cells[i].served.Some? ::
          && c.cells[i].served.value.objects < |c.servings|
          && c.servings[c.cells[i].served.value.objects] == i)
  }

  /** A tenant has at most one broker ever: the live one, or — once evicted — one no longer used. */
  ghost predicate BrokersOk(b: Brokers, c: Cache) {
    && (forall t <- b.live :: b.live[t] < |b.made| && b.made[b.live[t]] == t)
    && (b.made != [] ==> c.wired)
    && (forall i | 0 <= i < |b.made| ::
          && (b.made[i] in b.live || b.made[i] in c.evicted)
          && (b.made[i] in b.live ==> b.live[b.made[i]] == i))
    && (forall i, j | 0 <= i < j < |b.made| :: b.made[i] != b.made[j])
    && (forall i | 0 <= i < |c.cells| && c.cells[i].served.Some? ::
          && c.cells[i].served.value.broker < |b.made|
          && b.made[c.cells[i].served.value.broker] == c.cells[i].tenant)
  }

  /** `t` has no live broker, and each one ever made for it is closed. */
  ghost predicate BrokerGone(b: Brokers, t: TenantId) {
    && t !in b.live
    && (forall i | 0 <= i < |b.made| && b.made[i] == t :: i in b.closed)
  }

  /** Every object serving `t` ever built is closed. */
  ghost predicate ObjectsGone(c: Cache, t: TenantId) {
    forall i | 0 <= i < |c.cells| && c.cells[i].tenant == t && c.cells[i].served.Some? ::
      c.cells[i].served.value.objects in c.closed
  }

  /** `copy` is what the store held open at the version it was read at. */
  ghost predicate Genuine(store: Store, copy: Copy) {
    copy.version < |store.history| && copy.tenants == store.history[copy.version]
  }

  /** `copy` was read after every tenant in `gone` closed. */
  ghost predicate After(store: Store, copy: Copy, gone: set<TenantId>) {
    forall t <- gone :: t in store.closedAt && store.closedAt[t] <= copy.version
  }

  ghost predicate ForgottenOk(s: Hub) {
    && (forall t <- s.forgotten :: BrokerGone(s.brokers, t) && ObjectsGone(s.cache, t))
    && (s.forgotten != {} ==> s.held.Some? && After(s.store, s.held.value, s.forgotten))
  }

  ghost predicate SharedOk(s: Hub) {
    && s.store.Valid()
    && CellsOk(s.cache) && ServingsOk(s.cache) && BrokersOk(s.brokers, s.cache)
    && s.forgotten <= s.cache.evicted <= s.store.closedAt.Keys
    && s.closers.Keys <= s.store.closedAt.Keys
    && (s.held.Some? ==> Genuine(s.store, s.held.value))
    && ForgottenOk(s)
  }

  // ---------------------------------------------------------------- what a thread counts on

  ghost predicate OpenPcOk(c: Cache, b: Brokers, pc: Pc) {
    match pc
    case OpenConfirm(t, _, _) => t !in c.entries
    case OpenBuild(t, _, _) => t !in c.entries && t !in c.evicted
    case OpenServe(t, _, _, i) => t in c.entries && c.entries[t] == i
    case OpenBroker(t, _, _, i) => t in c.entries && c.entries[t] == i < |c.cells| && c.cells[i].served.None? && c.wired
    case OpenBind(t, _, _, i, k) =>
      && t in c.entries && c.entries[t] == i < |c.cells| && c.cells[i].served.None? && c.wired
      && k < |b.made| && b.made[k] == t
    case OpenLeave(t, _, at, found) =>
      if found.Ok? then t in c.entries && c.entries[t] == found.value && t !in at.gone
      else t in at.gone ==> found.error == TenantClosed
    case OpenRead(t, _, at, i) => i < |c.cells| && c.cells[i].tenant == t && t !in at.gone
    case OpenDone(t, k, at, answer) =>
      && (t in at.gone ==> answer == Refused(TenantClosed))
      && (answer.Handed? ==>
            && answer.cell < |c.cells| && c.cells[answer.cell].tenant == t
            && (k.Stores? || c.cells[answer.cell].served.Some?))
    case _ => true
  }

  /** An eviction popped `t`, and `popped` is the one entry `t` ever had. */
  ghost predicate PoppedOk(c: Cache, t: TenantId, popped: Option<nat>) {
    && t in c.evicted
    && (forall i | 0 <= i < |c.cells| && c.cells[i].tenant == t :: popped == Some(i))
    && (popped.Some? ==> popped.value < |c.cells| && c.cells[popped.value].tenant == t)
  }

  /** The close of `t` that committed is thread `p`'s. */
  ghost predicate ClosedBy(s: Hub, p: Pid, t: TenantId) {
    t in s.store.closedAt && t in s.closers && s.closers[t] == p
  }

  /** No broker of `t` has been dropped yet. */
  ghost predicate Undropped(b: Brokers, t: TenantId) {
    forall i | 0 <= i < |b.made| && b.made[i] == t :: t in b.live
  }

  /** Every broker of `t` is closed, but for the one just dropped. */
  ghost predicate Hushing(b: Brokers, t: TenantId, dropped: Option<nat>) {
    t !in b.live && (forall i | 0 <= i < |b.made| && b.made[i] == t :: i in b.closed || dropped == Some(i))
  }

  ghost predicate DeletePcOk(s: Hub, p: Pid, pc: Pc) {
    match pc
    case EvictWait(t, _) => ClosedBy(s, p, t) && t !in s.cache.evicted
    case EvictPop(t, _) => ClosedBy(s, p, t) && t !in s.cache.evicted
    case EvictLeave(t, _, popped, serving) =>
      && ClosedBy(s, p, t) && PoppedOk(s.cache, t, popped)
      && (if serving then Undropped(s.brokers, t) else BrokerGone(s.brokers, t))
    case EvictDrop(t, _, popped) => ClosedBy(s, p, t) && PoppedOk(s.cache, t, popped) && Undropped(s.brokers, t)
    case EvictHush(t, _, popped, dropped) =>
      ClosedBy(s, p, t) && PoppedOk(s.cache, t, popped) && Hushing(s.brokers, t, dropped)
    case EvictObjects(t, _, popped) =>
      ClosedBy(s, p, t) && PoppedOk(s.cache, t, popped) && BrokerGone(s.brokers, t)
    case _ => true
  }

  ghost predicate ForgetOk(s: Hub, why: Why) {
    why.Forget? ==> why.gone in s.cache.evicted && BrokerGone(s.brokers, why.gone) && ObjectsGone(s.cache, why.gone)
  }

  ghost predicate Fresh(s: Hub, why: Why, at: Start, copy: Copy) {
    && Genuine(s.store, copy) && After(s.store, copy, at.gone) && at.version <= copy.version
    && (why.Forget? ==> After(s.store, copy, {why.gone}))
  }

  ghost predicate ReadPcOk(s: Hub, pc: Pc) {
    match pc
    case HeldRead(why, _) => why.Name? || why.Only? || why.Every?
    case LoadWait(why, _) => ForgetOk(s, why)
    case LoadRead(why, _) => ForgetOk(s, why)
    case LoadSwap(why, at, copy) =>
      && ForgetOk(s, why) && Fresh(s, why, at, copy)
      && (s.held.Some? ==> s.held.value.version <= copy.version)
    case LoadLeave(why, at, copy) =>
      && ForgetOk(s, why) && Fresh(s, why, at, copy)
      && s.held.Some? && copy.version <= s.held.value.version
    case ReadDone(why, at, copy) =>
      && Genuine(s.store, copy) && After(s.store, copy, at.gone)
      && s.held.Some? && copy.version <= s.held.value.version
      && (why.Refresh? || why.NameAgain? ==> at.version <= copy.version)
      && (why.Name? ==> why.tenant in copy.tenants)
    case _ => true
  }

  /** An opener was refused truly: a closed tenant holds a deletion fact, and an unknown one was not open when the call
      began. */
  ghost predicate RefusalOk(store: Store, t: TenantId, at: Start, refusal: Refusal) {
    match refusal
    case TenantClosed => t in store.closedAt
    case UnknownTenant => at.version < |store.history| && t !in store.history[at.version]
  }

  ghost predicate RefusedPcOk(store: Store, pc: Pc) {
    && (pc.OpenLeave? && pc.found.Err? ==> RefusalOk(store, pc.t, pc.at, pc.found.error))
    && (pc.OpenDone? && pc.answer.Refused? ==> RefusalOk(store, pc.t, pc.at, pc.answer.refusal))
  }

  ghost predicate PcOk(s: Hub, p: Pid, pc: Pc) {
    && OpenPcOk(s.cache, s.brokers, pc) && DeletePcOk(s, p, pc) && ReadPcOk(s, pc) && RefusedPcOk(s.store, pc)
    && (!pc.Idle? ==> pc.at.gone <= s.forgotten && pc.at.version < |s.store.history|)
  }

  ghost predicate Inv(s: Hub) {
    && Exclusive(s)
    && SharedOk(s)
    && (forall p <- s.threads :: PcOk(s, p, s.threads[p]))
  }

  // ---------------------------------------------------------------- what a step guarantees every other thread

  ghost predicate StoreGrows(s: Store, s': Store) {
    && s.history <= s'.history
    && (forall t <- s.closedAt :: t in s'.closedAt && s'.closedAt[t] == s.closedAt[t])
  }

  /** No cell changes hands or is served twice, and none is made or served for an evicted tenant. */
  ghost predicate CacheGrows(c: Cache, c': Cache) {
    && (c.wired ==> c'.wired)
    && |c.cells| <= |c'.cells|
    && (forall i | 0 <= i < |c.cells| ::
          && c'.cells[i].tenant == c.cells[i].tenant
          && (c.cells[i].served.Some? || c.cells[i].tenant in c.evicted ==> c'.cells[i] == c.cells[i]))
    && (forall i | |c.cells| <= i < |c'.cells| :: c'.cells[i].tenant !in c.evicted)
    && c.evicted <= c'.evicted && c.closed <= c'.closed
  }

  /** No broker is made for an evicted tenant. */
  ghost predicate BrokersGrow(b: Brokers, b': Brokers, evicted: set<TenantId>) {
    && b.made <= b'.made
    && (forall i | |b.made| <= i < |b'.made| :: b'.made[i] !in evicted)
    && (forall t <- b'.live :: t in evicted ==> t in b.live)
    && b.closed <= b'.closed
  }

  /** What a thread holding the cache's lock finds unchanged by any other thread's step. */
  ghost predicate Quiet(c: Cache, c': Cache) {
    c'.(closed := c.closed) == c
  }

  /** Only the thread whose close of a tenant committed evicts that tenant and drops its broker. */
  ghost predicate OwnEvictions(s: Hub, s': Hub, p: Pid) {
    && (forall t <- s.closers :: t in s'.closers && s'.closers[t] == s.closers[t])
    && (forall t <- s'.cache.evicted :: t in s.cache.evicted || ClosedBy(s, p, t))
    && (forall t <- s.brokers.live :: t in s'.brokers.live || ClosedBy(s, p, t))
  }

  ghost predicate Guarantees(s: Hub, s': Hub, p: Pid) {
    && StoreGrows(s.store, s'.store)
    && CacheGrows(s.cache, s'.cache)
    && BrokersGrow(s.brokers, s'.brokers, s.cache.evicted)
    && OwnEvictions(s, s', p)
    && s.forgotten <= s'.forgotten
    && (s.cacheLock.Some? && s.cacheLock != Some(p) ==> Quiet(s.cache, s'.cache))
    && (s.held.Some? ==> s'.held.Some? && s.held.value.version <= s'.held.value.version)
    && (s.loadLock.Some? && s.loadLock != Some(p) ==> s'.held == s.held)
  }

  lemma StableForgotten(s: Hub, s': Hub, t: TenantId)
    requires CacheGrows(s.cache, s'.cache) && BrokersGrow(s.brokers, s'.brokers, s.cache.evicted) && t in s.cache.evicted
    ensures BrokerGone(s.brokers, t) ==> BrokerGone(s'.brokers, t)
    ensures ObjectsGone(s.cache, t) ==> ObjectsGone(s'.cache, t)
  {
  }

  lemma StableOpen(s: Hub, s': Hub, pc: Pc)
    requires CacheGrows(s.cache, s'.cache) && BrokersGrow(s.brokers, s'.brokers, s.cache.evicted)
    requires OpenPcOk(s.cache, s.brokers, pc)
    requires HoldsCache(pc) ==> Quiet(s.cache, s'.cache)
    ensures OpenPcOk(s'.cache, s'.brokers, pc)
  {
  }

  lemma StableDelete(s: Hub, s': Hub, p: Pid, q: Pid, pc: Pc)
    requires Guarantees(s, s', p) && q != p && DeletePcOk(s, q, pc)
    ensures DeletePcOk(s', q, pc)
  {
    match pc
    case EvictLeave(t, _, _, _) => StableForgotten(s, s', t);
    case EvictObjects(t, _, _) => StableForgotten(s, s', t);
    case _ =>
  }

  lemma StableForget(s: Hub, s': Hub, p: Pid, why: Why)
    requires Guarantees(s, s', p) && ForgetOk(s, why)
    ensures ForgetOk(s', why)
  {
    if why.Forget? { StableForgotten(s, s', why.gone); }
  }

  lemma StableRead(s: Hub, s': Hub, p: Pid, pc: Pc)
    requires Guarantees(s, s', p) && ReadPcOk(s, pc)
    requires HoldsLoad(pc) ==> s.loadLock.Some? && s.loadLock != Some(p)
    ensures ReadPcOk(s', pc)
  {
    match pc
    case LoadWait(why, _) => StableForget(s, s', p, why);
    case LoadRead(why, _) => StableForget(s, s', p, why);
    case LoadSwap(why, _, _) => StableForget(s, s', p, why);
    case LoadLeave(why, _, _) => StableForget(s, s', p, why);
    case _ =>
  }

  lemma StablePc(s: Hub, s': Hub, p: Pid, q: Pid, pc: Pc)
    requires Guarantees(s, s', p) && q != p && PcOk(s, q, pc)
    requires HoldsCache(pc) ==> s.cacheLock.Some? && s.cacheLock != Some(p)
    requires HoldsLoad(pc) ==> s.loadLock.Some? && s.loadLock != Some(p)
    ensures PcOk(s', q, pc)
  {
    StableOpen(s, s', pc);
    StableDelete(s, s', p, q, pc);
    StableRead(s, s', p, pc);
  }

  // ---------------------------------------------------------------- what each statement keeps

  lemma BuildKeeps(c: Cache, b: Brokers, t: TenantId)
    requires CellsOk(c) && ServingsOk(c) && BrokersOk(b, c) && t !in c.entries && t !in c.evicted
    ensures CellsOk(Build(c, t)) && ServingsOk(Build(c, t)) && BrokersOk(b, Build(c, t)) && CacheGrows(c, Build(c, t))
  {
  }

  lemma BindKeeps(c: Cache, b: Brokers, i: nat, k: nat)
    requires CellsOk(c) && ServingsOk(c) && BrokersOk(b, c)
    requires i < |c.cells| && c.cells[i].served.None? && c.cells[i].tenant in c.entries && c.wired
    requires k < |b.made| && b.made[k] == c.cells[i].tenant
    ensures CellsOk(Bind(c, i, k)) && ServingsOk(Bind(c, i, k)) && BrokersOk(b, Bind(c, i, k))
    ensures CacheGrows(c, Bind(c, i, k))
  {
  }

  lemma ForTenantKeeps(c: Cache, b: Brokers, t: TenantId)
    requires BrokersOk(b, c) && c.wired && t !in c.evicted
    ensures BrokersOk(ForTenant(b, t).0, c) && BrokersGrow(b, ForTenant(b, t).0, c.evicted)
    ensures ForTenant(b, t).1 < |ForTenant(b, t).0.made| && ForTenant(b, t).0.made[ForTenant(b, t).1] == t
    ensures b.live.Keys <= ForTenant(b, t).0.live.Keys
  {
  }

  lemma PopKeeps(c: Cache, b: Brokers, t: TenantId)
    requires CellsOk(c) && ServingsOk(c) && BrokersOk(b, c) && t !in c.evicted
    ensures CellsOk(Pop(c, t)) && ServingsOk(Pop(c, t)) && BrokersOk(b, Pop(c, t)) && CacheGrows(c, Pop(c, t))
    ensures PoppedOk(Pop(c, t), t, Lookup(c.entries, t))
    ensures if c.wired then Undropped(b, t) else BrokerGone(b, t)
  {
  }

  lemma DropKeeps(c: Cache, b: Brokers, t: TenantId)
    requires BrokersOk(b, c) && t in c.evicted && Undropped(b, t)
    ensures BrokersOk(Drop(b, t), c) && BrokersGrow(b, Drop(b, t), c.evicted)
    ensures Hushing(Drop(b, t), t, Lookup(b.live, t))
  {
  }

  lemma CloseObjectsKeeps(c: Cache, b: Brokers, t: TenantId, popped: Option<nat>)
    requires CellsOk(c) && ServingsOk(c) && BrokersOk(b, c) && PoppedOk(c, t, popped)
    ensures var c' := CloseObjects(c, popped);
      && CellsOk(c') && ServingsOk(c') && BrokersOk(b, c') && CacheGrows(c, c') && Quiet(c, c')
      && ObjectsGone(c', t)
  {
  }

  // ---------------------------------------------------------------- what a step does itself

  /** A thread at `pc` may count on what it may count on, and holds the lock its place in the code holds. */
  ghost predicate Ready(s: Hub, p: Pid, pc: Pc) {
    && SharedOk(s)
    && !pc.Idle? && CellNamed(s.cache, pc) && PcOk(s, p, pc)
    && (HoldsCache(pc) ==> s.cacheLock == Some(p))
    && (HoldsLoad(pc) ==> s.loadLock == Some(p))
    && (WantsCache(pc) ==> s.cacheLock.None?)
    && (WantsLoad(pc) ==> s.loadLock.None?)
  }

  lemma ForgottenKept(s: Hub, s': Hub, p: Pid)
    requires Guarantees(s, s', p) && s'.forgotten == s.forgotten
    requires s.forgotten <= s.cache.evicted && ForgottenOk(s)
    ensures ForgottenOk(s')
  {
    forall t <- s'.forgotten ensures BrokerGone(s'.brokers, t) && ObjectsGone(s'.cache, t) {
      StableForgotten(s, s', t);
    }
  }

  /** A thread's write to the cache: it holds the lock, or closes objects only; it evicts only what it closed. */
  lemma CacheWrite(s: Hub, c': Cache, p: Pid)
    requires SharedOk(s) && CellsOk(c') && ServingsOk(c') && BrokersOk(s.brokers, c') && CacheGrows(s.cache, c')
    requires s.cacheLock == Some(p) || Quiet(s.cache, c')
    requires forall t <- c'.evicted :: t in s.cache.evicted || ClosedBy(s, p, t)
    ensures var s' := s.(cache := c'); Guarantees(s, s', p) && SharedOk(s')
  {
    ForgottenKept(s, s.(cache := c'), p);
  }

  /** A thread's write to the brokers: it drops only the broker of a tenant it closed. */
  lemma BrokersWrite(s: Hub, b': Brokers, p: Pid)
    requires SharedOk(s) && BrokersOk(b', s.cache) && BrokersGrow(s.brokers, b', s.cache.evicted)
    requires forall t <- s.brokers.live :: t in b'.live || ClosedBy(s, p, t)
    ensures var s' := s.(brokers := b'); Guarantees(s, s', p) && SharedOk(s')
  {
    ForgottenKept(s, s.(brokers := b'), p);
  }

  /** Taking or letting go a lock changes nothing it guards. */
  lemma LockWrite(s: Hub, cacheLock: Option<Pid>, loadLock: Option<Pid>, p: Pid)
    requires SharedOk(s)
    ensures var s' := s.(cacheLock := cacheLock, loadLock := loadLock); Guarantees(s, s', p) && SharedOk(s')
  {
  }

  lemma OpenMemory(s: Hub, p: Pid, pc: Pc)
    requires Ready(s, p, pc) && Opening(pc)
    ensures var s' := OpenNext(s, p, pc).0; Guarantees(s, s', p) && SharedOk(s')
  {
    if pc.OpenBuild? {
      BuildKeeps(s.cache, s.brokers, pc.t);
      CacheWrite(s, Build(s.cache, pc.t), p);
    } else if pc.OpenBroker? {
      ForTenantKeeps(s.cache, s.brokers, pc.t);
      BrokersWrite(s, ForTenant(s.brokers, pc.t).0, p);
    } else if pc.OpenBind? {
      BindKeeps(s.cache, s.brokers, pc.cell, pc.broker);
      CacheWrite(s, Bind(s.cache, pc.cell, pc.broker), p);
    } else {
      LockWrite(s, OpenNext(s, p, pc).0.cacheLock, s.loadLock, p);
    }
  }

  lemma OpenStands(s: Hub, p: Pid, pc: Pc)
    requires Ready(s, p, pc) && Opening(pc)
    ensures var (s', pc') := OpenNext(s, p, pc); PcOk(s', p, pc')
  {
  }

  lemma CommitKeeps(s: Hub, p: Pid, t: TenantId)
    requires SharedOk(s) && CloseOutcomeOf(s.store, t).Closed?
    ensures var s' := s.(store := Close(s.store, t), closers := s.closers[t := p]); Guarantees(s, s', p) && SharedOk(s')
  {
    ForgottenKept(s, s.(store := Close(s.store, t), closers := s.closers[t := p]), p);
  }

  lemma DeleteMemory(s: Hub, p: Pid, pc: Pc)
    requires Ready(s, p, pc) && Deleting(pc)
    ensures var s' := DeleteNext(s, p, pc).0; Guarantees(s, s', p) && SharedOk(s')
  {
    if pc.CloseCommit? && CloseOutcomeOf(s.store, pc.t).Closed? {
      CommitKeeps(s, p, pc.t);
    } else if pc.EvictPop? {
      PopKeeps(s.cache, s.brokers, pc.t);
      CacheWrite(s, Pop(s.cache, pc.t), p);
    } else if pc.EvictDrop? {
      DropKeeps(s.cache, s.brokers, pc.t);
      BrokersWrite(s, Drop(s.brokers, pc.t), p);
    } else if pc.EvictHush? {
      BrokersWrite(s, Hush(s.brokers, pc.dropped), p);
    } else if pc.EvictObjects? {
      CloseObjectsKeeps(s.cache, s.brokers, pc.t, pc.popped);
      CacheWrite(s, CloseObjects(s.cache, pc.popped), p);
    } else {
      LockWrite(s, DeleteNext(s, p, pc).0.cacheLock, s.loadLock, p);
    }
  }

  lemma DeleteStands(s: Hub, p: Pid, pc: Pc)
    requires Ready(s, p, pc) && Deleting(pc)
    ensures var (s', pc') := DeleteNext(s, p, pc); PcOk(s', p, pc')
  {
    if pc.EvictPop? {
      PopKeeps(s.cache, s.brokers, pc.t);
    } else if pc.EvictDrop? {
      DropKeeps(s.cache, s.brokers, pc.t);
    } else if pc.EvictObjects? {
      CloseObjectsKeeps(s.cache, s.brokers, pc.t, pc.popped);
    }
  }

  lemma ReadMemory(s: Hub, p: Pid, pc: Pc)
    requires Ready(s, p, pc) && Reading(pc)
    ensures var s' := ReadNext(s, p, pc).0; Guarantees(s, s', p) && SharedOk(s')
  {
    hide CellsOk, ServingsOk, BrokersOk, BrokerGone, ObjectsGone;
  }

  lemma LoadStands(s: Hub, p: Pid, pc: Pc)
    requires Ready(s, p, pc) && HoldsLoad(pc)
    ensures var (s', pc') := ReadNext(s, p, pc); PcOk(s', p, pc')
  {
    hide CellsOk, ServingsOk, BrokersOk, BrokerGone, ObjectsGone;
  }

  lemma ReadStands(s: Hub, p: Pid, pc: Pc)
    requires Ready(s, p, pc) && Reading(pc)
    ensures var (s', pc') := ReadNext(s, p, pc); PcOk(s', p, pc')
  {
    if HoldsLoad(pc) { LoadStands(s, p, pc); }
  }

  lemma HouseMemory(s: Hub, p: Pid, pc: Pc)
    requires Ready(s, p, pc) && House(pc)
    ensures var s' := HouseNext(s, p, pc).0; Guarantees(s, s', p) && SharedOk(s')
  {
    if pc.WireSet? {
      CacheWrite(s, s.cache.(wired := true), p);
    } else if pc.ShutClose? {
      CacheWrite(s, s.cache.(closed := s.cache.closed + pc.objects), p);
    } else {
      LockWrite(s, HouseNext(s, p, pc).0.cacheLock, s.loadLock, p);
    }
  }

  lemma HouseStands(s: Hub, p: Pid, pc: Pc)
    requires Ready(s, p, pc) && House(pc)
    ensures var (s', pc') := HouseNext(s, p, pc); PcOk(s', p, pc')
  {
  }

  lemma Kinds(pc: Pc)
    ensures pc.Idle? || Opening(pc) || Deleting(pc) || Reading(pc) || House(pc)
  {
  }

  /** What a thread's step must leave: what is shared in order, its guarantees kept, its own place accounted for, and
      each lock taken or let go as the code's blocks do. */
  ghost predicate StepOk(s: Hub, p: Pid, pc: Pc, next: (Hub, Pc)) {
    Guarantees(s, next.0, p) && SharedOk(next.0) && PcOk(next.0, p, next.1) && LocksMoved(s, p, pc, next)
  }

  /** A step takes a lock only when it is free, keeps it while its code is inside the lock's block, and lets it go at
      the block's end. */
  ghost predicate LocksMoved(s: Hub, p: Pid, pc: Pc, next: (Hub, Pc)) {
    && next.0.threads == s.threads
    && next.0.cacheLock == (if HoldsCache(next.1) then Some(p) else if HoldsCache(pc) then None else s.cacheLock)
    && next.0.loadLock == (if HoldsLoad(next.1) then Some(p) else if HoldsLoad(pc) then None else s.loadLock)
    && (HoldsCache(next.1) ==> HoldsCache(pc) || WantsCache(pc))
    && (HoldsLoad(next.1) ==> HoldsLoad(pc) || WantsLoad(pc))
  }

  lemma OpenLocks(s: Hub, p: Pid, pc: Pc)
    requires 0 < |s.store.history| && Opening(pc) && CellNamed(s.cache, pc)
    requires (HoldsCache(pc) ==> s.cacheLock == Some(p)) && (HoldsLoad(pc) ==> s.loadLock == Some(p))
    ensures LocksMoved(s, p, pc, OpenNext(s, p, pc))
  {
  }

  lemma OpenOk(s: Hub, p: Pid, pc: Pc)
    requires Ready(s, p, pc) && Opening(pc)
    ensures StepOk(s, p, pc, OpenNext(s, p, pc))
  {
    OpenMemory(s, p, pc);
    OpenStands(s, p, pc);
    OpenLocks(s, p, pc);
  }

  lemma DeleteLocks(s: Hub, p: Pid, pc: Pc)
    requires 0 < |s.store.history| && Deleting(pc) && CellNamed(s.cache, pc)
    requires (HoldsCache(pc) ==> s.cacheLock == Some(p)) && (HoldsLoad(pc) ==> s.loadLock == Some(p))
    ensures LocksMoved(s, p, pc, DeleteNext(s, p, pc))
  {
  }

  lemma DeleteOk(s: Hub, p: Pid, pc: Pc)
    requires Ready(s, p, pc) && Deleting(pc)
    ensures StepOk(s, p, pc, DeleteNext(s, p, pc))
  {
    DeleteMemory(s, p, pc);
    DeleteStands(s, p, pc);
    DeleteLocks(s, p, pc);
  }

  lemma ReadLocks(s: Hub, p: Pid, pc: Pc)
    requires 0 < |s.store.history| && Reading(pc)
    requires (HoldsCache(pc) ==> s.cacheLock == Some(p)) && (HoldsLoad(pc) ==> s.loadLock == Some(p))
    ensures LocksMoved(s, p, pc, ReadNext(s, p, pc))
  {
  }

  lemma ReadOk(s: Hub, p: Pid, pc: Pc)
    requires Ready(s, p, pc) && Reading(pc)
    ensures StepOk(s, p, pc, ReadNext(s, p, pc))
  {
    ReadMemory(s, p, pc);
    ReadStands(s, p, pc);
    ReadLocks(s, p, pc);
  }

  lemma HouseLocks(s: Hub, p: Pid, pc: Pc)
    requires House(pc)
    requires (HoldsCache(pc) ==> s.cacheLock == Some(p)) && (HoldsLoad(pc) ==> s.loadLock == Some(p))
    ensures LocksMoved(s, p, pc, HouseNext(s, p, pc))
  {
  }

  lemma HouseOk(s: Hub, p: Pid, pc: Pc)
    requires Ready(s, p, pc) && House(pc)
    ensures StepOk(s, p, pc, HouseNext(s, p, pc))
  {
    HouseMemory(s, p, pc);
    HouseStands(s, p, pc);
    HouseLocks(s, p, pc);
  }

  lemma NextOk(s: Hub, p: Pid, pc: Pc)
    requires Ready(s, p, pc)
    ensures StepOk(s, p, pc, NextOf(s, p, pc))
  {
    Kinds(pc);
    if Opening(pc) {
      OpenOk(s, p, pc);
    } else if Deleting(pc) {
      DeleteOk(s, p, pc);
    } else if Reading(pc) {
      ReadOk(s, p, pc);
    } else {
      HouseOk(s, p, pc);
    }
  }

  // ---------------------------------------------------------------- every step keeps the invariant

  lemma LocksExclude(s: Hub, p: Pid, pc: Pc, next: (Hub, Pc))
    requires Exclusive(s) && p in s.threads && s.threads[p] == pc
    requires WantsCache(pc) ==> s.cacheLock.None?
    requires WantsLoad(pc) ==> s.loadLock.None?
    requires LocksMoved(s, p, pc, next)
    ensures Exclusive(At(next.0, p, next.1))
  {
  }

  /** Every other thread still counts on what it counted on. */
  lemma OthersStand(s: Hub, m: Hub, p: Pid)
    requires Exclusive(s) && Guarantees(s, m, p) && m.threads == s.threads
    requires forall q <- s.threads :: PcOk(s, q, s.threads[q])
    ensures forall q <- s.threads :: q != p ==> PcOk(m, q, s.threads[q])
  {
    forall q <- s.threads ensures q != p ==> PcOk(m, q, s.threads[q]) {
      if q != p { StablePc(s, m, p, q, s.threads[q]); }
    }
  }

  lemma InvNamesCells(s: Hub, p: Pid)
    requires Inv(s) && p in s.threads
    ensures CellNamed(s.cache, s.threads[p])
  {
  }

  /** What is shared does not depend on where any thread stands. */
  lemma OnlyThreads(m: Hub, p: Pid, pc: Pc, s: Hub, stepper: Pid)
    ensures SharedOk(At(m, p, pc)) == SharedOk(m)
    ensures Guarantees(s, At(m, p, pc), stepper) == Guarantees(s, m, stepper)
    ensures forall q, qc :: PcOk(At(m, p, pc), q, qc) == PcOk(m, q, qc)
  {
  }

  lemma GoKeeps(s: Hub, p: Pid)
    requires Inv(s) && CanTake(s, Go(p))
    ensures Inv(Take(s, Go(p)))
    ensures Guarantees(s, Take(s, Go(p)), p)
  {
    var pc := s.threads[p];
    NextOk(s, p, pc);
    var next := NextOf(s, p, pc);
    LocksExclude(s, p, pc, next);
    OthersStand(s, next.0, p);
    OnlyThreads(next.0, p, next.1, s, p);
  }

  lemma EntryKeepsLocks(s: Hub, p: Pid, call: Pc)
    requires Exclusive(s) && (p in s.threads ==> s.threads[p].Idle?) && !HoldsCache(call) && !HoldsLoad(call)
    ensures Exclusive(At(s, p, call))
  {
  }

  lemma CallStands(s: Hub, p: Pid, call: Pc)
    requires 0 < |s.store.history| && (call.Idle? || Begins(s, call))
    ensures PcOk(s, p, call) && !HoldsCache(call) && !HoldsLoad(call)
  {
  }

  /** A new thread counts on nothing, and a thread beginning a call only on what is so already. */
  lemma EntryKeeps(s: Hub, p: Pid, call: Pc)
    requires Inv(s) && (p in s.threads ==> s.threads[p].Idle?)
    requires call.Idle? || Begins(s, call)
    ensures Inv(At(s, p, call))
    ensures Guarantees(s, At(s, p, call), p)
  {
    OnlyThreads(s, p, call, s, p);
    CallStands(s, p, call);
    LockWrite(s, s.cacheLock, s.loadLock, p);
    var s' := At(s, p, call);
    assert Exclusive(s') by { EntryKeepsLocks(s, p, call); }
    forall q <- s'.threads ensures PcOk(s', q, s'.threads[q]) {
      if q != p { assert PcOk(s, q, s.threads[q]); }
    }
  }

  /** A tenant created or renamed by a commit anyone makes. */
  lemma CommitsKeep(s: Hub, t: TenantId, name: string)
    requires Inv(s) && t !in s.store.closedAt
    ensures var s' := s.(store := s.store.Commit(s.store.Open()[t := name]));
      Inv(s') && (forall p :: Guarantees(s, s', p))
  {
    var s' := s.(store := s.store.Commit(s.store.Open()[t := name]));
    assert SharedOk(s');
    forall q <- s'.threads ensures PcOk(s', q, s'.threads[q]) { StoreStable(s, s', q, s.threads[q]); }
  }

  lemma StoreStable(s: Hub, s': Hub, q: Pid, pc: Pc)
    requires s' == s.(store := s'.store) && StoreGrows(s.store, s'.store) && PcOk(s, q, pc)
    ensures PcOk(s', q, pc)
  {
  }

  lemma InitHolds(s: Hub)
    requires Init(s)
    ensures Inv(s)
  {
  }

  /** Every step of every thread, and every commit, keeps the invariant. */
  lemma TakeKeeps(s: Hub, step: Step)
    requires Inv(s) && CanTake(s, step)
    ensures Inv(Take(s, step))
    ensures exists p :: Guarantees(s, Take(s, step), p)
  {
    match step
    case Go(p) => GoKeeps(s, p);
    case Spawn(p) => EntryKeeps(s, p, Idle);
    case Begin(p, call) => EntryKeeps(s, p, call);
    case Create(t, name) => CommitsKeep(s, t, name); assert Guarantees(s, Take(s, step), 0);
    case Rename(t, name) => CommitsKeep(s, t, name); assert Guarantees(s, Take(s, step), 0);
  }
}
