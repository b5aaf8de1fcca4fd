/**
 The tenant lifecycle of one hub process, as a step relation over any number of threads.

 Request threads open a tenant's stores through the cache, deletions close a tenant in the store and then make the
 process forget it, and lookups read the copy of the open-tenant set held in memory. A step is one statement (or one
 run of statements nothing else can observe), so every interleaving of the program is a run of this relation.
 */
module TenantProtocol {
  import opened Prelude

  type TenantId = string
  type Pid = nat

  // ---------------------------------------------------------------- the store

  /** The tenant rows as committed: `history[v]` is the open-tenant set after `v` commits, by id with each name, and
      `closedAt` maps each tenant holding a deletion fact to the version its close committed. */
  datatype Store = Store(history: seq<map<TenantId, string>>, closedAt: map<TenantId, nat>) {
    ghost predicate Valid() {
      && 0 < |history|
      && (forall t <- closedAt :: closedAt[t] < |history|)
      && (forall t, v :: t in closedAt && closedAt[t] <= v < |history| ==> t !in history[v])
      && (forall t, v, w | 0 <= v <= w < |history| && t in history[v] :: t in history[w] || t in closedAt)
    }

    function Version(): nat
      requires 0 < |history|
    {
      |history| - 1
    }

    function Open(): map<TenantId, string>
      requires 0 < |history|
    {
      history[|history| - 1]
    }

    function Commit(tenants: map<TenantId, string>): Store {
      this.(history := history + [tenants])
    }
  }

  datatype Refusal = UnknownTenant | TenantClosed

  /** What confirming that a tenant is open answers: a deletion fact is told before a missing row. */
  function ConfirmOpen(store: Store, t: TenantId): Option<Refusal>
    requires 0 < |store.history|
  {
    if t in store.closedAt then Some(TenantClosed)
    else if t !in store.Open() then Some(UnknownTenant)
    else None
  }

  datatype CloseOutcome = Closed | AlreadyClosed | NoSuchTenant | LastTenant

  /** One close transaction: it records the deletion fact unless one stands, no row has the id, or no other tenant
      would stay open. */
  function CloseOutcomeOf(store: Store, t: TenantId): CloseOutcome
    requires 0 < |store.history|
  {
    if t in store.closedAt then AlreadyClosed
    else if t !in store.Open() then NoSuchTenant
    else if store.Open().Keys == {t} then LastTenant
    else Closed
  }

  function Close(store: Store, t: TenantId): Store
    requires 0 < |store.history|
  {
    if CloseOutcomeOf(store, t) != Closed then store
    else Store(store.history + [store.Open() - {t}], store.closedAt[t := |store.history|])
  }

  // ---------------------------------------------------------------- the process's memory

  /** What serving a tenant built: the broker its services publish to and the objects its configuration built. */
  datatype Served = Served(broker: nat, objects: nat)

  /** One cache entry object. It is shared by reference — a thread keeps reading the cell it was handed after the
      cache dropped it — so cells live in a heap and are named by index. The index also names the stores bundle (and
      with it the one cycle-check lock) built for the cell. */
  datatype Cell = Cell(tenant: TenantId, served: Option<Served>)

  /** One copy of the open set as a load read it, and the version it was read at. */
  datatype Copy = Copy(tenants: map<TenantId, string>, version: nat)

  datatype OpenKind = Stores | Services | Sweeps

  datatype Opened = Refused(refusal: Refusal) | Handed(cell: nat) | Unwired

  /** Why a thread holds, or is loading, a copy of the open set. `NameAgain` is a name lookup's second read, after the
      held copy did not hold the tenant. */
  datatype Why = Refresh | Forget(gone: TenantId) | Name(tenant: TenantId) | NameAgain(tenant: TenantId) | Only | Every

  /** What was already so when a call began: the tenants the process had forgotten, and the store's version. */
  datatype Start = Start(gone: set<TenantId>, version: nat)

  datatype Pc =
    | Idle
      // TenantCache._entry and its callers
    | OpenWait(t: TenantId, kind: OpenKind, at: Start)
    | OpenLook(t: TenantId, kind: OpenKind, at: Start)
    | OpenConfirm(t: TenantId, kind: OpenKind, at: Start)
    | OpenBuild(t: TenantId, kind: OpenKind, at: Start)
    | OpenServe(t: TenantId, kind: OpenKind, at: Start, cell: nat)
    | OpenBroker(t: TenantId, kind: OpenKind, at: Start, cell: nat)
    | OpenBind(t: TenantId, kind: OpenKind, at: Start, cell: nat, broker: nat)
    | OpenLeave(t: TenantId, kind: OpenKind, at: Start, found: Result<nat, Refusal>)
    | OpenRead(t: TenantId, kind: OpenKind, at: Start, cell: nat)
    | OpenDone(t: TenantId, kind: OpenKind, at: Start, answer: Opened)
      // TenantTeardown.close, then forget_closed: TenantCache.evict ...
    | CloseCommit(t: TenantId, at: Start)
    | EvictWait(t: TenantId, at: Start)
    | EvictPop(t: TenantId, at: Start)
    | EvictLeave(t: TenantId, at: Start, popped: Option<nat>, serving: bool)
    | EvictDrop(t: TenantId, at: Start, popped: Option<nat>)
    | EvictHush(t: TenantId, at: Start, popped: Option<nat>, dropped: Option<nat>)
    | EvictObjects(t: TenantId, at: Start, popped: Option<nat>)
    | CloseDone(t: TenantId, at: Start, outcome: CloseOutcome)
      // ... and OpenTenants.refresh, which lookups call too
    | HeldRead(why: Why, at: Start)
    | LoadWait(why: Why, at: Start)
    | LoadRead(why: Why, at: Start)
    | LoadSwap(why: Why, at: Start, copy: Copy)
    | LoadLeave(why: Why, at: Start, copy: Copy)
    | ReadDone(why: Why, at: Start, copy: Copy)
      // TenantCache.serve
    | WireWait(at: Start)
    | WireSet(at: Start)
    | WireLeave(at: Start)
      // TenantCache.close_served
    | ShutWait(at: Start)
    | ShutGather(at: Start)
    | ShutLeave(at: Start, objects: set<nat>)
    | ShutClose(at: Start, objects: set<nat>)

  /** `TenantCache`: whether `serve` wired it, its map, the heap of entries it ever built; the objects serving ever
      built, each named by index and mapped to its entry's cell, and those closed; the tenants an eviction popped. */
  datatype Cache = Cache(
    wired: bool,
    entries: map<TenantId, nat>,
    cells: seq<Cell>,
    servings: seq<nat>,
    closed: set<nat>,
    evicted: set<TenantId>)

  /** `TenantBrokers`: its map; every broker it ever made, with its tenant; those closed. */
  datatype Brokers = Brokers(live: map<TenantId, nat>, made: seq<TenantId>, closed: set<nat>)

  /** `closers` names the thread whose close of each tenant committed; `forgotten` are the tenants whose `forget_closed`
      has come back. Both only record what happened. */
  datatype Hub = Hub(
    store: Store,
    cacheLock: Option<Pid>,
    cache: Cache,
    brokers: Brokers,
    loadLock: Option<Pid>,
    held: Option<Copy>,
    closers: map<TenantId, Pid>,
    forgotten: set<TenantId>,
    threads: map<Pid, Pc>)

  // ---------------------------------------------------------------- steps

  predicate HoldsCache(pc: Pc) {
    || pc.OpenLook? || pc.OpenConfirm? || pc.OpenBuild? || pc.OpenServe? || pc.OpenBroker? || pc.OpenBind?
    || pc.OpenLeave? || pc.EvictPop? || pc.EvictLeave? || pc.WireSet? || pc.WireLeave? || pc.ShutGather?
    || pc.ShutLeave?
  }

  predicate HoldsLoad(pc: Pc) {
    pc.LoadRead? || pc.LoadSwap? || pc.LoadLeave?
  }

  predicate WantsCache(pc: Pc) {
    pc.OpenWait? || pc.EvictWait? || pc.WireWait? || pc.ShutWait?
  }

  predicate WantsLoad(pc: Pc) {
    pc.LoadWait?
  }

  /** A thread may take its next step unless it waits for a lock someone holds. */
  predicate Enabled(s: Hub, p: Pid) {
    && p in s.threads
    && !s.threads[p].Idle?
    && (WantsCache(s.threads[p]) ==> s.cacheLock.None?)
    && (WantsLoad(s.threads[p]) ==> s.loadLock.None?)
  }

  function At(s: Hub, p: Pid, pc: Pc): Hub {
    s.(threads := s.threads[p := pc])
  }

  function Now(s: Hub): Start
    requires 0 < |s.store.history|
  {
    Start(s.forgotten, s.store.Version())
  }

  /** The calls a thread may begin. */
  predicate Begins(s: Hub, pc: Pc)
    requires 0 < |s.store.history|
  {
    && (pc.OpenWait? || pc.CloseCommit? || pc.WireWait? || pc.ShutWait? || pc.HeldRead? || pc.LoadWait?)
    && pc.at == Now(s)
    && (pc.HeldRead? ==> pc.why.Name? || pc.why.Only? || pc.why.Every?)
    && (pc.LoadWait? ==> pc.why.Refresh?)
  }

  // The cache's statements, each on what it reads and writes.

  function Build(cache: Cache, t: TenantId): Cache {
    cache.(cells := cache.cells + [Cell(t, None)], entries := cache.entries[t := |cache.cells|])
  }

  function Bind(cache: Cache, c: nat, broker: nat): Cache
    requires c < |cache.cells|
  {
    cache.(cells := cache.cells[c := cache.cells[c].(served := Some(Served(broker, |cache.servings|)))],
           servings := cache.servings + [c])
  }

  function Pop(cache: Cache, t: TenantId): Cache {
    cache.(entries := cache.entries - {t}, evicted := cache.evicted + {t})
  }

  function CloseObjects(cache: Cache, popped: Option<nat>): Cache
    requires popped.Some? ==> popped.value < |cache.cells|
  {
    if popped.Some? && cache.cells[popped.value].served.Some?
    then cache.(closed := cache.closed + {cache.cells[popped.value].served.value.objects})
    else cache
  }

  /** `TenantBrokers.for_tenant`: the tenant's broker, made on first use. */
  function ForTenant(brokers: Brokers, t: TenantId): (Brokers, nat) {
    if t in brokers.live then (brokers, brokers.live[t])
    else (brokers.(live := brokers.live[t := |brokers.made|], made := brokers.made + [t]), |brokers.made|)
  }

  function Drop(brokers: Brokers, t: TenantId): Brokers {
    brokers.(live := brokers.live - {t})
  }

  function Hush(brokers: Brokers, dropped: Option<nat>): Brokers {
    brokers.(closed := brokers.closed + if dropped.Some? then {dropped.value} else {})
  }

  /** The objects of every served entry the cache holds. */
  function HeldObjects(cache: Cache): set<nat> {
    set t | t in cache.entries && cache.entries[t] < |cache.cells| && cache.cells[cache.entries[t]].served.Some?
      :: cache.cells[cache.entries[t]].served.value.objects
  }

  /** What an opener is answered, reading its entry after it let the lock go. */
  function Answer(cache: Cache, kind: OpenKind, cell: nat): Opened
    requires cell < |cache.cells|
  {
    if kind.Stores? || cache.cells[cell].served.Some? then Handed(cell) else Unwired
  }

  /** The cells a program counter names exist. */
  predicate CellNamed(cache: Cache, pc: Pc) {
    match pc
    case OpenServe(_, _, _, c) => c < |cache.cells|
    case OpenBroker(_, _, _, c) => c < |cache.cells|
    case OpenBind(_, _, _, c, _) => c < |cache.cells|
    case OpenRead(_, _, _, c) => c < |cache.cells|
    case EvictObjects(_, _, popped) => popped.Some? ==> popped.value < |cache.cells|
    case _ => true
  }

  predicate Opening(pc: Pc) {
    || pc.OpenWait? || pc.OpenLook? || pc.OpenConfirm? || pc.OpenBuild? || pc.OpenServe? || pc.OpenBroker?
    || pc.OpenBind? || pc.OpenLeave? || pc.OpenRead? || pc.OpenDone?
  }

  predicate Deleting(pc: Pc) {
    || pc.CloseCommit? || pc.EvictWait? || pc.EvictPop? || pc.EvictLeave? || pc.EvictDrop? || pc.EvictHush?
    || pc.EvictObjects? || pc.CloseDone?
  }

  predicate Reading(pc: Pc) {
    pc.HeldRead? || pc.LoadWait? || pc.LoadRead? || pc.LoadSwap? || pc.LoadLeave? || pc.ReadDone?
  }

  predicate House(pc: Pc) {
    || pc.WireWait? || pc.WireSet? || pc.WireLeave? || pc.ShutWait? || pc.ShutGather? || pc.ShutLeave? || pc.ShutClose?
  }

  /** `TenantCache._entry`, and the read of the entry its caller makes once the lock is let go. */
  function OpenNext(s: Hub, p: Pid, pc: Pc): (Hub, Pc)
    requires 0 < |s.store.history| && Opening(pc) && CellNamed(s.cache, pc)
  {
    match pc
    case OpenWait(t, k, at) => (s.(cacheLock := Some(p)), OpenLook(t, k, at))
    case OpenLook(t, k, at) =>
      (s, if t in s.cache.entries then OpenServe(t, k, at, s.cache.entries[t]) else OpenConfirm(t, k, at))
    case OpenConfirm(t, k, at) =>
      var refusal := ConfirmOpen(s.store, t);
      (s, if refusal.Some? then OpenLeave(t, k, at, Err(refusal.value)) else OpenBuild(t, k, at))
    case OpenBuild(t, k, at) => (s.(cache := Build(s.cache, t)), OpenServe(t, k, at, |s.cache.cells|))
    case OpenServe(t, k, at, c) =>
      (s, if s.cache.cells[c].served.None? && s.cache.wired then OpenBroker(t, k, at, c)
          else OpenLeave(t, k, at, Ok(c)))
    case OpenBroker(t, k, at, c) =>
      (s.(brokers := ForTenant(s.brokers, t).0), OpenBind(t, k, at, c, ForTenant(s.brokers, t).1))
    case OpenBind(t, k, at, c, b) => (s.(cache := Bind(s.cache, c, b)), OpenLeave(t, k, at, Ok(c)))
    case OpenLeave(t, k, at, found) =>
      (s.(cacheLock := None),
       if found.Ok? then OpenRead(t, k, at, found.value) else OpenDone(t, k, at, Refused(found.error)))
    case OpenRead(t, k, at, c) => (s, OpenDone(t, k, at, Answer(s.cache, k, c)))
    case OpenDone(_, _, _, _) => (s, Idle)
  }

  /** `TenantTeardown.close` and, for a close that committed, `TenantCache.evict` of the tenant. */
  function DeleteNext(s: Hub, p: Pid, pc: Pc): (Hub, Pc)
    requires 0 < |s.store.history| && Deleting(pc) && CellNamed(s.cache, pc)
  {
    match pc
    case CloseCommit(t, at) =>
      var outcome := CloseOutcomeOf(s.store, t);
      if outcome.Closed? then (s.(store := Close(s.store, t), closers := s.closers[t := p]), EvictWait(t, at))
      else (s, CloseDone(t, at, outcome))
    case EvictWait(t, at) => (s.(cacheLock := Some(p)), EvictPop(t, at))
    case EvictPop(t, at) =>
      (s.(cache := Pop(s.cache, t)), EvictLeave(t, at, Lookup(s.cache.entries, t), s.cache.wired))
    case EvictLeave(t, at, popped, serving) =>
      (s.(cacheLock := None), if serving then EvictDrop(t, at, popped) else EvictObjects(t, at, popped))
    case EvictDrop(t, at, popped) =>
      (s.(brokers := Drop(s.brokers, t)), EvictHush(t, at, popped, Lookup(s.brokers.live, t)))
    case EvictHush(t, at, popped, dropped) => (s.(brokers := Hush(s.brokers, dropped)), EvictObjects(t, at, popped))
    case EvictObjects(t, at, popped) => (s.(cache := CloseObjects(s.cache, popped)), LoadWait(Forget(t), at))
    case CloseDone(_, _, _) => (s, Idle)
  }

  /** Where a caller goes on once it has a copy: a name lookup that misses loads again. */
  function AfterCopy(why: Why, at: Start, copy: Copy): Pc {
    match why
    case Name(t) => if t in copy.tenants then ReadDone(why, at, copy) else LoadWait(NameAgain(t), at)
    case Forget(t) => CloseDone(t, at, Closed)
    case _ => ReadDone(why, at, copy)
  }

  /** `OpenTenants`: reading the held copy, and loading a new one. */
  function ReadNext(s: Hub, p: Pid, pc: Pc): (Hub, Pc)
    requires 0 < |s.store.history| && Reading(pc)
  {
    match pc
    case HeldRead(why, at) => (s, if s.held.Some? then AfterCopy(why, at, s.held.value) else LoadWait(why, at))
    case LoadWait(why, at) => (s.(loadLock := Some(p)), LoadRead(why, at))
    case LoadRead(why, at) => (s, LoadSwap(why, at, Copy(s.store.Open(), s.store.Version())))
    case LoadSwap(why, at, copy) => (s.(held := Some(copy)), LoadLeave(why, at, copy))
    case LoadLeave(why, at, copy) =>
      (s.(loadLock := None, forgotten := s.forgotten + if why.Forget? then {why.gone} else {}),
       AfterCopy(why, at, copy))
    case ReadDone(_, _, _) => (s, Idle)
  }

  /** `TenantCache.serve` and `TenantCache.close_served`. */
  function HouseNext(s: Hub, p: Pid, pc: Pc): (Hub, Pc)
    requires House(pc)
  {
    match pc
    case WireWait(at) => (s.(cacheLock := Some(p)), WireSet(at))
    case WireSet(at) => (s.(cache := s.cache.(wired := true)), WireLeave(at))
    case WireLeave(_) => (s.(cacheLock := None), Idle)
    case ShutWait(at) => (s.(cacheLock := Some(p)), ShutGather(at))
    case ShutGather(at) => (s, ShutLeave(at, HeldObjects(s.cache)))
    case ShutLeave(at, objects) => (s.(cacheLock := None), ShutClose(at, objects))
    case ShutClose(_, objects) => (s.(cache := s.cache.(closed := s.cache.closed + objects)), Idle)
  }

  /** What thread `p` at `pc` does next: to what the threads share, and where it then stands. */
  function NextOf(s: Hub, p: Pid, pc: Pc): (Hub, Pc)
    requires !pc.Idle? && 0 < |s.store.history| && CellNamed(s.cache, pc)
  {
    if Opening(pc) then OpenNext(s, p, pc)
    else if Deleting(pc) then DeleteNext(s, p, pc)
    else if Reading(pc) then ReadNext(s, p, pc)
    else HouseNext(s, p, pc)
  }

  /** The next step of a thread inside a call. */
  function Advance(s: Hub, p: Pid): Hub
    requires Enabled(s, p) && 0 < |s.store.history| && CellNamed(s.cache, s.threads[p])
  {
    var (s', pc) := NextOf(s, p, s.threads[p]);
    At(s', p, pc)
  }

  datatype Step =
    | Spawn(p: Pid)
    | Begin(p: Pid, call: Pc)
    | Go(p: Pid)
    | Create(tenant: TenantId, name: string)
    | Rename(tenant: TenantId, name: string)

  /** `step` may be taken: a tenant id is minted once and never reused, and only an open tenant is renamed. */
  predicate CanTake(s: Hub, step: Step)
    requires 0 < |s.store.history|
  {
    match step
    case Spawn(p) => p !in s.threads
    case Begin(p, call) => p in s.threads && s.threads[p].Idle? && Begins(s, call)
    case Go(p) => Enabled(s, p) && CellNamed(s.cache, s.threads[p])
    case Create(t, _) => t !in s.store.Open() && t !in s.store.closedAt
    case Rename(t, _) => t in s.store.Open()
  }

  function Take(s: Hub, step: Step): Hub
    requires 0 < |s.store.history| && CanTake(s, step)
  {
    match step
    case Spawn(p) => At(s, p, Idle)
    case Begin(p, call) => At(s, p, call)
    case Go(p) => Advance(s, p)
    case Create(t, name) => s.(store := s.store.Commit(s.store.Open()[t := name]))
    case Rename(t, name) => s.(store := s.store.Commit(s.store.Open()[t := name]))
  }

  ghost predicate Init(s: Hub) {
    && s.store.Valid()
    && s == Hub(s.store, None, Cache(false, map[], [], [], {}, {}), Brokers(map[], [], {}), None, None, map[], {}, map[])
  }
}
