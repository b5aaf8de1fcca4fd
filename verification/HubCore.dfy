/** Opening every open tenant in turn, as hub-wide jobs do, while tenants may close between one open and the next. */
module HubCore {
  import opened Prelude
  import opened Ordering
  import opened TenantProtocol
  import opened TenantObjects
  import TenantInvariants

  /** The store as each open in turn finds it: later than the read, and later from one open to the next. */
  ghost predicate Later(read: Store, stores: nat -> Store) {
    && 0 < |read.history|
    && (forall i :: 0 < |stores(i).history| && stores(i).Valid() && TenantInvariants.StoreGrows(read, stores(i)))
    && (forall i, j | i <= j :: TenantInvariants.StoreGrows(stores(i), stores(j)))
  }

  /** What other threads do to the cache and the brokers before the open at each place: evictions, and opens of theirs. */
  type Others = (nat, Cache, Brokers) -> (Cache, Brokers)

  function Undisturbed(i: nat, cache: Cache, brokers: Brokers): (Cache, Brokers) {
    (cache, brokers)
  }

  /** `every_open`: the tenants open when `read` was read are opened in tenant-id order, each in the store of its moment,
      and the entries handed out are listed. */
  method EveryOpen(cache: TenantCache, read: Store, stores: nat -> Store)
    returns (entries: seq<TenantEntry>, ids: seq<TenantId>)
    requires cache.Valid() && cache.ServingValid() && Later(read, stores)
    modifies cache, cache.cells, if cache.serving.Some? then {cache.serving.value} else {}
    ensures cache.Valid() && cache.ServingValid()
    ensures Ascending(ids) && forall t :: t in ids <==> t in read.Open()
    ensures var after := EveryAmong(stores, Undisturbed, old(cache.view), old(cache.BrokersView()), ids, |ids|);
              cache.view == after.0 && cache.BrokersView() == after.1 && Indexed(entries, after.2)
  {
    hide TenantCache.Valid, TenantCache.ServingValid, TenantCache.BrokersView, EntryAlone, Ascending, EveryAmong, Answers,
         OpenedAlone, Indexed;
    ids := SortedKeys(read.Open().Keys);
    entries := [];
    AmongNone(stores, cache.view, cache.BrokersView(), ids);
    for i := 0 to |ids|
      invariant cache.Valid() && cache.ServingValid() && cache.serving == old(cache.serving)
      invariant forall c | 0 <= c < |cache.cells| :: cache.cells[c] in old(cache.cells) || fresh(cache.cells[c])
      invariant var after := EveryAmong(stores, Undisturbed, old(cache.view), old(cache.BrokersView()), ids, i);
                cache.view == after.0 && cache.BrokersView() == after.1 && Indexed(entries, after.2)
    {
      AmongNext(stores, old(cache.view), old(cache.BrokersView()), ids, i);
      ghost var after := EntryAlone(stores(i), cache.view, cache.BrokersView(), ids[i]);
      var found := cache.Open(stores(i), ids[i], Stores);
      OpenedAnswers(found, after);
      IndexedMore(entries, EveryAmong(stores, Undisturbed, old(cache.view), old(cache.BrokersView()), ids, i).2, found,
                  after);
      if found.Ok? {
        entries := entries + [found.value];
      }
    }
  }

  /** `entries` are the entry objects the indices name. */
  ghost predicate Indexed(entries: seq<TenantEntry>, indices: seq<nat>) {
    |entries| == |indices| && forall k | 0 <= k < |entries| :: entries[k].index == indices[k]
  }

  lemma AmongNone(stores: nat -> Store, cache: Cache, brokers: Brokers, ids: seq<TenantId>)
    requires forall i :: 0 < |stores(i).history|
    ensures EveryAmong(stores, Undisturbed, cache, brokers, ids, 0) == (cache, brokers, []) && Indexed([], [])
  {
  }

  lemma AmongNext(stores: nat -> Store, cache: Cache, brokers: Brokers, ids: seq<TenantId>, n: nat)
    requires n < |ids| && forall i :: 0 < |stores(i).history|
    ensures var before := EveryAmong(stores, Undisturbed, cache, brokers, ids, n);
      var one := EntryAlone(stores(n), before.0, before.1, ids[n]);
      EveryAmong(stores, Undisturbed, cache, brokers, ids, n + 1)
      == (one.0, one.1, if one.2.Ok? then before.2 + [one.2.value] else before.2)
  {
    hide EntryAlone;
  }

  lemma OpenedAnswers(found: Result<TenantEntry, OpenFailure>, after: (Cache, Brokers, Result<nat, Refusal>))
    requires Answers(found, OpenedAlone(Stores, after)) && (after.2.Ok? ==> after.2.value < |after.0.cells|)
    ensures found.Ok? <==> after.2.Ok?
    ensures found.Ok? ==> found.value.index == after.2.value
  {
  }

  lemma IndexedMore(entries: seq<TenantEntry>, indices: seq<nat>, found: Result<TenantEntry, OpenFailure>,
                    after: (Cache, Brokers, Result<nat, Refusal>))
    requires Indexed(entries, indices)
    ensures found.Ok? && after.2.Ok? && found.value.index == after.2.value ==>
              Indexed(entries + [found.value], indices + [after.2.value])
  {
  }

  /** What the first `n` opens leave among others, and the entries they hand out. */
  function EveryAmong(stores: nat -> Store, others: Others, cache: Cache, brokers: Brokers, ids: seq<TenantId>, n: nat)
    : (Cache, Brokers, seq<nat>)
    requires n <= |ids| && forall i :: 0 < |stores(i).history|
    decreases n, 0
  {
    if n == 0 then (cache, brokers, [])
    else
      var before := Turn(stores, others, cache, brokers, ids, n - 1);
      var one := EntryAlone(stores(n - 1), before.0, before.1, ids[n - 1]);
      (one.0, one.1, if one.2.Ok? then before.2 + [one.2.value] else before.2)
  }

  /** What the open at `n` finds when its turn comes. */
  function Turn(stores: nat -> Store, others: Others, cache: Cache, brokers: Brokers, ids: seq<TenantId>, n: nat)
    : (Cache, Brokers, seq<nat>)
    requires n <= |ids| && forall i :: 0 < |stores(i).history|
    decreases n, 1
  {
    var before := EveryAmong(stores, others, cache, brokers, ids, n);
    var met := others(n, before.0, before.1);
    (met.0, met.1, before.2)
  }

  /** The open at `i` hands something out: its tenant is cached when its turn comes, or the store of its moment confirms
      it. */
  predicate Admits(stores: nat -> Store, others: Others, cache: Cache, brokers: Brokers, ids: seq<TenantId>, i: nat)
    requires i < |ids| && forall i :: 0 < |stores(i).history|
  {
    ids[i] in Turn(stores, others, cache, brokers, ids, i).0.entries || ConfirmOpen(stores(i), ids[i]).None?
  }

  /** The tenants of the first `n` that an open hands something out for. */
  function AdmittedOf(stores: nat -> Store, others: Others, cache: Cache, brokers: Brokers, ids: seq<TenantId>, n: nat)
    : seq<TenantId>
    requires n <= |ids| && forall i :: 0 < |stores(i).history|
  {
    if n == 0 then []
    else if Admits(stores, others, cache, brokers, ids, n - 1)
    then AdmittedOf(stores, others, cache, brokers, ids, n - 1) + [ids[n - 1]]
    else AdmittedOf(stores, others, cache, brokers, ids, n - 1)
  }

  /** Each cached tenant's entry is its own. */
  ghost predicate Named(cache: Cache) {
    forall t <- cache.entries :: cache.entries[t] < |cache.cells| && cache.cells[cache.entries[t]].tenant == t
  }

  /** Entries once built stay their tenants', cached or not. */
  ghost predicate CellsStay(cache: Cache, later: Cache) {
    && |cache.cells| <= |later.cells|
    && forall i | 0 <= i < |cache.cells| :: later.cells[i].tenant == cache.cells[i].tenant
  }

  /** Others keep each cached entry its tenant's, and hand no entry over. */
  ghost predicate Tolerable(others: Others) {
    forall i, cache, brokers | Named(cache) ::
      Named(others(i, cache, brokers).0) && CellsStay(cache, others(i, cache, brokers).0)
  }

  /** `entries` are the entries of the tenants `ids`, one by one. */
  ghost predicate Names(cache: Cache, entries: seq<nat>, ids: seq<TenantId>) {
    && |entries| == |ids|
    && forall k | 0 <= k < |ids| :: entries[k] < |cache.cells| && cache.cells[entries[k]].tenant == ids[k]
  }

  lemma EntryAloneNamed(store: Store, cache: Cache, brokers: Brokers, t: TenantId)
    requires 0 < |store.history| && Named(cache)
    ensures var after := EntryAlone(store, cache, brokers, t);
      && Named(after.0) && CellsStay(cache, after.0)
      && (forall u <- after.0.entries :: u in cache.entries || u == t)
      && (after.2.Ok? <==> t in cache.entries || ConfirmOpen(store, t).None?)
      && (after.2.Ok? ==> after.2.value < |after.0.cells| && after.0.cells[after.2.value].tenant == t)
  {
    hide ForTenant;
  }

  /** What every other thread may do between two opens: an eviction takes the tenant's entry out and leaves the rest as it
      was, and an open of theirs keeps what is there. */
  lemma OthersTolerable(store: Store, cache: Cache, brokers: Brokers, t: TenantId)
    requires 0 < |store.history| && Named(cache)
    ensures Named(EvictedAlone(cache, t)) && CellsStay(cache, EvictedAlone(cache, t))
    ensures EvictedAlone(cache, t).entries == cache.entries - {t}
    ensures Named(EntryAlone(store, cache, brokers, t).0) && CellsStay(cache, EntryAlone(store, cache, brokers, t).0)
  {
    hide EntryAlone;
    EntryAloneNamed(store, cache, brokers, t);
  }

  /** Whatever others do in between, `every_open` hands out, in tenant-id order, the entries of exactly the tenants that
      are cached, or that the store still confirms, when their turn comes. */
  lemma {:induction false} EveryOpenExact(stores: nat -> Store, others: Others, cache: Cache, brokers: Brokers,
                                          ids: seq<TenantId>, n: nat)
    requires (forall i :: 0 < |stores(i).history|) && Named(cache) && Tolerable(others) && n <= |ids|
    ensures var after := EveryAmong(stores, others, cache, brokers, ids, n);
      Named(after.0) && Names(after.0, after.2, AdmittedOf(stores, others, cache, brokers, ids, n))
  {
    hide EntryAlone, ConfirmOpen, CellsStay, Names, Named;
    if n == 0 {
      NothingYet(cache);
    } else {
      EveryOpenExact(stores, others, cache, brokers, ids, n - 1);
      var before := EveryAmong(stores, others, cache, brokers, ids, n - 1);
      var turn := Turn(stores, others, cache, brokers, ids, n - 1);
      var one := EntryAlone(stores(n - 1), turn.0, turn.1, ids[n - 1]);
      var admitted := AdmittedOf(stores, others, cache, brokers, ids, n - 1);
      EntryAloneNamed(stores(n - 1), turn.0, turn.1, ids[n - 1]);
      NamesStay(before.0, turn.0, before.2, admitted);
      NamesStay(turn.0, one.0, before.2, admitted);
      NamesMore(one.0, before.2, admitted, one.2, ids[n - 1]);
    }
  }

  lemma NothingYet(cache: Cache)
    ensures Names(cache, [], [])
  {
  }

  lemma NamesStay(before: Cache, after: Cache, entries: seq<nat>, ids: seq<TenantId>)
    requires Names(before, entries, ids) && CellsStay(before, after)
    ensures Names(after, entries, ids)
  {
  }

  lemma NamesMore(cache: Cache, entries: seq<nat>, ids: seq<TenantId>, one: Result<nat, Refusal>, t: TenantId)
    requires Names(cache, entries, ids)
    ensures one.Ok? && one.value < |cache.cells| && cache.cells[one.value].tenant == t ==>
              Names(cache, entries + [one.value], ids + [t])
  {
  }

  /** Of the tenants open when the set was read, those left out are exactly those closed by the time their turn came and no
      longer cached then. */
  lemma LeftOutMeansClosed(read: Store, stores: nat -> Store, others: Others, cache: Cache, brokers: Brokers,
                           ids: seq<TenantId>, n: nat, i: nat)
    requires Later(read, stores) && Ascending(ids) && i < n <= |ids| && ids[i] in read.Open()
    ensures ids[i] in AdmittedOf(stores, others, cache, brokers, ids, n)
       <==> ids[i] in Turn(stores, others, cache, brokers, ids, i).0.entries || ids[i] !in stores(i).closedAt
  {
    hide Ascending, Turn;
    AdmittedOnce(stores, others, cache, brokers, ids, n, i);
    assert ids[i] in stores(i).history[|read.history| - 1];
  }

  lemma {:induction false} AdmittedOnce(stores: nat -> Store, others: Others, cache: Cache, brokers: Brokers,
                                        ids: seq<TenantId>, n: nat, i: nat)
    requires (forall k :: 0 < |stores(k).history|) && Ascending(ids) && n <= |ids| && i < |ids|
    ensures ids[i] in AdmittedOf(stores, others, cache, brokers, ids, n)
       <==> i < n && Admits(stores, others, cache, brokers, ids, i)
  {
    hide Admits;
    if n > 0 {
      AdmittedOnce(stores, others, cache, brokers, ids, n - 1, i);
      if ids[n - 1] == ids[i] {
        BeforeAsymmetric(ids[i], ids[i]);
      }
    }
  }

  /** Where others open none, a tenant not cached when the job began is not cached when its turn comes. */
  lemma {:induction false} NotCachedYet(stores: nat -> Store, others: Others, cache: Cache, brokers: Brokers,
                                        ids: seq<TenantId>, n: nat, i: nat)
    requires (forall k :: 0 < |stores(k).history|) && Ascending(ids) && n <= i < |ids| && ids[i] !in cache.entries
    requires Named(cache) && Tolerable(others)
    requires forall k, c, b :: others(k, c, b).0.entries.Keys <= c.entries.Keys
    ensures ids[i] !in Turn(stores, others, cache, brokers, ids, n).0.entries
  {
    hide EntryAlone, CellsStay, Named, Ascending;
    if n > 0 {
      NotCachedYet(stores, others, cache, brokers, ids, n - 1, i);
      TurnNamed(stores, others, cache, brokers, ids, n - 1);
      var turn := Turn(stores, others, cache, brokers, ids, n - 1);
      EntryAloneNamed(stores(n - 1), turn.0, turn.1, ids[n - 1]);
      Apart(ids, n - 1, i);
    }
  }

  lemma Apart(ids: seq<TenantId>, j: nat, i: nat)
    requires Ascending(ids) && j < i < |ids|
    ensures ids[j] != ids[i]
  {
    BeforeAsymmetric(ids[i], ids[i]);
  }

  lemma TurnNamed(stores: nat -> Store, others: Others, cache: Cache, brokers: Brokers, ids: seq<TenantId>, n: nat)
    requires (forall k :: 0 < |stores(k).history|) && Named(cache) && Tolerable(others) && n <= |ids|
    ensures Named(Turn(stores, others, cache, brokers, ids, n).0)
  {
    hide Named, CellsStay;
    EveryOpenExact(stores, others, cache, brokers, ids, n);
  }
}
