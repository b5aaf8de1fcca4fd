/**
 The tenant cache, the brokers and the open-tenant copy as the objects they are. Each method is one call with no other
 thread running; its contract says what it leaves, in the terms of the protocol every interleaving is proved in: a
 `view` field holds the protocol's value, and `Valid` ties it to the objects.
 */
module TenantObjects {
  import opened Prelude
  import opened TenantProtocol

  // ---------------------------------------------------------------- brokers

  class EventBroker {
    ghost const index: nat
    var closed: bool

    constructor (ghost index: nat)
      ensures this.index == index && !closed
    {
      this.index := index;
      closed := false;
    }
  }

  class TenantBrokers {
    var brokers: map<TenantId, EventBroker>
    /** Every broker ever made. */
    ghost var made: seq<EventBroker>
    ghost var view: Brokers

    ghost predicate Valid()
      reads this, made
    {
      && brokers.Keys == view.live.Keys
      && (forall t <- brokers :: brokers[t].index == view.live[t] < |made| && made[view.live[t]] == brokers[t])
      && |made| == |view.made|
      && (forall i | 0 <= i < |made| :: made[i].index == i && (made[i].closed <==> i in view.closed))
      && (forall i <- view.closed :: i < |made|)
    }

    constructor ()
      ensures Valid() && view == Brokers(map[], [], {}) && made == []
    {
      brokers, made, view := map[], [], Brokers(map[], [], {});
    }

    method ForTenant(t: TenantId) returns (broker: EventBroker)
      requires Valid()
      modifies this
      ensures Valid() && old(made) <= made && fresh(made[|old(made)|..])
      ensures view == TenantProtocol.ForTenant(old(view), t).0
      ensures broker.index == TenantProtocol.ForTenant(old(view), t).1 < |made| && made[broker.index] == broker
    {
      if t in brokers {
        return brokers[t];
      }
      broker := new EventBroker(|made|);
      brokers := brokers[t := broker];
      made, view := made + [broker], TenantProtocol.ForTenant(view, t).0;
    }

    /** Takes the broker out of the map, when there is one for `t`, and closes it. */
    method Drop(t: TenantId)
      requires Valid()
      modifies this, made
      ensures Valid() && made == old(made)
      ensures view == Hush(TenantProtocol.Drop(old(view), t), Lookup(old(view).live, t))
    {
      view := Hush(TenantProtocol.Drop(view, t), Lookup(view.live, t));
      if t in brokers {
        var broker := brokers[t];
        brokers := brokers - {t};
        broker.closed := true;
      }
    }
  }

  // ---------------------------------------------------------------- the cache

  /** The objects one tenant's configured records built. */
  class LiveObjects {
    ghost const index: nat
    var closed: bool

    constructor (ghost index: nat)
      ensures this.index == index && !closed
    {
      this.index := index;
      closed := false;
    }

    method Close()
      modifies this
      ensures closed
    {
      closed := true;
    }
  }

  datatype ServedTenant = ServedTenant(broker: EventBroker, objects: LiveObjects)

  /** `_TenantEntry`; the stores it was built with are named by its index. */
  class TenantEntry {
    ghost const index: nat
    var served: Option<ServedTenant>

    constructor (ghost index: nat)
      ensures this.index == index && served == None
    {
      this.index := index;
      served := None;
    }
  }

  /** `cell` is the protocol's account of `served`. */
  ghost predicate Accounts(cell: Cell, served: Option<ServedTenant>) {
    && cell.served.Some? == served.Some?
    && (served.Some? ==> cell.served.value == Served(served.value.broker.index, served.value.objects.index))
  }

  class TenantCache {
    var serving: Option<TenantBrokers>
    var entries: map<TenantId, TenantEntry>
    /** Every entry ever built, and every set of objects serving ever built. */
    ghost var cells: seq<TenantEntry>
    ghost var built: seq<LiveObjects>
    ghost var view: Cache

    ghost predicate Valid()
      reads this, cells, built
    {
      && EntriesOk() && CellsOk() && BuiltOk()
      && view.wired == serving.Some?
    }

    ghost predicate EntriesOk()
      reads this
    {
      && |cells| == |view.cells| && entries.Keys == view.entries.Keys
      && (forall t <- entries ::
            entries[t].index == view.entries[t] < |cells| && cells[view.entries[t]] == entries[t])
    }

    ghost predicate CellsOk()
      requires |cells| == |view.cells|
      reads this, cells
    {
      && (forall i | 0 <= i < |cells| :: cells[i].index == i && Accounts(view.cells[i], cells[i].served))
      && (forall i | 0 <= i < |cells| && cells[i].served.Some? ::
            var objects := cells[i].served.value.objects;
            objects.index < |built| && built[objects.index] == objects)
    }

    ghost predicate BuiltOk()
      reads this, built
    {
      && |built| == |view.servings|
      && (forall i | 0 <= i < |built| :: built[i].index == i && (built[i].closed <==> i in view.closed))
      && (forall i <- view.closed :: i < |built|)
    }

    constructor ()
      ensures Valid() && view == Cache(false, map[], [], [], {}, {})
    {
      serving, entries := None, map[];
      cells, built, view := [], [], Cache(false, map[], [], [], {}, {});
    }

    method Serve(brokers: TenantBrokers)
      requires Valid()
      modifies this`serving, this`view
      ensures Valid() && serving == Some(brokers) && view == old(view).(wired := true)
    {
      serving, view := Some(brokers), view.(wired := true);
    }

    ghost predicate ServingValid()
      reads this, if serving.Some? then {serving.value} else {}, if serving.Some? then serving.value.made else []
    {
      serving.Some? ==> serving.value.Valid()
    }

    ghost function BrokersView(): Brokers
      reads this, if serving.Some? then {serving.value} else {}
    {
      if serving.Some? then serving.value.view else Brokers(map[], [], {})
    }

    /** `_entry`: the tenant's entry, built if the store confirms the tenant is open, and served if serving is
        wired. */
    method Entry(store: Store, t: TenantId) returns (found: Result<TenantEntry, Refusal>)
      requires Valid() && ServingValid() && 0 < |store.history|
      modifies this, cells, if serving.Some? then {serving.value} else {}
      ensures Valid() && ServingValid() && serving == old(serving)
      ensures forall c | 0 <= c < |cells| :: cells[c] in old(cells) || fresh(cells[c])
      ensures var after := EntryAlone(store, old(view), old(BrokersView()), t);
        && view == after.0
        && BrokersView() == after.1
        && (match found
            case Ok(entry) => after.2 == Ok(entry.index) && entry.index < |cells| && cells[entry.index] == entry
            case Err(refusal) => after.2 == Err(refusal))
      ensures found.Ok? && serving.Some? ==> found.value.served.Some?
    {
      hide CellsOk, BuiltOk, Build, Bind, ConfirmOpen, TenantProtocol.ForTenant, TenantBrokers.Valid;
      var entry: TenantEntry;
      if t in entries {
        entry := entries[t];
      } else {
        var refusal := ConfirmOpen(store, t);
        if refusal.Some? {
          return Err(refusal.value);
        }
        entry := Insert(t);
      }
      ServeEntry(t, entry);
      return Ok(entry);
    }

    method Insert(t: TenantId) returns (entry: TenantEntry)
      requires Valid()
      modifies this`entries, this`cells, this`view
      ensures Valid() && view == Build(old(view), t)
      ensures fresh(entry) && entry.index == |old(cells)| && cells == old(cells) + [entry]
    {
      entry := new TenantEntry(|cells|);
      entries := entries[t := entry];
      cells, view := cells + [entry], Build(view, t);
    }

    /** Serves `entry`, unless it is served or the hub serves no tenants. */
    method ServeEntry(t: TenantId, entry: TenantEntry)
      requires Valid() && ServingValid() && entry.index < |cells| && cells[entry.index] == entry
      modifies this`built, this`view, entry, if serving.Some? then {serving.value} else {}
      ensures Valid() && ServingValid() && old(built) <= built && fresh(built[|old(built)|..])
      ensures var after := ServedAlone(old(view), old(BrokersView()), t, entry.index);
        view == after.0 && BrokersView() == after.1
      ensures serving.Some? ==> entry.served.Some?
    {
      hide TenantProtocol.ForTenant, TenantBrokers.Valid;
      if entry.served.None? && serving.Some? {
        var broker := serving.value.ForTenant(t);
        BindEntry(entry, broker);
      }
    }

    method BindEntry(entry: TenantEntry, broker: EventBroker)
      requires Valid() && entry.index < |cells| && cells[entry.index] == entry && entry.served.None?
      modifies this`built, this`view, entry
      ensures Valid() && view == Bind(old(view), entry.index, broker.index) && entry.served.Some?
      ensures old(built) <= built && fresh(built[|old(built)|..])
    {
      var objects := new LiveObjects(|built|);
      entry.served := Some(ServedTenant(broker, objects));
      built, view := built + [objects], Bind(view, entry.index, broker.index);
    }

    /** `open`, `open_services` and `open_sweeps`: the tenant's entry, which the last two refuse to hand out unserved. */
    method Open(store: Store, t: TenantId, kind: OpenKind) returns (found: Result<TenantEntry, OpenFailure>)
      requires Valid() && ServingValid() && 0 < |store.history|
      modifies this, cells, if serving.Some? then {serving.value} else {}
      ensures Valid() && ServingValid() && serving == old(serving)
      ensures forall c | 0 <= c < |cells| :: cells[c] in old(cells) || fresh(cells[c])
      ensures var after := EntryAlone(store, old(view), old(BrokersView()), t);
        && view == after.0
        && BrokersView() == after.1
        && (after.2.Ok? ==> after.2.value < |view.cells|)
        && Answers(found, OpenedAlone(kind, after))
      ensures found.Ok? && (kind != Stores || serving.Some?) ==> found.value.served.Some?
      ensures found == Err(NotServing) ==> kind != Stores && serving.None?
    {
      hide BuiltOk, EntryAlone, ServingValid, BrokersView;
      var entry := Entry(store, t);
      if entry.Err? {
        return Err(NotOpen(entry.error));
      }
      if kind != Stores && entry.value.served.None? {
        return Err(NotServing);
      }
      return Ok(entry.value);
    }

    /** Takes the entry out, then the broker, and closes what serving the tenant had built. */
    method Evict(t: TenantId)
      requires Valid() && ServingValid()
      modifies this`entries, this`view, built
      modifies if serving.Some? then {serving.value} else {}, if serving.Some? then serving.value.made else []
      ensures Valid() && ServingValid()
      ensures view == EvictedAlone(old(view), t)
      ensures BrokersView() == if serving.Some? then DroppedAlone(old(BrokersView()), t) else old(BrokersView())
    {
      hide CellsOk, BuiltOk, EntriesOk, TenantBrokers.Valid, Hush, TenantProtocol.Drop;
      var entry := PopEntry(t);
      if serving.Some? {
        serving.value.Drop(t);
      }
      if entry.Some? && entry.value.served.Some? {
        CloseOne(entry.value.served.value.objects);
      }
    }

    /** Closes the objects of every served entry held, keeping the entries. */
    method CloseServed()
      requires Valid()
      modifies this`view, built
      ensures Valid() && view == old(view).(closed := old(view).closed + HeldObjects(old(view)))
    {
      hide CellsOk, BuiltOk, EntriesOk, HeldObjects;
      var served, indices := GatherServed();
      for i := 0 to |served|
        invariant Valid() && built == old(built)
        invariant view == old(view).(closed := old(view).closed + set k | 0 <= k < i :: indices[k])
      {
        CloseOne(served[i]);
        assert (set k | 0 <= k < i + 1 :: indices[k]) == (set k | 0 <= k < i :: indices[k]) + {indices[i]};
      }
      assert forall o <- HeldObjects(old(view)) :: exists k | 0 <= k < |indices| :: indices[k] == o;
      assert forall k | 0 <= k < |indices| :: indices[k] in indices;
      assert (set k | 0 <= k < |indices| :: indices[k]) == HeldObjects(old(view));
    }

    method GatherServed() returns (served: seq<LiveObjects>, ghost indices: seq<nat>)
      requires Valid()
      ensures |served| == |indices|
      ensures forall i | 0 <= i < |served| :: served[i].index == indices[i] < |built| && built[indices[i]] == served[i]
      ensures forall o :: o in indices <==> o in HeldObjects(view)
    {
      served, indices := [], [];
      var keys := entries.Keys;
      while keys != {}
        invariant keys <= entries.Keys && |served| == |indices|
        invariant forall i | 0 <= i < |served| ::
                    served[i].index == indices[i] < |built| && built[indices[i]] == served[i]
        invariant forall o :: o in indices <==> exists t :: t in entries.Keys - keys && HoldsObjects(view, t, o)
        decreases |keys|
      {
        var t :| t in keys;
        ghost var before := keys;
        keys := keys - {t};
        var entry := entries[t];
        assert Accounts(view.cells[view.entries[t]], entry.served);
        assert forall u :: u in entries.Keys - keys <==> u in entries.Keys - before || u == t;
        if entry.served.Some? {
          served := served + [entry.served.value.objects];
          indices := indices + [entry.served.value.objects.index];
        }
      }
      assert forall o :: o in HeldObjects(view) <==> exists t :: t in entries.Keys && HoldsObjects(view, t, o);
    }

    method PopEntry(t: TenantId) returns (entry: Option<TenantEntry>)
      requires Valid()
      modifies this`entries, this`view
      ensures Valid() && view == Pop(old(view), t)
      ensures match Lookup(old(view).entries, t)
              case None => entry.None?
              case Some(c) => entry.Some? && c < |old(view).cells| && Accounts(old(view).cells[c], entry.value.served)
      ensures entry.Some? && entry.value.served.Some? ==>
                var objects := entry.value.served.value.objects;
                objects.index < |built| && built[objects.index] == objects
    {
      entry := Lookup(entries, t);
      entries, view := entries - {t}, Pop(view, t);
    }

    /** `objects.close()`, `objects` being some this cache's serving built. */
    method CloseOne(objects: LiveObjects)
      requires Valid() && objects.index < |built| && built[objects.index] == objects
      modifies this`view, objects
      ensures Valid() && view == old(view).(closed := old(view).closed + {objects.index})
    {
      objects.Close();
      view := view.(closed := view.closed + {objects.index});
    }
  }

  /** The tenant's entry is served by the objects `o`. */
  ghost predicate HoldsObjects(cache: Cache, t: TenantId, o: nat) {
    && t in cache.entries && cache.entries[t] < |cache.cells|
    && cache.cells[cache.entries[t]].served.Some? && cache.cells[cache.entries[t]].served.value.objects == o
  }

  /** `OpenTenants`: a copy of the open set that the first lookup loads; `held` is the protocol's account of it. */
  class OpenTenants {
    var tenants: Option<map<TenantId, string>>
    ghost var held: Option<Copy>

    ghost predicate Valid()
      reads this
    {
      && tenants.Some? == held.Some?
      && (tenants.Some? ==> tenants.value == held.value.tenants)
    }

    constructor ()
      ensures Valid() && held == None
    {
      tenants, held := None, None;
    }

    method Refresh(store: Store) returns (loaded: map<TenantId, string>)
      requires 0 < |store.history|
      modifies this
      ensures Valid() && held == Some(Copy(store.Open(), store.Version())) && loaded == store.Open()
    {
      loaded := store.Open();
      tenants, held := Some(loaded), Some(Copy(loaded, store.Version()));
    }

    method Held(store: Store) returns (known: map<TenantId, string>)
      requires Valid() && 0 < |store.history|
      modifies this
      ensures Valid() && held == Some(HeldAlone(store, old(held))) && known == held.value.tenants
      ensures if old(held).Some? then held == old(held) else known == store.Open()
    {
      if tenants.Some? {
        return tenants.value;
      }
      known := Refresh(store);
    }

    method Name(store: Store, t: TenantId) returns (name: Option<string>)
      requires Valid() && 0 < |store.history|
      modifies this
      ensures Valid() && held == Some(NamedAlone(store, old(held), t)) && name == Lookup(held.value.tenants, t)
      ensures if old(held).Some? && t in old(held).value.tenants then held == old(held)
              else name == Lookup(store.Open(), t)
    {
      var known := Held(store);
      if t in known {
        return Some(known[t]);
      }
      known := Refresh(store);
      return Lookup(known, t);
    }

    method Only(store: Store) returns (one: Option<TenantId>)
      requires Valid() && 0 < |store.history|
      modifies this
      ensures Valid() && held == Some(HeldAlone(store, old(held)))
      ensures if old(held).Some? then held == old(held) else held.value.tenants == store.Open()
      ensures one.Some? <==> |held.value.tenants| == 1
      ensures one.Some? ==> held.value.tenants.Keys == {one.value}
    {
      var known := Held(store);
      if |known| != 1 {
        return None;
      }
      OneKey(known);
      var t :| t in known;
      return Some(t);
    }

    method Every(store: Store) returns (known: map<TenantId, string>)
      requires Valid() && 0 < |store.history|
      modifies this
      ensures Valid() && held == Some(HeldAlone(store, old(held))) && known == held.value.tenants
      ensures if old(held).Some? then held == old(held) else known == store.Open()
    {
      known := Held(store);
    }
  }

  lemma OneKey<K, V>(m: map<K, V>)
    requires |m| == 1
    ensures exists k :: k in m && m.Keys == {k}
  {
    var k :| k in m;
    assert |m.Keys - {k}| == 0;
    assert m.Keys == {k} + (m.Keys - {k});
  }

  /** The copy `_held` leaves held, and the one a name lookup does. */
  function HeldAlone(store: Store, held: Option<Copy>): Copy
    requires 0 < |store.history|
  {
    if held.Some? then held.value else Copy(store.Open(), store.Version())
  }

  function NamedAlone(store: Store, held: Option<Copy>, t: TenantId): Copy
    requires 0 < |store.history|
  {
    if t in HeldAlone(store, held).tenants then HeldAlone(store, held) else Copy(store.Open(), store.Version())
  }

  /** `forget_closed`: an eviction, and after it a fresh copy of the open set. */
  method ForgetClosed(cache: TenantCache, copies: OpenTenants, store: Store, t: TenantId)
    requires cache.Valid() && cache.ServingValid() && 0 < |store.history|
    modifies cache`entries, cache`view, cache.built, copies
    modifies if cache.serving.Some? then {cache.serving.value} else {}
    modifies if cache.serving.Some? then cache.serving.value.made else []
    ensures cache.Valid() && cache.ServingValid() && copies.Valid()
    ensures cache.view == EvictedAlone(old(cache.view), t)
    ensures cache.BrokersView()
         == if cache.serving.Some? then DroppedAlone(old(cache.BrokersView()), t) else old(cache.BrokersView())
    ensures copies.held == Some(Copy(store.Open(), store.Version()))
  {
    cache.Evict(t);
    var _ := copies.Refresh(store);
  }

  /** Why an open hands nothing out: the tenant is not open, or no services were wired. */
  datatype OpenFailure = NotOpen(refusal: Refusal) | NotServing

  ghost predicate Answers(found: Result<TenantEntry, OpenFailure>, answer: Opened) {
    match found
    case Ok(entry) => answer == Handed(entry.index)
    case Err(NotOpen(refusal)) => answer == Refused(refusal)
    case Err(NotServing) => answer == Unwired
  }

  function OpenedAlone(kind: OpenKind, after: (Cache, Brokers, Result<nat, Refusal>)): Opened {
    match after.2
    case Err(refusal) => Refused(refusal)
    case Ok(c) => if c < |after.0.cells| then Answer(after.0, kind, c) else Unwired
  }

  function EvictedAlone(cache: Cache, t: TenantId): Cache {
    var popped := Lookup(cache.entries, t);
    if popped.Some? && popped.value >= |cache.cells| then Pop(cache, t) else CloseObjects(Pop(cache, t), popped)
  }

  function DroppedAlone(brokers: Brokers, t: TenantId): Brokers {
    Hush(Drop(brokers, t), Lookup(brokers.live, t))
  }

  /** What `_entry` leaves when nothing runs beside it, and what it returns. */
  function EntryAlone(store: Store, cache: Cache, brokers: Brokers, t: TenantId): (Cache, Brokers, Result<nat, Refusal>)
    requires 0 < |store.history|
  {
    if t in cache.entries then ServedAlone(cache, brokers, t, cache.entries[t])
    else
      var refusal := ConfirmOpen(store, t);
      if refusal.Some? then (cache, brokers, Err(refusal.value))
      else ServedAlone(Build(cache, t), brokers, t, |cache.cells|)
  }

  function ServedAlone(cache: Cache, brokers: Brokers, t: TenantId, c: nat): (Cache, Brokers, Result<nat, Refusal>) {
    if c < |cache.cells| && cache.cells[c].served.None? && cache.wired
    then (Bind(cache, c, ForTenant(brokers, t).1), ForTenant(brokers, t).0, Ok(c))
    else (cache, brokers, Ok(c))
  }
}
