/**
 A thread running alone: taking the protocol's steps of one call with no other thread between them leaves what the
 objects' methods are proved to leave. So the objects refine the protocol, call by call.
 */
module TenantAlone {
  import opened Prelude
  import opened TenantProtocol
  import opened TenantObjects

  /** Taking only its own steps, thread `p` gets from `s` to `s'`. */
  ghost predicate AloneTo(s: Hub, p: Pid, s': Hub, n: nat)
    decreases n
  {
    if n == 0 then s == s'
    else 0 < |s.store.history| && CanTake(s, Go(p)) && AloneTo(Take(s, Go(p)), p, s', n - 1)
  }

  /** One step leads from `s` to `s1`. */
  ghost predicate Leads(s: Hub, p: Pid, s1: Hub) {
    0 < |s.store.history| && CanTake(s, Go(p)) && Advance(s, p) == s1
  }

  lemma LeadsOn(s: Hub, p: Pid, s1: Hub, s': Hub, n: nat)
    requires Leads(s, p, s1) && AloneTo(s1, p, s', n)
    ensures AloneTo(s, p, s', n + 1)
  {
  }

  /** Thread `p` stands at `pc` and waits for no lock. */
  ghost predicate Ready(s: Hub, p: Pid, pc: Pc) {
    && 0 < |s.store.history| && p in s.threads && pc == s.threads[p] && CellNamed(s.cache, pc)
    && (WantsCache(pc) ==> s.cacheLock.None?) && (WantsLoad(pc) ==> s.loadLock.None?)
  }

  lemma OpenLeads(s: Hub, p: Pid, pc: Pc)
    requires Ready(s, p, pc) && Opening(pc)
    ensures Leads(s, p, At(OpenNext(s, p, pc).0, p, OpenNext(s, p, pc).1))
  {
    hide OpenNext;
  }

  lemma DeleteLeads(s: Hub, p: Pid, pc: Pc)
    requires Ready(s, p, pc) && Deleting(pc)
    ensures Leads(s, p, At(DeleteNext(s, p, pc).0, p, DeleteNext(s, p, pc).1))
  {
    hide DeleteNext;
  }

  lemma ReadLeads(s: Hub, p: Pid, pc: Pc)
    requires Ready(s, p, pc) && Reading(pc)
    ensures Leads(s, p, At(ReadNext(s, p, pc).0, p, ReadNext(s, p, pc).1))
  {
    hide ReadNext;
  }

  // ---------------------------------------------------------------- an open

  /** Where an open ends: the cache's lock let go, and the caller answered. */
  function Ended(s: Hub, p: Pid, pc: Pc, after: (Cache, Brokers, Result<nat, Refusal>)): Hub
    requires Opening(pc)
  {
    At(s.(cacheLock := None, cache := after.0, brokers := after.1), p,
       OpenDone(pc.t, pc.kind, pc.at, OpenedAlone(pc.kind, after)))
  }

  ghost predicate Holding(s: Hub, p: Pid) {
    0 < |s.store.history| && p in s.threads && s.cacheLock == Some(p)
  }

  lemma LeaveAlone(s: Hub, p: Pid, pc: Pc) returns (n: nat)
    requires Holding(s, p) && pc == s.threads[p] && pc.OpenLeave?
    requires pc.found.Ok? ==> pc.found.value < |s.cache.cells|
    ensures AloneTo(s, p, Ended(s, p, pc, (s.cache, s.brokers, pc.found)), n)
  {
    hide Leads;
    var end := Ended(s, p, pc, (s.cache, s.brokers, pc.found));
    if pc.found.Ok? {
      var s1 := At(s.(cacheLock := None), p, OpenRead(pc.t, pc.kind, pc.at, pc.found.value));
      assert end.threads == s1.threads[p := end.threads[p]];
      OpenLeads(s1, p, s1.threads[p]);
      LeadsOn(s1, p, end, end, 0);
      OpenLeads(s, p, pc);
      LeadsOn(s, p, s1, end, 1);
      n := 2;
    } else {
      OpenLeads(s, p, pc);
      LeadsOn(s, p, end, end, 0);
      n := 1;
    }
  }

  lemma ServeAlone(s: Hub, p: Pid, pc: Pc) returns (n: nat)
    requires Holding(s, p) && pc == s.threads[p] && pc.OpenServe? && pc.cell < |s.cache.cells|
    ensures AloneTo(s, p, Ended(s, p, pc, ServedAlone(s.cache, s.brokers, pc.t, pc.cell)), n)
  {
    hide AloneTo, Leads;
    var after := ServedAlone(s.cache, s.brokers, pc.t, pc.cell);
    var leave := OpenLeave(pc.t, pc.kind, pc.at, Ok(pc.cell));
    var end := Ended(s, p, pc, after);
    if s.cache.cells[pc.cell].served.None? && s.cache.wired {
      var (brokers, b) := ForTenant(s.brokers, pc.t);
      var s1 := At(s, p, OpenBroker(pc.t, pc.kind, pc.at, pc.cell));
      var s2 := At(s1.(brokers := brokers), p, OpenBind(pc.t, pc.kind, pc.at, pc.cell, b));
      var s3 := At(s2.(cache := Bind(s.cache, pc.cell, b)), p, leave);
      n := LeaveAlone(s3, p, leave);
      assert Ended(s3, p, leave, (s3.cache, s3.brokers, leave.found)) == end by {
        assert s3.threads[p := end.threads[p]] == end.threads;
      }
      OpenLeads(s2, p, s2.threads[p]);
      LeadsOn(s2, p, s3, end, n);
      OpenLeads(s1, p, s1.threads[p]);
      LeadsOn(s1, p, s2, end, n + 1);
      OpenLeads(s, p, pc);
      LeadsOn(s, p, s1, end, n + 2);
      n := n + 3;
    } else {
      var s1 := At(s, p, leave);
      n := LeaveAlone(s1, p, leave);
      assert Ended(s1, p, leave, (s1.cache, s1.brokers, leave.found)) == end by {
        assert s1.threads[p := end.threads[p]] == end.threads;
      }
      OpenLeads(s, p, pc);
      LeadsOn(s, p, s1, end, n);
      n := n + 1;
    }
  }

  /** An open that nothing runs beside leaves what `TenantCache.Open` leaves, and answers what it answers. */
  lemma OpenAlone(s: Hub, p: Pid, pc: Pc) returns (n: nat)
    requires 0 < |s.store.history| && p in s.threads && pc == s.threads[p] && pc.OpenWait? && s.cacheLock == None
    requires pc.t in s.cache.entries ==> s.cache.entries[pc.t] < |s.cache.cells|
    ensures AloneTo(s, p, Ended(s, p, pc, EntryAlone(s.store, s.cache, s.brokers, pc.t)), n)
  {
    hide AloneTo, Leads, ServedAlone;
    var end := Ended(s, p, pc, EntryAlone(s.store, s.cache, s.brokers, pc.t));
    var s1 := At(s.(cacheLock := Some(p)), p, OpenLook(pc.t, pc.kind, pc.at));
    if pc.t in s.cache.entries {
      n := FoundAlone(s1, p, s1.threads[p]);
    } else {
      n := MissedAlone(s1, p, s1.threads[p]);
    }
    assert Ended(s1, p, s1.threads[p], EntryAlone(s.store, s.cache, s.brokers, pc.t)) == end by {
      assert s1.threads[p := end.threads[p]] == end.threads;
    }
    OpenLeads(s, p, pc);
    LeadsOn(s, p, s1, end, n);
    n := n + 1;
  }

  lemma FoundAlone(s: Hub, p: Pid, pc: Pc) returns (n: nat)
    requires Holding(s, p) && pc == s.threads[p] && pc.OpenLook?
    requires pc.t in s.cache.entries && s.cache.entries[pc.t] < |s.cache.cells|
    ensures AloneTo(s, p, Ended(s, p, pc, EntryAlone(s.store, s.cache, s.brokers, pc.t)), n)
  {
    hide AloneTo, Leads, ServedAlone;
    var end := Ended(s, p, pc, EntryAlone(s.store, s.cache, s.brokers, pc.t));
    var s1 := At(s, p, OpenServe(pc.t, pc.kind, pc.at, s.cache.entries[pc.t]));
    n := ServeAlone(s1, p, s1.threads[p]);
    assert s1.threads[p := end.threads[p]] == end.threads;
    OpenLeads(s, p, pc);
    LeadsOn(s, p, s1, end, n);
    n := n + 1;
  }

  lemma MissedAlone(s: Hub, p: Pid, pc: Pc) returns (n: nat)
    requires Holding(s, p) && pc == s.threads[p] && pc.OpenLook? && pc.t !in s.cache.entries
    ensures AloneTo(s, p, Ended(s, p, pc, EntryAlone(s.store, s.cache, s.brokers, pc.t)), n)
  {
    hide AloneTo, Leads, ServedAlone, Build;
    var end := Ended(s, p, pc, EntryAlone(s.store, s.cache, s.brokers, pc.t));
    var s1 := At(s, p, OpenConfirm(pc.t, pc.kind, pc.at));
    var refusal := ConfirmOpen(s.store, pc.t);
    if refusal.Some? {
      var leave := OpenLeave(pc.t, pc.kind, pc.at, Err(refusal.value));
      var s2 := At(s1, p, leave);
      n := LeaveAlone(s2, p, leave);
      assert s2.threads[p := end.threads[p]] == end.threads;
      OpenLeads(s1, p, s1.threads[p]);
      LeadsOn(s1, p, s2, end, n);
    } else {
      n := BuiltAlone(s1, p, s1.threads[p]);
      assert s1.threads[p := end.threads[p]] == end.threads;
      assert Ended(s1, p, s1.threads[p], ServedAlone(Build(s.cache, pc.t), s.brokers, pc.t, |s.cache.cells|)) == end;
    }
    OpenLeads(s, p, pc);
    LeadsOn(s, p, s1, end, if refusal.Some? then n + 1 else n);
    n := if refusal.Some? then n + 2 else n + 1;
  }

  lemma BuiltAlone(s: Hub, p: Pid, pc: Pc) returns (n: nat)
    requires Holding(s, p) && pc == s.threads[p] && pc.OpenConfirm? && ConfirmOpen(s.store, pc.t).None?
    ensures AloneTo(s, p, Ended(s, p, pc, ServedAlone(Build(s.cache, pc.t), s.brokers, pc.t, |s.cache.cells|)), n)
  {
    hide AloneTo, Leads, ServedAlone, ConfirmOpen;
    var end := Ended(s, p, pc, ServedAlone(Build(s.cache, pc.t), s.brokers, pc.t, |s.cache.cells|));
    var s1 := At(s, p, OpenBuild(pc.t, pc.kind, pc.at));
    var s2 := At(s1.(cache := Build(s.cache, pc.t)), p, OpenServe(pc.t, pc.kind, pc.at, |s.cache.cells|));
    n := ServeAlone(s2, p, s2.threads[p]);
    assert s2.threads[p := end.threads[p]] == end.threads;
    OpenLeads(s1, p, s1.threads[p]);
    LeadsOn(s1, p, s2, end, n);
    OpenLeads(s, p, pc);
    LeadsOn(s, p, s1, end, n + 1);
    n := n + 2;
  }

  // ---------------------------------------------------------------- forgetting a closed tenant

  /** Where a deletion's `forget_closed` ends. */
  function Forgotten(s: Hub, p: Pid, pc: Pc): Hub
    requires Deleting(pc) && 0 < |s.store.history|
  {
    At(s.(cacheLock := None,
          cache := EvictedAlone(s.cache, pc.t),
          brokers := if s.cache.wired then DroppedAlone(s.brokers, pc.t) else s.brokers,
          held := Some(Copy(s.store.Open(), s.store.Version())),
          forgotten := s.forgotten + {pc.t}),
       p, CloseDone(pc.t, pc.at, Closed))
  }

  /** An eviction and a refresh that nothing runs beside leave what `ForgetClosed` leaves. */
  lemma ForgetAlone(s: Hub, p: Pid, pc: Pc)
    requires 0 < |s.store.history| && p in s.threads && pc == s.threads[p] && pc.EvictWait?
    requires s.cacheLock == None && s.loadLock == None
    requires pc.t in s.cache.entries ==> s.cache.entries[pc.t] < |s.cache.cells|
    ensures AloneTo(s, p, Forgotten(s, p, pc), if s.cache.wired then 10 else 8)
  {
    hide AloneTo, Leads, EvictedAlone, DroppedAlone;
    var end := Forgotten(s, p, pc);
    var s1 := At(s.(cacheLock := Some(p)), p, EvictPop(pc.t, pc.at));
    PopAlone(s1, p, s1.threads[p]);
    assert s1.threads[p := end.threads[p]] == end.threads;
    DeleteLeads(s, p, pc);
    LeadsOn(s, p, s1, end, if s.cache.wired then 9 else 7);
  }

  lemma PopAlone(s: Hub, p: Pid, pc: Pc)
    requires Holding(s, p) && pc == s.threads[p] && pc.EvictPop? && s.loadLock == None
    requires pc.t in s.cache.entries ==> s.cache.entries[pc.t] < |s.cache.cells|
    ensures AloneTo(s, p, Forgotten(s, p, pc), if s.cache.wired then 9 else 7)
  {
    hide AloneTo, Leads, DroppedAlone, CloseObjects;
    var end, popped := Forgotten(s, p, pc), Lookup(s.cache.entries, pc.t);
    var s1 := At(s.(cache := Pop(s.cache, pc.t)), p, EvictLeave(pc.t, pc.at, popped, s.cache.wired));
    LetGoAlone(s1, p, s1.threads[p]);
    assert s1.threads[p := end.threads[p]] == end.threads;
    DeleteLeads(s, p, pc);
    LeadsOn(s, p, s1, end, if s.cache.wired then 8 else 6);
  }

  /** Where an eviction ends that has popped its entry and is about to let the cache's lock go. */
  function LetGo(s: Hub, p: Pid, pc: Pc): Hub
    requires pc.EvictLeave? && 0 < |s.store.history|
    requires pc.popped.Some? ==> pc.popped.value < |s.cache.cells|
  {
    At(s.(cacheLock := None,
          cache := CloseObjects(s.cache, pc.popped),
          brokers := if pc.serving then DroppedAlone(s.brokers, pc.t) else s.brokers,
          held := Some(Copy(s.store.Open(), s.store.Version())),
          forgotten := s.forgotten + {pc.t}),
       p, CloseDone(pc.t, pc.at, Closed))
  }

  lemma LetGoAlone(s: Hub, p: Pid, pc: Pc)
    requires Holding(s, p) && pc == s.threads[p] && pc.EvictLeave? && s.loadLock == None
    requires pc.popped.Some? ==> pc.popped.value < |s.cache.cells|
    ensures AloneTo(s, p, LetGo(s, p, pc), if pc.serving then 8 else 6)
  {
    hide AloneTo, Leads, CloseObjects;
    var end := LetGo(s, p, pc);
    if pc.serving {
      var s1 := At(s.(cacheLock := None), p, EvictDrop(pc.t, pc.at, pc.popped));
      assert end.threads == s1.threads[p := end.threads[p]];
      DropAlone(s1, p, s1.threads[p], end);
      DeleteLeads(s, p, pc);
      LeadsOn(s, p, s1, end, 7);
    } else {
      var s1 := At(s.(cacheLock := None), p, EvictObjects(pc.t, pc.at, pc.popped));
      assert end.threads == s1.threads[p := end.threads[p]];
      RefreshAlone(s1, p, s1.threads[p], end);
      DeleteLeads(s, p, pc);
      LeadsOn(s, p, s1, end, 5);
    }
  }

  lemma DropAlone(s: Hub, p: Pid, pc: Pc, end: Hub)
    requires 0 < |s.store.history| && p in s.threads && pc == s.threads[p] && pc.EvictDrop? && s.loadLock == None
    requires pc.popped.Some? ==> pc.popped.value < |s.cache.cells|
    requires end == At(s.(cache := CloseObjects(s.cache, pc.popped), brokers := DroppedAlone(s.brokers, pc.t),
                          held := Some(Copy(s.store.Open(), s.store.Version())), forgotten := s.forgotten + {pc.t}),
                       p, CloseDone(pc.t, pc.at, Closed))
    ensures AloneTo(s, p, end, 7)
  {
    hide AloneTo, Leads, CloseObjects;
    var s1 := At(s.(brokers := Drop(s.brokers, pc.t)), p,
                 EvictHush(pc.t, pc.at, pc.popped, Lookup(s.brokers.live, pc.t)));
    var s2 := At(s1.(brokers := DroppedAlone(s.brokers, pc.t)), p, EvictObjects(pc.t, pc.at, pc.popped));
    assert end.threads == s2.threads[p := end.threads[p]];
    RefreshAlone(s2, p, s2.threads[p], end);
    DeleteLeads(s1, p, s1.threads[p]);
    LeadsOn(s1, p, s2, end, 5);
    DeleteLeads(s, p, pc);
    LeadsOn(s, p, s1, end, 6);
  }

  lemma RefreshAlone(s: Hub, p: Pid, pc: Pc, end: Hub)
    requires 0 < |s.store.history| && p in s.threads && pc == s.threads[p] && pc.EvictObjects? && s.loadLock == None
    requires pc.popped.Some? ==> pc.popped.value < |s.cache.cells|
    requires end == At(s.(cache := CloseObjects(s.cache, pc.popped),
                          held := Some(Copy(s.store.Open(), s.store.Version())), forgotten := s.forgotten + {pc.t}),
                       p, CloseDone(pc.t, pc.at, Closed))
    ensures AloneTo(s, p, end, 5)
  {
    hide CloseObjects, AloneTo, Leads;
    var s1 := At(s.(cache := CloseObjects(s.cache, pc.popped)), p, LoadWait(Forget(pc.t), pc.at));
    var s2 := At(s1.(loadLock := Some(p)), p, LoadRead(Forget(pc.t), pc.at));
    assert end.threads == s2.threads[p := end.threads[p]];
    ReadAlone(s2, p, s2.threads[p], end);
    ReadLeads(s1, p, s1.threads[p]);
    LeadsOn(s1, p, s2, end, 3);
    DeleteLeads(s, p, pc);
    LeadsOn(s, p, s1, end, 4);
  }

  lemma ReadAlone(s: Hub, p: Pid, pc: Pc, end: Hub)
    requires 0 < |s.store.history| && p in s.threads && pc == s.threads[p] && pc.LoadRead? && pc.why.Forget?
    requires end == At(s.(loadLock := None, held := Some(Copy(s.store.Open(), s.store.Version())),
                          forgotten := s.forgotten + {pc.why.gone}),
                       p, CloseDone(pc.why.gone, pc.at, Closed))
    ensures AloneTo(s, p, end, 3)
  {
    hide AloneTo, Leads;
    var copy := Copy(s.store.Open(), s.store.Version());
    var s1 := At(s, p, LoadSwap(pc.why, pc.at, copy));
    var s2 := At(s1.(held := Some(copy)), p, LoadLeave(pc.why, pc.at, copy));
    assert end.threads == s2.threads[p := end.threads[p]];
    AloneNow(end, p);
    ReadLeads(s2, p, s2.threads[p]);
    LeadsOn(s2, p, end, end, 0);
    ReadLeads(s1, p, s1.threads[p]);
    LeadsOn(s1, p, s2, end, 1);
    ReadLeads(s, p, pc);
    LeadsOn(s, p, s1, end, 2);
  }

  lemma AloneNow(s: Hub, p: Pid)
    ensures AloneTo(s, p, s, 0)
  {
  }
}
