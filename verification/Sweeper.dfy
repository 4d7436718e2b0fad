/**
 One sweep run without interference: overdue servers become stale, long silent
 ones expired, and the expired ones leave the local capability index.
 */
module Sweeper {
  import opened Common
  import opened Registry
  import opened Text
  import opened Leases
  import CI = CapabilityIndex

  const DEFAULT_INTERVAL: int := 30_000_000_000

  /** The heartbeat TTL, or 30 seconds when that is not positive. */
  function Interval(heartbeatTtl: int): (interval: int)
    ensures interval > 0
    ensures interval == if heartbeatTtl > 0 then heartbeatTtl else 30_000_000_000
  {
    if heartbeatTtl > 0 then heartbeatTtl else DEFAULT_INTERVAL
  }

  /** What the database refuses during one pass: the listing, or single writes. */
  datatype Faults = Faults(listing: bool, writes: set<string>)

  const NO_FAULTS: Faults := Faults(false, {})

  predicate Works(faults: Faults, id: string) {
    !faults.listing && id !in faults.writes
  }

  /** The status a sweep leaves a record with.  The expiry threshold is three
      intervals and the query triples it again. */
  function SweptStatus(r: Record, now: int, interval: int, stale: Faults, expired: Faults): Status {
    var status := if IsStale(r, now, interval) && Works(stale, r.id) then Stale else r.status;
    if (status.Active? || status.Stale?) && SilentFor(r, now, 9 * interval) && Works(expired, r.id) then Expired
    else status
  }

  function Swept(store: Store, now: int, interval: int, stale: Faults, expired: Faults): Store {
    map id | id in store :: store[id].(status := SweptStatus(store[id], now, interval, stale, expired))
  }

  predicate ExpiresNow(r: Record, now: int, interval: int, stale: Faults, expired: Faults) {
    !r.status.Expired? && SweptStatus(r, now, interval, stale, expired).Expired?
  }

  /** Without faults, servers silent for more than nine intervals become expired and
      active ones silent for more than one stale. */
  lemma CleanSweep(store: Store, now: int, interval: int, id: string)
    requires id in store && interval > 0
    ensures var r := store[id];
            var silence := if r.lastHeartbeat.Some? then now - r.lastHeartbeat.value else 0;
            Swept(store, now, interval, NO_FAULTS, NO_FAULTS)[id] == r.(status :=
              if (r.status.Active? || r.status.Stale?) && silence > 9 * interval then Expired
              else if r.status.Active? && silence > interval then Stale
              else r.status)
  {}

  /** A later sweep without faults makes up for whatever an earlier one failed to do. */
  lemma CleanSweepMakesUp(store: Store, now: int, later: int, interval: int, stale: Faults, expired: Faults)
    requires now <= later && interval > 0 && KeyedById(store)
    ensures Swept(Swept(store, now, interval, stale, expired), later, interval, NO_FAULTS, NO_FAULTS) ==
            Swept(store, later, interval, NO_FAULTS, NO_FAULTS)
  {
    var once := Swept(store, now, interval, stale, expired);
    forall id | id in store
      ensures Swept(once, later, interval, NO_FAULTS, NO_FAULTS)[id] ==
              Swept(store, later, interval, NO_FAULTS, NO_FAULTS)[id]
    {
      CleanSweep(once, later, interval, id);
      CleanSweep(store, later, interval, id);
    }
  }

  // ----- removing several servers from the index

  function RemovedAll(ix: CI.Index, ids: seq<string>): CI.Index {
    if ids == [] then ix else CI.Step(RemovedAll(ix, ids[..|ids| - 1]), CI.Remove(ids[|ids| - 1]))
  }

  lemma RemovedAllNone(ix: CI.Index)
    ensures RemovedAll(ix, []) == ix
  {}

  lemma RemovedAllSnoc(ix: CI.Index, ids: seq<string>, id: string)
    ensures RemovedAll(ix, ids + [id]) == CI.Step(RemovedAll(ix, ids), CI.Remove(id))
  {
    assert (ids + [id])[..|ids|] == ids;
  }

  ghost function Named(ids: seq<string>): set<string> {
    set id | id in ids && Trim(id) != ""
  }

  /** The index still agrees with the live servers once the removed ones are
      taken away from those. */
  lemma {:induction false} RemovedAllAgrees(ix: CI.Index, live: CI.Live, ids: seq<string>, kind: CI.Kind)
    requires CI.Agrees(CI.Side(ix, kind), live, kind)
    ensures CI.Agrees(CI.Side(RemovedAll(ix, ids), kind), live - Named(ids), kind)
  {
    if ids == [] {
      assert live - Named(ids) == live;
    } else {
      var init, id := ids[..|ids| - 1], ids[|ids| - 1];
      RemovedAllAgrees(ix, live, init, kind);
      assert ids == init + [id];
      if Trim(id) == "" {
        assert Named(ids) == Named(init);
      } else {
        CI.DropAgrees(CI.Side(RemovedAll(ix, init), kind), live - Named(init), id, kind);
        assert Named(ids) == Named(init) + {id};
        assert live - Named(init) - {id} == live - Named(ids);
      }
    }
  }

  // ----- the queries

  /** The listing returns each matching record once. */
  ghost predicate Lists(store: Store, list: seq<Record>, matching: Record -> bool) {
    && (forall i | 0 <= i < |list| :: list[i].id in store && store[list[i].id] == list[i] && matching(list[i]))
    && (forall i, j | 0 <= i < j < |list| :: list[i].id != list[j].id)
    && (forall id | id in store && matching(store[id]) :: store[id] in list)
  }

  method Query(store: Store, matching: Record -> bool) returns (list: seq<Record>)
    requires KeyedById(store)
    ensures Lists(store, list, matching)
  {
    list := [];
    var rest := store.Keys;
    while rest != {}
      invariant rest <= store.Keys
      invariant forall i | 0 <= i < |list| ::
                  list[i].id in store && list[i].id !in rest && store[list[i].id] == list[i] && matching(list[i])
      invariant forall i, j | 0 <= i < j < |list| :: list[i].id != list[j].id
      invariant forall id | id in store && id !in rest && matching(store[id]) :: store[id] in list
      decreases rest
    {
      var id :| id in rest;
      if matching(store[id]) {
        list := list + [store[id]];
      }
      rest := rest - {id};
    }
  }

  // ----- the sweeper

  function MovedOn(store: Store, server: Record, event: LifecycleEvent): Store {
    var next := Transition(server.status, event);
    if next.Some? && server.id in store
    then store[server.id := store[server.id].(status := next.value)]
    else store
  }

  /** The store with the servers of a list moved on by the event, one by one. */
  function AllMovedOn(store: Store, list: seq<Record>, event: LifecycleEvent): Store {
    if list == [] then store else MovedOn(AllMovedOn(store, list[..|list| - 1], event), list[|list| - 1], event)
  }

  /** The listed servers whose status write goes through. */
  function Written(list: seq<Record>, failing: set<string>): seq<Record> {
    if list == [] then []
    else
      var init, last := list[..|list| - 1], list[|list| - 1];
      Written(init, failing) + if last.id in failing then [] else [last]
  }

  lemma WrittenSnoc(list: seq<Record>, i: nat, failing: set<string>)
    requires i < |list|
    ensures Written(list[..i + 1], failing) ==
            if list[i].id in failing then Written(list[..i], failing) else Written(list[..i], failing) + [list[i]]
  {
    assert list[..i + 1][..i] == list[..i];
  }

  lemma MovedSnoc(store: Store, list: seq<Record>, r: Record, event: LifecycleEvent)
    ensures AllMovedOn(store, list + [r], event) == MovedOn(AllMovedOn(store, list, event), r, event)
    ensures IdsOf(list + [r]) == IdsOf(list) + [r.id]
  {
    assert (list + [r])[..|list|] == list;
  }

  lemma NoneMoved(store: Store, event: LifecycleEvent, failing: set<string>)
    ensures AllMovedOn(store, [], event) == store && IdsOf([]) == [] && Written([], failing) == []
  {}

  function IdsOf(list: seq<Record>): seq<string> {
    if list == [] then [] else IdsOf(list[..|list| - 1]) + [list[|list| - 1].id]
  }

  lemma {:induction false} IdsOfAt(list: seq<Record>)
    ensures |IdsOf(list)| == |list| && forall j | 0 <= j < |list| :: IdsOf(list)[j] == list[j].id
  {
    if list != [] { IdsOfAt(list[..|list| - 1]); }
  }

  lemma {:induction false} WrittenHolds(list: seq<Record>, failing: set<string>)
    requires forall i, j | 0 <= i < j < |list| :: list[i].id != list[j].id
    ensures var done := Written(list, failing);
            && (forall r :: r in done <==> r in list && r.id !in failing)
            && forall i, j | 0 <= i < j < |done| :: done[i].id != done[j].id
  {
    if list != [] {
      var init, last := list[..|list| - 1], list[|list| - 1];
      WrittenHolds(init, failing);
      assert list == init + [last];
      var done := Written(init, failing);
      forall i | 0 <= i < |done| ensures done[i].id != last.id {
        assert done[i] in done && done[i] in init;
      }
    }
  }

  /** The written servers are a listing of the records that match and can be written. */
  lemma WrittenLists(store: Store, list: seq<Record>, matching: Record -> bool, failing: set<string>)
    requires KeyedById(store) && Lists(store, list, matching)
    ensures Lists(store, Written(list, failing), (r: Record) => matching(r) && r.id !in failing)
  {
    WrittenHolds(list, failing);
    var done := Written(list, failing);
    hide Written;
    forall i | 0 <= i < |done|
      ensures done[i].id in store && store[done[i].id] == done[i] && matching(done[i]) && done[i].id !in failing
    {
      assert done[i] in done && done[i] in list;
    }
  }

  lemma {:induction false} MovedOnAt(store: Store, list: seq<Record>, event: LifecycleEvent, target: Status, id: string)
    requires id in store
    requires forall i | 0 <= i < |list| :: Transition(list[i].status, event) == Some(target)
    ensures var after := AllMovedOn(store, list, event);
            && id in after
            && after[id] == if exists i :: 0 <= i < |list| && list[i].id == id
                            then store[id].(status := target) else store[id]
  {
    if list != [] {
      MovedOnAt(store, list[..|list| - 1], event, target, id);
    }
  }

  lemma {:induction false} MovedOnKeys(store: Store, list: seq<Record>, event: LifecycleEvent)
    ensures AllMovedOn(store, list, event).Keys == store.Keys
  {
    if list != [] { MovedOnKeys(store, list[..|list| - 1], event); }
  }

  lemma ListedExactly(store: Store, list: seq<Record>, matching: Record -> bool, id: string)
    requires KeyedById(store) && Lists(store, list, matching) && id in store
    ensures matching(store[id]) <==> exists i :: 0 <= i < |list| && list[i].id == id
  {
    assert matching(store[id]) ==> store[id] in list;
  }

  /** Once every listed server has been moved, the matching records have the target
      status and the others are as they were. */
  lemma AllMoved(store: Store, list: seq<Record>, matching: Record -> bool, event: LifecycleEvent, target: Status)
    requires KeyedById(store) && Lists(store, list, matching)
    requires forall i | 0 <= i < |list| :: Transition(list[i].status, event) == Some(target)
    ensures AllMovedOn(store, list, event) ==
            map id | id in store :: if matching(store[id]) then store[id].(status := target) else store[id]
  {
    var after := AllMovedOn(store, list, event);
    MovedOnKeys(store, list, event);
    forall id | id in store
      ensures after[id] == if matching(store[id]) then store[id].(status := target) else store[id]
    {
      MovedOnAt(store, list, event, target, id);
      ListedExactly(store, list, matching, id);
    }
  }

  lemma RemovedAre(store: Store, list: seq<Record>, matching: Record -> bool)
    requires KeyedById(store) && Lists(store, list, matching)
    ensures forall id :: id in IdsOf(list) <==> id in store && matching(store[id])
  {
    var ids := IdsOf(list);
    IdsOfAt(list);
    forall id | id in store && matching(store[id]) ensures id in ids {
      var i :| 0 <= i < |list| && list[i] == store[id];
      assert ids[i] == id;
    }
  }

  ghost function IdSet(list: seq<Record>): set<string> {
    if list == [] then {} else IdSet(list[..|list| - 1]) + {list[|list| - 1].id}
  }

  lemma {:induction false} IdSetHolds(list: seq<Record>, id: string)
    ensures id in IdSet(list) <==> exists i :: 0 <= i < |list| && list[i].id == id
  {
    if list != [] { IdSetHolds(list[..|list| - 1], id); }
  }

  lemma {:induction false} IdSetCounts(list: seq<Record>)
    requires forall i, j | 0 <= i < j < |list| :: list[i].id != list[j].id
    ensures |IdSet(list)| == |list|
  {
    if list != [] {
      IdSetCounts(list[..|list| - 1]);
      IdSetHolds(list[..|list| - 1], list[|list| - 1].id);
    }
  }

  lemma ListedOnce(store: Store, list: seq<Record>, matching: Record -> bool)
    requires KeyedById(store) && Lists(store, list, matching)
    ensures |list| == |set id | id in store && matching(store[id])|
  {
    IdSetCounts(list);
    forall id ensures id in IdSet(list) <==> id in store && matching(store[id]) {
      IdSetHolds(list, id);
      if id in store { ListedExactly(store, list, matching, id); }
    }
    assert (set id | id in store && matching(store[id])) == IdSet(list);
  }

  /** A pass over the store: the records that are due and whose write works. */
  function Passed(store: Store, due: Record -> bool, faults: Faults, target: Status): Store {
    map id | id in store ::
      if due(store[id]) && Works(faults, id) then store[id].(status := target) else store[id]
  }

  /** The servers a pass moves. */
  function Due(store: Store, due: Record -> bool, faults: Faults): set<string> {
    set id | id in store && due(store[id]) && Works(faults, id)
  }

  /** A pass is the listed servers that can be written, moved one by one. */
  lemma PassIsMoves(
      store: Store, list: seq<Record>, due: Record -> bool, faults: Faults, event: LifecycleEvent, target: Status)
    requires KeyedById(store) && Lists(store, list, due) && !faults.listing
    requires forall i | 0 <= i < |list| :: Transition(list[i].status, event) == Some(target)
    ensures AllMovedOn(store, Written(list, faults.writes), event) == Passed(store, due, faults, target)
  {
    var done, both := Written(list, faults.writes), (r: Record) => due(r) && r.id !in faults.writes;
    WrittenLists(store, list, due, faults.writes);
    WrittenMoves(list, faults.writes, event, target);
    SamePass(store, due, faults, target);
    hide *;
    AllMoved(store, done, both, event, target);
  }

  lemma {:induction false} WrittenMoves(list: seq<Record>, failing: set<string>, event: LifecycleEvent, target: Status)
    requires forall i | 0 <= i < |list| :: Transition(list[i].status, event) == Some(target)
    ensures var done := Written(list, failing);
            forall i | 0 <= i < |done| :: Transition(done[i].status, event) == Some(target)
  {
    if list != [] {
      var init, last := list[..|list| - 1], list[|list| - 1];
      WrittenMoves(init, failing, event, target);
      assert Written(list, failing) == Written(init, failing) + if last.id in failing then [] else [last];
    }
  }

  lemma SamePass(store: Store, due: Record -> bool, faults: Faults, target: Status)
    requires KeyedById(store) && !faults.listing
    ensures var both := (r: Record) => due(r) && r.id !in faults.writes;
            (map id | id in store :: if both(store[id]) then store[id].(status := target) else store[id]) ==
            Passed(store, due, faults, target)
  {}

  lemma PassMovesTheDue(store: Store, list: seq<Record>, due: Record -> bool, faults: Faults)
    requires KeyedById(store) && Lists(store, list, due) && !faults.listing
    ensures var done := Written(list, faults.writes);
            && (forall id :: id in IdsOf(done) <==> id in Due(store, due, faults))
            && |done| == |Due(store, due, faults)|
  {
    var done, both := Written(list, faults.writes), (r: Record) => due(r) && r.id !in faults.writes;
    WrittenLists(store, list, due, faults.writes);
    hide Written, Lists, IdsOf;
    RemovedAre(store, done, both);
    ListedOnce(store, done, both);
    assert (set id | id in store && both(store[id])) == Due(store, due, faults);
  }

  class SweepLoop {
    var store: Store
    const index: CI.CapabilityStore

    constructor (store: Store, index: CI.CapabilityStore)
      ensures this.store == store && this.index == index
    {
      this.store, this.index := store, index;
    }

    method TransitionServer(server: Record, event: LifecycleEvent, failing: set<string>) returns (moved: bool)
      modifies this
      ensures moved == (Transition(server.status, event).Some? && server.id !in failing)
      ensures store == if moved then MovedOn(old(store), server, event) else old(store)
    {
      var next := Transition(server.status, event);
      if next.None? {
        return false;
      }
      if server.id in failing {
        return false;
      }
      if server.id in store {
        store := store[server.id := store[server.id].(status := next.value)];
      }
      return true;
    }

    method MarkListed(servers: seq<Record>, failing: set<string>) returns (count: nat)
      requires forall i | 0 <= i < |servers| :: Transition(servers[i].status, HeartbeatMissed).Some?
      modifies this
      ensures store == AllMovedOn(old(store), Written(servers, failing), HeartbeatMissed)
      ensures count == |Written(servers, failing)|
    {
      hide *;
      count := 0;
      NoneMoved(store, HeartbeatMissed, failing);
      assert servers[..0] == [];
      for i := 0 to |servers|
        invariant count == |Written(servers[..i], failing)|
        invariant store == AllMovedOn(old(store), Written(servers[..i], failing), HeartbeatMissed)
      {
        WrittenSnoc(servers, i, failing);
        MovedSnoc(old(store), Written(servers[..i], failing), servers[i], HeartbeatMissed);
        var moved := TransitionServer(servers[i], HeartbeatMissed, failing);
        if moved {
          count := count + 1;
        }
      }
      assert servers[..|servers|] == servers;
    }

    method SweepStale(now: int, threshold: int, faults: Faults) returns (count: nat)
      requires KeyedById(store)
      modifies this
      ensures store == Passed(old(store), r => IsStale(r, now, threshold), faults, Stale)
      ensures count == |Due(old(store), r => IsStale(r, now, threshold), faults)|
    {
      var due := (r: Record) => IsStale(r, now, threshold);
      if faults.listing {
        NothingPasses(store, due, faults, Stale);
        return 0;
      }
      var servers := Query(store, due);
      assert forall i | 0 <= i < |servers| :: Transition(servers[i].status, HeartbeatMissed) == Some(Stale);
      PassIsMoves(store, servers, due, faults, HeartbeatMissed, Stale);
      PassMovesTheDue(store, servers, due, faults);
      hide *;
      count := MarkListed(servers, faults.writes);
    }

    method ExpireListed(servers: seq<Record>, failing: set<string>) returns (removed: seq<string>)
      requires forall i | 0 <= i < |servers| :: Transition(servers[i].status, ReachedExpiry).Some?
      modifies this, index
      ensures store == AllMovedOn(old(store), Written(servers, failing), ReachedExpiry)
      ensures removed == IdsOf(Written(servers, failing))
      ensures index.View() == RemovedAll(old(index.View()), removed)
    {
      hide *;
      removed := [];
      RemovedAllNone(index.View());
      NoneMoved(store, ReachedExpiry, failing);
      assert servers[..0] == [];
      for i := 0 to |servers|
        invariant store == AllMovedOn(old(store), Written(servers[..i], failing), ReachedExpiry)
        invariant removed == IdsOf(Written(servers[..i], failing))
        invariant index.View() == RemovedAll(old(index.View()), removed)
      {
        WrittenSnoc(servers, i, failing);
        MovedSnoc(old(store), Written(servers[..i], failing), servers[i], ReachedExpiry);
        var moved := TransitionServer(servers[i], ReachedExpiry, failing);
        if moved {
          index.Remove(servers[i].id);
          RemovedAllSnoc(old(index.View()), removed, servers[i].id);
          removed := removed + [servers[i].id];
        }
      }
      assert servers[..|servers|] == servers;
    }

    method SweepExpired(now: int, threshold: int, faults: Faults) returns (removed: seq<string>)
      requires KeyedById(store)
      modifies this, index
      ensures store == Passed(old(store), r => IsExpired(r, now, threshold), faults, Expired)
      ensures forall id :: id in removed <==> id in Due(old(store), r => IsExpired(r, now, threshold), faults)
      ensures index.View() == RemovedAll(old(index.View()), removed)
    {
      var due := (r: Record) => IsExpired(r, now, threshold);
      if faults.listing {
        NothingPasses(store, due, faults, Expired);
        RemovedAllNone(index.View());
        return [];
      }
      var servers := Query(store, due);
      assert forall i | 0 <= i < |servers| :: Transition(servers[i].status, ReachedExpiry) == Some(Expired);
      PassIsMoves(store, servers, due, faults, ReachedExpiry, Expired);
      PassMovesTheDue(store, servers, due, faults);
      hide *;
      removed := ExpireListed(servers, faults.writes);
    }

    /** A server silent for more than nine intervals ends up expired and out of the
        index, one silent for more than one ends up stale, nothing else changes. */
    method Sweep(now: int, heartbeatTtl: int, stale: Faults, expired: Faults) returns (removed: seq<string>)
      requires KeyedById(store)
      modifies this, index
      ensures store == Swept(old(store), now, Interval(heartbeatTtl), stale, expired)
      ensures forall id :: id in removed <==>
                id in old(store) && ExpiresNow(old(store)[id], now, Interval(heartbeatTtl), stale, expired)
      ensures index.View() == RemovedAll(old(index.View()), removed)
    {
      var interval := Interval(heartbeatTtl);
      TwoPasses(store, now, interval, stale, expired);
      hide Passed, Swept, Due, ExpiresNow, KeyedById, RemovedAll;
      var _ := SweepStale(now, interval, stale);
      removed := SweepExpired(now, 3 * interval, expired);
    }
  }

  lemma NothingPasses(store: Store, due: Record -> bool, faults: Faults, target: Status)
    requires faults.listing
    ensures Passed(store, due, faults, target) == store && Due(store, due, faults) == {}
  {}

  lemma TwoPassesAt(store: Store, now: int, interval: int, stale: Faults, expired: Faults, id: string)
    requires KeyedById(store) && id in store
    ensures var marked := Passed(store, r => IsStale(r, now, interval), stale, Stale);
            && marked[id].id == id
            && Passed(marked, r => IsExpired(r, now, 3 * interval), expired, Expired)[id] ==
               Swept(store, now, interval, stale, expired)[id]
            && (ExpiresNow(store[id], now, interval, stale, expired) <==>
                  IsExpired(marked[id], now, 3 * interval) && Works(expired, id))
  {
    hide Works;
  }

  /** The two passes together are the sweep. */
  lemma TwoPasses(store: Store, now: int, interval: int, stale: Faults, expired: Faults)
    requires KeyedById(store)
    ensures var marked := Passed(store, r => IsStale(r, now, interval), stale, Stale);
            && KeyedById(marked)
            && Passed(marked, r => IsExpired(r, now, 3 * interval), expired, Expired) ==
               Swept(store, now, interval, stale, expired)
            && forall id :: id in Due(marked, r => IsExpired(r, now, 3 * interval), expired) <==>
                            id in store && ExpiresNow(store[id], now, interval, stale, expired)
  {
    var marked := Passed(store, r => IsStale(r, now, interval), stale, Stale);
    assert marked.Keys == store.Keys;
    forall id | id in store
      ensures marked[id].id == id
      ensures Passed(marked, r => IsExpired(r, now, 3 * interval), expired, Expired)[id] ==
              Swept(store, now, interval, stale, expired)[id]
      ensures ExpiresNow(store[id], now, interval, stale, expired) <==>
              IsExpired(marked[id], now, 3 * interval) && Works(expired, id)
    {
      TwoPassesAt(store, now, interval, stale, expired, id);
    }
    hide ExpiresNow, IsExpired, IsStale, Works, SweptStatus;
  }
}
