/**
 Registration leases: registering, heartbeats, platform acknowledgements,
 deregistration, and the sweeper's status writes, over an abstract store of
 server records.

 Every service call is one step.  A sweep is not: it lists the overdue servers
 in one step and writes their new statuses in later ones, with anything in
 between; `pending` holds the writes a sweeper has decided on but not made.
 */
module Leases {
  import opened Common
  import opened Registry
  import opened Text

  // ----- the lifecycle table

  datatype LifecycleEvent = HeartbeatReceived | HeartbeatMissed | ReachedExpiry | WasApproved | WasDeregistered

  function Transition(current: Status, event: LifecycleEvent): Option<Status> {
    match (current, event)
    case (Pending, WasApproved) => Some(Approved)
    case (Pending, HeartbeatReceived) => Some(Active)
    case (Pending, ReachedExpiry) => Some(Expired)
    case (Approved, HeartbeatReceived) => Some(Active)
    case (Approved, ReachedExpiry) => Some(Expired)
    case (Active, HeartbeatReceived) => Some(Active)
    case (Active, HeartbeatMissed) => Some(Stale)
    case (Active, ReachedExpiry) => Some(Expired)
    case (Stale, HeartbeatReceived) => Some(Active)
    case (Stale, HeartbeatMissed) => Some(Expired)
    case (Stale, ReachedExpiry) => Some(Expired)
    case (_, WasDeregistered) => Some(Expired)
    case (Expired, HeartbeatMissed) => Some(Expired)
    case (Expired, ReachedExpiry) => Some(Expired)
    case _ => None
  }

  // ----- requests

  datatype Caller = Nobody | Caller(id: string, mtls: bool, admin: bool)

  /** A registration request; `valid` and `allowed` are the outcomes of payload
      validation and of the SPIFFE allow list. */
  datatype Registration = Registration(
    valid: bool, allowed: bool, name: string, tools: seq<string>, resources: seq<string>, hash: string)

  datatype Beat = Beat(registrationId: string, epoch: int, hash: string)

  datatype Error = Unauthorized | Invalid | Forbidden | NotFound | Conflict

  datatype Action = NoAction | ReRegister | ResendCapabilities

  type Store = map<string, Record>

  datatype Sys = Sys(store: Store, pending: multiset<(string, Status)>)

  datatype Event =
    | Register(caller: Caller, req: Registration, freshId: string)
    | Heartbeat(caller: Caller, id: string, beat: Beat, now: int)
    | Acknowledge(id: string, epoch: int, hash: string)
    | Deregister(caller: Caller, id: string)
    | ListStale(now: int, ttl: int)
    | ListExpired(now: int, ttl: int)
    | WriteStatus(id: string, status: Status)

  datatype Out =
    | Failed(error: Error)
    | Registered(record: Record, created: bool)
    | Beaten(action: Action, status: Status)
    | Acknowledged
    | Deregistered
    | Quiet

  function NextEpoch(current: int): int {
    if current <= 0 then 1 else current + 1
  }

  ghost predicate HasSpiffe(store: Store, spiffe: string) {
    exists id :: id in store && store[id].spiffe == spiffe
  }

  ghost function BySpiffe(store: Store, spiffe: string): Record
    requires HasSpiffe(store, spiffe)
  {
    var id :| id in store && store[id].spiffe == spiffe;
    store[id]
  }

  function NewRecord(spiffe: string, req: Registration, id: string, epoch: int): Record {
    Record(id, Trim(req.name), spiffe, req.tools, req.resources, Active, None, epoch, Trim(req.hash), Unacked)
  }

  ghost function DoRegister(store: Store, caller: Caller, req: Registration, freshId: string): (Store, Out) {
    if caller.Nobody? || !caller.mtls then (store, Failed(Unauthorized))
    else if !req.valid then (store, Failed(Invalid))
    else if !req.allowed then (store, Failed(Forbidden))
    else if HasSpiffe(store, caller.id) then
      var existing := BySpiffe(store, caller.id);
      var record := NewRecord(caller.id, req, existing.id, NextEpoch(existing.epoch));
      (store[record.id := record], Registered(record, false))
    else if freshId in store then (store, Failed(Conflict))
    else
      var record := NewRecord(caller.id, req, freshId, 1);
      (store[freshId := record], Registered(record, true))
  }

  function ResolveAction(beat: Beat, record: Record): Action {
    var requested := Trim(beat.registrationId);
    if (requested != "" && requested != record.id) || (beat.epoch > 0 && beat.epoch != record.epoch) then ReRegister
    else if Trim(beat.hash) != "" && Trim(beat.hash) != Trim(record.hash) then ResendCapabilities
    else NoAction
  }

  function DoHeartbeat(store: Store, caller: Caller, id: string, beat: Beat, now: int): (Store, Out) {
    if Trim(id) == "" then (store, Failed(Invalid))
    else if caller.Nobody? || !caller.mtls then (store, Failed(Unauthorized))
    else if id !in store then (store, Failed(NotFound))
    else if caller.id != store[id].spiffe then (store, Failed(Forbidden))
    else
      var record := store[id];
      var action := ResolveAction(beat, record);
      if action.ReRegister? then (store, Beaten(action, record.status))
      else
        var next := Transition(record.status, HeartbeatReceived);
        if next.None? then (store, Failed(Invalid))
        else (store[id := record.(status := next.value, lastHeartbeat := Some(now))], Beaten(action, next.value))
  }

  /** An acknowledgement carrying `ackEpoch` and `ackHash` is for this lease. */
  predicate AckMatches(epoch: int, hash: string, ackEpoch: int, ackHash: string) {
    epoch == ackEpoch && (Trim(ackHash) == "" || hash == Trim(ackHash))
  }

  function DoAcknowledge(store: Store, id: string, epoch: int, hash: string): (Store, Out) {
    if Trim(id) == "" || epoch <= 0 then (store, Failed(Invalid))
    else if Trim(id) in store && AckMatches(store[Trim(id)].epoch, store[Trim(id)].hash, epoch, hash)
    then (store[Trim(id) := store[Trim(id)].(sync := Acked)], Acknowledged)
    else (store, Failed(NotFound))
  }

  function DoDeregister(store: Store, caller: Caller, id: string): (Store, Out) {
    if Trim(id) == "" then (store, Failed(Invalid))
    else if caller.Nobody? then (store, Failed(Unauthorized))
    else if id !in store then (store, Failed(NotFound))
    else if !caller.admin && !(caller.mtls && caller.id == store[id].spiffe) then (store, Failed(Forbidden))
    else (store - {id}, Deregistered)
  }

  // ----- the sweeper's queries

  predicate SilentFor(record: Record, now: int, threshold: int) {
    record.lastHeartbeat.Some? && record.lastHeartbeat.value < now - threshold
  }

  predicate IsStale(record: Record, now: int, threshold: int) {
    record.status.Active? && SilentFor(record, now, threshold)
  }

  /** The query triples the threshold it is given. */
  predicate IsExpired(record: Record, now: int, threshold: int) {
    (record.status.Active? || record.status.Stale?) && SilentFor(record, now, 3 * threshold)
  }

  /** One write for each listed server, its status read at listing time. */
  function Decided(listed: set<Record>, event: LifecycleEvent): multiset<(string, Status)> {
    multiset(set r | r in listed && Transition(r.status, event).Some? :: (r.id, Transition(r.status, event).value))
  }

  ghost function Step(s: Sys, e: Event): (Sys, Out) {
    match e
    case Register(caller, req, freshId) =>
      var (store, out) := DoRegister(s.store, caller, req, freshId);
      (s.(store := store), out)
    case Heartbeat(caller, id, beat, now) =>
      var (store, out) := DoHeartbeat(s.store, caller, id, beat, now);
      (s.(store := store), out)
    case Acknowledge(id, epoch, hash) =>
      var (store, out) := DoAcknowledge(s.store, id, epoch, hash);
      (s.(store := store), out)
    case Deregister(caller, id) =>
      var (store, out) := DoDeregister(s.store, caller, id);
      (s.(store := store), out)
    case ListStale(now, ttl) =>
      var listed := set id | id in s.store && IsStale(s.store[id], now, ttl) :: s.store[id];
      (s.(pending := s.pending + Decided(listed, HeartbeatMissed)), Quiet)
    case ListExpired(now, ttl) =>
      var listed := set id | id in s.store && IsExpired(s.store[id], now, 3 * ttl) :: s.store[id];
      (s.(pending := s.pending + Decided(listed, ReachedExpiry)), Quiet)
    case WriteStatus(id, status) =>
      if (id, status) !in s.pending then (s, Quiet)
      else
        var s1 := s.(pending := s.pending - multiset{(id, status)});
        if id in s.store then (s1.(store := s.store[id := s.store[id].(status := status)]), Quiet) else (s1, Quiet)
  }

  datatype Entry = Entry(event: Event, out: Out)

  ghost function Run(s: Sys, events: seq<Event>): (Sys, seq<Entry>) {
    if events == [] then (s, [])
    else
      var (before, log) := Run(s, events[..|events| - 1]);
      var e := events[|events| - 1];
      var (after, out) := Step(before, e);
      (after, log + [Entry(e, out)])
  }

  const INIT: Sys := Sys(map[], multiset{})

  // ----- what the log says about a lease

  /** Registrations of the identity since its record was last created. */
  function Registrations(log: seq<Entry>, spiffe: string): nat {
    if log == [] then 0
    else
      var before, out := Registrations(log[..|log| - 1], spiffe), log[|log| - 1].out;
      if out.Registered? && out.record.spiffe == spiffe then (if out.created then 1 else before + 1) else before
  }

  predicate Acks(e: Event, id: string, epoch: int, hash: string) {
    && e.Acknowledge? && Trim(e.id) == id && id != "" && e.epoch > 0
    && e.epoch == epoch && Trim(e.hash) in {"", hash}
  }

  predicate Registers(out: Out, id: string) {
    out.Registered? && out.record.id == id
  }

  /** Since the record was last registered, an acknowledgement has arrived that
      names it, its epoch, and its hash or none. */
  predicate AckArrived(log: seq<Entry>, id: string, epoch: int, hash: string) {
    if log == [] then false
    else
      var entry := log[|log| - 1];
      if Registers(entry.out, id) then false
      else Acks(entry.event, id, epoch, hash) || AckArrived(log[..|log| - 1], id, epoch, hash)
  }

  lemma LogSnoc(log: seq<Entry>, entry: Entry, spiffe: string, id: string, epoch: int, hash: string)
    ensures Registrations(log + [entry], spiffe) ==
            if entry.out.Registered? && entry.out.record.spiffe == spiffe
            then (if entry.out.created then 1 else Registrations(log, spiffe) + 1)
            else Registrations(log, spiffe)
    ensures AckArrived(log + [entry], id, epoch, hash) <==>
            !Registers(entry.out, id) && (Acks(entry.event, id, epoch, hash) || AckArrived(log, id, epoch, hash))
  {
    assert (log + [entry])[..|log + [entry]| - 1] == log;
  }

  // ----- the invariant

  ghost predicate OneRecordPerIdentity(store: Store) {
    forall a, b | a in store && b in store && store[a].spiffe == store[b].spiffe :: a == b
  }

  ghost predicate KeyedById(store: Store) {
    forall id | id in store :: store[id].id == id
  }

  ghost predicate LeaseOk(log: seq<Entry>, id: string, r: Record) {
    && r.id == id
    && r.epoch >= 1 && r.epoch == Registrations(log, r.spiffe)
    && (r.sync.Acked? <==> AckArrived(log, id, r.epoch, r.hash))
  }

  ghost predicate Inv(store: Store, log: seq<Entry>) {
    OneRecordPerIdentity(store) && forall id | id in store :: LeaseOk(log, id, store[id])
  }

  predicate SameLease(a: Record, b: Record) {
    a.(status := b.status, lastHeartbeat := b.lastHeartbeat) == b
  }

  /** A step that only moves statuses and heartbeats, or removes records, leaves
      every remaining lease as it was. */
  lemma QuietStepKeepsInv(store: Store, store': Store, log: seq<Entry>, entry: Entry)
    requires Inv(store, log)
    requires forall id | id in store' :: id in store && SameLease(store[id], store'[id])
    requires !entry.out.Registered? && !entry.event.Acknowledge?
    ensures Inv(store', log + [entry])
  {
    forall id | id in store' ensures LeaseOk(log + [entry], id, store'[id]) {
      assert LeaseOk(log, id, store[id]);
      LogSnoc(log, entry, store[id].spiffe, id, store[id].epoch, store[id].hash);
    }
  }

  lemma RegisterKeepsInv(s: Sys, log: seq<Entry>, e: Event)
    requires Inv(s.store, log) && e.Register? && Step(s, e).1.Registered?
    ensures Inv(Step(s, e).0.store, log + [Entry(e, Step(s, e).1)])
    ensures var out := Step(s, e).1;
            !out.created ==> out.record.id in s.store && out.record.epoch == s.store[out.record.id].epoch + 1
  {
    var (s', out) := Step(s, e);
    var record, entry := out.record, Entry(e, out);
    assert HasSpiffe(s.store, e.caller.id) ==> LeaseOk(log, record.id, s.store[record.id]) by {
      if HasSpiffe(s.store, e.caller.id) {
        var id :| id in s.store && s.store[id] == BySpiffe(s.store, e.caller.id);
        assert LeaseOk(log, id, s.store[id]);
      }
    }
    forall id | id in s'.store ensures LeaseOk(log + [entry], id, s'.store[id]) {
      var r := s'.store[id];
      LogSnoc(log, entry, r.spiffe, id, r.epoch, r.hash);
      if id != record.id {
        assert LeaseOk(log, id, s.store[id]);
      }
    }
  }

  lemma AcknowledgeKeepsInv(s: Sys, log: seq<Entry>, e: Event)
    requires Inv(s.store, log) && e.Acknowledge?
    ensures Inv(Step(s, e).0.store, log + [Entry(e, Step(s, e).1)])
  {
    var (s', out) := Step(s, e);
    forall id | id in s'.store ensures LeaseOk(log + [Entry(e, out)], id, s'.store[id]) {
      assert LeaseOk(log, id, s.store[id]);
      LogSnoc(log, Entry(e, out), s.store[id].spiffe, id, s.store[id].epoch, s.store[id].hash);
    }
  }

  lemma StepKeepsInv(s: Sys, log: seq<Entry>, e: Event)
    requires Inv(s.store, log)
    ensures Inv(Step(s, e).0.store, log + [Entry(e, Step(s, e).1)])
  {
    if Step(s, e).1.Registered? {
      RegisterKeepsInv(s, log, e);
    } else if e.Acknowledge? {
      AcknowledgeKeepsInv(s, log, e);
    } else {
      hide Inv;
      OtherStepsKeepLeases(s, e);
      hide Step;
      QuietStepKeepsInv(s.store, Step(s, e).0.store, log, Entry(e, Step(s, e).1));
    }
  }

  lemma OtherStepsKeepLeases(s: Sys, e: Event)
    requires !Step(s, e).1.Registered? && !e.Acknowledge?
    ensures var s' := Step(s, e).0;
            forall id | id in s'.store :: id in s.store && SameLease(s.store[id], s'.store[id])
  {}

  /** In every run: at most one record per identity; its epoch is the number of
      registrations since the record was created; and it is acknowledged exactly
      when an acknowledgement for its current epoch, and its current hash or none,
      has arrived since its last registration. */
  lemma {:induction false} LeasesAreHonest(events: seq<Event>)
    ensures Inv(Run(INIT, events).0.store, Run(INIT, events).1)
  {
    if events != [] {
      LeasesAreHonest(events[..|events| - 1]);
      StepKeepsInv(Run(INIT, events[..|events| - 1]).0, Run(INIT, events[..|events| - 1]).1, events[|events| - 1]);
    }
  }

  // ----- what a record holds

  /** The identity's last successful registration request. */
  function LatestRequest(log: seq<Entry>, spiffe: string): Option<Registration> {
    if log == [] then None else RequestThen(LatestRequest(log[..|log| - 1], spiffe), log[|log| - 1], spiffe)
  }

  function RequestThen(before: Option<Registration>, entry: Entry, spiffe: string): Option<Registration> {
    if entry.event.Register? && entry.out.Registered? && entry.event.caller.Caller? && entry.event.caller.id == spiffe
    then Some(entry.event.req)
    else before
  }

  ghost predicate AsRequested(r: Record, request: Option<Registration>) {
    && request.Some?
    && r.name == Trim(request.value.name) && r.hash == Trim(request.value.hash)
    && r.tools == request.value.tools && r.resources == request.value.resources
  }

  ghost predicate AllAsRequested(store: Store, log: seq<Entry>) {
    forall id | id in store :: store[id].id == id && AsRequested(store[id], LatestRequest(log, store[id].spiffe))
  }

  lemma RequestSnoc(log: seq<Entry>, entry: Entry, spiffe: string)
    ensures LatestRequest(log + [entry], spiffe) == RequestThen(LatestRequest(log, spiffe), entry, spiffe)
  {
    assert (log + [entry])[..|log|] == log;
  }

  lemma RegisterKeepsRequested(s: Sys, log: seq<Entry>, e: Event, id: string)
    requires OneRecordPerIdentity(s.store) && AllAsRequested(s.store, log)
    requires Step(s, e).1.Registered? && id in Step(s, e).0.store
    ensures var r := Step(s, e).0.store[id];
            r.id == id && AsRequested(r, RequestThen(LatestRequest(log, r.spiffe), Entry(e, Step(s, e).1), r.spiffe))
  {
    hide Trim, LatestRequest;
  }

  lemma OthersKeepRequested(s: Sys, log: seq<Entry>, e: Event, id: string)
    requires AllAsRequested(s.store, log)
    requires !Step(s, e).1.Registered? && id in Step(s, e).0.store
    ensures var r := Step(s, e).0.store[id];
            r.id == id && AsRequested(r, RequestThen(LatestRequest(log, r.spiffe), Entry(e, Step(s, e).1), r.spiffe))
  {
    if !e.Acknowledge? {
      OtherStepsKeepLeases(s, e);
      hide Step;
    }
    hide Trim, LatestRequest;
  }

  lemma StepKeepsRequested(s: Sys, log: seq<Entry>, e: Event)
    requires OneRecordPerIdentity(s.store) && AllAsRequested(s.store, log)
    ensures AllAsRequested(Step(s, e).0.store, log + [Entry(e, Step(s, e).1)])
  {
    hide Step, AsRequested, RequestThen, LatestRequest;
    var (s', out) := Step(s, e);
    forall id | id in s'.store
      ensures s'.store[id].id == id
      ensures AsRequested(s'.store[id], LatestRequest(log + [Entry(e, out)], s'.store[id].spiffe))
    {
      RequestSnoc(log, Entry(e, out), s'.store[id].spiffe);
      if out.Registered? {
        RegisterKeepsRequested(s, log, e, id);
      } else {
        OthersKeepRequested(s, log, e, id);
      }
    }
  }

  /** In every run each record carries the name, tools, resources and hash of its
      identity's last successful registration. */
  lemma {:induction false} RecordsAreAsRequested(events: seq<Event>)
    ensures AllAsRequested(Run(INIT, events).0.store, Run(INIT, events).1)
  {
    if events != [] {
      var prefix := events[..|events| - 1];
      RecordsAreAsRequested(prefix);
      LeasesAreHonest(prefix);
      StepKeepsRequested(Run(INIT, prefix).0, Run(INIT, prefix).1, events[|events| - 1]);
    }
  }

  // ----- who may change it

  predicate IsOwner(caller: Caller, r: Record) {
    caller.Caller? && caller.mtls && caller.id == r.spiffe
  }

  /** A record goes away exactly when an administrator or its owner deregisters it. */
  lemma RemovedByWhom(s: Sys, e: Event, id: string)
    requires KeyedById(s.store) && id in s.store
    ensures id !in Step(s, e).0.store <==>
            && e.Deregister? && e.id == id && Trim(id) != ""
            && (IsOwner(e.caller, s.store[id]) || (e.caller.Caller? && e.caller.admin))
  {
    hide Decided, ResolveAction, AckMatches, IsStale, IsExpired, Trim;
  }

  /** A record appears only by a valid, allowed registration of its own identity. */
  lemma CreatedByWhom(s: Sys, e: Event, id: string)
    requires KeyedById(s.store) && id !in s.store && id in Step(s, e).0.store
    ensures e.Register? && e.freshId == id && e.req.valid && e.req.allowed && IsOwner(e.caller, Step(s, e).0.store[id])
  {
    hide Decided, ResolveAction, AckMatches, IsStale, IsExpired, Trim;
  }

  /** Only its owner renews a record or its heartbeat; what others can change is the
      acknowledgement, and the sweeper the status. */
  lemma ChangedByWhom(s: Sys, e: Event, id: string)
    requires KeyedById(s.store) && id in s.store && id in Step(s, e).0.store
    ensures var before, after := s.store[id], Step(s, e).0.store[id];
            && (after != before ==>
                  || (e.Register? && IsOwner(e.caller, before))
                  || (e.Heartbeat? && e.id == id && IsOwner(e.caller, before))
                  || (e.Acknowledge? && after == before.(sync := Acked))
                  || (e.WriteStatus? && after == before.(status := e.status)))
            && after.id == before.id && after.spiffe == before.spiffe
  {
    hide Decided, ResolveAction, AckMatches, IsStale, IsExpired, Trim;
  }

  // ----- what a heartbeat does

  /** The heartbeat names another registration or another epoch. */
  predicate OtherLease(beat: Beat, id: string, epoch: int) {
    var named := Trim(beat.registrationId);
    (named != "" && named != id) || (beat.epoch > 0 && beat.epoch != epoch)
  }

  /** An owner's heartbeat for another lease asks for a new registration and changes
      nothing; an expired server is refused; any other becomes active, and is asked
      for its capabilities exactly when it reports a hash other than the stored one. */
  lemma HeartbeatAnswers(s: Sys, e: Event)
    requires e.Heartbeat? && e.id in s.store && Trim(e.id) != "" && KeyedById(s.store)
    requires IsOwner(e.caller, s.store[e.id])
    ensures var r, (s', out) := s.store[e.id], Step(s, e);
            if OtherLease(e.beat, e.id, r.epoch) then s' == s && out == Beaten(ReRegister, r.status)
            else if r.status.Expired? then s' == s && out.Failed?
            else
              && s' == s.(store := s.store[e.id := r.(status := Active, lastHeartbeat := Some(e.now))])
              && out.Beaten? && out.status.Active?
              && out.action == if Trim(e.beat.hash) in {"", Trim(r.hash)} then NoAction else ResendCapabilities
  {
    hide Trim;
  }

  /** In every run, a heartbeat with an epoch other than the number of registrations
      since the record was created is told to register again. */
  lemma OldLeaseIsTurnedAway(events: seq<Event>, e: Event)
    requires var s := Run(INIT, events).0;
             && e.Heartbeat? && e.id in s.store && Trim(e.id) != "" && IsOwner(e.caller, s.store[e.id])
             && e.beat.epoch > 0 && e.beat.epoch != Registrations(Run(INIT, events).1, s.store[e.id].spiffe)
    ensures var s := Run(INIT, events).0;
            Step(s, e) == (s, Beaten(ReRegister, s.store[e.id].status))
  {
    LeasesAreHonest(events);
    var s, log := Run(INIT, events).0, Run(INIT, events).1;
    assert LeaseOk(log, e.id, s.store[e.id]);
    HeartbeatAnswers(s, e);
  }

  // ----- sweeping against heartbeats

  /** The server was told its heartbeat counts. */
  predicate AcceptedBeat(entry: Entry, id: string) {
    entry.event.Heartbeat? && entry.event.id == id && entry.out.Beaten? && !entry.out.action.ReRegister?
  }

  /** A server whose heartbeat is accepted, stale or not, is active again. */
  lemma AcceptedBeatActivates(s: Sys, e: Event, id: string)
    requires AcceptedBeat(Entry(e, Step(s, e).1), id)
    ensures var (s', out) := Step(s, e);
            && id in s.store && id in s'.store && IsOwner(e.caller, s.store[id])
            && s'.store[id] == s.store[id].(status := Active, lastHeartbeat := Some(e.now)) && out.status.Active?
  {
    hide Trim;
  }

  /** The time of the server's last accepted heartbeat since it last registered, read
      off the log; `first` is what it was before the log. */
  function LastBeat(first: Option<int>, log: seq<Entry>, id: string): Option<int> {
    if log == [] then first else BeatThen(LastBeat(first, log[..|log| - 1], id), log[|log| - 1], id)
  }

  function BeatThen(before: Option<int>, entry: Entry, id: string): Option<int> {
    if Registers(entry.out, id) then None
    else if AcceptedBeat(entry, id) then Some(entry.event.now)
    else before
  }

  /** Whenever a sweeper lists, the server's last accepted heartbeat, if it has sent
      one since it registered, is at most one TTL old. */
  predicate Timely(first: Option<int>, log: seq<Entry>, id: string) {
    forall i | 0 <= i < |log| && (log[i].event.ListStale? || log[i].event.ListExpired?) ::
      TimelyListing(LastBeat(first, log[..i], id), log[i].event)
  }

  predicate TimelyListing(beat: Option<int>, e: Event)
    requires e.ListStale? || e.ListExpired?
  {
    e.ttl >= 0 && (beat.Some? ==> e.now - beat.value <= e.ttl)
  }

  /** Any write still pending for the server marks it active. */
  ghost predicate NothingPending(s: Sys, id: string) {
    forall status :: (id, status) in s.pending ==> status == Active
  }

  lemma ListingSkipsTimely(s: Sys, e: Event, id: string)
    requires KeyedById(s.store) && NothingPending(s, id) && (e.ListStale? || e.ListExpired?)
    requires id in s.store ==> e.ttl >= 0 && !SilentFor(s.store[id], e.now, e.ttl)
    ensures NothingPending(Step(s, e).0, id)
  {
    hide Transition;
    forall status | (id, status) in Step(s, e).0.pending ensures status == Active {
      assert (id, status) in s.pending;
    }
  }

  ghost predicate ActiveOrGone(s: Sys, id: string) {
    KeyedById(s.store) && NothingPending(s, id) && (id in s.store ==> s.store[id].status.Active?)
  }

  lemma TimelyStep(s: Sys, e: Event, id: string)
    requires ActiveOrGone(s, id)
    requires (e.ListStale? || e.ListExpired?) && id in s.store ==>
               e.ttl >= 0 && !SilentFor(s.store[id], e.now, e.ttl)
    ensures ActiveOrGone(Step(s, e).0, id)
  {
    if e.ListStale? || e.ListExpired? {
      ListingSkipsTimely(s, e, id);
      hide Decided, NothingPending;
    } else {
      ServiceStep(s, e, id);
    }
  }

  lemma ServiceStep(s: Sys, e: Event, id: string)
    requires ActiveOrGone(s, id) && !e.ListStale? && !e.ListExpired?
    ensures ActiveOrGone(Step(s, e).0, id)
  {
    hide Trim, ResolveAction, AckMatches, IsStale, IsExpired, Decided;
    if e.WriteStatus? {
      hide DoRegister, DoHeartbeat, DoAcknowledge, DoDeregister;
    }
  }

  /** The store holds the time of the last accepted heartbeat. */
  ghost predicate BeatStored(s: Sys, id: string, beat: Option<int>) {
    id in s.store ==> s.store[id].lastHeartbeat == beat
  }

  lemma BeatStep(s: Sys, e: Event, id: string, beat: Option<int>)
    requires KeyedById(s.store) && BeatStored(s, id, beat)
    ensures var (s', out) := Step(s, e);
            BeatStored(s', id, BeatThen(beat, Entry(e, out), id))
  {
    hide Decided, ResolveAction, AckMatches, IsStale, IsExpired, Trim;
  }

  lemma LogOfRun(s: Sys, events: seq<Event>)
    requires events != []
    ensures var prefix, e := events[..|events| - 1], events[|events| - 1];
            var (before, log) := Run(s, prefix);
            && Run(s, events).0 == Step(before, e).0
            && Run(s, events).1 == log + [Entry(e, Step(before, e).1)]
            && Run(s, events).1[..|log|] == log
  {}

  lemma TimelySnoc(first: Option<int>, log: seq<Entry>, entry: Entry, id: string)
    requires Timely(first, log + [entry], id)
    ensures Timely(first, log, id)
    ensures LastBeat(first, log + [entry], id) == BeatThen(LastBeat(first, log, id), entry, id)
    ensures entry.event.ListStale? || entry.event.ListExpired? ==> TimelyListing(LastBeat(first, log, id), entry.event)
  {
    var all := log + [entry];
    assert all[..|all| - 1] == log && all[|log|] == entry;
    assert forall i | 0 <= i < |log| :: all[i] == log[i] && all[..i] == log[..i];
  }

  /** In every timely continuation an active server without other writes pending
      stays active or is removed, and the store holds its last accepted heartbeat. */
  lemma {:induction false} TimelyRun(s: Sys, events: seq<Event>, id: string, first: Option<int>)
    requires ActiveOrGone(s, id) && BeatStored(s, id, first)
    requires Timely(first, Run(s, events).1, id)
    ensures ActiveOrGone(Run(s, events).0, id)
    ensures BeatStored(Run(s, events).0, id, LastBeat(first, Run(s, events).1, id))
  {
    if events != [] {
      var prefix, e := events[..|events| - 1], events[|events| - 1];
      var (before, log) := Run(s, prefix);
      LogOfRun(s, events);
      hide Run, Step, Timely, LastBeat, BeatThen;
      TimelySnoc(first, log, Entry(e, Step(before, e).1), id);
      TimelyRun(s, prefix, id, first);
      TimelyStep(before, e, id);
      BeatStep(before, e, id, LastBeat(first, log, id));
    }
  }

  /** After any run, an accepted heartbeat makes the server active, and it stays active
      or is removed in every timely continuation, if no write of another status is
      still pending. */
  lemma BeatRevives(events: seq<Event>, e: Event, more: seq<Event>, id: string)
    requires AcceptedBeat(Entry(e, Step(Run(INIT, events).0, e).1), id)
    requires var beaten := Step(Run(INIT, events).0, e).0;
             NothingPending(beaten, id) && Timely(Some(e.now), Run(beaten, more).1, id)
    ensures var beaten := Step(Run(INIT, events).0, e).0;
            && id in beaten.store && beaten.store[id].status.Active?
            && ActiveOrGone(Run(beaten, more).0, id)
  {
    var s := Run(INIT, events).0;
    LeasesAreHonest(events);
    assert KeyedById(s.store) by {
      forall k | k in s.store ensures s.store[k].id == k {
        assert LeaseOk(Run(INIT, events).1, k, s.store[k]);
      }
    }
    AcceptedBeatActivates(s, e, id);
    StepKeepsKeys(s, e);
    hide Run, Step;
    TimelyRun(Step(s, e).0, more, id, Some(e.now));
  }

  lemma StepKeepsKeys(s: Sys, e: Event)
    requires KeyedById(s.store)
    ensures KeyedById(Step(s, e).0.store)
  {
    hide Decided, ResolveAction, AckMatches, IsStale, IsExpired, Trim;
  }

  /** In every run from the start, a server whose accepted heartbeats are never more
      than one TTL old when a sweeper lists is never moved out of Active, even though
      listing and writing are separate steps. */
  lemma TimelyServerStaysActive(events: seq<Event>, id: string)
    requires Timely(None, Run(INIT, events).1, id)
    ensures var s := Run(INIT, events).0;
            id in s.store ==>
              && s.store[id].status.Active?
              && s.store[id].lastHeartbeat == LastBeat(None, Run(INIT, events).1, id)
  {
    TimelyRun(INIT, events, id, None);
  }

  /** Between any heartbeat of the server and the one after it lies at most one TTL of
      every listing made meanwhile. */
  predicate Punctual(log: seq<Entry>, id: string) {
    forall i | 0 <= i < |log| && (log[i].event.ListStale? || log[i].event.ListExpired?) ::
      var beat, e := LastBeat(None, log[..i], id), log[i].event;
      e.ttl >= 0 && (beat.Some? ==>
        exists j :: i < j < |log| && AcceptedBeat(log[j], id) && e.now <= log[j].event.now <= beat.value + e.ttl)
  }

  /** It is active at every point of such a run. */
  lemma PunctualServerStaysActive(events: seq<Event>, id: string)
    requires Punctual(Run(INIT, events).1, id)
    ensures forall n | 0 <= n <= |events| ::
              var s := Run(INIT, events[..n]).0;
              id in s.store ==> s.store[id].status.Active?
  {
    var log := Run(INIT, events).1;
    forall i | 0 <= i < |log| && (log[i].event.ListStale? || log[i].event.ListExpired?)
      ensures TimelyListing(LastBeat(None, log[..i], id), log[i].event)
    {
    }
    assert Timely(None, log, id);
    forall n | 0 <= n <= |events|
      ensures var s := Run(INIT, events[..n]).0;
              id in s.store ==> s.store[id].status.Active?
    {
      TimelyPrefix(INIT, events, n, id, None);
      TimelyServerStaysActive(events[..n], id);
    }
  }

  lemma {:induction false} TimelyPrefix(s: Sys, events: seq<Event>, n: nat, id: string, first: Option<int>)
    requires n <= |events| && Timely(first, Run(s, events).1, id)
    ensures Timely(first, Run(s, events[..n]).1, id)
  {
    if n == |events| {
      assert events[..n] == events;
    } else {
      var prefix, e := events[..|events| - 1], events[|events| - 1];
      var (before, log) := Run(s, prefix);
      LogOfRun(s, events);
      hide Run, Step, Timely, LastBeat, BeatThen;
      TimelySnoc(first, log, Entry(e, Step(before, e).1), id);
      TimelyPrefix(s, prefix, n, id, first);
      assert prefix[..n] == events[..n];
    }
  }

  /** An active server stays active, or is removed, in every timely continuation, if
      and only if no write of another status is pending for it. */
  lemma StaysActiveIff(s: Sys, id: string)
    requires KeyedById(s.store) && id in s.store && s.store[id].status.Active?
    ensures (forall events | Timely(s.store[id].lastHeartbeat, Run(s, events).1, id) ::
               id in Run(s, events).0.store ==> Run(s, events).0.store[id].status.Active?) <==>
            NothingPending(s, id)
  {
    var first := s.store[id].lastHeartbeat;
    if NothingPending(s, id) {
      forall events | Timely(first, Run(s, events).1, id)
        ensures id in Run(s, events).0.store ==> Run(s, events).0.store[id].status.Active?
      {
        TimelyRun(s, events, id, first);
      }
    } else {
      var status :| (id, status) in s.pending && status != Active;
      LateWriteLands(s, id, status);
      var events := [WriteStatus(id, status)];
      assert Timely(first, Run(s, events).1, id);
    }
  }

  lemma LateWriteLands(s: Sys, id: string, status: Status)
    requires id in s.store && (id, status) in s.pending
    ensures var (after, log) := Run(s, [WriteStatus(id, status)]);
            && id in after.store && after.store[id].status == status
            && log == [Entry(WriteStatus(id, status), Quiet)]
  {
    var events := [WriteStatus(id, status)];
    assert events[..0] == [];
    assert Run(s, []) == (s, []);
    var (after, out) := Step(s, events[0]);
    assert Run(s, events) == (after, [] + [Entry(events[0], out)]);
    assert out == Quiet && after.store[id].status == status;
  }

  /** Registering clears the last heartbeat, and a server without one is never
      listed: one that registers and then stays silent is never swept at all. */
  lemma {:induction false} SilentSinceRegistrationStaysActive(s: Sys, events: seq<Event>, id: string)
    requires ActiveOrGone(s, id) && (id in s.store ==> s.store[id].lastHeartbeat.None?)
    requires forall i | 0 <= i < |events| ::
               match events[i]
               case Heartbeat(_, other, _, _) => other != id
               case ListStale(_, ttl) => ttl >= 0
               case ListExpired(_, ttl) => ttl >= 0
               case _ => true
    ensures var s' := Run(s, events).0;
            ActiveOrGone(s', id) && (id in s'.store ==> s'.store[id].lastHeartbeat.None?)
  {
    if events != [] {
      var prefix, e := events[..|events| - 1], events[|events| - 1];
      assert forall i | 0 <= i < |prefix| :: prefix[i] == events[i];
      SilentSinceRegistrationStaysActive(s, prefix, id);
      TimelyStep(Run(s, prefix).0, e, id);
      UnheardStep(Run(s, prefix).0, e, id);
    }
  }

  lemma UnheardStep(s: Sys, e: Event, id: string)
    requires KeyedById(s.store) && (id in s.store ==> s.store[id].lastHeartbeat.None?)
    requires e.Heartbeat? ==> e.id != id
    ensures var s' := Step(s, e).0;
            id in s'.store ==> s'.store[id].lastHeartbeat.None?
  {
    hide Decided;
  }

  // ----- leaving the expired status

  /** Any write still pending for the server marks it expired. */
  ghost predicate NothingElsePending(s: Sys, id: string) {
    forall status :: (id, status) in s.pending ==> status == Expired
  }

  ghost predicate ExpiredOrGone(s: Sys, id: string) {
    id in s.store ==> s.store[id].status.Expired?
  }

  ghost predicate Unregistered(log: seq<Entry>, id: string) {
    forall i | 0 <= i < |log| :: !Registers(log[i].out, id)
  }

  lemma ListingSkipsExpired(s: Sys, e: Event, id: string)
    requires KeyedById(s.store) && NothingElsePending(s, id) && ExpiredOrGone(s, id)
    requires e.ListStale? || e.ListExpired?
    ensures NothingElsePending(Step(s, e).0, id)
  {
    hide Transition;
    forall status | (id, status) in Step(s, e).0.pending ensures status == Expired {
      assert (id, status) in s.pending;
    }
  }

  lemma ExpiredStep(s: Sys, e: Event, id: string)
    requires KeyedById(s.store) && NothingElsePending(s, id) && ExpiredOrGone(s, id)
    requires !Registers(Step(s, e).1, id)
    ensures var s' := Step(s, e).0;
            KeyedById(s'.store) && NothingElsePending(s', id) && ExpiredOrGone(s', id)
  {
    if e.ListStale? || e.ListExpired? {
      ListingSkipsExpired(s, e, id);
      hide Decided, NothingElsePending;
    } else {
      hide Trim, ResolveAction, AckMatches, IsStale, IsExpired;
    }
  }

  lemma {:induction false} ExpiredRun(s: Sys, events: seq<Event>, id: string)
    requires KeyedById(s.store) && NothingElsePending(s, id) && ExpiredOrGone(s, id)
    requires Unregistered(Run(s, events).1, id)
    ensures var s' := Run(s, events).0;
            KeyedById(s'.store) && NothingElsePending(s', id) && ExpiredOrGone(s', id)
  {
    if events != [] {
      var prefix, e := events[..|events| - 1], events[|events| - 1];
      var (before, log) := Run(s, prefix);
      assert Run(s, events).1 == log + [Entry(e, Step(before, e).1)];
      assert forall i | 0 <= i < |log| :: log[i] == Run(s, events).1[i];
      assert Run(s, events).1[|log|].out == Step(before, e).1;
      ExpiredRun(s, prefix, id);
      ExpiredStep(before, e, id);
    }
  }

  /** An expired server stays expired, or is removed, in every continuation without
      a new registration, if and only if no other status is still to be written. */
  lemma ExpiredIsFinal(s: Sys, id: string)
    requires KeyedById(s.store) && id in s.store && s.store[id].status.Expired?
    ensures (forall events | Unregistered(Run(s, events).1, id) :: ExpiredOrGone(Run(s, events).0, id)) <==>
            NothingElsePending(s, id)
  {
    if NothingElsePending(s, id) {
      forall events | Unregistered(Run(s, events).1, id) ensures ExpiredOrGone(Run(s, events).0, id) {
        ExpiredRun(s, events, id);
      }
    } else {
      var status :| (id, status) in s.pending && status != Expired;
      LateWriteRevives(s, id, status);
    }
  }

  lemma LateWriteRevives(s: Sys, id: string, status: Status)
    requires id in s.store && (id, status) in s.pending && status != Expired
    ensures var events := [WriteStatus(id, status)];
            Unregistered(Run(s, events).1, id) && !ExpiredOrGone(Run(s, events).0, id)
  {
    LateWriteLands(s, id, status);
  }

  lemma DecidedOne(r: Record, event: LifecycleEvent, status: Status)
    requires Transition(r.status, event) == Some(status)
    ensures Decided({r}, event) == multiset{(r.id, status)}
  {
    assert (set x | x in {r} && Transition(x.status, event).Some? :: (x.id, Transition(x.status, event).value)) ==
           {(r.id, status)};
  }

  lemma ListsTheOnlyServer(r: Record, pending: multiset<(string, Status)>, now: int, ttl: int)
    requires r.status.Active? && SilentFor(r, now, 9 * ttl) && ttl >= 0
    ensures var s := Sys(map[r.id := r], pending);
            && Step(s, ListStale(now, ttl)).0 == s.(pending := pending + multiset{(r.id, Stale)})
            && Step(s, ListExpired(now, ttl)).0 == s.(pending := pending + multiset{(r.id, Expired)})
  {
    var store := map[r.id := r];
    assert store[r.id] == r;
    DecidedOne(r, HeartbeatMissed, Stale);
    DecidedOne(r, ReachedExpiry, Expired);
    assert (set id | id in store && IsStale(store[id], now, ttl) :: store[id]) == {r};
    assert (set id | id in store && IsExpired(store[id], now, 3 * ttl) :: store[id]) == {r};
  }

  lemma WritesTheOnlyServer(r: Record, pending: multiset<(string, Status)>, status: Status)
    requires (r.id, status) in pending
    ensures Step(Sys(map[r.id := r], pending), WriteStatus(r.id, status)) ==
            (Sys(map[r.id := r.(status := status)], pending - multiset{(r.id, status)}), Quiet)
  {
    assert map[r.id := r][r.id := r.(status := status)] == map[r.id := r.(status := status)];
  }

  function Beats(spiffe: string, id: string, now: int): Event {
    Heartbeat(Caller(spiffe, true, false), id, Beat("", 0, ""), now)
  }

  lemma BeatsTheOnlyServer(r: Record, pending: multiset<(string, Status)>, now: int)
    requires r.status.Active? && Trim(r.id) != ""
    ensures Step(Sys(map[r.id := r], pending), Beats(r.spiffe, r.id, now)) ==
            (Sys(map[r.id := r.(lastHeartbeat := Some(now))], pending), Beaten(NoAction, Active))
  {
    assert Trim("") == "";
    assert r.(status := Active, lastHeartbeat := Some(now)) == r.(lastHeartbeat := Some(now));
    assert map[r.id := r][r.id := r.(lastHeartbeat := Some(now))] == map[r.id := r.(lastHeartbeat := Some(now))];
  }

  lemma RunThen(events: seq<Event>, e: Event)
    ensures var (before, log) := Run(INIT, events);
            Run(INIT, events + [e]) == (Step(before, e).0, log + [Entry(e, Step(before, e).1)])
  {
    var all := events + [e];
    assert all[..|all| - 1] == events && all[|all| - 1] == e;
  }

  /** A server registers and sends its first heartbeat at time 0. */
  function Beginning(spiffe: string, req: Registration, id: string): seq<Event> {
    [Register(Caller(spiffe, true, false), req, id)] + [Beats(spiffe, id, 0)]
  }

  lemma OneServerBegins(spiffe: string, req: Registration, id: string)
    requires req.valid && req.allowed && Trim(id) != ""
    ensures Run(INIT, Beginning(spiffe, req, id)).0 ==
            Sys(map[id := NewRecord(spiffe, req, id, 1).(lastHeartbeat := Some(0))], multiset{})
  {
    var registers, record := Register(Caller(spiffe, true, false), req, id), NewRecord(spiffe, req, id, 1);
    RunThen([], registers);
    assert [] + [registers] == [registers];
    assert Run(INIT, [registers]).0 == Sys(map[id := record], multiset{});
    RunThen([registers], Beats(spiffe, id, 0));
    BeatsTheOnlyServer(record, multiset{}, 0);
  }

  /** Two replicas sweeping at once get there: one lists, the other expires the
      server, and the first has yet to write stale. */
  lemma ConcurrentSweepsLeaveAStaleWrite(spiffe: string, req: Registration, id: string, ttl: int)
    requires req.valid && req.allowed && Trim(id) != "" && ttl > 0
    ensures var now := 9 * ttl + 1;
            var begun := Beginning(spiffe, req, id);
            var s := Run(INIT, begun + [ListStale(now, ttl)] + [ListExpired(now, ttl)] + [WriteStatus(id, Expired)]).0;
            && id in s.store && s.store[id].status.Expired? && !NothingElsePending(s, id)
  {
    var now, begun := 9 * ttl + 1, Beginning(spiffe, req, id);
    var r := NewRecord(spiffe, req, id, 1).(lastHeartbeat := Some(0));
    var stale, expired := (id, Stale), (id, Expired);
    OneServerBegins(spiffe, req, id);
    hide Step, Run, Beginning;
    ListsTheOnlyServer(r, multiset{}, now, ttl);
    ListsTheOnlyServer(r, multiset{stale}, now, ttl);
    assert multiset{} + multiset{stale} == multiset{stale};
    WritesTheOnlyServer(r, multiset{stale} + multiset{expired}, Expired);
    assert stale in multiset{stale} + multiset{expired} - multiset{expired};
    RunThen(begun, ListStale(now, ttl));
    RunThen(begun + [ListStale(now, ttl)], ListExpired(now, ttl));
    RunThen(begun + [ListStale(now, ttl)] + [ListExpired(now, ttl)], WriteStatus(id, Expired));
  }

  /** A heartbeat that lands between listing and writing, and is accepted, does not
      save the server from being marked stale. */
  lemma HeartbeatDuringSweepIsOverwritten(spiffe: string, req: Registration, id: string, ttl: int)
    requires req.valid && req.allowed && Trim(id) != "" && ttl > 0
    ensures var now := 9 * ttl + 1;
            var listed := Beginning(spiffe, req, id) + [ListStale(now, ttl)];
            var beat := Beats(spiffe, id, now + 1);
            var (s, log) := Run(INIT, listed + [beat] + [WriteStatus(id, Stale)]);
            && log == Run(INIT, listed).1 + [Entry(beat, Beaten(NoAction, Active))]
                                          + [Entry(WriteStatus(id, Stale), Quiet)]
            && id in s.store && s.store[id].status.Stale? && s.store[id].lastHeartbeat == Some(now + 1)
  {
    var now, begun := 9 * ttl + 1, Beginning(spiffe, req, id);
    var r := NewRecord(spiffe, req, id, 1).(lastHeartbeat := Some(0));
    var beaten := r.(lastHeartbeat := Some(now + 1));
    var stale, listed, beat := multiset{(id, Stale)}, begun + [ListStale(now, ttl)], Beats(spiffe, id, now + 1);
    OneServerBegins(spiffe, req, id);
    ListsTheOnlyServer(r, multiset{}, now, ttl);
    assert multiset{} + stale == stale;
    BeatsTheOnlyServer(r, stale, now + 1);
    WritesTheOnlyServer(beaten, stale, Stale);
    hide Step, Run, Beginning;
    RunThen(begun, ListStale(now, ttl));
    RunThen(listed, beat);
    RunThen(listed + [beat], WriteStatus(id, Stale));
  }

  // ----- the service object

  class Service {
    var store: Store

    ghost predicate Valid()
      reads this
    {
      OneRecordPerIdentity(store) && KeyedById(store)
    }

    constructor ()
      ensures Valid() && store == map[]
    {
      store := map[];
    }

    /** Looks through the rows in any order. */
    method GetBySpiffe(spiffe: string) returns (found: Option<Record>)
      requires Valid()
      ensures found.Some? <==> HasSpiffe(store, spiffe)
      ensures found.Some? ==> found.value == BySpiffe(store, spiffe)
    {
      var rest := store.Keys;
      while rest != {}
        invariant rest <= store.Keys
        invariant forall id | id in store && store[id].spiffe == spiffe :: id in rest
        decreases rest
      {
        var id :| id in rest;
        if store[id].spiffe == spiffe {
          return Some(store[id]);
        }
        rest := rest - {id};
      }
      return None;
    }

    method Register(caller: Caller, req: Registration, freshId: string) returns (out: Out)
      requires Valid()
      modifies this
      ensures Valid()
      ensures (store, out) == DoRegister(old(store), caller, req, freshId)
    {
      if caller.Nobody? || !caller.mtls {
        return Failed(Unauthorized);
      }
      if !req.valid {
        return Failed(Invalid);
      }
      if !req.allowed {
        return Failed(Forbidden);
      }
      var existing := GetBySpiffe(caller.id);
      if existing.Some? {
        var record := NewRecord(caller.id, req, existing.value.id, NextEpoch(existing.value.epoch));
        store := store[record.id := record];
        return Registered(record, false);
      }
      if freshId in store {
        return Failed(Conflict);
      }
      var record := NewRecord(caller.id, req, freshId, 1);
      store := store[freshId := record];
      return Registered(record, true);
    }

    method Heartbeat(caller: Caller, id: string, beat: Beat, now: int) returns (out: Out)
      requires Valid()
      modifies this
      ensures Valid()
      ensures (store, out) == DoHeartbeat(old(store), caller, id, beat, now)
    {
      if Trim(id) == "" {
        return Failed(Invalid);
      }
      if caller.Nobody? || !caller.mtls {
        return Failed(Unauthorized);
      }
      if id !in store {
        return Failed(NotFound);
      }
      var record := store[id];
      if caller.id != record.spiffe {
        return Failed(Forbidden);
      }
      var action := ResolveAction(beat, record);
      if action.ReRegister? {
        return Beaten(action, record.status);
      }
      var next := Transition(record.status, HeartbeatReceived);
      if next.None? {
        return Failed(Invalid);
      }
      if next.value != record.status {
        store := store[id := store[id].(status := next.value)];
      }
      store := store[id := store[id].(lastHeartbeat := Some(now))];
      assert store == old(store)[id := record.(status := next.value, lastHeartbeat := Some(now))];
      return Beaten(action, next.value);
    }

    method Acknowledge(id: string, epoch: int, hash: string) returns (out: Out)
      requires Valid()
      modifies this
      ensures Valid()
      ensures (store, out) == DoAcknowledge(old(store), id, epoch, hash)
    {
      if Trim(id) == "" || epoch <= 0 {
        return Failed(Invalid);
      }
      var row := Trim(id);
      if row in store && AckMatches(store[row].epoch, store[row].hash, epoch, hash) {
        store := store[row := store[row].(sync := Acked)];
        return Acknowledged;
      }
      return Failed(NotFound);
    }

    method Deregister(caller: Caller, id: string) returns (out: Out)
      requires Valid()
      modifies this
      ensures Valid()
      ensures (store, out) == DoDeregister(old(store), caller, id)
    {
      if Trim(id) == "" {
        return Failed(Invalid);
      }
      if caller.Nobody? {
        return Failed(Unauthorized);
      }
      if id !in store {
        return Failed(NotFound);
      }
      var isSelf := caller.mtls && caller.id == store[id].spiffe;
      if !caller.admin && !isSelf {
        return Failed(Forbidden);
      }
      store := store - {id};
      return Deregistered;
    }
  }
}
