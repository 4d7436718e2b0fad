/**
 The capability index: two inverted maps, from trimmed tool names and resource
 prefixes to lists of server records.

 `Agrees` relates one of the maps to a plain set of live servers; the theorems
 say which runs of the index's operations keep both maps in that relation.
 */
module CapabilityIndex {
  import opened Common
  import opened Registry
  import opened Text

  type Listing = map<string, seq<Record>>

  datatype Kind = Tools | Resources

  function NamesOf(r: Record, kind: Kind): seq<string> {
    if kind.Tools? then r.tools else r.resources
  }

  /** The names a server is found under: trimmed, blank ones left out. */
  function Advertised(names: seq<string>): set<string> {
    set i | 0 <= i < |names| && Trim(names[i]) != "" :: Trim(names[i])
  }

  function Get(m: Listing, key: string): seq<Record> {
    if key in m then m[key] else []
  }

  // ----- the operations on values

  function Upsert(list: seq<Record>, r: Record): seq<Record> {
    if list == [] then [r]
    else if list[0].id == r.id then [r] + list[1..]
    else [list[0]] + Upsert(list[1..], r)
  }

  function Without(list: seq<Record>, id: string): seq<Record> {
    if list == [] then []
    else Without(list[..|list| - 1], id) + (if list[|list| - 1].id != id then [list[|list| - 1]] else [])
  }

  function AddName(m: Listing, name: string, r: Record): Listing {
    if Trim(name) == "" then m else m[Trim(name) := Upsert(Get(m, Trim(name)), r)]
  }

  function AddNames(m: Listing, names: seq<string>, r: Record): Listing {
    if names == [] then m
    else AddName(AddNames(m, names[..|names| - 1], r), names[|names| - 1], r)
  }

  function Dropped(m: Listing, id: string): Listing {
    map k | k in m && Without(m[k], id) != [] :: Without(m[k], id)
  }

  function Rebuilt(servers: seq<Record>, kind: Kind): Listing {
    if servers == [] then map[]
    else
      var before, r := Rebuilt(servers[..|servers| - 1], kind), servers[|servers| - 1];
      if Routable(r.status) then AddNames(before, NamesOf(r, kind), r) else before
  }

  // ----- agreement with a set of live servers

  type Live = map<string, Record>

  predicate DistinctIds(list: seq<Record>) {
    forall i, j | 0 <= i < j < |list| :: list[i].id != list[j].id
  }

  ghost predicate Lives(live: Live, r: Record) {
    r.id in live && live[r.id] == r
  }

  /** Each list holds exactly the live servers advertising its name, once each,
      and there is no empty list. */
  ghost predicate Agrees(m: Listing, live: Live, kind: Kind) {
    && (forall k | k in m :: m[k] != [] && DistinctIds(m[k]))
    && (forall k, r :: ListedRightly(m, live, kind, k, r))
  }

  ghost predicate ListedRightly(m: Listing, live: Live, kind: Kind, k: string, r: Record) {
    r in Get(m, k) <==> Lives(live, r) && k in Advertised(NamesOf(r, kind))
  }

  ghost predicate KeyedById(live: Live) {
    forall id | id in live :: live[id].id == id
  }

  // ----- lists

  lemma {:induction false} UpsertList(list: seq<Record>, r: Record)
    requires DistinctIds(list)
    ensures var out := Upsert(list, r);
            && out != [] && DistinctIds(out)
            && forall x :: x in out <==> x == r || (x in list && x.id != r.id)
  {
    if list != [] && list[0].id != r.id {
      UpsertList(list[1..], r);
      var rest := Upsert(list[1..], r);
      forall i, j | 0 <= i < j < |rest| + 1 ensures ([list[0]] + rest)[i].id != ([list[0]] + rest)[j].id {
        if i == 0 { assert rest[j - 1] in rest; }
      }
    }
  }

  lemma {:induction false} UpsertAgain(list: seq<Record>, r: Record)
    ensures Upsert(Upsert(list, r), r) == Upsert(list, r)
  {
    if list != [] && list[0].id != r.id {
      UpsertAgain(list[1..], r);
      assert ([list[0]] + Upsert(list[1..], r))[1..] == Upsert(list[1..], r);
    } else {
      assert ([r] + (if list == [] then [] else list[1..]))[1..] == if list == [] then [] else list[1..];
    }
  }

  lemma {:induction false} WithoutList(list: seq<Record>, id: string)
    ensures forall x :: x in Without(list, id) <==> x in list && x.id != id
    ensures DistinctIds(list) ==> DistinctIds(Without(list, id))
  {
    if list != [] {
      var init, last := list[..|list| - 1], list[|list| - 1];
      WithoutList(init, id);
      assert list == init + [last];
      var rest := Without(init, id);
      if DistinctIds(list) && last.id != id {
        forall i | 0 <= i < |rest| ensures rest[i].id != last.id {
          assert rest[i] in rest;
          var j :| 0 <= j < |init| && init[j] == rest[i];
          assert list[j] == init[j];
        }
      }
    }
  }

  // ----- adding and removing

  lemma {:induction false} AddedNames(m: Listing, names: seq<string>, r: Record, k: string)
    ensures Get(AddNames(m, names, r), k) == if k in Advertised(names) then Upsert(Get(m, k), r) else Get(m, k)
    ensures k in AddNames(m, names, r) <==> k in m || k in Advertised(names)
  {
    if names != [] {
      var init, last := names[..|names| - 1], names[|names| - 1];
      AddedNames(m, init, r, k);
      AdvertisedSnoc(init, last);
      assert names == init + [last];
      UpsertAgain(Get(m, k), r);
    }
  }

  lemma AdvertisedSnoc(names: seq<string>, name: string)
    ensures Advertised(names + [name]) == Advertised(names) + (if Trim(name) == "" then {} else {Trim(name)})
  {
    var all := names + [name];
    assert forall i | 0 <= i < |names| :: all[i] == names[i];
    assert all[|names|] == name;
    forall k | k in Advertised(names) ensures k in Advertised(all) {
      var i :| 0 <= i < |names| && Trim(names[i]) != "" && Trim(names[i]) == k;
      assert Trim(all[i]) == k;
    }
  }

  /** Adding is only an upsert: it keeps the agreement exactly when the server, if
      already live, still advertises every name it advertised before. */
  lemma AddAgrees(m: Listing, live: Live, r: Record, kind: Kind)
    requires Agrees(m, live, kind) && KeyedById(live)
    ensures Agrees(AddNames(m, NamesOf(r, kind), r), live[r.id := r], kind) <==>
            (r.id in live ==> Advertised(NamesOf(live[r.id], kind)) <= Advertised(NamesOf(r, kind)))
  {
    var m', live' := AddNames(m, NamesOf(r, kind), r), live[r.id := r];
    if r.id in live && exists k :: k in Advertised(NamesOf(live[r.id], kind)) && k !in Advertised(NamesOf(r, kind)) {
      var k :| k in Advertised(NamesOf(live[r.id], kind)) && k !in Advertised(NamesOf(r, kind));
      AddedNames(m, NamesOf(r, kind), r, k);
      assert ListedRightly(m, live, kind, k, live[r.id]);
      assert live[r.id] in Get(m', k);
      assert !ListedRightly(m', live', kind, k, live[r.id]);
    } else {
      AddKeepsAgreement(m, live, r, kind);
    }
  }

  lemma AddKeepsAgreement(m: Listing, live: Live, r: Record, kind: Kind)
    requires Agrees(m, live, kind) && KeyedById(live)
    requires r.id in live ==> Advertised(NamesOf(live[r.id], kind)) <= Advertised(NamesOf(r, kind))
    ensures Agrees(AddNames(m, NamesOf(r, kind), r), live[r.id := r], kind)
  {
    hide Advertised, AddNames, Upsert;
    var names := NamesOf(r, kind);
    var m', live' := AddNames(m, names, r), live[r.id := r];
    forall k ensures k in m' ==> m'[k] != [] && DistinctIds(m'[k]) {
      AddedNames(m, names, r, k);
      UpsertList(Get(m, k), r);
    }
    forall k, x ensures ListedRightly(m', live', kind, k, x) {
      AddedNames(m, names, r, k);
      UpsertList(Get(m, k), r);
      assert ListedRightly(m, live, kind, k, x);
    }
  }

  lemma DropAgrees(m: Listing, live: Live, id: string, kind: Kind)
    requires Agrees(m, live, kind)
    ensures Agrees(Dropped(m, id), live - {id}, kind)
  {
    DroppedLists(m, id);
    forall k, x ensures ListedRightly(Dropped(m, id), live - {id}, kind, k, x) {
      DroppedAt(m, id, k, x);
      assert ListedRightly(m, live, kind, k, x);
      hide Dropped, Advertised;
    }
  }

  lemma DroppedLists(m: Listing, id: string)
    requires forall k | k in m :: DistinctIds(m[k])
    ensures forall k | k in Dropped(m, id) :: Dropped(m, id)[k] != [] && DistinctIds(Dropped(m, id)[k])
  {
    forall k | k in Dropped(m, id) ensures DistinctIds(Dropped(m, id)[k]) {
      WithoutList(m[k], id);
    }
  }

  lemma DroppedAt(m: Listing, id: string, k: string, x: Record)
    ensures x in Get(Dropped(m, id), k) <==> x in Get(m, k) && x.id != id
  {
    WithoutList(Get(m, k), id);
  }

  // ----- runs

  datatype Fetched = StoreError | Missing | Found(record: Record)

  datatype Event =
    | Rebuild(servers: seq<Record>)
    | Add(server: Record)
    | Remove(id: string)
    | Refresh(id: string, fetched: Fetched)

  datatype Index = Index(tools: Listing, resources: Listing)

  function Side(ix: Index, kind: Kind): Listing {
    if kind.Tools? then ix.tools else ix.resources
  }

  function StepSide(m: Listing, e: Event, kind: Kind): Listing {
    match e
    case Rebuild(servers) => Rebuilt(servers, kind)
    case Add(r) => if Routable(r.status) then AddNames(m, NamesOf(r, kind), r) else m
    case Remove(id) => if Trim(id) == "" then m else Dropped(m, id)
    case Refresh(id, fetched) =>
      if Trim(id) == "" || fetched.StoreError? then m
      else if fetched.Found? && Routable(fetched.record.status)
      then AddNames(Dropped(m, id), NamesOf(fetched.record, kind), fetched.record)
      else Dropped(m, id)
  }

  function Step(ix: Index, e: Event): Index {
    Index(StepSide(ix.tools, e, Tools), StepSide(ix.resources, e, Resources))
  }

  function Run(events: seq<Event>): Index {
    if events == [] then Index(map[], map[]) else Step(Run(events[..|events| - 1]), events[|events| - 1])
  }

  /** The live servers after a run, with no index in sight. */
  function Snapshot(servers: seq<Record>): Live {
    if servers == [] then map[]
    else
      var before, r := Snapshot(servers[..|servers| - 1]), servers[|servers| - 1];
      if Routable(r.status) then before[r.id := r] else before
  }

  function StepLive(live: Live, e: Event): Live {
    match e
    case Rebuild(servers) => Snapshot(servers)
    case Add(r) => if Routable(r.status) then live[r.id := r] else live
    case Remove(id) => if Trim(id) == "" then live else live - {id}
    case Refresh(id, fetched) =>
      if Trim(id) == "" || fetched.StoreError? then live
      else if fetched.Found? && Routable(fetched.record.status)
      then (live - {id})[fetched.record.id := fetched.record]
      else live - {id}
  }

  function LiveAfter(events: seq<Event>): Live {
    if events == [] then map[] else StepLive(LiveAfter(events[..|events| - 1]), events[|events| - 1])
  }

  ghost predicate DropsNoName(live: Live, r: Record) {
    r.id in live ==>
      && Advertised(live[r.id].tools) <= Advertised(r.tools)
      && Advertised(live[r.id].resources) <= Advertised(r.resources)
  }

  /** The operation asks nothing of the index that an upsert cannot deliver. */
  ghost predicate Clean(live: Live, e: Event) {
    match e
    case Rebuild(servers) => DistinctIds(servers)
    case Add(r) => Routable(r.status) ==> DropsNoName(live, r)
    case Remove(_) => true
    case Refresh(id, fetched) => fetched.Found? ==> fetched.record.id == id
  }

  ghost predicate CleanRun(events: seq<Event>) {
    forall i | 0 <= i < |events| :: Clean(LiveAfter(events[..i]), events[i])
  }

  lemma {:induction false} SnapshotAgrees(servers: seq<Record>, kind: Kind)
    requires DistinctIds(servers)
    ensures Agrees(Rebuilt(servers, kind), Snapshot(servers), kind)
    ensures KeyedById(Snapshot(servers))
    ensures forall id | id in Snapshot(servers) :: exists i :: 0 <= i < |servers| && servers[i].id == id
  {
    if servers != [] {
      var init, r := servers[..|servers| - 1], servers[|servers| - 1];
      SnapshotAgrees(init, kind);
      assert forall i | 0 <= i < |init| :: init[i] == servers[i];
      if Routable(r.status) {
        assert r.id !in Snapshot(init);
        AddKeepsAgreement(Rebuilt(init, kind), Snapshot(init), r, kind);
      }
    }
  }

  /** After every clean run, both maps list exactly the live servers under exactly
      the names they advertise, once each, with no empty list. */
  lemma {:induction false} IndexAgrees(events: seq<Event>, kind: Kind)
    requires CleanRun(events)
    ensures Agrees(Side(Run(events), kind), LiveAfter(events), kind)
    ensures KeyedById(LiveAfter(events))
  {
    if events != [] {
      var init, e := events[..|events| - 1], events[|events| - 1];
      assert forall i | 0 <= i < |init| :: init[i] == events[i] && init[..i] == events[..i];
      IndexAgrees(init, kind);
      assert Clean(LiveAfter(init), e);
      StepAgrees(Side(Run(init), kind), LiveAfter(init), e, kind);
    }
  }

  lemma StepAgrees(m: Listing, live: Live, e: Event, kind: Kind)
    requires Agrees(m, live, kind) && KeyedById(live) && Clean(live, e)
    ensures Agrees(StepSide(m, e, kind), StepLive(live, e), kind)
    ensures KeyedById(StepLive(live, e))
  {
    match e {
      case Rebuild(servers) => SnapshotAgrees(servers, kind);
      case Add(r) => if Routable(r.status) { AddKeepsAgreement(m, live, r, kind); }
      case Remove(id) => DropAgrees(m, live, id, kind);
      case Refresh(id, fetched) =>
        DropAgrees(m, live, id, kind);
        if fetched.Found? {
          AddKeepsAgreement(Dropped(m, id), live - {id}, fetched.record, kind);
        }
    }
  }

  lemma {:induction false} SnapshotHolds(servers: seq<Record>, r: Record)
    requires DistinctIds(servers)
    ensures Lives(Snapshot(servers), r) <==> r in servers && r.status.Active?
  {
    if servers != [] {
      var init, last := servers[..|servers| - 1], servers[|servers| - 1];
      assert servers == init + [last];
      SnapshotHolds(init, r);
      if r in init {
        var i :| 0 <= i < |init| && init[i] == r;
        assert servers[i] == r && servers[|init|] == last;
      }
    }
  }

  /** What each operation makes of one server: a rebuild serves exactly the active
      ones it is given, adding or refreshing serves the record exactly when it is
      active, removing ends it, and nothing touches servers it does not name. */
  lemma ServedAfter(live: Live, e: Event, r: Record)
    requires Clean(live, e) && KeyedById(live)
    ensures Lives(StepLive(live, e), r) <==>
            match e
            case Rebuild(servers) => r in servers && r.status.Active?
            case Add(x) => if x.id == r.id && x.status.Active? then r == x else Lives(live, r)
            case Remove(id) => Lives(live, r) && !(Trim(id) != "" && id == r.id)
            case Refresh(id, fetched) =>
              if Trim(id) == "" || fetched.StoreError? || id != r.id then Lives(live, r)
              else fetched.Found? && r == fetched.record && r.status.Active?
  {
    if e.Rebuild? { SnapshotHolds(e.servers, r); }
  }

  // ----- lookups

  ghost predicate LongestPrefix(m: Listing, target: string, key: string) {
    key in m && key != "" && key <= target && forall k | k in m && k <= target :: |k| <= |key|
  }

  /** Two keys of one length that are both prefixes are the same key, so the order
      in which the map is walked cannot matter. */
  lemma LongestPrefixIsUnique(m: Listing, target: string, a: string, b: string)
    requires LongestPrefix(m, target, a) && LongestPrefix(m, target, b)
    ensures a == b
  {
    assert a == target[..|a|] && b == target[..|b|];
  }

  ghost predicate SomeoneAdvertises(live: Live, kind: Kind, k: string) {
    exists id :: id in live && k in Advertised(NamesOf(live[id], kind))
  }

  /** The index's keys are the names that live servers advertise. */
  lemma KeysAreAdvertised(m: Listing, live: Live, kind: Kind, k: string)
    requires Agrees(m, live, kind) && KeyedById(live)
    ensures k in m <==> SomeoneAdvertises(live, kind, k)
    ensures k in m ==> k != ""
  {
    if k in m {
      assert ListedRightly(m, live, kind, k, m[k][0]);
    }
    if SomeoneAdvertises(live, kind, k) {
      var id :| id in live && k in Advertised(NamesOf(live[id], kind));
      assert ListedRightly(m, live, kind, k, live[id]);
    }
  }

  /** The longest prefix of the target advertised by a live server. */
  ghost predicate LongestAdvertised(live: Live, target: string, key: string) {
    && key <= target && SomeoneAdvertises(live, Resources, key)
    && forall k | SomeoneAdvertises(live, Resources, k) && k <= target :: |k| <= |key|
  }

  /** Over an agreeing index, walking the keys finds the longest prefix any live
      server advertises. */
  lemma LongestPrefixIsAdvertised(m: Listing, live: Live, target: string, key: string)
    requires Agrees(m, live, Resources) && KeyedById(live)
    ensures LongestPrefix(m, target, key) <==> LongestAdvertised(live, target, key)
  {
    forall k ensures k in m <==> SomeoneAdvertises(live, Resources, k) {
      KeysAreAdvertised(m, live, Resources, k);
    }
    KeysAreAdvertised(m, live, Resources, key);
    hide SomeoneAdvertises, Agrees, KeyedById;
  }

  /** And the list found there is the live servers advertising it, once each. */
  lemma ListHoldsTheAdvertisers(m: Listing, live: Live, kind: Kind, key: string)
    requires Agrees(m, live, kind)
    ensures DistinctIds(Get(m, key))
    ensures forall r :: r in Get(m, key) <==> Lives(live, r) && key in Advertised(NamesOf(r, kind))
  {
    forall r ensures r in Get(m, key) <==> Lives(live, r) && key in Advertised(NamesOf(r, kind)) {
      assert ListedRightly(m, live, kind, key, r);
    }
  }

  /** What a lookup by prefix may answer: the list of a longest matching key, nothing
      when no key matches. */
  ghost predicate AnswersPrefix(m: Listing, target: string, servers: seq<Record>) {
    && (forall key | LongestPrefix(m, target, key) :: servers == m[key])
    && ((forall key | key in m :: !LongestPrefix(m, target, key)) ==> servers == [])
  }

  /** The server advertises the longest prefix of the target that any live one does. */
  ghost predicate ServesBest(live: Live, target: string, r: Record) {
    Lives(live, r) && exists key :: LongestAdvertised(live, target, key) && key in Advertised(NamesOf(r, Resources))
  }

  /** After every clean run a lookup by prefix answers with exactly the live servers of
      the longest advertised prefix, once each, and one by tool with exactly the live
      servers advertising the tool. */
  lemma LookupsAnswerForTheLive(events: seq<Event>, target: string, servers: seq<Record>, tool: string)
    requires CleanRun(events) && AnswersPrefix(Run(events).resources, target, servers)
    ensures DistinctIds(servers) && forall r :: r in servers <==> ServesBest(LiveAfter(events), target, r)
    ensures DistinctIds(Get(Run(events).tools, tool))
    ensures forall r ::
              r in Get(Run(events).tools, tool) <==> Lives(LiveAfter(events), r) && tool in Advertised(r.tools)
  {
    IndexAgrees(events, Resources);
    IndexAgrees(events, Tools);
    hide Run, LiveAfter, CleanRun, Agrees, KeyedById, Advertised, Lives;
    var live := LiveAfter(events);
    ListHoldsTheAdvertisers(Run(events).tools, live, Tools, tool);
    PrefixAnswerIsRight(Run(events).resources, live, target, servers);
  }

  lemma PrefixAnswerIsRight(m: Listing, live: Live, target: string, servers: seq<Record>)
    requires Agrees(m, live, Resources) && KeyedById(live) && AnswersPrefix(m, target, servers)
    ensures DistinctIds(servers) && forall r :: r in servers <==> ServesBest(live, target, r)
  {
    hide Agrees, KeyedById, Advertised, Lives;
    forall key ensures LongestPrefix(m, target, key) <==> LongestAdvertised(live, target, key) {
      LongestPrefixIsAdvertised(m, live, target, key);
    }
    if key :| key in m && LongestPrefix(m, target, key) {
      ListHoldsTheAdvertisers(m, live, Resources, key);
      forall other | LongestAdvertised(live, target, other) ensures other == key {
        LongestPrefixIsUnique(m, target, other, key);
      }
      hide LongestAdvertised, LongestPrefix;
      assert servers == Get(m, key);
    } else {
      hide LongestAdvertised;
      assert servers == [];
    }
  }

  /** Adding a server that has stopped advertising a tool leaves it listed there. */
  lemma AddKeepsStaleName(r: Record)
    requires r.tools == ["a", "b"] && Routable(r.status)
    ensures var r' := r.(tools := ["a"]);
            Get(Run([Add(r), Add(r')]).tools, "b") == [r] && "b" !in Advertised(r'.tools)
  {
    var r' := r.(tools := ["a"]);
    TrimOfTight("a");
    TrimOfTight("b");
    assert [Add(r), Add(r')][..1] == [Add(r)] && [Add(r)][..0] == [];
    assert Run([Add(r)]).tools == AddNames(map[], r.tools, r);
    assert Run([Add(r), Add(r')]).tools == AddNames(AddNames(map[], r.tools, r), r'.tools, r');
    assert r.tools[0] == "a" && r.tools[1] == "b";
    assert "b" in Advertised(r.tools) by { assert Trim(r.tools[1]) == "b"; }
    AddedNames(map[], r.tools, r, "b");
    AddedNames(AddNames(map[], r.tools, r), r'.tools, r', "b");
  }

  // ----- the object

  lemma UpsertAt(servers: seq<Record>, idx: nat, server: Record)
    requires idx < |servers|
    ensures servers[..idx] + Upsert(servers[idx..], server) ==
            if servers[idx].id == server.id then servers[idx := server]
            else servers[..idx + 1] + Upsert(servers[idx + 1..], server)
  {
    var rest := servers[idx..];
    assert rest[1..] == servers[idx + 1..];
    if servers[idx].id != server.id {
      assert servers[..idx] + [rest[0]] == servers[..idx + 1];
    }
  }

  method UpsertServer(servers: seq<Record>, server: Record) returns (out: seq<Record>)
    ensures out == Upsert(servers, server)
  {
    var idx := 0;
    assert servers[..0] + Upsert(servers[0..], server) == Upsert(servers, server);
    while idx < |servers|
      invariant 0 <= idx <= |servers|
      invariant Upsert(servers, server) == servers[..idx] + Upsert(servers[idx..], server)
    {
      hide Upsert;
      UpsertAt(servers, idx, server);
      if servers[idx].id == server.id {
        return servers[idx := server];
      }
      idx := idx + 1;
    }
    return servers + [server];
  }

  method RemoveServer(servers: seq<Record>, id: string) returns (filtered: seq<Record>)
    ensures filtered == Without(servers, id)
  {
    filtered := [];
    for i := 0 to |servers|
      invariant filtered == Without(servers[..i], id)
    {
      assert servers[..i + 1][..i] == servers[..i];
      if servers[i].id != id {
        filtered := filtered + [servers[i]];
      }
    }
    assert servers[..|servers|] == servers;
  }

  method AddTo(m: Listing, names: seq<string>, server: Record) returns (out: Listing)
    ensures out == AddNames(m, names, server)
  {
    out := m;
    for i := 0 to |names|
      invariant out == AddNames(m, names[..i], server)
    {
      assert names[..i + 1][..i] == names[..i];
      var name := Trim(names[i]);
      if name == "" {
        continue;
      }
      var list := UpsertServer(if name in out then out[name] else [], server);
      out := out[name := list];
    }
    assert names[..|names|] == names;
  }

  /** Walks the keys in any order, filtering each list and deleting those left empty. */
  method DropFrom(m: Listing, id: string) returns (out: Listing)
    ensures out == Dropped(m, id)
  {
    out := m;
    var rest := m.Keys;
    while rest != {}
      invariant rest <= m.Keys
      invariant forall k | k in rest :: k in out && out[k] == m[k]
      invariant forall k | k in m && k !in rest :: Get(out, k) == Without(m[k], id)
      invariant forall k | k in out && k !in rest :: out[k] != []
      invariant out.Keys <= m.Keys
      decreases rest
    {
      var k :| k in rest;
      var filtered := RemoveServer(m[k], id);
      if |filtered| == 0 {
        out := out - {k};
      } else {
        out := out[k := filtered];
      }
      rest := rest - {k};
    }
  }

  class CapabilityStore {
    var tools: Listing
    var resources: Listing

    ghost function View(): Index
      reads this
    {
      Index(tools, resources)
    }

    constructor ()
      ensures View() == Run([])
    {
      tools, resources := map[], map[];
    }

    method AddLocked(server: Record)
      modifies this
      ensures View() ==
              Index(AddNames(old(tools), server.tools, server), AddNames(old(resources), server.resources, server))
    {
      tools := AddTo(tools, server.tools, server);
      resources := AddTo(resources, server.resources, server);
    }

    method RemoveLocked(id: string)
      modifies this
      ensures View() == Index(Dropped(old(tools), id), Dropped(old(resources), id))
    {
      tools := DropFrom(tools, id);
      resources := DropFrom(resources, id);
    }

    method Rebuild(servers: seq<Record>)
      modifies this
      ensures View() == Step(old(View()), Event.Rebuild(servers))
    {
      tools, resources := map[], map[];
      for i := 0 to |servers|
        invariant View() == Index(Rebuilt(servers[..i], Tools), Rebuilt(servers[..i], Resources))
      {
        assert servers[..i + 1][..i] == servers[..i];
        if Routable(servers[i].status) {
          AddLocked(servers[i]);
        }
      }
      assert servers[..|servers|] == servers;
    }

    method Add(server: Record)
      modifies this
      ensures View() == Step(old(View()), Event.Add(server))
    {
      if Routable(server.status) {
        AddLocked(server);
      }
    }

    method Remove(id: string)
      modifies this
      ensures View() == Step(old(View()), Event.Remove(id))
    {
      if Trim(id) != "" {
        RemoveLocked(id);
      }
    }

    method RefreshServer(id: string, fetched: Fetched) returns (ok: bool)
      modifies this
      ensures View() == Step(old(View()), Refresh(id, fetched))
      ensures ok == (Trim(id) != "" && !fetched.StoreError?)
    {
      if Trim(id) == "" || fetched.StoreError? {
        return false;
      }
      RemoveLocked(id);
      if fetched.Found? && Routable(fetched.record.status) {
        AddLocked(fetched.record);
      }
      return true;
    }

    method LookupTool(name: string) returns (servers: seq<Record>)
      ensures servers == if Trim(name) == "" then [] else Get(tools, Trim(name))
    {
      var key := Trim(name);
      if key == "" || key !in tools {
        return [];
      }
      return tools[key];
    }

    method LookupResource(prefix: string) returns (servers: seq<Record>)
      ensures AnswersPrefix(resources, Trim(prefix), servers)
    {
      var target := Trim(prefix);
      if target == "" {
        return [];
      }
      var matched := "";
      var rest := resources.Keys;
      while rest != {}
        invariant rest <= resources.Keys
        invariant matched == "" || (matched in resources && matched <= target)
        invariant forall k | k in resources && k !in rest && k <= target :: |k| <= |matched|
        decreases rest
      {
        var key :| key in rest;
        if key <= target && |key| > |matched| {
          matched := key;
        }
        rest := rest - {key};
      }
      forall key | LongestPrefix(resources, target, key) ensures matched == key {
        LongestPrefixIsUnique(resources, target, matched, key);
      }
      if matched == "" {
        return [];
      }
      assert LongestPrefix(resources, target, matched);
      return resources[matched];
    }
  }
}
