/**
 Federated tool names: how tool listing publishes a backend's tool and how a
 call by the published name finds its way back to that backend.
 */
module Names {
  import opened Common
  import opened Registry
  import opened Text
  import opened CapabilityIndex

  datatype Mode = Reject | Always | OnConflict

  datatype Resolver = Resolver(mode: Mode, separator: string)

  function LookupTool(tools: Listing, name: string): seq<Record> {
    if Trim(name) == "" then [] else Get(tools, Trim(name))
  }

  // ----- the namespace resolver

  function DisplayName(server: string): string {
    TrimPrefix(server, "mcp-")
  }

  predicate IsConflict(tools: Listing, tool: string) {
    |LookupTool(tools, Trim(tool))| > 1
  }

  function ApplyNamespace(ns: Resolver, tools: Listing, toolName: string, serverName: string): string {
    var tool, server := Trim(toolName), Trim(serverName);
    if tool == "" || server == "" then tool
    else
      match ns.mode
      case Always => DisplayName(server) + ns.separator + tool
      case OnConflict => if IsConflict(tools, tool) then DisplayName(server) + ns.separator + tool else tool
      case Reject => tool
  }

  function ResolveNamespace(ns: Resolver, namespacedName: string): (string, string) {
    var name := Trim(namespacedName);
    var idx := IndexOf(name, ns.separator);
    if idx <= 0 then ("", name) else (name[..idx], name[idx + |ns.separator|..])
  }

  /** The separator first shows up in display + separator where it was put. */
  predicate SeparatesCleanly(display: string, separator: string) {
    IndexOf(display + separator, separator) == |display|
  }

  /** What makes a prefixed name resolve to its parts.  An empty display name is lost
      unless the separator is trimmed away with it. */
  predicate Splits(display: string, separator: string, tool: string) {
    if display == "" then Trim(separator) == "" && IndexOf(tool, separator) == -1
    else !IsSpace(display[0]) && SeparatesCleanly(display, separator)
  }

  /** Resolving undoes an always-prefixed name exactly when the display name starts
      with a character that trimming keeps, and the separator does not already occur,
      in whole or overlapping, in what it is appended to. */
  lemma AlwaysRoundTrip(ns: Resolver, tools: Listing, toolName: string, serverName: string)
    requires ns.mode.Always? && ns.separator != ""
    requires Trim(toolName) != "" && Trim(serverName) != ""
    ensures var tool, display := Trim(toolName), DisplayName(Trim(serverName));
            ResolveNamespace(ns, ApplyNamespace(ns, tools, toolName, serverName)) == (display, tool) <==>
            Splits(display, ns.separator, tool)
  {
    var tool, display := Trim(toolName), DisplayName(Trim(serverName));
    TrimIsTight(toolName);
    if display == "" {
      UndisplayedResolves(ns, tool);
      assert display + ns.separator == ns.separator;
    } else if IsSpace(display[0]) {
      TrimIsTight(display + ns.separator + tool);
    } else {
      PrefixedResolves(ns, display, tool);
    }
  }

  lemma UndisplayedResolves(ns: Resolver, tool: string)
    requires ns.separator != "" && tool != "" && Tight(tool)
    ensures ResolveNamespace(ns, ns.separator + tool) == ("", tool) <==> Splits("", ns.separator, tool)
  {
    var trimmed := TrimLeft(ns.separator);
    TrimLeftAppend(ns.separator, tool);
    TrimLeftTight(ns.separator);
    assert Trim(ns.separator) == "" <==> trimmed == "" by {
      if trimmed != "" { TrimRightNonempty(trimmed); }
    }
    var name := trimmed + tool;
    assert name[|name| - 1] == tool[|tool| - 1] && name[0] == if trimmed == "" then tool[0] else trimmed[0];
    TrimOfTight(name);
    assert Trim(ns.separator + tool) == name;
    if trimmed != "" {
      assert |name| > |tool|;
    } else {
      assert name == tool && IsSpace(ns.separator[0]);
      assert !OccursAt(tool, ns.separator, 0);
    }
  }

  lemma PrefixedResolves(ns: Resolver, display: string, tool: string)
    requires ns.separator != "" && tool != "" && Tight(tool)
    requires display != "" && !IsSpace(display[0])
    ensures var name := display + ns.separator + tool;
            && Tight(name)
            && (ResolveNamespace(ns, name) == (display, tool) <==> SeparatesCleanly(display, ns.separator))
  {
    var name := display + ns.separator + tool;
    assert name[0] == display[0] && name[|name| - 1] == tool[|tool| - 1];
    TrimOfTight(name);
    IndexInPrefix(display, ns.separator, tool);
    assert OccursAt(display + ns.separator, ns.separator, |display|);
    if SeparatesCleanly(display, ns.separator) {
      assert name[..|display|] == display;
      assert name[|display| + |ns.separator|..] == tool;
    }
  }

  /** Freedom from the separator is not enough when it is longer than one character. */
  lemma OverlappingSeparatorLosesTheServer()
    ensures IndexOf("ba", "aa") == -1
    ensures ResolveNamespace(Resolver(Always, "aa"), "ba" + "aa" + "t") != ("ba", "t")
  {
    PrefixedResolves(Resolver(Always, "aa"), "ba", "t");
    assert OccursAt("ba" + "aa", "aa", 1);
  }

  /** A server may be registered as "mcp-"; nothing is left of it to resolve to. */
  lemma EmptyDisplayNameLosesTheServer(tools: Listing)
    ensures var ns := Resolver(Always, ".");
            && SeparatesCleanly(DisplayName("mcp-"), ns.separator)
            && ResolveNamespace(ns, ApplyNamespace(ns, tools, "t", "mcp-")) != (DisplayName("mcp-"), "t")
  {
    assert Trim(".") == ".";
    AlwaysRoundTrip(Resolver(Always, "."), tools, "t", "mcp-");
  }

  // ----- publishing

  /** The name a server goes by: its name, or its ID when that is blank. */
  function Label(r: Record): string {
    if Trim(r.name) != "" then Trim(r.name) else Trim(r.id)
  }

  function FederatedToolName(r: Record, toolName: string): string {
    var base := Trim(toolName);
    if base == "" || Label(r) == "" then ""
    else
      var display := DisplayName(Label(r));
      if display + "." <= base then base else display + "." + base
  }

  predicate Namespaced(ns: Option<Resolver>) {
    ns.Some? && !ns.value.mode.Reject?
  }

  function PublishedName(ns: Option<Resolver>, tools: Listing, r: Record, toolName: string): string {
    if Namespaced(ns) then ApplyNamespace(ns.value, tools, toolName, Label(r)) else FederatedToolName(r, toolName)
  }

  /** Who is published: a server goes by its name, or its identifier when that is
      blank.  In always mode every tool carries it, in on-conflict mode those that
      several servers offer, and otherwise every tool that does not carry it yet. */
  lemma PublishedNameByMode(ns: Option<Resolver>, tools: Listing, r: Record, toolName: string)
    requires Trim(toolName) != "" && (Trim(r.name) != "" || Trim(r.id) != "")
    ensures var tool, name := Trim(toolName), PublishedName(ns, tools, r, toolName);
            var display := DisplayName(if Trim(r.name) != "" then Trim(r.name) else Trim(r.id));
            if ns.None? || ns.value.mode.Reject?
            then name == if display + "." <= tool then tool else display + "." + tool
            else if ns.value.mode.Always? then name == display + ns.value.separator + tool
            else name == if |Get(tools, tool)| > 1 then display + ns.value.separator + tool else tool
  {
    TrimTwice(toolName);
    TrimTwice(r.name);
    TrimTwice(r.id);
    hide Trim, DisplayName;
  }

  // ----- calling

  predicate MatchesHint(actual: string, hint: string) {
    EqualFold(Trim(actual), hint) || EqualFold(TrimPrefix(Trim(actual), "mcp-"), hint)
  }

  predicate MatchesServer(c: Record, hint: string) {
    MatchesHint(c.name, hint) || MatchesHint(c.id, hint)
  }

  function FilterByServer(candidates: seq<Record>, hint: string): seq<Record> {
    if candidates == [] then []
    else
      var last := candidates[|candidates| - 1];
      FilterByServer(candidates[..|candidates| - 1], hint) + (if MatchesServer(last, hint) then [last] else [])
  }

  /** The server's name or identifier is this, with or without "mcp-", in any case. */
  predicate GoesBy(c: Record, display: string) {
    || EqualFold(Trim(c.name), display) || EqualFold(DisplayName(Trim(c.name)), display)
    || EqualFold(Trim(c.id), display) || EqualFold(DisplayName(Trim(c.id)), display)
  }

  lemma HintMeans(c: Record, hint: string)
    ensures MatchesServer(c, hint) <==> GoesBy(c, hint)
  {}

  lemma {:induction false} FilteredExactly(candidates: seq<Record>, hint: string, c: Record)
    ensures c in FilterByServer(candidates, hint) <==> c in candidates && GoesBy(c, hint)
  {
    HintMeans(c, hint);
    hide GoesBy, MatchesServer;
    if candidates != [] {
      var init, last := candidates[..|candidates| - 1], candidates[|candidates| - 1];
      FilteredExactly(init, hint, c);
      assert candidates == init + [last];
    }
  }

  method FilterCandidatesByServer(candidates: seq<Record>, requested: string) returns (filtered: seq<Record>)
    ensures filtered == FilterByServer(candidates, requested)
    ensures forall c :: c in filtered <==> c in candidates && GoesBy(c, requested)
  {
    filtered := [];
    for i := 0 to |candidates|
      invariant filtered == FilterByServer(candidates[..i], requested)
    {
      assert candidates[..i + 1][..i] == candidates[..i];
      if MatchesServer(candidates[i], requested) {
        filtered := filtered + [candidates[i]];
      }
    }
    assert candidates[..|candidates|] == candidates;
    forall c ensures c in filtered <==> c in candidates && GoesBy(c, requested) {
      FilteredExactly(candidates, requested, c);
    }
  }

  datatype Target = Target(tool: string, hint: string)

  function ByLegacy(name: string): Target {
    var d1 := IndexOf(name, ".");
    if d1 < 0 then Target(name, "")
    else
      var rest := name[d1 + 1..];
      var d2 := IndexOf(rest, ".");
      if d2 >= 0 && name[..d1] == "mcp" then Target(rest[d2 + 1..], rest[..d2]) else Target(name, "")
  }

  function ByFirstDot(tools: Listing, name: string): Target {
    var dot := IndexOf(name, ".");
    if dot > 0 && LookupTool(tools, name[dot + 1..]) != [] then Target(name[dot + 1..], name[..dot])
    else ByLegacy(name)
  }

  function ResolveFederatedName(ns: Option<Resolver>, tools: Listing, name: string): Target {
    if LookupTool(tools, name) != [] then Target(name, "")
    else if Namespaced(ns) then
      var (hint, bare) := ResolveNamespace(ns.value, name);
      if hint != "" && bare != "" && LookupTool(tools, bare) != [] then Target(bare, hint)
      else ByFirstDot(tools, name)
    else ByFirstDot(tools, name)
  }

  function CandidatesFor(tools: Listing, target: Target): seq<Record> {
    var found := LookupTool(tools, target.tool);
    if target.hint != "" then FilterByServer(found, target.hint) else found
  }

  /** The backends a call by this name may be sent to; none means "not found". */
  function Candidates(ns: Option<Resolver>, tools: Listing, toolName: string): seq<Record> {
    var name := Trim(toolName);
    if name == "" then [] else CandidatesFor(tools, ResolveFederatedName(ns, tools, name))
  }

  // ----- publishing and calling undo each other

  /** What the publishing server's display name must look like. */
  predicate WellNamed(ns: Option<Resolver>, r: Record) {
    var display := DisplayName(Label(r));
    && Label(r) != "" && display != "" && !IsSpace(display[0])
    && if Namespaced(ns)
       then ns.value.separator != "" && SeparatesCleanly(display, ns.value.separator)
       else SeparatesCleanly(display, ".")
  }

  lemma LabelMatches(r: Record)
    ensures MatchesServer(r, DisplayName(Label(r)))
  {
  }

  lemma PrefixedTarget(ns: Option<Resolver>, tools: Listing, r: Record, tool: string)
    requires WellNamed(ns, r) && tool != "" && Tight(tool) && Get(tools, tool) != []
    ensures var display, sep := DisplayName(Label(r)), if Namespaced(ns) then ns.value.separator else ".";
            var name := display + sep + tool;
            && Tight(name) && name != ""
            && (LookupTool(tools, name) == [] ==> ResolveFederatedName(ns, tools, name) == Target(tool, display))
  {
    var display := DisplayName(Label(r));
    TrimOfTight(tool);
    if Namespaced(ns) {
      PrefixedResolves(ns.value, display, tool);
    } else {
      PrefixedResolves(Resolver(Always, "."), display, tool);
      TrimOfTight(display + "." + tool);
    }
  }

  /** A call by this name reaches somebody, and only live servers that advertise
      the tool it resolves to. */
  ghost predicate Reaches(ns: Option<Resolver>, tools: Listing, live: Live, name: string) {
    && Candidates(ns, tools, name) != []
    && var raw := ResolveFederatedName(ns, tools, name).tool;
       forall c | c in Candidates(ns, tools, name) :: Lives(live, c) && raw in Advertised(NamesOf(c, Tools))
  }

  lemma CallByRawName(ns: Option<Resolver>, tools: Listing, live: Live, r: Record, name: string)
    requires Agrees(tools, live, Tools) && Lives(live, r)
    requires name != "" && Tight(name) && Get(tools, name) != []
    ensures Reaches(ns, tools, live, name)
    ensures r in Candidates(ns, tools, name) <==> name in Advertised(NamesOf(r, Tools))
  {
    TrimOfTight(name);
    assert Candidates(ns, tools, name) == Get(tools, name);
    ListedAdvertise(tools, live, name);
    assert ListedRightly(tools, live, Tools, name, r);
  }

  lemma CallByPrefixedName(ns: Option<Resolver>, tools: Listing, live: Live, r: Record, tool: string, name: string)
    requires Agrees(tools, live, Tools) && r in Get(tools, tool) && WellNamed(ns, r)
    requires tool != "" && Tight(tool) && name != "" && Tight(name) && Get(tools, name) == []
    requires name == DisplayName(Label(r)) + (if Namespaced(ns) then ns.value.separator else ".") + tool
    ensures Reaches(ns, tools, live, name) && r in Candidates(ns, tools, name)
  {
    var found, hint := Get(tools, tool), DisplayName(Label(r));
    PrefixedCandidates(ns, tools, r, tool, name);
    LabelMatches(r);
    FilteredExactly(found, hint, r);
    FilteredSubset(found, hint);
    ListedAdvertise(tools, live, tool);
  }

  lemma PrefixedCandidates(ns: Option<Resolver>, tools: Listing, r: Record, tool: string, name: string)
    requires WellNamed(ns, r) && Get(tools, tool) != []
    requires tool != "" && Tight(tool) && name != "" && Tight(name) && Get(tools, name) == []
    requires name == DisplayName(Label(r)) + (if Namespaced(ns) then ns.value.separator else ".") + tool
    ensures Candidates(ns, tools, name) == FilterByServer(Get(tools, tool), DisplayName(Label(r)))
    ensures ResolveFederatedName(ns, tools, name).tool == tool
  {
    TrimOfTight(name);
    TrimOfTight(tool);
    PrefixedTarget(ns, tools, r, tool);
  }

  lemma ListedAdvertise(tools: Listing, live: Live, k: string)
    requires Agrees(tools, live, Tools)
    ensures forall c | c in Get(tools, k) :: Lives(live, c) && k in Advertised(NamesOf(c, Tools))
  {
    forall c | c in Get(tools, k) ensures Lives(live, c) && k in Advertised(NamesOf(c, Tools)) {
      assert ListedRightly(tools, live, Tools, k, c);
    }
  }

  lemma FilteredSubset(candidates: seq<Record>, hint: string)
    ensures forall c | c in FilterByServer(candidates, hint) :: c in candidates
  {
    forall c | c in FilterByServer(candidates, hint) ensures c in candidates {
      FilteredExactly(candidates, hint, c);
    }
  }

  /** A published name, called over the same index, reaches at least one backend,
      only backends advertising the tool it resolves to, and the publishing backend
      itself exactly when the full name is no raw tool of others only. */
  lemma PublishedNameResolves(ns: Option<Resolver>, tools: Listing, live: Live, r: Record, tool: string)
    requires Agrees(tools, live, Tools)
    requires r in Get(tools, tool) && WellNamed(ns, r)
    ensures var name := PublishedName(ns, tools, r, tool);
            && Reaches(ns, tools, live, name)
            && (r in Candidates(ns, tools, name) <==> Get(tools, name) == [] || name in Advertised(NamesOf(r, Tools)))
            && (Get(tools, name) == [] ==>
                  forall c | c in Candidates(ns, tools, name) :: GoesBy(c, DisplayName(Label(r))))
  {
    ListedTight(tools, live, r, tool);
    PublishedForms(ns, tools, r, tool);
    var name := PublishedName(ns, tools, r, tool);
    if Get(tools, name) != [] {
      CallByRawName(ns, tools, live, r, name);
    } else {
      CallByPrefixedName(ns, tools, live, r, tool, name);
      PrefixedNameReachesItsServer(ns, tools, live, r, tool);
    }
  }

  /** A published name is the raw tool or display + separator + tool. */
  lemma PublishedForms(ns: Option<Resolver>, tools: Listing, r: Record, tool: string)
    requires WellNamed(ns, r) && tool != "" && Tight(tool) && Get(tools, tool) != []
    ensures var name := PublishedName(ns, tools, r, tool);
            && Tight(name) && name != ""
            && (|| name == tool
                || name == DisplayName(Label(r)) + (if Namespaced(ns) then ns.value.separator else ".") + tool)
  {
    TrimOfTight(tool);
    TrimTwice(r.name);
    TrimTwice(r.id);
    PrefixedTarget(ns, tools, r, tool);
  }

  lemma ListedTight(tools: Listing, live: Live, r: Record, k: string)
    requires Agrees(tools, live, Tools) && r in Get(tools, k)
    ensures k in Advertised(r.tools) && k != "" && Tight(k)
    ensures Lives(live, r)
  {
    assert ListedRightly(tools, live, Tools, k, r);
    var i :| 0 <= i < |r.tools| && Trim(r.tools[i]) == k && k != "";
    TrimIsTight(r.tools[i]);
  }

  /** A prefixed name that is no raw tool reaches exactly the servers that offer the
      tool and go by the display name it carries; if the publishing server is the only
      one, it alone. */
  lemma PrefixedNameReachesItsServer(ns: Option<Resolver>, tools: Listing, live: Live, r: Record, tool: string)
    requires Agrees(tools, live, Tools) && r in Get(tools, tool) && WellNamed(ns, r)
    requires Get(tools, PublishedName(ns, tools, r, tool)) == []
    ensures var candidates, display := Candidates(ns, tools, PublishedName(ns, tools, r, tool)), DisplayName(Label(r));
            && (forall c :: c in candidates <==>
                  Lives(live, c) && tool in Advertised(NamesOf(c, Tools)) && GoesBy(c, display))
            && ((forall c | c in Get(tools, tool) && GoesBy(c, display) :: c == r) ==> candidates == [r])
  {
    ListedTight(tools, live, r, tool);
    PublishedForms(ns, tools, r, tool);
    var name, found, display := PublishedName(ns, tools, r, tool), Get(tools, tool), DisplayName(Label(r));
    PrefixedCandidates(ns, tools, r, tool, name);
    ListHoldsTheAdvertisers(tools, live, Tools, tool);
    hide *;
    MatchingServers(found, display);
    LabelMatches(r);
    HintMeans(r, display);
    if forall c | c in found && GoesBy(c, display) :: c == r {
      OnlyMember(FilterByServer(found, display), r);
    }
  }

  lemma MatchingServers(found: seq<Record>, hint: string)
    requires DistinctIds(found)
    ensures forall c :: c in FilterByServer(found, hint) <==> c in found && GoesBy(c, hint)
    ensures DistinctIds(FilterByServer(found, hint))
  {
    FilteredStaysDistinct(found, hint);
    forall c ensures c in FilterByServer(found, hint) <==> c in found && GoesBy(c, hint) {
      FilteredExactly(found, hint, c);
    }
  }

  lemma {:induction false} FilteredStaysDistinct(candidates: seq<Record>, hint: string)
    requires DistinctIds(candidates)
    ensures DistinctIds(FilterByServer(candidates, hint))
  {
    if candidates != [] {
      var init, last := candidates[..|candidates| - 1], candidates[|candidates| - 1];
      FilteredStaysDistinct(init, hint);
      var kept := FilterByServer(init, hint);
      forall i | 0 <= i < |kept| ensures kept[i].id != last.id {
        FilteredExactly(init, hint, kept[i]);
        var j :| 0 <= j < |init| && init[j] == kept[i];
        assert candidates[j] == init[j];
      }
    }
  }

  lemma OnlyMember(list: seq<Record>, r: Record)
    requires DistinctIds(list) && r in list && forall c | c in list :: c == r
    ensures list == [r]
  {
    assert forall i | 0 <= i < |list| :: list[i] in list;
    assert |list| > 1 ==> list[0].id != list[1].id;
  }

  /** The older form mcp.server.tool names the server in its middle part, when it is
      neither a raw tool nor read as a server called mcp. */
  lemma LegacyNameReachesItsServer(ns: Option<Resolver>, tools: Listing, server: string, tool: string, c: Record)
    requires '.' !in server && tool != "" && Tight(tool)
    requires var name := "mcp." + server + "." + tool;
             && Get(tools, name) == [] && LookupTool(tools, server + "." + tool) == []
             && (Namespaced(ns) ==> LookupTool(tools, ResolveNamespace(ns.value, name).1) == [])
    ensures c in Candidates(ns, tools, "mcp." + server + "." + tool) <==>
            c in Get(tools, tool) && (server == "" || GoesBy(c, server))
  {
    var name := "mcp." + (server + "." + tool);
    assert name == "mcp." + server + "." + tool;
    LegacyTarget(ns, tools, server, tool, name);
    hide *;
    FilteredExactly(Get(tools, tool), server, c);
  }

  lemma LegacyTarget(ns: Option<Resolver>, tools: Listing, server: string, tool: string, name: string)
    requires '.' !in server && tool != "" && Tight(tool) && name == "mcp." + (server + "." + tool)
    requires Get(tools, name) == [] && LookupTool(tools, server + "." + tool) == []
    requires Namespaced(ns) ==> LookupTool(tools, ResolveNamespace(ns.value, name).1) == []
    ensures Candidates(ns, tools, name) ==
            if server == "" then Get(tools, tool) else FilterByServer(Get(tools, tool), server)
  {
    LegacySplits(server, tool);
    TrimOfTight(name);
    TrimOfTight(tool);
    hide Tight, Trim, ResolveNamespace, IndexOf;
  }

  lemma LegacySplits(server: string, tool: string)
    requires '.' !in server && tool != "" && Tight(tool)
    ensures var rest := server + "." + tool;
            var name := "mcp." + rest;
            && Tight(name) && name != ""
            && IndexOf(name, ".") == 3 && name[..3] == "mcp" && name[4..] == rest
            && IndexOf(rest, ".") == |server| && rest[..|server|] == server && rest[|server| + 1..] == tool
  {
    var rest := server + "." + tool;
    var name := "mcp." + rest;
    assert name == "mcp" + "." + rest;
    assert name[|name| - 1] == tool[|tool| - 1];
    FirstDot("mcp", rest);
    FirstDot(server, tool);
  }

  lemma FirstDot(before: string, after: string)
    requires '.' !in before
    ensures IndexOf(before + "." + after, ".") == |before|
  {
    var s := before + "." + after;
    assert OccursAt(s, ".", |before|);
    forall j | 0 <= j < |before| ensures !OccursAt(s, ".", j) {
      assert s[j] == before[j];
      assert s[j..j + 1] == [s[j]];
    }
  }

  // ----- distinct names

  /** The tool without the server's prefix, should it carry it already. */
  function Unprefixed(display: string, tool: string): string {
    TrimPrefix(tool, display + ".")
  }

  /** Without namespaces too a published name tells server and tool apart: two are the
      same exactly when the display names are, and the tools up to that prefix. */
  lemma FederatedNamesCoincideIff(r1: Record, t1: string, r2: Record, t2: string)
    requires Trim(t1) != "" && Trim(t2) != "" && Label(r1) != "" && Label(r2) != ""
    requires '.' !in DisplayName(Label(r1)) && '.' !in DisplayName(Label(r2))
    ensures var d1, d2 := DisplayName(Label(r1)), DisplayName(Label(r2));
            FederatedToolName(r1, t1) == FederatedToolName(r2, t2) <==>
            d1 == d2 && Unprefixed(d1, Trim(t1)) == Unprefixed(d2, Trim(t2))
  {
    var d1, d2 := DisplayName(Label(r1)), DisplayName(Label(r2));
    var u1, u2 := Unprefixed(d1, Trim(t1)), Unprefixed(d2, Trim(t2));
    FederatedNameIs(r1, t1);
    FederatedNameIs(r2, t2);
    hide FederatedToolName, Unprefixed, DisplayName, Label, Trim;
    if FederatedToolName(r1, t1) == FederatedToolName(r2, t2) {
      SplitOnce('.', d1, u1, d2, u2);
    }
  }

  lemma FederatedNameIs(r: Record, toolName: string)
    requires Trim(toolName) != "" && Label(r) != ""
    ensures var display := DisplayName(Label(r));
            FederatedToolName(r, toolName) == display + ['.'] + Unprefixed(display, Trim(toolName))
  {
    var display, base := DisplayName(Label(r)), Trim(toolName);
    if display + "." <= base {
      assert base == base[..|display| + 1] + base[|display| + 1..];
    }
  }

  /** In on-conflict mode, with a one-character separator that no display or tool
      name contains, distinct (server, tool) pairs are published under distinct
      names. */
  lemma OnConflictNamesAreDistinct(c: char, tools: Listing, live: Live, r1: Record, t1: string, r2: Record, t2: string)
    requires Agrees(tools, live, Tools) && KeyedById(live)
    requires r1 in Get(tools, t1) && r2 in Get(tools, t2)
    requires (r1.id, t1) != (r2.id, t2)
    requires Label(r1) != "" && Label(r2) != ""
    requires r1.id != r2.id ==> DisplayName(Label(r1)) != DisplayName(Label(r2))
    requires c !in DisplayName(Label(r1)) && c !in DisplayName(Label(r2)) && c !in t1 && c !in t2
    ensures var ns := Some(Resolver(OnConflict, [c]));
            PublishedName(ns, tools, r1, t1) != PublishedName(ns, tools, r2, t2)
  {
    ListedTight(tools, live, r1, t1);
    ListedTight(tools, live, r2, t2);
    OnConflictForm(c, tools, r1, t1);
    OnConflictForm(c, tools, r2, t2);
    var d1, d2 := DisplayName(Label(r1)), DisplayName(Label(r2));
    if t1 == t2 {
      assert r1 != r2;
      TwoMembers(Get(tools, t1), r1, r2);
    }
    if d1 + [c] + t1 == d2 + [c] + t2 {
      SplitOnce(c, d1, t1, d2, t2);
    }
    assert (d1 + [c] + t1)[|d1|] == c && (d2 + [c] + t2)[|d2|] == c;
  }

  lemma OnConflictForm(c: char, tools: Listing, r: Record, tool: string)
    requires tool != "" && Tight(tool) && Label(r) != ""
    ensures PublishedName(Some(Resolver(OnConflict, [c])), tools, r, tool) ==
            if |Get(tools, tool)| > 1 then DisplayName(Label(r)) + [c] + tool else tool
  {
    TrimOfTight(tool);
    TrimTwice(r.name);
    TrimTwice(r.id);
  }

  lemma TwoMembers<T>(list: seq<T>, a: T, b: T)
    requires a in list && b in list && a != b
    ensures |list| > 1
  {}

  lemma SplitOnce(c: char, d1: string, t1: string, d2: string, t2: string)
    requires c !in d1 && c !in d2
    requires d1 + [c] + t1 == d2 + [c] + t2
    ensures d1 == d2 && t1 == t2
  {
    var n := d1 + [c] + t1;
    assert n[|d1|] == c && n[|d2|] == c;
    assert forall i | 0 <= i < |d1| :: n[i] == d1[i];
    assert forall i | 0 <= i < |d2| :: n[i] == d2[i];
    assert d1 == n[..|d1|] && d2 == n[..|d2|];
    assert t1 == n[|d1| + 1..] && t2 == n[|d2| + 1..];
  }

  // ----- the listing itself

  /** The definitions a listing can draw on: the names cached from earlier listings,
      and the tools each backend offers when asked, none when asking it fails. */
  datatype Definitions = Definitions(cached: set<string>, offered: string -> set<string>)

  predicate Available(defs: Definitions, name: string, r: Record, tool: string) {
    name in defs.cached || tool in defs.offered(r.id)
  }

  /** The name stands for this server's tool, and its definition can be had. */
  ghost predicate PublishedFor(
      ns: Option<Resolver>, tools: Listing, defs: Definitions, name: string, r: Record, tool: string)
  {
    && r in LookupTool(tools, tool) && name != "" && name == PublishedName(ns, tools, r, tool)
    && Available(defs, name, r, tool)
  }

  ghost predicate ForSomeServer(ns: Option<Resolver>, tools: Listing, defs: Definitions, tool: string, name: string) {
    exists r :: PublishedFor(ns, tools, defs, name, r, tool)
  }

  ghost predicate PublishedBySomeone(
      ns: Option<Resolver>, tools: Listing, defs: Definitions, order: seq<string>, name: string)
  {
    exists i :: 0 <= i < |order| && ForSomeServer(ns, tools, defs, order[i], name)
  }

  predicate NoRepeats(names: seq<string>) {
    forall i, j | 0 <= i < j < |names| :: names[i] != names[j]
  }

  /** The names of the first n candidates. */
  ghost predicate ByFirst(ns: Option<Resolver>, tools: Listing, defs: Definitions, tool: string, n: nat, name: string)
    requires n <= |LookupTool(tools, tool)|
  {
    exists i :: 0 <= i < n && PublishedFor(ns, tools, defs, name, LookupTool(tools, tool)[i], tool)
  }

  lemma ByFirstStep(ns: Option<Resolver>, tools: Listing, defs: Definitions, tool: string, i: nat, name: string)
    requires i < |LookupTool(tools, tool)|
    ensures ByFirst(ns, tools, defs, tool, i + 1, name) <==>
            || ByFirst(ns, tools, defs, tool, i, name)
            || PublishedFor(ns, tools, defs, name, LookupTool(tools, tool)[i], tool)
  {
    hide PublishedFor, LookupTool;
  }

  lemma ByAll(ns: Option<Resolver>, tools: Listing, defs: Definitions, tool: string, name: string)
    ensures ByFirst(ns, tools, defs, tool, |LookupTool(tools, tool)|, name) <==>
            ForSomeServer(ns, tools, defs, tool, name)
  {
    if r :| PublishedFor(ns, tools, defs, name, r, tool) {
      var i :| 0 <= i < |LookupTool(tools, tool)| && LookupTool(tools, tool)[i] == r;
    }
  }

  /** One tool's backends, appended to what has been published so far. */
  method AggregateTool(ns: Option<Resolver>, tools: Listing, tool: string, published: seq<string>,
                       defs: Definitions, cached: set<string>)
    returns (out: seq<string>, cached': set<string>)
    requires NoRepeats(published)
    requires defs.cached <= cached && forall name | name in cached :: name in defs.cached || name in published
    ensures NoRepeats(out)
    ensures forall name :: name in out <==> name in published || ForSomeServer(ns, tools, defs, tool, name)
    ensures cached <= cached' && forall name | name in cached' :: name in defs.cached || name in out
  {
    out, cached' := published, cached;
    var candidates := LookupTool(tools, tool);
    for i := 0 to |candidates|
      invariant NoRepeats(out)
      invariant forall name :: name in out <==> name in published || ByFirst(ns, tools, defs, tool, i, name)
      invariant cached <= cached' && forall name | name in cached' :: name in defs.cached || name in out
    {
      var backend := candidates[i];
      forall name ensures ByFirst(ns, tools, defs, tool, i + 1, name) <==>
                          || ByFirst(ns, tools, defs, tool, i, name)
                          || PublishedFor(ns, tools, defs, name, backend, tool)
      {
        ByFirstStep(ns, tools, defs, tool, i, name);
      }
      assert backend in candidates;
      hide PublishedName, ByFirst, LookupTool;
      var name := PublishedName(ns, tools, backend, tool);
      if name == "" || name in out {
        continue;
      }
      if name in cached' {
        out := out + [name];
        continue;
      }
      if tool !in defs.offered(backend.id) {
        continue;
      }
      cached' := cached' + {name};
      out := out + [name];
    }
    forall name ensures ByFirst(ns, tools, defs, tool, |candidates|, name) <==>
                        ForSomeServer(ns, tools, defs, tool, name)
    {
      ByAll(ns, tools, defs, tool, name);
    }
  }

  /** Tool listing publishes, once each, exactly the names that stand for a listed
      server and tool and whose definition is cached or offered by that server. */
  method ListTools(ns: Option<Resolver>, tools: Listing, order: seq<string>, defs: Definitions)
    returns (published: seq<string>, cached: set<string>)
    ensures NoRepeats(published)
    ensures forall name :: name in published <==> PublishedBySomeone(ns, tools, defs, order, name)
    ensures defs.cached <= cached && forall name | name in cached :: name in defs.cached || name in published
  {
    published, cached := [], defs.cached;
    for i := 0 to |order|
      invariant NoRepeats(published)
      invariant forall name :: name in published <==> PublishedBySomeone(ns, tools, defs, order[..i], name)
      invariant defs.cached <= cached && forall name | name in cached :: name in defs.cached || name in published
    {
      forall name ensures PublishedBySomeone(ns, tools, defs, order[..i + 1], name) <==>
                          || PublishedBySomeone(ns, tools, defs, order[..i], name)
                          || ForSomeServer(ns, tools, defs, order[i], name)
      {
        SomeoneSnoc(ns, tools, defs, order, i, name);
      }
      hide PublishedBySomeone, ForSomeServer;
      published, cached := AggregateTool(ns, tools, order[i], published, defs, cached);
    }
    assert order[..|order|] == order;
  }

  lemma SomeoneSnoc(ns: Option<Resolver>, tools: Listing, defs: Definitions, order: seq<string>, i: nat, name: string)
    requires i < |order|
    ensures PublishedBySomeone(ns, tools, defs, order[..i + 1], name) <==>
            PublishedBySomeone(ns, tools, defs, order[..i], name) || ForSomeServer(ns, tools, defs, order[i], name)
  {
    hide ForSomeServer;
    var longer := order[..i + 1];
    assert longer[i] == order[i] && forall j | 0 <= j < i :: longer[j] == order[..i][j];
  }

  /** A name that no earlier listing cached is published only for a listed server that
      offers the tool now. */
  lemma ListedNeedsADefinition(
      ns: Option<Resolver>, tools: Listing, defs: Definitions, order: seq<string>, name: string)
    requires PublishedBySomeone(ns, tools, defs, order, name) && name !in defs.cached
    ensures exists tool, r :: tool in order && r in LookupTool(tools, tool) && tool in defs.offered(r.id)
                              && name == PublishedName(ns, tools, r, tool)
  {
    var i :| 0 <= i < |order| && ForSomeServer(ns, tools, defs, order[i], name);
    var r :| PublishedFor(ns, tools, defs, name, r, order[i]);
    assert order[i] in order;
  }

  /** Everything a listing publishes can be called. */
  lemma ListedNamesReach(
      ns: Option<Resolver>, tools: Listing, live: Live, defs: Definitions, order: seq<string>, name: string)
    requires Agrees(tools, live, Tools)
    requires forall r | Lives(live, r) :: WellNamed(ns, r)
    requires forall i | 0 <= i < |order| :: Trim(order[i]) == order[i]
    requires PublishedBySomeone(ns, tools, defs, order, name)
    ensures Reaches(ns, tools, live, name)
  {
    var i :| 0 <= i < |order| && ForSomeServer(ns, tools, defs, order[i], name);
    var r :| PublishedFor(ns, tools, defs, name, r, order[i]);
    ListedTight(tools, live, r, order[i]);
    PublishedNameResolves(ns, tools, live, r, order[i]);
  }
}
