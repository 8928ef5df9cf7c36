/**
 * The dashboard page: its connection-status state machine driven by bridge
 * envelopes, the group construction from a categorisation result, and the
 * derived lists of filtered and ungrouped tabs.
 */
module Dashboard {

  import opened Wrappers
  import opened Strings
  import opened Types
  import opened Messages
  import Seqs

  datatype ConnectionStatus = Disconnected | Connecting | Connected

  // ---------------------------------------------------------------- derived lists

  /** The search test: the lower-cased title or URL includes the lower-cased term. */
  predicate MatchesSearch(searchTerm: string, t: Tab)
  {
    var needle := ToLower(searchTerm);
    Contains(ToLower(t.title), needle) || Contains(ToLower(t.url), needle)
  }

  function SearchFilter(searchTerm: string): Tab -> bool
  {
    (t: Tab) => MatchesSearch(searchTerm, t)
  }

  /** `filteredTabs`: the tabs that match the search term, in their order. */
  function FilteredTabs(tabs: seq<Tab>, searchTerm: string): (r: seq<Tab>)
    ensures Seqs.IsSubsequence(r, tabs)
    ensures forall t :: t in r ==> t in tabs && MatchesSearch(searchTerm, t)
    ensures forall i :: 0 <= i < |tabs| && MatchesSearch(searchTerm, tabs[i]) ==> tabs[i] in r
    ensures forall t :: multiset(r)[t] == if MatchesSearch(searchTerm, t) then multiset(tabs)[t] else 0
  {
    var r := Seqs.Filter(tabs, SearchFilter(searchTerm));
    forall t ensures multiset(r)[t] == if MatchesSearch(searchTerm, t) then multiset(tabs)[t] else 0 {
      Seqs.FilterMultiset(tabs, SearchFilter(searchTerm), t);
    }
    r
  }

  /** An empty search term keeps every tab, in order. */
  lemma EmptySearchKeepsAll(tabs: seq<Tab>)
    ensures FilteredTabs(tabs, "") == tabs
  {
    forall i | 0 <= i < |tabs| ensures SearchFilter("")(tabs[i]) {
      var title := ToLower(tabs[i].title);
      assert [] <= title[0..];
    }
    Seqs.FilterAll(tabs, SearchFilter(""));
  }

  /** The search ignores the case of the term's ASCII letters. */
  lemma SearchIgnoresTermCase(tabs: seq<Tab>, searchTerm: string)
    ensures FilteredTabs(tabs, searchTerm) == FilteredTabs(tabs, ToLower(searchTerm))
  {
    ToLowerIdempotent(searchTerm);
    Seqs.FilterCongruent(tabs, SearchFilter(searchTerm), SearchFilter(ToLower(searchTerm)));
  }

  /** `groupedTabIds`: the set of every id listed in some group. */
  function GroupedTabIds(groups: seq<TabGroup>): (ids: set<string>)
    ensures forall i, j :: 0 <= i < |groups| && 0 <= j < |groups[i].tabIds| ==> groups[i].tabIds[j] in ids
    ensures forall id :: id in ids ==> exists i :: 0 <= i < |groups| && id in groups[i].tabIds
  {
    if groups == [] then {}
    else
      var rest := GroupedTabIds(groups[1..]);
      assert forall id :: id in rest ==> exists i :: 1 <= i < |groups| && id in groups[i].tabIds;
      (set id | id in groups[0].tabIds) + rest
  }

  function NotGrouped(ids: set<string>): Tab -> bool
  {
    (t: Tab) => t.id !in ids
  }

  /** `ungroupedTabs`: the filtered tabs whose id is in no group, in their order. */
  function UngroupedTabs(filtered: seq<Tab>, groups: seq<TabGroup>): (r: seq<Tab>)
    ensures Seqs.IsSubsequence(r, filtered)
    ensures forall t :: t in r ==> t in filtered && forall i :: 0 <= i < |groups| ==> t.id !in groups[i].tabIds
    ensures forall k :: 0 <= k < |filtered| && (forall i :: 0 <= i < |groups| ==> filtered[k].id !in groups[i].tabIds)
                        ==> filtered[k] in r
    ensures forall t :: multiset(r)[t] == if t.id !in GroupedTabIds(groups) then multiset(filtered)[t] else 0
  {
    var ids := GroupedTabIds(groups);
    forall id: string, i | 0 <= i < |groups| && id in groups[i].tabIds ensures id in ids {
      var j :| 0 <= j < |groups[i].tabIds| && groups[i].tabIds[j] == id;
    }
    var r := Seqs.Filter(filtered, NotGrouped(ids));
    forall t ensures multiset(r)[t] == if t.id !in ids then multiset(filtered)[t] else 0 {
      Seqs.FilterMultiset(filtered, NotGrouped(ids), t);
    }
    r
  }

  /** With no groups, every filtered tab is ungrouped. */
  lemma NoGroupsLeavesAllUngrouped(filtered: seq<Tab>)
    ensures UngroupedTabs(filtered, []) == filtered
  {
    Seqs.FilterAll(filtered, NotGrouped(GroupedTabIds([])));
  }

  // ---------------------------------------------------------------- group construction

  /** `tabIndices.map(index => tabs[index].id)`: `None` where the source throws on an index out of range. */
  function ResolveIndices(tabs: seq<Tab>, indices: seq<int>): (ids: Option<seq<string>>)
    ensures ids.Some? <==> forall j :: 0 <= j < |indices| ==> 0 <= indices[j] < |tabs|
    ensures ids.Some? ==> |ids.value| == |indices|
                          && forall j :: 0 <= j < |indices| ==> ids.value[j] == tabs[indices[j]].id
  {
    if indices == [] then Some([])
    else if !(0 <= indices[0] < |tabs|) then None
    else
      match ResolveIndices(tabs, indices[1..])
      case None => None
      case Some(rest) => Some([tabs[indices[0]].id] + rest)
  }

  /** `group-${idx}-${now}`. */
  function GroupId(index: nat, now: nat): string
  {
    "group-" + NatToString(index) + "-" + NatToString(now)
  }

  /** `g.color || COLORS[idx % COLORS.length]`. */
  function GroupColor(color: string, index: nat): (c: string)
    ensures c != []
    ensures color != [] ==> c == color
    ensures color == [] ==> c == Colors[index % |Colors|] && c in Colors
  {
    if color != [] then color else Colors[index % |Colors|]
  }

  /** Group `g` is what proposal `p`, at position `index` of the result, becomes. */
  predicate BuiltFrom(g: TabGroup, p: GroupProposal, index: nat, tabs: seq<Tab>, now: nat)
  {
    && g.id == GroupId(index, now)
    && g.name == p.name && g.description == p.description
    && g.color == GroupColor(p.color, index)
    && |g.tabIds| == |p.tabIndices|
    && forall j :: 0 <= j < |p.tabIndices| ==> 0 <= p.tabIndices[j] < |tabs| && g.tabIds[j] == tabs[p.tabIndices[j]].id
  }

  /** All indices of all proposals point into the submitted tab list. */
  predicate IndicesInRange(proposals: seq<GroupProposal>, tabs: seq<Tab>)
  {
    forall i, j :: 0 <= i < |proposals| && 0 <= j < |proposals[i].tabIndices| ==> 0 <= proposals[i].tabIndices[j] < |tabs|
  }

  /** Builds the groups for `proposals`, the first of which sits at position `offset` of the result. */
  function BuildFrom(proposals: seq<GroupProposal>, offset: nat, tabs: seq<Tab>, now: nat): (built: Option<seq<TabGroup>>)
    ensures built.Some? <==> IndicesInRange(proposals, tabs)
    ensures built.Some? ==> |built.value| == |proposals|
                            && forall i :: 0 <= i < |proposals| ==> BuiltFrom(built.value[i], proposals[i], offset + i, tabs, now)
  {
    if proposals == [] then Some([])
    else
      var p := proposals[0];
      match ResolveIndices(tabs, p.tabIndices)
      case None => None
      case Some(ids) =>
        match BuildFrom(proposals[1..], offset + 1, tabs, now)
        case None => None
        case Some(rest) =>
          Some([TabGroup(GroupId(offset, now), p.name, p.description, GroupColor(p.color, offset), ids)] + rest)
  }

  /**
   * `result.groups.map(...)` in `handleOrganize`: one group per proposal, in order,
   * with the proposal's name and description, its colour or the palette's, and
   * the ids of the tabs at its indices; `None` when any index is out of range.
   */
  function BuildGroups(result: AIResult, tabs: seq<Tab>, now: nat): (built: Option<seq<TabGroup>>)
    ensures built.Some? <==> IndicesInRange(result.groups, tabs)
    ensures built.Some? ==> |built.value| == |result.groups|
                            && forall i :: 0 <= i < |result.groups| ==> BuiltFrom(built.value[i], result.groups[i], i, tabs, now)
  {
    BuildFrom(result.groups, 0, tabs, now)
  }

  /** `tabs.find(t => t.id === tabId)`: the first tab with that id. */
  function FindTab(tabs: seq<Tab>, id: string): (r: Option<Tab>)
    ensures r.Some? ==> r.value in tabs && r.value.id == id
    ensures r.None? ==> forall t :: t in tabs ==> t.id != id
    ensures r.Some? ==> exists k :: 0 <= k < |tabs| && tabs[k] == r.value && forall m :: 0 <= m < k ==> tabs[m].id != id
  {
    if tabs == [] then None
    else if tabs[0].id == id then Some(tabs[0])
    else
      var r := FindTab(tabs[1..], id);
      if r.Some? then
        var k :| 0 <= k < |tabs| - 1 && tabs[1..][k] == r.value && forall m :: 0 <= m < k ==> tabs[1..][m].id != id;
        assert tabs[k + 1] == r.value && forall m :: 0 <= m < k + 1 ==> tabs[m].id != id;
        r
      else r
  }

  predicate UniqueIds(tabs: seq<Tab>)
  {
    forall a, b :: 0 <= a < |tabs| && 0 <= b < |tabs| && tabs[a].id == tabs[b].id ==> a == b
  }

  lemma {:induction false} FindTabAt(tabs: seq<Tab>, k: nat)
    requires UniqueIds(tabs) && k < |tabs|
    ensures FindTab(tabs, tabs[k].id) == Some(tabs[k])
  {
    if k > 0 {
      assert tabs[0].id != tabs[k].id;
      assert UniqueIds(tabs[1..]) by {
        forall a, b | 0 <= a < |tabs| - 1 && 0 <= b < |tabs| - 1 && tabs[1..][a].id == tabs[1..][b].id
          ensures a == b
        {
          assert tabs[a + 1].id == tabs[b + 1].id;
        }
      }
      FindTabAt(tabs[1..], k - 1);
    }
  }

  /**
   * Resolving each id of a built group back against the same tab list (with
   * distinct ids) recovers exactly the tabs at the proposal's indices, in order.
   */
  lemma GroupIdsResolveBack(result: AIResult, tabs: seq<Tab>, now: nat, i: nat, j: nat)
    requires UniqueIds(tabs)
    requires BuildGroups(result, tabs, now).Some?
    requires i < |result.groups| && j < |result.groups[i].tabIndices|
    ensures FindTab(tabs, BuildGroups(result, tabs, now).value[i].tabIds[j]) == Some(tabs[result.groups[i].tabIndices[j]])
  {
    var g := BuildGroups(result, tabs, now).value[i];
    assert BuiltFrom(g, result.groups[i], i, tabs, now);
    FindTabAt(tabs, result.groups[i].tabIndices[j]);
  }

  /** Indices `[0, 2]` over tabs with ids "1", "2", "3" give the group ids `["1", "3"]`. */
  lemma DevGroupExample(t1: Tab, t2: Tab, t3: Tab, now: nat)
    requires t1.id == "1" && t2.id == "2" && t3.id == "3"
    ensures BuildGroups(AIResult([GroupProposal("Dev", "d", "#111", [0, 2])]), [t1, t2, t3], now)
            == Some([TabGroup(GroupId(0, now), "Dev", "d", "#111", ["1", "3"])])
  {
    var tabs := [t1, t2, t3];
    var p := GroupProposal("Dev", "d", "#111", [0, 2]);
    var built := BuildGroups(AIResult([p]), tabs, now);
    assert IndicesInRange([p], tabs);
    assert |built.value| == 1 && BuiltFrom(built.value[0], p, 0, tabs, now);
    var g := built.value[0];
    assert g.tabIds[0] == "1" && g.tabIds[1] == "3";
    assert g.tabIds == ["1", "3"];
    assert g == TabGroup(GroupId(0, now), "Dev", "d", "#111", ["1", "3"]);
    assert built.value == [g];
  }

  // ---------------------------------------------------------------- the page component

  /**
   * The page's state: the tab snapshot, the built groups, the organising flag,
   * the search term, the connection status, and every envelope the page has
   * posted to its window so far.
   */
  class App {
    var tabs: seq<Tab>
    var groups: seq<TabGroup>
    var isOrganizing: bool
    var searchTerm: string
    var connectionStatus: ConnectionStatus
    var posted: seq<Envelope>

    /** The page tags everything it posts as coming from the page. */
    ghost predicate Valid()
      reads this
    {
      forall e :: e in posted ==> e.source == PageTag
    }

    constructor ()
      ensures Valid()
      ensures tabs == [] && groups == [] && !isOrganizing && searchTerm == []
      ensures connectionStatus == Disconnected && posted == []
    {
      tabs, groups, isOrganizing, searchTerm := [], [], false, [];
      connectionStatus, posted := Disconnected, [];
    }

    /**
     * `handleMessage`: envelopes not tagged by the extension are ignored;
     * `TABS_UPDATE` replaces the tabs and marks the bridge connected; `PONG`
     * marks it connected and asks for the full tab list.
     */
    method HandleMessage(e: Envelope)
      requires Valid()
      modifies this
      ensures Valid()
      ensures groups == old(groups) && isOrganizing == old(isOrganizing) && searchTerm == old(searchTerm)
      ensures e.source != ExtensionTag ==>
                tabs == old(tabs) && connectionStatus == old(connectionStatus) && posted == old(posted)
      ensures e.source == ExtensionTag && e.action == "TABS_UPDATE" ==>
                && connectionStatus == Connected && posted == old(posted)
                && tabs == (if e.data.TabList? then e.data.tabs else old(tabs))
      ensures e.source == ExtensionTag && e.action == "PONG" ==>
                && connectionStatus == Connected && tabs == old(tabs)
                && posted == old(posted) + [Envelope(PageTag, "GET_TABS", NoData)]
      ensures e.source == ExtensionTag && e.action != "TABS_UPDATE" && e.action != "PONG" ==>
                tabs == old(tabs) && connectionStatus == old(connectionStatus) && posted == old(posted)
      ensures old(connectionStatus) == Connected ==> connectionStatus == Connected
      ensures connectionStatus == Disconnected ==> old(connectionStatus) == Disconnected
    {
      if e.source != ExtensionTag {
        return;
      }
      if e.action == "TABS_UPDATE" {
        if e.data.TabList? {
          tabs := e.data.tabs;
        }
        connectionStatus := Connected;
      } else if e.action == "PONG" {
        connectionStatus := Connected;
        posted := posted + [Envelope(PageTag, "GET_TABS", NoData)];
      }
    }

    /** The heartbeat tick: post a `PING` to the window. */
    method Heartbeat()
      requires Valid()
      modifies this`posted
      ensures Valid()
      ensures posted == old(posted) + [Envelope(PageTag, "PING", NoData)]
    {
      posted := posted + [Envelope(PageTag, "PING", NoData)];
    }

    /** `requestTabs`: mark the bridge connecting and ask for the tab list. */
    method RequestTabs()
      requires Valid()
      modifies this`connectionStatus, this`posted
      ensures Valid()
      ensures connectionStatus == Connecting
      ensures posted == old(posted) + [Envelope(PageTag, "GET_TABS", NoData)]
    {
      connectionStatus := Connecting;
      posted := posted + [Envelope(PageTag, "GET_TABS", NoData)];
    }

    /** The search box's `onChange`. */
    method SetSearchTerm(term: string)
      modifies this`searchTerm
      ensures searchTerm == term
    {
      searchTerm := term;
    }

    /**
     * `handleOrganize`, with the awaited categorisation result as `categorized`
     * (`None` for `null`) and `now` for `Date.now()`. Nothing happens without
     * tabs. Otherwise, when the result is present and every index is in range,
     * the built groups are stored and posted once as `APPLY_GROUPS`; a null
     * result or an out-of-range index leaves groups and messages alone. The
     * organising flag is off again at the end in every case.
     */
    method HandleOrganize(categorized: Option<AIResult>, now: nat)
      requires Valid()
      modifies this`groups, this`isOrganizing, this`posted
      ensures Valid()
      ensures old(tabs) == [] ==> groups == old(groups) && isOrganizing == old(isOrganizing) && posted == old(posted)
      ensures old(tabs) != [] ==> !isOrganizing
      ensures old(tabs) != [] && categorized.Some? && BuildGroups(categorized.value, tabs, now).Some? ==>
                && groups == BuildGroups(categorized.value, tabs, now).value
                && posted == old(posted) + [Envelope(PageTag, "APPLY_GROUPS", GroupList(groups))]
      ensures categorized.None? || BuildGroups(categorized.value, tabs, now).None? ==>
                groups == old(groups) && posted == old(posted)
    {
      if |tabs| == 0 {
        return;
      }
      isOrganizing := true;
      if categorized.Some? {
        var built := BuildGroups(categorized.value, tabs, now);
        if built.Some? {
          groups := built.value;
          posted := posted + [Envelope(PageTag, "APPLY_GROUPS", GroupList(groups))];
        }
      }
      isOrganizing := false;
    }

    /**
     * The header button: disabled while organising; otherwise it organises when
     * connected and requests the tabs when not. A click never leaves the
     * `connected` state, and after an enabled click the bridge is not `disconnected`.
     */
    method Click(categorized: Option<AIResult>, now: nat)
      requires Valid()
      modifies this`connectionStatus, this`groups, this`isOrganizing, this`posted
      ensures Valid()
      ensures old(isOrganizing) ==>
                && connectionStatus == old(connectionStatus) && groups == old(groups) && posted == old(posted)
                && isOrganizing == old(isOrganizing)
      ensures old(connectionStatus) == Connected ==> connectionStatus == Connected
      ensures !old(isOrganizing) ==> connectionStatus != Disconnected
      ensures !old(isOrganizing) && old(connectionStatus) != Connected ==>
                && connectionStatus == Connecting && posted == old(posted) + [Envelope(PageTag, "GET_TABS", NoData)]
                && groups == old(groups) && isOrganizing == old(isOrganizing)
      ensures !old(isOrganizing) && old(connectionStatus) == Connected && tabs == [] ==>
                groups == old(groups) && isOrganizing == old(isOrganizing) && posted == old(posted)
      ensures !old(isOrganizing) && old(connectionStatus) == Connected && tabs != [] ==>
                && !isOrganizing
                && (categorized.Some? && BuildGroups(categorized.value, tabs, now).Some? ==>
                      && groups == BuildGroups(categorized.value, tabs, now).value
                      && posted == old(posted) + [Envelope(PageTag, "APPLY_GROUPS", GroupList(groups))])
                && (categorized.None? || BuildGroups(categorized.value, tabs, now).None? ==>
                      groups == old(groups) && posted == old(posted))
    {
      if isOrganizing {
        return;
      }
      if connectionStatus == Connected {
        HandleOrganize(categorized, now);
      } else {
        RequestTabs();
      }
    }
  }
}
