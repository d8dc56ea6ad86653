/**
 * The dashboard's widget registry: a map from module id to configuration
 * that remembers insertion order, the sorted and filtered views of it, and
 * the registering decorator.
 */
module ModuleLoader {
  import opened Wrappers
  import opened Seqs
  import opened Sorting

  datatype Position = Main | Sidebar

  /** A React component, known here only by name; the registry never looks inside it. */
  datatype Component = Component(name: string)

  datatype ModuleConfig = ModuleConfig(id: string, name: string, component: Component, position: Position, order: int)

  /** `Omit<ModuleConfig, 'component'>`: what a widget file passes to the decorator. */
  datatype ModuleSpec = ModuleSpec(id: string, name: string, position: Position, order: int)

  /** Where the id sits in the registry's insertion order. */
  function IndexOfModule(entries: seq<ModuleConfig>, id: string): (r: Option<nat>)
    ensures r.Some? ==> r.value < |entries| && entries[r.value].id == id
    ensures r.None? ==> forall i :: 0 <= i < |entries| ==> entries[i].id != id
  {
    if entries == [] then None
    else if entries[0].id == id then Some(0)
    else match IndexOfModule(entries[1..], id)
      case None => None
      case Some(k) => Some(k + 1)
  }

  /** `Map.set`: an existing key keeps its place and takes the new value; a new key goes last. */
  function Registered(entries: seq<ModuleConfig>, config: ModuleConfig): seq<ModuleConfig> {
    match IndexOfModule(entries, config.id)
    case None => entries + [config]
    case Some(i) => entries[i := config]
  }

  /** `Map.get`. */
  function Lookup(entries: seq<ModuleConfig>, id: string): Option<ModuleConfig> {
    match IndexOfModule(entries, id)
    case None => None
    case Some(i) => Some(entries[i])
  }

  /** A map has each key once. */
  ghost predicate DistinctIds(entries: seq<ModuleConfig>) {
    forall i, j :: 0 <= i < j < |entries| ==> entries[i].id != entries[j].id
  }

  function OrderKey(m: ModuleConfig): Key {
    Key(m.order, 0)
  }

  /** `getAllModules`: the values in insertion order, stably sorted by `order`. */
  function AllModules(entries: seq<ModuleConfig>): seq<ModuleConfig> {
    SortByKey(entries, OrderKey)
  }

  function AtPosition(ms: seq<ModuleConfig>, p: Position): seq<ModuleConfig> {
    Filter(ms, (m: ModuleConfig) => m.position == p)
  }

  /** `getModulesByPosition`. */
  function ModulesAt(entries: seq<ModuleConfig>, p: Position): seq<ModuleConfig> {
    AtPosition(AllModules(entries), p)
  }

  /**
   * Registering an id already present replaces its configuration in place
   * and keeps the size; a new id adds one entry. Either way the id now
   * looks up the new configuration, every other id looks up what it did,
   * and the ids stay distinct.
   */
  lemma RegisterEffect(entries: seq<ModuleConfig>, config: ModuleConfig)
    requires DistinctIds(entries)
    ensures var after := Registered(entries, config);
            && |after| == (if IndexOfModule(entries, config.id).Some? then |entries| else |entries| + 1)
            && Lookup(after, config.id) == Some(config)
            && (forall id :: id != config.id ==> Lookup(after, id) == Lookup(entries, id))
            && DistinctIds(after)
  {
    var after := Registered(entries, config);
    forall id | id != config.id ensures Lookup(after, id) == Lookup(entries, id) {
      LookupAfterRegister(entries, config, id);
    }
    LookupAfterRegister(entries, config, config.id);
  }

  lemma LookupAfterRegister(entries: seq<ModuleConfig>, config: ModuleConfig, id: string)
    requires DistinctIds(entries)
    ensures DistinctIds(Registered(entries, config))
    ensures Lookup(Registered(entries, config), id) == if id == config.id then Some(config) else Lookup(entries, id)
  {
    var after := Registered(entries, config);
    match IndexOfModule(entries, config.id)
    case None =>
      assert forall i :: 0 <= i < |entries| ==> after[i] == entries[i];
      assert DistinctIds(after);
      UniqueIndex(after, id);
      UniqueIndex(entries, id);
      if id == config.id {
        assert after[|entries|].id == id;
      } else if IndexOfModule(after, id).Some? {
        assert entries[IndexOfModule(after, id).value].id == id;
      }
    case Some(k) =>
      UniqueIndex(after, id);
      UniqueIndex(entries, id);
      if id != config.id && IndexOfModule(after, id).Some? {
        assert entries[IndexOfModule(after, id).value].id == id;
      }
  }

  /** With distinct ids, the only index of an id is the one found. */
  lemma UniqueIndex(entries: seq<ModuleConfig>, id: string)
    requires DistinctIds(entries)
    ensures forall i :: 0 <= i < |entries| && entries[i].id == id ==> IndexOfModule(entries, id) == Some(i)
  {
  }

  /**
   * `getAllModules` is a rearrangement of the registry, in ascending
   * `order`, and modules of equal `order` keep their registration order.
   */
  lemma AllModulesIsStableSort(entries: seq<ModuleConfig>, o: int)
    ensures multiset(AllModules(entries)) == multiset(entries)
    ensures forall i, j :: 0 <= i < j < |AllModules(entries)| ==> AllModules(entries)[i].order <= AllModules(entries)[j].order
    ensures WithKey(AllModules(entries), OrderKey, Key(o, 0)) == WithKey(entries, OrderKey, Key(o, 0))
  {
    SortIsStable(entries, OrderKey, Key(o, 0));
  }

  /** `getModulesByPosition(p)` holds exactly the registered modules at `p`, in ascending `order`. */
  lemma ModulesAtIsSortedSelection(entries: seq<ModuleConfig>, p: Position)
    ensures forall m :: m in ModulesAt(entries, p) <==> m in entries && m.position == p
    ensures forall i, j :: 0 <= i < j < |ModulesAt(entries, p)| ==> ModulesAt(entries, p)[i].order <= ModulesAt(entries, p)[j].order
  {
    ModulesAtSelects(entries, p);
    ModulesAtSorted(entries, p);
  }

  lemma ModulesAtSelects(entries: seq<ModuleConfig>, p: Position)
    ensures forall m :: m in ModulesAt(entries, p) <==> m in entries && m.position == p
  {
    var all := AllModules(entries);
    FilterMembers(all, (m: ModuleConfig) => m.position == p);
    assert forall m :: m in all <==> m in multiset(all);
  }

  lemma ModulesAtSorted(entries: seq<ModuleConfig>, p: Position)
    ensures forall i, j :: 0 <= i < j < |ModulesAt(entries, p)| ==> ModulesAt(entries, p)[i].order <= ModulesAt(entries, p)[j].order
  {
    var r := ModulesAt(entries, p);
    FilterKeepsSorted(AllModules(entries), (m: ModuleConfig) => m.position == p, OrderKey);
    forall i, j | 0 <= i < j < |r| ensures r[i].order <= r[j].order {
      assert KeyLe(OrderKey(r[i]), OrderKey(r[j]));
    }
  }

  /** The configuration the decorator registers. */
  function WithComponent(spec: ModuleSpec, c: Component): ModuleConfig {
    ModuleConfig(spec.id, spec.name, c, spec.position, spec.order)
  }

  /** The registry behind the module-level `Map`. */
  class Registry {
    var entries: seq<ModuleConfig>

    ghost predicate Valid()
      reads this
    {
      DistinctIds(entries)
    }

    constructor ()
      ensures entries == [] && Valid()
    {
      entries := [];
    }

    method RegisterModule(config: ModuleConfig)
      requires Valid()
      modifies this
      ensures entries == Registered(old(entries), config)
      ensures Valid()
    {
      RegisterEffect(entries, config);
      var i := IndexOfModule(entries, config.id);
      if i.None? {
        entries := entries + [config];
      } else {
        entries := entries[i.value := config];
      }
    }

    method GetAllModules() returns (ms: seq<ModuleConfig>)
      ensures ms == AllModules(entries)
    {
      ms := SortByKey(entries, OrderKey);
    }

    method GetModulesByPosition(p: Position) returns (ms: seq<ModuleConfig>)
      ensures ms == ModulesAt(entries, p)
    {
      var all := GetAllModules();
      ms := AtPosition(all, p);
    }

    method GetModule(id: string) returns (m: Option<ModuleConfig>)
      ensures m == Lookup(entries, id)
    {
      var i := IndexOfModule(entries, id);
      m := if i.Some? then Some(entries[i.value]) else None;
    }

    /** `Module(spec)(c)`: registers the spec with the component and hands the component back unchanged. */
    method Decorate(spec: ModuleSpec, c: Component) returns (r: Component)
      requires Valid()
      modifies this
      ensures r == c
      ensures entries == Registered(old(entries), WithComponent(spec, c))
      ensures Valid()
    {
      RegisterModule(WithComponent(spec, c));
      r := c;
    }
  }

  // ---- the dashboard's five widgets ----------------------------------------------

  const MemberStatsSpec := ModuleSpec("member-stats", "member statistics", Main, 1)
  const MemberTypeChartSpec := ModuleSpec("member-type-chart", "member type share", Main, 2)
  const MemberAnalyticsSpec := ModuleSpec("member-analytics", "member analytics", Main, 3)
  const WelcomePanelSpec := ModuleSpec("welcome-panel", "welcome panel", Sidebar, 1)
  const MessageSummarySpec := ModuleSpec("message-summary", "message summary", Sidebar, 2)

  function Ids(ms: seq<ModuleConfig>): seq<string> {
    seq(|ms|, i requires 0 <= i < |ms| => ms[i].id)
  }

  /** The registry after the widget files are imported in their listed order. */
  function Dashboard(c1: Component, c2: Component, c3: Component, c4: Component, c5: Component): seq<ModuleConfig> {
    Registered(Registered(Registered(Registered(Registered([],
      WithComponent(MemberStatsSpec, c1)), WithComponent(MemberTypeChartSpec, c2)),
      WithComponent(MemberAnalyticsSpec, c3)), WithComponent(WelcomePanelSpec, c4)),
      WithComponent(MessageSummarySpec, c5))
  }

  /** The registration order of the five widgets, rearranged by `order`. */
  lemma DashboardSorted(c1: Component, c2: Component, c3: Component, c4: Component, c5: Component)
    ensures AllModules(Dashboard(c1, c2, c3, c4, c5)) ==
      [WithComponent(MemberStatsSpec, c1), WithComponent(WelcomePanelSpec, c4), WithComponent(MemberTypeChartSpec, c2),
       WithComponent(MessageSummarySpec, c5), WithComponent(MemberAnalyticsSpec, c3)]
  {
    DashboardEntries(c1, c2, c3, c4, c5);
    SortFive(WithComponent(MemberStatsSpec, c1), WithComponent(MemberTypeChartSpec, c2), WithComponent(MemberAnalyticsSpec, c3),
             WithComponent(WelcomePanelSpec, c4), WithComponent(MessageSummarySpec, c5), OrderKey);
  }

  /** The main column shows the three member widgets in order. */
  lemma MainColumn(c1: Component, c2: Component, c3: Component, c4: Component, c5: Component)
    ensures Ids(ModulesAt(Dashboard(c1, c2, c3, c4, c5), Main)) == ["member-stats", "member-type-chart", "member-analytics"]
  {
    var m1, m2, m3 := WithComponent(MemberStatsSpec, c1), WithComponent(MemberTypeChartSpec, c2), WithComponent(MemberAnalyticsSpec, c3);
    var m4, m5 := WithComponent(WelcomePanelSpec, c4), WithComponent(MessageSummarySpec, c5);
    DashboardSorted(c1, c2, c3, c4, c5);
    assert ModulesAt(Dashboard(c1, c2, c3, c4, c5), Main) == [m1, m2, m3] by {
      FilterOddPlaces(m1, m4, m2, m5, m3, (m: ModuleConfig) => m.position == Main);
    }
    IdsOfThree(m1, m2, m3);
    assert m1.id == "member-stats" && m2.id == "member-type-chart" && m3.id == "member-analytics";
  }

  /** The sidebar shows the welcome panel and then the message summary. */
  lemma SidebarColumn(c1: Component, c2: Component, c3: Component, c4: Component, c5: Component)
    ensures Ids(ModulesAt(Dashboard(c1, c2, c3, c4, c5), Sidebar)) == ["welcome-panel", "message-summary"]
  {
    var m1, m2, m3 := WithComponent(MemberStatsSpec, c1), WithComponent(MemberTypeChartSpec, c2), WithComponent(MemberAnalyticsSpec, c3);
    var m4, m5 := WithComponent(WelcomePanelSpec, c4), WithComponent(MessageSummarySpec, c5);
    DashboardSorted(c1, c2, c3, c4, c5);
    assert ModulesAt(Dashboard(c1, c2, c3, c4, c5), Sidebar) == [m4, m5] by {
      FilterEvenPlaces(m1, m4, m2, m5, m3, (m: ModuleConfig) => m.position == Sidebar);
    }
    IdsOfTwo(m4, m5);
    assert m4.id == "welcome-panel" && m5.id == "message-summary";
  }

  lemma IdsOfThree(a: ModuleConfig, b: ModuleConfig, c: ModuleConfig)
    ensures Ids([a, b, c]) == [a.id, b.id, c.id]
  {
  }

  lemma IdsOfTwo(a: ModuleConfig, b: ModuleConfig)
    ensures Ids([a, b]) == [a.id, b.id]
  {
  }

  // ---- helpers that unfold the sort and the filter on five concrete elements ----

  function Keep<T>(x: T, p: T -> bool): seq<T> { if p(x) then [x] else [] }

  lemma FilterOne<T(!new)>(e: T, p: T -> bool)
    ensures Filter([e], p) == Keep(e, p)
  {
    assert [e][1..] == [];
  }
  lemma FilterTwo<T(!new)>(d: T, e: T, p: T -> bool)
    ensures Filter([d, e], p) == Keep(d, p) + Keep(e, p)
  {
    assert [d, e][1..] == [e];
    FilterOne(e, p);
  }
  lemma FilterThree<T(!new)>(c: T, d: T, e: T, p: T -> bool)
    ensures Filter([c, d, e], p) == Keep(c, p) + Keep(d, p) + Keep(e, p)
  {
    Lit3(c, d, e);
    FilterTwo(d, e, p);
  }
  lemma FilterFour<T(!new)>(b: T, c: T, d: T, e: T, p: T -> bool)
    ensures Filter([b, c, d, e], p) == Keep(b, p) + Keep(c, p) + Keep(d, p) + Keep(e, p)
  {
    Lit4(b, c, d, e);
    FilterThree(c, d, e, p);
  }
  lemma FilterFive<T(!new)>(a: T, b: T, c: T, d: T, e: T, p: T -> bool)
    ensures Filter([a, b, c, d, e], p) == Keep(a, p) + Keep(b, p) + Keep(c, p) + Keep(d, p) + Keep(e, p)
  {
    Lit5(a, b, c, d, e);
    FilterFour(b, c, d, e, p);
  }

  lemma FilterOddPlaces<T(!new)>(a: T, b: T, c: T, d: T, e: T, p: T -> bool)
    requires p(a) && !p(b) && p(c) && !p(d) && p(e)
    ensures Filter([a, b, c, d, e], p) == [a, c, e]
  {
    FilterFive(a, b, c, d, e, p);
    assert Keep(a, p) == [a] && Keep(b, p) == [] && Keep(c, p) == [c] && Keep(d, p) == [] && Keep(e, p) == [e];
    Lit3(a, c, e);
    Lit2(c, e);
  }
  lemma FilterEvenPlaces<T(!new)>(a: T, b: T, c: T, d: T, e: T, p: T -> bool)
    requires !p(a) && p(b) && !p(c) && p(d) && !p(e)
    ensures Filter([a, b, c, d, e], p) == [b, d]
  {
    FilterFive(a, b, c, d, e, p);
    assert Keep(a, p) == [] && Keep(b, p) == [b] && Keep(c, p) == [] && Keep(d, p) == [d] && Keep(e, p) == [];
    Lit2(b, d);
  }
  lemma SortOne<T>(e: T, key: T -> Key)
    ensures SortByKey([e], key) == [e]
  {
    SortCons([e], key);
    assert [e][1..] == [];
    InsertFront(e, [], key);
  }
  lemma SortTwo<T>(d: T, e: T, key: T -> Key)
    requires KeyLe(key(d), key(e))
    ensures SortByKey([d, e], key) == [d, e]
  {
    SortCons([d, e], key);
    assert [d, e][1..] == [e];
    SortOne(e, key);
    InsertFront(d, [e], key);
  }
  lemma SortThree<T>(c: T, d: T, e: T, key: T -> Key)
    requires KeyLe(key(d), key(e)) && !KeyLe(key(c), key(d)) && !KeyLe(key(c), key(e))
    ensures SortByKey([c, d, e], key) == [d, e, c]
  {
    Lit3(c, d, e);
    Lit3(d, e, c);
    Lit2(d, e);
    Lit2(e, c);
    SortCons([c, d, e], key);
    SortTwo(d, e, key);
    InsertPast(c, [d, e], key);
    InsertPast(c, [e], key);
    InsertFront(c, [], key);
    assert [c] + [] == [c];
  }
  lemma Lit2<T>(a: T, b: T)
    ensures [a, b][1..] == [b] && [a, b][0] == a
    ensures [a] + [b] == [a, b]
  {
  }
  lemma Lit4<T>(a: T, b: T, c: T, d: T)
    ensures [a, b, c, d][1..] == [b, c, d] && [a, b, c, d][0] == a
    ensures [a] + [b, c, d] == [a, b, c, d]
  {
  }
  lemma Lit3<T>(a: T, b: T, c: T)
    ensures [a, b, c][1..] == [b, c] && [a, b, c][0] == a
    ensures [a] + [b, c] == [a, b, c]
  {
  }
  lemma SortFour<T>(b: T, c: T, d: T, e: T, key: T -> Key)
    requires KeyLe(key(d), key(e)) && !KeyLe(key(c), key(d)) && !KeyLe(key(c), key(e))
    requires !KeyLe(key(b), key(d)) && KeyLe(key(b), key(e))
    ensures SortByKey([b, c, d, e], key) == [d, b, e, c]
  {
    Lit4(b, c, d, e);
    Lit4(d, b, e, c);
    Lit3(d, e, c);
    Lit3(b, e, c);
    SortCons([b, c, d, e], key);
    SortThree(c, d, e, key);
    InsertPast(b, [d, e, c], key);
    InsertFront(b, [e, c], key);
  }
  lemma Lit5<T>(a: T, b: T, c: T, d: T, e: T)
    ensures [a, b, c, d, e][1..] == [b, c, d, e] && [a, b, c, d, e][0] == a
    ensures [a] + [b, c, d, e] == [a, b, c, d, e]
  {
  }
  lemma SortFive<T>(a: T, b: T, c: T, d: T, e: T, key: T -> Key)
    requires key(a) == Key(1, 0) && key(b) == Key(2, 0) && key(c) == Key(3, 0) && key(d) == Key(1, 0) && key(e) == Key(2, 0)
    ensures SortByKey([a, b, c, d, e], key) == [a, d, b, e, c]
  {
    Lit5(a, b, c, d, e);
    Lit5(a, d, b, e, c);
    SortCons([a, b, c, d, e], key);
    SortFour(b, c, d, e, key);
    InsertFront(a, [d, b, e, c], key);
  }

  /** Registering an id not yet present appends. */
  lemma RegisterFresh(entries: seq<ModuleConfig>, config: ModuleConfig)
    requires forall i :: 0 <= i < |entries| ==> entries[i].id != config.id
    ensures Registered(entries, config) == entries + [config]
  {
  }

  lemma DashboardEntries(c1: Component, c2: Component, c3: Component, c4: Component, c5: Component)
    ensures Dashboard(c1, c2, c3, c4, c5) ==
      [WithComponent(MemberStatsSpec, c1), WithComponent(MemberTypeChartSpec, c2), WithComponent(MemberAnalyticsSpec, c3),
       WithComponent(WelcomePanelSpec, c4), WithComponent(MessageSummarySpec, c5)]
  {
    var m1, m2, m3 := WithComponent(MemberStatsSpec, c1), WithComponent(MemberTypeChartSpec, c2), WithComponent(MemberAnalyticsSpec, c3);
    var m4, m5 := WithComponent(WelcomePanelSpec, c4), WithComponent(MessageSummarySpec, c5);
    RegisterFresh([], m1);
    assert m1.id[7] != m2.id[7];
    RegisterFresh([m1], m2);
    assert m1.id[7] != m3.id[7] && m2.id[7] != m3.id[7];
    RegisterFresh([m1, m2], m3);
    assert m1.id[0] != m4.id[0] && m2.id[0] != m4.id[0] && m3.id[0] != m4.id[0];
    RegisterFresh([m1, m2, m3], m4);
    assert m1.id[2] != m5.id[2] && m2.id[2] != m5.id[2] && m3.id[2] != m5.id[2] && m4.id[0] != m5.id[0];
    RegisterFresh([m1, m2, m3, m4], m5);
  }
}
