/**
 The server's dispatch tables, the handlers built over them, and the errors they let out.
 */
module Servers {
  import opened Errors
  import opened Contracts
  import opened Sorting
  import opened Catalogs

  /**
   A configured source, or nil. The serial tells sources apart as interface values are, and `target` is
   what its `Target` method describes.
   */
  datatype Source = Nil | Source(serial: nat, target: TargetInfo)

  datatype SourceSet = SourceSet(kubernetes: seq<Source>, monitoring: seq<Source>, flux: seq<Source>)

  /** `Target`: a new descriptor for every call. */
  method TargetOf(source: Source) returns (t: Target)
    requires source.Source?
    ensures fresh(t.capabilities) && Describe(t) == source.target
  {
    var capabilities := source.target.capabilities;
    var a := new Capability[|capabilities|](i requires 0 <= i < |capabilities| => capabilities[i]);
    t := Target(source.target.id, source.target.kind, a);
    assert a[..] == capabilities;
  }

  // ------------------------------------------------------------ specification

  predicate AllOfKind(sources: seq<Source>, kind: TargetKind) {
    forall s | s in sources :: s.Source? && s.target.kind == kind
  }

  function TargetsOf(sources: seq<Source>): (infos: seq<TargetInfo>)
    requires forall s | s in sources :: s.Source?
    ensures |infos| == |sources| && forall i | 0 <= i < |sources| :: infos[i] == sources[i].target
  {
    seq(|sources|, i requires 0 <= i < |sources| => sources[i].target)
  }

  predicate RightKinds(configured: SourceSet) {
    && AllOfKind(configured.kubernetes, KubernetesKind)
    && AllOfKind(configured.monitoring, MonitoringKind)
    && AllOfKind(configured.flux, FluxKind)
  }

  function AllSources(configured: SourceSet): seq<Source> {
    configured.kubernetes + configured.monitoring + configured.flux
  }

  /** The sets `NewWithSourceSet` accepts. */
  ghost predicate AcceptedSources(configured: SourceSet) {
    RightKinds(configured) && AcceptedTargets(TargetsOf(AllSources(configured)))
  }

  /** Whether a source goes into the table of a capability; the Flux table takes every source. */
  predicate Goes(s: Source, wanted: Option<Capability>) {
    s.Source? && (wanted.None? || wanted.value in s.target.capabilities)
  }

  /** The table after the loop: for each identifier, the last source that went into it. */
  function Table(sources: seq<Source>, wanted: Option<Capability>): map<string, Source> {
    if sources == [] then map[]
    else
      var n := |sources| - 1;
      var before := Table(sources[..n], wanted);
      if Goes(sources[n], wanted) then before[sources[n].target.id := sources[n]] else before
  }

  /** The table that calls for a capability are dispatched by. */
  function Dispatch(configured: SourceSet, capability: Capability): map<string, Source> {
    match capability
    case ClusterHealthCapability => Table(configured.kubernetes, Some(capability))
    case UnhealthyWorkloadsCapability => Table(configured.kubernetes, Some(capability))
    case ActiveAlertsCapability => Table(configured.monitoring, Some(capability))
    case ScrapeHealthCapability => Table(configured.monitoring, Some(capability))
    case UnhealthyReconciliationsCapability => Table(configured.flux, None)
    case OtherCapability(_) => map[]
  }

  class Server {
    const catalog: Catalog
    const clusterHealthByID: map<string, Source>
    const unhealthyWorkloadsByID: map<string, Source>
    const activeAlertsByID: map<string, Source>
    const scrapeHealthByID: map<string, Source>
    const fluxByID: map<string, Source>

    constructor Make(
      catalog: Catalog, clusterHealth: map<string, Source>, unhealthyWorkloads: map<string, Source>,
      activeAlerts: map<string, Source>, scrapeHealth: map<string, Source>, flux: map<string, Source>)
      ensures this.catalog == catalog
      ensures clusterHealthByID == clusterHealth && unhealthyWorkloadsByID == unhealthyWorkloads
      ensures activeAlertsByID == activeAlerts && scrapeHealthByID == scrapeHealth && fluxByID == flux
    {
      this.catalog, clusterHealthByID, unhealthyWorkloadsByID := catalog, clusterHealth, unhealthyWorkloads;
      activeAlertsByID, scrapeHealthByID, fluxByID := activeAlerts, scrapeHealth, flux;
    }

    /** The table a tool dispatches by. */
    function TableFor(capability: Capability): map<string, Source> {
      match capability
      case ClusterHealthCapability => clusterHealthByID
      case UnhealthyWorkloadsCapability => unhealthyWorkloadsByID
      case ActiveAlertsCapability => activeAlertsByID
      case ScrapeHealthCapability => scrapeHealthByID
      case UnhealthyReconciliationsCapability => fluxByID
      case OtherCapability(_) => map[]
    }

    /** The tables are the ones the loops fill and the catalog holds exactly the sources' targets. */
    ghost predicate Serves(configured: SourceSet)
      reads catalog, catalog.Repr
    {
      && RightKinds(configured)
      && (forall c :: TableFor(c) == Dispatch(configured, c))
      && catalog.Valid() && Catalogues(catalog.Contents(), TargetsOf(AllSources(configured)))
    }
  }

  // ------------------------------------------------------------------- method

  /** `NewWithSourceSet`. */
  method NewWithSourceSet(configured: SourceSet) returns (r: Result<Server>)
    ensures r.Ok? <==> AcceptedSources(configured)
    ensures r.Ok? ==> fresh(r.value) && fresh(r.value.catalog) && fresh(r.value.catalog.Repr)
    ensures r.Ok? ==> r.value.Serves(configured)
  {
    hide AcceptedTargets, Table, ValidContents, Catalogues, DescribeAll;
    var kubernetes := CollectFamily(
      configured.kubernetes, KubernetesKind, ClusterHealthCapability, UnhealthyWorkloadsCapability);
    if kubernetes.Err? {
      return Err(kubernetes.error);
    }
    var monitoring := CollectFamily(
      configured.monitoring, MonitoringKind, ActiveAlertsCapability, ScrapeHealthCapability);
    if monitoring.Err? {
      return Err(monitoring.error);
    }
    var flux := CollectFlux(configured.flux);
    if flux.Err? {
      return Err(flux.error);
    }
    var targets := kubernetes.value.0 + monitoring.value.0 + flux.value.0;
    assert DescribeAll(targets) == TargetsOf(AllSources(configured));
    var catalog := Catalog.NewCatalog(targets);
    if catalog.Err? {
      return Err(catalog.error);
    }
    var server := new Server.Make(
      catalog.value, kubernetes.value.1, kubernetes.value.2, monitoring.value.1, monitoring.value.2, flux.value.1);
    return Ok(server);
  }

  /** The loop over the sources of a family with two tools. */
  method CollectFamily(sources: seq<Source>, kind: TargetKind, first: Capability, second: Capability)
    returns (r: Result<(seq<Target>, map<string, Source>, map<string, Source>)>)
    ensures r.Ok? <==> AllOfKind(sources, kind)
    ensures r.Ok? ==> |r.value.0| == |sources|
    ensures r.Ok? ==> forall k | 0 <= k < |sources| :: Describe(r.value.0[k]) == sources[k].target
    ensures r.Ok? ==> r.value.1 == Table(sources, Some(first)) && r.value.2 == Table(sources, Some(second))
  {
    hide Table;
    NothingInTables();
    var targets: seq<Target> := [];
    var byFirst: map<string, Source>, bySecond: map<string, Source> := map[], map[];
    for i := 0 to |sources|
      invariant AllOfKind(sources[..i], kind)
      invariant |targets| == i && forall k | 0 <= k < i :: Describe(targets[k]) == sources[k].target
      invariant byFirst == Table(sources[..i], Some(first)) && bySecond == Table(sources[..i], Some(second))
    {
      var source := sources[i];
      assert sources[..i + 1] == sources[..i] + [source];
      assert source in sources;
      if source.Nil? {
        return Err(Plain("source must not be nil"));
      }
      var target := TargetOf(source);
      if target.kind != kind {
        return Err(Plain("source has the wrong target kind"));
      }
      targets := targets + [target];
      byFirst := Enter(sources, i, target.id, byFirst, first);
      bySecond := Enter(sources, i, target.id, bySecond, second);
    }
    assert sources[..|sources|] == sources;
    return Ok((targets, byFirst, bySecond));
  }

  /** Puts a source into the table of a capability if its target has it. */
  method Enter(sources: seq<Source>, i: nat, id: string, table: map<string, Source>, capability: Capability)
    returns (entered: map<string, Source>)
    requires i < |sources| && sources[i].Source? && sources[i].target.id == id
    requires table == Table(sources[..i], Some(capability))
    ensures entered == Table(sources[..i + 1], Some(capability))
  {
    TableGrows(sources, i, Some(capability));
    if capability in sources[i].target.capabilities {
      return table[id := sources[i]];
    }
    return table;
  }

  method CollectFlux(sources: seq<Source>) returns (r: Result<(seq<Target>, map<string, Source>)>)
    ensures r.Ok? <==> AllOfKind(sources, FluxKind)
    ensures r.Ok? ==> |r.value.0| == |sources|
    ensures r.Ok? ==> forall k | 0 <= k < |sources| :: Describe(r.value.0[k]) == sources[k].target
    ensures r.Ok? ==> r.value.1 == Table(sources, None)
  {
    hide Table;
    NothingInTables();
    var targets: seq<Target> := [];
    var byID: map<string, Source> := map[];
    for i := 0 to |sources|
      invariant AllOfKind(sources[..i], FluxKind)
      invariant |targets| == i && forall k | 0 <= k < i :: Describe(targets[k]) == sources[k].target
      invariant byID == Table(sources[..i], None)
    {
      var source := sources[i];
      assert sources[..i + 1] == sources[..i] + [source];
      assert source in sources;
      if source.Nil? {
        return Err(Plain("Flux source must not be nil"));
      }
      var target := TargetOf(source);
      if target.kind != FluxKind {
        return Err(Plain("Flux source has the wrong target kind"));
      }
      targets := targets + [target];
      TableGrows(sources, i, None);
      byID := byID[target.id := source];
    }
    assert sources[..|sources|] == sources;
    return Ok((targets, byID));
  }

  lemma NothingInTables()
    ensures forall wanted :: Table([], wanted) == map[]
  {
  }

  lemma TableGrows(sources: seq<Source>, i: nat, wanted: Option<Capability>)
    requires i < |sources|
    ensures Table(sources[..i + 1], wanted)
         == if Goes(sources[i], wanted) then Table(sources[..i], wanted)[sources[i].target.id := sources[i]]
            else Table(sources[..i], wanted)
  {
    assert sources[..i + 1][..i] == sources[..i];
  }

  // -------------------------------------------------------------- main results

  ghost predicate DistinctSources(sources: seq<Source>) {
    && (forall i | 0 <= i < |sources| :: sources[i].Source?)
    && forall i, j | 0 <= i < j < |sources| :: sources[i].target.id != sources[j].target.id
  }

  /** Among sources with distinct identifiers, the table holds exactly those that go into it. */
  lemma {:induction false} TableHoldsWhatGoes(sources: seq<Source>, wanted: Option<Capability>)
    requires DistinctSources(sources)
    ensures Holds(Table(sources, wanted), sources, wanted)
  {
    if sources != [] {
      hide Table, Goes, Holds, DistinctSources;
      var n := |sources| - 1;
      PrefixIsDistinct(sources, n);
      TableHoldsWhatGoes(sources[..n], wanted);
      TableGrows(sources, n, wanted);
      assert sources[..n + 1] == sources == sources[..n] + [sources[n]];
      HoldsAfter(Table(sources[..n], wanted), sources[..n], sources[n], wanted);
    }
  }

  lemma PrefixIsDistinct(sources: seq<Source>, n: nat)
    requires DistinctSources(sources) && n < |sources|
    ensures DistinctSources(sources[..n]) && sources[n].Source?
    ensures forall r | r in sources[..n] :: r.Source? && r.target.id != sources[n].target.id
  {
    forall r | r in sources[..n] ensures r.Source? && r.target.id != sources[n].target.id {
      var i :| 0 <= i < n && sources[i] == r;
    }
  }

  /** The table holds each source that goes into it under its identifier, and nothing else. */
  ghost predicate Holds(table: map<string, Source>, sources: seq<Source>, wanted: Option<Capability>) {
    && (forall s | s in sources && Goes(s, wanted) :: s.Source? && s.target.id in table && table[s.target.id] == s)
    && forall id | id in table ::
         table[id] in sources && Goes(table[id], wanted) && table[id].Source? && table[id].target.id == id
  }

  lemma HoldsAfter(table: map<string, Source>, sources: seq<Source>, s: Source, wanted: Option<Capability>)
    requires Holds(table, sources, wanted) && s.Source?
    requires forall r | r in sources :: r.Source? && r.target.id != s.target.id
    ensures Holds(if Goes(s, wanted) then table[s.target.id := s] else table, sources + [s], wanted)
  {
    hide Goes;
  }

  /** The only source with its identifier, at one position, in the whole configuration. */
  ghost predicate OnlySource(configured: SourceSet, s: Source, id: string) {
    var all := AllSources(configured);
    exists i | 0 <= i < |all| ::
      && all[i] == s && s.Source? && s.target.id == id
      && forall j | 0 <= j < |all| && all[j].Source? && all[j].target.id == id :: j == i
  }

  lemma AcceptedSourcesAreDistinct(configured: SourceSet)
    requires AcceptedSources(configured)
    ensures forall i, j | 0 <= i < j < |AllSources(configured)| ::
              AllSources(configured)[i].target.id != AllSources(configured)[j].target.id
    ensures forall s | s in AllSources(configured) :: s.Source? && ValidTarget(s.target)
  {
    hide ValidTarget;
    var all, infos := AllSources(configured), TargetsOf(AllSources(configured));
    forall i | 0 <= i < |all| ensures ValidTarget(all[i].target) {
      assert infos[i] in infos;
    }
    forall i, j | 0 <= i < j < |all| ensures all[i].target.id != all[j].target.id {
      assert infos[i].id != infos[j].id;
    }
  }

  /**
   A tool dispatches an identifier exactly when the inventory advertises the tool's capability for it,
   and to the only source of any family that has the identifier. The Flux table, which is filled without
   looking at the capabilities, is no exception.
   */
  lemma DispatchAgreesWithInventory(
    configured: SourceSet, contents: map<string, TargetInfo>, capability: Capability, id: string)
    requires AcceptedSources(configured) && Catalogues(contents, TargetsOf(AllSources(configured)))
    ensures id in Dispatch(configured, capability) <==> id in contents && capability in contents[id].capabilities
    ensures id in Dispatch(configured, capability) ==>
              OnlySource(configured, Dispatch(configured, capability)[id], id)
  {
    hide AcceptedSources, Catalogues, OnlySource, Table;
    AcceptedSourcesAreDistinct(configured);
    KindsAreRight(configured);
    match capability
    case ClusterHealthCapability =>
      FamilyAgrees(configured, configured.kubernetes, contents, capability, Some(capability), id);
    case UnhealthyWorkloadsCapability =>
      FamilyAgrees(configured, configured.kubernetes, contents, capability, Some(capability), id);
    case ActiveAlertsCapability =>
      FamilyAgrees(configured, configured.monitoring, contents, capability, Some(capability), id);
    case ScrapeHealthCapability =>
      FamilyAgrees(configured, configured.monitoring, contents, capability, Some(capability), id);
    case UnhealthyReconciliationsCapability =>
      forall s | s in configured.flux ensures capability in s.target.capabilities {
        assert s in AllSources(configured);
        assert s.target.capabilities[0] in s.target.capabilities;
      }
      FamilyAgrees(configured, configured.flux, contents, capability, None, id);
    case OtherCapability(_) =>
      AdvertisedBySource(configured, contents, capability, id);
  }

  lemma KindsAreRight(configured: SourceSet)
    requires AcceptedSources(configured)
    ensures RightKinds(configured)
  {
  }

  /** The inventory advertises a capability for an identifier exactly when a source does. */
  lemma AdvertisedBySource(configured: SourceSet, contents: map<string, TargetInfo>, capability: Capability, id: string)
    requires AcceptedSources(configured) && Catalogues(contents, TargetsOf(AllSources(configured)))
    ensures (id in contents && capability in contents[id].capabilities)
       <==> exists s | s in AllSources(configured) :: s.target.id == id && capability in s.target.capabilities
  {
    hide AcceptedTargets, Catalogues;
    var all, infos := AllSources(configured), TargetsOf(AllSources(configured));
    if id in contents {
      var i := SourceOf(configured, contents, id);
      KeepsCapabilities(contents, infos, i);
      assert all[i] in all;
    }
    if s :| s in all && s.target.id == id && capability in s.target.capabilities {
      var i: nat :| i < |all| && all[i] == s;
      KeepsCapabilities(contents, infos, i);
    }
  }

  /** What is catalogued under an identifier is a source's. */
  lemma SourceOf(configured: SourceSet, contents: map<string, TargetInfo>, id: string) returns (i: nat)
    requires RightKinds(configured) && Catalogues(contents, TargetsOf(AllSources(configured))) && id in contents
    ensures i < |AllSources(configured)| && AllSources(configured)[i].target.id == id
  {
    hide Keeps;
    var infos := TargetsOf(AllSources(configured));
    var t :| t in infos && t.id == id;
    i :| 0 <= i < |infos| && infos[i] == t;
  }

  lemma KeepsCapabilities(contents: map<string, TargetInfo>, infos: seq<TargetInfo>, i: nat)
    requires Catalogues(contents, infos) && i < |infos|
    ensures infos[i].id in contents
    ensures forall c :: c in contents[infos[i].id].capabilities <==> c in infos[i].capabilities
  {
    hide CompareCapabilities;
    assert infos[i] in infos;
    SortingKeepsMembers(CompareCapabilities, infos[i].capabilities, contents[infos[i].id].capabilities);
  }

  lemma FamilyAgrees(
    configured: SourceSet, family: seq<Source>, contents: map<string, TargetInfo>, capability: Capability,
    wanted: Option<Capability>, id: string)
    requires AcceptedSources(configured) && Catalogues(contents, TargetsOf(AllSources(configured)))
    requires family <= AllSources(configured) || family == configured.monitoring || family == configured.flux
    requires forall s | s in AllSources(configured) && capability in s.target.capabilities :: s in family
    requires forall s | s in family :: Goes(s, wanted) <==> capability in s.target.capabilities
    ensures id in Table(family, wanted) <==> id in contents && capability in contents[id].capabilities
    ensures id in Table(family, wanted) ==> OnlySource(configured, Table(family, wanted)[id], id)
  {
    hide AcceptedSources, Catalogues, ValidTarget, Table;
    AcceptedSourcesAreDistinct(configured);
    AdvertisedBySource(configured, contents, capability, id);
    var all := AllSources(configured);
    forall i, j | 0 <= i < j < |family| ensures family[i].target.id != family[j].target.id {
      var k := |configured.kubernetes|;
      var m := k + |configured.monitoring|;
      assert all[k..m] == configured.monitoring && all[m..] == configured.flux;
    }
    TableHoldsWhatGoes(family, wanted);
    if id in Table(family, wanted) {
      var s := Table(family, wanted)[id];
      assert s in all;
      var i :| 0 <= i < |all| && all[i] == s;
    }
  }
}
