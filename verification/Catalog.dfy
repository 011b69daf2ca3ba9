/**
 The public target inventory. A slice of capabilities is an array on the heap, so that what the catalog
 keeps and what it hands out can be told apart: callers may write to every slice they ever held.
 */
module Catalogs {
  import opened Text
  import opened Errors
  import opened Contracts
  import opened Policy
  import opened Encoding
  import opened Sorting

  datatype Target = Target(id: string, kind: TargetKind, capabilities: array<Capability>)

  /** What a target says, read at this moment. */
  function Describe(t: Target): TargetInfo
    reads t.capabilities
  {
    TargetInfo(t.id, t.kind, t.capabilities[..])
  }

  function DescribeAll(targets: seq<Target>): (infos: seq<TargetInfo>)
    reads set t | t in targets :: t.capabilities
    ensures |infos| == |targets|
    ensures forall i | 0 <= i < |targets| :: infos[i] == Describe(targets[i])
  {
    seq(|targets|, i requires 0 <= i < |targets| reads set t | t in targets :: t.capabilities => Describe(targets[i]))
  }

  // --------------------------------------------------------------- validation

  predicate CapabilityMatchesKind(kind: TargetKind, capability: Capability) {
    match kind
    case KubernetesKind => capability.ClusterHealthCapability? || capability.UnhealthyWorkloadsCapability?
    case MonitoringKind => capability.ActiveAlertsCapability? || capability.ScrapeHealthCapability?
    case FluxKind => capability.UnhealthyReconciliationsCapability?
    case OtherKind(_) => false
  }

  /** The capabilities a target of this kind may list: some, all of its kind, none twice. */
  ghost predicate ValidCapabilities(kind: TargetKind, capabilities: seq<Capability>) {
    && capabilities != []
    && (forall c | c in capabilities :: CapabilityMatchesKind(kind, c))
    && Distinct(capabilities)
  }

  ghost predicate ValidTarget(t: TargetInfo) {
    Identifier(t.id) && !t.kind.OtherKind? && ValidCapabilities(t.kind, t.capabilities)
  }

  /** The field an invalid target is refused for. */
  function BlamedField(t: TargetInfo): string {
    if !Identifier(t.id) then "target" else if t.kind.OtherKind? then "kind" else "capabilities"
  }

  /** `validateTarget`. */
  method ValidateTarget(t: TargetInfo) returns (problem: Option<Error>)
    ensures problem.None? <==> ValidTarget(t)
    ensures problem.Some? ==> problem.value.Validation? && problem.value.field == BlamedField(t)
  {
    var invalid := ValidateIdentifier("target", t.id);
    if invalid.Some? {
      return invalid;
    }
    if t.kind.OtherKind? {
      return Some(Validation("kind", "is not supported"));
    }
    if |t.capabilities| == 0 {
      return Some(Validation("capabilities", "must not be empty"));
    }
    var seen: set<Capability> := {};
    for i := 0 to |t.capabilities|
      invariant forall c :: c in seen <==> c in t.capabilities[..i]
      invariant forall c | c in t.capabilities[..i] :: CapabilityMatchesKind(t.kind, c)
      invariant Distinct(t.capabilities[..i])
    {
      var capability := t.capabilities[i];
      assert t.capabilities[..i + 1] == t.capabilities[..i] + [capability];
      assert capability in t.capabilities;
      if !CapabilityMatchesKind(t.kind, capability) {
        return Some(Validation("capabilities", "contains an unsupported value"));
      }
      if capability in seen {
        return Some(Validation("capabilities", "contains a duplicate value"));
      }
      seen := seen + {capability};
    }
    assert t.capabilities[..|t.capabilities|] == t.capabilities;
    return None;
  }

  // ------------------------------------------------------------ specification

  function CompareCapabilities(a: Capability, b: Capability): int {
    Compare(a.Text(), b.Text())
  }

  lemma CompareCapabilitiesIsTotalPreorder()
    ensures TotalPreorder(CompareCapabilities)
  {
    hide Compare;
    forall a, b ensures FlipsAt(CompareCapabilities, a, b) {
      CompareIsAntisymmetric(a.Text(), b.Text());
    }
    forall a, b, c ensures TransitiveAt(CompareCapabilities, a, b, c) {
      if CompareCapabilities(a, b) <= 0 && CompareCapabilities(b, c) <= 0 {
        CompareIsTransitive(a.Text(), b.Text(), c.Text());
      }
    }
  }

  /** `kept` is what the catalog keeps of `t`: the same, with its capabilities sorted. */
  ghost predicate Keeps(kept: TargetInfo, t: TargetInfo) {
    && kept.id == t.id && kept.kind == t.kind
    && IsSorting(CompareCapabilities, t.capabilities, kept.capabilities)
  }

  ghost predicate ValidTargets(infos: seq<TargetInfo>) {
    && (forall t | t in infos :: ValidTarget(t))
    && forall i, j | 0 <= i < j < |infos| :: infos[i].id != infos[j].id
  }

  /** The inventories `NewCatalog` accepts. */
  ghost predicate AcceptedTargets(infos: seq<TargetInfo>) {
    |infos| <= MAX_TARGETS && ValidTargets(infos)
  }

  /** The contents index exactly the given targets by their identifiers. */
  ghost predicate Catalogues(contents: map<string, TargetInfo>, infos: seq<TargetInfo>) {
    && |contents| == |infos|
    && (forall t | t in infos :: t.id in contents && Keeps(contents[t.id], t))
    && forall id | id in contents :: exists t | t in infos :: t.id == id
  }

  /** What any catalog holds. */
  ghost predicate ValidContents(contents: map<string, TargetInfo>) {
    && |contents| <= MAX_TARGETS
    && forall id | id in contents ::
         && contents[id].id == id && ValidTarget(contents[id])
         && Sorted(CompareCapabilities, contents[id].capabilities)
  }

  ghost predicate AscendingIds(infos: seq<TargetInfo>) {
    forall i, j | 0 <= i < j < |infos| :: Compare(infos[i].id, infos[j].id) < 0
  }

  /** `out` lists the contents in strictly ascending order of the identifiers. */
  ghost predicate ListsContents(contents: map<string, TargetInfo>, out: seq<TargetInfo>) {
    && AscendingIds(out)
    && |out| == |contents|
    && forall t :: t in out <==> t.id in contents && contents[t.id] == t
  }

  function Find(contents: map<string, TargetInfo>, id: string): Option<TargetInfo> {
    if id in contents then Some(contents[id]) else None
  }

  // ------------------------------------------------------------------ catalog

  class Catalog {
    var targets: map<string, Target>
    ghost const Repr: set<array<Capability>>

    constructor Make(targets: map<string, Target>)
      ensures this.targets == targets
      ensures Repr == set id | id in targets :: targets[id].capabilities
    {
      this.targets := targets;
      Repr := set id | id in targets :: targets[id].capabilities;
    }

    ghost predicate Owns()
      reads this
    {
      forall id | id in targets :: targets[id].capabilities in Repr
    }

    /** The inventory as a value. */
    ghost function Contents(): map<string, TargetInfo>
      reads this, Repr
      requires Owns()
    {
      InfoMap(targets)
    }

    ghost predicate Valid()
      reads this, Repr
    {
      Owns() && ValidContents(Contents())
    }

    /** `NewCatalog`: accepts exactly the valid inventories and copies them. */
    static method NewCatalog(targets: seq<Target>) returns (r: Result<Catalog>)
      ensures r.Ok? <==> AcceptedTargets(DescribeAll(targets))
      ensures r.Ok? ==> fresh(r.value) && fresh(r.value.Repr) && r.value.Valid()
      ensures r.Ok? ==> Catalogues(r.value.Contents(), DescribeAll(targets))
    {
      hide ValidTarget, Keeps, ValidContents, Catalogues, ValidTargets, DescribeAll, Identifier;
      ghost var infos := DescribeAll(targets);
      if |targets| > MAX_TARGETS {
        return Err(Plain("target catalog: maximum is 32"));
      }
      var table: map<string, Target> := map[];
      ghost var contents: map<string, TargetInfo> := map[];
      NothingCatalogued();
      for i := 0 to |targets|
        invariant forall id | id in table :: fresh(table[id].capabilities)
        invariant InfoMap(table) == contents && DescribeAll(targets) == infos
        invariant Catalogues(contents, infos[..i]) && ValidTargets(infos[..i])
      {
        var target := targets[i];
        assert infos[..i + 1] == infos[..i] + [infos[i]];
        TargetIsChecked(contents, infos, i);
        var problem := ValidateTarget(Describe(target));
        if problem.Some? {
          return Err(problem.value);
        }
        if target.id in table {
          return Err(Plain("target catalog: duplicate target identifier"));
        }
        var kept := CopySorted(target);
        CatalogueGrows(contents, infos[..i], infos[i], Describe(kept));
        table := table[target.id := kept];
        contents := contents[target.id := Describe(kept)];
      }
      assert infos[..|targets|] == infos;
      CataloguesAreValid(contents, infos);
      var catalog := new Catalog.Make(table);
      return Ok(catalog);
    }

    /** `List`: fresh copies in the order of the identifiers, from a map iterated in any order. */
    method List() returns (out: seq<Target>)
      requires Valid()
      ensures ListsContents(Contents(), DescribeAll(out))
      ensures forall t | t in out :: fresh(t.capabilities)
    {
      hide ValidContents, ListsContents, DescribeAll, IsSorting, Compare;
      var ids, copies := CloneAll(targets);
      CompareIsTotalPreorder();
      var sorted := SortSlice(ids, Compare);
      SortingKeepsMembers(Compare, ids, sorted);
      out := [];
      for i := 0 to |sorted|
        invariant |out| == i && forall k | 0 <= k < i :: out[k] == copies[sorted[k]]
      {
        out := out + [copies[sorted[i]]];
      }
      forall i | 0 <= i < |sorted| ensures DescribeAll(out)[i] == Contents()[sorted[i]] {
        assert DescribeAll(out)[i] == Describe(copies[sorted[i]]);
      }
      SortedIdsList(Contents(), ids, sorted, DescribeAll(out));
    }

    /** `Lookup`. */
    method Lookup(id: string) returns (found: Option<Target>)
      requires Valid()
      ensures found.Some? <==> id in Contents()
      ensures found.Some? ==> fresh(found.value.capabilities) && Describe(found.value) == Contents()[id]
    {
      if id !in targets {
        return None;
      }
      var capabilities := CloneCapabilities(targets[id].capabilities);
      return Some(Target(targets[id].id, targets[id].kind, capabilities));
    }
  }

  ghost function InfoMap(targets: map<string, Target>): map<string, TargetInfo>
    reads set id | id in targets :: targets[id].capabilities
  {
    map id | id in targets :: Describe(targets[id])
  }

  /** `slices.Clone`. */
  method CloneCapabilities(a: array<Capability>) returns (b: array<Capability>)
    ensures fresh(b) && b[..] == a[..]
  {
    b := new Capability[a.Length](i requires 0 <= i < a.Length reads a => a[i]);
  }

  /** The copy of a target that the catalog keeps. */
  method CopySorted(t: Target) returns (kept: Target)
    ensures fresh(kept.capabilities) && kept.id == t.id && Keeps(Describe(kept), Describe(t))
  {
    hide CompareCapabilities;
    var capabilities := CloneCapabilities(t.capabilities);
    CompareCapabilitiesIsTotalPreorder();
    SortFunc(capabilities, CompareCapabilities);
    kept := Target(t.id, t.kind, capabilities);
  }

  /** The loop of `List` over the map, which takes the entries in any order. */
  method CloneAll(targets: map<string, Target>) returns (ids: seq<string>, copies: map<string, Target>)
    ensures Distinct(ids) && forall id :: id in ids <==> id in targets
    ensures copies.Keys == targets.Keys
    ensures forall id | id in copies :: fresh(copies[id].capabilities) && Describe(copies[id]) == Describe(targets[id])
  {
    copies, ids := map[], [];
    var remaining := targets.Keys;
    while remaining != {}
      invariant remaining <= targets.Keys
      invariant Distinct(ids) && forall id :: id in ids <==> id in targets && id !in remaining
      invariant copies.Keys == targets.Keys - remaining
      invariant forall id | id in copies ::
                  fresh(copies[id].capabilities) && Describe(copies[id]) == Describe(targets[id])
    {
      var id :| id in remaining;
      var capabilities := CloneCapabilities(targets[id].capabilities);
      copies := copies[id := Target(targets[id].id, targets[id].kind, capabilities)];
      ids := ids + [id];
      remaining := remaining - {id};
    }
  }

  lemma CompareIsTotalPreorder()
    ensures TotalPreorder(Compare)
  {
    hide Compare;
    forall a, b ensures FlipsAt(Compare, a, b) {
      CompareIsAntisymmetric(a, b);
    }
    forall a, b, c ensures TransitiveAt(Compare, a, b, c) {
      if Compare(a, b) <= 0 && Compare(b, c) <= 0 { CompareIsTransitive(a, b, c); }
    }
  }

  lemma SortedIdsList(contents: map<string, TargetInfo>, ids: seq<string>, sorted: seq<string>, out: seq<TargetInfo>)
    requires ValidContents(contents)
    requires Distinct(ids) && forall id :: id in ids <==> id in contents
    requires IsSorting(Compare, ids, sorted)
    requires |out| == |sorted| && forall i | 0 <= i < |sorted| :: sorted[i] in contents && out[i] == contents[sorted[i]]
    ensures ListsContents(contents, out)
  {
    hide ValidContents, Compare, IsSorting, Distinct;
    ContentsAreKeyed(contents);
    SortedIdsAscend(ids, sorted);
    forall i, j | 0 <= i < j < |out| ensures Compare(out[i].id, out[j].id) < 0 {
      assert Compare(sorted[i], sorted[j]) < 0;
    }
    forall t | t in out ensures t.id in contents && contents[t.id] == t {
      var i :| 0 <= i < |out| && out[i] == t;
      assert out[i] == contents[sorted[i]];
    }
    forall t ensures t in out <==> t.id in contents && contents[t.id] == t {
      if t.id in contents && contents[t.id] == t {
        var i :| 0 <= i < |sorted| && sorted[i] == t.id;
        assert out[i] == t;
      }
    }
    KeysCount(contents, sorted);
  }

  lemma KeysCount(contents: map<string, TargetInfo>, ids: seq<string>)
    requires Distinct(ids) && forall id :: id in ids <==> id in contents
    ensures |ids| == |contents|
  {
    DistinctSize(ids);
    assert (set id | id in ids) == contents.Keys;
  }

  lemma ContentsAreKeyed(contents: map<string, TargetInfo>)
    requires ValidContents(contents)
    ensures forall id | id in contents :: contents[id].id == id
  {
  }

  lemma SortedIdsAscend(ids: seq<string>, sorted: seq<string>)
    requires Distinct(ids) && IsSorting(Compare, ids, sorted)
    ensures Strict(Compare, sorted)
    ensures Distinct(sorted)
    ensures forall id :: id in sorted <==> id in ids
  {
    hide Compare;
    SortingKeepsMembers(Compare, ids, sorted);
    forall i, j | 0 <= i < j < |ids| ensures Compare(ids[i], ids[j]) != 0 {
      CompareIsAntisymmetric(ids[i], ids[j]);
    }
    CompareIsTotalPreorder();
    SortingIsStrict(Compare, ids, sorted);
    StrictIsDistinct(Compare, sorted);
  }

  lemma NothingCatalogued()
    ensures Catalogues(map[], []) && ValidTargets([])
  {
  }

  /** Checking a target alone and its identifier against the table is checking the whole prefix. */
  lemma TargetIsChecked(contents: map<string, TargetInfo>, infos: seq<TargetInfo>, i: nat)
    requires i < |infos| && Catalogues(contents, infos[..i]) && ValidTargets(infos[..i])
    ensures ValidTargets(infos[..i + 1]) <==> ValidTarget(infos[i]) && infos[i].id !in contents
    ensures ValidTargets(infos) ==> ValidTargets(infos[..i + 1])
  {
    hide ValidTarget, Keeps;
    var next := infos[..i + 1];
    assert next == infos[..i] + [infos[i]];
    if infos[i].id in contents {
      var t :| t in infos[..i] && t.id == infos[i].id;
      var j :| 0 <= j < i && infos[..i][j] == t;
      assert next[j].id == next[i].id;
    } else {
      forall j | 0 <= j < i ensures next[j].id != next[i].id {
        assert infos[..i][j] in infos[..i];
      }
    }
    assert next[i] == infos[i];
  }

  lemma CatalogueGrows(
    contents: map<string, TargetInfo>, infos: seq<TargetInfo>, t: TargetInfo, kept: TargetInfo)
    requires Catalogues(contents, infos) && t.id !in contents && Keeps(kept, t)
    ensures Catalogues(contents[t.id := kept], infos + [t])
  {
    hide Keeps;
    var grown, all := contents[t.id := kept], infos + [t];
    assert |grown| == |contents| + 1;
    forall u | u in all ensures u.id in grown && Keeps(grown[u.id], u) {
      assert u in infos || u == t;
    }
    forall id | id in grown ensures exists u | u in all :: u.id == id {
      if id == t.id {
        assert t in all;
      } else {
        var u :| u in infos && u.id == id;
        assert u in all;
      }
    }
  }

  lemma KeptIsValid(kept: TargetInfo, t: TargetInfo)
    requires Keeps(kept, t) && ValidTarget(t)
    ensures ValidTarget(kept) && Sorted(CompareCapabilities, kept.capabilities)
  {
    hide CompareCapabilities, CapabilityMatchesKind, Identifier;
    SortingKeepsMembers(CompareCapabilities, t.capabilities, kept.capabilities);
    DistinctPermutes(t.capabilities, kept.capabilities);
  }

  lemma CataloguesAreValid(contents: map<string, TargetInfo>, infos: seq<TargetInfo>)
    requires Catalogues(contents, infos) && AcceptedTargets(infos)
    ensures ValidContents(contents)
  {
    hide ValidTarget, Sorted;
    forall id | id in contents
      ensures contents[id].id == id && ValidTarget(contents[id])
      ensures Sorted(CompareCapabilities, contents[id].capabilities)
    {
      var t :| t in infos && t.id == id;
      KeptIsValid(contents[id], t);
    }
  }

  // -------------------------------------------------------------- main results

  /** The same target up to the order of its capabilities. */
  predicate Reordered(t: TargetInfo, u: TargetInfo) {
    t.id == u.id && t.kind == u.kind && multiset(t.capabilities) == multiset(u.capabilities)
  }

  ghost predicate HasReordered(t: TargetInfo, others: seq<TargetInfo>) {
    exists u | u in others :: Reordered(t, u)
  }

  /** The same targets, in any order. */
  ghost predicate CoveredBy(infos: seq<TargetInfo>, others: seq<TargetInfo>) {
    forall t | t in infos :: HasReordered(t, others)
  }

  lemma KeptIsDetermined(k1: TargetInfo, t: TargetInfo, k2: TargetInfo, u: TargetInfo)
    requires Keeps(k1, t) && Keeps(k2, u) && Reordered(t, u) && ValidTarget(t)
    ensures k1 == k2
  {
    hide Identifier, Compare;
    forall x, y | x in t.capabilities && y in t.capabilities && CompareCapabilities(x, y) == 0 ensures x == y {
      CompareIsAntisymmetric(x.Text(), y.Text());
      KindCapabilityTextsDiffer(t.kind, x, y);
    }
    CompareCapabilitiesIsTotalPreorder();
    TieFreeSortingIsUnique(CompareCapabilities, t.capabilities, u.capabilities, k1.capabilities, k2.capabilities);
  }

  lemma KindCapabilityTextsDiffer(kind: TargetKind, x: Capability, y: Capability)
    requires CapabilityMatchesKind(kind, x) && CapabilityMatchesKind(kind, y) && x.Text() == y.Text()
    ensures x == y
  {
    assert |ClusterHealthCapability.Text()| != |UnhealthyWorkloadsCapability.Text()|;
    assert ActiveAlertsCapability.Text()[11] != ScrapeHealthCapability.Text()[11];
  }

  /** The contents do not depend on the order of the targets or of the capabilities of each. */
  lemma ContentsIgnoreOrder(
    c1: map<string, TargetInfo>, i1: seq<TargetInfo>, c2: map<string, TargetInfo>, i2: seq<TargetInfo>)
    requires Catalogues(c1, i1) && Catalogues(c2, i2) && ValidTargets(i1)
    requires CoveredBy(i1, i2) && CoveredBy(i2, i1)
    ensures c1 == c2
  {
    hide Keeps, HasReordered, ValidTarget;
    forall id | id in c1 ensures id in c2 && c1[id] == c2[id] {
      var t :| t in i1 && t.id == id;
      var u := Counterpart(t, i1, i2);
      KeptIsDetermined(c1[id], t, c2[id], u);
    }
    forall id | id in c2 ensures id in c1 {
      var u :| u in i2 && u.id == id;
      var t := Counterpart(u, i2, i1);
    }
  }

  lemma Counterpart(t: TargetInfo, infos: seq<TargetInfo>, others: seq<TargetInfo>) returns (u: TargetInfo)
    requires t in infos && CoveredBy(infos, others)
    ensures u in others && Reordered(t, u)
  {
    assert HasReordered(t, others);
    u :| u in others && Reordered(t, u);
  }

  /** The listing is determined by the contents. */
  lemma ListingIsUnique(contents: map<string, TargetInfo>, o1: seq<TargetInfo>, o2: seq<TargetInfo>)
    requires ListsContents(contents, o1) && ListsContents(contents, o2)
    ensures o1 == o2
  {
    hide Compare;
    var cmp := (a: TargetInfo, b: TargetInfo) => Compare(a.id, b.id);
    forall a, b ensures FlipsAt(cmp, a, b) {
      CompareIsAntisymmetric(a.id, b.id);
    }
    forall a, b, c ensures TransitiveAt(cmp, a, b, c) {
      if cmp(a, b) <= 0 && cmp(b, c) <= 0 { CompareIsTransitive(a.id, b.id, c.id); }
    }
    StrictOrderIsUnique(cmp, o1, o2);
  }

  /** A listing always passes the size check. */
  lemma ListingPassesSizeCheck(contents: map<string, TargetInfo>, out: seq<TargetInfo>)
    requires ValidContents(contents) && ListsContents(contents, out)
    ensures CheckResultSize(Some(EncodeTargets(out))).None?
  {
    hide Compare, Identifier, EncodeTargets, Sorted, AscendingIds;
    forall t | t in out ensures TargetShape(t) {
      FewCapabilities(t);
    }
    TargetsNeverTooLarge(out);
  }

  lemma FewCapabilities(t: TargetInfo)
    requires ValidTarget(t)
    ensures |t.capabilities| <= 2 && forall c | c in t.capabilities :: !c.OtherCapability?
  {
    hide Identifier;
    DistinctSize(t.capabilities);
    var listed := set c | c in t.capabilities;
    var pair := match t.kind
      case KubernetesKind => {ClusterHealthCapability, UnhealthyWorkloadsCapability}
      case MonitoringKind => {ActiveAlertsCapability, ScrapeHealthCapability}
      case _ => {UnhealthyReconciliationsCapability};
    assert listed <= pair;
    SubsetSize(listed, pair);
  }

  lemma SubsetSize<T>(a: set<T>, b: set<T>)
    requires a <= b
    ensures |a| <= |b|
  {
    assert b == a + (b - a);
  }

  // ----------------------------------------------------------- encapsulation

  /** One step of a caller: a call of the catalog, or a write into a slice it holds. */
  datatype Action =
    | CallList
    | CallLookup(id: string)
    | Write(slice: nat, index: nat, capability: Capability)

  /** What the caller sees of a step. */
  datatype Sight = Listed(targets: seq<TargetInfo>) | Found(target: Option<TargetInfo>) | Nothing

  /** What an immutable inventory would show. */
  ghost predicate Shows(contents: map<string, TargetInfo>, action: Action, sight: Sight) {
    match action
    case CallList => sight.Listed? && ListsContents(contents, sight.targets)
    case CallLookup(id) => sight == Found(Find(contents, id))
    case Write(_, _, _) => sight == Nothing
  }

  /**
   Any run of a caller that lists, looks up and overwrites whatever it holds: the slices it built the
   catalog from and every slice the catalog ever returned. All along it sees the same inventory.
   */
  method RunCaller(catalog: Catalog, slices: seq<array<Capability>>, script: seq<Action>)
    returns (sights: seq<Sight>)
    requires catalog.Valid() && forall a | a in slices :: a !in catalog.Repr
    modifies set a | a in slices
    ensures catalog.Valid() && catalog.Contents() == old(catalog.Contents())
    ensures |sights| == |script|
    ensures forall k | 0 <= k < |script| :: Shows(old(catalog.Contents()), script[k], sights[k])
  {
    hide ValidContents, ListsContents;
    ghost var contents := catalog.Contents();
    var held := slices;
    sights := [];
    for k := 0 to |script|
      invariant forall a | a in held :: a !in catalog.Repr && (a in slices || fresh(a))
      invariant catalog.Valid() && catalog.Contents() == contents
      invariant |sights| == k && forall j | 0 <= j < k :: Shows(contents, script[j], sights[j])
    {
      var sight := Nothing;
      match script[k] {
        case CallList =>
          var targets := catalog.List();
          sight := Listed(DescribeAll(targets));
          held := held + seq(|targets|, i requires 0 <= i < |targets| => targets[i].capabilities);
        case CallLookup(id) =>
          var found := catalog.Lookup(id);
          if found.Some? {
            sight := Found(Some(Describe(found.value)));
            held := held + [found.value.capabilities];
          } else {
            sight := Found(None);
          }
        case Write(slice, index, capability) =>
          if slice < |held| && index < held[slice].Length {
            held[slice][index] := capability;
          }
      }
      sights := sights + [sight];
    }
  }

  /** The same from the start: a catalog shows what its input said when it was built, whatever happens to it later. */
  method BuildAndRun(targets: seq<Target>, script: seq<Action>) returns (r: Result<seq<Sight>>)
    modifies set t | t in targets :: t.capabilities
    ensures r.Ok? <==> AcceptedTargets(old(DescribeAll(targets)))
    ensures r.Ok? ==> |r.value| == |script|
    ensures r.Ok? ==> exists contents ::
              && Catalogues(contents, old(DescribeAll(targets)))
              && forall k | 0 <= k < |script| :: Shows(contents, script[k], r.value[k])
  {
    hide ValidContents, Catalogues, AcceptedTargets, Shows;
    var catalog := Catalog.NewCatalog(targets);
    if catalog.Err? {
      return Err(catalog.error);
    }
    ghost var contents := catalog.value.Contents();
    var slices := seq(|targets|, i requires 0 <= i < |targets| => targets[i].capabilities);
    var sights := RunCaller(catalog.value, slices, script);
    return Ok(sights);
  }

  // ------------------------------------------------------------------ clients

  /** What the `Target` methods of the three clients describe. */
  function KubernetesTarget(id: string): TargetInfo {
    TargetInfo(id, KubernetesKind, [ClusterHealthCapability, UnhealthyWorkloadsCapability])
  }

  function MonitoringTarget(id: string): TargetInfo {
    TargetInfo(id, MonitoringKind, [ActiveAlertsCapability, ScrapeHealthCapability])
  }

  function FluxTarget(id: string): TargetInfo {
    TargetInfo(id, FluxKind, [UnhealthyReconciliationsCapability])
  }

  /** Up to 32 clients with different identifiers always form an inventory the catalog accepts. */
  lemma ClientTargetsAreAccepted(infos: seq<TargetInfo>)
    requires |infos| <= 32
    requires forall t | t in infos ::
               && Identifier(t.id)
               && t in {KubernetesTarget(t.id), MonitoringTarget(t.id), FluxTarget(t.id)}
    ensures AcceptedTargets(infos) <==> forall i, j | 0 <= i < j < |infos| :: infos[i].id != infos[j].id
  {
    hide Identifier;
    forall t | t in infos ensures ValidTarget(t) {
    }
  }

  /** A kind admits its own capabilities and no others. */
  lemma CapabilitiesOfKinds(kind: TargetKind, c: Capability)
    ensures CapabilityMatchesKind(kind, c)
       <==> || (kind == KubernetesKind && c in KubernetesTarget("").capabilities)
            || (kind == MonitoringKind && c in MonitoringTarget("").capabilities)
            || (kind == FluxKind && c in FluxTarget("").capabilities)
  {
  }
}
