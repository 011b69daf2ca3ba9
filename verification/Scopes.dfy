/**
 The scope allowlist both Kubernetes API adapters are configured with: opaque identifiers mapped to
 namespaces, validated once and then looked up or enumerated for every observation.
 */
module Scopes {
  import opened Text
  import opened Errors
  import opened Contracts
  import opened Policy
  import opened Sorting
  import opened TopList
  import opened Fanout

  /** The configurations `NewClient` accepts. */
  ghost predicate Accepted(scopes: seq<Scope>) {
    && 1 <= |scopes| <= MAX_TARGETS
    && (forall s | s in scopes :: Identifier(s.id) && Label(s.namespace))
    && forall i, j | 0 <= i < j < |scopes| ::
         scopes[i].id != scopes[j].id && scopes[i].namespace != scopes[j].namespace
  }

  /** The table holds exactly the configured scopes, each identifier and each namespace once. */
  ghost predicate Tabulates(table: map<string, string>, scopes: seq<Scope>) {
    && |table| == |scopes|
    && (forall s :: s in scopes <==> s.id in table && table[s.id] == s.namespace)
    && forall id, other | id in table && other in table && table[id] == table[other] :: id == other
  }

  /** The checks of one configured scope against those before it. */
  function ScopeProblem(scope: Scope, table: map<string, string>, seenNamespaces: set<string>): Option<Error> {
    var invalid := ValidateIdentifier("scope", scope.id);
    if invalid.Some? then invalid
    else if !Label(scope.namespace) then Some(Plain("namespace is invalid"))
    else if scope.id in table then Some(Plain("scope identifier is duplicated"))
    else if scope.namespace in seenNamespaces then Some(Plain("namespace is duplicated"))
    else None
  }

  method BuildTable(scopes: seq<Scope>) returns (r: Result<map<string, string>>)
    ensures r.Ok? <==> Accepted(scopes)
    ensures r.Ok? ==> Tabulates(r.value, scopes)
  {
    if |scopes| == 0 || |scopes| > MAX_TARGETS {
      return Err(Plain("target must have from 1 to 32 scopes"));
    }
    var table: map<string, string> := map[];
    var seenNamespaces: set<string> := {};
    for i := 0 to |scopes|
      invariant i == 0 || Accepted(scopes[..i])
      invariant Tabulates(table, scopes[..i])
      invariant seenNamespaces == table.Values
    {
      var problem := ScopeProblem(scopes[i], table, seenNamespaces);
      ScopeIsChecked(table, scopes, i);
      if problem.Some? {
        return Err(problem.value);
      }
      TableGrows(table, scopes[..i], scopes[i]);
      ValuesGrow(table, scopes[i]);
      table := table[scopes[i].id := scopes[i].namespace];
      seenNamespaces := seenNamespaces + {scopes[i].namespace};
    }
    assert scopes[..|scopes|] == scopes;
    return Ok(table);
  }

  /** A problem rules the configuration out; without one the scopes so far are acceptable. */
  lemma ScopeIsChecked(table: map<string, string>, scopes: seq<Scope>, i: nat)
    requires i < |scopes| <= MAX_TARGETS && Tabulates(table, scopes[..i])
    requires i == 0 || Accepted(scopes[..i])
    ensures scopes[..i + 1] == scopes[..i] + [scopes[i]]
    ensures ScopeProblem(scopes[i], table, table.Values).Some? ==> !Accepted(scopes)
    ensures ScopeProblem(scopes[i], table, table.Values).None? ==> Accepted(scopes[..i + 1])
  {
    var scope := scopes[i];
    assert scopes[..i + 1] == scopes[..i] + [scope];
    if scope.id in table {
      RepeatedScope(table, scopes, i, Scope(scope.id, table[scope.id]));
    } else if scope.namespace in table.Values {
      var id :| id in table && table[id] == scope.namespace;
      RepeatedScope(table, scopes, i, Scope(id, table[id]));
    } else if Identifier(scope.id) && Label(scope.namespace) {
      forall s | s in scopes[..i] ensures s.id != scope.id && s.namespace != scope.namespace {
        assert s.id in table && table[s.id] == s.namespace;
      }
      AcceptedGrows(scopes[..i], scope);
    }
  }

  lemma AcceptedGrows(scopes: seq<Scope>, scope: Scope)
    requires scopes == [] || Accepted(scopes)
    requires |scopes| < MAX_TARGETS && Identifier(scope.id) && Label(scope.namespace)
    requires forall s | s in scopes :: s.id != scope.id && s.namespace != scope.namespace
    ensures Accepted(scopes + [scope])
  {
  }

  lemma RepeatedScope(table: map<string, string>, scopes: seq<Scope>, i: nat, s: Scope)
    requires i < |scopes| && Tabulates(table, scopes[..i])
    requires s.id in table && table[s.id] == s.namespace
    requires s.id == scopes[i].id || s.namespace == scopes[i].namespace
    ensures !Accepted(scopes)
  {
    assert s in scopes[..i];
    var j :| 0 <= j < i && scopes[j] == s;
  }

  lemma TableGrows(table: map<string, string>, scopes: seq<Scope>, scope: Scope)
    requires Tabulates(table, scopes)
    requires scope.id !in table && scope.namespace !in table.Values
    ensures Tabulates(table[scope.id := scope.namespace], scopes + [scope])
  {
    var grown := table[scope.id := scope.namespace];
    assert grown.Keys == table.Keys + {scope.id};
    assert |grown.Keys| == |table.Keys| + 1;
    forall id | id in table ensures grown[id] == table[id] != scope.namespace {
      assert table[id] in table.Values;
    }
    forall s ensures s in scopes + [scope] <==> s.id in grown && grown[s.id] == s.namespace {
      assert s in scopes + [scope] <==> s in scopes || s == scope;
    }
  }

  lemma ValuesGrow(table: map<string, string>, scope: Scope)
    requires scope.id !in table
    ensures table[scope.id := scope.namespace].Values == table.Values + {scope.namespace}
  {
    var grown := table[scope.id := scope.namespace];
    forall v | v in table.Values ensures v in grown.Values {
      var id :| id in table && table[id] == v;
      assert grown[id] == v;
    }
    assert grown[scope.id] == scope.namespace;
  }

  ghost predicate IdsAscend(scopes: seq<Scope>) {
    forall i, j | 0 <= i < j < |scopes| :: Compare(scopes[i].id, scopes[j].id) < 0
  }

  /** The scopes of the table in strictly ascending order of their identifiers. */
  ghost predicate Enumerates(table: map<string, string>, scopes: seq<Scope>) {
    && IdsAscend(scopes)
    && forall s :: s in scopes <==> s.id in table && table[s.id] == s.namespace
  }

  /** What `selectedScopes` selects: the one scope asked for, or all of them in order. */
  ghost predicate Selects(table: map<string, string>, scopeID: string, scopes: seq<Scope>) {
    if scopeID == "" then Enumerates(table, scopes)
    else scopeID in table && scopes == [Scope(scopeID, table[scopeID])]
  }

  /** The comparison `selectedScopes` sorts by. */
  function CompareScopes(a: Scope, b: Scope): int {
    if Compare(a.id, b.id) < 0 then -1
    else if Compare(a.id, b.id) > 0 then 1
    else 0
  }

  lemma CompareScopesIsTotalPreorder()
    ensures TotalPreorder(CompareScopes)
  {
    forall a, b ensures FlipsAt(CompareScopes, a, b) {
      CompareIsAntisymmetric(a.id, b.id);
    }
    forall a, b, c ensures TransitiveAt(CompareScopes, a, b, c) {
      if CompareScopes(a, b) <= 0 && CompareScopes(b, c) <= 0 {
        CompareIsTransitive(a.id, b.id, c.id);
      }
    }
  }

  method SelectScopes(table: map<string, string>, scopeID: string, unknown: Sentinel) returns (r: Result<seq<Scope>>)
    ensures r.Ok? <==> scopeID == "" || scopeID in table
    ensures r.Ok? ==> Selects(table, scopeID, r.value)
    ensures r.Err? ==> r.error == Value(unknown)
  {
    if scopeID != "" {
      if scopeID !in table {
        return Err(Value(unknown));
      }
      return Ok([Scope(scopeID, table[scopeID])]);
    }
    var scopes: seq<Scope> := [];
    var rest := table.Keys;
    while rest != {}
      invariant rest <= table.Keys
      invariant forall s :: s in scopes <==> s.id in table && s.id !in rest && table[s.id] == s.namespace
      invariant forall i, j | 0 <= i < j < |scopes| :: scopes[i].id != scopes[j].id
    {
      var id :| id in rest;
      scopes := scopes + [Scope(id, table[id])];
      rest := rest - {id};
    }
    CompareScopesIsTotalPreorder();
    var sorted := SortSlice(scopes, CompareScopes);
    SortedScopesAscend(scopes, sorted);
    return Ok(sorted);
  }

  lemma SortedScopesAscend(scopes: seq<Scope>, sorted: seq<Scope>)
    requires IsSorting(CompareScopes, scopes, sorted)
    requires forall i, j | 0 <= i < j < |scopes| :: scopes[i].id != scopes[j].id
    ensures IdsAscend(sorted)
    ensures forall s :: s in sorted <==> s in scopes
  {
    SortingKeepsMembers(CompareScopes, scopes, sorted);
    forall i, j | 0 <= i < j < |scopes| ensures CompareScopes(scopes[i], scopes[j]) != 0 {
      CompareIsAntisymmetric(scopes[i].id, scopes[j].id);
    }
    CompareScopesIsTotalPreorder();
    SortingIsStrict(CompareScopes, scopes, sorted);
    forall i, j | 0 <= i < j < |sorted| ensures Compare(sorted[i].id, sorted[j].id) < 0 {
      assert CompareScopes(sorted[i], sorted[j]) < 0;
    }
  }

  /** There is only one selection, so results do not depend on the iteration order of the table. */
  lemma SelectionIsUnique(table: map<string, string>, scopeID: string, a: seq<Scope>, b: seq<Scope>)
    requires Selects(table, scopeID, a) && Selects(table, scopeID, b)
    ensures a == b
  {
    if scopeID == "" {
      CompareScopesIsTotalPreorder();
      StrictOrderIsUnique(CompareScopes, a, b);
    }
  }

  lemma EnumerationLength(table: map<string, string>, scopes: seq<Scope>)
    requires Enumerates(table, scopes)
    ensures |scopes| == |table|
  {
    hide Compare;
    var ids := seq(|scopes|, i requires 0 <= i < |scopes| => scopes[i].id);
    forall i, j | 0 <= i < j < |ids| ensures ids[i] != ids[j] {
      assert ids[i] == scopes[i].id && ids[j] == scopes[j].id;
      assert Compare(scopes[i].id, scopes[j].id) < 0;
      CompareIsAntisymmetric(ids[i], ids[j]);
    }
    DistinctSize(ids);
    forall id ensures id in ids <==> id in table.Keys {
      if id in table {
        assert Scope(id, table[id]) in scopes;
        var i :| 0 <= i < |scopes| && scopes[i] == Scope(id, table[id]);
        assert ids[i] == id;
      }
      if i :| 0 <= i < |ids| && ids[i] == id { assert scopes[i] in scopes; }
    }
    assert (set id | id in ids) == table.Keys;
  }

  /** Every table can be enumerated. */
  lemma EnumerationExists(table: map<string, string>) returns (scopes: seq<Scope>)
    ensures Enumerates(table, scopes)
  {
    var some := SomeOrder(table, table.Keys);
    CompareScopesIsTotalPreorder();
    scopes := SortingExists(CompareScopes, some);
    SortedScopesAscend(some, scopes);
  }

  lemma {:induction false} SomeOrder(table: map<string, string>, ids: set<string>) returns (scopes: seq<Scope>)
    requires ids <= table.Keys
    ensures forall s :: s in scopes <==> s.id in ids && table[s.id] == s.namespace
    ensures forall i, j | 0 <= i < j < |scopes| :: scopes[i].id != scopes[j].id
  {
    if ids == {} {
      scopes := [];
    } else {
      var id :| id in ids;
      var rest := SomeOrder(table, ids - {id});
      scopes := rest + [Scope(id, table[id])];
    }
  }

  lemma SelectionExists(table: map<string, string>, scopeID: string) returns (scopes: seq<Scope>)
    requires scopeID == "" || scopeID in table
    ensures Selects(table, scopeID, scopes)
  {
    if scopeID == "" {
      scopes := EnumerationExists(table);
    } else {
      scopes := [Scope(scopeID, table[scopeID])];
    }
  }

  lemma EnumerationIsDistinct(table: map<string, string>, scopes: seq<Scope>)
    requires Enumerates(table, scopes)
    ensures Distinct(scopes)
  {
    hide Compare;
    forall i, j | 0 <= i < j < |scopes| ensures scopes[i] != scopes[j] {
      CompareIsAntisymmetric(scopes[i].id, scopes[j].id);
    }
  }

  /** A table `BuildTable` may have built. */
  ghost predicate ValidTable(table: map<string, string>) {
    && 1 <= |table| <= MAX_TARGETS
    && (forall id | id in table :: Identifier(id) && Label(table[id]))
    && forall id, other | id in table && other in table && table[id] == table[other] :: id == other
  }

  lemma TablesAreValid(table: map<string, string>, configured: seq<Scope>)
    requires Accepted(configured) && Tabulates(table, configured)
    ensures ValidTable(table)
  {
    forall id | id in table ensures Identifier(id) && Label(table[id]) {
      assert Scope(id, table[id]) in configured;
    }
  }

  lemma SelectedScopesAscend(table: map<string, string>, scopeID: string, scopes: seq<Scope>)
    requires ValidTable(table) && Selects(table, scopeID, scopes)
    ensures Ascending(scopes)
  {
    forall s | s in scopes ensures Identifier(s.id) {
      assert s.id in table;
    }
  }
}
